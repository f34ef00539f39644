/** The request handling of the views: the login check, the view's
    permission test, the object lookup, the form and the write, in that
    order. `Respond` and `Apply` say what a request answers and what it does
    to the database; `HandleRequest` carries it out against the store. */
module Views {
  import opened Wrappers
  import opened Models
  import opened Database
  import opened Permissions
  import opened Statistics
  import opened Store

  /** A row of a table that has an ordinary create form; active clients are
      created through the potential client they convert. */
  type PlainRow = r: Row | !r.ActiveClientRow? witness ServiceRow(Service("", "", 0))

  /** A submitted request, with the form data it carries already decoded. */
  datatype Request =
    | CreateReq(entry: PlainRow)                     // POST to a create view
    | CreateActiveClientReq(pk: Id, contract: Id)    // POST to the active-client create view for potential client pk
    | UpdateReq(id: Id, row: Row)                    // POST to an update view
    | DeleteReq(table: Table, id: Id)                // POST to a delete view
    | ListReq(table: Table)
    | DetailReq(table: Table, id: Id)
    | StatisticsReq

  /** The exception a request can end in, shown as a server error. */
  datatype Fault = ImproperlyConfigured | DoesNotExist | IntegrityError | Arithmetic(cause: StatsError)

  datatype Response =
    | RedirectLogin                   // anonymous visitor sent to the login page
    | Forbidden                       // permission test failed
    | NotFound                        // no row under the key in the path
    | FormInvalid                     // the form is shown again with its errors
    | ServerError(fault: Fault)
    | Ok                              // page shown, or write done and redirect to the list
    | PotentialClientList(activeClientIds: set<Id>)
    | StatisticsPage(stats: Stats)

  /** The view a request is sent to. */
  function ViewOf(req: Request): View
  {
    match req
    case CreateReq(row) => ModelView(TableOf(row), Create)
    case CreateActiveClientReq(_, _) => ModelView(ActiveClients, Create)
    case UpdateReq(_, row) => ModelView(TableOf(row), Update)
    case DeleteReq(t, _) => ModelView(t, Delete)
    case ListReq(t) => ModelView(t, List)
    case DetailReq(t, _) => ModelView(t, Detail)
    case StatisticsReq => StatisticsView
  }

  /** The keys of the potential clients that already are active clients:
      the extra context of the potential-client list. A listed potential
      client appears exactly when some active client is linked to it. */
  function ActiveClientIds(db: Db): (r: set<Id>)
    ensures forall p :: p in r <==> p in db.potentialClients && PotentialClientTaken(db, p, None)
  {
    set a | a in db.activeClients && db.activeClients[a].potentialClient in db.potentialClients
      :: db.activeClients[a].potentialClient
  }

  /** The answer to a request once login and permission have passed. */
  ghost function Serve(db: Db, req: Request): Response
  {
    match req
    case CreateReq(row) =>
      if FieldsOk(row) && Admissible(db, row, None) then Ok else FormInvalid
    case CreateActiveClientReq(pk, k) =>
      // The form holds only the contract; the potential client comes from
      // the path after the form is valid, and its uniqueness is left to
      // the database.
      if k !in db.contracts || ContractTaken(db, k, None) then FormInvalid
      else if pk !in db.potentialClients then ServerError(DoesNotExist)
      else if PotentialClientTaken(db, pk, None) then ServerError(IntegrityError)
      else Ok
    case UpdateReq(id, row) =>
      if id !in Keys(db, TableOf(row)) then NotFound
      else if FieldsOk(row) && Admissible(db, row, Some(id)) then Ok
      else FormInvalid
    case DeleteReq(t, id) =>
      if id !in Keys(db, t) then NotFound else Ok
    case ListReq(t) =>
      if t == PotentialClients then PotentialClientList(ActiveClientIds(db)) else Ok
    case DetailReq(t, id) =>
      if id !in Keys(db, t) then NotFound else Ok
    case StatisticsReq =>
      match StatisticsOf(db.potentialClients, db.activeClients, db.contracts, db.campaigns)
      case Failure(e) => ServerError(Arithmetic(e))
      case Success(s) => StatisticsPage(s)
  }

  /** The answer to a request by `user` on database `db`. */
  ghost function Respond(db: Db, user: User, req: Request): Response
  {
    if !user.authenticated then RedirectLogin
    else match Check(Required(ViewOf(req)), user)
      case ConfigError => ServerError(ImproperlyConfigured)
      case Deny => Forbidden
      case Allow => Serve(db, req)
  }

  /** The rows a request's write produces, with `id` the key a new row gets. */
  function Apply(db: Db, req: Request, id: Id): Db
  {
    match req
    case CreateReq(row) => Put(db, id, row)
    case CreateActiveClientReq(pk, k) => Put(db, id, ActiveClientRow(ActiveClient(pk, k)))
    case UpdateReq(key, row) => Put(db, key, row)
    case DeleteReq(t, key) => Database.Delete(db, t, key)
    case _ => db
  }

  predicate IsCreate(req: Request)
  {
    req.CreateReq? || req.CreateActiveClientReq?
  }

  /** The row a create request writes. */
  function NewRow(req: Request): Row
    requires IsCreate(req)
  {
    match req
    case CreateReq(row) => row
    case CreateActiveClientReq(pk, k) => ActiveClientRow(ActiveClient(pk, k))
  }

  /** Handles one request against the store: answers as `Respond` does,
      writes only when the answer is Ok, and then writes what `Apply` says.
      A create returns the new row's key. */
  method HandleRequest(store: Store, user: User, req: Request) returns (resp: Response, newId: Option<Id>)
    requires store.Valid()
    modifies store
    ensures store.Valid()
    ensures old(Clean(store.State())) ==> Clean(store.State())
    ensures resp == Respond(old(store.State()), user, req)
    ensures newId.Some? <==> resp == Ok && IsCreate(req)
    ensures newId.Some? ==> newId.value !in Keys(old(store.State()), TableOf(NewRow(req)))
    ensures resp == Ok ==> store.State() == Apply(old(store.State()), req, if newId.Some? then newId.value else 0)
    ensures resp != Ok ==> store.State() == old(store.State())
  {
    newId := None;
    if !user.authenticated {
      return RedirectLogin, None;
    }
    var decision := Check(Required(ViewOf(req)), user);
    if decision == ConfigError {
      return ServerError(ImproperlyConfigured), None;
    } else if decision == Deny {
      return Forbidden, None;
    }
    ghost var db := store.State();
    match req {
      case CreateReq(row) =>
        if !(FieldsOk(row) && Admissible(store.State(), row, None)) {
          return FormInvalid, None;
        }
        newId := store.Insert(row);
        if Clean(db) {
          PutKeepsClean(db, newId.value, row, None);
        }
        resp := Ok;
      case CreateActiveClientReq(pk, k) =>
        if k !in store.contracts || ContractTaken(store.State(), k, None) {
          return FormInvalid, None;
        }
        if pk !in store.potentialClients {
          return ServerError(DoesNotExist), None;
        }
        var row := ActiveClientRow(ActiveClient(pk, k));
        newId := store.Insert(row);
        if newId.None? {
          return ServerError(IntegrityError), None;
        }
        if Clean(db) {
          PutKeepsClean(db, newId.value, row, None);
        }
        resp := Ok;
      case UpdateReq(id, row) =>
        if id !in Keys(store.State(), TableOf(row)) {
          return NotFound, None;
        }
        if !FieldsOk(row) {
          return FormInvalid, None;
        }
        var saved := store.Save(id, row);
        if !saved {
          return FormInvalid, None;
        }
        if Clean(db) {
          PutKeepsClean(db, id, row, Some(id));
        }
        resp := Ok;
      case DeleteReq(t, id) =>
        if id !in Keys(store.State(), t) {
          return NotFound, None;
        }
        store.Delete(t, id);
        if Clean(db) {
          DeleteKeepsClean(db, t, id);
        }
        resp := Ok;
      case ListReq(t) =>
        resp := if t == PotentialClients then PotentialClientList(ActiveClientIds(store.State())) else Ok;
      case DetailReq(t, id) =>
        resp := if id !in Keys(store.State(), t) then NotFound else Ok;
      case StatisticsReq =>
        var income := SumColumn(Amounts(store.contracts));
        var expenses := SumColumn(Budgets(store.campaigns));
        var ratio := IncomeExpensesRatio(income, expenses);
        resp := match ratio
          case Failure(e) => ServerError(Arithmetic(e))
          case Success(q) => StatisticsPage(Stats(|store.potentialClients|, |store.activeClients|, q));
    }
  }

  // ---------------------------------------------------------------------
  // Properties of the request handling

  /** Anonymous visitors are sent to the login page, and only they are. */
  lemma LoginRequired(db: Db, user: User, req: Request)
    ensures Respond(db, user, req) == RedirectLogin <==> !user.authenticated
  {
  }

  /** A logged-in user is refused exactly when the view's permission test fails. */
  lemma ForbiddenIffDenied(db: Db, user: User, req: Request)
    ensures Respond(db, user, req) == Forbidden <==>
      user.authenticated && Check(Required(ViewOf(req)), user) == Deny
  {
  }

  /** No view raises the configuration error of a group test without groups. */
  lemma NeverMisconfigured(db: Db, user: User, req: Request)
    ensures Respond(db, user, req) != ServerError(ImproperlyConfigured)
  {
    NoViewMisconfigured(ViewOf(req), user);
  }

  /** Whatever gets past the two gates was asked for by a logged-in user
      whose permission test allowed the view. */
  lemma ServedOnlyWhenAllowed(db: Db, user: User, req: Request)
    requires Respond(db, user, req) !in {RedirectLogin, Forbidden}
    ensures user.authenticated && Check(Required(ViewOf(req)), user) == Allow
  {
    NoViewMisconfigured(ViewOf(req), user);
  }

  /** Deleting anything needs a superuser. */
  lemma OnlySuperusersDelete(db: Db, user: User, t: Table, id: Id)
    requires Respond(db, user, DeleteReq(t, id)) == Ok
    ensures user.authenticated && user.isSuperuser
  {
  }

  /** A successful write keeps every constraint and field bound. */
  lemma OkWriteKeepsClean(db: Db, user: User, req: Request, id: Id)
    requires Clean(db) && Respond(db, user, req) == Ok
    requires IsCreate(req) ==> id !in Keys(db, TableOf(NewRow(req)))
    ensures Clean(Apply(db, req, id))
  {
    match req {
      case CreateReq(row) => PutKeepsClean(db, id, row, None);
      case CreateActiveClientReq(pk, k) => PutKeepsClean(db, id, ActiveClientRow(ActiveClient(pk, k)), None);
      case UpdateReq(key, row) => PutKeepsClean(db, key, row, Some(key));
      case DeleteReq(t, key) => DeleteKeepsClean(db, t, key);
      case _ =>
    }
  }

  /** Converting a potential client links it to the contract in the form:
      the new active client is the one with the key in the path, and the
      potential client now shows as active in the list. */
  lemma ConversionLinksPathClient(db: Db, user: User, pk: Id, k: Id, id: Id)
    requires Respond(db, user, CreateActiveClientReq(pk, k)) == Ok
    ensures Apply(db, CreateActiveClientReq(pk, k), id).activeClients[id] == ActiveClient(pk, k)
    ensures pk in ActiveClientIds(Apply(db, CreateActiveClientReq(pk, k), id))
  {
    var db' := Apply(db, CreateActiveClientReq(pk, k), id);
    assert id in db'.activeClients && db'.activeClients[id].potentialClient in db'.potentialClients;
  }

  /** A contract that is missing or already linked makes the form invalid;
      a free contract with a missing potential client fails on the lookup,
      and one with an already converted potential client on the database's
      uniqueness constraint. A conversion succeeds exactly when the
      database admits the new link. */
  lemma ConversionOutcomes(db: Db, user: User, pk: Id, k: Id)
    requires user.authenticated && "Manager" in user.groups
    ensures (k !in db.contracts || ContractTaken(db, k, None)) ==>
      Respond(db, user, CreateActiveClientReq(pk, k)) == FormInvalid
    ensures k in db.contracts && !ContractTaken(db, k, None) && pk !in db.potentialClients ==>
      Respond(db, user, CreateActiveClientReq(pk, k)) == ServerError(DoesNotExist)
    ensures (k in db.contracts && !ContractTaken(db, k, None) && pk in db.potentialClients &&
             PotentialClientTaken(db, pk, None)) ==>
      Respond(db, user, CreateActiveClientReq(pk, k)) == ServerError(IntegrityError)
    ensures Respond(db, user, CreateActiveClientReq(pk, k)) == Ok <==>
      Admissible(db, ActiveClientRow(ActiveClient(pk, k)), None)
  {
    ActiveClientCreateView(user);
  }

  /** Updating an active client in a database without shared links
      succeeds exactly when no two active clients then share a potential
      client or a contract; otherwise the form is refused and nothing is
      written. */
  lemma ActiveClientUpdateKeepsLinksUnique(db: Db, user: User, id: Id, a: ActiveClient)
    requires Unique(db) && user.authenticated && user.isSuperuser
    requires id in db.activeClients && a.potentialClient in db.potentialClients && a.contract in db.contracts
    ensures Respond(db, user, UpdateReq(id, ActiveClientRow(a))) == Ok <==> Unique(Put(db, id, ActiveClientRow(a)))
    ensures Respond(db, user, UpdateReq(id, ActiveClientRow(a))) != Ok ==>
      Respond(db, user, UpdateReq(id, ActiveClientRow(a))) == FormInvalid
  {
    LinkAdmittedIffUnique(db, id, a, Some(id));
  }

  /** The statistics page is open to every logged-in user and shows the
      sizes of the two client tables and the ratio of the column sums. */
  lemma StatisticsPageFigures(db: Db, user: User)
    requires user.authenticated
    ensures var ratio := IncomeExpensesRatio(SumOf(Amounts(db.contracts)), SumOf(Budgets(db.campaigns)));
      match ratio
      case Success(q) =>
        Respond(db, user, StatisticsReq) == StatisticsPage(Stats(|db.potentialClients|, |db.activeClients|, q))
      case Failure(e) =>
        Respond(db, user, StatisticsReq) == ServerError(Arithmetic(e))
  {
  }

  /** In a valid database a potential client is listed as active exactly
      when an active client is linked to it, which is when converting it
      again is refused. */
  lemma ActiveClientIdsAreTaken(db: Db, p: Id)
    requires Valid(db)
    ensures p in ActiveClientIds(db) <==> PotentialClientTaken(db, p, None)
  {
    if PotentialClientTaken(db, p, None) {
      var b :| b in db.activeClients && db.activeClients[b].potentialClient == p;
      assert p in db.potentialClients;
    }
  }

  /** A successful contract creation raises the page's total income by the
      contract's amount. */
  lemma ContractCreationAddsIncome(db: Db, user: User, c: Contract, id: Id)
    requires Respond(db, user, CreateReq(ContractRow(c))) == Ok && id !in db.contracts
    ensures Total(Amounts(Apply(db, CreateReq(ContractRow(c)), id).contracts)) ==
      Total(Amounts(db.contracts)) + c.amount
  {
    IncomeWithContract(db.contracts, id, c);
  }

  /** A successful contract deletion lowers the page's total income by the
      contract's amount; the cascade removes no other contract. */
  lemma ContractDeletionRemovesIncome(db: Db, user: User, k: Id)
    requires Unique(db) && Respond(db, user, DeleteReq(Contracts, k)) == Ok
    ensures Total(Amounts(Apply(db, DeleteReq(Contracts, k), k).contracts)) ==
      Total(Amounts(db.contracts)) - db.contracts[k].amount
  {
    DeleteContractCascade(db, k);
    IncomeWithoutContract(db.contracts, k);
  }

  /** Reading pages changes nothing: the list, detail and statistics cases
      of `Apply`, stated on their own. */
  lemma ReadsChangeNothing(db: Db, req: Request, id: Id)
    requires req.ListReq? || req.DetailReq? || req.StatisticsReq?
    ensures Apply(db, req, id) == db
  {
  }
}
