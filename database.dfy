/** The database as a value: five tables keyed by primary key, the
    constraints the schema declares (foreign keys, the two one-to-one links
    of an active client), what saving a row does, and what deleting a row
    does when every relation cascades. */
module Database {
  import opened Wrappers
  import opened Models
  import Collections

  datatype Db = Db(
    services: map<Id, Service>,
    campaigns: map<Id, Campaign>,
    potentialClients: map<Id, PotentialClient>,
    contracts: map<Id, Contract>,
    activeClients: map<Id, ActiveClient>)

  const Empty := Db(map[], map[], map[], map[], map[])

  /** The primary keys present in table `t`. */
  function Keys(db: Db, t: Table): set<Id>
  {
    match t
    case Services => db.services.Keys
    case Campaigns => db.campaigns.Keys
    case PotentialClients => db.potentialClients.Keys
    case Contracts => db.contracts.Keys
    case ActiveClients => db.activeClients.Keys
  }

  /** Every foreign key and one-to-one key points at an existing row. */
  ghost predicate Integrity(db: Db)
  {
    && (forall k | k in db.campaigns :: db.campaigns[k].service in db.services)
    && (forall k | k in db.contracts :: db.contracts[k].service in db.services)
    && (forall k | k in db.potentialClients :: db.potentialClients[k].campaign in db.campaigns)
    && (forall k | k in db.activeClients ::
          db.activeClients[k].potentialClient in db.potentialClients &&
          db.activeClients[k].contract in db.contracts)
  }

  /** No two active clients share a potential client, and none share a contract. */
  ghost predicate Unique(db: Db)
  {
    forall a, b | a in db.activeClients && b in db.activeClients && a != b ::
      db.activeClients[a].potentialClient != db.activeClients[b].potentialClient &&
      db.activeClients[a].contract != db.activeClients[b].contract
  }

  /** The CHECK constraint the table declares for a positive integer
      field: no contract has a negative validity period. */
  ghost predicate Checked(db: Db)
  {
    forall k | k in db.contracts :: db.contracts[k].validityPeriod >= 0
  }

  /** What the database itself enforces. */
  ghost predicate Valid(db: Db)
  {
    Integrity(db) && Unique(db) && Checked(db)
  }

  /** Valid, and every stored row also passed field validation. */
  ghost predicate Clean(db: Db)
  {
    && Valid(db)
    && ServicesOk(db.services)
    && CampaignsOk(db.campaigns)
    && PotentialClientsOk(db.potentialClients)
    && ContractsOk(db.contracts)
  }

  ghost predicate ServicesOk(m: map<Id, Service>)
  {
    forall k | k in m :: FieldsOk(ServiceRow(m[k]))
  }

  ghost predicate CampaignsOk(m: map<Id, Campaign>)
  {
    forall k | k in m :: FieldsOk(CampaignRow(m[k]))
  }

  ghost predicate PotentialClientsOk(m: map<Id, PotentialClient>)
  {
    forall k | k in m :: FieldsOk(PotentialClientRow(m[k]))
  }

  ghost predicate ContractsOk(m: map<Id, Contract>)
  {
    forall k | k in m :: FieldsOk(ContractRow(m[k]))
  }

  /** Some active client other than `self` is linked to potential client `p`. */
  predicate PotentialClientTaken(db: Db, p: Id, self: Option<Id>)
  {
    exists b | b in db.activeClients :: Some(b) != self && db.activeClients[b].potentialClient == p
  }

  /** Some active client other than `self` is linked to contract `k`. */
  predicate ContractTaken(db: Db, k: Id, self: Option<Id>)
  {
    exists b | b in db.activeClients :: Some(b) != self && db.activeClients[b].contract == k
  }

  /** The constraints the database checks when `row` is written, as a new
      row (`self == None`) or over the row with key `self`. */
  predicate Admissible(db: Db, row: Row, self: Option<Id>)
  {
    match row
    case ServiceRow(_) => true
    case CampaignRow(c) => c.service in db.services
    case PotentialClientRow(p) => p.campaign in db.campaigns
    case ContractRow(k) => k.service in db.services && k.validityPeriod >= 0
    case ActiveClientRow(a) =>
      && a.potentialClient in db.potentialClients
      && a.contract in db.contracts
      && !PotentialClientTaken(db, a.potentialClient, self)
      && !ContractTaken(db, a.contract, self)
  }

  /** Writing `row` under key `id` of its table. */
  function Put(db: Db, id: Id, row: Row): Db
  {
    match row
    case ServiceRow(s) => db.(services := db.services[id := s])
    case CampaignRow(c) => db.(campaigns := db.campaigns[id := c])
    case PotentialClientRow(p) => db.(potentialClients := db.potentialClients[id := p])
    case ContractRow(k) => db.(contracts := db.contracts[id := k])
    case ActiveClientRow(a) => db.(activeClients := db.activeClients[id := a])
  }

  /** The keys a deletion removes, table by table. */
  datatype Doomed = Doomed(
    services: set<Id>,
    campaigns: set<Id>,
    potentialClients: set<Id>,
    contracts: set<Id>,
    activeClients: set<Id>)

  function Only(cond: bool, id: Id): set<Id>
  {
    if cond then {id} else {}
  }

  /** The rows that deleting row `id` of table `t` takes with it, following
      every relation's CASCADE from parent to child: services to their
      campaigns and contracts, campaigns to their potential clients, and
      potential clients and contracts to the active clients linked to them. */
  function Collect(db: Db, t: Table, id: Id): Doomed
  {
    var ss := Only(t == Services, id);
    var cs := Only(t == Campaigns, id) + set k | k in db.campaigns && db.campaigns[k].service in ss;
    var ks := Only(t == Contracts, id) + set k | k in db.contracts && db.contracts[k].service in ss;
    var ps := Only(t == PotentialClients, id) + set k | k in db.potentialClients && db.potentialClients[k].campaign in cs;
    var acs := Only(t == ActiveClients, id) +
      set k | k in db.activeClients && (db.activeClients[k].potentialClient in ps || db.activeClients[k].contract in ks);
    Doomed(ss, cs, ps, ks, acs)
  }

  function Remove(db: Db, d: Doomed): Db
  {
    Db(db.services - d.services,
       db.campaigns - d.campaigns,
       db.potentialClients - d.potentialClients,
       db.contracts - d.contracts,
       db.activeClients - d.activeClients)
  }

  /** Deleting row `id` of table `t` together with everything that cascades from it. */
  function Delete(db: Db, t: Table, id: Id): Db
  {
    Remove(db, Collect(db, t, id))
  }

  /** `a` holds some of the rows of `b`, each unchanged. */
  ghost predicate SubDb(a: Db, b: Db)
  {
    && (forall k | k in a.services :: k in b.services && a.services[k] == b.services[k])
    && (forall k | k in a.campaigns :: k in b.campaigns && a.campaigns[k] == b.campaigns[k])
    && (forall k | k in a.potentialClients :: k in b.potentialClients && a.potentialClients[k] == b.potentialClients[k])
    && (forall k | k in a.contracts :: k in b.contracts && a.contracts[k] == b.contracts[k])
    && (forall k | k in a.activeClients :: k in b.activeClients && a.activeClients[k] == b.activeClients[k])
  }

  /** The keys of every table of a part are keys of the whole. */
  lemma SubDbKeys(a: Db, b: Db)
    requires SubDb(a, b)
    ensures forall t, k | k in Keys(a, t) :: k in Keys(b, t)
  {
  }

  // ---------------------------------------------------------------------
  // Saving

  /** Writing a row adds its key to its own table and changes no other
      table's keys. */
  lemma KeysOfPut(db: Db, id: Id, row: Row)
    ensures forall t, k :: k in Keys(Put(db, id, row), t) <==>
      k in Keys(db, t) || (t == TableOf(row) && k == id)
  {
  }

  /** A write the database admits keeps it valid: a new row under a fresh
      key, or a changed row under its own key. */
  lemma PutKeepsValid(db: Db, id: Id, row: Row, self: Option<Id>)
    requires Valid(db)
    requires Admissible(db, row, self)
    requires self == None ==> id !in Keys(db, TableOf(row))
    requires self != None ==> self == Some(id) && id in Keys(db, TableOf(row))
    ensures Valid(Put(db, id, row))
  {
    var db' := Put(db, id, row);
    if row.ActiveClientRow? {
      var a := row.activeClient;
      forall x, y | x in db'.activeClients && y in db'.activeClients && x != y
        ensures db'.activeClients[x].potentialClient != db'.activeClients[y].potentialClient
        ensures db'.activeClients[x].contract != db'.activeClients[y].contract
      {
        if x == id {
          assert Some(y) != self && y in db.activeClients;
        } else if y == id {
          assert Some(x) != self && x in db.activeClients;
        }
      }
    }
  }

  /** A clean database stays clean when a row that passed field validation is written. */
  lemma PutKeepsClean(db: Db, id: Id, row: Row, self: Option<Id>)
    requires Clean(db)
    requires FieldsOk(row) && Admissible(db, row, self)
    requires self == None ==> id !in Keys(db, TableOf(row))
    requires self != None ==> self == Some(id) && id in Keys(db, TableOf(row))
    ensures Clean(Put(db, id, row))
  {
    PutKeepsValid(db, id, row, self);
  }

  /** For a link whose two targets exist, the database admits it exactly when
      writing it keeps every potential client and every contract behind at
      most one active client. */
  lemma LinkAdmittedIffUnique(db: Db, id: Id, a: ActiveClient, self: Option<Id>)
    requires Unique(db)
    requires a.potentialClient in db.potentialClients && a.contract in db.contracts
    requires self == None ==> id !in db.activeClients
    requires self != None ==> self == Some(id) && id in db.activeClients
    ensures Admissible(db, ActiveClientRow(a), self) <==> Unique(Put(db, id, ActiveClientRow(a)))
  {
    var db' := Put(db, id, ActiveClientRow(a));
    if PotentialClientTaken(db, a.potentialClient, self) {
      var b :| b in db.activeClients && Some(b) != self && db.activeClients[b].potentialClient == a.potentialClient;
      assert b in db'.activeClients && id in db'.activeClients && b != id;
    } else if ContractTaken(db, a.contract, self) {
      var b :| b in db.activeClients && Some(b) != self && db.activeClients[b].contract == a.contract;
      assert b in db'.activeClients && id in db'.activeClients && b != id;
    } else {
      PutKeepsValidUnique(db, id, a, self);
    }
  }

  lemma PutKeepsValidUnique(db: Db, id: Id, a: ActiveClient, self: Option<Id>)
    requires Unique(db)
    requires !PotentialClientTaken(db, a.potentialClient, self) && !ContractTaken(db, a.contract, self)
    requires self == None ==> id !in db.activeClients
    requires self != None ==> self == Some(id)
    ensures Unique(Put(db, id, ActiveClientRow(a)))
  {
    var db' := Put(db, id, ActiveClientRow(a));
    forall x, y | x in db'.activeClients && y in db'.activeClients && x != y
      ensures db'.activeClients[x].potentialClient != db'.activeClients[y].potentialClient
      ensures db'.activeClients[x].contract != db'.activeClients[y].contract
    {
      if x == id {
        assert Some(y) != self && y in db.activeClients;
      } else if y == id {
        assert Some(x) != self && x in db.activeClients;
      }
    }
  }

  // ---------------------------------------------------------------------
  // Cascading delete

  /** A deletion removes its target, keeps the rest of its rows unchanged and
      leaves no row pointing at a removed one. */
  lemma DeleteKeepsValid(db: Db, t: Table, id: Id)
    requires Valid(db)
    ensures SubDb(Delete(db, t, id), db)
    ensures id !in Keys(Delete(db, t, id), t)
    ensures Valid(Delete(db, t, id))
  {
  }

  /** The cascade removes nothing it need not: every part of `db` that lacks
      the target and in which every key points at an existing row is kept
      by the deletion. Together with DeleteKeepsValid, Delete(db, t, id) is
      the largest such part of `db`. */
  lemma DeleteRemovesOnlyDependents(db: Db, t: Table, id: Id, part: Db)
    requires SubDb(part, db) && Integrity(part) && id !in Keys(part, t)
    ensures SubDb(part, Delete(db, t, id))
  {
    var d := Collect(db, t, id);
    PartNotCollected(db, t, id, part);
    RemoveKeepsDisjointPart(db, d, part);
  }

  /** No row of such a part is collected by the cascade. */
  lemma PartNotCollected(db: Db, t: Table, id: Id, part: Db)
    requires SubDb(part, db) && Integrity(part) && id !in Keys(part, t)
    ensures var d := Collect(db, t, id);
      && (forall k | k in part.services :: k !in d.services)
      && (forall k | k in part.campaigns :: k !in d.campaigns)
      && (forall k | k in part.contracts :: k !in d.contracts)
      && (forall k | k in part.potentialClients :: k !in d.potentialClients)
      && (forall k | k in part.activeClients :: k !in d.activeClients)
  {
    var d := Collect(db, t, id);
    forall k | k in part.campaigns ensures k !in d.campaigns {
      assert part.campaigns[k] == db.campaigns[k];
      assert db.campaigns[k].service in part.services;
    }
    forall k | k in part.contracts ensures k !in d.contracts {
      assert part.contracts[k] == db.contracts[k];
      assert db.contracts[k].service in part.services;
    }
    forall k | k in part.potentialClients ensures k !in d.potentialClients {
      assert part.potentialClients[k] == db.potentialClients[k];
      assert db.potentialClients[k].campaign in part.campaigns;
    }
    forall k | k in part.activeClients ensures k !in d.activeClients {
      assert part.activeClients[k] == db.activeClients[k];
      assert db.activeClients[k].potentialClient in part.potentialClients;
      assert db.activeClients[k].contract in part.contracts;
    }
  }

  /** Removing keys that a part does not hold keeps the part. */
  lemma RemoveKeepsDisjointPart(db: Db, d: Doomed, part: Db)
    requires SubDb(part, db)
    requires forall k | k in part.services :: k !in d.services
    requires forall k | k in part.campaigns :: k !in d.campaigns
    requires forall k | k in part.contracts :: k !in d.contracts
    requires forall k | k in part.potentialClients :: k !in d.potentialClients
    requires forall k | k in part.activeClients :: k !in d.activeClients
    ensures SubDb(part, Remove(db, d))
  {
  }

  /** Deleting a service removes its campaigns and contracts, the potential
      clients of those campaigns, and every active client linked to a removed
      potential client or contract; every other row stays. */
  lemma DeleteServiceCascade(db: Db, s: Id)
    requires Integrity(db)
    ensures Delete(db, Services, s).services == db.services - {s}
    ensures forall k :: k in Delete(db, Services, s).campaigns <==>
      k in db.campaigns && db.campaigns[k].service != s
    ensures forall k :: k in Delete(db, Services, s).contracts <==>
      k in db.contracts && db.contracts[k].service != s
    ensures forall k :: k in Delete(db, Services, s).potentialClients <==>
      k in db.potentialClients && db.potentialClients[k].campaign in Delete(db, Services, s).campaigns
    ensures forall k :: k in Delete(db, Services, s).activeClients <==>
      && k in db.activeClients
      && db.activeClients[k].potentialClient in Delete(db, Services, s).potentialClients
      && db.activeClients[k].contract in Delete(db, Services, s).contracts
    ensures SubDb(Delete(db, Services, s), db)
  {
  }

  /** Deleting a campaign removes its potential clients and their active
      clients; services, contracts and the other campaigns stay. */
  lemma DeleteCampaignCascade(db: Db, c: Id)
    requires Integrity(db)
    ensures Delete(db, Campaigns, c).services == db.services
    ensures Delete(db, Campaigns, c).contracts == db.contracts
    ensures Delete(db, Campaigns, c).campaigns == db.campaigns - {c}
    ensures forall k :: k in Delete(db, Campaigns, c).potentialClients <==>
      k in db.potentialClients && db.potentialClients[k].campaign != c
    ensures forall k :: k in Delete(db, Campaigns, c).activeClients <==>
      k in db.activeClients && db.activeClients[k].potentialClient in Delete(db, Campaigns, c).potentialClients
    ensures SubDb(Delete(db, Campaigns, c), db)
  {
  }

  /** Deleting a potential client removes it and the one active client
      linked to it, if there is one; nothing else changes. */
  lemma DeletePotentialClientCascade(db: Db, p: Id)
    requires Unique(db)
    ensures var db' := Delete(db, PotentialClients, p);
      && db'.services == db.services && db'.campaigns == db.campaigns && db'.contracts == db.contracts
      && db'.potentialClients == db.potentialClients - {p}
      && db'.activeClients == db.activeClients - LinkedTo(db, PotentialClients, p)
      && |db.activeClients.Keys - db'.activeClients.Keys| <= 1
  {
    CollectPotentialClient(db, p);
    LinkedToAtMostOne(db, PotentialClients, p);
    var gone := LinkedTo(db, PotentialClients, p);
    Collections.MinusNothing(db.services);
    Collections.MinusNothing(db.campaigns);
    Collections.MinusNothing(db.contracts);
    Collections.SetExt(db.activeClients.Keys - (db.activeClients - gone).Keys, gone);
  }

  lemma CollectPotentialClient(db: Db, p: Id)
    ensures Collect(db, PotentialClients, p) == Doomed({}, {}, {p}, {}, LinkedTo(db, PotentialClients, p))
  {
    var d := Collect(db, PotentialClients, p);
    Collections.SetExt(d.campaigns, {});
    Collections.SetExt(d.contracts, {});
    Collections.SetExt(d.potentialClients, {p});
    Collections.SetExt(d.activeClients, LinkedTo(db, PotentialClients, p));
  }

  /** Deleting a contract removes it and the one active client linked to
      it, if there is one; nothing else changes. */
  lemma DeleteContractCascade(db: Db, k: Id)
    requires Unique(db)
    ensures var db' := Delete(db, Contracts, k);
      && db'.services == db.services && db'.campaigns == db.campaigns
      && db'.potentialClients == db.potentialClients
      && db'.contracts == db.contracts - {k}
      && db'.activeClients == db.activeClients - LinkedTo(db, Contracts, k)
      && |db.activeClients.Keys - db'.activeClients.Keys| <= 1
  {
    CollectContract(db, k);
    LinkedToAtMostOne(db, Contracts, k);
    var gone := LinkedTo(db, Contracts, k);
    Collections.MinusNothing(db.services);
    Collections.MinusNothing(db.campaigns);
    Collections.MinusNothing(db.potentialClients);
    Collections.SetExt(db.activeClients.Keys - (db.activeClients - gone).Keys, gone);
  }

  lemma CollectContract(db: Db, k: Id)
    ensures Collect(db, Contracts, k) == Doomed({}, {}, {}, {k}, LinkedTo(db, Contracts, k))
  {
    var d := Collect(db, Contracts, k);
    Collections.SetExt(d.campaigns, {});
    Collections.SetExt(d.contracts, {k});
    Collections.SetExt(d.potentialClients, {});
    Collections.SetExt(d.activeClients, LinkedTo(db, Contracts, k));
  }

  /** The active clients linked to potential client or contract `id`. */
  function LinkedTo(db: Db, t: Table, id: Id): set<Id>
  {
    set a | a in db.activeClients &&
      ((t == PotentialClients && db.activeClients[a].potentialClient == id) ||
       (t == Contracts && db.activeClients[a].contract == id))
  }

  /** One-to-one: at most one active client is linked to a given potential
      client or contract. */
  lemma LinkedToAtMostOne(db: Db, t: Table, id: Id)
    requires Unique(db)
    ensures |LinkedTo(db, t, id)| <= 1
  {
    var gone := LinkedTo(db, t, id);
    forall x, y | x in gone && y in gone ensures x == y { }
    Collections.AllEqualAtMostOne(gone);
  }

  /** Deleting an active client removes nothing else. */
  lemma DeleteActiveClientAlone(db: Db, a: Id)
    ensures Delete(db, ActiveClients, a) == db.(activeClients := db.activeClients - {a})
  {
  }

  /** A part of a valid or clean database is valid or clean too. */
  lemma SubDbKeepsClean(part: Db, db: Db)
    requires SubDb(part, db) && Integrity(part)
    ensures Unique(db) ==> Unique(part)
    ensures Clean(db) ==> Clean(part)
  {
  }

  /** Deletion preserves a clean database. */
  lemma DeleteKeepsClean(db: Db, t: Table, id: Id)
    requires Clean(db)
    ensures Clean(Delete(db, t, id))
  {
    DeleteKeepsValid(db, t, id);
    SubDbKeepsClean(Delete(db, t, id), db);
  }

  /** In a clean database an active client shows as its potential client's
      full name, at most 100 characters; every other row shows within its
      own name bound. */
  lemma StrWithinBound(db: Db, t: Table, id: Id)
    requires Clean(db) && id in Keys(db, t)
    ensures t == ActiveClients ==>
      var p := db.potentialClients[db.activeClients[id].potentialClient];
      var s := Str(ActiveClientRow(db.activeClients[id]), p.fullName);
      s == p.fullName && |s| <= MaxNameLength
    ensures t == Services ==> |Str(ServiceRow(db.services[id]), "")| <= MaxNameLength
    ensures t == Campaigns ==> |Str(CampaignRow(db.campaigns[id]), "")| <= MaxNameLength
    ensures t == PotentialClients ==> |Str(PotentialClientRow(db.potentialClients[id]), "")| <= MaxNameLength
    ensures t == Contracts ==> |Str(ContractRow(db.contracts[id]), "")| <= MaxNameLength
  {
    if t == ActiveClients {
      var p := db.activeClients[id].potentialClient;
      assert FieldsOk(PotentialClientRow(db.potentialClients[p]));
    }
  }
}
