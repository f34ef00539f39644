/** The shared, mutable entity store: five tables that requests change in
    place, with one primary-key sequence per table. */
module Store {
  import opened Wrappers
  import opened Models
  import opened Database

  class Store {
    var services: map<Id, Service>
    var campaigns: map<Id, Campaign>
    var potentialClients: map<Id, PotentialClient>
    var contracts: map<Id, Contract>
    var activeClients: map<Id, ActiveClient>

    // The next key each table's sequence hands out.
    var nextService: Id
    var nextCampaign: Id
    var nextPotentialClient: Id
    var nextContract: Id
    var nextActiveClient: Id

    /** The tables as a value. */
    function State(): Db
      reads this
    {
      Db(services, campaigns, potentialClients, contracts, activeClients)
    }

    /** The next key of table `t`. */
    function Next(t: Table): Id
      reads this
    {
      match t
      case Services => nextService
      case Campaigns => nextCampaign
      case PotentialClients => nextPotentialClient
      case Contracts => nextContract
      case ActiveClients => nextActiveClient
    }

    /** The database constraints hold and every sequence is past the keys in use. */
    ghost predicate Valid()
      reads this
    {
      && Database.Valid(State())
      && forall t, k | k in Keys(State(), t) :: k < Next(t)
    }

    /** An empty database; every sequence starts at 1. */
    constructor ()
      ensures Valid() && State() == Empty
      ensures forall t :: Next(t) == 1
    {
      services, campaigns, potentialClients, contracts, activeClients := map[], map[], map[], map[], map[];
      nextService, nextCampaign, nextPotentialClient, nextContract, nextActiveClient := 1, 1, 1, 1, 1;
    }

    /** Replaces the five tables, leaving the sequences alone. */
    method SetTables(db: Db)
      modifies this
      ensures State() == db
      ensures forall t :: Next(t) == old(Next(t))
    {
      services, campaigns, potentialClients, contracts, activeClients :=
        db.services, db.campaigns, db.potentialClients, db.contracts, db.activeClients;
    }

    /** Advances the sequence of table `t` by one. */
    method Advance(t: Table)
      modifies this
      ensures State() == old(State())
      ensures Next(t) == old(Next(t)) + 1
      ensures forall u | u != t :: Next(u) == old(Next(u))
    {
      match t
      case Services => nextService := nextService + 1;
      case Campaigns => nextCampaign := nextCampaign + 1;
      case PotentialClients => nextPotentialClient := nextPotentialClient + 1;
      case Contracts => nextContract := nextContract + 1;
      case ActiveClients => nextActiveClient := nextActiveClient + 1;
    }

    /** Saving a new instance: the row gets the next key of its table, or the
        database refuses it (an integrity error) and nothing changes. */
    method Insert(row: Row) returns (r: Option<Id>)
      requires Valid()
      modifies this
      ensures Valid()
      ensures r.Some? <==> Admissible(old(State()), row, None)
      ensures r.Some? ==> r.value !in Keys(old(State()), TableOf(row)) && State() == Put(old(State()), r.value, row)
      ensures r.None? ==> State() == old(State())
    {
      if !Admissible(State(), row, None) {
        return None;
      }
      var t := TableOf(row);
      var id := Next(t);
      var db := State();
      PutKeepsValid(db, id, row, None);
      KeysOfPut(db, id, row);
      SetTables(Put(db, id, row));
      Advance(t);
      r := Some(id);
    }

    /** Saving an existing instance under its own key, or the database
        refuses it and nothing changes. */
    method Save(id: Id, row: Row) returns (ok: bool)
      requires Valid() && id in Keys(State(), TableOf(row))
      modifies this
      ensures Valid()
      ensures ok <==> Admissible(old(State()), row, Some(id))
      ensures State() == if ok then Put(old(State()), id, row) else old(State())
      ensures forall t :: Next(t) == old(Next(t))
    {
      ok := Admissible(State(), row, Some(id));
      if !ok {
        return;
      }
      var db := State();
      PutKeepsValid(db, id, row, Some(id));
      KeysOfPut(db, id, row);
      SetTables(Put(db, id, row));
    }

    /** Deleting an existing row: the rows that cascade from it are collected
        first and then removed from all five tables at once. */
    method Delete(t: Table, id: Id)
      requires Valid() && id in Keys(State(), t)
      modifies this
      ensures Valid()
      ensures State() == Database.Delete(old(State()), t, id)
      ensures forall t :: Next(t) == old(Next(t))
    {
      ghost var db := State();
      DeleteKeepsValid(db, t, id);
      SubDbKeys(Database.Delete(db, t, id), db);
      var doomed := Collect(State(), t, id);
      SetTables(Remove(State(), doomed));
    }
  }
}
