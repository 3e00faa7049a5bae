/** The persistent store, held in memory: the reservation table, the
    settings singleton, the user table and the session table. Every part
    of the core reads and writes this one object, as every part of the
    application shares one Prisma client. */
module Store {
  import opened Domain

  /** The tables the admission engine reads and writes, as a value. */
  datatype Tables = Tables(reservations: seq<Reservation>, settings: Option<Settings>, nextId: nat)

  /** Reservation ids are issued in increasing order, all below `nextId`:
      the store hands out a fresh id for every insert. */
  predicate IdsIssued(rs: seq<Reservation>, nextId: nat)
  {
    && (forall i :: 0 <= i < |rs| ==> rs[i].id < nextId)
    && (forall i, j :: 0 <= i < j < |rs| ==> rs[i].id < rs[j].id)
  }

  /** Every session belongs to a known user, and users are keyed by id. */
  predicate SessionsOwned(sessions: map<Token, Session>, users: map<UserId, AuthUser>)
  {
    && (forall t :: t in sessions ==> sessions[t].userId in users)
    && (forall u :: u in users ==> users[u].id == u)
  }

  class Database {
    var reservations: seq<Reservation>
    var settings: Option<Settings>
    var nextId: nat
    var users: map<UserId, AuthUser>
    var sessions: map<Token, Session>

    ghost predicate Valid()
      reads this
    {
      IdsIssued(reservations, nextId) && SessionsOwned(sessions, users)
    }

    function Snapshot(): Tables
      reads this
    {
      Tables(reservations, settings, nextId)
    }

    /** A store with the given users and nothing else. */
    constructor (users: map<UserId, AuthUser>)
      requires forall u :: u in users ==> users[u].id == u
      ensures Valid()
      ensures reservations == [] && settings == None && nextId == 0
      ensures this.users == users && sessions == map[]
    {
      reservations := [];
      settings := None;
      nextId := 0;
      this.users := users;
      sessions := map[];
    }
  }
}
