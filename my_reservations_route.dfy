/** GET /api/reservations/me: the signed-in caller's CONFIRMED bookings,
    by date and then slot. */
module MyReservationsRoute {
  import opened Domain
  import opened Store
  import opened Auth
  import opened ApiUtils
  import opened Queries

  /** The caller's CONFIRMED bookings, all of them, ordered. */
  function MyReservations(rs: seq<Reservation>, userId: UserId): (out: seq<Reservation>)
    ensures Ordered(out)
    ensures forall r :: r in out <==> r in rs && r.userId == userId && r.status == Confirmed
    ensures forall r :: r in rs && r.userId == userId && r.status == Confirmed ==>
              multiset(out)[r] == multiset(rs)[r]
  {
    FindMany(rs, Where(Some(userId), None, None))
  }

  /** GET /api/reservations/me. */
  method GetMyReservations(db: Database, cookie: Option<string>, now: Instant, production: bool)
    returns (resp: Response<seq<Reservation>>)
    requires db.Valid()
    modifies db`sessions
    ensures db.Valid()
    ensures db.sessions == SessionsAfterAuth(old(db.sessions), cookie, now)
    ensures var caller := CallerOf(old(db.sessions), db.users, cookie, now);
            && (caller.None? ==> resp == HandleError(ThrownAuth(NotSignedIn), production))
            && (caller.Some? ==> resp == Response(200, Data(MyReservations(db.reservations, caller.value.id))))
  {
    var authed := RequireAuth(db, cookie, now);
    if authed.Denied? {
      return HandleError(ThrownAuth(authed.error), production);
    }
    var reservations := MyReservations(db.reservations, authed.user.id);
    resp := SuccessResponse(reservations, 200);
  }
}
