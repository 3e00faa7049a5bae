/** GET /api/admin/stats: user and reservation counts, the derived count
    of cancelled reservations, and the configured number of desks. */
module AdminStatsRoute {
  import opened Domain
  import opened Store
  import opened Auth
  import opened ApiUtils

  datatype Stats = Stats(
    totalUsers: nat,
    totalReservations: nat,
    confirmedReservations: nat,
    cancelledReservations: int,
    totalDesks: int)

  /** count({where: {status}}). */
  function CountStatus(rs: seq<Reservation>, status: Status): (n: nat)
    ensures n <= |rs|
    ensures n == |set i | 0 <= i < |rs| && rs[i].status == status|
  {
    if rs == [] then 0
    else
      var init, last := rs[..|rs| - 1], |rs| - 1;
      assert (set i | 0 <= i < |rs| && rs[i].status == status)
          == (set i | 0 <= i < |init| && init[i].status == status)
             + (if rs[last].status == status then {last} else {});
      CountStatus(init, status) + (if rs[last].status == status then 1 else 0)
  }

  /** Every row is CONFIRMED or CANCELLED. */
  lemma {:induction false} StatusesPartition(rs: seq<Reservation>)
    ensures CountStatus(rs, Confirmed) + CountStatus(rs, Cancelled) == |rs|
  {
    if rs != [] {
      StatusesPartition(rs[..|rs| - 1]);
    }
  }

  /** The statistics: cancelled is total minus confirmed, which is the number
      of CANCELLED rows; totalDesks is 0 when there is no settings row. */
  function StatsOf(userCount: nat, rs: seq<Reservation>, settings: Option<Settings>): (s: Stats)
    ensures s.totalUsers == userCount && s.totalReservations == |rs|
    ensures s.confirmedReservations == CountStatus(rs, Confirmed)
    ensures s.cancelledReservations == CountStatus(rs, Cancelled) >= 0
    ensures s.confirmedReservations + s.cancelledReservations == s.totalReservations
    ensures s.totalDesks == (if settings.Some? then settings.value.totalDesks else 0)
  {
    var confirmed := CountStatus(rs, Confirmed);
    StatusesPartition(rs);
    Stats(userCount, |rs|, confirmed, |rs| - confirmed, settings.GetOr(Settings(0, 0, 0, 0, 0)).totalDesks)
  }

  /** GET /api/admin/stats; it reads the settings row and creates none. */
  method GetStats(db: Database, cookie: Option<string>, now: Instant, production: bool)
    returns (resp: Response<Stats>)
    requires db.Valid()
    modifies db`sessions
    ensures db.Valid()
    ensures db.sessions == SessionsAfterAuth(old(db.sessions), cookie, now)
    ensures var gate := Gate(CallerOf(old(db.sessions), db.users, cookie, now), true);
            && (gate.Denied? ==> resp == HandleError(ThrownAuth(gate.error), production))
            && (gate.Authorized? ==>
                  resp == Response(200, Data(StatsOf(|db.users|, db.reservations, db.settings))))
  {
    var authed := RequireAdmin(db, cookie, now);
    if authed.Denied? {
      return HandleError(ThrownAuth(authed.error), production);
    }
    var stats := StatsOf(|db.users|, db.reservations, db.settings);
    resp := SuccessResponse(stats, 200);
  }
}
