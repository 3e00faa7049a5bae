/** The reminder batch: find tomorrow's CONFIRMED bookings that have not
    been reminded, send each one a reminder, stamp `reminderSentAt`, and
    count the reminders sent. A failure for one booking is isolated from
    the others; only a failure of the selection itself aborts the job. */
module Reminders {
  import opened Domain
  import opened Calendar
  import opened Store

  /** What happens to one booking in the loop: the reminder is sent and the
      row stamped at `at` (the server's clock when the update is issued), or the send
      throws, or the send succeeds and the stamp throws. */
  datatype Delivery = Delivered(at: Instant) | SendFailed | StampFailed

  /** A booking the job must remind on `day`. */
  predicate Due(r: Reservation, day: Day)
  {
    r.day == day && r.status == Confirmed && r.reminderSentAt.None?
  }

  /** findMany({date: day, status: CONFIRMED, reminderSentAt: null}), in table order. */
  function Select(rs: seq<Reservation>, day: Day): (selected: seq<Reservation>)
    ensures |selected| <= |rs|
    ensures forall r :: r in selected <==> r in rs && Due(r, day)
    // each due row is selected as often as it occurs in the table, no more
    ensures multiset(selected) <= multiset(rs)
    ensures forall r :: r in rs && Due(r, day) ==> multiset(selected)[r] == multiset(rs)[r]
    ensures (forall i :: 0 <= i < |rs| ==> !Due(rs[i], day)) ==> selected == []
  {
    if rs == [] then []
    else
      var last := rs[|rs| - 1];
      assert rs == rs[..|rs| - 1] + [last];
      Select(rs[..|rs| - 1], day) + (if Due(last, day) then [last] else [])
  }

  /** update({where: {id}, data: {reminderSentAt: at}}). */
  function StampOne(rs: seq<Reservation>, id: ReservationId, at: Instant): seq<Reservation>
  {
    seq(|rs|, i requires 0 <= i < |rs| => if rs[i].id == id then rs[i].(reminderSentAt := Some(at)) else rs[i])
  }

  /** The table after the loop has gone through `selected`: only the
      `reminderSentAt` of rows changes, and only for delivered reminders. */
  function Stamped(rs: seq<Reservation>, selected: seq<Reservation>, deliver: ReservationId -> Delivery)
    : (out: seq<Reservation>)
    ensures |out| == |rs|
    ensures forall i :: 0 <= i < |rs| ==> out[i] == rs[i].(reminderSentAt := out[i].reminderSentAt)
    // a row is stamped with its own delivery instant exactly when a
    // delivered reminder in `selected` carried its id
    ensures forall i :: 0 <= i < |rs| ==>
              out[i] == if HasId(selected, rs[i].id) && deliver(rs[i].id).Delivered?
                        then rs[i].(reminderSentAt := Some(deliver(rs[i].id).at))
                        else rs[i]
  {
    if selected == [] then rs
    else
      var init, last := selected[..|selected| - 1], selected[|selected| - 1];
      var before := Stamped(rs, init, deliver);
      assert forall id :: HasId(selected, id) <==> HasId(init, id) || last.id == id by {
        assert selected == init + [last];
      }
      match deliver(last.id)
      case Delivered(at) => StampOne(before, last.id, at)
      case _ => before
  }

  /** The number of reminders counted for `selected`. */
  function Sent(selected: seq<Reservation>, deliver: ReservationId -> Delivery): (n: nat)
    ensures n <= |selected|
    ensures n == |set i | 0 <= i < |selected| && deliver(selected[i].id).Delivered?|
  {
    if selected == [] then 0
    else
      var init, last := selected[..|selected| - 1], |selected| - 1;
      assert (set i | 0 <= i < |selected| && deliver(selected[i].id).Delivered?)
          == (set i | 0 <= i < |init| && deliver(init[i].id).Delivered?)
             + (if deliver(selected[last].id).Delivered? then {last} else {});
      Sent(init, deliver) + (if deliver(selected[last].id).Delivered? then 1 else 0)
  }

  /** The bookings in `selected` whose reminder was not delivered. */
  function Failed(selected: seq<Reservation>, deliver: ReservationId -> Delivery): (failed: seq<Reservation>)
    ensures forall r :: r in failed <==> r in selected && !deliver(r.id).Delivered?
    ensures |failed| == |selected| - Sent(selected, deliver)
  {
    if selected == [] then []
    else
      var last := selected[|selected| - 1];
      assert selected == selected[..|selected| - 1] + [last];
      Failed(selected[..|selected| - 1], deliver) + (if deliver(last.id).Delivered? then [] else [last])
  }

  /** sendReservationReminders at the instant `now`. `selectFault` is the
      error the selection query throws, if it does; `deliver` says how
      each booking's send and stamp fare. */
  method SendReservationReminders(db: Database, now: Instant, selectFault: Option<StoreError>,
                                  deliver: ReservationId -> Delivery)
    returns (r: Attempt<nat>)
    requires db.Valid()
    modifies db`reservations
    ensures db.Valid()
    ensures selectFault.Some? ==> r == Threw(selectFault.value) && db.reservations == old(db.reservations)
    ensures selectFault.None? ==>
              var selected := Select(old(db.reservations), ReminderTargetDay(now));
              && r == Returned(Sent(selected, deliver))
              && db.reservations == Stamped(old(db.reservations), selected, deliver)
  {
    var targetDate := ReminderTargetDay(now);
    if selectFault.Some? {
      return Threw(selectFault.value);
    }
    var reservations := Select(db.reservations, targetDate);
    var sentCount := RemindEach(db, reservations, deliver);
    IdsUnchanged(old(db.reservations), db.reservations, db.nextId);
    r := Returned(sentCount);
  }

  /** The loop of sendReservationReminders over the selected bookings:
      each delivered reminder stamps its row and is counted. */
  method RemindEach(db: Database, selected: seq<Reservation>, deliver: ReservationId -> Delivery)
    returns (sentCount: nat)
    modifies db`reservations
    ensures sentCount == Sent(selected, deliver)
    ensures db.reservations == Stamped(old(db.reservations), selected, deliver)
  {
    sentCount := 0;
    for k := 0 to |selected|
      invariant sentCount == Sent(selected[..k], deliver)
      invariant db.reservations == Stamped(old(db.reservations), selected[..k], deliver)
    {
      assert selected[..k + 1][..k] == selected[..k];
      match deliver(selected[k].id) {
        case Delivered(at) =>
          db.reservations := StampOne(db.reservations, selected[k].id, at);
          sentCount := sentCount + 1;
        case _ =>
      }
    }
    assert selected[..|selected|] == selected;
  }

  lemma IdsUnchanged(rs: seq<Reservation>, rs': seq<Reservation>, nextId: nat)
    requires IdsIssued(rs, nextId)
    requires |rs'| == |rs| && forall i :: 0 <= i < |rs| ==> rs'[i].id == rs[i].id
    ensures IdsIssued(rs', nextId)
  {
  }

  predicate HasId(selected: seq<Reservation>, id: ReservationId)
  {
    exists r :: r in selected && r.id == id
  }

  /** A row is unstamped after the loop exactly when it was unstamped before
      and no delivered reminder in `selected` carried its id. */
  lemma {:induction false} StampedRow(rs: seq<Reservation>, selected: seq<Reservation>,
                                      deliver: ReservationId -> Delivery, i: nat)
    requires i < |rs|
    ensures Stamped(rs, selected, deliver)[i].reminderSentAt.None? <==>
            rs[i].reminderSentAt.None? && !(deliver(rs[i].id).Delivered? && HasId(selected, rs[i].id))
  {
    if selected != [] {
      var init := selected[..|selected| - 1];
      var last := selected[|selected| - 1];
      assert selected == init + [last];
      StampedRow(rs, init, deliver, i);
      assert HasId(selected, rs[i].id) <==> HasId(init, rs[i].id) || last.id == rs[i].id;
    }
  }

  /** After a run, a booking is still due exactly when it was due and its
      reminder was not delivered: sent reminders are never sent again, and
      failed ones are retried by the next run for the same day. */
  lemma RerunSelectsOnlyFailures(rs: seq<Reservation>, now: Instant, deliver: ReservationId -> Delivery)
    ensures var day := ReminderTargetDay(now);
            var after := Stamped(rs, Select(rs, day), deliver);
            forall i :: 0 <= i < |rs| ==>
              (Due(after[i], day) <==> Due(rs[i], day) && !deliver(rs[i].id).Delivered?)
  {
    var day := ReminderTargetDay(now);
    var selected := Select(rs, day);
    var after := Stamped(rs, selected, deliver);
    forall i | 0 <= i < |rs|
      ensures Due(after[i], day) <==> Due(rs[i], day) && !deliver(rs[i].id).Delivered?
    {
      StampedRow(rs, selected, deliver, i);
      if Due(rs[i], day) {
        assert rs[i] in selected;
      }
    }
  }

  /** "Safe to run multiple times": after a run in which every reminder was
      delivered, a second run for the same day selects nothing and sends none. */
  lemma SecondRunSendsNothing(rs: seq<Reservation>, now: Instant, deliver: ReservationId -> Delivery,
                              again: ReservationId -> Delivery)
    requires forall r :: r in Select(rs, ReminderTargetDay(now)) ==> deliver(r.id).Delivered?
    ensures var after := Stamped(rs, Select(rs, ReminderTargetDay(now)), deliver);
            && Select(after, ReminderTargetDay(now)) == []
            && Sent(Select(after, ReminderTargetDay(now)), again) == 0
  {
    var day := ReminderTargetDay(now);
    var after := Stamped(rs, Select(rs, day), deliver);
    RerunSelectsOnlyFailures(rs, now, deliver);
    forall i | 0 <= i < |after|
      ensures !Due(after[i], day)
    {
      if Due(rs[i], day) {
        assert rs[i] in Select(rs, day);
      }
    }
  }
}
