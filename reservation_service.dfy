/** The reservation admission and cancellation engine: availability,
    createReservation (duplicate check, capacity check, insert),
    cancelReservation (existence, ownership, status, time cutoff) and the
    lazily created settings row.

    Each operation is a method that works on the store step by step, and
    a function on a snapshot of the tables (`Create`, `Cancel`) that says
    what the method does; the lemmas at the end are about the functions. */
module ReservationService {
  import opened Domain
  import opened Text
  import opened Calendar
  import opened Store

  // ---------------------------------------------------------------
  // Reading the reservation table
  // ---------------------------------------------------------------

  /** `r` is a CONFIRMED booking of `userId` for `day` and `slot`. */
  predicate Holds(r: Reservation, userId: UserId, day: Day, slot: Slot)
  {
    r.userId == userId && r.day == day && r.slot == slot && r.status == Confirmed
  }

  ghost predicate HasConfirmed(rs: seq<Reservation>, userId: UserId, day: Day, slot: Slot)
  {
    exists i :: 0 <= i < |rs| && Holds(rs[i], userId, day, slot)
  }

  /** findFirst({userId, date, slot, status: CONFIRMED}). */
  function FindFirstConfirmed(rs: seq<Reservation>, userId: UserId, day: Day, slot: Slot): (r: Option<Reservation>)
    ensures r.Some? ==> r.value in rs && Holds(r.value, userId, day, slot)
    ensures r.None? <==> !HasConfirmed(rs, userId, day, slot)
  {
    if rs == [] then None
    else if Holds(rs[0], userId, day, slot) then Some(rs[0])
    else
      var r := FindFirstConfirmed(rs[1..], userId, day, slot);
      assert HasConfirmed(rs[1..], userId, day, slot) ==> HasConfirmed(rs, userId, day, slot) by {
        if HasConfirmed(rs[1..], userId, day, slot) {
          var i :| 0 <= i < |rs[1..]| && Holds(rs[1..][i], userId, day, slot);
          assert Holds(rs[i + 1], userId, day, slot);
        }
      }
      assert HasConfirmed(rs, userId, day, slot) ==> HasConfirmed(rs[1..], userId, day, slot) by {
        if HasConfirmed(rs, userId, day, slot) {
          var i :| 0 <= i < |rs| && Holds(rs[i], userId, day, slot);
          assert i > 0 && Holds(rs[1..][i - 1], userId, day, slot);
        }
      }
      r
  }

  /** findUnique({id}): the index of the row with that id. */
  function FindById(rs: seq<Reservation>, id: ReservationId): (r: Option<nat>)
    ensures r.Some? ==> r.value < |rs| && rs[r.value].id == id
    ensures r.None? ==> forall i :: 0 <= i < |rs| ==> rs[i].id != id
  {
    if rs == [] then None
    else if rs[0].id == id then Some(0)
    else match FindById(rs[1..], id)
      case None => None
      case Some(i) => Some(i + 1)
  }

  /** A row that count({date, slot, status: CONFIRMED}) counts. */
  predicate Counts(r: Reservation, day: Day, slot: Slot)
  {
    r.day == day && r.slot == slot && r.status == Confirmed
  }

  /** count({date, slot, status: CONFIRMED}). */
  function ConfirmedCount(rs: seq<Reservation>, day: Day, slot: Slot): (n: nat)
    ensures n <= |rs|
  {
    if rs == [] then 0
    else ConfirmedCount(rs[..|rs| - 1], day, slot) + (if Counts(rs[|rs| - 1], day, slot) then 1 else 0)
  }

  /** The count is the number of rows that are CONFIRMED on that day and
      slot. (A lemma rather than a postcondition, so that the proofs that
      only add and update rows do not carry the set.) */
  lemma {:induction false} ConfirmedCountIsSize(rs: seq<Reservation>, day: Day, slot: Slot)
    ensures ConfirmedCount(rs, day, slot) == |set i | 0 <= i < |rs| && Counts(rs[i], day, slot)|
  {
    if rs != [] {
      var init, last := rs[..|rs| - 1], |rs| - 1;
      ConfirmedCountIsSize(init, day, slot);
      assert (set i | 0 <= i < |rs| && Counts(rs[i], day, slot))
          == (set i | 0 <= i < |init| && Counts(init[i], day, slot))
             + (if Counts(rs[last], day, slot) then {last} else {});
    }
  }

  // ---------------------------------------------------------------
  // Settings and availability
  // ---------------------------------------------------------------

  /** The settings getSettings returns: the stored row, or the defaults it creates. */
  function SettingsOrDefault(stored: Option<Settings>): Settings
  {
    stored.GetOr(DefaultSettings)
  }

  datatype Availability = Availability(available: int, total: int)

  /** `available = max(0, totalDesks - confirmedCount)`, `total = totalDesks`. */
  function AvailabilityOf(rs: seq<Reservation>, s: Settings, day: Day, slot: Slot): (a: Availability)
    ensures a.total == s.totalDesks
    ensures a.available >= 0 && a.available >= s.totalDesks - ConfirmedCount(rs, day, slot)
    ensures a.available == 0 || a.available == s.totalDesks - ConfirmedCount(rs, day, slot)
    ensures a.available > 0 <==> ConfirmedCount(rs, day, slot) < s.totalDesks
  {
    var free := s.totalDesks - ConfirmedCount(rs, day, slot);
    Availability(if free > 0 then free else 0, s.totalDesks)
  }

  // ---------------------------------------------------------------
  // Admission
  // ---------------------------------------------------------------

  /** What the insert does: it succeeds, or the store throws (a concurrent
      request may have inserted the same booking in the meantime). */
  datatype InsertOutcome = Inserted | InsertRejected(fault: StoreError)

  /** isUniqueConstraintError: Prisma's code P2002, or a message that
      mentions "Unique constraint". */
  function IsUniqueConstraintError(e: StoreError): (b: bool)
    ensures b <==> e.code == Some("P2002") || OccursIn("Unique constraint", e.message)
  {
    e.code == Some("P2002") || Includes(e.message, "Unique constraint")
  }

  /** The row createReservation inserts. */
  function NewBooking(id: ReservationId, userId: UserId, day: Day, slot: Slot): Reservation
  {
    Reservation(id, userId, day, slot, Confirmed, None)
  }

  /** The decision createReservation reaches before inserting: None admits.
      A duplicate is refused as DUPLICATE even on a full slot; otherwise the
      slot is FULL exactly when the confirmed count has reached capacity. */
  function Admission(rs: seq<Reservation>, s: Settings, userId: UserId, day: Day, slot: Slot)
    : (e: Option<ReservationError>)
    ensures HasConfirmed(rs, userId, day, slot) ==> e == Some(Duplicate)
    ensures !HasConfirmed(rs, userId, day, slot) ==>
              (e == Some(Full) <==> ConfirmedCount(rs, day, slot) >= s.totalDesks)
    ensures e == None || e == Some(Duplicate) || e == Some(Full)
    // admitted exactly when there is no duplicate and a desk is free
    ensures e == None <==> !HasConfirmed(rs, userId, day, slot) && ConfirmedCount(rs, day, slot) < s.totalDesks
  {
    if FindFirstConfirmed(rs, userId, day, slot).Some? then Some(Duplicate)
    else if AvailabilityOf(rs, s, day, slot).available <= 0 then Some(Full)
    else None
  }

  /** createReservation on a snapshot: the tables afterwards and the outcome. */
  function Create(t: Tables, userId: UserId, date: Instant, slot: Slot, insert: InsertOutcome)
    : (out: (Tables, Attempt<Result<Reservation>>))
    // a duplicate changes nothing, not even the settings row
    ensures HasConfirmed(t.reservations, userId, NormalizeDate(date), slot) ==>
              out == (t, Returned(Failure(Duplicate)))
    // past the duplicate check the settings row exists
    ensures !HasConfirmed(t.reservations, userId, NormalizeDate(date), slot) ==>
              out.0.settings == Some(SettingsOrDefault(t.settings))
    // FULL exactly when the confirmed count has reached capacity
    ensures !HasConfirmed(t.reservations, userId, NormalizeDate(date), slot) ==>
              (out.1 == Returned(Failure(Full)) <==>
               ConfirmedCount(t.reservations, NormalizeDate(date), slot) >= SettingsOrDefault(t.settings).totalDesks)
    // success appends exactly the new booking under a fresh id
    ensures out.1.Returned? && out.1.value.Success? ==>
              && out.1.value.data == NewBooking(t.nextId, userId, NormalizeDate(date), slot)
              && out.0.reservations == t.reservations + [out.1.value.data]
              && out.0.nextId == t.nextId + 1
    // every other outcome leaves the reservation table alone
    ensures !(out.1.Returned? && out.1.value.Success?) ==>
              out.0.reservations == t.reservations && out.0.nextId == t.nextId
    // an admitted booking is created exactly when the insert goes through
    ensures Admission(t.reservations, SettingsOrDefault(t.settings), userId, NormalizeDate(date), slot) == None ==>
              (out.1.Returned? && out.1.value.Success? <==> insert.Inserted?)
    // a rejected insert is DUPLICATE for a unique-constraint error and rethrown otherwise
    ensures Admission(t.reservations, SettingsOrDefault(t.settings), userId, NormalizeDate(date), slot) == None
              && insert.InsertRejected? ==>
              out.1 == (if IsUniqueConstraintError(insert.fault) then Returned(Failure(Duplicate)) else Threw(insert.fault))
    // no other store error escapes, and no other domain error arises
    ensures out.1.Threw? ==> insert.InsertRejected? && !IsUniqueConstraintError(insert.fault)
    ensures out.1.Returned? && out.1.value.Failure? ==> out.1.value.error in {Duplicate, Full}
    ensures IdsIssued(t.reservations, t.nextId) ==> IdsIssued(out.0.reservations, out.0.nextId)
  {
    var day := NormalizeDate(date);
    var s := SettingsOrDefault(t.settings);
    match Admission(t.reservations, s, userId, day, slot)
    case Some(Duplicate) => (t, Returned(Failure(Duplicate)))
    case Some(e) => (t.(settings := Some(s)), Returned(Failure(e)))
    case None =>
      match insert
      case Inserted =>
        var r := NewBooking(t.nextId, userId, day, slot);
        (t.(reservations := t.reservations + [r], settings := Some(s), nextId := t.nextId + 1),
         Returned(Success(r)))
      case InsertRejected(fault) =>
        if IsUniqueConstraintError(fault) then (t.(settings := Some(s)), Returned(Failure(Duplicate)))
        else (t.(settings := Some(s)), Threw(fault))
  }

  // ---------------------------------------------------------------
  // Cancellation
  // ---------------------------------------------------------------

  /** cancelReservation on a snapshot, checked in this order: unknown id
      (NOT_FOUND), other owner (UNAUTHORIZED), already cancelled
      (NOT_FOUND), slot already started (TOO_LATE); otherwise the one row
      turns CANCELLED. */
  function Cancel(t: Tables, id: ReservationId, userId: UserId, now: Instant)
    : (out: (Tables, Result<Reservation>))
    ensures FindById(t.reservations, id).None? ==> out == (t, Failure(NotFound))
    ensures FindById(t.reservations, id).Some? ==>
              var i := FindById(t.reservations, id).value;
              var r := t.reservations[i];
              var s := SettingsOrDefault(t.settings);
              && (r.userId != userId ==> out == (t, Failure(Unauthorized)))
              && (r.userId == userId && r.status == Cancelled ==> out == (t, Failure(NotFound)))
              && (r.userId == userId && r.status == Confirmed ==>
                    && out.0.settings == Some(s)
                    && (out.1 == Failure(TooLate) <==> now >= SlotStartTime(r.day, r.slot, s))
                    && (out.1.Success? <==> now < SlotStartTime(r.day, r.slot, s)))
              && (out.1.Success? ==>
                    out.1.data == r.(status := Cancelled) && out.0.reservations == t.reservations[i := out.1.data])
    ensures !out.1.Success? ==> out.0.reservations == t.reservations
    ensures out.0.nextId == t.nextId
  {
    match FindById(t.reservations, id)
    case None => (t, Failure(NotFound))
    case Some(i) =>
      var r := t.reservations[i];
      if r.userId != userId then (t, Failure(Unauthorized))
      else if r.status == Cancelled then (t, Failure(NotFound))
      else
        var s := SettingsOrDefault(t.settings);
        if now >= SlotStartTime(r.day, r.slot, s) then (t.(settings := Some(s)), Failure(TooLate))
        else
          var c := r.(status := Cancelled);
          (t.(reservations := t.reservations[i := c], settings := Some(s)), Success(c))
  }

  // ---------------------------------------------------------------
  // The service's operations on the store
  // ---------------------------------------------------------------

  /** getSettings: find the first settings row, creating the defaults if there is none. */
  method GetSettings(db: Database) returns (s: Settings)
    modifies db`settings
    ensures s == SettingsOrDefault(old(db.settings))
    ensures db.settings == Some(s)
  {
    var found := db.settings;
    if found.None? {
      s := DefaultSettings;
      db.settings := Some(s);
    } else {
      s := found.value;
    }
  }

  /** checkAvailability(date, slot). */
  method CheckAvailability(db: Database, date: Instant, slot: Slot) returns (a: Availability)
    modifies db`settings
    ensures db.settings == Some(SettingsOrDefault(old(db.settings)))
    ensures a == AvailabilityOf(db.reservations, SettingsOrDefault(old(db.settings)), NormalizeDate(date), slot)
  {
    var settings := GetSettings(db);
    var confirmedCount := ConfirmedCount(db.reservations, NormalizeDate(date), slot);
    var available := if settings.totalDesks - confirmedCount > 0 then settings.totalDesks - confirmedCount else 0;
    a := Availability(available, settings.totalDesks);
  }

  /** createReservation(userId, date, slot); `insert` says how the insert fares. */
  method CreateReservation(db: Database, userId: UserId, date: Instant, slot: Slot, insert: InsertOutcome)
    returns (r: Attempt<Result<Reservation>>)
    requires db.Valid()
    modifies db`reservations, db`settings, db`nextId
    ensures db.Valid()
    ensures (db.Snapshot(), r) == Create(old(db.Snapshot()), userId, date, slot, insert)
  {
    var normalizedDate := NormalizeDate(date);
    var existingConfirmed := FindFirstConfirmed(db.reservations, userId, normalizedDate, slot);
    if existingConfirmed.Some? {
      return Returned(Failure(Duplicate));
    }
    var availability := CheckAvailability(db, date, slot);
    if availability.available <= 0 {
      return Returned(Failure(Full));
    }
    match insert {
      case Inserted =>
        var reservation := NewBooking(db.nextId, userId, normalizedDate, slot);
        db.reservations := db.reservations + [reservation];
        db.nextId := db.nextId + 1;
        r := Returned(Success(reservation));
      case InsertRejected(fault) =>
        if IsUniqueConstraintError(fault) {
          r := Returned(Failure(Duplicate));
        } else {
          r := Threw(fault);
        }
    }
  }

  /** cancelReservation(reservationId, userId) at the instant `now`. */
  method CancelReservation(db: Database, reservationId: ReservationId, userId: UserId, now: Instant)
    returns (r: Result<Reservation>)
    requires db.Valid()
    modifies db`reservations, db`settings
    ensures db.Valid()
    ensures (db.Snapshot(), r) == Cancel(old(db.Snapshot()), reservationId, userId, now)
  {
    var found := FindById(db.reservations, reservationId);
    if found.None? {
      return Failure(NotFound);
    }
    var reservation := db.reservations[found.value];
    if reservation.userId != userId {
      return Failure(Unauthorized);
    }
    if reservation.status == Cancelled {
      return Failure(NotFound);
    }
    var settings := GetSettings(db);
    var slotStartTime := SlotStartTime(reservation.day, reservation.slot, settings);
    if now >= slotStartTime {
      return Failure(TooLate);
    }
    var cancelled := reservation.(status := Cancelled);
    db.reservations := db.reservations[found.value := cancelled];
    r := Success(cancelled);
  }

  // ---------------------------------------------------------------
  // Properties
  // ---------------------------------------------------------------

  /** At most one CONFIRMED booking per user, day and slot. */
  predicate NoDuplicateConfirmed(rs: seq<Reservation>)
  {
    forall i, j :: 0 <= i < j < |rs| && rs[i].status == Confirmed && rs[j].status == Confirmed ==>
      !(rs[i].userId == rs[j].userId && rs[i].day == rs[j].day && rs[i].slot == rs[j].slot)
  }

  lemma CountAppend(rs: seq<Reservation>, r: Reservation, day: Day, slot: Slot)
    ensures ConfirmedCount(rs + [r], day, slot) ==
            ConfirmedCount(rs, day, slot) + (if Counts(r, day, slot) then 1 else 0)
  {
    assert (rs + [r])[..|rs|] == rs;
  }

  lemma {:induction false} CountUpdate(rs: seq<Reservation>, i: nat, r: Reservation, day: Day, slot: Slot)
    requires i < |rs|
    ensures ConfirmedCount(rs[i := r], day, slot) + (if Counts(rs[i], day, slot) then 1 else 0) ==
            ConfirmedCount(rs, day, slot) + (if Counts(r, day, slot) then 1 else 0)
  {
    var n, rs' := |rs| - 1, rs[i := r];
    assert ConfirmedCount(rs', day, slot) ==
           ConfirmedCount(rs'[..n], day, slot) + (if Counts(rs'[n], day, slot) then 1 else 0);
    assert ConfirmedCount(rs, day, slot) ==
           ConfirmedCount(rs[..n], day, slot) + (if Counts(rs[n], day, slot) then 1 else 0);
    if i < n {
      assert rs'[n] == rs[n] && rs[..n][i] == rs[i];
      assert rs'[..n] == rs[..n][i := r];
      CountUpdate(rs[..n], i, r, day, slot);
    } else {
      assert rs'[..n] == rs[..n];
    }
  }

  /** createReservation never creates a second CONFIRMED booking for the same user, day and slot. */
  lemma CreateKeepsNoDuplicate(t: Tables, userId: UserId, date: Instant, slot: Slot, insert: InsertOutcome)
    requires NoDuplicateConfirmed(t.reservations)
    ensures NoDuplicateConfirmed(Create(t, userId, date, slot, insert).0.reservations)
  {
    var out := Create(t, userId, date, slot, insert);
    if out.1.Returned? && out.1.value.Success? {
      var rs := t.reservations;
      var r := out.1.value.data;
      var rs' := out.0.reservations;
      assert !HasConfirmed(rs, userId, NormalizeDate(date), slot);
      forall i, j | 0 <= i < j < |rs'| && rs'[i].status == Confirmed && rs'[j].status == Confirmed
        ensures !(rs'[i].userId == rs'[j].userId && rs'[i].day == rs'[j].day && rs'[i].slot == rs'[j].slot)
      {
        if j == |rs| {
          assert !Holds(rs[i], userId, NormalizeDate(date), slot);
        }
      }
    }
  }

  /** A successful booking takes a desk and never takes the count past the capacity. */
  lemma CreateWithinCapacity(t: Tables, userId: UserId, date: Instant, slot: Slot, insert: InsertOutcome)
    requires Create(t, userId, date, slot, insert).1.Returned?
    requires Create(t, userId, date, slot, insert).1.value.Success?
    ensures var day := NormalizeDate(date);
            && ConfirmedCount(Create(t, userId, date, slot, insert).0.reservations, day, slot)
               == ConfirmedCount(t.reservations, day, slot) + 1
            && ConfirmedCount(Create(t, userId, date, slot, insert).0.reservations, day, slot)
               <= SettingsOrDefault(t.settings).totalDesks
  {
    var out := Create(t, userId, date, slot, insert);
    CountAppend(t.reservations, out.1.value.data, NormalizeDate(date), slot);
  }

  /** cancelReservation never creates a duplicate either. */
  lemma CancelKeepsNoDuplicate(t: Tables, id: ReservationId, userId: UserId, now: Instant)
    requires NoDuplicateConfirmed(t.reservations)
    ensures NoDuplicateConfirmed(Cancel(t, id, userId, now).0.reservations)
  {
  }

  /** A successful cancellation frees exactly one desk of its day and slot
      and leaves every other day and slot as it was. */
  lemma CancelFreesOneDesk(t: Tables, id: ReservationId, userId: UserId, now: Instant, day: Day, slot: Slot)
    requires Cancel(t, id, userId, now).1.Success?
    ensures var out := Cancel(t, id, userId, now);
            var r := out.1.data;
            ConfirmedCount(out.0.reservations, day, slot) ==
              ConfirmedCount(t.reservations, day, slot) - (if r.day == day && r.slot == slot then 1 else 0)
  {
    var out := Cancel(t, id, userId, now);
    var i := FindById(t.reservations, id).value;
    CountUpdate(t.reservations, i, out.1.data, day, slot);
  }

  /** The owner's second cancel of the same booking is NOT_FOUND. */
  lemma CancelTwice(t: Tables, id: ReservationId, userId: UserId, now: Instant, later: Instant)
    requires IdsIssued(t.reservations, t.nextId)
    requires Cancel(t, id, userId, now).1.Success?
    ensures Cancel(Cancel(t, id, userId, now).0, id, userId, later).1 == Failure(NotFound)
  {
    var out := Cancel(t, id, userId, now);
    var i := FindById(t.reservations, id).value;
    var rs' := out.0.reservations;
    assert rs'[i].id == id;
  }

  /** The desk settings of the one-desk scenario. */
  const OneDesk := Settings(1, 8, 13, 13, 18)

  lemma ScenarioBook(a: UserId, date: Instant)
    ensures var r0 := NewBooking(0, a, NormalizeDate(date), Morning);
            Create(Tables([], Some(OneDesk), 0), a, date, Morning, Inserted)
              == (Tables([r0], Some(OneDesk), 1), Returned(Success(r0)))
  {
    var day := NormalizeDate(date);
    assert !HasConfirmed([], a, day, Morning);
    assert ConfirmedCount([], day, Morning) == 0;
    assert [] + [NewBooking(0, a, day, Morning)] == [NewBooking(0, a, day, Morning)];
  }

  lemma ScenarioRefuse(a: UserId, b: UserId, date: Instant)
    requires a != b
    ensures var t := Tables([NewBooking(0, a, NormalizeDate(date), Morning)], Some(OneDesk), 1);
            Create(t, b, date, Morning, Inserted) == (t, Returned(Failure(Full)))
  {
    var day := NormalizeDate(date);
    var r0 := NewBooking(0, a, day, Morning);
    assert !Holds(r0, b, day, Morning);
    assert !HasConfirmed([r0], b, day, Morning);
    CountAppend([], r0, day, Morning);
    assert [] + [r0] == [r0];
  }

  lemma ScenarioCancel(a: UserId, date: Instant, now: Instant)
    requires now < SlotStartTime(NormalizeDate(date), Morning, OneDesk)
    ensures var r0 := NewBooking(0, a, NormalizeDate(date), Morning);
            var c0 := r0.(status := Cancelled);
            Cancel(Tables([r0], Some(OneDesk), 1), 0, a, now) == (Tables([c0], Some(OneDesk), 1), Success(c0))
  {
    var r0 := NewBooking(0, a, NormalizeDate(date), Morning);
    assert FindById([r0], 0) == Some(0);
    assert [r0][0 := r0.(status := Cancelled)] == [r0.(status := Cancelled)];
  }

  lemma ScenarioRetry(a: UserId, b: UserId, date: Instant)
    ensures var c0 := NewBooking(0, a, NormalizeDate(date), Morning).(status := Cancelled);
            Create(Tables([c0], Some(OneDesk), 1), b, date, Morning, Inserted).1
              == Returned(Success(NewBooking(1, b, NormalizeDate(date), Morning)))
  {
    var day := NormalizeDate(date);
    var c0 := NewBooking(0, a, day, Morning).(status := Cancelled);
    assert !Holds(c0, b, day, Morning);
    assert !HasConfirmed([c0], b, day, Morning);
    CountAppend([], c0, day, Morning);
    assert [] + [c0] == [c0];
  }

  /** With one desk: A books, B is refused as FULL, A cancels before the
      slot starts, and B's retry succeeds. */
  lemma {:induction false} OneDeskScenario(a: UserId, b: UserId, date: Instant, now: Instant)
    requires a != b
    requires now < SlotStartTime(NormalizeDate(date), Morning, OneDesk)
    ensures var booked := Create(Tables([], Some(OneDesk), 0), a, date, Morning, Inserted);
            var refused := Create(booked.0, b, date, Morning, Inserted);
            var cancelled := Cancel(refused.0, 0, a, now);
            var retried := Create(cancelled.0, b, date, Morning, Inserted);
            && booked.1 == Returned(Success(NewBooking(0, a, NormalizeDate(date), Morning)))
            && refused.1 == Returned(Failure(Full))
            && cancelled.1 == Success(NewBooking(0, a, NormalizeDate(date), Morning).(status := Cancelled))
            && retried.1 == Returned(Success(NewBooking(1, b, NormalizeDate(date), Morning)))
  {
    ScenarioBook(a, date);
    ScenarioRefuse(a, b, date);
    ScenarioCancel(a, date, now);
    ScenarioRetry(a, b, date);
  }

  /** With no settings row and no bookings, a slot shows 10 of 10 desks free. */
  lemma FreshStoreAvailability(day: Day, slot: Slot)
    ensures AvailabilityOf([], SettingsOrDefault(None), day, slot) == Availability(10, 10)
  {
  }
}
