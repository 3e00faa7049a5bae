/** POST /api/reservations: sign-in gate, body validation, the local
    reading of the "YYYY-MM-DD" date, the call to createReservation with
    the caller's id, and the mapping of its outcome to a response. The
    confirmation e-mail is sent without being awaited and cannot change
    the response, so it is not part of this model. */
module BookingRoute {
  import opened Domain
  import opened Text
  import opened Calendar
  import opened Store
  import opened ReservationService
  import opened Auth
  import opened ApiUtils

  /** A field of the JSON body: missing or null, a string, or another JSON
      value, truthy or not (a number, a boolean, an object). */
  datatype Field = Absent | Str(text: string) | NonString(truthy: bool)

  predicate Truthy(f: Field)
  {
    match f
    case Absent => false
    case Str(text) => text != []
    case NonString(truthy) => truthy
  }

  datatype BookingRequest = BookingRequest(date: Field, slot: Field)

  const MissingFields := "Missing required fields: date, slot"
  const InvalidSlot := "Invalid slot type. Must be MORNING or AFTERNOON"

  /** What `date.split` throws when the date is not a string. */
  const SplitNotAFunction := "date.split is not a function"

  /** The SlotType a field names, if any: only the exact enum strings. */
  function SlotNamed(f: Field): (slot: Option<Slot>)
    ensures slot.Some? <==> f == Str("MORNING") || f == Str("AFTERNOON")
    ensures slot == Some(Morning) <==> f == Str("MORNING")
  {
    if f == Str("MORNING") then Some(Morning)
    else if f == Str("AFTERNOON") then Some(Afternoon)
    else None
  }

  datatype Validation = Rejected(message: string) | DateNotText | Accepted(date: string, slot: Slot)

  /** The checks before the service is called: both fields present, then
      a valid slot; a date that is not a string fails at the split. */
  function Validate(req: BookingRequest): (v: Validation)
    ensures !Truthy(req.date) || !Truthy(req.slot) ==> v == Rejected(MissingFields)
    ensures Truthy(req.date) && Truthy(req.slot) && SlotNamed(req.slot).None? ==> v == Rejected(InvalidSlot)
    ensures v.Accepted? <==> req.date.Str? && req.date.text != [] && SlotNamed(req.slot).Some?
    ensures v.Accepted? ==> v.date == req.date.text && SlotNamed(req.slot) == Some(v.slot)
    ensures v.DateNotText? <==> req.date.NonString? && req.date.truthy && SlotNamed(req.slot).Some?
  {
    if !Truthy(req.date) || !Truthy(req.slot) then Rejected(MissingFields)
    else if SlotNamed(req.slot).None? then Rejected(InvalidSlot)
    else match req.date
      case Str(text) => Accepted(text, SlotNamed(req.slot).value)
      case _ => DateNotText
  }

  /** `date.split('-').map(Number)` and `new Date(year, month - 1, day)`:
      the local day, or None for an Invalid Date (a missing or non-numeric part). */
  function BookingDate(date: string): (day: Option<Day>)
    // an Invalid Date exactly when a part is missing or is not a number
    ensures day.None? <==> var parts := Split(date, '-');
              |parts| < 3 || ParseNumber(parts[0]).None? || ParseNumber(parts[1]).None? || ParseNumber(parts[2]).None?
  {
    var parts := Split(date, '-');
    if |parts| < 3 then None
    else DateOfFields(ParseNumber(parts[0]), ParseNumber(parts[1]), ParseNumber(parts[2]))
  }

  /** `new Date(year, month - 1, day)` on the three numbers, or None for NaN. */
  function DateOfFields(year: Option<nat>, month: Option<nat>, dayOfMonth: Option<nat>): Option<Day>
  {
    if year.None? || month.None? || dayOfMonth.None? then None
    else Some(LocalDate(year.value, month.value - 1, dayOfMonth.value))
  }

  /** Three numbers make the local date `new Date(year, month - 1, day)`. */
  lemma DateOfNumbers(year: nat, month: nat, dayOfMonth: nat)
    ensures DateOfFields(Some(year), Some(month), Some(dayOfMonth)) == Some(LocalDate(year, month - 1, dayOfMonth))
  {
  }

  /** Two digits, with a leading zero below ten. */
  function Pad2(n: nat): (s: string)
    requires n < 100
    ensures |s| == 2 && AllDigits(s) && DigitsValue(s) == n
  {
    DigitsValueOfDecimalString(n);
    if n < 10 then
      LeadingZero(DecimalString(n));
      ['0'] + DecimalString(n)
    else DecimalString(n)
  }

  /** The "YYYY-MM-DD" string the booking form sends. */
  function IsoDate(year: nat, month: nat, dayOfMonth: nat): string
    requires month < 100 && dayOfMonth < 100
  {
    DecimalString(year) + ['-'] + Pad2(month) + ['-'] + Pad2(dayOfMonth)
  }

  lemma NoDash(s: string)
    requires AllDigits(s)
    ensures '-' !in s
  {
  }

  /** The form date splits into its three fields. */
  lemma IsoDateParts(year: nat, month: nat, dayOfMonth: nat)
    requires month < 100 && dayOfMonth < 100
    ensures Split(IsoDate(year, month, dayOfMonth), '-') == [DecimalString(year), Pad2(month), Pad2(dayOfMonth)]
  {
    var y, m, d := DecimalString(year), Pad2(month), Pad2(dayOfMonth);
    NoDash(y);
    NoDash(m);
    NoDash(d);
    SplitThree(y, m, d, '-');
  }

  /** `new Date(year, month - 1, day)` is the calendar day year-month-day
      for a year from 100 on. */
  lemma LocalDateOfMonth(year: int, month: int, dayOfMonth: int)
    requires year >= 100 && 1 <= month <= 12
    ensures LocalDate(year, month - 1, dayOfMonth) == DaysFromCivil(year, month, dayOfMonth)
  {
    assert (month - 1) / 12 == 0 && (month - 1) % 12 + 1 == month;
  }

  /** BookingDate reads three numeric fields into `new Date(year, month - 1, day)`. */
  lemma ReadFields(s: string, year: nat, month: nat, dayOfMonth: nat)
    requires |Split(s, '-')| == 3
    requires ParseNumber(Split(s, '-')[0]) == Some(year)
    requires ParseNumber(Split(s, '-')[1]) == Some(month)
    requires ParseNumber(Split(s, '-')[2]) == Some(dayOfMonth)
    ensures BookingDate(s) == DateOfFields(Some(year), Some(month), Some(dayOfMonth))
  {
  }

  lemma FieldsParse(year: nat, month: nat, dayOfMonth: nat)
    requires month < 100 && dayOfMonth < 100
    ensures var parts := Split(IsoDate(year, month, dayOfMonth), '-');
            && |parts| == 3
            && ParseNumber(parts[0]) == Some(year)
            && ParseNumber(parts[1]) == Some(month)
            && ParseNumber(parts[2]) == Some(dayOfMonth)
  {
    IsoDateParts(year, month, dayOfMonth);
    ParseDecimalString(year);
    ParseDigitRun(Pad2(month));
    ParseDigitRun(Pad2(dayOfMonth));
  }

  /** A form date is read field by field into `new Date(year, month - 1, day)`. */
  lemma BookingDateFields(year: nat, month: nat, dayOfMonth: nat)
    requires month < 100 && dayOfMonth < 100
    ensures BookingDate(IsoDate(year, month, dayOfMonth)) == Some(LocalDate(year, month - 1, dayOfMonth))
  {
    FieldsParse(year, month, dayOfMonth);
    ReadFields(IsoDate(year, month, dayOfMonth), year, month, dayOfMonth);
    DateOfNumbers(year, month, dayOfMonth);
  }

  /** A form date of a year from 100 on is read as that calendar day. */
  lemma BookingDateOfIsoDate(year: nat, month: nat, dayOfMonth: nat)
    requires year >= 100 && 1 <= month <= 12 && 1 <= dayOfMonth <= 31
    ensures BookingDate(IsoDate(year, month, dayOfMonth)) == Some(DaysFromCivil(year, month, dayOfMonth))
  {
    BookingDateFields(year, month, dayOfMonth);
    LocalDateOfMonth(year, month, dayOfMonth);
  }

  /** The response for what createReservation did. */
  function Respond(outcome: Attempt<Result<Reservation>>, production: bool): (r: Response<Reservation>)
    ensures r.status == 201 <==> outcome.Returned? && outcome.value.Success?
    ensures outcome.Returned? && outcome.value.Success? ==> r.body == Data(outcome.value.data)
    ensures outcome.Returned? && outcome.value.Failure? ==> r == ReservationErrorResponse(outcome.value.error)
    ensures outcome.Threw? ==> r == HandleError(FromStore(outcome.fault), production) && r.status == 500
  {
    match outcome
    case Threw(fault) => HandleError(FromStore(fault), production)
    case Returned(Failure(e)) => ReservationErrorResponse(e)
    case Returned(Success(reservation)) => SuccessResponse(reservation, 201)
  }

  /** The route on a snapshot, once the caller is known. `rejectedDate` is
      the error the store throws when handed an Invalid Date. */
  function Post(caller: Option<AuthUser>, t: Tables, req: BookingRequest, insert: InsertOutcome,
                production: bool, rejectedDate: StoreError)
    : (out: (Tables, Response<Reservation>))
    ensures caller.None? ==> out == (t, HandleError(ThrownAuth(NotSignedIn), production))
    ensures caller.Some? && Validate(req).Rejected? ==> out == (t, Response(400, ErrorBody(Validate(req).message)))
    ensures caller.Some? && Validate(req).DateNotText? ==> out.0 == t && out.1.status == 500
    ensures caller.Some? && Validate(req).Accepted? && BookingDate(Validate(req).date).None? ==>
              out == (t, HandleError(FromStore(rejectedDate), production))
    ensures caller.Some? && Validate(req).Accepted? && BookingDate(Validate(req).date).Some? ==>
              var created := Create(t, caller.value.id, Midnight(BookingDate(Validate(req).date).value),
                                    Validate(req).slot, insert);
              out == (created.0, Respond(created.1, production))
    // a 201 always carries a new booking of the signed-in caller
    ensures out.1.status == 201 ==>
              && caller.Some? && out.1.body.Data?
              && out.1.body.data.userId == caller.value.id
              && out.0.reservations == t.reservations + [out.1.body.data]
  {
    if caller.None? then (t, HandleError(ThrownAuth(NotSignedIn), production))
    else match Validate(req)
      case Rejected(message) => (t, Response(400, ErrorBody(message)))
      case DateNotText => (t, HandleError(ThrownError(SplitNotAFunction), production))
      case Accepted(date, slot) =>
        match BookingDate(date)
        case None => (t, HandleError(FromStore(rejectedDate), production))
        case Some(day) =>
          var created := Create(t, caller.value.id, Midnight(day), slot, insert);
          (created.0, Respond(created.1, production))
  }

  /** POST /api/reservations. */
  method PostReservation(db: Database, cookie: Option<string>, now: Instant, req: BookingRequest,
                         insert: InsertOutcome, production: bool, rejectedDate: StoreError)
    returns (resp: Response<Reservation>)
    requires db.Valid()
    modifies db`reservations, db`settings, db`nextId, db`sessions
    ensures db.Valid()
    ensures db.sessions == SessionsAfterAuth(old(db.sessions), cookie, now)
    ensures (db.Snapshot(), resp) ==
            Post(CallerOf(old(db.sessions), db.users, cookie, now), old(db.Snapshot()), req, insert, production, rejectedDate)
  {
    var authed := RequireAuth(db, cookie, now);
    if authed.Denied? {
      return HandleError(ThrownAuth(authed.error), production);
    }
    match Validate(req) {
      case Rejected(message) =>
        return Response(400, ErrorBody(message));
      case DateNotText =>
        return HandleError(ThrownError(SplitNotAFunction), production);
      case Accepted(date, slot) =>
        var bookingDate := BookingDate(date);
        if bookingDate.None? {
          return HandleError(FromStore(rejectedDate), production);
        }
        var result := CreateReservation(db, authed.user.id, Midnight(bookingDate.value), slot, insert);
        resp := Respond(result, production);
    }
  }
}
