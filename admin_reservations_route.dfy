/** GET /api/admin/reservations?date=YYYY-MM-DD&slot=MORNING: every
    CONFIRMED booking, narrowed to a date when one is given and to a slot
    when a valid one is given, by date and then slot.

    `new Date("YYYY-MM-DD")` reads a date-only ISO string as UTC midnight,
    while bookings are stored at local midnight (the booking route builds
    them with `new Date(year, month - 1, day)`). The route is modelled as
    written: `AdminWhere` and `GetAdminReservations` take the server zone's
    offset from UTC, and away from UTC their date filter matches no booking
    at all. `CorrectedWhere` reads the date the way the booking route does;
    the two agree on a server that runs in UTC. */
module AdminReservationsRoute {
  import opened Domain
  import opened Text
  import opened Calendar
  import opened Store
  import opened Auth
  import opened ApiUtils
  import opened Queries
  import opened BookingRoute

  /** The strict "YYYY-MM-DD" form with a month from 01 to 12 and a day from 01 to 31. */
  predicate IsIsoDate(s: string)
  {
    && |s| == 10 && s[4] == '-' && s[7] == '-'
    && AllDigits(s[..4]) && AllDigits(s[5..7]) && AllDigits(s[8..])
    && 1 <= DigitsValue(s[5..7]) <= 12 && 1 <= DigitsValue(s[8..]) <= 31
  }

  /** The calendar day an ISO date names. */
  function IsoDay(s: string): Day
    requires IsIsoDate(s)
  {
    DaysFromCivil(DigitsValue(s[..4]), DigitsValue(s[5..7]), DigitsValue(s[8..]))
  }

  /** `where.date = new Date(dateParam)` as written: UTC midnight of the
      day, seen from a zone `utcOffset` ms ahead of UTC; None is an Invalid Date. */
  function AdminDateFilterAsWritten(param: string, utcOffset: int): (t: Option<Instant>)
    ensures t.Some? <==> IsIsoDate(param)
    ensures t.Some? ==> t.value == Midnight(IsoDay(param)) + utcOffset
  {
    if IsIsoDate(param) then Some(Midnight(IsoDay(param)) + utcOffset) else None
  }

  /** The date condition read as a local date, as the booking route reads it. */
  function AdminDateFilter(param: string): (t: Option<Instant>)
    ensures t.Some? <==> IsIsoDate(param)
    ensures t.Some? ==> BookingDate(param).Some? && t.value == Midnight(BookingDate(param).value)
  {
    if IsIsoDate(param) then
      IsoReadsAsBooking(param);
      Some(Midnight(BookingDate(param).value))
    else None
  }

  /** An ISO date splits into its three digit runs, which BookingDate reads. */
  lemma IsoReadsAsBooking(s: string)
    requires IsIsoDate(s)
    ensures BookingDate(s) == DateOfFields(Some(DigitsValue(s[..4])), Some(DigitsValue(s[5..7])), Some(DigitsValue(s[8..])))
  {
    var y, m, d := s[..4], s[5..7], s[8..];
    NoDash(y);
    NoDash(m);
    NoDash(d);
    assert s == y + ['-'] + m + ['-'] + d;
    SplitThree(y, m, d, '-');
    ParseDigitRun(y);
    ParseDigitRun(m);
    ParseDigitRun(d);
    ReadFields(s, DigitsValue(y), DigitsValue(m), DigitsValue(d));
  }

  /** The slot condition: only the exact enum strings count; anything else is ignored. */
  function SlotFilter(param: Option<string>): (slot: Option<Slot>)
    ensures slot == Some(Morning) <==> param == Some("MORNING")
    ensures slot == Some(Afternoon) <==> param == Some("AFTERNOON")
  {
    if param == Some("MORNING") then Some(Morning)
    else if param == Some("AFTERNOON") then Some(Afternoon)
    else None
  }

  /** The `where` object as written, on a server `utcOffset` ms ahead of
      UTC, or None when the date is an Invalid Date (the store then
      throws). Status is always CONFIRMED; no user condition. */
  function AdminWhere(dateParam: Option<string>, slotParam: Option<string>, utcOffset: int): (w: Option<Where>)
    ensures dateParam.None? || dateParam.value == [] ==> w == Some(Where(None, None, SlotFilter(slotParam)))
    ensures dateParam.Some? && dateParam.value != [] && IsIsoDate(dateParam.value) ==>
              w == Some(Where(None, Some(Midnight(IsoDay(dateParam.value)) + utcOffset), SlotFilter(slotParam)))
    // only a date that is not an ISO date fails; the slot parameter never does
    ensures w.None? <==> dateParam.Some? && dateParam.value != [] && !IsIsoDate(dateParam.value)
  {
    if dateParam.None? || dateParam.value == [] then Some(Where(None, None, SlotFilter(slotParam)))
    else
      var date := AdminDateFilterAsWritten(dateParam.value, utcOffset);
      if date.None? then None else Some(Where(None, date, SlotFilter(slotParam)))
  }

  /** The `where` object with the date read as a local date, as the
      booking route reads it. */
  function CorrectedWhere(dateParam: Option<string>, slotParam: Option<string>): (w: Option<Where>)
    ensures dateParam.None? || dateParam.value == [] ==> w == Some(Where(None, None, SlotFilter(slotParam)))
    ensures dateParam.Some? && dateParam.value != [] && IsIsoDate(dateParam.value) ==>
              && BookingDate(dateParam.value).Some?
              && w == Some(Where(None, Some(Midnight(BookingDate(dateParam.value).value)), SlotFilter(slotParam)))
    ensures w.None? <==> dateParam.Some? && dateParam.value != [] && !IsIsoDate(dateParam.value)
  {
    if dateParam.None? || dateParam.value == [] then Some(Where(None, None, SlotFilter(slotParam)))
    else
      var date := AdminDateFilter(dateParam.value);
      if date.None? then None else Some(Where(None, date, SlotFilter(slotParam)))
  }

  /** GET /api/admin/reservations on a server `utcOffset` ms ahead of UTC.
      `rejectedDate` is the error the store throws when the date condition
      is an Invalid Date. */
  method GetAdminReservations(db: Database, cookie: Option<string>, now: Instant,
                              dateParam: Option<string>, slotParam: Option<string>,
                              utcOffset: int, production: bool, rejectedDate: StoreError)
    returns (resp: Response<seq<Reservation>>)
    requires db.Valid()
    modifies db`sessions
    ensures db.Valid()
    ensures db.sessions == SessionsAfterAuth(old(db.sessions), cookie, now)
    ensures var gate := Gate(CallerOf(old(db.sessions), db.users, cookie, now), true);
            && (gate.Denied? ==> resp == HandleError(ThrownAuth(gate.error), production))
            && (gate.Authorized? && AdminWhere(dateParam, slotParam, utcOffset).None? ==>
                  resp == HandleError(FromStore(rejectedDate), production))
            && (gate.Authorized? && AdminWhere(dateParam, slotParam, utcOffset).Some? ==>
                  resp == Response(200, Data(FindMany(db.reservations, AdminWhere(dateParam, slotParam, utcOffset).value))))
  {
    var authed := RequireAdmin(db, cookie, now);
    if authed.Denied? {
      return HandleError(ThrownAuth(authed.error), production);
    }
    var where := AdminWhere(dateParam, slotParam, utcOffset);
    if where.None? {
      return HandleError(FromStore(rejectedDate), production);
    }
    var reservations := FindMany(db.reservations, where.value);
    resp := SuccessResponse(reservations, 200);
  }

  /** With the corrected reading, the date filter lists exactly the
      CONFIRMED bookings made through the booking route for that date
      string (narrowed by slot when one is given). */
  lemma DateFilterFindsBookings(rs: seq<Reservation>, param: string, slotParam: Option<string>, r: Reservation)
    requires IsIsoDate(param) && r in rs
    ensures var w := CorrectedWhere(Some(param), slotParam).value;
            r in FindMany(rs, w) <==>
              r.status == Confirmed && Some(r.day) == BookingDate(param)
              && (SlotFilter(slotParam).None? || Some(r.slot) == SlotFilter(slotParam))
  {
    var w := CorrectedWhere(Some(param), slotParam).value;
    var day := BookingDate(param).value;
    assert w == Where(None, Some(Midnight(day)), SlotFilter(slotParam));
    DayConditionFinds(rs, day, SlotFilter(slotParam), r);
  }

  /** A date condition at a local midnight lists a row iff it is CONFIRMED,
      on that day and in the slot, if one is given. */
  lemma DayConditionFinds(rs: seq<Reservation>, day: Day, slot: Option<Slot>, r: Reservation)
    requires r in rs
    ensures r in FindMany(rs, Where(None, Some(Midnight(day)), slot)) <==>
              r.status == Confirmed && r.day == day && (slot.None? || r.slot == slot.value)
  {
    DateConditionIsDay(r, day);
  }

  /** On a server in UTC the route as written and the corrected reading
      build the same condition for a date from the year 100 on. */
  lemma DateFilterAgreesAtUtc(param: string, slotParam: Option<string>)
    requires IsIsoDate(param) && DigitsValue(param[..4]) >= 100
    ensures AdminWhere(Some(param), slotParam, 0) == CorrectedWhere(Some(param), slotParam)
  {
    var y, m, d := DigitsValue(param[..4]), DigitsValue(param[5..7]), DigitsValue(param[8..]);
    IsoReadsAsBooking(param);
    DateOfNumbers(y, m, d);
    LocalDateOfMonth(y, m, d);
    assert BookingDate(param) == Some(IsoDay(param));
  }

  /** As written, a server ahead of or behind UTC by less than a day makes
      the date filter select nothing, whatever the table holds. */
  lemma AsWrittenSelectsNothing(rs: seq<Reservation>, param: string, slotParam: Option<string>, utcOffset: int)
    requires IsIsoDate(param) && utcOffset != 0 && -MsPerDay < utcOffset < MsPerDay
    ensures AdminWhere(Some(param), slotParam, utcOffset).Some?
    ensures FindMany(rs, AdminWhere(Some(param), slotParam, utcOffset).value) == []
  {
    OffsetMidnight(IsoDay(param), utcOffset);
    OffMidnightSelectsNothing(rs, None, Midnight(IsoDay(param)) + utcOffset, SlotFilter(slotParam));
  }

  /** Midnight moved by less than a day, either way, is no midnight. */
  lemma OffsetMidnight(day: Day, utcOffset: int)
    requires utcOffset != 0 && -MsPerDay < utcOffset < MsPerDay
    ensures (Midnight(day) + utcOffset) % MsPerDay != 0
  {
    var t := Midnight(day) + utcOffset;
    assert t == day * 86_400_000 + utcOffset;
    if utcOffset > 0 {
      NormalizeDateUnique(t, day);
    } else {
      assert t == (day - 1) * 86_400_000 + (86_400_000 + utcOffset);
      NormalizeDateUnique(t, day - 1);
    }
  }

  /** "2024-06-10" is an ISO date naming day 19884, and the booking route
      reads it as the same day. */
  lemma ExampleDate()
    ensures IsIsoDate("2024-06-10") && IsoDay("2024-06-10") == 19884
    ensures BookingDate("2024-06-10") == Some(19884)
  {
    var s := "2024-06-10";
    ExampleFields();
    CivilAnchors();
    assert IsoDay(s) == DaysFromCivil(2024, 6, 10);
    IsoReadsAsBooking(s);
    DateOfNumbers(2024, 6, 10);
    LocalDateOfMonth(2024, 6, 10);
  }

  /** The three digit runs of "2024-06-10". */
  lemma ExampleFields()
    ensures var s := "2024-06-10";
            && IsIsoDate(s)
            && DigitsValue(s[..4]) == 2024 && DigitsValue(s[5..7]) == 6 && DigitsValue(s[8..]) == 10
  {
    var s := "2024-06-10";
    assert s[..4] == "2024" && s[5..7] == "06" && s[8..] == "10";
    assert DigitsValue("2024") == 2024 by {
      assert "2"[..0] == [] && DigitsValue("2") == 2;
      assert "20"[..1] == "2" && DigitsValue("20") == 20;
      assert "202"[..2] == "20" && DigitsValue("202") == 202;
      assert "2024"[..3] == "202";
    }
    assert DigitsValue("06") == 6 by {
      assert "06"[..1] == "0";
    }
    assert DigitsValue("10") == 10 by {
      assert "10"[..1] == "1";
    }
  }

  /** A single CONFIRMED booking on the day a date string names is listed
      by the corrected filter for that string. */
  lemma ListsSingleBooking(param: string, booking: Reservation)
    requires IsIsoDate(param) && booking.status == Confirmed && BookingDate(param) == Some(booking.day)
    ensures CorrectedWhere(Some(param), None).Some?
    ensures FindMany([booking], CorrectedWhere(Some(param), None).value) == [booking]
  {
    var w := CorrectedWhere(Some(param), None).value;
    assert w == Where(None, Some(Midnight(booking.day)), None);
    MatchingRowListed(booking, w);
  }

  /** A one-row table whose row matches lists that row. */
  lemma MatchingRowListed(booking: Reservation, w: Where)
    requires Matches(w, booking)
    ensures FindMany([booking], w) == [booking]
  {
    var out := FindMany([booking], w);
    assert multiset(out)[booking] == multiset([booking])[booking] == 1;
    assert multiset(out) == multiset{booking};
    assert |out| == |multiset(out)| == 1;
    assert out[0] in out;
  }

  /** On a server one hour ahead of UTC, a booking made for "2024-06-10" is
      stored on day 19884, yet the admin listing for "2024-06-10" as
      written omits it, while the corrected filter lists it. */
  lemma AsWrittenMissesBooking(userId: UserId)
    ensures var booking := Reservation(0, userId, 19884, Morning, Confirmed, None);
            && BookingDate("2024-06-10") == Some(19884)
            && AdminWhere(Some("2024-06-10"), None, 3_600_000).Some?
            && FindMany([booking], AdminWhere(Some("2024-06-10"), None, 3_600_000).value) == []
            && CorrectedWhere(Some("2024-06-10"), None).Some?
            && FindMany([booking], CorrectedWhere(Some("2024-06-10"), None).value) == [booking]
  {
    ExampleDate();
    var booking := Reservation(0, userId, 19884, Morning, Confirmed, None);
    AsWrittenSelectsNothing([booking], "2024-06-10", None, 3_600_000);
    ListsSingleBooking("2024-06-10", booking);
  }
}
