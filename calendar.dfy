/** Dates and instants. An instant is a count of milliseconds in the
    deployment's local time zone (one fixed offset, no daylight saving);
    a day is the count of local days since 1970-01-01. The JavaScript
    `Date` operations the core uses (`setHours`, the `Date(y, m, d)`
    constructor) become integer arithmetic on these. */
module Calendar {
  import opened Domain

  const MsPerHour := 3_600_000
  const MsPerDay := 86_400_000

  /** normalizeDate: the local day holding `t`, i.e. `t` with its hours,
      minutes, seconds and milliseconds set to zero. */
  function NormalizeDate(t: Instant): (d: Day)
    ensures d * MsPerDay <= t < d * MsPerDay + MsPerDay
  {
    t / MsPerDay
  }

  /** The day of an instant is the only day whose span holds it. */
  lemma NormalizeDateUnique(t: Instant, d: Day)
    requires d * MsPerDay <= t < d * MsPerDay + MsPerDay
    ensures NormalizeDate(t) == d
  {
    var e := NormalizeDate(t);
    assert e * 86_400_000 <= t < e * 86_400_000 + 86_400_000;
    assert d * 86_400_000 <= t < d * 86_400_000 + 86_400_000;
  }

  /** The instant of a day's local midnight: how a stored date compares. */
  function Midnight(day: Day): (t: Instant)
    ensures NormalizeDate(t) == day && t % MsPerDay == 0
  {
    NormalizeDateUnique(day * MsPerDay, day);
    assert day * MsPerDay == day * 86_400_000;
    day * MsPerDay
  }

  /** An hour from 0 to 23 after a day's midnight lies on that day. */
  lemma HourOfDay(day: Day, hour: int)
    ensures 0 <= hour < 24 ==> NormalizeDate(day * MsPerDay + hour * MsPerHour) == day
  {
    if 0 <= hour < 24 {
      NormalizeDateUnique(day * MsPerDay + hour * MsPerHour, day);
    }
  }

  lemma WholeHours(k: int)
    ensures (k * MsPerHour) % MsPerHour == 0
  {
    assert k * MsPerHour == k * 3_600_000;
  }

  /** The start hour the settings give a slot. */
  function StartHour(slot: Slot, s: Settings): int
  {
    match slot
    case Morning => s.morningStartHour
    case Afternoon => s.afternoonStartHour
  }

  /** getSlotStartTime: the reservation's day with `setHours(hour, 0, 0, 0)`.
      `setHours` carries an hour outside 0..23 into a neighbouring day,
      which the sum below does as well. */
  function SlotStartTime(day: Day, slot: Slot, s: Settings): (t: Instant)
    ensures t % MsPerHour == 0
    ensures 0 <= StartHour(slot, s) < 24 ==> NormalizeDate(t) == day
    ensures t - day * MsPerDay == StartHour(slot, s) * MsPerHour
  {
    var t := day * MsPerDay + StartHour(slot, s) * MsPerHour;
    HourOfDay(day, StartHour(slot, s));
    WholeHours(day * 24 + StartHour(slot, s));
    t
  }

  /** An instant with minutes, seconds and milliseconds set to zero. */
  function TruncateToHour(t: Instant): (r: Instant)
    ensures r <= t < r + MsPerHour && r % MsPerHour == 0
  {
    (t / MsPerHour) * MsPerHour
  }

  /** The reminder job's target day: the day of `now + 23 h` truncated to
      the hour. Truncating to the hour never moves an instant to another
      day, so this is simply the day 23 hours from now. */
  function ReminderTargetDay(now: Instant): (d: Day)
    ensures d == NormalizeDate(now + 23 * MsPerHour)
  {
    var x := now + 23 * MsPerHour;
    var r := TruncateToHour(x);
    var d := NormalizeDate(r);
    var k := x / MsPerHour;
    assert r == k * 3_600_000;
    assert d * 86_400_000 <= r < d * 86_400_000 + 86_400_000;
    assert k < d * 24 + 24;
    NormalizeDateUnique(x, d);
    d
  }

  /** The reminder job aimed at a day runs from 23 hours before that
      day's midnight up to, but not including, 1 a.m. on that day. */
  lemma ReminderWindow(now: Instant, day: Day)
    ensures ReminderTargetDay(now) == day <==>
            day * MsPerDay - 23 * MsPerHour <= now < day * MsPerDay + MsPerHour
  {
    var x := now + 23 * MsPerHour;
    assert x == now + 82_800_000;
    if day * MsPerDay - 23 * MsPerHour <= now < day * MsPerDay + MsPerHour {
      NormalizeDateUnique(x, day);
    }
  }

  /** Days from 1970-01-01 to the proleptic Gregorian date y-m-d. */
  function DaysFromCivil(y: int, m: int, d: int): Day
    requires 1 <= m <= 12
  {
    var y' := if m <= 2 then y - 1 else y;
    var era := y' / 400;
    var yoe := y' % 400;
    var mp := if m > 2 then m - 3 else m + 9;
    var doy := (153 * mp + 2) / 5 + d - 1;
    var doe := yoe * 365 + yoe / 4 - yoe / 100 + doy;
    era * 146097 + doe - 719468
  }

  /** ECMAScript's MakeDay: a 0-based month out of range moves the year,
      and a date out of range moves the day, so `Date(2024, 12, 1)` is
      2025-01-01 and `Date(2024, 0, 0)` is 2023-12-31. */
  function MakeDay(year: int, month: int, date: int): Day
  {
    DaysFromCivil(year + month / 12, month % 12 + 1, 1) + date - 1
  }

  /** `new Date(year, month, date)` as a local day: the constructor reads a
      year from 0 to 99 as 1900 to 1999. */
  function LocalDate(year: int, month: int, date: int): Day
  {
    MakeDay(if 0 <= year <= 99 then 1900 + year else year, month, date)
  }

  lemma CivilAnchors()
    ensures DaysFromCivil(1970, 1, 1) == 0
    ensures DaysFromCivil(2000, 3, 1) == 11017
    ensures DaysFromCivil(2024, 6, 10) == 19884
    ensures MakeDay(2024, 12, 1) == DaysFromCivil(2025, 1, 1)
    ensures MakeDay(2024, 0, 0) == DaysFromCivil(2023, 12, 31)
    ensures LocalDate(24, 5, 10) == DaysFromCivil(1924, 6, 10)
  {
  }
}
