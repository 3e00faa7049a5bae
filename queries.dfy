/** The reservation listing query: a CONFIRMED-only filter with optional
    user, date and slot conditions, ordered by date and then slot. A date
    condition compares instants, as the store compares DateTime values:
    a row's date is the instant of its local midnight. */
module Queries {
  import opened Domain
  import opened Calendar

  /** The store's order on slots, assumed to be MORNING before AFTERNOON,
      the order in which the enum declares them (as in a native enum column). */
  function SlotRank(s: Slot): nat
  {
    match s
    case Morning => 0
    case Afternoon => 1
  }

  /** `a` may come before `b` under orderBy [{date: asc}, {slot: asc}]. */
  predicate InOrder(a: Reservation, b: Reservation)
  {
    a.day < b.day || (a.day == b.day && SlotRank(a.slot) <= SlotRank(b.slot))
  }

  predicate Ordered(rs: seq<Reservation>)
  {
    forall i, j :: 0 <= i < j < |rs| ==> InOrder(rs[i], rs[j])
  }

  /** A `where` object: status is always CONFIRMED; the other conditions
      are present or not. */
  datatype Where = Where(userId: Option<UserId>, date: Option<Instant>, slot: Option<Slot>)

  predicate Matches(w: Where, r: Reservation)
  {
    && r.status == Confirmed
    && (w.userId.None? || r.userId == w.userId.value)
    && (w.date.None? || Midnight(r.day) == w.date.value)
    && (w.slot.None? || r.slot == w.slot.value)
  }

  /** The rows that match, in table order. */
  function Filter(rs: seq<Reservation>, w: Where): (out: seq<Reservation>)
    ensures forall r :: r in out <==> r in rs && Matches(w, r)
    ensures multiset(out) <= multiset(rs)
    ensures forall r :: r in rs && Matches(w, r) ==> multiset(out)[r] == multiset(rs)[r]
    ensures (forall i :: 0 <= i < |rs| ==> !Matches(w, rs[i])) ==> out == []
  {
    if rs == [] then []
    else
      var last := rs[|rs| - 1];
      assert rs == rs[..|rs| - 1] + [last];
      Filter(rs[..|rs| - 1], w) + (if Matches(w, last) then [last] else [])
  }

  /** Puts `r` into an ordered sequence, after every row it does not precede. */
  function Insert(r: Reservation, sorted: seq<Reservation>): (out: seq<Reservation>)
    requires Ordered(sorted)
    ensures Ordered(out)
    ensures multiset(out) == multiset(sorted) + multiset{r}
    ensures forall x :: x in out ==> x == r || x in sorted
  {
    if sorted == [] then [r]
    else if InOrder(r, sorted[0]) && !InOrder(sorted[0], r) then
      HeadFirst(sorted);
      OrderedCons(r, sorted);
      [r] + sorted
    else
      var head, tail := sorted[0], sorted[1..];
      assert sorted == [head] + tail;
      HeadFirst(sorted);
      assert Ordered(tail) by {
        forall i, j | 0 <= i < j < |tail| ensures InOrder(tail[i], tail[j]) {
          assert tail[i] == sorted[i + 1] && tail[j] == sorted[j + 1];
        }
      }
      var rest := Insert(r, tail);
      OrderedCons(head, rest);
      [head] + rest
  }

  /** The head of an ordered sequence may come before every element. */
  lemma HeadFirst(sorted: seq<Reservation>)
    requires Ordered(sorted) && sorted != []
    ensures forall x :: x in sorted ==> InOrder(sorted[0], x)
  {
  }

  /** An element that may come before every element of an ordered
      sequence heads an ordered sequence. */
  lemma OrderedCons(h: Reservation, t: seq<Reservation>)
    requires Ordered(t) && forall x :: x in t ==> InOrder(h, x)
    ensures Ordered([h] + t)
  {
    forall i, j | 0 <= i < j < |[h] + t| ensures InOrder(([h] + t)[i], ([h] + t)[j]) {
      assert ([h] + t)[j] == t[j - 1];
      if i > 0 {
        assert ([h] + t)[i] == t[i - 1];
      }
    }
  }

  /** orderBy [{date: asc}, {slot: asc}]: an ordered permutation. */
  function SortByDateSlot(rs: seq<Reservation>): (out: seq<Reservation>)
    ensures Ordered(out)
    ensures multiset(out) == multiset(rs)
  {
    if rs == [] then []
    else
      assert rs == rs[..|rs| - 1] + [rs[|rs| - 1]];
      Insert(rs[|rs| - 1], SortByDateSlot(rs[..|rs| - 1]))
  }

  /** findMany({where, orderBy: [{date: asc}, {slot: asc}]}): every matching
      row and nothing else, each as often as in the table, in date-then-slot order. */
  function FindMany(rs: seq<Reservation>, w: Where): (out: seq<Reservation>)
    ensures Ordered(out)
    ensures forall r :: r in out <==> r in rs && Matches(w, r)
    ensures forall r :: r in rs && Matches(w, r) ==> multiset(out)[r] == multiset(rs)[r]
  {
    var out := SortByDateSlot(Filter(rs, w));
    assert forall r :: r in out <==> r in multiset(Filter(rs, w));
    out
  }

  /** A date condition on the instant of a local midnight selects exactly
      the rows of that day. */
  lemma DateConditionIsDay(r: Reservation, day: Day)
    ensures Midnight(r.day) == Midnight(day) <==> r.day == day
  {
    assert NormalizeDate(Midnight(r.day)) == r.day;
  }

  /** A date condition on an instant that is not a local midnight selects nothing. */
  lemma OffMidnightSelectsNothing(rs: seq<Reservation>, userId: Option<UserId>, t: Instant, slot: Option<Slot>)
    requires t % MsPerDay != 0
    ensures FindMany(rs, Where(userId, Some(t), slot)) == []
  {
    var w := Where(userId, Some(t), slot);
    assert forall i :: 0 <= i < |rs| ==> !Matches(w, rs[i]);
    assert Filter(rs, w) == [];
  }
}
