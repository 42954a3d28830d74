/**
 * Ordering appointments by date-time, as `sorted(Comparator.comparing(
 * Appointment::getDateTime))` does, optionally `.reversed()`. The stream
 * sort is stable, so appointments at an equal date-time keep the order they
 * had, in both directions.
 */
module Chrono {
  import opened Time
  import opened Appointments

  /** May `a` stand before `b`? Ascending: `a` is not later; descending: `b` is not later. */
  predicate InOrder(a: Appointment, b: Appointment, descending: bool)
  {
    if descending then NotLater(b.dateTime, a.dateTime) else NotLater(a.dateTime, b.dateTime)
  }

  predicate Sorted(s: seq<Appointment>, descending: bool)
  {
    forall i, j :: 0 <= i < j < |s| ==> InOrder(s[i], s[j], descending)
  }

  /** The appointments of `s` at date-time `t`, in their order in `s`. */
  function AtTime(s: seq<Appointment>, t: Timestamp): (r: seq<Appointment>)
    ensures forall a :: a in r <==> a in s && a.dateTime == t
    ensures |r| <= |s|
  {
    if s == [] then []
    else (if s[0].dateTime == t then [s[0]] else []) + AtTime(s[1..], t)
  }

  /** Every element of `s` may follow `a`. */
  predicate AllAfter(a: Appointment, s: seq<Appointment>, descending: bool)
  {
    forall j :: 0 <= j < |s| ==> InOrder(a, s[j], descending)
  }

  lemma AllAfterPermutation(a: Appointment, s: seq<Appointment>, u: seq<Appointment>, descending: bool)
    requires AllAfter(a, s, descending)
    requires multiset(s) == multiset(u)
    ensures AllAfter(a, u, descending)
  {
    forall j | 0 <= j < |u| ensures InOrder(a, u[j], descending) {
      assert u[j] in multiset(s);
    }
  }

  lemma SortedCons(a: Appointment, s: seq<Appointment>, descending: bool)
    requires Sorted(s, descending) && AllAfter(a, s, descending)
    ensures Sorted([a] + s, descending)
  {
    var r := [a] + s;
    forall i, j | 0 <= i < j < |r| ensures InOrder(r[i], r[j], descending) {
      assert r[j] == s[j - 1];
      if i > 0 {
        assert r[i] == s[i - 1];
      }
    }
  }

  /** Puts `x` in front of the first element it may precede. */
  function Insert(x: Appointment, s: seq<Appointment>, descending: bool): (r: seq<Appointment>)
    requires Sorted(s, descending)
    ensures Sorted(r, descending)
    ensures multiset(r) == multiset(s) + multiset{x}
    ensures r != [] && (r[0] == x || (s != [] && r[0] == s[0]))
  {
    if s == [] || InOrder(x, s[0], descending) then
      assert AllAfter(x, s, descending) by {
        forall j | 0 <= j < |s| ensures InOrder(x, s[j], descending) {
          NotLaterIsTotalOrder(x.dateTime, s[0].dateTime, s[j].dateTime);
          NotLaterIsTotalOrder(s[j].dateTime, s[0].dateTime, x.dateTime);
        }
      }
      SortedCons(x, s, descending);
      [x] + s
    else
      var tail := Insert(x, s[1..], descending);
      assert AllAfter(s[0], s[1..] + [x], descending) by {
        NotLaterIsTotalOrder(x.dateTime, s[0].dateTime, x.dateTime);
      }
      AllAfterPermutation(s[0], s[1..] + [x], tail, descending);
      SortedCons(s[0], tail, descending);
      assert s == [s[0]] + s[1..];
      [s[0]] + tail
  }

  /** Stable insertion sort. */
  function SortByTime(s: seq<Appointment>, descending: bool): (r: seq<Appointment>)
    ensures Sorted(r, descending)
    ensures multiset(r) == multiset(s)
  {
    if s == [] then []
    else
      assert s == [s[0]] + s[1..];
      Insert(s[0], SortByTime(s[1..], descending), descending)
  }

  /** `x` alone if it is at `t`, nothing otherwise. */
  function Here(x: Appointment, t: Timestamp): seq<Appointment>
  {
    if x.dateTime == t then [x] else []
  }

  lemma AtTimeCons(x: Appointment, s: seq<Appointment>, t: Timestamp)
    ensures AtTime([x] + s, t) == Here(x, t) + AtTime(s, t)
  {
    assert ([x] + s)[1..] == s;
  }

  lemma {:induction false} InsertAtTime(x: Appointment, s: seq<Appointment>, descending: bool, t: Timestamp)
    requires Sorted(s, descending)
    ensures AtTime(Insert(x, s, descending), t) == AtTime([x] + s, t)
  {
    if s != [] && !InOrder(x, s[0], descending) {
      NotLaterIsTotalOrder(x.dateTime, s[0].dateTime, x.dateTime);
      assert s[0].dateTime != x.dateTime;
      var tail := Insert(x, s[1..], descending);
      var rest := AtTime(s[1..], t);
      assert s == [s[0]] + s[1..];
      calc {
        AtTime(Insert(x, s, descending), t);
        { assert Insert(x, s, descending) == [s[0]] + tail; }
        AtTime([s[0]] + tail, t);
        { AtTimeCons(s[0], tail, t); }
        Here(s[0], t) + AtTime(tail, t);
        { InsertAtTime(x, s[1..], descending, t); AtTimeCons(x, s[1..], t); }
        Here(s[0], t) + (Here(x, t) + rest);
        { assert Here(s[0], t) == [] || Here(x, t) == []; }
        Here(x, t) + (Here(s[0], t) + rest);
        { AtTimeCons(s[0], s[1..], t); }
        Here(x, t) + AtTime(s, t);
        { AtTimeCons(x, s, t); }
        AtTime([x] + s, t);
      }
    }
  }

  /**
   * Stability: for every date-time, the appointments at that date-time come
   * out in the order they went in. With `Sorted` and the multiset equality
   * this determines the result of the sort completely.
   */
  lemma {:induction false} SortIsStable(s: seq<Appointment>, descending: bool, t: Timestamp)
    ensures AtTime(SortByTime(s, descending), t) == AtTime(s, t)
  {
    if s != [] {
      var rest := SortByTime(s[1..], descending);
      SortIsStable(s[1..], descending, t);
      InsertAtTime(s[0], rest, descending, t);
      AtTimeCons(s[0], rest, t);
      assert s == [s[0]] + s[1..];
      AtTimeCons(s[0], s[1..], t);
    }
  }
}
