/**
 * The read-only views: the upcoming and past appointments of one pet
 * (`displayRecords`), and the three reports — appointments in the next seven
 * days, pets overdue for a vet visit, and pets grouped by species.
 *
 * The clock is lifted out: `now`, `weekLater` (`now.plusWeeks(1)`) and
 * `sixMonthsAgo` (`now.minusMonths(6)`) are parameters. The pets are taken
 * in the order the caller enumerates `petMap.values()`; the model does not
 * fix that order.
 */
module Reports {
  import opened Wrappers
  import opened Text
  import opened Time
  import opened Appointments
  import opened Pets
  import opened Registry
  import opened Scheduling
  import opened Chrono

  // ---------------------------------------------------------------------
  // Upcoming and past appointments of one pet
  // ---------------------------------------------------------------------

  /** The appointments strictly after `now`, in list order. */
  function Later(apps: seq<Appointment>, now: Timestamp): (r: seq<Appointment>)
    ensures forall a :: a in r <==> a in apps && IsAfter(a.dateTime, now)
    ensures |r| <= |apps|
  {
    if apps == [] then []
    else (if IsAfter(apps[0].dateTime, now) then [apps[0]] else []) + Later(apps[1..], now)
  }

  /** The appointments strictly before `now`, in list order. */
  function Earlier(apps: seq<Appointment>, now: Timestamp): (r: seq<Appointment>)
    ensures forall a :: a in r <==> a in apps && IsBefore(a.dateTime, now)
    ensures |r| <= |apps|
  {
    if apps == [] then []
    else (if IsBefore(apps[0].dateTime, now) then [apps[0]] else []) + Earlier(apps[1..], now)
  }

  /** The appointments at the same instant as `now`: neither upcoming nor past. */
  function AtNow(apps: seq<Appointment>, now: Timestamp): (r: seq<Appointment>)
    ensures forall a :: a in r <==> a in apps && a.dateTime.instant == now.instant
  {
    if apps == [] then []
    else (if apps[0].dateTime.instant == now.instant then [apps[0]] else []) + AtNow(apps[1..], now)
  }

  /** "Upcoming Appointments": those after `now`, earliest first. */
  function Upcoming(apps: seq<Appointment>, now: Timestamp): (r: seq<Appointment>)
    ensures Sorted(r, false)
    ensures multiset(r) == multiset(Later(apps, now))
    ensures forall a :: a in r <==> a in apps && IsAfter(a.dateTime, now)
  {
    var r := SortByTime(Later(apps, now), false);
    assert forall a :: a in r <==> a in multiset(r);
    r
  }

  /** "Past Appointment History": those before `now`, latest first. */
  function Past(apps: seq<Appointment>, now: Timestamp): (r: seq<Appointment>)
    ensures Sorted(r, true)
    ensures multiset(r) == multiset(Earlier(apps, now))
    ensures forall a :: a in r <==> a in apps && IsBefore(a.dateTime, now)
  {
    var r := SortByTime(Earlier(apps, now), true);
    assert forall a :: a in r <==> a in multiset(r);
    r
  }

  lemma {:induction false} ThreeWaySplit(apps: seq<Appointment>, now: Timestamp)
    ensures multiset(Later(apps, now)) + multiset(Earlier(apps, now)) + multiset(AtNow(apps, now))
         == multiset(apps)
  {
    if apps != [] {
      var x := apps[0];
      var rest := apps[1..];
      ThreeWaySplit(rest, now);
      Trichotomy(x.dateTime, now);
      assert apps == [x] + rest;
      var later := Later(rest, now);
      var earlier := Earlier(rest, now);
      var atNow := AtNow(rest, now);
      if IsAfter(x.dateTime, now) {
        assert Later(apps, now) == [x] + later;
        assert Earlier(apps, now) == earlier && AtNow(apps, now) == atNow;
      } else if IsBefore(x.dateTime, now) {
        assert Earlier(apps, now) == [x] + earlier;
        assert Later(apps, now) == later && AtNow(apps, now) == atNow;
      } else {
        assert AtNow(apps, now) == [x] + atNow;
        assert Later(apps, now) == later && Earlier(apps, now) == earlier;
      }
    }
  }

  /**
   * The two lists of `displayRecords` share no appointment, and together
   * with the appointments at exactly `now` they hold every appointment of
   * the pet, each as often as it occurs.
   */
  lemma UpcomingAndPastPartition(apps: seq<Appointment>, now: Timestamp)
    ensures multiset(Upcoming(apps, now)) + multiset(Past(apps, now)) + multiset(AtNow(apps, now))
         == multiset(apps)
    ensures forall a :: !(a in Upcoming(apps, now) && a in Past(apps, now))
  {
    ThreeWaySplit(apps, now);
  }

  /** Appointments at one date-time keep their list order in both views. */
  lemma ViewsAreStable(apps: seq<Appointment>, now: Timestamp, t: Timestamp)
    ensures AtTime(Upcoming(apps, now), t) == AtTime(Later(apps, now), t)
    ensures AtTime(Past(apps, now), t) == AtTime(Earlier(apps, now), t)
  {
    SortIsStable(Later(apps, now), false, t);
    SortIsStable(Earlier(apps, now), true, t);
  }

  // ---------------------------------------------------------------------
  // Report 1: appointments in the next seven days
  // ---------------------------------------------------------------------

  /** The appointments strictly between `now` and `weekLater`, in list order. */
  function Within(apps: seq<Appointment>, now: Timestamp, weekLater: Timestamp): (r: seq<Appointment>)
    ensures forall a :: a in r <==> a in apps && IsAfter(a.dateTime, now) && IsBefore(a.dateTime, weekLater)
  {
    if apps == [] then []
    else
      (if IsAfter(apps[0].dateTime, now) && IsBefore(apps[0].dateTime, weekLater) then [apps[0]] else [])
      + Within(apps[1..], now, weekLater)
  }

  /** One printed line: `Pet: … | Owner: … | Task: … | DateTime: …`. */
  datatype Row = Row(petName: string, owner: string, task: string, dateTime: Timestamp)

  function RowOf(p: Pet, a: Appointment): Row
  {
    Row(p.name, p.owner, a.kind, a.dateTime)
  }

  function Rows(p: Pet, apps: seq<Appointment>): (r: seq<Row>)
    ensures |r| == |apps|
    ensures forall i :: 0 <= i < |apps| ==> r[i] == RowOf(p, apps[i])
  {
    if apps == [] then [] else [RowOf(p, apps[0])] + Rows(p, apps[1..])
  }

  /** One pet's part of the report: its appointments in the window, earliest first. */
  function WeekOf(p: Pet, now: Timestamp, weekLater: Timestamp): (r: seq<Appointment>)
    ensures Sorted(r, false)
    ensures multiset(r) == multiset(Within(p.appointments, now, weekLater))
    ensures forall a :: a in r <==>
      a in p.appointments && IsAfter(a.dateTime, now) && IsBefore(a.dateTime, weekLater)
  {
    var r := SortByTime(Within(p.appointments, now, weekLater), false);
    assert forall a :: a in r <==> a in multiset(r);
    r
  }

  /**
   * The whole report, pet after pet. It is empty — "No appointments
   * scheduled for the next 7 days." — exactly when no pet has an appointment
   * inside the window.
   */
  function NextWeek(pets: seq<Pet>, now: Timestamp, weekLater: Timestamp): (r: seq<Row>)
    ensures r == [] <==> forall i :: 0 <= i < |pets| ==> Within(pets[i].appointments, now, weekLater) == []
  {
    if pets == [] then []
    else
      var week := WeekOf(pets[0], now, weekLater);
      assert |week| == |Within(pets[0].appointments, now, weekLater)| by {
        assert |multiset(week)| == |multiset(Within(pets[0].appointments, now, weekLater))|;
      }
      assert forall i :: 0 < i < |pets| ==> pets[i] == pets[1..][i - 1];
      Rows(pets[0], week) + NextWeek(pets[1..], now, weekLater)
  }

  /** The blocks written one after another. */
  function Flatten<T>(blocks: seq<seq<T>>): seq<T>
  {
    if blocks == [] then [] else blocks[0] + Flatten(blocks[1..])
  }

  /**
   * The report is each pet's block in the pets' order, and each block is
   * that pet's appointments inside the window in ascending date-time order.
   */
  lemma {:induction false} NextWeekByPet(pets: seq<Pet>, now: Timestamp, weekLater: Timestamp)
    ensures NextWeek(pets, now, weekLater)
      == Flatten(seq(|pets|, i requires 0 <= i < |pets| => Rows(pets[i], WeekOf(pets[i], now, weekLater))))
  {
    var blocks := seq(|pets|, i requires 0 <= i < |pets| => Rows(pets[i], WeekOf(pets[i], now, weekLater)));
    if pets != [] {
      NextWeekByPet(pets[1..], now, weekLater);
      assert blocks[1..] == seq(|pets| - 1, i requires 0 <= i < |pets| - 1 => Rows(pets[1..][i], WeekOf(pets[1..][i], now, weekLater)));
    }
  }

  /** Does `row` report an appointment of pet `p` inside the window? */
  predicate Describes(p: Pet, row: Row, now: Timestamp, weekLater: Timestamp)
  {
    exists a :: a in p.appointments && IsAfter(a.dateTime, now) && IsBefore(a.dateTime, weekLater)
      && row == RowOf(p, a)
  }

  /**
   * A line is in the report exactly when some listed pet has an appointment
   * strictly between `now` and a week later that the line describes.
   */
  lemma {:induction false} NextWeekRows(pets: seq<Pet>, now: Timestamp, weekLater: Timestamp, row: Row)
    ensures row in NextWeek(pets, now, weekLater) <==>
      exists i :: 0 <= i < |pets| && Describes(pets[i], row, now, weekLater)
  {
    if pets != [] {
      var rest := pets[1..];
      NextWeekRows(rest, now, weekLater, row);
      PetRows(pets[0], now, weekLater, row);
      assert NextWeek(pets, now, weekLater)
        == Rows(pets[0], WeekOf(pets[0], now, weekLater)) + NextWeek(rest, now, weekLater);
      if exists i :: 0 <= i < |pets| && Describes(pets[i], row, now, weekLater) {
        var i :| 0 <= i < |pets| && Describes(pets[i], row, now, weekLater);
        if i > 0 {
          assert rest[i - 1] == pets[i];
        }
      }
      if exists i :: 0 <= i < |rest| && Describes(rest[i], row, now, weekLater) {
        var i :| 0 <= i < |rest| && Describes(rest[i], row, now, weekLater);
        assert pets[i + 1] == rest[i];
      }
    }
  }

  /** One pet's lines describe exactly its appointments inside the window. */
  lemma PetRows(p: Pet, now: Timestamp, weekLater: Timestamp, row: Row)
    ensures row in Rows(p, WeekOf(p, now, weekLater)) <==> Describes(p, row, now, weekLater)
  {
    var week := WeekOf(p, now, weekLater);
    var mine := Rows(p, week);
    if row in mine {
      var k :| 0 <= k < |mine| && mine[k] == row;
      assert week[k] in week;
    }
    if Describes(p, row, now, weekLater) {
      var a :| a in p.appointments && IsAfter(a.dateTime, now) && IsBefore(a.dateTime, weekLater)
        && row == RowOf(p, a);
      var k :| 0 <= k < |week| && week[k] == a;
      assert mine[k] == row;
    }
  }

  // ---------------------------------------------------------------------
  // Report 2: pets overdue for a vet visit
  // ---------------------------------------------------------------------

  const VetVisit: string := "Vet Visit"

  /** The specification of "recently seen": a vet visit (any case) after `sixMonthsAgo`. */
  predicate SeenSince(p: Pet, sixMonthsAgo: Timestamp)
  {
    exists a :: a in p.appointments && EqualsIgnoreCase(a.kind, VetVisit) && IsAfter(a.dateTime, sixMonthsAgo)
  }

  /** `anyMatch` over the list, written as the stream evaluates it. */
  function AnyRecentVisit(apps: seq<Appointment>, sixMonthsAgo: Timestamp): (r: bool)
    ensures r <==> exists a :: a in apps && EqualsIgnoreCase(a.kind, VetVisit) && IsAfter(a.dateTime, sixMonthsAgo)
  {
    if apps == [] then false
    else
      (EqualsIgnoreCase(apps[0].kind, VetVisit) && IsAfter(apps[0].dateTime, sixMonthsAgo))
      || AnyRecentVisit(apps[1..], sixMonthsAgo)
  }

  /** The pets listed, in the order visited; empty means "All pets are up-to-date with vet visits." */
  function Overdue(pets: seq<Pet>, sixMonthsAgo: Timestamp): (r: seq<Pet>)
    ensures forall p :: p in r <==> p in pets && !SeenSince(p, sixMonthsAgo)
    ensures |r| <= |pets|
  {
    if pets == [] then []
    else
      (if AnyRecentVisit(pets[0].appointments, sixMonthsAgo) then [] else [pets[0]])
      + Overdue(pets[1..], sixMonthsAgo)
  }

  /** The report keeps the visiting order: it is a subsequence of the pets. */
  lemma {:induction false} OverdueIsSubsequence(pets: seq<Pet>, sixMonthsAgo: Timestamp)
    ensures Subsequence(Overdue(pets, sixMonthsAgo), pets)
  {
    if pets != [] {
      var sub := Overdue(pets, sixMonthsAgo);
      var later := Overdue(pets[1..], sixMonthsAgo);
      OverdueIsSubsequence(pets[1..], sixMonthsAgo);
      if AnyRecentVisit(pets[0].appointments, sixMonthsAgo) {
        assert sub == later;
      } else {
        assert sub == [pets[0]] + later;
        assert sub[1..] == later;
      }
    }
  }

  /** `sub` can be obtained from `s` by deleting elements. */
  predicate Subsequence(sub: seq<Pet>, s: seq<Pet>)
    decreases |s|
  {
    if s == [] then sub == []
    else (sub != [] && sub[0] == s[0] && Subsequence(sub[1..], s[1..])) || Subsequence(sub, s[1..])
  }

  /** Adding an appointment never makes a pet overdue. */
  lemma AddingKeepsSeen(p: Pet, a: Appointment, sixMonthsAgo: Timestamp)
    requires SeenSince(p, sixMonthsAgo)
    ensures SeenSince(AddAppointment(p, a), sixMonthsAgo)
  {
    var b :| b in p.appointments && EqualsIgnoreCase(b.kind, VetVisit) && IsAfter(b.dateTime, sixMonthsAgo);
    assert b in AddAppointment(p, a).appointments;
  }

  /**
   * Scheduling a vet visit takes the pet off the overdue list: the visit
   * cannot lie before `now`, and `sixMonthsAgo` lies before `now`, so the
   * visit counts as recent — even though it has not happened yet.
   */
  lemma ScheduledVisitClearsOverdue(store: Store, id: string, typeText: string, dateText: string, notes: string,
                                    now: Timestamp, parseTime: string -> Option<Timestamp>, sixMonthsAgo: Timestamp)
    requires IsBefore(sixMonthsAgo, now)
    requires EqualsIgnoreCase(typeText, VetVisit)
    requires Schedule(store, id, typeText, dateText, notes, now, parseTime).Success?
    ensures SeenSince(Schedule(store, id, typeText, dateText, notes, now, parseTime).value[id], sixMonthsAgo)
  {
    var r := Schedule(store, id, typeText, dateText, notes, now, parseTime).value;
    var added := r[id].appointments[|store[id].appointments|];
    assert added in r[id].appointments;
    EqualsIgnoreCaseIsEquivalence(added.kind, typeText, VetVisit);
  }

  // ---------------------------------------------------------------------
  // Report 3: pets by species
  // ---------------------------------------------------------------------

  /** One entry of the `TreeMap`: a species and its pets in the order they were added. */
  datatype Group = Group(species: string, members: seq<Pet>)

  /** The map's keys. */
  function KeySet(groups: seq<Group>): set<string>
  {
    set i | 0 <= i < |groups| :: groups[i].species
  }

  /** `TreeMap` keeps its keys in `String.compareTo` order, each key once. */
  predicate Ascending(groups: seq<Group>)
  {
    forall i, j :: 0 <= i < j < |groups| ==> Less(groups[i].species, groups[j].species)
  }

  /** `get(species)`, with a missing key read as an empty list. */
  function Lookup(groups: seq<Group>, species: string): seq<Pet>
  {
    if groups == [] then []
    else if groups[0].species == species then groups[0].members
    else Lookup(groups[1..], species)
  }

  /** Every list in the map holds at least one pet. */
  predicate NonEmptyGroups(groups: seq<Group>)
  {
    forall i :: 0 <= i < |groups| ==> groups[i].members != []
  }

  lemma AscendingCons(g: Group, groups: seq<Group>)
    requires Ascending(groups)
    requires forall k :: k in KeySet(groups) ==> Less(g.species, k)
    ensures Ascending([g] + groups)
  {
    var r := [g] + groups;
    forall i, j | 0 <= i < j < |r| ensures Less(r[i].species, r[j].species) {
      assert r[j] == groups[j - 1];
      if i == 0 {
        assert groups[j - 1].species in KeySet(groups);
      } else {
        assert r[i] == groups[i - 1];
      }
    }
  }

  lemma AbsentBelowHead(groups: seq<Group>, s: string)
    requires Ascending(groups) && groups != []
    requires Less(s, groups[0].species)
    ensures s !in KeySet(groups)
    ensures forall k :: k in KeySet(groups) ==> Less(s, k)
  {
    forall k | k in KeySet(groups) ensures Less(s, k) {
      var i :| 0 <= i < |groups| && groups[i].species == k;
      if i > 0 {
        LessTransitive(s, groups[0].species, k);
      }
    }
    if s in KeySet(groups) {
      LessIrreflexive(s);
    }
  }

  lemma {:induction false} LookupAbsent(groups: seq<Group>, s: string)
    requires s !in KeySet(groups)
    ensures Lookup(groups, s) == []
  {
    if groups != [] {
      assert KeySet(groups[1..]) <= KeySet(groups) by {
        forall k | k in KeySet(groups[1..]) ensures k in KeySet(groups) {
          var i :| 0 <= i < |groups[1..]| && groups[1..][i].species == k;
          assert groups[i + 1].species == k;
        }
      }
      LookupAbsent(groups[1..], s);
    }
  }

  lemma KeySetCons(g: Group, groups: seq<Group>)
    ensures KeySet([g] + groups) == {g.species} + KeySet(groups)
  {
    var r := [g] + groups;
    forall k | k in KeySet(r) ensures k in {g.species} + KeySet(groups) {
      var i :| 0 <= i < |r| && r[i].species == k;
      if i > 0 {
        assert groups[i - 1].species == k;
      }
    }
    forall k | k in KeySet(groups) ensures k in KeySet(r) {
      var i :| 0 <= i < |groups| && groups[i].species == k;
      assert r[i + 1].species == k;
    }
    assert r[0].species == g.species;
  }

  /** `r` is `groups` with `p` added to the list of its species. */
  ghost predicate Adds(groups: seq<Group>, p: Pet, r: seq<Group>)
  {
    && Ascending(r)
    && KeySet(r) == KeySet(groups) + {p.species}
    && (forall s :: Lookup(r, s) == Lookup(groups, s) + (if s == p.species then [p] else []))
    && (NonEmptyGroups(groups) ==> NonEmptyGroups(r))
  }

  /**
   * `computeIfAbsent(species, …).add(p)`: `p` is appended to the list of its
   * species, which is created (in key order) when missing; every other list
   * stays as it was.
   */
  function AddToGroups(groups: seq<Group>, p: Pet): (r: seq<Group>)
    requires Ascending(groups)
    ensures Ascending(r)
    ensures KeySet(r) == KeySet(groups) + {p.species}
    ensures forall s :: Lookup(r, s) == Lookup(groups, s) + (if s == p.species then [p] else [])
    ensures NonEmptyGroups(groups) ==> NonEmptyGroups(r)
    decreases |groups|
  {
    if groups == [] then
      var r := [Group(p.species, [p])];
      AddToNothing(p);
      r
    else if groups[0].species == p.species then
      var r := [groups[0].(members := groups[0].members + [p])] + groups[1..];
      AddToHead(groups, p);
      r
    else if Less(p.species, groups[0].species) then
      var r := [Group(p.species, [p])] + groups;
      AddBeforeHead(groups, p);
      r
    else
      var r := [groups[0]] + AddToGroups(groups[1..], p);
      AddAfterHead(groups, p, AddToGroups(groups[1..], p));
      r
  }

  lemma AddToNothing(p: Pet)
    ensures Adds([], p, [Group(p.species, [p])])
  {
    var r := [Group(p.species, [p])];
    KeySetCons(Group(p.species, [p]), []);
    assert r[1..] == [];
  }

  lemma AddToHead(groups: seq<Group>, p: Pet)
    requires Ascending(groups) && groups != [] && groups[0].species == p.species
    ensures Adds(groups, p, [groups[0].(members := groups[0].members + [p])] + groups[1..])
  {
    var g := groups[0].(members := groups[0].members + [p]);
    var r := [g] + groups[1..];
    assert groups == [groups[0]] + groups[1..];
    KeySetCons(g, groups[1..]);
    KeySetCons(groups[0], groups[1..]);
    assert forall i :: 0 < i < |r| ==> r[i] == groups[i];
    assert r[1..] == groups[1..];
  }

  lemma AddBeforeHead(groups: seq<Group>, p: Pet)
    requires Ascending(groups) && groups != [] && Less(p.species, groups[0].species)
    ensures Adds(groups, p, [Group(p.species, [p])] + groups)
  {
    var g := Group(p.species, [p]);
    var r := [g] + groups;
    AbsentBelowHead(groups, p.species);
    AscendingCons(g, groups);
    KeySetCons(g, groups);
    LookupAbsent(groups, p.species);
    assert r[1..] == groups;
  }

  lemma AddAfterHead(groups: seq<Group>, p: Pet, tail: seq<Group>)
    requires Ascending(groups) && groups != []
    requires groups[0].species != p.species && !Less(p.species, groups[0].species)
    requires Adds(groups[1..], p, tail)
    ensures Adds(groups, p, [groups[0]] + tail)
  {
    AfterHeadKeys(groups, p, tail);
    AfterHeadLookup(groups, p, tail);
    AfterHeadNonEmpty(groups, p, tail);
  }

  lemma AfterHeadKeys(groups: seq<Group>, p: Pet, tail: seq<Group>)
    requires Ascending(groups) && groups != []
    requires groups[0].species != p.species && !Less(p.species, groups[0].species)
    requires Ascending(tail) && KeySet(tail) == KeySet(groups[1..]) + {p.species}
    ensures Ascending([groups[0]] + tail)
    ensures KeySet([groups[0]] + tail) == KeySet(groups) + {p.species}
  {
    var head := groups[0];
    LessTotal(p.species, head.species);
    assert groups == [head] + groups[1..];
    KeySetCons(head, groups[1..]);
    KeySetCons(head, tail);
    forall k | k in KeySet(groups[1..]) ensures Less(head.species, k) {
      var i :| 0 <= i < |groups[1..]| && groups[1..][i].species == k;
      assert groups[i + 1].species == k;
    }
    AscendingCons(head, tail);
  }

  lemma AfterHeadLookup(groups: seq<Group>, p: Pet, tail: seq<Group>)
    requires groups != [] && groups[0].species != p.species
    requires forall s :: Lookup(tail, s) == Lookup(groups[1..], s) + (if s == p.species then [p] else [])
    ensures forall s :: Lookup([groups[0]] + tail, s) == Lookup(groups, s) + (if s == p.species then [p] else [])
  {
    assert ([groups[0]] + tail)[1..] == tail;
  }

  lemma AfterHeadNonEmpty(groups: seq<Group>, p: Pet, tail: seq<Group>)
    requires groups != []
    requires NonEmptyGroups(groups[1..]) ==> NonEmptyGroups(tail)
    ensures NonEmptyGroups(groups) ==> NonEmptyGroups([groups[0]] + tail)
  {
    if NonEmptyGroups(groups) {
      assert forall i :: 0 <= i < |groups[1..]| ==> groups[1..][i] == groups[i + 1];
      var r := [groups[0]] + tail;
      assert forall i :: 0 < i < |r| ==> r[i] == tail[i - 1];
    }
  }

  /** The pets of one species, in visiting order. */
  function OfSpecies(pets: seq<Pet>, species: string): (r: seq<Pet>)
    ensures forall p :: p in r <==> p in pets && p.species == species
  {
    if pets == [] then []
    else OfSpecies(pets[..|pets| - 1], species)
         + (if pets[|pets| - 1].species == species then [pets[|pets| - 1]] else [])
  }

  /** The species of the pets. */
  function SpeciesOf(pets: seq<Pet>): set<string>
  {
    set i | 0 <= i < |pets| :: pets[i].species
  }

  /**
   * "Pets by Species": one entry per species that occurs, keys in ascending
   * order, each holding exactly the pets of that species in visiting order.
   */
  function BySpecies(pets: seq<Pet>): (r: seq<Group>)
    ensures Ascending(r)
    ensures KeySet(r) == SpeciesOf(pets)
    ensures forall s :: Lookup(r, s) == OfSpecies(pets, s)
    ensures NonEmptyGroups(r)
    decreases |pets|
  {
    if pets == [] then []
    else
      var front := pets[..|pets| - 1];
      var last := pets[|pets| - 1];
      var r := AddToGroups(BySpecies(front), last);
      assert SpeciesOf(pets) == SpeciesOf(front) + {last.species} by {
        forall s | s in SpeciesOf(pets) ensures s in SpeciesOf(front) + {last.species} {
          var i :| 0 <= i < |pets| && pets[i].species == s;
          if i < |pets| - 1 {
            assert front[i].species == s;
          }
        }
        forall s | s in SpeciesOf(front) ensures s in SpeciesOf(pets) {
          var i :| 0 <= i < |front| && front[i].species == s;
          assert pets[i].species == s;
        }
      }
      r
  }

  /** Each key's list is the one `get` finds for it, so every group holds exactly its species' pets. */
  lemma {:induction false} GroupsHoldTheirSpecies(pets: seq<Pet>, i: nat)
    requires i < |BySpecies(pets)|
    ensures BySpecies(pets)[i].members == OfSpecies(pets, BySpecies(pets)[i].species)
  {
    var groups := BySpecies(pets);
    LookupFindsGroup(groups, i);
  }

  lemma {:induction false} LookupFindsGroup(groups: seq<Group>, i: nat)
    requires Ascending(groups) && i < |groups|
    ensures Lookup(groups, groups[i].species) == groups[i].members
    decreases i
  {
    if i > 0 {
      assert Less(groups[0].species, groups[i].species);
      LessIrreflexive(groups[i].species);
      assert Ascending(groups[1..]) by {
        assert forall a, b :: 0 <= a < b < |groups[1..]| ==> groups[1..][a] == groups[a + 1] && groups[1..][b] == groups[b + 1];
      }
      LookupFindsGroup(groups[1..], i - 1);
    }
  }
}
