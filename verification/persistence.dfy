/**
 * The record file: `storeDataToFile` writes one `PET|...` line per pet
 * followed by one `APP|...` line per appointment of that pet, and
 * `loadDataFromFile` reads the lines back through a small state machine
 * whose only state is the store and the most recently read pet.
 *
 * The file handle is lifted out: the writer produces the lines (without
 * their `\n`), the loader consumes them. `fmt` stands for formatting a
 * date-time with the pattern `yyyy-MM-dd'T'HH:mm:ssZ`, `parseTime` for
 * `ZonedDateTime.parse`, and `today` for the `LocalDate.now()` that the
 * `Pet` constructor stamps on every pet it creates.
 */
module Persistence {
  import opened Wrappers
  import opened Text
  import opened Delimited
  import opened Time
  import opened Appointments
  import opened Pets
  import opened Registry

  const PetTag: string := "PET"
  const AppTag: string := "APP"

  // ---------------------------------------------------------------------
  // Writer
  // ---------------------------------------------------------------------

  /**
   * `PET|id|name|species|age|owner|contact`, every text field escaped, the age
   * in decimal. When the details hold no pipe, `split` gives back exactly the
   * tag and the six fields as stored.
   */
  function PetLine(p: Pet): (r: string)
    ensures PortableDetails(p) ==> JavaSplit(r) == [PetTag, p.id, p.name, p.species, FormatInt(p.age), p.owner, p.contact]
  {
    var fs := [PetTag, Escape(p.id), Escape(p.name), Escape(p.species), FormatInt(p.age),
               Escape(p.owner), Escape(p.contact)];
    assert PortableDetails(p) ==> JavaSplit(Join(fs)) == [PetTag, p.id, p.name, p.species, FormatInt(p.age), p.owner, p.contact] by {
      if PortableDetails(p) {
        assert PipeFree(FormatInt(p.age)) && PipeFree(PetTag);
        SplitJoin7(fs[0], fs[1], fs[2], fs[3], fs[4], fs[5], fs[6]);
      }
    }
    Join(fs)
  }

  /** The notes as written: null is written as the empty string. */
  function NotesText(notes: Option<string>): (r: string)
    ensures notes.None? ==> r == []
    ensures notes.Some? ==> r == notes.value
  {
    match notes
    case None => []
    case Some(n) => n
  }

  /**
   * `APP|type|date-time|notes`; the date-time text is not escaped. When no
   * field holds a pipe and the notes are not empty, `split` gives back exactly
   * the tag, the type, the date-time text and the notes.
   */
  function AppLine(a: Appointment, fmt: Timestamp -> string): (r: string)
    ensures PortableAppLine(a, fmt) ==> JavaSplit(r) == [AppTag, a.kind, fmt(a.dateTime), a.notes.value]
  {
    var fs := [AppTag, Escape(a.kind), fmt(a.dateTime), Escape(NotesText(a.notes))];
    assert PortableAppLine(a, fmt) ==> JavaSplit(Join(fs)) == [AppTag, a.kind, fmt(a.dateTime), a.notes.value] by {
      if PortableAppLine(a, fmt) {
        assert PipeFree(AppTag);
        SplitJoin4(fs[0], fs[1], fs[2], fs[3]);
      }
    }
    Join(fs)
  }

  function AppLines(apps: seq<Appointment>, fmt: Timestamp -> string): (r: seq<string>)
    ensures |r| == |apps|
    ensures forall i :: 0 <= i < |apps| ==> r[i] == AppLine(apps[i], fmt)
  {
    if apps == [] then [] else [AppLine(apps[0], fmt)] + AppLines(apps[1..], fmt)
  }

  /** What is written for one pet: its own line, then one line per appointment, in list order. */
  function PetBlock(p: Pet, fmt: Timestamp -> string): (r: seq<string>)
    ensures |r| == 1 + |p.appointments|
    ensures r[0] == PetLine(p)
    ensures forall i :: 0 <= i < |p.appointments| ==> r[i + 1] == AppLine(p.appointments[i], fmt)
  {
    [PetLine(p)] + AppLines(p.appointments, fmt)
  }

  function CountAppointments(pets: seq<Pet>): nat
  {
    if pets == [] then 0 else |pets[0].appointments| + CountAppointments(pets[1..])
  }

  /** The whole file, the pets taken in the order given (the map's iteration order). */
  function Write(pets: seq<Pet>, fmt: Timestamp -> string): (r: seq<string>)
    ensures |r| == |pets| + CountAppointments(pets)
    ensures pets != [] ==> r[..1 + |pets[0].appointments|] == PetBlock(pets[0], fmt)
  {
    if pets == [] then []
    else
      var block := PetBlock(pets[0], fmt);
      var r := block + Write(pets[1..], fmt);
      assert r[..|block|] == block;
      r
  }

  /** `petMap.values()` visited in the iteration order `order`, a sequence of its keys. */
  function ValuesInOrder(store: Store, order: seq<string>): (r: seq<Pet>)
    requires forall i :: 0 <= i < |order| ==> order[i] in store
    ensures |r| == |order|
    ensures forall i :: 0 <= i < |order| ==> r[i] == store[order[i]]
  {
    if order == [] then [] else [store[order[0]]] + ValuesInOrder(store, order[1..])
  }

  // ---------------------------------------------------------------------
  // Loader
  // ---------------------------------------------------------------------

  /**
   * Why a load stops. In the program none of these is caught: `parts[0]` on a
   * line made only of pipes, `Integer.parseInt` on a bad age and
   * `ZonedDateTime.parse` on a bad date-time each throw out of the load.
   */
  datatype LoadError = NoFields | BadAge | BadDateTime

  /** The loader's state: the store so far and `currentPet`, by identifier. */
  datatype Loader = Loader(store: Store, current: Option<string>)

  /** `currentPet` is always the record stored under its own identifier. */
  predicate Consistent(st: Loader)
  {
    WellKeyed(st.store) && (st.current.Some? ==> st.current.value in st.store)
  }

  /** The line's fields as `line.split("\\|")` gives them. */
  function Parts(line: string): seq<string>
  {
    JavaSplit(line)
  }

  predicate IsPetLine(line: string)
  {
    var parts := Parts(line);
    parts != [] && parts[0] == PetTag && |parts| >= 7
  }

  predicate IsAppLine(line: string)
  {
    var parts := Parts(line);
    parts != [] && parts[0] == AppTag && |parts| >= 4
  }

  /**
   * One line of the loader. A full `PET` line puts a fresh pet (empty list,
   * stamped `today`) under its identifier, replacing any earlier one, and
   * makes it current; a full `APP` line appends to the current pet; `APP`
   * lines before any pet, other tags and lines with too few fields change
   * nothing.
   */
  function Step(st: Loader, line: string, parseTime: string -> Option<Timestamp>, today: Date): (r: Result<Loader, LoadError>)
    requires Consistent(st)
    ensures r.Success? ==> Consistent(r.value)
    ensures r == Failure(NoFields) <==> Parts(line) == []
    ensures r == Failure(BadAge) <==> IsPetLine(line) && ParseInt(Parts(line)[4]).None?
    ensures r == Failure(BadDateTime) <==>
      !IsPetLine(line) && IsAppLine(line) && st.current.Some? && parseTime(Parts(line)[2]).None?
    ensures r.Success? && !IsPetLine(line) && !(IsAppLine(line) && st.current.Some?) ==> r.value == st
    ensures r.Success? && IsPetLine(line) ==>
      var id := Unescape(Parts(line)[1]);
      && r.value.current == Some(id)
      && r.value.store.Keys == st.store.Keys + {id}
      && (forall k :: k in st.store && k != id ==> r.value.store[k] == st.store[k])
      && r.value.store[id].appointments == []
      && r.value.store[id].registrationDate == today
      && r.value.store[id] == NewPet(id, Unescape(Parts(line)[2]), Unescape(Parts(line)[3]),
                                     ParseInt(Parts(line)[4]).value, Unescape(Parts(line)[5]),
                                     Unescape(Parts(line)[6]), today)
    ensures r.Success? && !IsPetLine(line) && IsAppLine(line) && st.current.Some? ==>
      var id := st.current.value;
      && r.value.current == st.current
      && r.value.store.Keys == st.store.Keys
      && (forall k :: k in st.store && k != id ==> r.value.store[k] == st.store[k])
      && |r.value.store[id].appointments| == |st.store[id].appointments| + 1
      && r.value.store[id].appointments[..|st.store[id].appointments|] == st.store[id].appointments
      && r.value.store[id] == AddAppointment(st.store[id],
           NewAppointment(Unescape(Parts(line)[1]), parseTime(Parts(line)[2]).value, Some(Unescape(Parts(line)[3]))))
  {
    var parts := Parts(line);
    if parts == [] then Failure(NoFields)
    else if parts[0] == PetTag && |parts| >= 7 then
      assert IsPetLine(line);
      match ParseInt(parts[4])
      case None => Failure(BadAge)
      case Some(age) =>
        var id := Unescape(parts[1]);
        var p := NewPet(id, Unescape(parts[2]), Unescape(parts[3]), age, Unescape(parts[5]), Unescape(parts[6]), today);
        Success(Loader(st.store[id := p], Some(id)))
    else if parts[0] == AppTag && st.current.Some? && |parts| >= 4 then
      assert !IsPetLine(line) && IsAppLine(line);
      match parseTime(parts[2])
      case None => Failure(BadDateTime)
      case Some(dt) =>
        var id := st.current.value;
        var a := NewAppointment(Unescape(parts[1]), dt, Some(Unescape(parts[3])));
        Success(Loader(st.store[id := AddAppointment(st.store[id], a)], st.current))
    else Success(st)
  }

  /** The loader's loop over the remaining lines. */
  function LoadFrom(st: Loader, lines: seq<string>, parseTime: string -> Option<Timestamp>, today: Date): (r: Result<Loader, LoadError>)
    requires Consistent(st)
    ensures r.Success? ==> Consistent(r.value)
    ensures r.Success? ==> st.store.Keys <= r.value.store.Keys
    decreases |lines|
  {
    if lines == [] then Success(st)
    else
      match Step(st, lines[0], parseTime, today)
      case Failure(e) => Failure(e)
      case Success(next) => LoadFrom(next, lines[1..], parseTime, today)
  }

  /** `loadDataFromFile` on the lines of an existing file, starting from an empty store. */
  function Load(lines: seq<string>, parseTime: string -> Option<Timestamp>, today: Date): (r: Result<Store, LoadError>)
    ensures r.Success? ==> WellKeyed(r.value)
  {
    match LoadFrom(Loader(map[], None), lines, parseTime, today)
    case Failure(e) => Failure(e)
    case Success(st) => Success(st.store)
  }

  /** Loading a line that reads cleanly, then the rest. */
  lemma LoadFromCons(st: Loader, line: string, rest: seq<string>, next: Loader,
                     parseTime: string -> Option<Timestamp>, today: Date)
    requires Consistent(st)
    requires Step(st, line, parseTime, today) == Success(next)
    ensures LoadFrom(st, [line] + rest, parseTime, today) == LoadFrom(next, rest, parseTime, today)
  {
    assert ([line] + rest)[0] == line && ([line] + rest)[1..] == rest;
  }

  /** Loading two runs of lines one after the other is loading their concatenation. */
  lemma {:induction false} LoadFromConcat(st: Loader, a: seq<string>, b: seq<string>,
                                          parseTime: string -> Option<Timestamp>, today: Date)
    requires Consistent(st)
    ensures LoadFrom(st, a, parseTime, today).Success? ==>
      LoadFrom(st, a + b, parseTime, today) == LoadFrom(LoadFrom(st, a, parseTime, today).value, b, parseTime, today)
    ensures LoadFrom(st, a, parseTime, today).Failure? ==>
      LoadFrom(st, a + b, parseTime, today) == LoadFrom(st, a, parseTime, today)
    decreases |a|
  {
    if a != [] {
      assert (a + b)[0] == a[0] && (a + b)[1..] == a[1..] + b;
      match Step(st, a[0], parseTime, today)
      case Failure(e) =>
      case Success(next) => LoadFromConcat(next, a[1..], b, parseTime, today);
    } else {
      assert a + b == b;
    }
  }

  // ---------------------------------------------------------------------
  // Round trip
  // ---------------------------------------------------------------------

  /**
   * An appointment whose line reads back as itself: its type and notes hold
   * no pipe, its notes are present and not empty (an empty last field is
   * dropped by `split`), and the date-time text has no pipe and parses back
   * to the same date-time.
   */
  predicate PortableAppointment(a: Appointment, fmt: Timestamp -> string, parseTime: string -> Option<Timestamp>)
  {
    PortableAppLine(a, fmt) && parseTime(fmt(a.dateTime)) == Some(a.dateTime)
  }

  /** An appointment whose line splits back into its own fields. */
  predicate PortableAppLine(a: Appointment, fmt: Timestamp -> string)
  {
    && PipeFree(a.kind)
    && a.notes.Some? && a.notes.value != [] && PipeFree(a.notes.value)
    && PipeFree(fmt(a.dateTime))
  }

  /** A pet line that reads back as itself: no pipe in any text field, and a contact that is not empty. */
  predicate PortableDetails(p: Pet)
  {
    && PipeFree(p.id) && PipeFree(p.name) && PipeFree(p.species) && PipeFree(p.owner)
    && PipeFree(p.contact) && p.contact != []
  }

  /** A pet whose lines all read back as themselves. */
  predicate Portable(p: Pet, fmt: Timestamp -> string, parseTime: string -> Option<Timestamp>)
  {
    && PortableDetails(p)
    && forall i :: 0 <= i < |p.appointments| ==> PortableAppointment(p.appointments[i], fmt, parseTime)
  }

  /** The record as read back: everything kept except the registration date, which is `today`. */
  function Restamp(p: Pet, today: Date): (r: Pet)
    ensures r.registrationDate == today
    ensures r.(registrationDate := p.registrationDate) == p
  {
    p.(registrationDate := today)
  }

  /** Seven pipe-free fields, the last non-empty, split back into themselves. */
  lemma SplitJoin7(f0: string, f1: string, f2: string, f3: string, f4: string, f5: string, f6: string)
    requires PipeFree(f0) && PipeFree(f1) && PipeFree(f2) && PipeFree(f3)
    requires PipeFree(f4) && PipeFree(f5) && PipeFree(f6) && f6 != []
    ensures JavaSplit(Join([f0, f1, f2, f3, f4, f5, f6])) == [f0, f1, f2, f3, f4, f5, f6]
  {
    SplitJoin([f0, f1, f2, f3, f4, f5, f6]);
  }

  /** Eight pipe-free fields, the last non-empty, split back into themselves. */
  lemma SplitJoin8(f0: string, f1: string, f2: string, f3: string, f4: string, f5: string, f6: string, f7: string)
    requires PipeFree(f0) && PipeFree(f1) && PipeFree(f2) && PipeFree(f3)
    requires PipeFree(f4) && PipeFree(f5) && PipeFree(f6) && PipeFree(f7) && f7 != []
    ensures JavaSplit(Join([f0, f1, f2, f3, f4, f5, f6, f7])) == [f0, f1, f2, f3, f4, f5, f6, f7]
  {
    SplitJoin([f0, f1, f2, f3, f4, f5, f6, f7]);
  }

  /** Four pipe-free fields, the last non-empty, split back into themselves. */
  lemma SplitJoin4(f0: string, f1: string, f2: string, f3: string)
    requires PipeFree(f0) && PipeFree(f1) && PipeFree(f2) && PipeFree(f3) && f3 != []
    ensures JavaSplit(Join([f0, f1, f2, f3])) == [f0, f1, f2, f3]
  {
    SplitJoin([f0, f1, f2, f3]);
  }

  /** Without notes, an `APP` line loses its last field to `split` and is too short to count. */
  lemma AppLineWithoutNotesParts(a: Appointment, fmt: Timestamp -> string)
    requires PipeFree(a.kind) && PipeFree(fmt(a.dateTime))
    requires a.notes == None || a.notes == Some([])
    ensures 0 < |Parts(AppLine(a, fmt))| < 4
  {
    assert PipeFree(AppTag);
    assert Escape(NotesText(a.notes)) == [];
    ThreeFieldsAndEmpty(AppTag, Escape(a.kind), fmt(a.dateTime));
  }

  lemma ThreeFieldsAndEmpty(f0: string, f1: string, f2: string)
    requires PipeFree(f0) && PipeFree(f1) && PipeFree(f2) && f0 != []
    ensures 0 < |JavaSplit(Join([f0, f1, f2, []]))| < 4
  {
    var fs := [f0, f1, f2, []];
    TrailingEmptyFieldIsDropped(fs);
    var r := DropTrailingEmpty(fs);
  }

  /** A line with some, but fewer than four, fields changes nothing. */
  lemma ShortLineIsSkipped(st: Loader, line: string, parseTime: string -> Option<Timestamp>, today: Date)
    requires Consistent(st)
    requires 0 < |Parts(line)| < 4
    ensures Step(st, line, parseTime, today) == Success(st)
  {
  }

  lemma PetLineReadsBack(st: Loader, p: Pet, rest: seq<string>, parseTime: string -> Option<Timestamp>, today: Date)
    requires Consistent(st)
    requires PortableDetails(p)
    ensures LoadFrom(st, [PetLine(p)] + rest, parseTime, today)
      == LoadFrom(Loader(st.store[p.id := Restamp(p, today).(appointments := [])], Some(p.id)), rest, parseTime, today)
  {
    ParseFormatInt(p.age);
    var next := Loader(st.store[p.id := Restamp(p, today).(appointments := [])], Some(p.id));
    assert Step(st, PetLine(p), parseTime, today) == Success(next);
    LoadFromCons(st, PetLine(p), rest, next, parseTime, today);
  }

  lemma AppLineReadsBack(st: Loader, a: Appointment, rest: seq<string>, fmt: Timestamp -> string,
                         parseTime: string -> Option<Timestamp>, today: Date)
    requires Consistent(st) && st.current.Some?
    requires PortableAppointment(a, fmt, parseTime)
    ensures LoadFrom(st, [AppLine(a, fmt)] + rest, parseTime, today)
      == LoadFrom(Appended(st, [a]), rest, parseTime, today)
  {
    var next := Appended(st, [a]);
    assert Step(st, AppLine(a, fmt), parseTime, today) == Success(next);
    LoadFromCons(st, AppLine(a, fmt), rest, next, parseTime, today);
  }

  /** The loader state with `apps` appended to the current pet's list. */
  function Appended(st: Loader, apps: seq<Appointment>): (r: Loader)
    requires Consistent(st) && st.current.Some?
    ensures Consistent(r) && r.current == st.current
  {
    var id := st.current.value;
    Loader(st.store[id := st.store[id].(appointments := st.store[id].appointments + apps)], st.current)
  }

  lemma AppendedTwice(st: Loader, a: Appointment, apps: seq<Appointment>)
    requires Consistent(st) && st.current.Some?
    ensures Appended(Appended(st, [a]), apps) == Appended(st, [a] + apps)
  {
    var id := st.current.value;
    var p := st.store[id];
    assert p.appointments + [a] + apps == p.appointments + ([a] + apps);
    var mid := Appended(st, [a]);
    assert mid.store[id].appointments == p.appointments + [a];
    var lhsStore := mid.store[id := mid.store[id].(appointments := mid.store[id].appointments + apps)];
    var rhsStore := st.store[id := p.(appointments := p.appointments + ([a] + apps))];
    assert lhsStore.Keys == rhsStore.Keys;
    assert forall k :: k in lhsStore ==> lhsStore[k] == rhsStore[k];
  }

  lemma AppLinesCons(apps: seq<Appointment>, fmt: Timestamp -> string)
    requires apps != []
    ensures AppLines(apps, fmt) == [AppLine(apps[0], fmt)] + AppLines(apps[1..], fmt)
  {
  }

  /** Reading the appointment lines of the current pet appends them to its list, in order. */
  lemma {:induction false} AppLinesReadBack(st: Loader, apps: seq<Appointment>,
                                            fmt: Timestamp -> string, parseTime: string -> Option<Timestamp>, today: Date)
    requires Consistent(st) && st.current.Some?
    requires forall i :: 0 <= i < |apps| ==> PortableAppointment(apps[i], fmt, parseTime)
    ensures LoadFrom(st, AppLines(apps, fmt), parseTime, today) == Success(Appended(st, apps))
    decreases |apps|
  {
    if apps == [] {
      var id := st.current.value;
      assert st.store[id].appointments + apps == st.store[id].appointments;
      assert st.store[id := st.store[id]] == st.store;
    } else {
      var rest := AppLines(apps[1..], fmt);
      var next := Appended(st, [apps[0]]);
      calc {
        LoadFrom(st, AppLines(apps, fmt), parseTime, today);
        { AppLinesCons(apps, fmt); }
        LoadFrom(st, [AppLine(apps[0], fmt)] + rest, parseTime, today);
        { AppLineReadsBack(st, apps[0], rest, fmt, parseTime, today); }
        LoadFrom(next, rest, parseTime, today);
        { AppLinesReadBack(next, apps[1..], fmt, parseTime, today); }
        Success(Appended(next, apps[1..]));
        { AppendedTwice(st, apps[0], apps[1..]); assert [apps[0]] + apps[1..] == apps; }
        Success(Appended(st, apps));
      }
    }
  }

  /** Reading one pet's block puts that pet, restamped, under its identifier. */
  lemma PetBlockReadsBack(st: Loader, p: Pet, fmt: Timestamp -> string, parseTime: string -> Option<Timestamp>, today: Date)
    requires Consistent(st)
    requires Portable(p, fmt, parseTime)
    ensures LoadFrom(st, PetBlock(p, fmt), parseTime, today)
      == Success(Loader(st.store[p.id := Restamp(p, today)], Some(p.id)))
  {
    var full := Restamp(p, today);
    var q := full.(appointments := []);
    var apps := AppLines(p.appointments, fmt);
    var st1 := Loader(st.store[p.id := q], Some(p.id));
    assert Consistent(st1);
    PetLineReadsBack(st, p, apps, parseTime, today);
    AppLinesReadBack(st1, p.appointments, fmt, parseTime, today);
    assert Appended(st1, p.appointments) == Loader(st.store[p.id := full], Some(p.id)) by {
      assert st1.store[p.id] == q;
      assert [] + p.appointments == p.appointments;
      assert q.(appointments := p.appointments) == full;
      UpdateTwice(st.store, p.id, q, full);
    }
  }

  lemma UpdateTwice<K, V>(m: map<K, V>, k: K, v: V, v': V)
    ensures m[k := v][k := v'] == m[k := v']
  {
    var lhs := m[k := v][k := v'];
    var rhs := m[k := v'];
    assert lhs.Keys == rhs.Keys;
    assert forall j :: j in lhs ==> lhs[j] == rhs[j];
  }

  /** The store `acc` with every pet of `order` put in, restamped. */
  function Overlay(acc: Store, store: Store, order: seq<string>, today: Date): (r: Store)
    requires forall i :: 0 <= i < |order| ==> order[i] in store
    ensures r.Keys == acc.Keys + set k | k in order
  {
    map k | k in acc.Keys + (set k | k in order) :: if k in order then Restamp(store[k], today) else acc[k]
  }

  lemma {:induction false} WriteReadsBack(st: Loader, store: Store, order: seq<string>, fmt: Timestamp -> string,
                                          parseTime: string -> Option<Timestamp>, today: Date)
    requires Consistent(st)
    requires WellKeyed(store)
    requires forall i :: 0 <= i < |order| ==> order[i] in store
    requires forall k :: k in store ==> Portable(store[k], fmt, parseTime)
    ensures LoadFrom(st, Write(ValuesInOrder(store, order), fmt), parseTime, today).Success?
    ensures LoadFrom(st, Write(ValuesInOrder(store, order), fmt), parseTime, today).value.store
      == Overlay(st.store, store, order, today)
    decreases |order|
  {
    if order == [] {
      assert Overlay(st.store, store, order, today) == st.store;
    } else {
      var p := store[order[0]];
      var later := Write(ValuesInOrder(store, order[1..]), fmt);
      WriteCons(store, order, fmt);
      PetBlockReadsBack(st, p, fmt, parseTime, today);
      LoadFromConcat(st, PetBlock(p, fmt), later, parseTime, today);
      var st1 := Loader(st.store[p.id := Restamp(p, today)], Some(p.id));
      WriteReadsBack(st1, store, order[1..], fmt, parseTime, today);
      OverlayStep(st.store, store, order, today);
    }
  }

  /** The file for the pets of `order` is the first pet's block followed by the file for the rest. */
  lemma WriteCons(store: Store, order: seq<string>, fmt: Timestamp -> string)
    requires order != []
    requires forall i :: 0 <= i < |order| ==> order[i] in store
    ensures Write(ValuesInOrder(store, order), fmt)
         == PetBlock(store[order[0]], fmt) + Write(ValuesInOrder(store, order[1..]), fmt)
  {
    var pets := ValuesInOrder(store, order);
    assert pets[1..] == ValuesInOrder(store, order[1..]);
  }

  lemma OverlayStep(acc: Store, store: Store, order: seq<string>, today: Date)
    requires WellKeyed(store)
    requires |order| > 0
    requires forall i :: 0 <= i < |order| ==> order[i] in store
    ensures Overlay(acc[store[order[0]].id := Restamp(store[order[0]], today)], store, order[1..], today)
         == Overlay(acc, store, order, today)
  {
    var k0 := order[0];
    assert store[k0].id == k0;
    var lhs := Overlay(acc[k0 := Restamp(store[k0], today)], store, order[1..], today);
    var rhs := Overlay(acc, store, order, today);
    assert forall k :: k in order <==> k == k0 || k in order[1..];
    assert lhs.Keys == rhs.Keys;
    forall k | k in lhs.Keys
      ensures lhs[k] == rhs[k]
    {
    }
  }

  /**
   * The write/load round trip. If `order` visits every key of a well-keyed
   * store whose pets are all portable, loading what was written gives back
   * the same pets under the same keys with the same appointments in the same
   * order; only the registration dates become the day of the load.
   */
  lemma LoadAfterWrite(store: Store, order: seq<string>, fmt: Timestamp -> string,
                       parseTime: string -> Option<Timestamp>, today: Date)
    requires WellKeyed(store)
    requires forall k :: k in store <==> k in order
    requires forall k :: k in store ==> Portable(store[k], fmt, parseTime)
    ensures Load(Write(ValuesInOrder(store, order), fmt), parseTime, today)
      == Success(map k | k in store :: Restamp(store[k], today))
  {
    var st := Loader(map[], None);
    var lines := Write(ValuesInOrder(store, order), fmt);
    WriteReadsBack(st, store, order, fmt, parseTime, today);
    var loaded := LoadFrom(st, lines, parseTime, today).value.store;
    OverlayOfEmpty(store, order, today);
    assert Load(lines, parseTime, today) == Success(loaded);
  }

  lemma OverlayOfEmpty(store: Store, order: seq<string>, today: Date)
    requires forall k :: k in store <==> k in order
    ensures Overlay(map[], store, order, today) == map k | k in store :: Restamp(store[k], today)
  {
    var lhs := Overlay(map[], store, order, today);
    var rhs := map k | k in store :: Restamp(store[k], today);
    assert lhs.Keys == rhs.Keys;
    forall k | k in lhs.Keys
      ensures lhs[k] == rhs[k]
    {
    }
  }

  // ---------------------------------------------------------------------
  // Where the round trip breaks
  // ---------------------------------------------------------------------

  /**
   * A pipe in a pet's name is escaped on writing, but `split` cuts at the
   * escaped pipe too: the name comes apart and every later column moves one
   * place to the right.
   */
  lemma PipeInNameShiftsColumns(p: Pet, a: string, b: string)
    requires p.name == a + [Pipe] + b && PipeFree(a) && PipeFree(b)
    requires PortableDetails(p.(name := a))
    ensures Parts(PetLine(p))
      == [PetTag, p.id, a + [Backslash], b, p.species, FormatInt(p.age), p.owner, p.contact]
  {
    PetLineWithPipedName(p, a, b);
    assert PipeFree(FormatInt(p.age)) && PipeFree(PetTag) && PipeFree(a + [Backslash]);
    SplitJoin8(PetTag, p.id, a + [Backslash], b, p.species, FormatInt(p.age), p.owner, p.contact);
  }

  lemma PetLineWithPipedName(p: Pet, a: string, b: string)
    requires p.name == a + [Pipe] + b && PipeFree(a) && PipeFree(b)
    requires PortableDetails(p.(name := a))
    ensures PetLine(p)
      == Join([PetTag, p.id, a + [Backslash], b, p.species, FormatInt(p.age), p.owner, p.contact])
  {
    var x := a + [Backslash];
    EscapeAroundPipe(a, b);
    assert Escape(p.name) == x + [Pipe] + b;
    NameColumnSplits(PetTag, Escape(p.id), x, b, Escape(p.species), FormatInt(p.age),
                     Escape(p.owner), Escape(p.contact));
  }

  /** The third of seven joined fields, holding one pipe, reads as two fields. */
  lemma NameColumnSplits(tag: string, id: string, x: string, y: string,
                         species: string, age: string, owner: string, contact: string)
    ensures Join([tag, id, x + [Pipe] + y, species, age, owner, contact])
         == Join([tag, id, x, y, species, age, owner, contact])
  {
    var pre := [tag, id];
    var post := [species, age, owner, contact];
    JoinSplitsField(pre, x, y, post);
    assert pre + [x + [Pipe] + y] + post == [tag, id, x + [Pipe] + y, species, age, owner, contact];
    assert pre + [x, y] + post == [tag, id, x, y, species, age, owner, contact];
  }

  /**
   * With the columns shifted, the species is read where the age should be;
   * unless it happens to read as a number, the whole load stops.
   */
  lemma PipeInNameStopsLoad(p: Pet, a: string, b: string, fmt: Timestamp -> string,
                            parseTime: string -> Option<Timestamp>, today: Date)
    requires p.name == a + [Pipe] + b && PipeFree(a) && PipeFree(b)
    requires PortableDetails(p.(name := a))
    requires ParseInt(p.species).None?
    requires p.appointments == []
    ensures Load(Write([p], fmt), parseTime, today) == Failure(BadAge)
  {
    var line := PetLine(p);
    PipeInNameShiftsColumns(p, a, b);
    var st := Loader(map[], None);
    assert Step(st, line, parseTime, today) == Failure(BadAge);
    assert LoadFrom(st, [line], parseTime, today) == Failure(BadAge);
    assert Write([p], fmt) == [line];
  }

  /**
   * Empty (or null) notes make the last field of an `APP` line empty; `split`
   * drops it, the line has three fields and is skipped, and the appointment
   * is lost on reload.
   */
  lemma EmptyNotesAreLost(p: Pet, a: Appointment, fmt: Timestamp -> string,
                          parseTime: string -> Option<Timestamp>, today: Date)
    requires Portable(p, fmt, parseTime) && p.appointments == []
    requires PipeFree(a.kind) && PipeFree(fmt(a.dateTime))
    requires a.notes == None || a.notes == Some([])
    ensures Load(Write([p.(appointments := [a])], fmt), parseTime, today)
      == Success(map[p.id := Restamp(p, today)])
  {
    var p' := p.(appointments := [a]);
    var line := AppLine(a, fmt);
    var st := Loader(map[], None);
    var next := Loader(map[p.id := Restamp(p, today)], Some(p.id));
    assert Restamp(p', today).(appointments := []) == Restamp(p, today);
    assert st.store[p.id := Restamp(p, today)] == next.store;
    calc {
      Write([p'], fmt);
      PetBlock(p', fmt) + Write([], fmt);
      { assert AppLines([a], fmt) == [line]; }
      [PetLine(p')] + [line];
    }
    PetLineReadsBack(st, p', [line], parseTime, today);
    AppLineWithoutNotesParts(a, fmt);
    ShortLineIsSkipped(next, line, parseTime, today);
    LoadFromCons(next, line, [], next, parseTime, today);
    assert [line] + [] == [line];
  }
}
