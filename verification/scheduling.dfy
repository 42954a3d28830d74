/**
 * Appointment scheduling (`addAppointmentForPet`): the pet must exist, the
 * type must be on the whitelist ignoring case and is stored in its canonical
 * spelling, the date-time must parse and must not lie before `now`, and an
 * appointment with the same type (ignoring case) and an equal date-time
 * must not already be on the pet. Otherwise the new appointment is appended.
 */
module Scheduling {
  import opened Wrappers
  import opened Text
  import opened Time
  import opened Appointments
  import opened Pets
  import opened Registry

  /** The whitelist, in its canonical spelling and in the order it is searched. */
  const ValidTypes: seq<string> := ["Vet Visit", "Vaccination", "Grooming"]

  function FirstMatch(candidates: seq<string>, t: string): (r: Option<string>)
    ensures r.Some? ==> r.value in candidates && EqualsIgnoreCase(r.value, t)
    ensures r.None? ==> forall i :: 0 <= i < |candidates| ==> !EqualsIgnoreCase(candidates[i], t)
    ensures r.Some? ==> exists i :: (0 <= i < |candidates| && candidates[i] == r.value
      && forall j :: 0 <= j < i ==> !EqualsIgnoreCase(candidates[j], t))
  {
    if candidates == [] then None
    else if EqualsIgnoreCase(candidates[0], t) then Some(candidates[0])
    else
      var r := FirstMatch(candidates[1..], t);
      assert r.Some? ==> exists i :: (0 <= i < |candidates| && candidates[i] == r.value
        && forall j :: 0 <= j < i ==> !EqualsIgnoreCase(candidates[j], t)) by {
        if r.Some? {
          var k :| 0 <= k < |candidates| - 1 && candidates[1..][k] == r.value
            && forall j :: 0 <= j < k ==> !EqualsIgnoreCase(candidates[1..][j], t);
          assert forall j :: 0 < j < k + 1 ==> candidates[j] == candidates[1..][j - 1];
          assert candidates[k + 1] == r.value;
        }
      }
      r
  }

  /**
   * The canonical spelling of an appointment type: the first whitelist
   * entry equal to it ignoring case, if there is one.
   */
  function Canonical(t: string): (r: Option<string>)
    ensures r.Some? <==> exists i :: 0 <= i < |ValidTypes| && EqualsIgnoreCase(ValidTypes[i], t)
    ensures r.Some? ==> r.value in ValidTypes && EqualsIgnoreCase(r.value, t)
  {
    FirstMatch(ValidTypes, t)
  }

  /** A type is accepted exactly when it is one of the three, in any mix of cases. */
  lemma CanonicalAcceptsExactly(t: string)
    ensures Canonical(t).Some? <==>
      EqualsIgnoreCase(t, "Vet Visit") || EqualsIgnoreCase(t, "Vaccination") || EqualsIgnoreCase(t, "Grooming")
  {
    assert ValidTypes[0] == "Vet Visit" && ValidTypes[1] == "Vaccination" && ValidTypes[2] == "Grooming";
  }

  /** Canonicalising a canonical spelling gives it back: canonicalising twice is canonicalising once. */
  lemma {:induction false} CanonicalIdempotent(t: string)
    requires Canonical(t).Some?
    ensures Canonical(Canonical(t).value) == Canonical(t)
  {
    FirstMatchDependsOnFold(ValidTypes, t, Canonical(t).value);
  }

  lemma {:induction false} FirstMatchDependsOnFold(candidates: seq<string>, t: string, u: string)
    requires EqualsIgnoreCase(t, u)
    ensures FirstMatch(candidates, t) == FirstMatch(candidates, u)
  {
    if candidates != [] {
      FirstMatchDependsOnFold(candidates[1..], t, u);
    }
  }

  /**
   * Is there already an appointment of this type (ignoring case) at an equal
   * date-time? The `anyMatch` scan over the pet's list, front to back.
   */
  function IsDuplicate(apps: seq<Appointment>, kind: string, dt: Timestamp): (r: bool)
    ensures r <==> exists i :: 0 <= i < |apps| && EqualsIgnoreCase(apps[i].kind, kind) && apps[i].dateTime == dt
  {
    if apps == [] then false
    else
      assert forall i :: 0 < i < |apps| ==> apps[i] == apps[1..][i - 1];
      (EqualsIgnoreCase(apps[0].kind, kind) && apps[0].dateTime == dt) || IsDuplicate(apps[1..], kind, dt)
  }

  /** No two appointments of a pet share their type (ignoring case) and their date-time. */
  predicate NoDuplicates(apps: seq<Appointment>)
  {
    forall i, j :: 0 <= i < j < |apps| ==>
      !(EqualsIgnoreCase(apps[i].kind, apps[j].kind) && apps[i].dateTime == apps[j].dateTime)
  }

  datatype ScheduleError =
    | UnknownPet       // "Pet ID does not exist."
    | InvalidType      // "Invalid appointment type."
    | InvalidDateTime  // "Invalid date/time format."
    | PastDate         // "Appointment must be set for a future date."
    | Duplicate        // "This appointment already exists for this pet."

  /**
   * Scheduling. `parseTime` stands for `ZonedDateTime.parse` and `now` for
   * `ZonedDateTime.now()`. A date-time at exactly `now` is accepted; on
   * success exactly one appointment is appended to that pet's list and
   * nothing else in the store changes.
   */
  function Schedule(store: Store, id: string, typeText: string, dateText: string, notes: string,
                    now: Timestamp, parseTime: string -> Option<Timestamp>): (r: Result<Store, ScheduleError>)
    ensures r == Failure(UnknownPet) <==> id !in store
    ensures r == Failure(InvalidType) <==> id in store && Canonical(typeText).None?
    ensures r == Failure(InvalidDateTime) <==>
      id in store && Canonical(typeText).Some? && parseTime(dateText).None?
    ensures r == Failure(PastDate) <==>
      id in store && Canonical(typeText).Some? && parseTime(dateText).Some?
      && IsBefore(parseTime(dateText).value, now)
    ensures r == Failure(Duplicate) <==>
      id in store && Canonical(typeText).Some? && parseTime(dateText).Some?
      && !IsBefore(parseTime(dateText).value, now)
      && IsDuplicate(store[id].appointments, Canonical(typeText).value, parseTime(dateText).value)
    ensures r.Success? ==>
      && id in store
      && r.value.Keys == store.Keys
      && (forall k :: k in store && k != id ==> r.value[k] == store[k])
      && r.value[id] == AddAppointment(store[id],
           Appointment(Canonical(typeText).value, parseTime(dateText).value, Some(notes)))
      && r.value[id].appointments[|store[id].appointments|].kind in ValidTypes
  {
    if id !in store then Failure(UnknownPet)
    else match Canonical(typeText)
      case None => Failure(InvalidType)
      case Some(kind) =>
        match parseTime(dateText)
        case None => Failure(InvalidDateTime)
        case Some(dt) =>
          if IsBefore(dt, now) then Failure(PastDate)
          else if IsDuplicate(store[id].appointments, kind, dt) then Failure(Duplicate)
          else Success(store[id := AddAppointment(store[id], Appointment(kind, dt, Some(notes)))])
  }

  /** Scheduling keeps every record under its own identifier. */
  lemma ScheduleKeepsKeys(store: Store, id: string, typeText: string, dateText: string, notes: string,
                          now: Timestamp, parseTime: string -> Option<Timestamp>)
    requires WellKeyed(store)
    ensures var r := Schedule(store, id, typeText, dateText, notes, now, parseTime);
      r.Success? ==> WellKeyed(r.value)
  {
  }

  /** Scheduling keeps the duplicate-appointment invariant of every pet. */
  lemma ScheduleKeepsNoDuplicates(store: Store, id: string, typeText: string, dateText: string, notes: string,
                                  now: Timestamp, parseTime: string -> Option<Timestamp>)
    requires forall k :: k in store ==> NoDuplicates(store[k].appointments)
    ensures var r := Schedule(store, id, typeText, dateText, notes, now, parseTime);
      r.Success? ==> forall k :: k in r.value ==> NoDuplicates(r.value[k].appointments)
  {
    var r := Schedule(store, id, typeText, dateText, notes, now, parseTime);
    if r.Success? {
      var before := store[id].appointments;
      var apps := r.value[id].appointments;
      var n := |before|;
      forall i, j | 0 <= i < j < |apps|
        ensures !(EqualsIgnoreCase(apps[i].kind, apps[j].kind) && apps[i].dateTime == apps[j].dateTime)
      {
        if j == n {
          assert apps[i] == before[i];
          EqualsIgnoreCaseIsEquivalence(apps[i].kind, apps[j].kind, typeText);
          assert !(EqualsIgnoreCase(before[i].kind, Canonical(typeText).value) && before[i].dateTime == parseTime(dateText).value);
        } else {
          assert apps[i] == before[i] && apps[j] == before[j];
        }
      }
    }
  }

  /**
   * Scheduling the same type and date-time twice on one pet fails the second
   * time, whatever case the type is written in.
   */
  lemma SecondIdenticalScheduleIsDuplicate(store: Store, id: string, typeText: string, typeText': string,
                                           dateText: string, notes: string, notes': string,
                                           now: Timestamp, parseTime: string -> Option<Timestamp>)
    requires EqualsIgnoreCase(typeText, typeText')
    requires Schedule(store, id, typeText, dateText, notes, now, parseTime).Success?
    ensures Schedule(Schedule(store, id, typeText, dateText, notes, now, parseTime).value,
                     id, typeText', dateText, notes', now, parseTime) == Failure(Duplicate)
  {
    var s1 := Schedule(store, id, typeText, dateText, notes, now, parseTime).value;
    FirstMatchDependsOnFold(ValidTypes, typeText, typeText');
    var apps := s1[id].appointments;
    var k := |store[id].appointments|;
    assert apps[k].kind == Canonical(typeText').value;
    EqualsIgnoreCaseIsEquivalence(apps[k].kind, apps[k].kind, apps[k].kind);
    assert IsDuplicate(apps, Canonical(typeText').value, parseTime(dateText).value);
  }

  /**
   * An appointment only blocks its own date-time: after one is added, a
   * request at a different date-time (or of another type) is judged a
   * duplicate exactly when it would have been before.
   */
  lemma OtherDateTimeIsNotBlocked(store: Store, id: string, typeText: string, typeText': string,
                                  dateText: string, dateText': string, notes: string, notes': string,
                                  now: Timestamp, parseTime: string -> Option<Timestamp>)
    requires Schedule(store, id, typeText, dateText, notes, now, parseTime).Success?
    requires parseTime(dateText') != parseTime(dateText) || !EqualsIgnoreCase(typeText, typeText')
    ensures Schedule(Schedule(store, id, typeText, dateText, notes, now, parseTime).value,
                     id, typeText', dateText', notes', now, parseTime).Success?
        <==> Schedule(store, id, typeText', dateText', notes', now, parseTime).Success?
  {
    var s1 := Schedule(store, id, typeText, dateText, notes, now, parseTime).value;
    var added := s1[id].appointments[|store[id].appointments|];
    var c1 := Canonical(typeText).value;
    assert s1[id].appointments == store[id].appointments + [added];
    if Canonical(typeText').Some? && parseTime(dateText').Some? {
      var c2 := Canonical(typeText').value;
      var dt2 := parseTime(dateText').value;
      assert !(EqualsIgnoreCase(added.kind, c2) && added.dateTime == dt2);
      IsDuplicateAppend(store[id].appointments, added, c2, dt2);
    }
  }

  /** An appended appointment is a duplicate on its own or not at all. */
  lemma IsDuplicateAppend(apps: seq<Appointment>, x: Appointment, kind: string, dt: Timestamp)
    ensures IsDuplicate(apps + [x], kind, dt)
        <==> IsDuplicate(apps, kind, dt) || (EqualsIgnoreCase(x.kind, kind) && x.dateTime == dt)
  {
    var s := apps + [x];
    assert forall i :: 0 <= i < |apps| ==> s[i] == apps[i];
    assert s[|apps|] == x;
  }
}
