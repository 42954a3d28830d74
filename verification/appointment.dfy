/**
 * The appointment record: its type, its date-time and its optional notes,
 * the three setters and the `toString` layout shown in the pet history.
 */
module Appointments {
  import opened Wrappers
  import opened Time

  /**
   * `kind` is the appointment type (`type` is reserved in Dafny). `notes` is
   * `None` where Java would hold `null`; the scheduler itself always stores a
   * string, possibly empty.
   */
  datatype Appointment = Appointment(kind: string, dateTime: Timestamp, notes: Option<string>)

  function NewAppointment(kind: string, dateTime: Timestamp, notes: Option<string>): (a: Appointment)
    ensures a.kind == kind && a.dateTime == dateTime && a.notes == notes
  {
    Appointment(kind, dateTime, notes)
  }

  function SetKind(a: Appointment, kind: string): (r: Appointment)
    ensures r.kind == kind
    ensures r.dateTime == a.dateTime && r.notes == a.notes
  {
    a.(kind := kind)
  }

  function SetDateTime(a: Appointment, dateTime: Timestamp): (r: Appointment)
    ensures r.dateTime == dateTime
    ensures r.kind == a.kind && r.notes == a.notes
  {
    a.(dateTime := dateTime)
  }

  function SetNotes(a: Appointment, notes: Option<string>): (r: Appointment)
    ensures r.notes == notes
    ensures r.kind == a.kind && r.dateTime == a.dateTime
  {
    a.(notes := notes)
  }

  /**
   * Setting one field and then another touches neither the other's value nor
   * its own: the setters commute, and the last write to a field wins.
   */
  lemma SettersCommute(a: Appointment, k: string, k': string, t: Timestamp, t': Timestamp,
                       n: Option<string>, n': Option<string>)
    ensures SetNotes(SetKind(a, k), n) == SetKind(SetNotes(a, n), k)
    ensures SetDateTime(SetKind(a, k), t) == SetKind(SetDateTime(a, t), k)
    ensures SetNotes(SetDateTime(a, t), n) == SetDateTime(SetNotes(a, n), t)
    ensures SetKind(SetKind(a, k), k') == SetKind(a, k')
    ensures SetDateTime(SetDateTime(a, t), t') == SetDateTime(a, t')
    ensures SetNotes(SetNotes(a, n), n') == SetNotes(a, n')
    ensures SetKind(a, a.kind) == a
  {
  }

  // ---------------------------------------------------------------------
  // toString
  // ---------------------------------------------------------------------

  const Header: string := "Appointment details:\n---------------------\n"

  /** What the Notes line shows: "None" for null or empty notes, otherwise the notes verbatim. */
  function NotesShown(notes: Option<string>): (r: string)
    ensures notes.None? ==> r == "None"
    ensures notes.Some? && notes.value == [] ==> r == "None"
    ensures notes.Some? && notes.value != [] ==> r == notes.value
    ensures r != []
  {
    match notes
    case None => "None"
    case Some(n) => if n == [] then "None" else n
  }

  /**
   * `toString()`: the fixed header, then the Type, Date and Notes lines, each
   * ended by a newline. `formatDate` stands for the `dd/MM/yyyy` formatter.
   */
  function ToText(a: Appointment, formatDate: Timestamp -> string): (r: string)
    ensures |r| > |Header| + 7 + |a.kind| && r[..|Header|] == Header
    ensures r[|Header|..|Header| + 6] == "Type: "
    ensures r[|Header| + 6..|Header| + 6 + |a.kind|] == a.kind && r[|Header| + 6 + |a.kind|] == '\n'
    ensures var d := |Header| + 7 + |a.kind|;
      |r| == d + 7 + |formatDate(a.dateTime)| + |NotesLine(a)|
      && r[d..d + 6] == "Date: "
      && r[d + 6..d + 6 + |formatDate(a.dateTime)|] == formatDate(a.dateTime)
      && r[d + 6 + |formatDate(a.dateTime)|] == '\n'
    ensures r[|r| - 1] == '\n'
    ensures |r| >= |NotesLine(a)| && r[|r| - |NotesLine(a)|..] == NotesLine(a)
  {
    var notes := NotesLine(a);
    TextLayout(Header, a.kind, formatDate(a.dateTime), notes);
    assert notes[|notes| - 1] == '\n';
    Header + ("Type: " + a.kind + "\n") + ("Date: " + formatDate(a.dateTime) + "\n") + notes
  }

  /** Where each piece of the text sits, for any header, type, date and notes line. */
  lemma TextLayout(h: string, k: string, f: string, n: string)
    ensures var r := h + ("Type: " + k + "\n") + ("Date: " + f + "\n") + n;
      var d := |h| + 7 + |k|;
      && |r| == d + 7 + |f| + |n|
      && r[..|h|] == h
      && r[|h|..|h| + 6] == "Type: " && r[|h| + 6..|h| + 6 + |k|] == k && r[|h| + 6 + |k|] == '\n'
      && r[d..d + 6] == "Date: " && r[d + 6..d + 6 + |f|] == f && r[d + 6 + |f|] == '\n'
      && r[|r| - |n|..] == n
  {
    var t := "Type: " + k + "\n";
    var e := "Date: " + f + "\n";
    var r := h + t + e + n;
    var d := |h| + 7 + |k|;
    assert r[|h|..d] == t;
    assert r[d..d + 7 + |f|] == e;
    assert t[..6] == "Type: " && t[6..6 + |k|] == k;
    assert e[..6] == "Date: " && e[6..6 + |f|] == f;
  }

  /** A null note and an empty note print the same: both read "None". */
  lemma NullAndEmptyNotesPrintAlike(a: Appointment, formatDate: Timestamp -> string)
    ensures ToText(a.(notes := None), formatDate) == ToText(a.(notes := Some([])), formatDate)
    ensures ToText(a.(notes := None), formatDate) != ToText(a.(notes := Some("x")), formatDate)
  {
    var n := ToText(a.(notes := None), formatDate);
    var x := ToText(a.(notes := Some("x")), formatDate);
    assert NotesLine(a.(notes := None)) == "Notes: None\n";
    assert NotesLine(a.(notes := Some("x"))) == "Notes: x\n";
    assert |n| == |x| + 3;
  }

  function NotesLine(a: Appointment): string
  {
    "Notes: " + NotesShown(a.notes) + "\n"
  }
}
