# Pet care scheduler — a Dafny model

This project models the core of a console pet-care scheduler: a store of pet
records keyed by pet identifier, the rules for registering a pet and for
scheduling an appointment, the pipe-delimited record file (writer and
loader), and the read-only views over the store. These are the upcoming and
past appointments of one pet, and three reports: appointments in the next
seven days, pets overdue for a vet visit, and pets grouped by species.

The model is functional. A pet (`Pets.Pet`) and an appointment
(`Appointments.Appointment`) are immutable datatypes. The store is a
`map<string, Pet>`. Every operation is a pure function. Those that can fail
(registering, scheduling, loading) return a `Result`, with one error
constructor per message the program prints or exception it raises. Console
input, the clock and the file handle are lifted out as parameters:

- the already trimmed answers to the prompts;
- `now`, `today`, `weekLater` and `sixMonthsAgo`;
- the lines written or read.

Modules, one per file:

| module | file | models |
|---|---|---|
| `Wrappers` | wrappers.dfy | `Option` (a Java reference that may be null) and `Result` |
| `Text` | text.dfy | ASCII case folding (`equalsIgnoreCase`), `String.compareTo`, `Integer.parseInt` and `%d` |
| `Delimited` | delimited.dfy | `escapeDelimiter` / `unescapeDelimiter`, joining with `\|`, Java's `split("\\|")` |
| `Time` | time.dfy | `ZonedDateTime` as (instant, offset): `isBefore`/`isAfter` on the instant, `compareTo` lexicographic |
| `Appointments` | appointment.dfy | the appointment record, its setters and `toString` |
| `Pets` | pet.dfy | the pet record, `addAppointment`, the setters |
| `Registry` | registry.dfy | `petMap` and `registerNewPet` |
| `Scheduling` | scheduling.dfy | `addAppointmentForPet` |
| `Chrono` | chrono.dfy | the stable sort by date-time, ascending and `.reversed()` |
| `Persistence` | persistence.dfy | `storeDataToFile` and `loadDataFromFile` |
| `Reports` | reports.dfy | the upcoming/past lists of `displayRecords` and the three reports |

Several behaviours follow the code, where a reader of the program's
description might expect otherwise:

- Scheduling rejects only a date-time strictly before `now`. A date-time at
  exactly `now` is accepted.
- A `PET` line whose age does not parse, or an `APP` line whose date-time
  does not parse, throws outside the `IOException` handler. The model makes
  this a `Failure` of the whole load, not a skipped line. A line made only of
  pipes splits into no fields at all, and reading its first field fails the
  same way.
- `split("\\|")` also cuts at escaped pipes and drops trailing empty fields.
  So the write/load round trip holds only for pipe-free fields and non-empty
  notes (`Persistence.LoadAfterWrite`). `Persistence.PipeInNameStopsLoad`
  and `Persistence.EmptyNotesAreLost` show what happens otherwise.
- The overdue report counts a vet visit dated in the future as "recently
  seen" (`Reports.ScheduledVisitClearsOverdue`).
- A reloaded pet's registration date is the day of the load, because the
  file does not record it.

## Model

| member | source | states |
|---|---|---|
| Text.EqualsIgnoreCase | PetCareScheduler.java:119-120 | two strings are equal ignoring case exactly when they have the same length and agree letter by letter after folding |
| Text.EqualsIgnoreCaseIsEquivalence | PetCareScheduler.java:119-120 | comparing ignoring case is reflexive, symmetric and transitive, and only relates strings of equal length |
| Text.LessIrreflexive | PetCareScheduler.java:340 | no species key sorts before itself in the `TreeMap` order |
| Text.LessTransitive | PetCareScheduler.java:340 | the key order of the `TreeMap` is transitive |
| Text.LessTotal | PetCareScheduler.java:340 | any two distinct keys are ordered one way or the other |
| Text.LessAsymmetric | PetCareScheduler.java:340 | two keys are never each before the other |
| Text.ParseInt | PetCareScheduler.java:78 | the text parses exactly when, after an optional leading `+` or `-`, it is a non-empty run of digits whose signed value fits in an `int`, and the result is that signed value; empty text never parses |
| Text.FormatInt | PetCareScheduler.java:174-178 | the age is written as a non-empty run of digits with at most a sign |
| Text.ParseFormatInt | PetCareScheduler.java:375 | reading back a written 32-bit age gives the same age |
| Delimited.Escape | PetCareScheduler.java:196-198 | every pipe of the escaped text has a backslash right before it; pipe-free text is unchanged; escaping neither adds nor removes the presence of a pipe |
| Delimited.Unescape | PetCareScheduler.java:201-203 | unescaping never lengthens the text and leaves pipe-free text unchanged |
| Delimited.UnescapeEscape | PetCareScheduler.java:196-203 | unescaping undoes escaping, for every string |
| Delimited.EscapeAroundPipe | PetCareScheduler.java:197 | a single pipe between pipe-free pieces becomes backslash-pipe and nothing else changes |
| Delimited.Fields | PetCareScheduler.java:369 | cutting at every pipe yields pipe-free pieces that join back to the line |
| Delimited.JavaSplit | PetCareScheduler.java:369 | split yields pipe-free fields; a pipe-free line is one field, even when empty; for a line holding a pipe, the last field is never empty |
| Delimited.SplitIsEmptyIff | PetCareScheduler.java:369-371 | split yields no field at all exactly when the line is non-empty and made only of pipes |
| Delimited.SplitJoin | PetCareScheduler.java:369 | pipe-free fields whose last is non-empty (when there are several) split back into themselves |
| Delimited.TrailingEmptyFieldIsDropped | PetCareScheduler.java:369 | when the last written field is empty, split drops it (and any empty fields before it) and returns fewer fields |
| Time.NotLaterIsTotalOrder | PetCareScheduler.java:243 | `compareTo` on date-times is a total order that agrees with `isBefore` |
| Time.Trichotomy | PetCareScheduler.java:241-256 | every date-time is after, before or at the same instant as `now`, and only one of the first two |
| Appointments.NewAppointment | Appointment.java:9-13 | the constructor stores type, date-time and notes unchanged |
| Appointments.SetKind | Appointment.java:17-19 | `setType` changes the type only |
| Appointments.SetDateTime | Appointment.java:23-25 | `setDateTime` changes the date-time only |
| Appointments.SetNotes | Appointment.java:29-31 | `setNotes` changes the notes only |
| Appointments.SettersCommute | Appointment.java:17-31 | setters of different fields commute, the last write to a field wins, and writing back the same type changes nothing |
| Appointments.NotesShown | Appointment.java:41 | the Notes line shows "None" for null or empty notes, otherwise the notes verbatim |
| Appointments.ToText | Appointment.java:33-42 | `toString` is the fixed two-line header, then "Type: " with the type and a newline, then "Date: " with the `dd/MM/yyyy` text and a newline, then the Notes line, and nothing else |
| Appointments.NullAndEmptyNotesPrintAlike | Appointment.java:41 | null and empty notes print identically, and differently from real notes |
| Pets.NewPet | Pet.java:15-24 | the constructor stores the six given values, stamps today's date and starts with no appointments |
| Pets.AddAppointment | Pet.java:25-27 | the list grows by exactly one element at its end; earlier appointments and all other fields are unchanged |
| Pets.ApplyEdit | Pet.java:45-53 | each setter changes only its own field |
| Pets.EditsKeepIdentity | Pet.java:5-54 | after any run of setters and additions the identifier and registration date are unchanged, and the old appointments remain a prefix of a list longer by the number of additions |
| Registry.Register | PetCareScheduler.java:47-105 | each error is returned exactly when its check is the first in order to fail (empty id, taken id, name, species, unparsable age, negative age, owner, contact); on success exactly one new record with the given fields and no appointments is added under the id, and every other record is unchanged |
| Registry.RegisterKeepsKeys | PetCareScheduler.java:56-103 | registration keeps every record under its own id, and registering the same id again is refused as a duplicate |
| Scheduling.FirstMatch | PetCareScheduler.java:128-131 | the result is a candidate equal ignoring case with no matching candidate before it, or none when no candidate matches |
| Scheduling.Canonical | PetCareScheduler.java:117-131 | a type is accepted iff one of the three whitelist entries equals it ignoring case; the stored spelling is that whitelist entry |
| Scheduling.CanonicalAcceptsExactly | PetCareScheduler.java:117-125 | accepted exactly when equal, ignoring case, to "Vet Visit", "Vaccination" or "Grooming" |
| Scheduling.CanonicalIdempotent | PetCareScheduler.java:128-131 | canonicalising the canonical spelling gives it back |
| Scheduling.FirstMatchDependsOnFold | PetCareScheduler.java:128-131 | two types equal ignoring case select the same whitelist entry |
| Scheduling.Schedule | PetCareScheduler.java:106-166 | each error is returned exactly when its check is the first to fail (unknown pet, bad type, unparsable date-time, before `now`, duplicate); on success only that pet changes, by one appended appointment with the canonical type, the date-time and the notes |
| Scheduling.ScheduleKeepsKeys | PetCareScheduler.java:161 | scheduling keeps every record under its own id |
| Scheduling.ScheduleKeepsNoDuplicates | PetCareScheduler.java:150-161 | if no pet has two appointments of the same type (ignoring case) at an equal date-time, scheduling keeps it so |
| Scheduling.IsDuplicate | PetCareScheduler.java:152-154 | the scan reports a duplicate exactly when some listed appointment has the type ignoring case and an equal date-time |
| Scheduling.SecondIdenticalScheduleIsDuplicate | PetCareScheduler.java:150-159 | repeating a successful request, in any letter case, is refused as a duplicate |
| Scheduling.OtherDateTimeIsNotBlocked | PetCareScheduler.java:152-154 | an added appointment blocks only its own type and date-time: any other request succeeds afterwards iff it would have before |
| Chrono.Insert | PetCareScheduler.java:243 | inserting into a sorted list keeps it sorted and adds exactly the one element |
| Chrono.SortByTime | PetCareScheduler.java:241-256 | the sorted list is ordered by `compareTo` (reversed for the past) and is a permutation of its input |
| Chrono.InsertAtTime | PetCareScheduler.java:243 | insertion puts a new element behind nothing of its own date-time that came after it |
| Chrono.SortIsStable | PetCareScheduler.java:243-255 | appointments at an equal date-time keep their input order, in both directions |
| Persistence.NotesText | PetCareScheduler.java:187 | null notes are written as the empty string, other notes as they are |
| Persistence.AppLines | PetCareScheduler.java:183-188 | one `APP` line per appointment, in list order |
| Persistence.PetBlock | PetCareScheduler.java:172-188 | a pet's block is its `PET` line followed by its `APP` lines in list order |
| Persistence.Write | PetCareScheduler.java:172-189 | the file has one line per pet plus one per appointment, and begins with the first pet's block |
| Persistence.ValuesInOrder | PetCareScheduler.java:172 | the pets are visited in the given key order |
| Persistence.Step | PetCareScheduler.java:368-388 | a line with no fields fails; a full `PET` line with a bad age fails; a full `APP` line with a current pet and a bad date-time fails; a full `PET` line puts under its unescaped id a fresh pet built from the unescaped fields and the parsed age, stamped `today` and with no appointments, replacing any earlier one, and makes it current; a full `APP` line with a current pet appends to that pet the appointment built from the unescaped type and notes and the parsed date-time, and changes nothing else; every other line changes nothing |
| Persistence.LoadFrom | PetCareScheduler.java:368-389 | the loader keeps the current pet stored under its own id and never loses a key |
| Persistence.Load | PetCareScheduler.java:358-394 | a successful load yields a store with every pet under its own id |
| Persistence.LoadFromConcat | PetCareScheduler.java:368-389 | loading two runs of lines in turn is loading their concatenation, and a failure in the first run is final |
| Persistence.Restamp | Pet.java:22 | a reloaded pet differs from the written one only in its registration date, which is the day of the load |
| Persistence.PetLine | PetCareScheduler.java:174-180 | a `PET` line of pipe-free details with a non-empty contact splits back into the tag, id, name, species, decimal age, owner and contact, in that order |
| Persistence.AppLine | PetCareScheduler.java:184-187 | an `APP` line whose type, date-time text and non-empty notes hold no pipe splits back into the tag, type, date-time text and notes, in that order |
| Persistence.AppLineWithoutNotesParts | PetCareScheduler.java:382 | an `APP` line with null or empty notes splits into between one and three fields, too few to be read |
| Persistence.ShortLineIsSkipped | PetCareScheduler.java:371-388 | a line with between one and three fields changes nothing |
| Persistence.PetLineReadsBack | PetCareScheduler.java:371-380 | reading a written `PET` line stores the pet, restamped and without appointments, and makes it current |
| Persistence.AppLineReadsBack | PetCareScheduler.java:382-387 | reading a written `APP` line appends that very appointment to the current pet |
| Persistence.AppLinesReadBack | PetCareScheduler.java:382-387 | reading a pet's `APP` lines appends its appointments to the current pet, in order |
| Persistence.PetBlockReadsBack | PetCareScheduler.java:172-188 | reading one pet's block stores that pet, restamped, with all its appointments in order |
| Persistence.WriteReadsBack | PetCareScheduler.java:368-388 | loading a written file over any consistent state overlays exactly the written pets, restamped |
| Persistence.LoadAfterWrite | PetCareScheduler.java:172-188 | for a well-keyed store whose text fields are pipe-free, whose contacts and notes are non-empty, and whose date-times read back, loading the written file succeeds and gives back every pet under its key with the same fields and appointments in order, only the registration date becoming the day of the load |
| Persistence.PipeInNameShiftsColumns | PetCareScheduler.java:197 | a pipe in a pet's name, although escaped, splits the name in two and moves every later column one place right |
| Persistence.PipeInNameStopsLoad | PetCareScheduler.java:375 | with a pipe in the name the species is read as the age, and unless it reads as a number the whole load fails |
| Persistence.EmptyNotesAreLost | PetCareScheduler.java:382 | an appointment written with null or empty notes is not there after loading |
| Reports.Later | PetCareScheduler.java:242 | keeps exactly the appointments after `now` |
| Reports.Earlier | PetCareScheduler.java:254 | keeps exactly the appointments before `now` |
| Reports.AtNow | PetCareScheduler.java:241-256 | keeps exactly the appointments at the instant of `now` |
| Reports.Upcoming | PetCareScheduler.java:241-244 | the upcoming list holds exactly the appointments after `now`, each as often as in the pet's list, earliest first |
| Reports.Past | PetCareScheduler.java:253-256 | the past list holds exactly the appointments before `now`, each as often as in the pet's list, latest first |
| Reports.ThreeWaySplit | PetCareScheduler.java:241-256 | after, before and at `now` split the list, counting multiplicity |
| Reports.UpcomingAndPastPartition | PetCareScheduler.java:241-256 | upcoming and past share no appointment, and with those at exactly `now` they make up the whole list |
| Reports.ViewsAreStable | PetCareScheduler.java:243-255 | both views keep the list order of appointments at an equal date-time |
| Reports.Within | PetCareScheduler.java:298 | keeps exactly the appointments strictly between `now` and a week later |
| Reports.Rows | PetCareScheduler.java:302-305 | one printed line per appointment, in order, naming pet, owner, type and date-time |
| Reports.WeekOf | PetCareScheduler.java:297-300 | a pet's part holds exactly its appointments inside the window, earliest first |
| Reports.NextWeek | PetCareScheduler.java:295-311 | the report is empty, and the "none" message shows, exactly when no pet has an appointment inside the window |
| Reports.NextWeekByPet | PetCareScheduler.java:295-306 | the report is the pets' blocks one after another in visiting order, each block the pet's appointments inside the window, earliest first |
| Reports.NextWeekRows | PetCareScheduler.java:295-306 | a line is in the report iff some pet has an appointment inside the window that it describes |
| Reports.PetRows | PetCareScheduler.java:297-305 | one pet's lines describe exactly its appointments inside the window |
| Reports.AnyRecentVisit | PetCareScheduler.java:322-324 | true iff the pet has a "Vet Visit" (any case) after `sixMonthsAgo` |
| Reports.Overdue | PetCareScheduler.java:320-331 | lists exactly the pets with no vet visit after `sixMonthsAgo` |
| Reports.OverdueIsSubsequence | PetCareScheduler.java:320-331 | the overdue pets appear in visiting order |
| Reports.AddingKeepsSeen | PetCareScheduler.java:322-324 | adding an appointment never makes a pet overdue |
| Reports.ScheduledVisitClearsOverdue | PetCareScheduler.java:315-324 | once a vet visit is scheduled, the pet is not overdue, however far in the future the visit lies |
| Reports.AddToGroups | PetCareScheduler.java:343 | adding a pet appends it to its species' list, creating the key in order when missing; keys stay ascending and other lists are unchanged |
| Reports.BySpecies | PetCareScheduler.java:338-356 | the keys are ascending and are exactly the species present; each key's list is exactly the pets of that species in visiting order, and no list is empty |
| Reports.GroupsHoldTheirSpecies | PetCareScheduler.java:349-353 | every printed group lists exactly the pets of its species |
| Reports.LookupFindsGroup | PetCareScheduler.java:351 | looking a key up finds that key's own list |

## Left out

- Console input and output: the menu loop (PetCareScheduler.java:12-44), the report menu (266-286), and the prompts and printing of `displayRecords` (206-237). The operations take the already trimmed answers; the reports return the rows they would print.
- `String.trim` is not modelled. The inputs are taken as already trimmed.
- File handling: the existence check, readers, writers and I/O errors. The writer yields the lines, and the loader consumes lines that `readLine` has already split. Text containing a line break would split differently on reading; that is not modelled.
- Date-time text: `ZonedDateTime.parse` and formatting with `yyyy-MM-dd'T'HH:mm:ssZ` are the uninterpreted parameters `parseTime` and `fmt`. The round trip requires `parseTime(fmt(t)) == Some(t)` for the written date-times. Whether the ISO parser accepts the `+0530`-style offset the formatter writes is not modelled.
- The `dd/MM/yyyy` date in `toString` is the parameter `formatDate`.
- The clock: `now`, `today`, `weekLater` (`plusWeeks(1)`) and `sixMonthsAgo` (`minusMonths(6)`) are parameters. Calendar arithmetic is not modelled.
- `HashMap` iteration order is the parameter `order` for the writer and the order of the `pets` argument for the reports.
- Reports.UpcomingAndPastPartition: holds for a single clock reading `now`, as does Reports.ThreeWaySplit. The program calls `ZonedDateTime.now()` afresh inside each filter (PetCareScheduler.java:242, 254), so each comparison sees its own reading. An appointment falling after the upcoming filter's reading and before the past filter's later one appears in both lists; that is not modelled.
- Text.Fold: case folding covers ASCII letters only. Java's `equalsIgnoreCase` also folds other Unicode letters.
- Text.ParseInt: accepts ASCII digits only. Java's `Integer.parseInt` also accepts other Unicode decimal digits.
- Text.Less: compares characters by code. Java compares UTF-16 code units, which agrees only for characters of the Basic Multilingual Plane.
- Time zones are reduced to a fixed offset. A region-based zone would also compare its region in `compareTo` and `equals`.
- The record stores `String.valueOf(detail)` in a list of strings (Pet.java:13, 26), while every reader casts it to a list of appointments. The model keeps the readers' view. The `ClassCastException` the program would raise is not modelled. That exception would be reported as an invalid date-time when scheduling for a pet that already has appointments.
- An uncaught exception during loading ends the program. The model reports it as a `Failure` of the load.
