/**
 * The pet record: an identifier fixed at construction, five editable
 * details, the registration date stamped by the constructor and the
 * appointment list, which only ever grows at the end.
 *
 * In the Java record the list is declared as a list of strings and
 * `addAppointment` stores `String.valueOf(detail)`, while every reader casts
 * it back to a list of appointments. The model keeps the readers' view: a
 * sequence of structured appointments.
 */
module Pets {
  import opened Text
  import opened Appointments

  /** A calendar day (`LocalDate`), counted in days since the epoch. */
  type Date = int

  datatype Pet = Pet(
    id: string,
    name: string,
    species: string,
    age: Int32,
    owner: string,
    contact: string,
    registrationDate: Date,
    appointments: seq<Appointment>)

  /** The constructor; `today` stands for `LocalDate.now()`. */
  function NewPet(id: string, name: string, species: string, age: Int32, owner: string, contact: string, today: Date): (p: Pet)
    ensures p.id == id && p.name == name && p.species == species && p.age == age
    ensures p.owner == owner && p.contact == contact
    ensures p.registrationDate == today
    ensures p.appointments == []
  {
    Pet(id, name, species, age, owner, contact, today, [])
  }

  /** Appends one appointment; everything already recorded stays as it was. */
  function AddAppointment(p: Pet, a: Appointment): (r: Pet)
    ensures |r.appointments| == |p.appointments| + 1
    ensures r.appointments[..|p.appointments|] == p.appointments
    ensures r.appointments[|p.appointments|] == a
    ensures r.id == p.id && r.name == p.name && r.species == p.species && r.age == p.age
    ensures r.owner == p.owner && r.contact == p.contact && r.registrationDate == p.registrationDate
  {
    p.(appointments := p.appointments + [a])
  }

  /** The mutations the Java record offers: its five setters and `addAppointment`. */
  datatype Edit =
    | SetName(name: string)
    | SetSpecies(species: string)
    | SetAge(age: Int32)
    | SetOwner(owner: string)
    | SetContact(contact: string)
    | Add(appointment: Appointment)

  /** Applies one mutation; each setter changes its own field and nothing else. */
  function ApplyEdit(p: Pet, e: Edit): (r: Pet)
    ensures e.SetName? ==> r == p.(name := e.name)
    ensures e.SetSpecies? ==> r == p.(species := e.species)
    ensures e.SetAge? ==> r == p.(age := e.age)
    ensures e.SetOwner? ==> r == p.(owner := e.owner)
    ensures e.SetContact? ==> r == p.(contact := e.contact)
    ensures e.Add? ==> r.appointments == p.appointments + [e.appointment]
  {
    match e
    case SetName(n) => p.(name := n)
    case SetSpecies(s) => p.(species := s)
    case SetAge(a) => p.(age := a)
    case SetOwner(o) => p.(owner := o)
    case SetContact(c) => p.(contact := c)
    case Add(a) => AddAppointment(p, a)
  }

  function ApplyEdits(p: Pet, edits: seq<Edit>): Pet
    decreases |edits|
  {
    if edits == [] then p else ApplyEdits(ApplyEdit(p, edits[0]), edits[1..])
  }

  /** How many of the mutations add an appointment. */
  function CountAdds(edits: seq<Edit>): nat
    decreases |edits|
  {
    if edits == [] then 0 else (if edits[0].Add? then 1 else 0) + CountAdds(edits[1..])
  }

  /**
   * Whatever mutations are applied, the identifier and the registration date
   * never change, and the appointments recorded so far stay a prefix of the
   * list, which grows by one per added appointment.
   */
  lemma {:induction false} EditsKeepIdentity(p: Pet, edits: seq<Edit>)
    ensures ApplyEdits(p, edits).id == p.id
    ensures ApplyEdits(p, edits).registrationDate == p.registrationDate
    ensures |ApplyEdits(p, edits).appointments| == |p.appointments| + CountAdds(edits)
    ensures ApplyEdits(p, edits).appointments[..|p.appointments|] == p.appointments
    decreases |edits|
  {
    if edits != [] {
      var q := ApplyEdit(p, edits[0]);
      EditsKeepIdentity(q, edits[1..]);
      assert q.appointments[..|p.appointments|] == p.appointments;
      var r := ApplyEdits(q, edits[1..]);
      assert r.appointments[..|p.appointments|] == r.appointments[..|q.appointments|][..|p.appointments|];
    }
  }
}
