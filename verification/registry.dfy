/**
 * The record store (`petMap`) and pet registration (`registerNewPet`).
 * The console reads are lifted out: the caller hands over the already
 * trimmed answers to the six prompts, the age still as text.
 */
module Registry {
  import opened Wrappers
  import opened Text
  import opened Pets

  /** `petMap`: pet identifier to pet record. */
  type Store = map<string, Pet>

  /** Every record sits under its own identifier. */
  predicate WellKeyed(store: Store)
  {
    forall k :: k in store ==> store[k].id == k
  }

  /** The checks of `registerNewPet`, each with the message it prints. */
  datatype RegisterError =
    | EmptyId        // "Pet ID cannot be empty."
    | DuplicateId    // "Pet ID already exists."
    | EmptyName      // "Name cannot be empty."
    | EmptySpecies   // "Species cannot be empty."
    | NegativeAge    // "Age must be a positive number."
    | InvalidAge     // "Age must be a valid number."
    | EmptyOwner     // "Owner name cannot be empty."
    | EmptyContact   // "Contact information cannot be empty."

  /**
   * Registration: the checks run in a fixed order and the first one that
   * fails decides the error, with the store left as it was; only when every
   * check passes is one new record put under `id`. An age of zero is
   * accepted.
   */
  function Register(store: Store, id: string, name: string, species: string, ageText: string,
                    owner: string, contact: string, today: Date): (r: Result<Store, RegisterError>)
    ensures r == Failure(EmptyId) <==> id == []
    ensures r == Failure(DuplicateId) <==> id != [] && id in store
    ensures r == Failure(EmptyName) <==> id != [] && id !in store && name == []
    ensures r == Failure(EmptySpecies) <==> id != [] && id !in store && name != [] && species == []
    ensures r == Failure(InvalidAge) <==>
      id != [] && id !in store && name != [] && species != [] && ParseInt(ageText).None?
    ensures r == Failure(NegativeAge) <==>
      id != [] && id !in store && name != [] && species != [] && ParseInt(ageText).Some?
      && ParseInt(ageText).value < 0
    ensures r == Failure(EmptyOwner) <==>
      id != [] && id !in store && name != [] && species != [] && ParseInt(ageText).Some?
      && ParseInt(ageText).value >= 0 && owner == []
    ensures r == Failure(EmptyContact) <==>
      id != [] && id !in store && name != [] && species != [] && ParseInt(ageText).Some?
      && ParseInt(ageText).value >= 0 && owner != [] && contact == []
    ensures r.Success? ==>
      && r.value.Keys == store.Keys + {id}
      && id !in store
      && (forall k :: k in store ==> r.value[k] == store[k])
      && r.value[id].id == id && r.value[id].name == name && r.value[id].species == species
      && Some(r.value[id].age) == ParseInt(ageText) && r.value[id].age >= 0
      && r.value[id].owner == owner && r.value[id].contact == contact
      && r.value[id].registrationDate == today && r.value[id].appointments == []
  {
    if id == [] then Failure(EmptyId)
    else if id in store then Failure(DuplicateId)
    else if name == [] then Failure(EmptyName)
    else if species == [] then Failure(EmptySpecies)
    else match ParseInt(ageText)
      case None => Failure(InvalidAge)
      case Some(age) =>
        if age < 0 then Failure(NegativeAge)
        else if owner == [] then Failure(EmptyOwner)
        else if contact == [] then Failure(EmptyContact)
        else Success(store[id := NewPet(id, name, species, age, owner, contact, today)])
  }

  /**
   * A successful registration keeps every record under its own identifier,
   * and a second registration under the same identifier is refused.
   */
  lemma RegisterKeepsKeys(store: Store, id: string, name: string, species: string, ageText: string,
                          owner: string, contact: string, today: Date)
    requires WellKeyed(store)
    ensures var r := Register(store, id, name, species, ageText, owner, contact, today);
      r.Success? ==> WellKeyed(r.value)
    ensures var r := Register(store, id, name, species, ageText, owner, contact, today);
      r.Success? ==> forall n, s, t, o, c, d :: Register(r.value, id, n, s, t, o, c, d) == Failure(DuplicateId)
  {
  }
}
