/**
 * The Model façade: the stored EduDex plus the predicate that decides which persons the
 * filtered view shows.
 */
module ModelFacade {
  import opened Wrappers
  import opened Persons
  import opened UniquePersons
  import opened EduDexModel

  /** `PREDICATE_SHOW_ALL_PERSONS`. */
  const ShowAllPersons: Person -> bool := (unused: Person) => true

  /** The show-all predicate accepts every person, so filtering by it shows the whole list. */
  lemma ShowAllShowsEveryone(ps: seq<Person>)
    ensures forall p :: ShowAllPersons(p)
    ensures Filter(ps, ShowAllPersons) == ps
  {
    FilterAll(ps, ShowAllPersons);
  }

  class Model {
    const eduDex: EduDex
    /** The predicate of the filtered person list. */
    var filter: Person -> bool

    ghost predicate Valid()
      reads this, eduDex
    {
      eduDex.Valid()
    }

    /** A model over a copy of `data`, showing everyone. */
    constructor (data: EduDex)
      requires data.Valid()
      ensures Valid() && fresh(eduDex)
      ensures eduDex.persons == data.persons && filter == ShowAllPersons
    {
      eduDex := new EduDex.Copy(data);
      filter := ShowAllPersons;
    }

    /** Replaces the stored data with the persons of `data`. */
    method SetEduDex(data: EduDex)
      requires Valid() && data.Valid()
      modifies eduDex
      ensures Valid() && eduDex.persons == old(data.persons)
    {
      eduDex.ResetData(data);
    }

    /** Identity membership in the stored list. */
    function HasPerson(p: Person): (b: bool)
      reads this, eduDex
      ensures b <==> exists i :: 0 <= i < |eduDex.persons| && eduDex.persons[i].name == p.name
    {
      eduDex.HasPerson(p)
    }

    /** Deletes `target`, which must be present. */
    method DeletePerson(target: Person)
      requires Valid() && IndexOf(eduDex.persons, target) >= 0
      modifies eduDex
      ensures Valid() && !HasPerson(target)
      ensures eduDex.persons == RemoveAt(old(eduDex.persons), IndexOf(old(eduDex.persons), target))
    {
      eduDex.RemovePerson(target);
    }

    /** Adds `p`, whose identity must not be present yet. */
    method AddPerson(p: Person)
      requires Valid() && !HasPerson(p)
      modifies eduDex
      ensures Valid() && HasPerson(p)
      ensures eduDex.persons == old(eduDex.persons) + [p]
    {
      eduDex.AddPerson(p);
    }

    /**
     * Replaces `target` with `editedPerson`; the target must be present, and the edited person
     * must not take the identity of another entry.
     */
    method SetPerson(target: Person, editedPerson: Person)
      requires Valid() && IndexOf(eduDex.persons, target) >= 0
      requires IsSamePerson(target, Some(editedPerson)) || !HasPerson(editedPerson)
      modifies eduDex
      ensures Valid() && HasPerson(editedPerson)
      ensures eduDex.persons == old(eduDex.persons)[IndexOf(old(eduDex.persons), target) := editedPerson]
    {
      eduDex.SetPerson(target, editedPerson);
    }

    /** The filtered view: the stored persons that satisfy the current predicate, in order. */
    function FilteredPersonList(): (r: seq<Person>)
      reads this, eduDex
      ensures forall x :: x in r ==> x in eduDex.persons && filter(x)
      ensures forall i :: 0 <= i < |eduDex.persons| && filter(eduDex.persons[i]) ==> eduDex.persons[i] in r
    {
      Filter(eduDex.persons, filter)
    }

    /** Installs `q` as the predicate of the filtered view; the stored list is untouched. */
    method UpdateFilteredPersonList(q: Person -> bool)
      modifies this
      ensures filter == q && FilteredPersonList() == Filter(eduDex.persons, q)
      ensures (forall p :: q(p)) ==> FilteredPersonList() == eduDex.persons
      ensures unchanged(eduDex)
    {
      filter := q;
      if forall p :: q(p) {
        FilterAll(eduDex.persons, q);
      }
    }
  }
}
