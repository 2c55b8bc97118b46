/**
 * EduDex: the address book itself, a mutable list of persons in which no two entries have the
 * same identity (`isSamePerson`).
 */
module EduDexModel {
  import opened Wrappers
  import opened Persons
  import opened UniquePersons

  class EduDex {
    /** The contents of the underlying `UniquePersonList`, in list order. */
    var persons: seq<Person>

    /** The list never holds two persons with the same identity. */
    ghost predicate Valid()
      reads this
    {
      Unique(persons)
    }

    /** An empty EduDex. */
    constructor ()
      ensures Valid() && persons == []
    {
      persons := [];
    }

    /** An EduDex holding the persons of `toBeCopied`, in the same order. */
    constructor Copy(toBeCopied: EduDex)
      requires toBeCopied.Valid()
      ensures Valid() && persons == toBeCopied.persons
    {
      persons := [];
      new;
      ResetData(toBeCopied);
    }

    /** Replaces the whole list; the new list must be free of duplicates. */
    method SetPersons(ps: seq<Person>)
      requires Unique(ps)
      modifies this
      ensures Valid() && persons == ps
    {
      persons := ps;
    }

    /** Replaces the list with the persons of `newData`. */
    method ResetData(newData: EduDex)
      requires newData.Valid()
      modifies this
      ensures Valid() && persons == old(newData.persons)
    {
      SetPersons(newData.persons);
    }

    /** Some stored person has the same identity as `p`. */
    function HasPerson(p: Person): (b: bool)
      reads this
      ensures b <==> exists i :: 0 <= i < |persons| && persons[i].name == p.name
    {
      Contains(persons, p)
    }

    /** Appends `p`, whose identity must not be present yet. */
    method AddPerson(p: Person)
      requires Valid() && !HasPerson(p)
      modifies this
      ensures Valid() && HasPerson(p)
      ensures persons == old(persons) + [p]
    {
      AddKeepsUnique(persons, p);
      persons := persons + [p];
    }

    /**
     * Overwrites the slot of `target` (found by `equals`) with `editedPerson`. The target must be
     * present, and the edited person must keep the target's identity or have one not yet present.
     */
    method SetPerson(target: Person, editedPerson: Person)
      requires Valid() && IndexOf(persons, target) >= 0
      requires IsSamePerson(target, Some(editedPerson)) || !HasPerson(editedPerson)
      modifies this
      ensures Valid() && HasPerson(editedPerson)
      ensures persons == old(persons)[IndexOf(old(persons), target) := editedPerson]
    {
      var k := IndexOf(persons, target);
      ReplaceKeepsUnique(persons, k, editedPerson);
      persons := persons[k := editedPerson];
      assert persons[k] == editedPerson;
    }

    /** Removes the first entry equal to `key`, which must be present. */
    method RemovePerson(key: Person)
      requires Valid() && IndexOf(persons, key) >= 0
      modifies this
      ensures Valid() && !HasPerson(key)
      ensures persons == RemoveAt(old(persons), IndexOf(old(persons), key))
    {
      var k := IndexOf(persons, key);
      RemoveKeepsUnique(persons, k);
      persons := RemoveAt(persons, k);
    }

    /** `EduDex.equals`: the two person lists are equal under `List.equals`. */
    predicate Equals(other: EduDex)
      reads this, other
    {
      other == this || ListEquals(persons, other.persons)
    }

    /**
     * Equality of two EduDex objects is an equivalence, and the identity short-circuit adds
     * nothing: it holds exactly when the person lists are equal.
     */
    lemma EqualsIsEquivalence(b: EduDex, c: EduDex)
      ensures Equals(this)
      ensures Equals(b) ==> b.Equals(this)
      ensures Equals(b) && b.Equals(c) ==> Equals(c)
      ensures Equals(b) <==> ListEquals(persons, b.persons)
    {
      ListEqualsIsEquivalence(persons, b.persons, c.persons);
      ListEqualsIsEquivalence(b.persons, persons, c.persons);
    }
  }
}
