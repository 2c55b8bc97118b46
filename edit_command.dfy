/**
 * `EditCommand`: edits the person at a position of the filtered view. The fields to change are
 * collected in an `EditPersonDescriptor`; every field left unset keeps the original's value.
 */
module EditCommands {
  import opened Wrappers
  import opened Times
  import opened Persons
  import opened UniquePersons
  import opened EduDexModel
  import opened ModelFacade
  import opened ParserUtil

  /**
   * The contents of an `EditPersonDescriptor`: one optional value per field (`None` is a Java
   * `null`). `day`, `startTime` and `endTime` are the partial subject edits.
   */
  datatype Edits = Edits(
    name: Option<string>, phone: Option<string>, school: Option<string>, address: Option<string>,
    tags: Option<set<string>>, subject: Option<Subject>,
    day: Option<string>, startTime: Option<Time>, endTime: Option<Time>)

  /** A freshly constructed descriptor: nothing to edit. */
  const NoEdits: Edits := Edits(None, None, None, None, None, None, None, None, None)

  /** `isAnyFieldEdited`: one of the nine fields is set. */
  function IsAnyFieldEdited(e: Edits): (b: bool)
    ensures b <==> e != NoEdits
  {
    e.name.Some? || e.phone.Some? || e.school.Some? || e.address.Some? || e.tags.Some?
    || e.subject.Some? || e.day.Some? || e.startTime.Some? || e.endTime.Some?
  }

  /** The partial subject edits of `e` cleared. */
  function WithoutPartialSubject(e: Edits): Edits {
    e.(day := None, startTime := None, endTime := None)
  }

  /** Descriptor `equals`: compares every field except the partial subject edits. */
  predicate EditsEqual(a: Edits, b: Edits)
    ensures EditsEqual(a, b) <==> WithoutPartialSubject(a) == WithoutPartialSubject(b)
  {
    a.name == b.name && a.phone == b.phone && a.school == b.school && a.address == b.address
    && a.tags == b.tags && a.subject == b.subject
  }

  /**
   * Descriptor equality is an equivalence, and two descriptors differing only in day and times
   * are equal although they are different values.
   */
  lemma EditsEqualIgnoresPartialSubject(a: Edits, b: Edits, c: Edits)
    ensures EditsEqual(a, a)
    ensures EditsEqual(a, b) ==> EditsEqual(b, a)
    ensures EditsEqual(a, b) && EditsEqual(b, c) ==> EditsEqual(a, c)
    ensures a.day != b.day && WithoutPartialSubject(a) == WithoutPartialSubject(b) ==> a != b && EditsEqual(a, b)
  {
  }

  /**
   * `createEditedPerson`: each field is the descriptor's value when set, else the original's.
   * The subject is the descriptor's whole subject when set, else the original's; the partial
   * subject edits do not take part.
   */
  function CreateEditedPerson(p: Person, e: Edits): Person {
    Person(e.name.GetOr(p.name), e.phone.GetOr(p.phone), e.school.GetOr(p.school),
           e.address.GetOr(p.address), e.tags.GetOr(p.tags),
           if e.subject.Some? then e.subject else p.subject)
  }

  /** Editing nothing gives back the original person. */
  lemma NoEditsKeepsPerson(p: Person)
    ensures CreateEditedPerson(p, NoEdits) == p
  {
  }

  /** Applying the same edit twice is the same as applying it once. */
  lemma EditIsIdempotent(p: Person, e: Edits)
    ensures CreateEditedPerson(CreateEditedPerson(p, e), e) == CreateEditedPerson(p, e)
  {
  }

  /** Every set field overrides the original: the original is not consulted for it. */
  lemma SetFieldsOverride(p: Person, q: Person, e: Edits)
    ensures var a, b := CreateEditedPerson(p, e), CreateEditedPerson(q, e);
            && (e.name.Some? ==> a.name == b.name)
            && (e.phone.Some? ==> a.phone == b.phone)
            && (e.school.Some? ==> a.school == b.school)
            && (e.address.Some? ==> a.address == b.address)
            && (e.tags.Some? ==> a.tags == b.tags)
            && (e.subject.Some? ==> a.subject == b.subject)
    ensures (e.name.Some? && e.phone.Some? && e.school.Some? && e.address.Some? && e.tags.Some?
             && e.subject.Some?) ==> CreateEditedPerson(p, e) == CreateEditedPerson(q, e)
  {
  }

  /** Every set field takes the descriptor's value; a set subject is the descriptor's whole subject. */
  lemma SetFieldsTaken(p: Person, e: Edits)
    ensures var a := CreateEditedPerson(p, e);
            && (e.name.Some? ==> a.name == e.name.value)
            && (e.phone.Some? ==> a.phone == e.phone.value)
            && (e.school.Some? ==> a.school == e.school.value)
            && (e.address.Some? ==> a.address == e.address.value)
            && (e.tags.Some? ==> a.tags == e.tags.value)
            && (e.subject.Some? ==> a.subject == e.subject)
  {
  }

  /** Every unset field keeps the original's value. */
  lemma UnsetFieldsKept(p: Person, e: Edits)
    ensures var a := CreateEditedPerson(p, e);
            && (e.name.None? ==> a.name == p.name)
            && (e.phone.None? ==> a.phone == p.phone)
            && (e.school.None? ==> a.school == p.school)
            && (e.address.None? ==> a.address == p.address)
            && (e.tags.None? ==> a.tags == p.tags)
            && (e.subject.None? ==> a.subject == p.subject)
  {
  }

  /** Day, start time and end time on their own change nothing. */
  lemma PartialSubjectIgnored(p: Person, e: Edits)
    ensures CreateEditedPerson(p, e) == CreateEditedPerson(p, WithoutPartialSubject(e))
  {
  }

  /** The edited person keeps the original's identity exactly when the name is not changed. */
  lemma EditKeepsIdentity(p: Person, e: Edits)
    ensures IsSamePerson(p, Some(CreateEditedPerson(p, e))) <==> e.name.None? || e.name.value == p.name
  {
  }

  /** `EditPersonDescriptor`: the fields to edit, changed one at a time by its setters. */
  class EditPersonDescriptor {
    var name: Option<string>
    var phone: Option<string>
    var school: Option<string>
    var address: Option<string>
    var tags: Option<set<string>>
    var subject: Option<Subject>
    var day: Option<string>
    var startTime: Option<Time>
    var endTime: Option<Time>

    /** All nine fields as one value. */
    function Value(): Edits
      reads this
    {
      Edits(name, phone, school, address, tags, subject, day, startTime, endTime)
    }

    /** An empty descriptor. */
    constructor ()
      ensures Value() == NoEdits && !IsAnyFieldEdited(Value())
    {
      name, phone, school, address, tags, subject := None, None, None, None, None, None;
      day, startTime, endTime := None, None, None;
    }

    /** The copy constructor: a descriptor holding the same nine fields, equal to `toCopy`. */
    constructor Copy(toCopy: EditPersonDescriptor)
      ensures Value() == toCopy.Value() && Equals(toCopy)
    {
      new;
      SetName(toCopy.name);
      SetPhone(toCopy.phone);
      SetSchool(toCopy.school);
      SetAddress(toCopy.address);
      SetTags(toCopy.tags);
      SetSubject(toCopy.subject);
      SetDay(toCopy.day);
      SetStartTime(toCopy.startTime);
      SetEndTime(toCopy.endTime);
    }

    /** `isAnyFieldEdited` of this descriptor. */
    predicate IsEdited()
      reads this
    {
      IsAnyFieldEdited(Value())
    }

    method SetName(v: Option<string>)
      modifies this
      ensures Value() == old(Value()).(name := v)
    {
      name := v;
    }

    method SetPhone(v: Option<string>)
      modifies this
      ensures Value() == old(Value()).(phone := v)
    {
      phone := v;
    }

    method SetSchool(v: Option<string>)
      modifies this
      ensures Value() == old(Value()).(school := v)
    {
      school := v;
    }

    method SetAddress(v: Option<string>)
      modifies this
      ensures Value() == old(Value()).(address := v)
    {
      address := v;
    }

    /** `setTags`: stores the given set (a set value here, so the copy is implicit). */
    method SetTags(v: Option<set<string>>)
      modifies this
      ensures Value() == old(Value()).(tags := v)
    {
      tags := v;
    }

    method SetSubject(v: Option<Subject>)
      modifies this
      ensures Value() == old(Value()).(subject := v)
    {
      subject := v;
    }

    method SetDay(v: Option<string>)
      modifies this
      ensures Value() == old(Value()).(day := v)
    {
      day := v;
    }

    method SetStartTime(v: Option<Time>)
      modifies this
      ensures Value() == old(Value()).(startTime := v)
    {
      startTime := v;
    }

    method SetEndTime(v: Option<Time>)
      modifies this
      ensures Value() == old(Value()).(endTime := v)
    {
      endTime := v;
    }

    /** Descriptor `equals`: the same object, or equal in every field but the partial subject edits. */
    predicate Equals(other: EditPersonDescriptor)
      reads this, other
      ensures Equals(other) <==> other == this || WithoutPartialSubject(Value()) == WithoutPartialSubject(other.Value())
    {
      other == this || EditsEqual(Value(), other.Value())
    }
  }

  const MessageNotEdited: string := "At least one field to edit must be provided."
  const MessageDuplicatePerson: string := "This person already exists in EduDex."

  /** The failures of `execute`; the invalid-index text lives in `Messages`, outside this model. */
  datatype CommandError =
    | InvalidPersonDisplayedIndex   // MESSAGE_INVALID_PERSON_DISPLAYED_INDEX
    | DuplicatePerson(message: string)

  /**
   * The outcome of editing position `i` of the view `shown` of the stored list `persons`: the
   * position must be shown, and the edited person must keep the target's identity or take one
   * that is not stored yet.
   */
  function EditOutcome(shown: seq<Person>, persons: seq<Person>, i: nat, e: Edits): (r: Result<Person, CommandError>)
    ensures r.Success? ==> i < |shown| && r.value == CreateEditedPerson(shown[i], e)
    ensures r.Success? <==> i < |shown| && (IsSamePerson(shown[i], Some(CreateEditedPerson(shown[i], e)))
                                            || !Contains(persons, CreateEditedPerson(shown[i], e)))
    ensures r == Failure(InvalidPersonDisplayedIndex) <==> i >= |shown|
    ensures r.Failure? ==> r.error == InvalidPersonDisplayedIndex || r.error == DuplicatePerson(MessageDuplicatePerson)
  {
    if i >= |shown| then Failure(InvalidPersonDisplayedIndex)
    else
      var edited := CreateEditedPerson(shown[i], e);
      if !IsSamePerson(shown[i], Some(edited)) && Contains(persons, edited) then
        Failure(DuplicatePerson(MessageDuplicatePerson))
      else Success(edited)
  }

  /** `persons` with its first entry equal to `target` replaced by `x`. */
  function ReplaceFirst(persons: seq<Person>, target: Person, x: Person): seq<Person> {
    var k := IndexOf(persons, target);
    if k >= 0 then persons[k := x] else persons
  }

  /** A person shown in the filtered view is found in the stored list. */
  lemma TargetIsStored(persons: seq<Person>, q: Person -> bool, i: nat)
    requires i < |Filter(persons, q)|
    ensures IndexOf(persons, Filter(persons, q)[i]) >= 0
  {
    var t := Filter(persons, q)[i];
    assert t in persons;
    var k :| 0 <= k < |persons| && persons[k] == t;
    IndexOfFinds(persons, k);
  }

  /** An edit command: a position in the filtered view and its own copy of the descriptor. */
  class EditCommand {
    const index: Index
    const descriptor: EditPersonDescriptor

    /** Keeps `index` and a defensive copy of `d`. */
    constructor (index: Index, d: EditPersonDescriptor)
      ensures this.index == index && fresh(descriptor) && descriptor.Value() == d.Value()
    {
      this.index := index;
      descriptor := new EditPersonDescriptor.Copy(d);
    }

    /**
     * `execute`: the outcome is `EditOutcome` of the view and the list before the call. A
     * failure changes nothing; a success puts the edited person in the target's slot and makes
     * the view show everyone.
     */
    method Execute(model: Model) returns (r: Result<Person, CommandError>)
      requires model.Valid()
      modifies model, model.eduDex
      ensures model.Valid()
      ensures r == EditOutcome(old(model.FilteredPersonList()), old(model.eduDex.persons),
                               index.zeroBased, descriptor.Value())
      ensures r.Failure? ==> unchanged(model, model.eduDex)
      ensures r.Success? ==> model.filter == ShowAllPersons
      ensures r.Success? ==>
                model.eduDex.persons
                == ReplaceFirst(old(model.eduDex.persons), old(model.FilteredPersonList())[index.zeroBased], r.value)
    {
      var shown := model.FilteredPersonList();
      r := EditOutcome(shown, model.eduDex.persons, index.zeroBased, descriptor.Value());
      if r.Failure? {
        return;
      }
      var target := shown[index.zeroBased];
      ghost var before := model.eduDex.persons;
      TargetIsStored(before, model.filter, index.zeroBased);
      model.SetPerson(target, r.value);
      assert model.eduDex.persons == ReplaceFirst(before, target, r.value);
      model.UpdateFilteredPersonList(ShowAllPersons);
    }

    /** `EditCommand.equals`: the same index and equal descriptors. */
    predicate Equals(other: EditCommand)
      reads this, other, descriptor, other.descriptor
      ensures other == this ==> Equals(other)
      ensures Equals(other) && other != this ==>
                index == other.index
                && WithoutPartialSubject(descriptor.Value()) == WithoutPartialSubject(other.descriptor.Value())
      ensures other != this && index == other.index
              && WithoutPartialSubject(descriptor.Value()) == WithoutPartialSubject(other.descriptor.Value())
              ==> Equals(other)
    {
      other == this || (index == other.index && descriptor.Equals(other.descriptor))
    }
  }
}
