/**
 * `JsonAdaptedPerson`: the storage form of a person, every field a nullable string and the tags
 * a list of names, and its conversion back to a `Person`.
 */
module JsonStorage {
  import opened Wrappers
  import opened Times
  import opened FieldRules
  import opened Persons

  /** Why a stored person cannot be read back. */
  datatype StorageError =
    | MissingField(fieldName: string)   // MISSING_FIELD_MESSAGE_FORMAT
    | Invalid(field: Field)             // the field type's MESSAGE_CONSTRAINTS

  /** The text of a `MissingField` error. */
  function MissingFieldMessage(fieldName: string): string {
    "Person's " + fieldName + " field is missing!"
  }

  /** The tags a stored list denotes: repeated names collapse into one. */
  function StoredTags(tags: seq<string>): (r: set<string>)
    ensures forall t :: t in r <==> t in tags
  {
    set t | t in tags
  }

  /** A stored list never denotes more tags than it has entries; repeating an entry adds none. */
  lemma {:induction false} StoredTagsCollapse(tags: seq<string>, t: string)
    ensures |StoredTags(tags)| <= |tags|
    ensures StoredTags(tags + [t, t]) == StoredTags(tags + [t])
  {
    if tags != [] {
      var rest := StoredTags(tags[1..]);
      StoredTagsCollapse(tags[1..], t);
      assert StoredTags(tags) == rest + {tags[0]};
      if tags[0] !in rest {
        assert |rest + {tags[0]}| == |rest| + 1;
      } else {
        assert rest + {tags[0]} == rest;
      }
    } else {
      assert StoredTags(tags) == {};
    }
  }

  /**
   * The error `toModelType` reports for the stored fields, stated on the fields: the tags first,
   * then for each field in turn its absence, then its validity.
   */
  function StoredError(rules: FieldRules, name: Option<string>, phone: Option<string>, school: Option<string>,
                       address: Option<string>, tags: seq<string>, day: Option<string>,
                       startTime: Option<string>, endTime: Option<string>): Option<StorageError>
  {
    if exists i :: 0 <= i < |tags| && !rules.isValidTagName(tags[i]) then Some(Invalid(TagField))
    else if name.None? then Some(MissingField("Name"))
    else if !rules.isValidName(name.value) then Some(Invalid(NameField))
    else if phone.None? then Some(MissingField("Phone"))
    else if !rules.isValidPhone(phone.value) then Some(Invalid(PhoneField))
    else if school.None? then Some(MissingField("School"))
    else if !rules.isValidSchool(school.value) then Some(Invalid(SchoolField))
    else if address.None? then Some(MissingField("Address"))
    else if !rules.isValidAddress(address.value) then Some(Invalid(AddressField))
    else if day.None? then Some(MissingField("Day"))
    else if !rules.isValidDay(day.value) then Some(Invalid(DayField))
    else if startTime.None? then Some(MissingField("Start Time"))
    else if !IsValidTime(startTime.value) then Some(Invalid(TimeField))
    else if endTime.None? then Some(MissingField("End Time"))
    else if !IsValidTime(endTime.value) then Some(Invalid(TimeField))
    else None
  }

  /** The entries of `s`, each once, in some order (the iteration order of a `HashSet`). */
  method ElementsOf(s: set<string>) returns (xs: seq<string>)
    ensures StoredTags(xs) == s && |xs| == |s|
  {
    xs := [];
    var rest := s;
    while rest != {}
      invariant StoredTags(xs) + rest == s && StoredTags(xs) !! rest
      invariant |xs| + |rest| == |s|
      decreases |rest|
    {
      var x :| x in rest;
      xs := xs + [x];
      rest := rest - {x};
    }
  }

  class JsonAdaptedPerson {
    const name: Option<string>
    const phone: Option<string>
    const school: Option<string>
    const address: Option<string>
    /** The stored tag names, in list order. */
    var tags: seq<string>
    const day: Option<string>
    const startTime: Option<string>
    const endTime: Option<string>

    /** The reading constructor: each field as stored; a missing tag list is an empty one. */
    constructor (name: Option<string>, phone: Option<string>, school: Option<string>, address: Option<string>,
                 tags: Option<seq<string>>, day: Option<string>, startTime: Option<string>,
                 endTime: Option<string>)
      ensures this.name == name && this.phone == phone && this.school == school && this.address == address
      ensures this.tags == (if tags.Some? then tags.value else [])
      ensures this.day == day && this.startTime == startTime && this.endTime == endTime
    {
      this.name, this.phone, this.school, this.address := name, phone, school, address;
      this.tags := [];
      this.day, this.startTime, this.endTime := day, startTime, endTime;
      new;
      if tags.Some? {
        this.tags := this.tags + tags.value;
      }
    }

    /**
     * The writing constructor: the person's fields as text, its tags once each, its subject's
     * day and times. The source dereferences the subject, so it must be present.
     */
    constructor FromPerson(source: Person)
      requires source.subject.Some?
      ensures name == Some(source.name) && phone == Some(source.phone)
      ensures school == Some(source.school) && address == Some(source.address)
      ensures StoredTags(tags) == source.tags && |tags| == |source.tags|
      ensures day == Some(source.subject.value.day)
      ensures startTime == Some(TimeText(source.subject.value.startTime))
      ensures endTime == Some(TimeText(source.subject.value.endTime))
    {
      name, phone := Some(source.name), Some(source.phone);
      school, address := Some(source.school), Some(source.address);
      var names := ElementsOf(source.tags);
      tags := names;
      day := Some(source.subject.value.day);
      startTime := Some(TimeText(source.subject.value.startTime));
      endTime := Some(TimeText(source.subject.value.endTime));
    }

    /**
     * `toModelType`: each stored tag is converted in turn, then each field is checked for
     * presence and validity in order; the first failure is reported. The person holds the
     * stored values, the set of the tag names and the subject of day and times.
     */
    method ToModelType(rules: FieldRules) returns (r: Result<Person, StorageError>)
      ensures r.Failure? <==> StoredError(rules, name, phone, school, address, tags, day, startTime, endTime).Some?
      ensures r.Failure? ==> Some(r.error) == StoredError(rules, name, phone, school, address, tags, day, startTime, endTime)
      ensures r.Success? ==>
                && r.value.name == name.value && r.value.phone == phone.value
                && r.value.school == school.value && r.value.address == address.value
                && r.value.tags == StoredTags(tags)
                && r.value.subject.Some? && r.value.subject.value.day == day.value
                && TimeText(r.value.subject.value.startTime) == startTime.value
                && TimeText(r.value.subject.value.endTime) == endTime.value
    {
      var personTags: seq<string> := [];
      var i := 0;
      while i < |tags|
        invariant 0 <= i <= |tags|
        invariant personTags == tags[..i]
        invariant forall j :: 0 <= j < i ==> rules.isValidTagName(tags[j])
      {
        if !rules.isValidTagName(tags[i]) {
          return Failure(Invalid(TagField));
        }
        personTags := personTags + [tags[i]];
        i := i + 1;
      }
      assert personTags == tags;
      if name.None? {
        return Failure(MissingField("Name"));
      }
      if !rules.isValidName(name.value) {
        return Failure(Invalid(NameField));
      }
      if phone.None? {
        return Failure(MissingField("Phone"));
      }
      if !rules.isValidPhone(phone.value) {
        return Failure(Invalid(PhoneField));
      }
      if school.None? {
        return Failure(MissingField("School"));
      }
      if !rules.isValidSchool(school.value) {
        return Failure(Invalid(SchoolField));
      }
      if address.None? {
        return Failure(MissingField("Address"));
      }
      if !rules.isValidAddress(address.value) {
        return Failure(Invalid(AddressField));
      }
      var modelTags := StoredTags(personTags);
      if day.None? {
        return Failure(MissingField("Day"));
      }
      if !rules.isValidDay(day.value) {
        return Failure(Invalid(DayField));
      }
      if startTime.None? {
        return Failure(MissingField("Start Time"));
      }
      if !IsValidTime(startTime.value) {
        return Failure(Invalid(TimeField));
      }
      var modelStart := ReadTime(startTime.value).value;
      TimeTextRead(startTime.value);
      if endTime.None? {
        return Failure(MissingField("End Time"));
      }
      if !IsValidTime(endTime.value) {
        return Failure(Invalid(TimeField));
      }
      var modelEnd := ReadTime(endTime.value).value;
      TimeTextRead(endTime.value);
      r := Success(Person(name.value, phone.value, school.value, address.value, modelTags,
                          Some(Subject(day.value, modelStart, modelEnd))));
    }
  }

  /** A person whose fields all satisfy the format rules and who has a subject. */
  predicate IsStorable(rules: FieldRules, p: Person) {
    && rules.isValidName(p.name) && rules.isValidPhone(p.phone) && rules.isValidSchool(p.school)
    && rules.isValidAddress(p.address) && (forall t :: t in p.tags ==> rules.isValidTagName(t))
    && p.subject.Some? && rules.isValidDay(p.subject.value.day)
  }

  /** Saving a storable person and reading the record back gives the same person. */
  method SaveAndLoad(rules: FieldRules, p: Person) returns (r: Result<Person, StorageError>)
    requires IsStorable(rules, p)
    ensures r == Success(p)
  {
    var stored := new JsonAdaptedPerson.FromPerson(p);
    ReadTimeText(p.subject.value.startTime);
    ReadTimeText(p.subject.value.endTime);
    assert forall i :: 0 <= i < |stored.tags| ==> stored.tags[i] in p.tags;
    r := stored.ToModelType(rules);
    TimeTextInjective(r.value.subject.value.startTime, p.subject.value.startTime);
    TimeTextInjective(r.value.subject.value.endTime, p.subject.value.endTime);
  }
}
