/**
 * `EditCommandParser`: reads the index and the optional fields of an edit command into an
 * `EditPersonDescriptor`, one setter call per prefix given.
 */
module EditCommandParser {
  import opened Wrappers
  import opened Text
  import opened Times
  import opened FieldRules
  import opened CliSyntax
  import opened Persons
  import opened ParserUtil
  import opened Arguments
  import opened EditCommands

  /** The prefixes an edit command may give at most once. */
  const SingleValuedPrefixes: set<Prefix> := {NamePrefix, PhonePrefix, SchoolPrefix, AddressPrefix}

  /**
   * `parseTagsForEdit`: no t/ leaves the tags alone; a single empty t/ clears them; otherwise
   * every tag must parse and the tags become the set of trimmed values.
   */
  function ParseTagsForEdit(rules: FieldRules, tags: seq<string>): (r: Result<Option<set<string>>, ParseError>)
    ensures tags == [] ==> r == Success(None)
    ensures tags == [""] ==> r == Success(Some({}))
    ensures tags != [] && tags != [""] ==>
              && (r.Success? <==> forall i :: 0 <= i < |tags| ==> rules.isValidTagName(Trim(tags[i])))
              && (r.Success? ==> r.value == Some(TrimmedSet(tags)))
              && (r.Failure? ==> r.error == Constraints(TagField))
  {
    if tags == [] then Success(None)
    else
      var tagSet := if |tags| == 1 && tags[0] == "" then [] else tags;
      var parsed :- ParseTags(rules, tagSet);
      Success(Some(parsed))
  }

  /** Some prefix that sets a descriptor field was given. */
  predicate AnyFieldGiven(m: ArgumentMultimap) {
    || GetValue(m, NamePrefix).Some? || GetValue(m, PhonePrefix).Some? || GetValue(m, SchoolPrefix).Some?
    || GetValue(m, AddressPrefix).Some? || GetValue(m, DayPrefix).Some? || GetValue(m, StartPrefix).Some?
    || GetValue(m, EndPrefix).Some? || GetAllValues(m, TagPrefix) != []
  }

  /** A field given by prefix `p` holds a value the parser `ok` rejects. */
  predicate Rejects(m: ArgumentMultimap, p: Prefix, ok: string -> bool) {
    GetValue(m, p).Some? && !ok(Trim(ValueOf(m, p)))
  }

  /** The first of n/, p/, s/, a/ whose value does not parse. */
  function PersonFieldError(rules: FieldRules, m: ArgumentMultimap): Option<ParseError> {
    if Rejects(m, NamePrefix, rules.isValidName) then Some(Constraints(NameField))
    else if Rejects(m, PhonePrefix, rules.isValidPhone) then Some(Constraints(PhoneField))
    else if Rejects(m, SchoolPrefix, rules.isValidSchool) then Some(Constraints(SchoolField))
    else if Rejects(m, AddressPrefix, rules.isValidAddress) then Some(Constraints(AddressField))
    else None
  }

  /** The first of d/, st/, et/ whose value does not parse. */
  function SubjectFieldError(rules: FieldRules, m: ArgumentMultimap): Option<ParseError> {
    if Rejects(m, DayPrefix, rules.isValidDay) then Some(Constraints(DayField))
    else if Rejects(m, StartPrefix, IsValidTime) || Rejects(m, EndPrefix, IsValidTime) then
      Some(Constraints(TimeField))
    else None
  }

  /** The error of the field steps of `parse`: the fields in order, then whether any is set. */
  function FieldsError(rules: FieldRules, m: ArgumentMultimap): Option<ParseError> {
    if PersonFieldError(rules, m).Some? then PersonFieldError(rules, m)
    else if SubjectFieldError(rules, m).Some? then SubjectFieldError(rules, m)
    else if ParseTagsForEdit(rules, GetAllValues(m, TagPrefix)).Failure? then Some(Constraints(TagField))
    else if !AnyFieldGiven(m) then Some(Message(MessageNotEdited))
    else None
  }

  /** The error `parse` reports, stated on the input: the first condition, in its order, that fails. */
  function EditError(rules: FieldRules, m: ArgumentMultimap): Option<ParseError> {
    if ParseIndex(m.preamble).Failure? then Some(InvalidCommandFormat(EditUsage))
    else if DuplicatedPrefixes(m, SingleValuedPrefixes) != {} then
      Some(DuplicatePrefixes(DuplicatedPrefixes(m, SingleValuedPrefixes)))
    else FieldsError(rules, m)
  }

  /** The trimmed value of prefix `p`, when given. */
  function GivenText(m: ArgumentMultimap, p: Prefix): Option<string> {
    if GetValue(m, p).Some? then Some(Trim(ValueOf(m, p))) else None
  }

  /** The time written after prefix `p`, when given and valid. */
  function GivenTime(m: ArgumentMultimap, p: Prefix): Option<Time> {
    if GetValue(m, p).Some? then ReadTime(Trim(ValueOf(m, p))) else None
  }

  /**
   * The descriptor `e` is what the arguments ask for: each given prefix sets its field to the
   * parsed value and nothing else is set; the whole subject is set only when d/, st/ and et/
   * are all given.
   */
  predicate DescribesEdits(rules: FieldRules, m: ArgumentMultimap, e: Edits) {
    && e.name == GivenText(m, NamePrefix)
    && e.phone == GivenText(m, PhonePrefix)
    && e.school == GivenText(m, SchoolPrefix)
    && e.address == GivenText(m, AddressPrefix)
    && e.day == GivenText(m, DayPrefix)
    && (e.startTime.Some? <==> GetValue(m, StartPrefix).Some?)
    && (e.startTime.Some? ==> TimeText(e.startTime.value) == Trim(ValueOf(m, StartPrefix)))
    && (e.endTime.Some? <==> GetValue(m, EndPrefix).Some?)
    && (e.endTime.Some? ==> TimeText(e.endTime.value) == Trim(ValueOf(m, EndPrefix)))
    && (e.subject.Some? <==>
          GetValue(m, DayPrefix).Some? && GetValue(m, StartPrefix).Some? && GetValue(m, EndPrefix).Some?)
    && (e.subject.Some? ==>
          && e.subject.value.day == Trim(ValueOf(m, DayPrefix))
          && TimeText(e.subject.value.startTime) == Trim(ValueOf(m, StartPrefix))
          && TimeText(e.subject.value.endTime) == Trim(ValueOf(m, EndPrefix)))
    && e.tags == (if GetAllValues(m, TagPrefix) == [] then None
                  else if GetAllValues(m, TagPrefix) == [""] then Some({})
                  else Some(TrimmedSet(GetAllValues(m, TagPrefix))))
  }

  /** The arguments determine the descriptor: at most one descriptor fits them. */
  lemma DescribedEditsUnique(rules: FieldRules, m: ArgumentMultimap, e1: Edits, e2: Edits)
    requires DescribesEdits(rules, m, e1) && DescribesEdits(rules, m, e2)
    ensures e1 == e2
  {
    if e1.startTime.Some? {
      TimeTextInjective(e1.startTime.value, e2.startTime.value);
    }
    if e1.endTime.Some? {
      TimeTextInjective(e1.endTime.value, e2.endTime.value);
    }
    if e1.subject.Some? {
      TimeTextInjective(e1.subject.value.startTime, e2.subject.value.startTime);
      TimeTextInjective(e1.subject.value.endTime, e2.subject.value.endTime);
    }
  }

  /** A descriptor that fits the arguments edits something exactly when some field prefix was given. */
  lemma DescribedEditsEdited(rules: FieldRules, m: ArgumentMultimap, e: Edits)
    requires DescribesEdits(rules, m, e)
    ensures IsAnyFieldEdited(e) <==> AnyFieldGiven(m)
  {
  }

  /** A single empty t/ leaves the edited person with no tags, whatever the original had. */
  lemma ClearTagsEdit(rules: FieldRules, m: ArgumentMultimap, e: Edits, p: Person)
    requires DescribesEdits(rules, m, e) && GetAllValues(m, TagPrefix) == [""]
    ensures CreateEditedPerson(p, e).tags == {}
  {
  }

  /** Giving only n/ changes only the name, so the edited person is a new identity unless the name is kept. */
  lemma NameOnlyEdit(rules: FieldRules, m: ArgumentMultimap, e: Edits, p: Person)
    requires DescribesEdits(rules, m, e)
    requires GetValue(m, NamePrefix).Some? && GetAllValues(m, TagPrefix) == []
    requires forall q :: q in {PhonePrefix, SchoolPrefix, AddressPrefix, DayPrefix, StartPrefix, EndPrefix} ==>
                           GetValue(m, q).None?
    ensures CreateEditedPerson(p, e) == p.(name := Trim(ValueOf(m, NamePrefix)))
  {
    assert GetValue(m, PhonePrefix).None? && GetValue(m, SchoolPrefix).None? && GetValue(m, AddressPrefix).None?;
    assert GetValue(m, DayPrefix).None?;
  }

  /** Without all of d/, st/ and et/ the edited person keeps the original's subject. */
  lemma PartialSubjectEditKeepsSubject(rules: FieldRules, m: ArgumentMultimap, e: Edits, p: Person)
    requires DescribesEdits(rules, m, e)
    requires GetValue(m, DayPrefix).None? || GetValue(m, StartPrefix).None? || GetValue(m, EndPrefix).None?
    ensures CreateEditedPerson(p, e).subject == p.subject
  {
  }

  /** The n/, p/, s/ and a/ setter calls of `parse`. */
  method SetPersonFields(rules: FieldRules, m: ArgumentMultimap, d: EditPersonDescriptor)
    returns (r: Result<(), ParseError>)
    requires d.name.None? && d.phone.None? && d.school.None? && d.address.None?
    modifies d
    ensures r.Failure? <==> PersonFieldError(rules, m).Some?
    ensures r.Failure? ==> Some(r.error) == PersonFieldError(rules, m)
    ensures r.Success? ==>
              d.Value() == old(d.Value()).(name := GivenText(m, NamePrefix), phone := GivenText(m, PhonePrefix),
                                           school := GivenText(m, SchoolPrefix),
                                           address := GivenText(m, AddressPrefix))
  {
    if GetValue(m, NamePrefix).Some? {
      var name :- ParseName(rules, ValueOf(m, NamePrefix));
      d.SetName(Some(name));
    }
    if GetValue(m, PhonePrefix).Some? {
      var phone :- ParsePhone(rules, ValueOf(m, PhonePrefix));
      d.SetPhone(Some(phone));
    }
    if GetValue(m, SchoolPrefix).Some? {
      var school :- ParseSchool(rules, ValueOf(m, SchoolPrefix));
      d.SetSchool(Some(school));
    }
    if GetValue(m, AddressPrefix).Some? {
      var address :- ParseAddress(rules, ValueOf(m, AddressPrefix));
      d.SetAddress(Some(address));
    }
    return Success(());
  }

  /** A time that parses is the one its text denotes. */
  lemma ParsedTimeIsGiven(m: ArgumentMultimap, p: Prefix)
    requires GetValue(m, p).Some? && ParseTime(ValueOf(m, p)).Success?
    ensures GivenTime(m, p) == Some(ParseTime(ValueOf(m, p)).value)
  {
    ReadTimeText(ParseTime(ValueOf(m, p)).value);
  }

  /** The d/, st/ and et/ setter calls of `parse`, and the whole subject when all three are given. */
  method SetSubjectFields(rules: FieldRules, m: ArgumentMultimap, d: EditPersonDescriptor)
    returns (r: Result<(), ParseError>)
    requires d.day.None? && d.startTime.None? && d.endTime.None? && d.subject.None?
    modifies d
    ensures r.Failure? <==> SubjectFieldError(rules, m).Some?
    ensures r.Failure? ==> Some(r.error) == SubjectFieldError(rules, m)
    ensures r.Success? ==>
              && d.Value() == old(d.Value()).(day := GivenText(m, DayPrefix), startTime := GivenTime(m, StartPrefix),
                                              endTime := GivenTime(m, EndPrefix), subject := d.subject)
              && (d.subject.Some? <==>
                    GetValue(m, DayPrefix).Some? && GetValue(m, StartPrefix).Some? && GetValue(m, EndPrefix).Some?)
              && (d.subject.Some? ==>
                    d.subject == Some(Subject(Trim(ValueOf(m, DayPrefix)), d.startTime.value, d.endTime.value)))
  {
    if GetValue(m, DayPrefix).Some? {
      var day :- ParseDay(rules, ValueOf(m, DayPrefix));
      d.SetDay(Some(day));
    }
    if GetValue(m, StartPrefix).Some? {
      var start :- ParseTime(ValueOf(m, StartPrefix));
      ParsedTimeIsGiven(m, StartPrefix);
      d.SetStartTime(Some(start));
    }
    if GetValue(m, EndPrefix).Some? {
      var end :- ParseTime(ValueOf(m, EndPrefix));
      ParsedTimeIsGiven(m, EndPrefix);
      d.SetEndTime(Some(end));
    }
    if GetValue(m, DayPrefix).Some? && GetValue(m, StartPrefix).Some? && GetValue(m, EndPrefix).Some? {
      var subject := ParseSubject(rules, ValueOf(m, DayPrefix), ValueOf(m, StartPrefix), ValueOf(m, EndPrefix));
      assert subject.Success?;
      TimeTextInjective(subject.value.startTime, d.startTime.value);
      TimeTextInjective(subject.value.endTime, d.endTime.value);
      d.SetSubject(Some(subject.value));
    }
    return Success(());
  }

  /** A given time held in the descriptor is written as its trimmed text. */
  lemma GivenTimeText(m: ArgumentMultimap, p: Prefix)
    requires GivenTime(m, p).Some?
    ensures TimeText(GivenTime(m, p).value) == Trim(ValueOf(m, p))
  {
    TimeTextRead(Trim(ValueOf(m, p)));
  }

  /** The descriptor-building steps of `parse`, from a fresh descriptor to the check that it edits something. */
  method ParseFields(rules: FieldRules, m: ArgumentMultimap) returns (r: Result<EditPersonDescriptor, ParseError>)
    ensures r.Failure? <==> FieldsError(rules, m).Some?
    ensures r.Failure? ==> Some(r.error) == FieldsError(rules, m)
    ensures r.Success? ==> fresh(r.value) && DescribesEdits(rules, m, r.value.Value())
  {
    var d := new EditPersonDescriptor();
    var _ :- SetPersonFields(rules, m, d);
    var _ :- SetSubjectFields(rules, m, d);
    var tags :- ParseTagsForEdit(rules, GetAllValues(m, TagPrefix));
    if tags.Some? {
      d.SetTags(tags);
    }
    if d.startTime.Some? {
      GivenTimeText(m, StartPrefix);
    }
    if d.endTime.Some? {
      GivenTimeText(m, EndPrefix);
    }
    assert DescribesEdits(rules, m, d.Value());
    DescribedEditsEdited(rules, m, d.Value());
    if !d.IsEdited() {
      return Failure(Message(MessageNotEdited));
    }
    return Success(d);
  }

  /**
   * `parse`: the index from the preamble, no repeated single-valued prefix, then one setter call
   * per given prefix; at least one field must end up set.
   */
  method Parse(rules: FieldRules, m: ArgumentMultimap) returns (r: Result<EditCommand, ParseError>)
    ensures r.Failure? <==> EditError(rules, m).Some?
    ensures r.Failure? ==> Some(r.error) == EditError(rules, m)
    ensures r.Success? ==>
              && fresh(r.value) && r.value.index == ParseIndex(m.preamble).value
              && DescribesEdits(rules, m, r.value.descriptor.Value())
  {
    var index := ParseIndex(m.preamble);
    if index.Failure? {
      return Failure(InvalidCommandFormat(EditUsage));
    }
    var _ :- VerifyNoDuplicatePrefixesFor(m, SingleValuedPrefixes);
    var d :- ParseFields(rules, m);
    var command := new EditCommand(index.value, d);
    return Success(command);
  }
}
