/** `AddCommandParser`: builds the person of an add command from the tokenized arguments. */
module AddCommandParser {
  import opened Wrappers
  import opened Text
  import opened Times
  import opened FieldRules
  import opened CliSyntax
  import opened Persons
  import opened ParserUtil
  import opened Arguments

  datatype AddCommand = AddCommand(toAdd: Person)

  /** The prefixes an add command must give. */
  const RequiredPrefixes: seq<Prefix> :=
    [NamePrefix, AddressPrefix, PhonePrefix, SchoolPrefix, DayPrefix, StartPrefix, EndPrefix]

  /** The prefixes an add command may give at most once. */
  const SingleValuedPrefixes: set<Prefix> := {NamePrefix, PhonePrefix, SchoolPrefix, AddressPrefix}

  /** `arePrefixesPresent`: every listed prefix has a value. */
  function ArePrefixesPresent(m: ArgumentMultimap, ps: seq<Prefix>): (b: bool)
    ensures b <==> forall i :: 0 <= i < |ps| ==> GetValue(m, ps[i]).Some?
  {
    if ps == [] then true
    else
      assert forall i :: 1 <= i < |ps| ==> ps[i] == ps[1..][i - 1];
      GetValue(m, ps[0]).Some? && ArePrefixesPresent(m, ps[1..])
  }

  /** The error `parse` reports, stated on the input: the first condition, in its order, that fails. */
  function AddError(rules: FieldRules, m: ArgumentMultimap): Option<ParseError> {
    if !ArePrefixesPresent(m, RequiredPrefixes) || m.preamble != [] then Some(InvalidCommandFormat(AddUsage))
    else if DuplicatedPrefixes(m, SingleValuedPrefixes) != {} then
      Some(DuplicatePrefixes(DuplicatedPrefixes(m, SingleValuedPrefixes)))
    else if !rules.isValidName(Trim(ValueOf(m, NamePrefix))) then Some(Constraints(NameField))
    else if !rules.isValidPhone(Trim(ValueOf(m, PhonePrefix))) then Some(Constraints(PhoneField))
    else if !rules.isValidSchool(Trim(ValueOf(m, SchoolPrefix))) then Some(Constraints(SchoolField))
    else if !rules.isValidAddress(Trim(ValueOf(m, AddressPrefix))) then Some(Constraints(AddressField))
    else if exists i :: 0 <= i < |GetAllValues(m, TagPrefix)| && !rules.isValidTagName(Trim(GetAllValues(m, TagPrefix)[i]))
    then Some(Constraints(TagField))
    else if !rules.isValidDay(Trim(ValueOf(m, DayPrefix))) then Some(Constraints(DayField))
    else if !IsValidTime(Trim(ValueOf(m, StartPrefix))) || !IsValidTime(Trim(ValueOf(m, EndPrefix)))
    then Some(Constraints(TimeField))
    else None
  }

  /**
   * `parse`: all required prefixes and an empty preamble, no repeated single-valued prefix, then
   * each field parsed in turn; the person holds exactly the parsed values.
   */
  function Parse(rules: FieldRules, m: ArgumentMultimap): (r: Result<AddCommand, ParseError>)
    ensures r.Failure? <==> AddError(rules, m).Some?
    ensures r.Failure? ==> Some(r.error) == AddError(rules, m)
    ensures r.Success? ==>
              var p := r.value.toAdd;
              && p.name == Trim(ValueOf(m, NamePrefix))
              && p.phone == Trim(ValueOf(m, PhonePrefix))
              && p.school == Trim(ValueOf(m, SchoolPrefix))
              && p.address == Trim(ValueOf(m, AddressPrefix))
              && p.tags == TrimmedSet(GetAllValues(m, TagPrefix))
              && p.subject.Some?
              && p.subject.value.day == Trim(ValueOf(m, DayPrefix))
              && TimeText(p.subject.value.startTime) == Trim(ValueOf(m, StartPrefix))
              && TimeText(p.subject.value.endTime) == Trim(ValueOf(m, EndPrefix))
  {
    if !ArePrefixesPresent(m, RequiredPrefixes) || m.preamble != [] then
      Failure(InvalidCommandFormat(AddUsage))
    else
      var _ :- VerifyNoDuplicatePrefixesFor(m, SingleValuedPrefixes);
      var name :- ParseName(rules, ValueOf(m, NamePrefix));
      var phone :- ParsePhone(rules, ValueOf(m, PhonePrefix));
      var school :- ParseSchool(rules, ValueOf(m, SchoolPrefix));
      var address :- ParseAddress(rules, ValueOf(m, AddressPrefix));
      var tags :- ParseTags(rules, GetAllValues(m, TagPrefix));
      var subject :- ParseSubject(rules, ValueOf(m, DayPrefix), ValueOf(m, StartPrefix),
                                  ValueOf(m, EndPrefix));
      Success(AddCommand(Person(name, phone, school, address, tags, Some(subject))))
  }

  /** Giving no t/ at all yields a person without tags. */
  lemma NoTagsNoTagSet(rules: FieldRules, m: ArgumentMultimap)
    requires TagPrefix !in m.values
    ensures Parse(rules, m).Success? ==> Parse(rules, m).value.toAdd.tags == {}
  {
    assert GetAllValues(m, TagPrefix) == [];
  }

  /** One invalid tag fails the whole parse, whatever the other tags are. */
  lemma InvalidTagFails(rules: FieldRules, m: ArgumentMultimap, i: nat)
    requires i < |GetAllValues(m, TagPrefix)|
    requires !rules.isValidTagName(Trim(GetAllValues(m, TagPrefix)[i]))
    ensures Parse(rules, m).Failure?
  {
  }

  /** A person whose fields are valid values as `parse` produces them (already trimmed). */
  predicate IsParsedPerson(rules: FieldRules, p: Person) {
    && IsTrimmed(p.name) && rules.isValidName(p.name)
    && IsTrimmed(p.phone) && rules.isValidPhone(p.phone)
    && IsTrimmed(p.school) && rules.isValidSchool(p.school)
    && IsTrimmed(p.address) && rules.isValidAddress(p.address)
    && (forall t :: t in p.tags ==> IsTrimmed(t) && rules.isValidTagName(t))
    && p.subject.Some? && IsTrimmed(p.subject.value.day) && rules.isValidDay(p.subject.value.day)
  }

  /** The arguments of an add command that spells out `p`, giving its tags in the order `tags`. */
  function AddArguments(p: Person, tags: seq<string>): ArgumentMultimap
    requires p.subject.Some?
  {
    ArgumentMultimap("", map[
      NamePrefix := [p.name], PhonePrefix := [p.phone], SchoolPrefix := [p.school],
      AddressPrefix := [p.address], TagPrefix := tags, DayPrefix := [p.subject.value.day],
      StartPrefix := [TimeText(p.subject.value.startTime)], EndPrefix := [TimeText(p.subject.value.endTime)]])
  }

  lemma TrimmedSetOfTrimmed(tags: seq<string>)
    requires forall i :: 0 <= i < |tags| ==> IsTrimmed(tags[i])
    ensures TrimmedSet(tags) == set t | t in tags
  {
    forall t | t in tags ensures Trim(t) == t {
      TrimNoop(t);
    }
  }

  /** What `AddArguments` gives back for each prefix. */
  lemma AddArgumentsLookup(p: Person, tags: seq<string>)
    requires p.subject.Some?
    ensures var m := AddArguments(p, tags);
            && m.preamble == []
            && ValueOf(m, NamePrefix) == p.name && ValueOf(m, PhonePrefix) == p.phone
            && ValueOf(m, SchoolPrefix) == p.school && ValueOf(m, AddressPrefix) == p.address
            && GetAllValues(m, TagPrefix) == tags && ValueOf(m, DayPrefix) == p.subject.value.day
            && ValueOf(m, StartPrefix) == TimeText(p.subject.value.startTime)
            && ValueOf(m, EndPrefix) == TimeText(p.subject.value.endTime)
            && ArePrefixesPresent(m, RequiredPrefixes)
            && DuplicatedPrefixes(m, SingleValuedPrefixes) == {}
  {
    var m := AddArguments(p, tags);
    assert forall q :: q in SingleValuedPrefixes ==> |GetAllValues(m, q)| == 1;
  }

  /** The arguments written out for a parsed person pass every check of `parse`. */
  lemma AddArgumentsAccepted(rules: FieldRules, p: Person, tags: seq<string>)
    requires IsParsedPerson(rules, p)
    requires (set t | t in tags) == p.tags
    ensures AddError(rules, AddArguments(p, tags)).None?
  {
    var s := p.subject.value;
    AddArgumentsLookup(p, tags);
    TrimNoop(p.name);
    TrimNoop(p.phone);
    TrimNoop(p.school);
    TrimNoop(p.address);
    TrimNoop(s.day);
    TimeTextTrimmed(s.startTime);
    TimeTextTrimmed(s.endTime);
    ReadTimeText(s.startTime);
    ReadTimeText(s.endTime);
    forall i | 0 <= i < |tags| ensures rules.isValidTagName(Trim(tags[i])) {
      assert tags[i] in p.tags;
      TrimNoop(tags[i]);
    }
  }

  /** Writing a parsed person back out as add arguments and parsing them gives the same person. */
  lemma AddRoundTrip(rules: FieldRules, p: Person, tags: seq<string>)
    requires IsParsedPerson(rules, p)
    requires (set t | t in tags) == p.tags
    ensures Parse(rules, AddArguments(p, tags)) == Success(AddCommand(p))
  {
    var s := p.subject.value;
    AddArgumentsAccepted(rules, p, tags);
    AddArgumentsLookup(p, tags);
    TrimNoop(p.name);
    TrimNoop(p.phone);
    TrimNoop(p.school);
    TrimNoop(p.address);
    TrimNoop(s.day);
    TimeTextTrimmed(s.startTime);
    TimeTextTrimmed(s.endTime);
    assert forall i :: 0 <= i < |tags| ==> tags[i] in p.tags;
    TrimmedSetOfTrimmed(tags);
    var q := Parse(rules, AddArguments(p, tags)).value.toAdd;
    TimeTextInjective(q.subject.value.startTime, s.startTime);
    TimeTextInjective(q.subject.value.endTime, s.endTime);
  }
}
