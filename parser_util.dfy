/**
 * The shared parsing helpers the command parsers call: one-based indices, and the field parsers,
 * which trim their input and then apply the field's format rule.
 */
module ParserUtil {
  import opened Wrappers
  import opened Text
  import opened Times
  import opened FieldRules
  import opened CliSyntax
  import opened Lessons
  import opened Persons

  /** The command whose `MESSAGE_USAGE` an invalid-format error shows. */
  datatype Usage = AddUsage | EditUsage | DeleteLessonUsage | AddSubjectUsage

  /** What a `ParseException` carries. */
  datatype ParseError =
    | InvalidCommandFormat(usage: Usage)   // MESSAGE_INVALID_COMMAND_FORMAT with a usage text
    | DuplicatePrefixes(prefixes: set<Prefix>)
    | Constraints(field: Field)            // the field type's MESSAGE_CONSTRAINTS
    | InvalidIndex                         // MESSAGE_INVALID_INDEX
    | Message(text: string)

  const MaxInt: int := 0x7fff_ffff

  /** A position in a displayed list, stored zero-based and shown one-based. */
  datatype Index = Index(zeroBased: nat) {
    function OneBased(): (n: nat)
      ensures n >= 1
    {
      zeroBased + 1
    }
  }

  /**
   * `parseIndex`: the trimmed text must be a decimal number from 1 to `Integer.MAX_VALUE`; the
   * index is one-based in the text.
   */
  function ParseIndex(s: string): (r: Result<Index, ParseError>)
    ensures r.Success? <==> AllDigits(Trim(s)) && 1 <= DigitsValue(Trim(s)) <= MaxInt
    ensures r.Success? ==> r.value.OneBased() == DigitsValue(Trim(s))
    ensures r.Failure? ==> r.error == InvalidIndex
  {
    var t := Trim(s);
    if AllDigits(t) && 1 <= DigitsValue(t) <= MaxInt then Success(Index(DigitsValue(t) - 1))
    else Failure(InvalidIndex)
  }

  /** Every index in range is read back from its decimal text, also with surrounding blanks. */
  lemma ParseIndexOfDecimal(n: nat, left: string, right: string)
    requires 1 <= n <= MaxInt
    requires forall i :: 0 <= i < |left| ==> IsTrimmable(left[i])
    requires forall i :: 0 <= i < |right| ==> IsTrimmable(right[i])
    ensures ParseIndex(left + DecimalText(n) + right) == Success(Index(n - 1))
  {
    var d := DecimalText(n);
    assert IsDigit(d[0]) && IsDigit(d[|d| - 1]);
    TrimPadded(left, d, right);
    DecimalTextValue(n);
  }

  /** The common shape of `parseName`, `parsePhone`, ...: trim, then check the format rule. */
  function ParseField(valid: string -> bool, field: Field, s: string): (r: Result<string, ParseError>)
    ensures r.Success? <==> valid(Trim(s))
    ensures r.Success? ==> r.value == Trim(s)
    ensures r.Failure? ==> r.error == Constraints(field)
  {
    var t := Trim(s);
    if valid(t) then Success(t) else Failure(Constraints(field))
  }

  /** A valid value parses to itself whatever blanks surround it. */
  lemma ParseFieldPadded(valid: string -> bool, field: Field, left: string, v: string, right: string)
    requires valid(v) && v != [] && !IsTrimmable(v[0]) && !IsTrimmable(v[|v| - 1])
    requires forall i :: 0 <= i < |left| ==> IsTrimmable(left[i])
    requires forall i :: 0 <= i < |right| ==> IsTrimmable(right[i])
    ensures ParseField(valid, field, left + v + right) == Success(v)
  {
    TrimPadded(left, v, right);
  }

  function ParseName(rules: FieldRules, s: string): Result<string, ParseError> {
    ParseField(rules.isValidName, NameField, s)
  }

  function ParsePhone(rules: FieldRules, s: string): Result<string, ParseError> {
    ParseField(rules.isValidPhone, PhoneField, s)
  }

  function ParseSchool(rules: FieldRules, s: string): Result<string, ParseError> {
    ParseField(rules.isValidSchool, SchoolField, s)
  }

  function ParseAddress(rules: FieldRules, s: string): Result<string, ParseError> {
    ParseField(rules.isValidAddress, AddressField, s)
  }

  function ParseTag(rules: FieldRules, s: string): Result<string, ParseError> {
    ParseField(rules.isValidTagName, TagField, s)
  }

  function ParseDay(rules: FieldRules, s: string): Result<string, ParseError> {
    ParseField(rules.isValidDay, DayField, s)
  }

  function ParseSubjectName(rules: FieldRules, s: string): Result<string, ParseError> {
    ParseField(rules.isValidSubjectName, SubjectNameField, s)
  }

  /** The set of the trimmed values of `tags`. */
  function TrimmedSet(tags: seq<string>): set<string> {
    set t | t in tags :: Trim(t)
  }

  lemma TrimmedSetCons(tags: seq<string>)
    requires tags != []
    ensures TrimmedSet(tags) == {Trim(tags[0])} + TrimmedSet(tags[1..])
  {
    assert forall x :: x in tags <==> x == tags[0] || x in tags[1..];
  }

  /** `parseTags`: every tag must parse; the result is the set of trimmed tags. */
  function ParseTags(rules: FieldRules, tags: seq<string>): (r: Result<set<string>, ParseError>)
    ensures r.Success? <==> forall i :: 0 <= i < |tags| ==> rules.isValidTagName(Trim(tags[i]))
    ensures r.Success? ==> r.value == TrimmedSet(tags)
    ensures r.Failure? ==> r.error == Constraints(TagField)
  {
    if tags == [] then Success({})
    else
      var t :- ParseTag(rules, tags[0]);
      var rest :- ParseTags(rules, tags[1..]);
      TrimmedSetCons(tags);
      Success({t} + rest)
  }

  /** `parseTime`: the trimmed text must be a valid time. */
  function ParseTime(s: string): (r: Result<Time, ParseError>)
    ensures r.Success? <==> IsValidTime(Trim(s))
    ensures r.Success? ==> TimeText(r.value) == Trim(s)
    ensures r.Failure? ==> r.error == Constraints(TimeField)
  {
    match ReadTime(Trim(s))
    case Some(t) => TimeTextRead(Trim(s)); Success(t)
    case None => Failure(Constraints(TimeField))
  }

  /** `parseSubject`: the day and the two times of a person's weekly slot. */
  function ParseSubject(rules: FieldRules, day: string, start: string, end: string): (r: Result<Subject, ParseError>)
    ensures r.Success? <==> rules.isValidDay(Trim(day)) && IsValidTime(Trim(start)) && IsValidTime(Trim(end))
    ensures r.Success? ==>
              && r.value.day == Trim(day)
              && TimeText(r.value.startTime) == Trim(start)
              && TimeText(r.value.endTime) == Trim(end)
  {
    var d :- ParseDay(rules, day);
    var st :- ParseTime(start);
    var et :- ParseTime(end);
    Success(Subject(d, st, et))
  }

  /**
   * `parseLesson`: a subject name, a day and two times, combined by the lesson constructor,
   * whose start-before-end check becomes a `Lesson` constraint error.
   */
  function ParseLesson(rules: FieldRules, subject: string, day: string, start: string, end: string)
    : (r: Result<Lesson, ParseError>)
    ensures r.Success? ==>
              && r.value.subject == Trim(subject)
              && r.value.day == Trim(day)
              && TimeText(r.value.startTime) == Trim(start)
              && TimeText(r.value.endTime) == Trim(end)
              && r.value.startTime < r.value.endTime
    ensures r.Success? <==>
              && rules.isValidSubjectName(Trim(subject))
              && rules.isValidDay(Trim(day))
              && IsValidTime(Trim(start))
              && IsValidTime(Trim(end))
              && ReadTime(Trim(start)).value < ReadTime(Trim(end)).value
  {
    var n :- ParseSubjectName(rules, subject);
    var d :- ParseDay(rules, day);
    var st :- ParseTime(start);
    var et :- ParseTime(end);
    match NewLesson(n, d, st, et)
    case Success(l) => Success(l)
    case Failure(_) => Failure(Constraints(LessonField))
  }
}
