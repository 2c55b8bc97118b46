/**
 * `AddSubjectCommandParser`: the whole argument text is one subject name; any failure is
 * reported as the add-subject usage message.
 */
module AddSubjectCommandParser {
  import opened Wrappers
  import opened Text
  import opened FieldRules
  import opened ParserUtil

  datatype AddSubjectCommand = AddSubjectCommand(subject: string)

  /** `parse`: the trimmed text when it is a valid subject name, else the usage message. */
  function Parse(rules: FieldRules, args: string): (r: Result<AddSubjectCommand, ParseError>)
    ensures r.Success? <==> rules.isValidSubjectName(Trim(args))
    ensures r.Success? ==> r.value.subject == Trim(args) && IsTrimmed(r.value.subject)
    ensures r.Failure? ==> r.error == InvalidCommandFormat(AddSubjectUsage)
  {
    match ParseSubjectName(rules, args)
    case Success(name) => Success(AddSubjectCommand(name))
    case Failure(_) => Failure(InvalidCommandFormat(AddSubjectUsage))
  }

  /** Blanks around a valid name are dropped: the command holds the name itself. */
  lemma ParsePadded(rules: FieldRules, left: string, name: string, right: string)
    requires forall i :: 0 <= i < |left| ==> IsTrimmable(left[i])
    requires forall i :: 0 <= i < |right| ==> IsTrimmable(right[i])
    requires IsTrimmed(name) && rules.isValidSubjectName(name)
    ensures Parse(rules, left + name + right) == Success(AddSubjectCommand(name))
  {
    TrimPadded(left, name, right);
  }

  /** Blanks alone never name a subject when the empty name is invalid. */
  lemma ParseBlanks(rules: FieldRules, blanks: string)
    requires forall i :: 0 <= i < |blanks| ==> IsTrimmable(blanks[i])
    requires !rules.isValidSubjectName("")
    ensures Parse(rules, blanks) == Failure(InvalidCommandFormat(AddSubjectUsage))
  {
    TrimPadded(blanks, "", "");
    assert blanks + "" + "" == blanks;
  }

  /** " \t\r\n" is rejected. */
  lemma ParseWhitespace(rules: FieldRules)
    requires PinnedByTests(rules)
    ensures Parse(rules, " \t\r\n") == Failure(InvalidCommandFormat(AddSubjectUsage))
  {
    ParseBlanks(rules, " \t\r\n");
  }

  /** "Sci@nce" is rejected with the usage message. */
  lemma ParseInvalidName(rules: FieldRules)
    requires PinnedByTests(rules)
    ensures Parse(rules, "Sci@nce") == Failure(InvalidCommandFormat(AddSubjectUsage))
  {
    TrimNoop("Sci@nce");
  }

  /** "Science" between blanks gives the command for "Science". */
  lemma ParseScience(rules: FieldRules)
    requires PinnedByTests(rules)
    ensures Parse(rules, " \t\r\n" + "Science" + " \t\r\n") == Success(AddSubjectCommand("Science"))
  {
    ParsePadded(rules, " \t\r\n", "Science", " \t\r\n");
  }
}
