/**
 * The examples of the parser tests, stated about the model. Each small lemma needs only the
 * format-rule facts it uses, all of them among those `PinnedByTests` fixes.
 */
module ParserUtilExamples {
  import opened Wrappers
  import opened Text
  import opened Times
  import opened FieldRules
  import opened Lessons
  import opened ParserUtil

  const Blanks: string := " \t\r\n"

  lemma BlanksTrimmable()
    ensures forall i :: 0 <= i < |Blanks| ==> IsTrimmable(Blanks[i])
  {
  }

  /** `parseIndex("1")` gives the first index. */
  lemma ParseIndexOne()
    ensures ParseIndex("1") == Success(Index(0))
  {
    ParseIndexOfDecimal(1, "", "");
    assert "" + DecimalText(1) + "" == "1";
  }

  /** `parseIndex("  1  ")` gives the first index too. */
  lemma ParseIndexPaddedOne()
    ensures ParseIndex("  1  ") == Success(Index(0))
  {
    ParseIndexOfDecimal(1, "  ", "  ");
    assert "  " + DecimalText(1) + "  " == "  1  ";
  }

  /** "10 a" is not a number. */
  lemma ParseIndexNotNumber()
    ensures ParseIndex("10 a") == Failure(InvalidIndex)
  {
    TrimNoop("10 a");
    assert !IsDigit("10 a"[2]);
  }

  /**
   * The out-of-range test's argument: `Integer.MAX_VALUE + 1` is evaluated in `int` and wraps to
   * -2147483648 before `Long.toString`, so the text has a sign and is rejected as not digits.
   */
  lemma ParseIndexWrappedMaxPlusOne()
    ensures ParseIndex("-2147483648") == Failure(InvalidIndex)
  {
    TrimNoop("-2147483648");
    assert !IsDigit("-2147483648"[0]);
  }

  /** 2^31, the sum without wrap-around, is beyond the `int` range that bounds an index. */
  lemma ParseIndexAboveIntRange()
    ensures ParseIndex(DecimalText(MaxInt + 1)) == Failure(InvalidIndex)
  {
    var d := DecimalText(MaxInt + 1);
    TrimNoop(d);
    DecimalTextValue(MaxInt + 1);
  }

  lemma ParseNamePadded(rules: FieldRules)
    requires rules.isValidName("Rachel Walker")
    ensures ParseName(rules, Blanks + "Rachel Walker" + Blanks) == Success("Rachel Walker")
  {
    BlanksTrimmable();
    ParseFieldPadded(rules.isValidName, NameField, Blanks, "Rachel Walker", Blanks);
  }

  lemma ParseTagPadded(rules: FieldRules)
    requires rules.isValidTagName("friend")
    ensures ParseTag(rules, Blanks + "friend" + Blanks) == Success("friend")
  {
    BlanksTrimmable();
    ParseFieldPadded(rules.isValidTagName, TagField, Blanks, "friend", Blanks);
  }

  lemma ParseNameInvalid(rules: FieldRules)
    requires !rules.isValidName("R@chel")
    ensures ParseName(rules, "R@chel") == Failure(Constraints(NameField))
  {
    TrimNoop("R@chel");
  }

  lemma ParsePhoneInvalid(rules: FieldRules)
    requires !rules.isValidPhone("+651234")
    ensures ParsePhone(rules, "+651234") == Failure(Constraints(PhoneField))
  {
    TrimNoop("+651234");
  }

  lemma TrimBlank()
    ensures Trim(" ") == ""
  {
    TrimPadded(" ", "", "");
    assert " " + "" + "" == " ";
  }

  /** A blank address or school is rejected. */
  lemma ParseBlankAddressSchool(rules: FieldRules)
    requires !rules.isValidAddress("") && !rules.isValidSchool("")
    ensures ParseAddress(rules, " ") == Failure(Constraints(AddressField))
    ensures ParseSchool(rules, " ") == Failure(Constraints(SchoolField))
  {
    TrimBlank();
  }

  lemma ParseTagsOneInvalid(rules: FieldRules)
    requires !rules.isValidTagName("#friend")
    ensures ParseTags(rules, ["friend", "#friend"]) == Failure(Constraints(TagField))
  {
    TrimNoop("#friend");
    var bad := ["friend", "#friend"];
    assert !rules.isValidTagName(Trim(bad[1]));
  }

  lemma ParseValidTags(rules: FieldRules, tags: seq<string>)
    requires forall i :: 0 <= i < |tags| ==> rules.isValidTagName(Trim(tags[i]))
    ensures ParseTags(rules, tags) == Success(TrimmedSet(tags))
  {
  }

  lemma ParseValidPair(rules: FieldRules, a: string, b: string)
    requires rules.isValidTagName(Trim(a)) && rules.isValidTagName(Trim(b))
    ensures ParseTags(rules, [a, b]) == Success(TrimmedSet([a, b]))
  {
    var tags := [a, b];
    assert forall i :: 0 <= i < |tags| ==> rules.isValidTagName(Trim(tags[i]));
    ParseValidTags(rules, tags);
  }

  lemma TrimmedPair(a: string, b: string)
    ensures TrimmedSet([a, b]) == {Trim(a), Trim(b)}
  {
  }

  /** Two valid tags parse to the set of both, trimmed. */
  lemma ParseTwoTags(rules: FieldRules, a: string, b: string)
    requires rules.isValidTagName(Trim(a)) && rules.isValidTagName(Trim(b))
    ensures ParseTags(rules, [a, b]) == Success({Trim(a), Trim(b)})
  {
    ParseValidPair(rules, a, b);
    TrimmedPair(a, b);
  }

  lemma TrimFriend() ensures Trim("friend") == "friend" { TrimNoop("friend"); }
  lemma TrimNeighbour() ensures Trim("neighbour") == "neighbour" { TrimNoop("neighbour"); }
  lemma TrimScience() ensures Trim("Science") == "Science" { TrimNoop("Science"); }
  lemma TrimMonday() ensures Trim("Monday") == "Monday" { TrimNoop("Monday"); }

  lemma ParseTagsTwo(rules: FieldRules)
    requires rules.isValidTagName("friend") && rules.isValidTagName("neighbour")
    ensures ParseTags(rules, ["friend", "neighbour"]) == Success({"friend", "neighbour"})
  {
    TrimFriend();
    TrimNeighbour();
    ParseTwoTags(rules, "friend", "neighbour");
  }

  lemma ParseTimeNine()
    ensures ParseTime("09:00") == Success(540)
  {
    TrimNoop("09:00");
    ReadTimeText(540);
    assert TimeText(540) == "09:00";
  }

  lemma ParseTimeEleven()
    ensures ParseTime("11:00") == Success(660)
  {
    TrimNoop("11:00");
    ReadTimeText(660);
    assert TimeText(660) == "11:00";
  }

  /** A valid, trimmed subject name and day with two ordered times give that lesson. */
  lemma ParseTrimmedLesson(rules: FieldRules, n: string, d: string, st: string, et: string, s: Time, e: Time)
    requires Trim(n) == n && Trim(d) == d && rules.isValidSubjectName(n) && rules.isValidDay(d)
    requires ParseTime(st) == Success(s) && ParseTime(et) == Success(e) && s < e
    ensures ParseLesson(rules, n, d, st, et) == Success(Lesson(n, d, s, e))
  {
    assert ParseSubjectName(rules, n) == Success(n);
    assert ParseDay(rules, d) == Success(d);
    assert NewLesson(n, d, s, e) == Success(Lesson(n, d, s, e));
  }

  /** "Science", "Monday", "09:00", "11:00" give the lesson the test builds directly. */
  lemma ParseLessonExample(rules: FieldRules)
    requires rules.isValidSubjectName("Science") && rules.isValidDay("Monday")
    ensures ParseLesson(rules, "Science", "Monday", "09:00", "11:00") == Success(Lesson("Science", "Monday", 540, 660))
  {
    TrimScience();
    TrimMonday();
    ParseTimeNine();
    ParseTimeEleven();
    ParseTrimmedLesson(rules, "Science", "Monday", "09:00", "11:00", 540, 660);
  }
}
