/**
 * `DeleteLessonCommandParser`: reads "STUDENT_INDEX LESSON_INDEX", two whitespace-separated
 * positive numbers, each with its own error when out of range.
 */
module DeleteLessonCommandParser {
  import opened Wrappers
  import opened Text
  import opened ParserUtil

  datatype DeleteLessonCommand = DeleteLessonCommand(studentIndex: Index, lessonIndex: Index)

  const MessageInvalidStudentIndex: string := "Invalid student index"
  const MessageInvalidLessonIndex: string := "Invalid lesson index"

  /** A number `parseIndex` accepts. */
  predicate InIndexRange(n: nat) {
    1 <= n <= MaxInt
  }

  /** A run of digits is left alone by `trim()`, so `parseIndex` reads exactly its value. */
  lemma ParseIndexOfDigits(w: string)
    requires AllDigits(w)
    ensures ParseIndex(w).Success? <==> InIndexRange(DigitsValue(w))
    ensures ParseIndex(w).Success? ==> ParseIndex(w).value.OneBased() == DigitsValue(w)
  {
    TrimNoop(w);
  }

  /**
   * `parse`: the trimmed input split at whitespace must give exactly two runs of digits (else
   * the usage message); the student index is checked before the lesson index.
   */
  function Parse(args: string): (r: Result<DeleteLessonCommand, ParseError>)
    ensures var parts := SplitWhitespace(Trim(args));
            && (|parts| != 2 || !AllDigits(parts[0]) || !AllDigits(parts[1]) ==>
                  r == Failure(InvalidCommandFormat(DeleteLessonUsage)))
            && (|parts| == 2 && AllDigits(parts[0]) && AllDigits(parts[1]) ==>
                  && (!InIndexRange(DigitsValue(parts[0])) ==> r == Failure(Message(MessageInvalidStudentIndex)))
                  && (InIndexRange(DigitsValue(parts[0])) && !InIndexRange(DigitsValue(parts[1])) ==>
                        r == Failure(Message(MessageInvalidLessonIndex)))
                  && (InIndexRange(DigitsValue(parts[0])) && InIndexRange(DigitsValue(parts[1])) ==>
                        r == Success(DeleteLessonCommand(Index(DigitsValue(parts[0]) - 1),
                                                         Index(DigitsValue(parts[1]) - 1)))))
  {
    var parts := SplitWhitespace(Trim(args));
    if |parts| != 2 then Failure(InvalidCommandFormat(DeleteLessonUsage))
    else if !AllDigits(parts[0]) || !AllDigits(parts[1]) then Failure(InvalidCommandFormat(DeleteLessonUsage))
    else
      ParseIndexOfDigits(parts[0]);
      ParseIndexOfDigits(parts[1]);
      var student := ParseIndex(parts[0]);
      if student.Failure? then Failure(Message(MessageInvalidStudentIndex))
      else
        var lesson := ParseIndex(parts[1]);
        if lesson.Failure? then Failure(Message(MessageInvalidLessonIndex))
        else Success(DeleteLessonCommand(student.value, lesson.value))
  }

  /** The outcome of `parse` on two numbers written in decimal, as the range checks decide it. */
  function DecimalOutcome(s: nat, l: nat): Result<DeleteLessonCommand, ParseError> {
    if !InIndexRange(s) then Failure(Message(MessageInvalidStudentIndex))
    else if !InIndexRange(l) then Failure(Message(MessageInvalidLessonIndex))
    else Success(DeleteLessonCommand(Index(s - 1), Index(l - 1)))
  }

  /**
   * Writing two numbers in decimal with one space between them and parsing the text gives back
   * the two numbers as one-based indices, or the error of the first that is out of range.
   */
  lemma ParseOfDecimals(s: nat, l: nat)
    ensures Parse(DecimalText(s) + " " + DecimalText(l)) == DecimalOutcome(s, l)
  {
    ParseOfDigits(DecimalText(s), DecimalText(l));
    DecimalTextValue(s);
    DecimalTextValue(l);
  }

  /** Two runs of digits with one space between them parse as their values decide. */
  lemma ParseOfDigits(a: string, b: string)
    requires AllDigits(a) && AllDigits(b)
    ensures Parse(a + " " + b) == DecimalOutcome(DigitsValue(a), DigitsValue(b))
  {
    SplitOfDigits(a, b);
    ParseOfParts(a + " " + b, a, b);
  }

  /** Input that splits into two runs of digits parses as their values decide. */
  lemma ParseOfParts(args: string, a: string, b: string)
    requires AllDigits(a) && AllDigits(b) && SplitWhitespace(Trim(args)) == [a, b]
    ensures Parse(args) == DecimalOutcome(DigitsValue(a), DigitsValue(b))
  {
    var parts := SplitWhitespace(Trim(args));
    assert parts[0] == a && parts[1] == b;
  }

  /** Two runs of digits with one space between them trim to themselves and split into the two. */
  lemma SplitOfDigits(a: string, b: string)
    requires AllDigits(a) && AllDigits(b)
    ensures SplitWhitespace(Trim(a + " " + b)) == [a, b]
  {
    var t := a + " " + b;
    assert t[0] == a[0] && t[|t| - 1] == b[|b| - 1];
    assert IsWord(a) && IsWord(b);
    TrimNoop(t);
    WordsOfTwo(a, b);
  }

  lemma DecimalOne()
    ensures DecimalText(1) == "1"
  {
  }

  lemma DecimalTwo()
    ensures DecimalText(2) == "2"
  {
  }

  lemma DecimalZero()
    ensures DecimalText(0) == "0"
  {
  }

  /** `text` is how `s` and `l` are written, with one space between them. */
  predicate Writes(text: string, s: nat, l: nat) {
    text == DecimalText(s) + " " + DecimalText(l)
  }

  /** The text that writes two numbers parses to their outcome. */
  lemma ParseOfWritten(text: string, s: nat, l: nat)
    requires Writes(text, s, l)
    ensures Parse(text) == DecimalOutcome(s, l)
  {
    ParseOfDecimals(s, l);
  }

  lemma WritesOneTwo()
    ensures Writes("1 2", 1, 2)
  {
    DecimalOne();
    DecimalTwo();
  }

  lemma WritesZeroZero()
    ensures Writes("0 0", 0, 0)
  {
    DecimalZero();
  }

  lemma WritesZeroOne()
    ensures Writes("0 1", 0, 1)
  {
    DecimalZero();
    DecimalOne();
  }

  lemma WritesOneZero()
    ensures Writes("1 0", 1, 0)
  {
    DecimalZero();
    DecimalOne();
  }

  /** "1 2" names the first student's second lesson. */
  lemma ParseOneTwo()
    ensures Parse("1 2") == Success(DeleteLessonCommand(Index(0), Index(1)))
  {
    WritesOneTwo();
    ParseOfWritten("1 2", 1, 2);
  }

  /** "0 0" reports the student index, which is checked first. */
  lemma ParseZeroZero()
    ensures Parse("0 0") == Failure(Message(MessageInvalidStudentIndex))
  {
    WritesZeroZero();
    ParseOfWritten("0 0", 0, 0);
  }

  /** "0 1": student index 0 is out of range. */
  lemma ParseZeroOne()
    ensures Parse("0 1") == Failure(Message(MessageInvalidStudentIndex))
  {
    WritesZeroOne();
    ParseOfWritten("0 1", 0, 1);
  }

  /** "1 0": a valid student with lesson index 0. */
  lemma ParseOneZero()
    ensures Parse("1 0") == Failure(Message(MessageInvalidLessonIndex))
  {
    WritesOneZero();
    ParseOfWritten("1 0", 1, 0);
  }

  /** "1 a": a lesson that is not a number fails with the usage message. */
  lemma ParseOneLetter()
    ensures Parse("1 a") == Failure(InvalidCommandFormat(DeleteLessonUsage))
  {
    var t := "1 a";
    assert IsWord("1") && IsWord("a");
    assert t == "1" + " " + "a";
    TrimNoop(t);
    WordsOfTwo("1", "a");
    assert !IsDigit('a');
  }

  /** "a 1": a student that is not a number fails with the usage message. */
  lemma ParseLetterOne()
    ensures Parse("a 1") == Failure(InvalidCommandFormat(DeleteLessonUsage))
  {
    var t := "a 1";
    assert IsWord("a") && IsWord("1");
    assert t == "a" + " " + "1";
    TrimNoop(t);
    WordsOfTwo("a", "1");
    assert !IsDigit('a');
  }
}
