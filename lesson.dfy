/** A lesson: a subject name taught on a day between a start and an end time. */
module Lessons {
  import opened Wrappers
  import opened Times

  const MessageConstraints: string := "Start time should be before end time."

  datatype Lesson = Lesson(subject: string, day: string, startTime: Time, endTime: Time)

  /** `isValidStartEndTime`: `LocalTime.isBefore`, a strict comparison. */
  predicate IsValidStartEndTime(startTime: Time, endTime: Time) {
    startTime < endTime
  }

  /**
   * The constructor: `checkArgument` rejects a start that is not strictly before the end,
   * otherwise the getters return exactly the arguments.
   */
  function NewLesson(subject: string, day: string, startTime: Time, endTime: Time): (r: Result<Lesson, string>)
    ensures r.Success? <==> startTime < endTime
    ensures r.Success? ==> && r.value.subject == subject && r.value.day == day
                           && r.value.startTime == startTime && r.value.endTime == endTime
    ensures r.Failure? ==> r.error == MessageConstraints
  {
    if IsValidStartEndTime(startTime, endTime) then Success(Lesson(subject, day, startTime, endTime))
    else Failure(MessageConstraints)
  }

  /** A lesson whose start equals its end cannot be built. */
  lemma EqualTimesRejected(subject: string, day: string, t: Time)
    ensures NewLesson(subject, day, t, t) == Failure(MessageConstraints)
  {
  }

  /** Every lesson that construction produces satisfies the class invariant. */
  lemma ConstructedLessonValid(subject: string, day: string, startTime: Time, endTime: Time)
    requires NewLesson(subject, day, startTime, endTime).Success?
    ensures IsValidStartEndTime(NewLesson(subject, day, startTime, endTime).value.startTime,
                                NewLesson(subject, day, startTime, endTime).value.endTime)
  {
  }

  /** `toString()`; the `value` field holds this text from the end of construction on. */
  function ToString(l: Lesson): string {
    "[Name: " + l.subject + ", Day: " + l.day + ", startTime: " + TimeText(l.startTime)
    + ", endTime: " + TimeText(l.endTime) + "]"
  }

  function Value(l: Lesson): string {
    ToString(l)
  }

  /**
   * The text is the format string's five labels in order, with the subject, the day and the two
   * times in their places; both times can be read back from it.
   */
  lemma ValueLayout(l: Lesson)
    ensures var v, n, d := Value(l), |l.subject|, |l.day|;
            && |v| == 49 + n + d
            && v[..7] == "[Name: " && v[7..7 + n] == l.subject
            && v[7 + n..14 + n] == ", Day: " && v[14 + n..14 + n + d] == l.day
            && v[14 + n + d..27 + n + d] == ", startTime: "
            && ReadTime(v[27 + n + d..32 + n + d]) == Some(l.startTime)
            && v[32 + n + d..43 + n + d] == ", endTime: "
            && ReadTime(v[43 + n + d..48 + n + d]) == Some(l.endTime)
            && v[48 + n + d..] == "]"
  {
    NameInValue(l);
    DayInValue(l);
    StartInValue(l);
    EndInValue(l);
    ReadTimeText(l.startTime);
    ReadTimeText(l.endTime);
  }

  /** The name label and the subject open the text. */
  lemma NameInValue(l: Lesson)
    ensures Value(l)[..7] == "[Name: " && Value(l)[7..7 + |l.subject|] == l.subject
  {
    var rest := ", Day: " + l.day + ", startTime: " + TimeText(l.startTime)
                + ", endTime: " + TimeText(l.endTime) + "]";
    assert Value(l) == "[Name: " + l.subject + rest;
    SliceOfConcat("[Name: ", l.subject, rest);
  }

  /** The day label and the day follow the subject. */
  lemma DayInValue(l: Lesson)
    ensures var n := |l.subject|;
            Value(l)[7 + n..14 + n] == ", Day: " && Value(l)[14 + n..14 + n + |l.day|] == l.day
  {
    var a := "[Name: " + l.subject;
    var times := ", startTime: " + TimeText(l.startTime) + ", endTime: " + TimeText(l.endTime) + "]";
    assert Value(l) == a + ", Day: " + (l.day + times);
    SliceOfConcat(a, ", Day: ", l.day + times);
    assert Value(l) == a + ", Day: " + l.day + times;
    SliceOfConcat(a + ", Day: ", l.day, times);
  }

  /** The start-time label and the start time follow the day. */
  lemma StartInValue(l: Lesson)
    ensures var k := 14 + |l.subject| + |l.day|;
            Value(l)[k..k + 13] == ", startTime: " && Value(l)[k + 13..k + 18] == TimeText(l.startTime)
  {
    var c := "[Name: " + l.subject + ", Day: " + l.day;
    var tail := ", endTime: " + TimeText(l.endTime) + "]";
    assert Value(l) == c + ", startTime: " + (TimeText(l.startTime) + tail);
    SliceOfConcat(c, ", startTime: ", TimeText(l.startTime) + tail);
    assert Value(l) == c + ", startTime: " + TimeText(l.startTime) + tail;
    SliceOfConcat(c + ", startTime: ", TimeText(l.startTime), tail);
  }

  /** The end-time label, the end time and the closing bracket end the text. */
  lemma EndInValue(l: Lesson)
    ensures var k := 32 + |l.subject| + |l.day|;
            && |Value(l)| == k + 17
            && Value(l)[k..k + 11] == ", endTime: " && Value(l)[k + 11..k + 16] == TimeText(l.endTime)
            && Value(l)[k + 16..] == "]"
  {
    var f := "[Name: " + l.subject + ", Day: " + l.day + ", startTime: " + TimeText(l.startTime);
    assert Value(l) == f + ", endTime: " + (TimeText(l.endTime) + "]");
    SliceOfConcat(f, ", endTime: ", TimeText(l.endTime) + "]");
    assert Value(l) == f + ", endTime: " + TimeText(l.endTime) + "]";
    SliceOfConcat(f + ", endTime: ", TimeText(l.endTime), "]");
    SliceOfConcat(f + ", endTime: " + TimeText(l.endTime), "]", "");
  }

  /** Each part of a three-part concatenation is the slice between its joints. */
  lemma SliceOfConcat(x: string, y: string, z: string)
    ensures (x + y + z)[..|x|] == x
    ensures (x + y + z)[|x|..|x| + |y|] == y
    ensures z == [] ==> (x + y + z)[|x|..] == y
  {
    assert (x + y + z)[..|x|] == x;
    assert (x + y + z)[|x|..|x| + |y|] == y;
    if z == [] {
      assert x + y + z == x + y;
    }
  }

  /** `hashCode()` is the subject's hash; the subject's hash function is a parameter. */
  function HashCode(l: Lesson, subjectHash: string -> int): int {
    subjectHash(l.subject)
  }

  /** Lessons on the same subject hash alike, whatever their day and times. */
  lemma SameSubjectSameHash(a: Lesson, b: Lesson, subjectHash: string -> int)
    requires a.subject == b.subject
    ensures HashCode(a, subjectHash) == HashCode(b, subjectHash)
  {
  }

  // ---- equality ----

  /** What a call of `equals` comes to: a returned value, or a `StackOverflowError`. */
  datatype Outcome = Returns(result: bool) | StackOverflow

  /**
   * `equals` as written: `other == this || (other instanceof Lesson && this.equals((Lesson) other))`.
   * The cast does not select another overload, so for a distinct lesson the call repeats itself
   * with the same arguments. `frames` is the number of stack frames left before the JVM gives up.
   */
  function EqualsAsWritten(sameObject: bool, otherIsLesson: bool, frames: nat): (r: Outcome)
    ensures sameObject ==> r == Returns(true)
    ensures !sameObject && !otherIsLesson ==> r == Returns(false)
  {
    if sameObject then Returns(true)
    else if !otherIsLesson then Returns(false)
    else if frames == 0 then StackOverflow
    else EqualsAsWritten(sameObject, otherIsLesson, frames - 1)
  }

  /** Comparing two distinct lesson objects never returns, however deep the stack. */
  lemma {:induction false} EqualsAsWrittenOverflows(frames: nat)
    ensures EqualsAsWritten(false, true, frames) == StackOverflow
  {
    if frames > 0 {
      EqualsAsWrittenOverflows(frames - 1);
    }
  }

  /** Structural equality over (subject, day, start, end), as the parser test expects. */
  predicate Equals(a: Lesson, b: Lesson)
    ensures Equals(a, b) <==> a == b
  {
    a.subject == b.subject && a.day == b.day && a.startTime == b.startTime && a.endTime == b.endTime
  }

  /** `Equals` is an equivalence, and unlike the hash it tells apart lessons that differ only in the day. */
  lemma EqualsIsEquivalence(a: Lesson, b: Lesson, c: Lesson)
    ensures Equals(a, a)
    ensures Equals(a, b) ==> Equals(b, a)
    ensures Equals(a, b) && Equals(b, c) ==> Equals(a, c)
    ensures a.subject == b.subject && a.day != b.day ==> !Equals(a, b)
  {
  }

  /** Two lessons built from the same arguments are equal and hash alike. */
  lemma SameArgumentsEqual(subject: string, day: string, startTime: Time, endTime: Time, subjectHash: string -> int)
    requires startTime < endTime
    ensures var a := NewLesson(subject, day, startTime, endTime).value;
            var b := NewLesson(subject, day, startTime, endTime).value;
            Equals(a, b) && HashCode(a, subjectHash) == HashCode(b, subjectHash)
  {
  }

  /** Equal lessons have equal hash codes (the contract `hashCode` owes `equals`). */
  lemma EqualsConsistentWithHash(a: Lesson, b: Lesson, subjectHash: string -> int)
    requires Equals(a, b)
    ensures HashCode(a, subjectHash) == HashCode(b, subjectHash)
  {
  }
}
