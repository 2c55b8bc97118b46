/**
 * Times of day. The source wraps java.time.LocalTime read from "HH:mm"; the model keeps the
 * minute of the day and the five-character text.
 */
module Times {
  import opened Wrappers
  import opened Text

  /** Minutes since midnight. */
  type Time = m: int | 0 <= m < 1440

  /** Reads strict "HH:mm" (two digits, a colon, two digits; hour 00-23, minute 00-59). */
  function ReadTime(s: string): (t: Option<Time>)
    ensures t.Some? ==> |s| == 5 && s[2] == ':'
  {
    if |s| == 5 && IsDigit(s[0]) && IsDigit(s[1]) && s[2] == ':' && IsDigit(s[3]) && IsDigit(s[4]) then
      var h := 10 * DigitValue(s[0]) + DigitValue(s[1]);
      var m := 10 * DigitValue(s[3]) + DigitValue(s[4]);
      if h < 24 && m < 60 then Some(60 * h + m) else None
    else None
  }

  predicate IsValidTime(s: string) {
    ReadTime(s).Some?
  }

  /** `LocalTime.toString()` for a time with no seconds: "HH:mm". */
  function TimeText(t: Time): (s: string)
    ensures |s| == 5
  {
    var h := t / 60;
    var m := t % 60;
    [DigitChar(h / 10), DigitChar(h % 10), ':', DigitChar(m / 10), DigitChar(m % 10)]
  }

  /** Rendering a time and reading it back gives the same time. */
  lemma ReadTimeText(t: Time)
    ensures ReadTime(TimeText(t)) == Some(t)
  {
    var h := t / 60;
    var m := t % 60;
    assert 10 * (h / 10) + h % 10 == h;
    assert 10 * (m / 10) + m % 10 == m;
  }

  /** Every valid time text is the rendering of the time it denotes. */
  lemma TimeTextRead(s: string)
    requires IsValidTime(s)
    ensures TimeText(ReadTime(s).value) == s
  {
    var h := 10 * DigitValue(s[0]) + DigitValue(s[1]);
    var m := 10 * DigitValue(s[3]) + DigitValue(s[4]);
    var t := 60 * h + m;
    assert t / 60 == h && t % 60 == m;
    assert h / 10 == DigitValue(s[0]) && h % 10 == DigitValue(s[1]);
    assert m / 10 == DigitValue(s[3]) && m % 10 == DigitValue(s[4]);
    var r := TimeText(t);
    assert r[0] == s[0] && r[1] == s[1] && r[2] == s[2] && r[3] == s[3] && r[4] == s[4];
  }

  /** A rendered time is never changed by `trim()`. */
  lemma TimeTextTrimmed(t: Time)
    ensures Trim(TimeText(t)) == TimeText(t)
  {
    TrimNoop(TimeText(t));
  }

  /** `TimeText` loses nothing: different times are written differently. */
  lemma TimeTextInjective(a: Time, b: Time)
    requires TimeText(a) == TimeText(b)
    ensures a == b
  {
    ReadTimeText(a);
    ReadTimeText(b);
  }
}
