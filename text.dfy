/**
 * The handful of java.lang.String operations the parsers rely on:
 * `trim()`, `split("\\s+")`, `matches("\\d+")` and decimal integer values.
 */
module Text {

  /** `String.trim()` removes every leading and trailing character up to U+0020. */
  predicate IsTrimmable(c: char) {
    c <= ' '
  }

  /** The characters of the regular-expression class `\s`. */
  predicate IsSpace(c: char) {
    c == ' ' || c == '\t' || c == '\n' || c == '\U{000B}' || c == '\U{000C}' || c == '\r'
  }

  predicate IsDigit(c: char) {
    '0' <= c <= '9'
  }

  /** The first index at or after `i` that `trim()` keeps: `i` advanced past trimmable characters. */
  function TrimStartIndex(s: string, i: nat): (n: nat)
    requires i <= |s|
    ensures i <= n <= |s|
    ensures forall j :: i <= j < n ==> IsTrimmable(s[j])
    ensures n < |s| ==> !IsTrimmable(s[n])
    decreases |s| - i
  {
    if i < |s| && IsTrimmable(s[i]) then TrimStartIndex(s, i + 1) else i
  }

  /** The end index `trim()` keeps: `e` moved back past trimmable characters, but not below `lo`. */
  function TrimEndIndex(s: string, lo: nat, e: nat): (n: nat)
    requires lo <= e <= |s|
    ensures lo <= n <= e
    ensures forall j :: n <= j < e ==> IsTrimmable(s[j])
    ensures n > lo ==> !IsTrimmable(s[n - 1])
    decreases e - lo
  {
    if e > lo && IsTrimmable(s[e - 1]) then TrimEndIndex(s, lo, e - 1) else e
  }

  /** Neither end of `s` is a character `trim()` removes. */
  predicate IsTrimmed(s: string) {
    s == [] || (!IsTrimmable(s[0]) && !IsTrimmable(s[|s| - 1]))
  }

  /** `String.trim()`. */
  function Trim(s: string): (r: string)
    ensures |r| <= |s|
    ensures IsTrimmed(r)
  {
    var st := TrimStartIndex(s, 0);
    s[st..TrimEndIndex(s, st, |s|)]
  }

  /** A string is left alone by `trim()` exactly when neither end is trimmable. */
  lemma TrimIdentity(s: string)
    ensures Trim(s) == s <==> IsTrimmed(s)
  {
    if IsTrimmed(s) { TrimNoop(s); }
  }

  /** `trim()` leaves an already trimmed string alone; in particular it is idempotent. */
  lemma TrimNoop(s: string)
    requires IsTrimmed(s)
    ensures Trim(s) == s
  {
    assert s[0..|s|] == s;
  }

  /** Whitespace around an already trimmed value is removed again, and nothing else is. */
  lemma TrimPadded(left: string, s: string, right: string)
    requires forall i :: 0 <= i < |left| ==> IsTrimmable(left[i])
    requires forall i :: 0 <= i < |right| ==> IsTrimmable(right[i])
    requires IsTrimmed(s)
    ensures Trim(left + s + right) == s
  {
    var t := left + s + right;
    forall j | 0 <= j < |left| ensures t[j] == left[j] { }
    forall j | |left| <= j < |left| + |s| ensures t[j] == s[j - |left|] { }
    forall j | |left| + |s| <= j < |t| ensures t[j] == right[j - |left| - |s|] { }
    var st := TrimStartIndex(t, 0);
    if s == [] {
      assert st == |t|;
      assert TrimEndIndex(t, st, |t|) == |t|;
    } else {
      assert t[|left|] == s[0];
      assert st == |left|;
      var e := TrimEndIndex(t, st, |t|);
      assert t[|left| + |s| - 1] == s[|s| - 1];
      assert e == |left| + |s|;
      assert t[st..e] == s;
    }
  }

  // ---- split("\\s+") ----

  /** A maximal run of non-`\s` characters. */
  predicate IsWord(w: string) {
    |w| > 0 && forall i :: 0 <= i < |w| ==> !IsSpace(w[i])
  }

  /** The first index at or after `i` that is not whitespace (or `|s|`). */
  function SpaceEnd(s: string, i: nat): (n: nat)
    requires i <= |s|
    ensures i <= n <= |s|
    ensures forall j :: i <= j < n ==> IsSpace(s[j])
    ensures n < |s| ==> !IsSpace(s[n])
    decreases |s| - i
  {
    if i < |s| && IsSpace(s[i]) then SpaceEnd(s, i + 1) else i
  }

  /** The first index at or after `i` that is whitespace (or `|s|`). */
  function WordEnd(s: string, i: nat): (n: nat)
    requires i <= |s|
    ensures i <= n <= |s|
    ensures forall j :: i <= j < n ==> !IsSpace(s[j])
    ensures n < |s| ==> IsSpace(s[n])
    decreases |s| - i
  {
    if i < |s| && !IsSpace(s[i]) then WordEnd(s, i + 1) else i
  }

  /** The maximal runs of non-whitespace characters of `s` from index `i` on, in order. */
  function WordsFrom(s: string, i: nat): seq<string>
    requires i <= |s|
    decreases |s| - i
  {
    var a := SpaceEnd(s, i);
    if a == |s| then [] else
      var b := WordEnd(s, a);
      [s[a..b]] + WordsFrom(s, b)
  }

  function Words(s: string): seq<string> {
    WordsFrom(s, 0)
  }

  /**
   * Java's `s.split("\\s+")`: a string without a match is returned whole (so "" gives [""]),
   * a leading run of whitespace produces a leading "", and trailing empty strings are dropped.
   */
  function SplitWhitespace(s: string): (parts: seq<string>)
    ensures s == [] ==> parts == [""]
    ensures s != [] && !IsSpace(s[0]) ==> parts == Words(s)
  {
    if s == [] then [""]
    else if Words(s) == [] then []
    else if IsSpace(s[0]) then [""] + Words(s)
    else Words(s)
  }

  /** Two words joined by one space split back into the two words. */
  lemma WordsOfTwo(a: string, b: string)
    requires IsWord(a) && IsWord(b)
    ensures Words(a + " " + b) == [a] + [b]
  {
    var t := a + " " + b;
    forall j | 0 <= j < |a| ensures t[j] == a[j] { }
    assert t[|a|] == ' ';
    forall j | |a| < j < |t| ensures t[j] == b[j - |a| - 1] { }
    assert SpaceEnd(t, 0) == 0;
    assert WordEnd(t, 0) == |a|;
    assert t[0..|a|] == a;
    assert SpaceEnd(t, |a|) == SpaceEnd(t, |a| + 1) == |a| + 1;
    assert WordEnd(t, |a| + 1) == |t|;
    assert t[|a| + 1..|t|] == b;
    assert WordsFrom(t, |t|) == [];
    assert WordsFrom(t, |a|) == [b] + WordsFrom(t, |t|);
    assert WordsFrom(t, 0) == [a] + WordsFrom(t, |a|);
  }

  // ---- decimal digits ----

  predicate AllDigits(s: string) {
    |s| > 0 && forall i :: 0 <= i < |s| ==> IsDigit(s[i])
  }

  function DigitValue(c: char): (d: nat)
    requires IsDigit(c)
    ensures d < 10
  {
    c as int - '0' as int
  }

  function DigitChar(d: nat): (c: char)
    requires d < 10
    ensures IsDigit(c) && DigitValue(c) == d
  {
    ('0' as int + d) as char
  }

  /** The value of a string of decimal digits, most significant first, leading zeros allowed. */
  function DigitsValue(s: string): nat
    requires forall i :: 0 <= i < |s| ==> IsDigit(s[i])
  {
    if s == [] then 0 else 10 * DigitsValue(s[..|s| - 1]) + DigitValue(s[|s| - 1])
  }

  /** The shortest decimal text of `n` (`Integer.toString` for non-negative values). */
  function DecimalText(n: nat): (s: string)
    ensures AllDigits(s)
  {
    if n < 10 then [DigitChar(n)] else DecimalText(n / 10) + [DigitChar(n % 10)]
  }

  lemma {:induction false} DecimalTextValue(n: nat)
    ensures DigitsValue(DecimalText(n)) == n
  {
    if n >= 10 {
      var s := DecimalText(n);
      assert s[..|s| - 1] == DecimalText(n / 10);
      DecimalTextValue(n / 10);
    }
  }
}
