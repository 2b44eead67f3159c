/**
 * The Python string operations the featuriser relies on.
 *
 * Python's `str.lower`, `str.isupper`, `str.istitle` and `str.isdigit` follow the
 * Unicode tables; here they are ASCII approximations: 'A'..'Z' are the upper-case
 * letters, 'a'..'z' the lower-case ones, '0'..'9' the digits, and every other
 * character is uncased and not a digit. Slices follow Python's clamping rules, and
 * `f"{n}"` on an int is its decimal rendering.
 */
module PyStr {

  predicate IsUpperChar(c: char) { 'A' <= c <= 'Z' }

  predicate IsLowerChar(c: char) { 'a' <= c <= 'z' }

  predicate IsDigitChar(c: char) { '0' <= c <= '9' }

  /** The lower-case form of a character: upper-case letters are lowered, the rest kept. */
  function LowerChar(c: char): (d: char)
    ensures !IsUpperChar(d)
    ensures !IsUpperChar(c) ==> d == c
  {
    if IsUpperChar(c) then (c as int - 'A' as int + 'a' as int) as char else c
  }

  /** `s.lower()` */
  function Lower(s: string): (r: string)
    ensures |r| == |s|
    ensures forall i :: 0 <= i < |r| ==> !IsUpperChar(r[i])
    ensures forall i :: 0 <= i < |s| && !IsUpperChar(s[i]) ==> r[i] == s[i]
  {
    seq(|s|, i requires 0 <= i < |s| => LowerChar(s[i]))
  }

  /** `s.isupper()`: some cased character, and no lower-case one. */
  function IsUpper(s: string): (b: bool)
    ensures b ==> s != []
  {
    (exists i :: 0 <= i < |s| && IsUpperChar(s[i])) &&
    (forall i :: 0 <= i < |s| ==> !IsLowerChar(s[i]))
  }

  /**
   * The scan behind `s.istitle()`: an upper-case letter may only follow an
   * uncased character, a lower-case letter only a cased one, and at least one
   * cased character must occur.
   */
  function TitleScan(s: string, previousCased: bool, cased: bool): (b: bool)
    ensures b ==> cased || s != []
    decreases |s|
  {
    if s == [] then cased
    else if IsUpperChar(s[0]) then !previousCased && TitleScan(s[1..], true, true)
    else if IsLowerChar(s[0]) then previousCased && TitleScan(s[1..], true, true)
    else TitleScan(s[1..], false, cased)
  }

  /** `s.istitle()` */
  function IsTitle(s: string): (b: bool)
    ensures b ==> s != [] && !IsLowerChar(s[0])
  {
    TitleScan(s, false, false)
  }

  /** `s.isdigit()`: non-empty and every character a digit. */
  function IsDigit(s: string): (b: bool)
    ensures b ==> s != []
  {
    |s| > 0 && forall i :: 0 <= i < |s| ==> IsDigitChar(s[i])
  }

  /** `any(char.isdigit() for char in s)` */
  function ContainsDigit(s: string): (b: bool)
    ensures IsDigit(s) ==> b
  {
    assert IsDigit(s) ==> IsDigitChar(s[0]);
    exists i :: 0 <= i < |s| && IsDigitChar(s[i])
  }

  /** `s[:n]` for a non-negative `n`: a prefix, the whole string when it is shorter. */
  function Head(s: string, n: nat): (r: string)
    ensures |r| == if |s| < n then |s| else n
    ensures r == s[..|r|]
  {
    if |s| <= n then s else s[..n]
  }

  /** `s[-n:]` for `n >= 1`: a suffix, the whole string when it is shorter. */
  function Tail(s: string, n: nat): (r: string)
    requires n >= 1
    ensures |r| == if |s| < n then |s| else n
    ensures r == s[|s| - |r|..]
  {
    if |s| <= n then s else s[|s| - n..]
  }

  /** The character of a decimal digit. */
  function DigitChar(d: nat): (c: char)
    requires d < 10
    ensures IsDigitChar(c)
  {
    ('0' as int + d) as char
  }

  /** `str(n)` for `n >= 0`: most significant digit first, no leading zeros. */
  function NatToString(n: nat): (s: string)
    ensures |s| >= 1
    ensures forall i :: 0 <= i < |s| ==> IsDigitChar(s[i])
    decreases n
  {
    if n < 10 then [DigitChar(n)] else NatToString(n / 10) + [DigitChar(n % 10)]
  }

  /** The value of a string of decimal digits; the inverse of NatToString. */
  function DigitsValue(s: string): nat
    requires forall i :: 0 <= i < |s| ==> IsDigitChar(s[i])
    decreases |s|
  {
    if s == [] then 0
    else
      assert IsDigitChar(s[|s| - 1]);
      DigitsValue(s[..|s| - 1]) * 10 + (s[|s| - 1] as int - '0' as int)
  }

  /** Reading the rendering of `n` back gives `n`. */
  lemma {:induction false} NatToStringRoundTrip(n: nat)
    ensures DigitsValue(NatToString(n)) == n
    decreases n
  {
    var s := NatToString(n);
    if n >= 10 {
      NatToStringRoundTrip(n / 10);
      assert s[..|s| - 1] == NatToString(n / 10);
    }
  }

  /** Different numbers render differently. */
  lemma NatToStringInjective(m: nat, n: nat)
    requires NatToString(m) == NatToString(n)
    ensures m == n
  {
    NatToStringRoundTrip(m);
    NatToStringRoundTrip(n);
  }

  /** `f"{n}"` for a Python int. */
  function IntToString(n: int): (s: string)
    ensures |s| >= 1
    ensures forall i :: 0 <= i < |s| ==> s[i] != ':'
    ensures n >= 0 ==> s == NatToString(n)
  {
    if n < 0 then "-" + NatToString(-n) else NatToString(n)
  }

  /**
   * Two strings that each end at their first ':' before the rest are equal
   * when the concatenations are: the colon marks where the head stops.
   */
  lemma SplitAtFirstColon(a: string, x: string, c: string, y: string)
    requires forall i :: 0 <= i < |a| ==> a[i] != ':'
    requires forall i :: 0 <= i < |c| ==> c[i] != ':'
    requires a + ":" + x == c + ":" + y
    ensures a == c && x == y
  {
    var s := a + ":" + x;
    assert s == c + ":" + y;
    assert s[|a|] == ':';
    assert s[|c|] == ':';
    assert forall i :: 0 <= i < |a| ==> s[i] != ':';
    assert forall i :: 0 <= i < |c| ==> s[i] != ':';
    assert a == s[..|a|];
    assert c == s[..|c|];
    assert x == s[|a| + 1..];
    assert y == s[|c| + 1..];
  }
}
