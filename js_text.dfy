/**
 * The JavaScript string and number built-ins the handlers and forms rely on,
 * restricted to what the model needs: ASCII lower-casing, whitespace
 * trimming, `Number.prototype.toString` and `parseInt` on integers, and
 * `String.prototype.replace` with a literal (non-regex) pattern, which
 * replaces only the FIRST occurrence.
 */
module JsText {
  import opened Wrappers

  predicate IsDigit(c: char) { '0' <= c <= '9' }

  predicate IsAsciiUpper(c: char) { 'A' <= c <= 'Z' }

  predicate IsAsciiLower(c: char) { 'a' <= c <= 'z' }

  /** The ASCII white-space characters that `trim` and `parseInt` skip. */
  predicate IsWhitespace(c: char) {
    c == ' ' || c == '\t' || c == '\n' || c == '\r' || c == '\U{000B}' || c == '\U{000C}'
  }

  predicate AllDigits(s: string) { forall i :: 0 <= i < |s| ==> IsDigit(s[i]) }

  /** `toLowerCase` on one character, ASCII only. */
  function LowerChar(c: char): (r: char)
    ensures !IsAsciiUpper(r)
    ensures IsAsciiUpper(c) ==> IsAsciiLower(r)
    ensures !IsAsciiUpper(c) ==> r == c
  {
    if IsAsciiUpper(c) then (c as int + 32) as char else c
  }

  /** `String.prototype.toLowerCase`, ASCII only. */
  function ToLowerCase(s: string): (r: string)
    ensures |r| == |s|
    ensures forall i :: 0 <= i < |s| ==> r[i] == LowerChar(s[i])
  {
    seq(|s|, i requires 0 <= i < |s| => LowerChar(s[i]))
  }

  function DigitChar(d: nat): (c: char)
    requires d < 10
    ensures IsDigit(c)
  {
    ('0' as int + d) as char
  }

  function DigitValue(c: char): (d: nat)
    requires IsDigit(c)
    ensures d < 10
  {
    c as int - '0' as int
  }

  /** The decimal digits of `n`, most significant first, without leading zeros. */
  function NatToDecimal(n: nat): (s: string)
    ensures |s| > 0 && AllDigits(s)
    ensures |s| > 1 ==> s[0] != '0'
  {
    if n < 10 then [DigitChar(n)] else NatToDecimal(n / 10) + [DigitChar(n % 10)]
  }

  /** The number a string of decimal digits denotes. */
  function DecimalValue(s: string): nat
    requires AllDigits(s)
  {
    if s == [] then 0 else 10 * DecimalValue(s[..|s| - 1]) + DigitValue(s[|s| - 1])
  }

  /** `Number.prototype.toString` on an integer. */
  function IntToString(n: int): string {
    if n < 0 then "-" + NatToDecimal(-n) else NatToDecimal(n)
  }

  /** The length of the leading run of white space. */
  function LeadingSpaces(s: string): (n: nat)
    ensures n <= |s|
  {
    if s != [] && IsWhitespace(s[0]) then 1 + LeadingSpaces(s[1..]) else 0
  }

  /** Drops leading white space. */
  function TrimStart(s: string): (r: string)
    ensures r == s[LeadingSpaces(s)..]
    ensures r == [] || !IsWhitespace(r[0])
    ensures forall i :: 0 <= i < LeadingSpaces(s) ==> IsWhitespace(s[i])
  {
    if s != [] && IsWhitespace(s[0]) then TrimStart(s[1..]) else s
  }

  /** Drops trailing white space. */
  function TrimEnd(s: string): (r: string)
    ensures |r| <= |s| && r == s[..|r|]
    ensures r == [] || !IsWhitespace(r[|r| - 1])
    ensures forall i :: |r| <= i < |s| ==> IsWhitespace(s[i])
  {
    if s != [] && IsWhitespace(s[|s| - 1]) then TrimEnd(s[..|s| - 1]) else s
  }

  /** `String.prototype.trim`. */
  function Trim(s: string): (r: string)
    ensures r == [] || (!IsWhitespace(r[0]) && !IsWhitespace(r[|r| - 1]))
    ensures (forall i :: 0 <= i < |s| ==> IsWhitespace(s[i])) <==> r == []
    ensures LeadingSpaces(s) + |r| <= |s| && r == s[LeadingSpaces(s)..LeadingSpaces(s) + |r|]
    ensures forall i :: LeadingSpaces(s) + |r| <= i < |s| ==> IsWhitespace(s[i])
  {
    var t := TrimStart(s);
    var r := TrimEnd(t);
    var a := LeadingSpaces(s);
    assert a + |r| <= |s| && r == s[a..a + |r|] by {
      assert r == t[..|r|];
      assert s[a..][..|r|] == s[a..a + |r|];
    }
    assert forall i :: a + |r| <= i < |s| ==> IsWhitespace(s[i]) by {
      forall i | a + |r| <= i < |s| ensures IsWhitespace(s[i]) {
        assert s[i] == t[i - a];
      }
    }
    assert r == [] || (!IsWhitespace(r[0]) && !IsWhitespace(r[|r| - 1])) by {
      assert r == [] || r[0] == t[0];
    }
    assert (forall i :: 0 <= i < |s| ==> IsWhitespace(s[i])) <==> r == [] by {
      if r == [] {
        forall i | 0 <= i < |s| ensures IsWhitespace(s[i]) { }
      } else {
        assert !IsWhitespace(s[a]);
      }
    }
    r
  }

  /** The longest prefix of `s` made of decimal digits. */
  function DigitPrefix(s: string): (d: string)
    ensures |d| <= |s| && d == s[..|d|] && AllDigits(d)
    ensures |d| < |s| ==> !IsDigit(s[|d|])
  {
    if s != [] && IsDigit(s[0]) then [s[0]] + DigitPrefix(s[1..]) else []
  }

  /**
   * `parseInt(s)` without a radix, for decimal input: leading white space is
   * skipped, one optional sign is read, then the longest digit prefix; no
   * digit at all is `NaN`, here `None`.
   */
  function ParseInt(s: string): Option<int> {
    var t := TrimStart(s);
    var signed := |t| > 0 && (t[0] == '-' || t[0] == '+');
    var negative := |t| > 0 && t[0] == '-';
    var d := DigitPrefix(if signed then t[1..] else t);
    if d == [] then None
    else
      var v: int := DecimalValue(d);
      Some(if negative then -v else v)
  }

  lemma {:induction false} DecimalRoundTrip(n: nat)
    ensures DecimalValue(NatToDecimal(n)) == n
  {
    if n >= 10 {
      var s := NatToDecimal(n);
      DecimalRoundTrip(n / 10);
      assert s[..|s| - 1] == NatToDecimal(n / 10);
    }
  }

  lemma DigitPrefixOfDigits(s: string)
    requires AllDigits(s)
    ensures DigitPrefix(s) == s
  {
  }

  /** Reading back what `toString` wrote gives the same integer. */
  lemma ParseIntOfToString(n: int)
    ensures ParseInt(IntToString(n)) == Some(n)
  {
    var s := IntToString(n);
    var m: nat := if n < 0 then -n else n;
    var d := NatToDecimal(m);
    DecimalRoundTrip(m);
    DigitPrefixOfDigits(d);
    assert !IsWhitespace(s[0]);
    assert TrimStart(s) == s;
    if n < 0 {
      assert s[1..] == d;
    } else {
      assert s == d;
    }
  }

  /** A string without a single digit parses to `NaN`. */
  lemma ParseIntWithoutDigits(s: string)
    requires forall i :: 0 <= i < |s| ==> !IsDigit(s[i])
    ensures ParseInt(s) == None
  {
    var t := TrimStart(s);
    assert forall i :: 0 <= i < |t| ==> t[i] == s[|s| - |t| + i];
    if |t| > 0 && (t[0] == '-' || t[0] == '+') {
      assert |t[1..]| == 0 || t[1..][0] == t[1];
    }
  }

  /** `pat` occurs in `s` at position `i`. */
  predicate OccursAt(s: string, pat: string, i: nat) {
    i + |pat| <= |s| && s[i..i + |pat|] == pat
  }

  /** `s.indexOf(pat, from)`: the first occurrence at or after `from`. */
  function IndexOfFrom(s: string, pat: string, from: nat): (r: Option<nat>)
    requires from <= |s|
    ensures r.Some? ==> from <= r.value && OccursAt(s, pat, r.value)
    ensures r.Some? ==> forall j :: from <= j < r.value ==> !OccursAt(s, pat, j)
    ensures r.None? ==> forall j :: from <= j <= |s| ==> !OccursAt(s, pat, j)
    decreases |s| - from
  {
    if OccursAt(s, pat, from) then Some(from)
    else if from == |s| then None
    else IndexOfFrom(s, pat, from + 1)
  }

  function IndexOf(s: string, pat: string): Option<nat> {
    IndexOfFrom(s, pat, 0)
  }

  /** `s.replace(pat, rep)` with a string pattern: only the first occurrence is replaced. */
  function ReplaceFirst(s: string, pat: string, rep: string): string {
    match IndexOf(s, pat)
    case None => s
    case Some(i) => s[..i] + rep + s[i + |pat|..]
  }

  /** `x || ''`: an absent (NULL) text is shown as the empty string. */
  function OrEmpty(s: Option<string>): (r: string)
    ensures s.None? ==> r == ""
    ensures s.Some? ==> r == s.value
  {
    if s.Some? then s.value else ""
  }

  /** `s || undefined`: the empty string is sent as absent. */
  function NonEmpty(s: string): (r: Option<string>)
    ensures r.None? <==> s == ""
    ensures r.Some? ==> r.value == s
  {
    if s == "" then None else Some(s)
  }

  /** A NULL column and an empty one both come back as absent once shown and sent again. */
  function NullIfEmpty(s: Option<string>): (r: Option<string>)
    ensures r == NonEmpty(OrEmpty(s))
  {
    if s == Some("") then None else s
  }
}
