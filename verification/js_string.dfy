/** The string primitives of the JavaScript runtime the screens rely on:
    `trim`, `toLowerCase`, `includes`, `split('T')[0]`, `replace` with a
    regular expression that has no `g` flag, and the decimal rendering of an
    index used to build error-map keys. Strings are sequences of characters;
    a character outside the Basic Multilingual Plane counts once here where
    JavaScript counts two UTF-16 code units. */
module JsString {

  /** `\s` in a regular expression, which is also the set `trim` removes:
      the WhiteSpace and LineTerminator code points. */
  predicate IsSpace(c: char) {
    || c == '\t' || c == '\n' || c == '\U{000B}' || c == '\U{000C}' || c == '\r'
    || c == ' ' || c == '\U{00A0}' || c == '\U{1680}'
    || ('\U{2000}' <= c <= '\U{200A}')
    || c == '\U{2028}' || c == '\U{2029}' || c == '\U{202F}' || c == '\U{205F}'
    || c == '\U{3000}' || c == '\U{FEFF}'
  }

  /** `\d`: the ASCII digits only. */
  predicate IsDigit(c: char) {
    '0' <= c <= '9'
  }

  predicate AllSpaces(s: string) {
    forall i :: 0 <= i < |s| ==> IsSpace(s[i])
  }

  predicate AllDigits(s: string) {
    forall i :: 0 <= i < |s| ==> IsDigit(s[i])
  }

  /** Leading white space removed. */
  function TrimStart(s: string): (r: string)
    ensures |r| <= |s| && r == s[|s| - |r|..]
    ensures AllSpaces(s[..|s| - |r|])
    ensures r == "" || !IsSpace(r[0])
  {
    if s != "" && IsSpace(s[0]) then TrimStart(s[1..]) else s
  }

  /** Trailing white space removed. */
  function TrimEnd(s: string): (r: string)
    ensures |r| <= |s| && r == s[..|r|]
    ensures AllSpaces(s[|r|..])
    ensures r == "" || !IsSpace(r[|r| - 1])
  {
    if s != "" && IsSpace(s[|s| - 1]) then TrimEnd(s[..|s| - 1]) else s
  }

  /** `String.prototype.trim`: white space removed from both ends, so the
      result neither starts nor ends with white space. */
  function Trim(s: string): (r: string)
    ensures |r| <= |s|
    ensures r == "" || (!IsSpace(r[0]) && !IsSpace(r[|r| - 1]))
  {
    TrimEnd(TrimStart(s))
  }

  /** `r` sits at offset `k` of `s` with only white space around it. */
  predicate InfixAt(s: string, r: string, k: int) {
    0 <= k <= |s| - |r| && r == s[k..k + |r|] && AllSpaces(s[..k]) && AllSpaces(s[k + |r|..])
  }

  /** What `trim` removes is white space only, from both ends. */
  lemma TrimIsInfix(s: string)
    ensures exists k :: InfixAt(s, Trim(s), k)
  {
    var a := TrimStart(s);
    InfixFromEnds(s, a, TrimEnd(a));
    assert InfixAt(s, Trim(s), |s| - |a|);
  }

  /** A suffix `a` of `s` after white space, and a prefix `r` of `a` before
      white space, make `r` an infix of `s` with white space around it. */
  lemma InfixFromEnds(s: string, a: string, r: string)
    requires |a| <= |s| && a == s[|s| - |a|..] && AllSpaces(s[..|s| - |a|])
    requires |r| <= |a| && r == a[..|r|] && AllSpaces(a[|r|..])
    ensures InfixAt(s, r, |s| - |a|)
  {
    var k := |s| - |a|;
    assert s[k..k + |r|] == r;
    assert s[k + |r|..] == a[|r|..];
  }

  /** When the trimmed text has two characters or more, its two ends are
      two distinct non-blank characters of the original. */
  lemma TrimEndsNotBlank(s: string)
    requires |Trim(s)| >= 2
    ensures exists i, j :: 0 <= i < j < |s| && !IsSpace(s[i]) && !IsSpace(s[j])
  {
    var a := TrimStart(s);
    var r := TrimEnd(a);
    var k := |s| - |a|;
    assert a[0] == s[k] && a[|r| - 1] == s[k + |r| - 1];
    assert !IsSpace(s[k]) && !IsSpace(s[k + |r| - 1]);
  }

  /** A string trims to "" exactly when it is made of white space only;
      this is when the screens' `!x.trim()` tests report a missing field. */
  lemma {:induction false} TrimEmptyIffAllSpaces(s: string)
    ensures Trim(s) == "" <==> AllSpaces(s)
  {
    var a := TrimStart(s);
    if AllSpaces(s) {
      TrimStartAllSpaces(s);
    } else {
      var i :| 0 <= i < |s| && !IsSpace(s[i]);
      assert s[..|s|] == s;
      assert a != "";
      assert !IsSpace(a[0]);
      assert TrimEnd(a) != "";
    }
  }

  lemma {:induction false} TrimStartAllSpaces(s: string)
    requires AllSpaces(s)
    ensures TrimStart(s) == ""
    decreases |s|
  {
    if s != "" {
      assert AllSpaces(s[1..]) by {
        forall i | 0 <= i < |s[1..]| ensures IsSpace(s[1..][i]) {
          assert s[1..][i] == s[i + 1];
        }
      }
      TrimStartAllSpaces(s[1..]);
    }
  }

  /** A string with no white space at either end is its own trim. */
  lemma TrimOfTrimmed(s: string)
    requires s == "" || (!IsSpace(s[0]) && !IsSpace(s[|s| - 1]))
    ensures Trim(s) == s
  {
  }

  /** `toLowerCase` on the characters that occur in the screens' data:
      ASCII capitals and the Latin-1 capitals U+00C0..U+00DE (except the
      multiplication sign U+00D7) move 32 code points down; every other
      character is left as it is. */
  function LowerChar(c: char): (r: char)
    ensures IsSpace(r) <==> IsSpace(c)
    ensures IsDigit(r) <==> IsDigit(c)
    ensures !('A' <= r <= 'Z')
  {
    if 'A' <= c <= 'Z' || ('\U{00C0}' <= c <= '\U{00DE}' && c != '\U{00D7}') then
      (c as int + 32) as char
    else
      c
  }

  function ToLower(s: string): (r: string)
    ensures |r| == |s|
    ensures forall i :: 0 <= i < |s| ==> r[i] == LowerChar(s[i])
  {
    if s == "" then "" else [LowerChar(s[0])] + ToLower(s[1..])
  }

  /** Lower-casing twice is lower-casing once. */
  lemma ToLowerIdempotent(s: string)
    ensures ToLower(ToLower(s)) == ToLower(s)
  {
    forall i | 0 <= i < |s| ensures LowerChar(LowerChar(s[i])) == LowerChar(s[i]) {
    }
  }

  /** `s.includes(sub)`: `sub` occurs in `s` at some position. */
  predicate Includes(s: string, sub: string) {
    exists i :: 0 <= i <= |s| - |sub| && OccursAt(s, sub, i)
  }

  predicate OccursAt(s: string, sub: string, i: int) {
    0 <= i <= |s| - |sub| && s[i..i + |sub|] == sub
  }

  /** Every string includes the empty string. */
  lemma IncludesEmpty(s: string)
    ensures Includes(s, "")
  {
    assert OccursAt(s, "", 0);
  }

  /** A string includes itself. */
  lemma IncludesSelf(s: string)
    ensures Includes(s, s)
  {
    assert OccursAt(s, s, 0);
  }

  /** `s.split('T')[0]`: everything before the first 'T', or the whole string
      when it has none. */
  function BeforeT(s: string): (r: string)
    ensures r <= s
    ensures 'T' !in r
    ensures |r| < |s| ==> s[|r|] == 'T'
  {
    if s == "" || s[0] == 'T' then "" else [s[0]] + BeforeT(s[1..])
  }

  /** Splitting a string that holds no 'T' gives the string back; in
      particular splitting an already split date changes nothing. */
  lemma BeforeTNoT(s: string)
    requires 'T' !in s
    ensures BeforeT(s) == s
  {
    assert forall i :: 0 <= i < |s| ==> s[i] != 'T';
  }

  /** The index of the first character that fails `keep`, or |s| if none. */
  function FirstFailing(s: string, keep: char -> bool): (k: nat)
    ensures k <= |s|
    ensures forall j :: 0 <= j < k ==> keep(s[j])
    ensures k < |s| ==> !keep(s[k])
  {
    if s == "" then 0
    else if !keep(s[0]) then 0
    else 1 + FirstFailing(s[1..], keep)
  }

  /** `s.replace(/[^...]/, "")` with a regular expression that has no `g`
      flag: only the FIRST character outside the class is deleted; later
      ones survive. */
  function RemoveFirstFailing(s: string, keep: char -> bool): (r: string)
    ensures (forall i :: 0 <= i < |s| ==> keep(s[i])) ==> r == s
    ensures (exists i :: 0 <= i < |s| && !keep(s[i])) ==>
              |r| == |s| - 1
              && exists k :: 0 <= k < |s| && !keep(s[k])
                             && (forall j :: 0 <= j < k ==> keep(s[j]))
                             && r == s[..k] + s[k + 1..]
  {
    var k := FirstFailing(s, keep);
    if k == |s| then s else s[..k] + s[k + 1..]
  }

  function DigitChar(d: nat): (c: char)
    requires d < 10
    ensures IsDigit(c)
  {
    (48 + d) as char
  }

  /** The decimal rendering JavaScript gives a non-negative integer in a
      template literal (`${index}`). */
  function NatToString(n: nat): (r: string)
    ensures |r| >= 1 && AllDigits(r)
    ensures n < 10 <==> |r| == 1
  {
    if n < 10 then [DigitChar(n)] else NatToString(n / 10) + [DigitChar(n % 10)]
  }

  /** Different indices render differently, so row error keys never clash. */
  lemma {:induction false} NatToStringInjective(m: nat, n: nat)
    requires NatToString(m) == NatToString(n)
    ensures m == n
  {
    var sm, sn := NatToString(m), NatToString(n);
    if m < 10 || n < 10 {
      assert m < 10 && n < 10;
      assert sm[0] == sn[0];
    } else {
      assert sm[|sm| - 1] == sn[|sn| - 1];
      assert m % 10 == n % 10;
      assert NatToString(m / 10) == sm[..|sm| - 1] == sn[..|sn| - 1] == NatToString(n / 10);
      NatToStringInjective(m / 10, n / 10);
    }
  }

  /** The value of a string of ASCII digits read in base ten. */
  function DigitsValue(s: string): nat
    requires AllDigits(s)
  {
    if s == "" then 0 else 10 * DigitsValue(s[..|s| - 1]) + (s[|s| - 1] as int - 48)
  }

  /** A digit string reads as zero exactly when every digit is '0'. */
  lemma {:induction false} DigitsValueZero(s: string)
    requires AllDigits(s)
    ensures DigitsValue(s) == 0 <==> forall i :: 0 <= i < |s| ==> s[i] == '0'
  {
    if s != "" {
      var p := s[..|s| - 1];
      assert AllDigits(p) by {
        forall i | 0 <= i < |p| ensures IsDigit(p[i]) { assert p[i] == s[i]; }
      }
      DigitsValueZero(p);
      if DigitsValue(s) == 0 {
        forall i | 0 <= i < |s| ensures s[i] == '0' {
          if i < |s| - 1 { assert p[i] == s[i]; }
        }
      }
    }
  }
}
