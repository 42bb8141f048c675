/** String helpers with the semantics of the JavaScript built-ins the
    application calls: `toLowerCase` (ASCII letters only), `includes`,
    `trim`, integer-to-string conversion and `parseInt(s, 10)`. */
module Strings {
  import opened Wrappers

  // ---------------------------------------------------------------------
  // Case folding and substring search
  // ---------------------------------------------------------------------

  function LowerChar(c: char): char
  {
    if 'A' <= c <= 'Z' then (c as int + 32) as char else c
  }

  /** `toLowerCase`, restricted to ASCII letters. */
  function ToLower(s: string): (r: string)
    ensures |r| == |s|
    ensures forall i :: 0 <= i < |s| ==> r[i] == LowerChar(s[i])
    ensures forall i :: 0 <= i < |r| ==> !('A' <= r[i] <= 'Z')
  {
    if s == [] then [] else [LowerChar(s[0])] + ToLower(s[1..])
  }

  /** Lower-casing twice is lower-casing once. */
  lemma ToLowerIdempotent(s: string)
    ensures ToLower(ToLower(s)) == ToLower(s)
  {
  }

  predicate IsPrefix(p: string, s: string)
  {
    |p| <= |s| && s[..|p|] == p
  }

  /** `s.includes(t)`: `t` occurs in `s` at some offset. */
  predicate Contains(s: string, t: string)
    decreases |s|
  {
    IsPrefix(t, s) || (|s| > 0 && Contains(s[1..], t))
  }

  /** An occurrence of `t` at offset `k` of `s` is found. */
  lemma {:induction false} ContainsAt(s: string, t: string, k: nat)
    requires k + |t| <= |s| && s[k..k + |t|] == t
    ensures Contains(s, t)
    decreases k
  {
    if k > 0 {
      assert s[1..][k - 1..k - 1 + |t|] == s[k..k + |t|];
      ContainsAt(s[1..], t, k - 1);
    }
  }

  /** `t` occurs in `s` at offset `k`. */
  predicate OccursAt(s: string, t: string, k: int)
  {
    0 <= k && k + |t| <= |s| && s[k..k + |t|] == t
  }

  /** `s.includes(t)` holds exactly when `t` occurs at some offset. */
  lemma {:induction false} ContainsIff(s: string, t: string)
    ensures Contains(s, t) <==> exists k :: OccursAt(s, t, k)
    decreases |s|
  {
    if exists k :: OccursAt(s, t, k) {
      var k :| OccursAt(s, t, k);
      ContainsAt(s, t, k);
    }
    if IsPrefix(t, s) {
      assert OccursAt(s, t, 0);
    } else if Contains(s, t) {
      ContainsIff(s[1..], t);
      var k :| OccursAt(s[1..], t, k);
      assert s[k + 1..k + 1 + |t|] == s[1..][k..k + |t|];
      assert OccursAt(s, t, k + 1);
    }
  }

  /** A nonempty `t` whose first character never appears in `s` does not
      occur in `s`. */
  lemma {:induction false} NotContainsWithoutFirst(s: string, t: string)
    requires |t| > 0 && forall i :: 0 <= i < |s| ==> s[i] != t[0]
    ensures !Contains(s, t)
    decreases |s|
  {
    if |s| > 0 {
      if |t| <= |s| {
        assert s[..|t|][0] == s[0];
      }
      NotContainsWithoutFirst(s[1..], t);
    }
  }

  // ---------------------------------------------------------------------
  // Whitespace and trim
  // ---------------------------------------------------------------------

  /** The ECMAScript WhiteSpace and LineTerminator code points, which
      `trim` removes and `parseInt` skips. */
  predicate IsWhitespace(c: char)
  {
    c == '\t' || c == '\n' || c == '\U{B}' || c == '\U{C}' || c == '\r' || c == ' ' ||
    c == '\U{A0}' || c == '\U{1680}' || ('\U{2000}' <= c <= '\U{200A}') ||
    c == '\U{2028}' || c == '\U{2029}' || c == '\U{202F}' || c == '\U{205F}' ||
    c == '\U{3000}' || c == '\U{FEFF}'
  }

  predicate IsBlank(s: string)
  {
    forall i :: 0 <= i < |s| ==> IsWhitespace(s[i])
  }

  function TrimStart(s: string): (r: string)
    ensures |r| <= |s| && r == s[|s| - |r|..]
    ensures IsBlank(s[..|s| - |r|])
    ensures r == [] || !IsWhitespace(r[0])
  {
    if s != [] && IsWhitespace(s[0]) then TrimStart(s[1..]) else s
  }

  function TrimEnd(s: string): (r: string)
    ensures |r| <= |s| && r == s[..|r|]
    ensures IsBlank(s[|r|..])
    ensures r == [] || !IsWhitespace(r[|r| - 1])
  {
    if s != [] && IsWhitespace(s[|s| - 1]) then TrimEnd(s[..|s| - 1]) else s
  }

  /** `trim`: whitespace removed at both ends. */
  function Trim(s: string): (r: string)
  {
    TrimEnd(TrimStart(s))
  }

  /** A string trims to the empty string exactly when it is all whitespace. */
  lemma TrimEmptyIffBlank(s: string)
    ensures Trim(s) == [] <==> IsBlank(s)
  {
    var t := TrimStart(s);
    if IsBlank(s) {
      assert IsBlank(t);
    }
    if Trim(s) == [] {
      assert IsBlank(t[|TrimEnd(t)|..]);
      assert t == [];
      assert s[..|s| - |t|] == s;
    }
  }

  // ---------------------------------------------------------------------
  // Decimal digits
  // ---------------------------------------------------------------------

  predicate IsDigit(c: char)
  {
    '0' <= c <= '9'
  }

  function DigitChar(d: nat): (c: char)
    requires d < 10
    ensures IsDigit(c)
  {
    ('0' as int + d) as char
  }

  function DigitValue(c: char): (d: nat)
    requires IsDigit(c)
    ensures d < 10 && DigitChar(d) == c
  {
    c as int - '0' as int
  }

  /** Shortest decimal spelling of a natural number. */
  function NatToString(n: nat): (r: string)
    ensures |r| > 0
    ensures forall i :: 0 <= i < |r| ==> IsDigit(r[i])
    decreases n
  {
    if n < 10 then [DigitChar(n)] else NatToString(n / 10) + [DigitChar(n % 10)]
  }

  /** The value of a string of decimal digits. */
  function DigitsValue(s: string): nat
    requires forall i :: 0 <= i < |s| ==> IsDigit(s[i])
  {
    if s == [] then 0 else DigitsValue(s[..|s| - 1]) * 10 + DigitValue(s[|s| - 1])
  }

  /** Template-literal rendering of an integer-valued number (`${n}`). */
  function IntToString(n: int): (r: string)
  {
    if n < 0 then "-" + NatToString(-n) else NatToString(n)
  }

  // ---------------------------------------------------------------------
  // parseInt(s, 10)
  // ---------------------------------------------------------------------

  /** Length of the longest prefix of `s` made of decimal digits. */
  function DigitPrefixLength(s: string): (k: nat)
    ensures k <= |s|
    ensures forall i :: 0 <= i < k ==> IsDigit(s[i])
    ensures k == |s| || !IsDigit(s[k])
  {
    if s != [] && IsDigit(s[0]) then 1 + DigitPrefixLength(s[1..]) else 0
  }

  /** The value of the longest digit prefix of `u`, if it is not empty. */
  function LeadingDigits(u: string): Option<int>
  {
    var k := DigitPrefixLength(u);
    if k == 0 then None else Some(DigitsValue(u[..k]))
  }

  function Negate(r: Option<int>): Option<int>
  {
    match r
    case None => None
    case Some(v) => Some(-v)
  }

  /** `parseInt(s, 10)`: leading whitespace is skipped, one optional sign is
      read, then the longest run of decimal digits; anything after it is
      ignored. `None` stands for `NaN` (no digit after the sign). */
  function ParseInt(s: string): Option<int>
  {
    ParseSigned(TrimStart(s))
  }

  /** The part of `parseInt` after the leading whitespace. */
  function ParseSigned(t: string): Option<int>
  {
    if t != [] && t[0] == '-' then Negate(LeadingDigits(t[1..]))
    else if t != [] && t[0] == '+' then LeadingDigits(t[1..])
    else LeadingDigits(t)
  }

  lemma {:induction false} NatToStringRoundTrip(n: nat)
    ensures DigitsValue(NatToString(n)) == n
    decreases n
  {
    var r := NatToString(n);
    if n >= 10 {
      NatToStringRoundTrip(n / 10);
      assert r[..|r| - 1] == NatToString(n / 10);
    }
  }

  lemma {:induction false} DigitPrefixOfDigits(u: string)
    requires forall i :: 0 <= i < |u| ==> IsDigit(u[i])
    ensures DigitPrefixLength(u) == |u|
  {
    if u != [] {
      DigitPrefixOfDigits(u[1..]);
    }
  }

  /** A run of digits with nothing around it parses to its value. */
  lemma ParseDigits(u: string)
    requires u != [] && forall i :: 0 <= i < |u| ==> IsDigit(u[i])
    ensures ParseInt(u) == Some(DigitsValue(u) as int)
  {
    assert !IsWhitespace(u[0]);
    TrimStartUnchanged(u);
    LeadingAllDigits(u);
  }

  lemma TrimStartUnchanged(s: string)
    requires s != [] && !IsWhitespace(s[0])
    ensures TrimStart(s) == s
  {
  }

  lemma ParseMinus(t: string)
    requires t != [] && t[0] == '-'
    ensures ParseSigned(t) == Negate(LeadingDigits(t[1..]))
  {
  }

  lemma LeadingAllDigits(u: string)
    requires u != [] && forall i :: 0 <= i < |u| ==> IsDigit(u[i])
    ensures LeadingDigits(u) == Some(DigitsValue(u) as int)
  {
    DigitPrefixOfDigits(u);
    assert u[..|u|] == u;
  }

  /** The same run after a minus sign parses to its value negated. */
  lemma ParseNegativeDigits(u: string)
    requires u != [] && forall i :: 0 <= i < |u| ==> IsDigit(u[i])
    ensures ParseInt("-" + u) == Some(-(DigitsValue(u) as int))
  {
    var m := "-" + u;
    assert m[0] == '-' && m[1..] == u;
    ParseMinusRun(m, u);
  }

  /** A minus sign followed by a run of digits `u` parses to `-u`. */
  lemma ParseMinusRun(m: string, u: string)
    requires m != [] && m[0] == '-' && m[1..] == u
    requires u != [] && forall i :: 0 <= i < |u| ==> IsDigit(u[i])
    ensures ParseInt(m) == Some(-(DigitsValue(u) as int))
  {
    TrimStartUnchanged(m);
    ParseMinus(m);
    LeadingAllDigits(u);
  }

  /** `parseInt` reads back exactly the integer that `${n}` printed. */
  lemma IntToStringRoundTrip(n: int)
    ensures ParseInt(IntToString(n)) == Some(n)
  {
    var a := if n < 0 then -n else n;
    NatToStringRoundTrip(a);
    if n < 0 {
      ParseNegativeDigits(NatToString(a));
    } else {
      ParseDigits(NatToString(a));
    }
  }

  /** Distinct integers are printed differently. */
  lemma IntToStringInjective(m: int, n: int)
    requires IntToString(m) == IntToString(n)
    ensures m == n
  {
    IntToStringRoundTrip(m);
    IntToStringRoundTrip(n);
  }
}
