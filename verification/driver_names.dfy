// Driver names inside free-text event descriptions, found with the pattern
// `[A-Z]\.\s[A-Z][a-z]+` (an initial, a dot, one white-space character, a
// capitalised surname). The race view uses the first match to learn who set
// the fastest lap, and every match to highlight the drivers of an event.

module DriverNames {
  import opened Wrappers
  import opened Strings

  /** `[A-Z]` and `[a-z]` in a pattern without the `i` flag: ASCII letters only. */
  predicate IsUpperAscii(c: char) { 'A' <= c <= 'Z' }
  predicate IsLowerAscii(c: char) { 'a' <= c <= 'z' }

  /** A whole name as the pattern describes it, e.g. "L. Norris". `\s`
      matches the same characters `trim` removes. */
  predicate NameShaped(t: string)
  {
    && |t| >= 5
    && IsUpperAscii(t[0]) && t[1] == '.' && IsWhitespace(t[2]) && IsUpperAscii(t[3])
    && (forall j :: 4 <= j < |t| ==> IsLowerAscii(t[j]))
  }

  /** The pattern can start matching at offset `i`. */
  predicate NameStartsAt(s: string, i: int)
  {
    && 0 <= i && i + 5 <= |s|
    && IsUpperAscii(s[i]) && s[i + 1] == '.' && IsWhitespace(s[i + 2]) && IsUpperAscii(s[i + 3])
    && IsLowerAscii(s[i + 4])
  }

  /** `t` is the match found at offset `i`: a name, and, because `+` is
      greedy, not followed by another lower-case letter. */
  predicate NameAt(s: string, i: int, t: string)
  {
    && 0 <= i && i + |t| <= |s| && s[i..i + |t|] == t && NameShaped(t)
    && (i + |t| == |s| || !IsLowerAscii(s[i + |t|]))
  }

  /** The number of lower-case letters in a row from offset `k`. */
  function LowerRun(s: string, k: nat): (n: nat)
    requires k <= |s|
    ensures k + n <= |s|
    ensures forall j :: k <= j < k + n ==> IsLowerAscii(s[j])
    ensures k + n == |s| || !IsLowerAscii(s[k + n])
    decreases |s| - k
  {
    if k < |s| && IsLowerAscii(s[k]) then 1 + LowerRun(s, k + 1) else 0
  }

  /** The match at an offset where the pattern can start. */
  function MatchAt(s: string, i: nat): (t: string)
    requires NameStartsAt(s, i)
    ensures NameAt(s, i, t)
  {
    var n := 4 + LowerRun(s, i + 4);
    var t := s[i..i + n];
    assert forall j :: 4 <= j < |t| ==> t[j] == s[i + j];
    t
  }

  /** A match is found at an offset exactly when the pattern can start
      there, and it is then the one `MatchAt` takes. */
  lemma NameAtIff(s: string, i: nat, t: string)
    ensures NameAt(s, i, t) <==> NameStartsAt(s, i) && t == MatchAt(s, i)
  {
    if NameAt(s, i, t) {
      assert s[i + 4] == t[4];
      var m := MatchAt(s, i);
      assert |m| == |t|;
    }
  }

  /** The first match from offset `i` onwards. */
  function FirstNameFrom(s: string, i: nat): (r: Option<string>)
    requires i <= |s|
    ensures r.None? <==> forall j :: i <= j < |s| ==> !NameStartsAt(s, j)
    ensures r.Some? ==> exists k :: i <= k < |s| && NameAt(s, k, r.value) &&
                                   (forall j :: i <= j < k ==> !NameStartsAt(s, j))
    decreases |s| - i
  {
    if i == |s| then None
    else if NameStartsAt(s, i) then Some(MatchAt(s, i))
    else FirstNameFrom(s, i + 1)
  }

  /** `description.match(pattern)?.[0]`: the leftmost name in the text. */
  function FirstName(s: string): (r: Option<string>)
    ensures r.None? <==> forall j :: 0 <= j < |s| ==> !NameStartsAt(s, j)
    ensures r.Some? ==> exists k :: 0 <= k < |s| && NameAt(s, k, r.value) &&
                                   (forall j :: 0 <= j < k ==> !NameStartsAt(s, j))
  {
    FirstNameFrom(s, 0)
  }

  /** A name on its own is found whole. */
  lemma FirstNameOfName(t: string)
    requires NameShaped(t)
    ensures FirstName(t) == Some(t)
  {
    assert NameStartsAt(t, 0);
    assert t[0..|t|] == t;
    assert NameAt(t, 0, t);
    NameAtIff(t, 0, t);
  }

  /** Every name in the text from offset `i`, left to right, each search
      resuming after the previous match (`match` with the `g` flag). */
  function AllNamesFrom(s: string, i: nat): (r: seq<string>)
    requires i <= |s|
    ensures forall k :: 0 <= k < |r| ==> NameShaped(r[k])
    ensures r == [] <==> forall j :: i <= j < |s| ==> !NameStartsAt(s, j)
    decreases |s| - i
  {
    if i == |s| then []
    else if NameStartsAt(s, i) then
      var t := MatchAt(s, i);
      [t] + AllNamesFrom(s, i + |t|)
    else AllNamesFrom(s, i + 1)
  }

  /** From any offset, the list starts with the leftmost match after it
      and goes on with the matches found from the end of that one. */
  lemma {:induction false} AllNamesFromStep(s: string, i: nat, k: nat)
    requires i <= k && NameStartsAt(s, k)
    requires forall j :: i <= j < k ==> !NameStartsAt(s, j)
    ensures AllNamesFrom(s, i) == [MatchAt(s, k)] + AllNamesFrom(s, k + |MatchAt(s, k)|)
    decreases k - i
  {
    if i < k {
      AllNamesFromSkip(s, i);
      AllNamesFromStep(s, i + 1, k);
    } else {
      AllNamesFromMatch(s, k);
    }
  }

  lemma AllNamesFromSkip(s: string, i: nat)
    requires i < |s| && !NameStartsAt(s, i)
    ensures AllNamesFrom(s, i) == AllNamesFrom(s, i + 1)
  {
  }

  lemma AllNamesFromMatch(s: string, k: nat)
    requires NameStartsAt(s, k)
    ensures AllNamesFrom(s, k) == [MatchAt(s, k)] + AllNamesFrom(s, k + |MatchAt(s, k)|)
  {
  }

  /** The drivers an event involves: every name in its description, the
      leftmost first, then those after the end of the leftmost. */
  function AllNames(s: string): (r: seq<string>)
    ensures forall k :: 0 <= k < |r| ==> NameShaped(r[k])
    ensures r == [] <==> FirstName(s).None?
    ensures forall k :: NameStartsAt(s, k) && (forall j :: 0 <= j < k ==> !NameStartsAt(s, j)) ==>
      r == [MatchAt(s, k)] + AllNamesFrom(s, k + |MatchAt(s, k)|)
  {
    forall k | NameStartsAt(s, k) && (forall j :: 0 <= j < k ==> !NameStartsAt(s, j))
      ensures AllNamesFrom(s, 0) == [MatchAt(s, k)] + AllNamesFrom(s, k + |MatchAt(s, k)|)
    {
      AllNamesFromStep(s, 0, k);
    }
    AllNamesFrom(s, 0)
  }

  /** The first of all the names is the one a single search finds. */
  lemma {:induction false} AllNamesHead(s: string, i: nat)
    requires i <= |s|
    ensures AllNamesFrom(s, i) != [] ==> Some(AllNamesFrom(s, i)[0]) == FirstNameFrom(s, i)
    decreases |s| - i
  {
    if i < |s| && !NameStartsAt(s, i) {
      AllNamesHead(s, i + 1);
    }
  }
}
