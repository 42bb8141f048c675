/** A stable sort by a key, which is what `Array.prototype.sort` with a
    comparator returning the sign of the key difference produces (the
    sort is required to be stable since ECMAScript 2019). */
module Sorting {

  /** The value a record is sorted on: a number or a string. */
  datatype Key = Num(n: int) | Text(s: string)

  /** `a < b` on JavaScript strings: lexicographic on characters, a proper
      prefix sorting first. */
  predicate TextLess(a: string, b: string)
  {
    if a == [] then b != []
    else if b == [] then false
    else if a[0] != b[0] then a[0] < b[0]
    else TextLess(a[1..], b[1..])
  }

  /** The order on keys; a number and a string are never compared by the
      application, and are ordered numbers first only to make the order total. */
  predicate KeyLess(a: Key, b: Key)
  {
    match (a, b)
    case (Num(x), Num(y)) => x < y
    case (Text(x), Text(y)) => TextLess(x, y)
    case (Num(_), Text(_)) => true
    case (Text(_), Num(_)) => false
  }

  lemma {:induction false} TextLessIrreflexive(a: string)
    ensures !TextLess(a, a)
  {
    if a != [] {
      TextLessIrreflexive(a[1..]);
    }
  }

  lemma {:induction false} TextLessTransitive(a: string, b: string, c: string)
    requires TextLess(a, b) && TextLess(b, c)
    ensures TextLess(a, c)
  {
    if a != [] && b != [] && c != [] && a[0] == b[0] && b[0] == c[0] {
      TextLessTransitive(a[1..], b[1..], c[1..]);
    }
  }

  lemma {:induction false} TextLessTotal(a: string, b: string)
    ensures a == b || TextLess(a, b) || TextLess(b, a)
  {
    if a != [] && b != [] && a[0] == b[0] {
      TextLessTotal(a[1..], b[1..]);
      if a[1..] == b[1..] {
        assert a == [a[0]] + a[1..] && b == [b[0]] + b[1..];
      }
    }
  }

  /** `KeyLess` is a strict total order. */
  lemma KeyLessStrictTotal(a: Key, b: Key, c: Key)
    ensures !KeyLess(a, a)
    ensures KeyLess(a, b) && KeyLess(b, c) ==> KeyLess(a, c)
    ensures a == b || KeyLess(a, b) || KeyLess(b, a)
  {
    if a.Text? {
      TextLessIrreflexive(a.s);
      if b.Text? {
        TextLessTotal(a.s, b.s);
        if c.Text? && KeyLess(a, b) && KeyLess(b, c) {
          TextLessTransitive(a.s, b.s, c.s);
        }
      }
    }
  }

  /** Whether `a` must come strictly before `b` under the chosen direction. */
  predicate Before(a: Key, b: Key, descending: bool)
  {
    if descending then KeyLess(b, a) else KeyLess(a, b)
  }

  /** No element is strictly before an earlier one. */
  predicate Sorted<T>(r: seq<T>, key: T -> Key, descending: bool)
  {
    forall i, j :: 0 <= i < j < |r| ==> !Before(key(r[j]), key(r[i]), descending)
  }

  /** "Not strictly before" chains: it is the non-strict order of a total order. */
  lemma NotBeforeTransitive(a: Key, b: Key, c: Key, descending: bool)
    requires !Before(a, b, descending) && !Before(b, c, descending)
    ensures !Before(a, c, descending)
  {
    KeyLessStrictTotal(a, b, c);
    KeyLessStrictTotal(c, b, a);
    KeyLessStrictTotal(b, a, c);
    KeyLessStrictTotal(a, c, b);
    KeyLessStrictTotal(c, a, b);
    KeyLessStrictTotal(b, c, a);
  }

  lemma BeforeIrreflexive(a: Key, descending: bool)
    ensures !Before(a, a, descending)
  {
    KeyLessStrictTotal(a, a, a);
  }

  lemma BeforeAsymmetric(a: Key, b: Key, descending: bool)
    requires Before(a, b, descending)
    ensures !Before(b, a, descending)
  {
    KeyLessStrictTotal(a, b, a);
    KeyLessStrictTotal(b, a, b);
  }

  /** Inserts `x` in front of the first element it is not strictly after,
      so that it lands ahead of every element with an equal key. */
  function Insert<T>(x: T, t: seq<T>, key: T -> Key, descending: bool): (r: seq<T>)
    ensures |r| == |t| + 1
    ensures multiset(r) == multiset(t) + multiset{x}
    ensures forall y :: y in r ==> y == x || y in t
    ensures Sorted(t, key, descending) ==> Sorted(r, key, descending)
  {
    if t == [] || !Before(key(t[0]), key(x), descending) then
      InsertFrontSorted(x, t, key, descending);
      [x] + t
    else
      var rest := Insert(x, t[1..], key, descending);
      assert t == [t[0]] + t[1..];
      InsertBehindSorted(x, t, rest, key, descending);
      [t[0]] + rest
  }

  lemma InsertFrontSorted<T>(x: T, t: seq<T>, key: T -> Key, descending: bool)
    requires t == [] || !Before(key(t[0]), key(x), descending)
    ensures Sorted(t, key, descending) ==> Sorted([x] + t, key, descending)
  {
    if Sorted(t, key, descending) {
      var r := [x] + t;
      forall i, j | 0 <= i < j < |r| ensures !Before(key(r[j]), key(r[i]), descending) {
        if i == 0 && j > 1 {
          NotBeforeTransitive(key(t[j - 1]), key(t[0]), key(x), descending);
        }
      }
    }
  }

  lemma InsertBehindSorted<T>(x: T, t: seq<T>, rest: seq<T>, key: T -> Key, descending: bool)
    requires t != [] && Before(key(t[0]), key(x), descending)
    requires forall y :: y in rest ==> y == x || y in t[1..]
    requires Sorted(t[1..], key, descending) ==> Sorted(rest, key, descending)
    ensures Sorted(t, key, descending) ==> Sorted([t[0]] + rest, key, descending)
  {
    if Sorted(t, key, descending) {
      assert Sorted(t[1..], key, descending);
      var r := [t[0]] + rest;
      forall i, j | 0 <= i < j < |r| ensures !Before(key(r[j]), key(r[i]), descending) {
        if i == 0 {
          var y := r[j];
          assert y in rest;
          if y == x {
            BeforeAsymmetric(key(t[0]), key(x), descending);
          } else {
            assert y in t[1..];
            var k :| 0 <= k < |t[1..]| && t[1..][k] == y;
            assert t[k + 1] == y;
          }
        }
      }
    }
  }

  /** Stable sort by `key`, ascending or descending. */
  function SortBy<T>(s: seq<T>, key: T -> Key, descending: bool): (r: seq<T>)
    ensures |r| == |s|
    ensures multiset(r) == multiset(s)
    ensures Sorted(r, key, descending)
  {
    if s == [] then []
    else
      assert s == [s[0]] + s[1..];
      Insert(s[0], SortBy(s[1..], key, descending), key, descending)
  }

  // ---------------------------------------------------------------------
  // The two ends of a stably sorted sequence
  // ---------------------------------------------------------------------

  lemma BeforeAfterNotBefore(a: Key, b: Key, c: Key, descending: bool)
    requires !Before(b, a, descending) && Before(b, c, descending)
    ensures Before(a, c, descending)
  {
    KeyLessStrictTotal(a, b, c);
    KeyLessStrictTotal(c, b, a);
    KeyLessStrictTotal(b, a, c);
    KeyLessStrictTotal(a, c, b);
    KeyLessStrictTotal(c, a, b);
    KeyLessStrictTotal(b, c, a);
  }

  /** Index of the earliest element of `s` among those with the least key. */
  function FirstLeastIndex<T>(s: seq<T>, key: T -> Key, descending: bool): (k: nat)
    requires s != []
    ensures k < |s|
    ensures forall j :: 0 <= j < |s| ==> !Before(key(s[j]), key(s[k]), descending)
    ensures forall j :: 0 <= j < k ==> Before(key(s[k]), key(s[j]), descending)
  {
    if |s| == 1 then
      BeforeIrreflexive(key(s[0]), descending);
      0
    else
      var k := 1 + FirstLeastIndex(s[1..], key, descending);
      if !Before(key(s[k]), key(s[0]), descending) then
        FirstLeastHead(s, k, key, descending);
        0
      else
        BeforeAsymmetric(key(s[k]), key(s[0]), descending);
        k
  }

  lemma FirstLeastHead<T>(s: seq<T>, k: nat, key: T -> Key, descending: bool)
    requires 0 < k < |s|
    requires forall j :: 1 <= j < |s| ==> !Before(key(s[j]), key(s[k]), descending)
    requires !Before(key(s[k]), key(s[0]), descending)
    ensures forall j :: 0 <= j < |s| ==> !Before(key(s[j]), key(s[0]), descending)
  {
    forall j | 1 <= j < |s| ensures !Before(key(s[j]), key(s[0]), descending) {
      NotBeforeTransitive(key(s[j]), key(s[k]), key(s[0]), descending);
    }
    KeyLessStrictTotal(key(s[0]), key(s[0]), key(s[0]));
  }

  /** Index of the latest element of `s` among those with the greatest key. */
  function LastGreatestIndex<T>(s: seq<T>, key: T -> Key, descending: bool): (k: nat)
    requires s != []
    ensures k < |s|
    ensures forall j :: 0 <= j < |s| ==> !Before(key(s[k]), key(s[j]), descending)
    ensures forall j :: k < j < |s| ==> Before(key(s[j]), key(s[k]), descending)
  {
    if |s| == 1 then
      BeforeIrreflexive(key(s[0]), descending);
      0
    else
      var k := 1 + LastGreatestIndex(s[1..], key, descending);
      if Before(key(s[k]), key(s[0]), descending) then
        LastGreatestHead(s, k, key, descending);
        0
      else
        k
  }

  lemma LastGreatestHead<T>(s: seq<T>, k: nat, key: T -> Key, descending: bool)
    requires 0 < k < |s|
    requires forall j :: 1 <= j < |s| ==> !Before(key(s[k]), key(s[j]), descending)
    requires Before(key(s[k]), key(s[0]), descending)
    ensures forall j :: 0 <= j < |s| ==> !Before(key(s[0]), key(s[j]), descending)
    ensures forall j :: 0 < j < |s| ==> Before(key(s[j]), key(s[0]), descending)
  {
    BeforeAsymmetric(key(s[k]), key(s[0]), descending);
    forall j | 1 <= j < |s|
      ensures !Before(key(s[0]), key(s[j]), descending)
      ensures Before(key(s[j]), key(s[0]), descending)
    {
      NotBeforeTransitive(key(s[0]), key(s[k]), key(s[j]), descending);
      BeforeAfterNotBefore(key(s[j]), key(s[k]), key(s[0]), descending);
    }
    KeyLessStrictTotal(key(s[0]), key(s[0]), key(s[0]));
  }

  /** A stable sort starts with the earliest of the least elements. */
  lemma {:induction false} SortByHead<T>(s: seq<T>, key: T -> Key, descending: bool)
    requires s != []
    ensures SortBy(s, key, descending)[0] == s[FirstLeastIndex(s, key, descending)]
  {
    if |s| > 1 {
      SortByHead(s[1..], key, descending);
    }
  }

  lemma {:induction false} InsertLast<T>(x: T, t: seq<T>, key: T -> Key, descending: bool)
    requires t != [] && Sorted(t, key, descending)
    ensures var r := Insert(x, t, key, descending);
      r[|r| - 1] == if Before(key(t[|t| - 1]), key(x), descending) then x else t[|t| - 1]
  {
    if !Before(key(t[0]), key(x), descending) {
      if |t| > 1 {
        NotBeforeTransitive(key(t[|t| - 1]), key(t[0]), key(x), descending);
      }
    } else if |t| > 1 {
      assert Sorted(t[1..], key, descending);
      InsertLast(x, t[1..], key, descending);
    }
  }

  /** A stable sort ends with the latest of the greatest elements. */
  lemma {:induction false} SortByLast<T>(s: seq<T>, key: T -> Key, descending: bool)
    requires s != []
    ensures var r := SortBy(s, key, descending);
      |r| == |s| && r[|r| - 1] == s[LastGreatestIndex(s, key, descending)]
  {
    if |s| > 1 {
      var tail := SortBy(s[1..], key, descending);
      SortByLast(s[1..], key, descending);
      var k := 1 + LastGreatestIndex(s[1..], key, descending);
      assert tail[|tail| - 1] == s[k] by {
        assert s[1..][k - 1] == s[k];
      }
      InsertLast(s[0], tail, key, descending);
    }
  }
}
