/** Sequence helpers: duplicate-freedom, first occurrences, and the
    insertion-ordered de-duplication performed by `[...new Set(xs)]`. */
module Seqs {

  predicate NoDup<T(==)>(s: seq<T>)
  {
    forall i, j :: 0 <= i < j < |s| ==> s[i] != s[j]
  }

  /** Index of the first occurrence of `x` in `s`. */
  function FirstIndex<T(==)>(s: seq<T>, x: T): (k: nat)
    requires x in s
    ensures k < |s| && s[k] == x && x !in s[..k]
  {
    if s[0] == x then 0 else 1 + FirstIndex(s[1..], x)
  }

  /** Appending never moves the first occurrence of an element already present. */
  lemma {:induction false} FirstIndexPrefix<T>(s: seq<T>, y: T, x: T)
    requires x in s
    ensures FirstIndex(s + [y], x) == FirstIndex(s, x)
  {
    var k := FirstIndex(s, x);
    assert (s + [y])[k] == x;
    assert (s + [y])[..k] == s[..k];
  }

  lemma FirstIndexAppend<T>(s: seq<T>, y: T)
    ensures forall x :: x in s ==> FirstIndex(s + [y], x) == FirstIndex(s, x)
  {
    forall x | x in s ensures FirstIndex(s + [y], x) == FirstIndex(s, x) {
      FirstIndexPrefix(s, y, x);
    }
  }

  /** `r` holds the distinct elements of `s`, each once, in the order of
      their first occurrences in `s`. */
  predicate DistinctInOrder<T(==)>(s: seq<T>, r: seq<T>)
  {
    && NoDup(r)
    && (forall i :: 0 <= i < |r| ==> r[i] in s)
    && (forall i :: 0 <= i < |s| ==> s[i] in r)
    && (forall i, j :: 0 <= i < j < |r| ==> FirstIndex(s, r[i]) < FirstIndex(s, r[j]))
  }

  /** `[...new Set(s)]`: the distinct elements of `s`, each kept at its
      first occurrence, in the order those first occurrences appear. */
  function Dedup<T(==)>(s: seq<T>): (r: seq<T>)
    ensures NoDup(r)
    ensures forall i :: 0 <= i < |r| ==> r[i] in s
    ensures forall i :: 0 <= i < |s| ==> s[i] in r
    ensures forall i, j :: 0 <= i < j < |r| ==> FirstIndex(s, r[i]) < FirstIndex(s, r[j])
  {
    if s == [] then []
    else
      var init := s[..|s| - 1];
      var last := s[|s| - 1];
      assert s == init + [last];
      var r := Dedup(init);
      var r' := if last in r then r else r + [last];
      DedupStep(init, last, r);
      r'
  }

  /** One step of `Dedup`: the next element is appended when it is new. */
  lemma DedupStep<T>(init: seq<T>, last: T, r: seq<T>)
    requires DistinctInOrder(init, r)
    ensures DistinctInOrder(init + [last], if last in r then r else r + [last])
  {
    if last in r {
      DedupStepSeen(init, last, r);
    } else {
      DedupStepNew(init, last, r);
    }
  }

  lemma DedupStepSeen<T>(init: seq<T>, last: T, r: seq<T>)
    requires DistinctInOrder(init, r) && last in r
    ensures DistinctInOrder(init + [last], r)
  {
    var s := init + [last];
    FirstIndexAppend(init, last);
    forall i | 0 <= i < |s| ensures s[i] in r {
      if i < |init| {
        assert s[i] == init[i];
      }
    }
    forall i, j | 0 <= i < j < |r| ensures FirstIndex(s, r[i]) < FirstIndex(s, r[j]) {
      assert r[i] in init && r[j] in init;
    }
  }

  lemma DedupStepNew<T>(init: seq<T>, last: T, r: seq<T>)
    requires DistinctInOrder(init, r) && last !in r
    ensures DistinctInOrder(init + [last], r + [last])
  {
    var s := init + [last];
    var r' := r + [last];
    FirstIndexAppend(init, last);
    forall i | 0 <= i < |s| ensures s[i] in r' {
      if i < |init| {
        assert s[i] == init[i];
      }
    }
    assert last !in init;
    assert FirstIndex(s, last) == |init|;
    forall i, j | 0 <= i < j < |r'|
      ensures FirstIndex(s, r'[i]) < FirstIndex(s, r'[j])
    {
      assert r'[i] == r[i] && r[i] in init;
      if j < |r| {
        assert r'[j] == r[j];
      }
    }
  }

  /** An element not yet seen is appended by `Dedup`. */
  lemma DedupAppendFresh<T>(init: seq<T>, last: T)
    requires last !in init
    ensures Dedup(init + [last]) == Dedup(init) + [last]
  {
    assert (init + [last])[..|init|] == init;
  }

  /** De-duplicating a sequence that has no duplicates changes nothing. */
  lemma {:induction false} DedupOfNoDup<T>(s: seq<T>)
    requires NoDup(s)
    ensures Dedup(s) == s
  {
    if s != [] {
      var init := s[..|s| - 1];
      var last := s[|s| - 1];
      assert s == init + [last];
      assert NoDup(init);
      assert last !in init;
      DedupOfNoDup(init);
      DedupAppendFresh(init, last);
    }
  }

  /** De-duplication is idempotent. */
  lemma DedupIdempotent<T>(s: seq<T>)
    ensures Dedup(Dedup(s)) == Dedup(s)
  {
    DedupOfNoDup(Dedup(s));
  }

  /** A sequence without duplicates holds each value at most once. */
  lemma {:induction false} NoDupMultiplicity<T>(s: seq<T>, v: T)
    requires NoDup(s)
    ensures multiset(s)[v] <= 1
  {
    if s != [] {
      assert s == [s[0]] + s[1..];
      assert NoDup(s[1..]);
      NoDupMultiplicity(s[1..], v);
      if s[0] == v {
        assert v !in s[1..];
      }
    }
  }

  /** A permutation of a duplicate-free sequence is duplicate-free. */
  lemma PermutationNoDup<T>(s: seq<T>, r: seq<T>)
    requires NoDup(s) && multiset(r) == multiset(s)
    ensures NoDup(r)
  {
    forall i, j | 0 <= i < j < |r| ensures r[i] != r[j] {
      if r[i] == r[j] {
        var v := r[i];
        assert r == r[..i] + [r[i]] + r[i + 1..j] + [r[j]] + r[j + 1..];
        assert multiset(r)[v] >= 2;
        NoDupMultiplicity(s, v);
      }
    }
  }

  /** A permutation has the same members. */
  lemma PermutationMembers<T>(s: seq<T>, r: seq<T>)
    requires multiset(r) == multiset(s)
    ensures forall x :: x in r <==> x in s
  {
    forall x ensures x in r <==> x in s {
      assert x in r <==> x in multiset(r);
      assert x in s <==> x in multiset(s);
    }
  }

  /** `s.map(f)`. */
  function Map<A, B>(f: A -> B, s: seq<A>): (r: seq<B>)
    ensures |r| == |s|
    ensures forall i :: 0 <= i < |s| ==> r[i] == f(s[i])
  {
    if s == [] then [] else [f(s[0])] + Map(f, s[1..])
  }

  /** The values of `s.map(f)` are exactly the images of the values of `s`. */
  lemma MapMembers<A, B>(f: A -> B, s: seq<A>)
    ensures forall x :: x in s ==> f(x) in Map(f, s)
    ensures forall y :: y in Map(f, s) ==> exists x :: x in s && y == f(x)
  {
    var r := Map(f, s);
    forall x | x in s ensures f(x) in r {
      var i :| 0 <= i < |s| && s[i] == x;
      assert r[i] == f(x);
    }
    forall y | y in r ensures exists x :: x in s && y == f(x) {
      var i :| 0 <= i < |r| && r[i] == y;
      assert s[i] in s;
    }
  }

  /** The positions of the elements of `s` that satisfy `p`. */
  function IndicesWhere<T>(s: seq<T>, p: T -> bool): set<int>
  {
    set i | 0 <= i < |s| && p(s[i])
  }

  /** Appending one element adds its position exactly when it satisfies `p`. */
  lemma IndicesWhereSnoc<T>(s: seq<T>, x: T, p: T -> bool)
    ensures |IndicesWhere(s + [x], p)| == |IndicesWhere(s, p)| + (if p(x) then 1 else 0)
  {
    var before := IndicesWhere(s, p);
    var after := IndicesWhere(s + [x], p);
    assert forall i :: 0 <= i < |s| ==> (s + [x])[i] == s[i];
    if p(x) {
      assert after == before + {|s|};
      assert |s| !in before;
    } else {
      assert after == before;
    }
  }
}
