/** Sequence helpers: duplicate-freedom and the first-seen order that a
    JavaScript `Set` or a plain object's key list keeps for string keys. */
module Seqs {

  ghost predicate Distinct<T>(s: seq<T>)
  {
    forall i, j :: 0 <= i < j < |s| ==> s[i] != s[j]
  }

  /** Index of the first occurrence of `x` in `s`. */
  function FirstIndex<T(==)>(s: seq<T>, x: T): (i: nat)
    requires x in s
    ensures i < |s| && s[i] == x
    ensures forall j :: 0 <= j < i ==> s[j] != x
  {
    if s[0] == x then 0 else 1 + FirstIndex(s[1..], x)
  }

  /** The distinct elements of `s`, each at the position of its first
      occurrence: what a JavaScript `Set` filled by `add` in order holds. */
  function FirstSeen<T(==,!new)>(s: seq<T>): (r: seq<T>)
    ensures Distinct(r)
    ensures forall x :: x in r <==> x in s
    ensures |r| <= |s|
  {
    if s == [] then []
    else
      var p := FirstSeen(s[..|s| - 1]);
      assert forall x :: x in s <==> x in s[..|s| - 1] || x == s[|s| - 1] by {
        assert s == s[..|s| - 1] + [s[|s| - 1]];
      }
      if s[|s| - 1] in p then p else p + [s[|s| - 1]]
  }

  lemma FirstIndexPrefix<T(!new)>(s: seq<T>, z: T, y: T)
    requires y in s
    ensures FirstIndex(s + [z], y) == FirstIndex(s, y)
  {
    var i := FirstIndex(s, y);
    var k := FirstIndex(s + [z], y);
    assert (s + [z])[i] == y;
    assert s[k] == y || k == |s|;
  }

  /** Elements of FirstSeen(s) are listed by increasing first occurrence in s. */
  lemma {:induction false} FirstSeenOrder<T(!new)>(s: seq<T>)
    ensures forall i, j :: 0 <= i < j < |FirstSeen(s)| ==>
      FirstIndex(s, FirstSeen(s)[i]) < FirstIndex(s, FirstSeen(s)[j])
  {
    if s != [] {
      var t := s[..|s| - 1];
      var z := s[|s| - 1];
      assert s == t + [z];
      FirstSeenOrder(t);
      var p := FirstSeen(t);
      forall y | y in p ensures FirstIndex(s, y) == FirstIndex(t, y) && FirstIndex(t, y) < |t| {
        FirstIndexPrefix(t, z, y);
      }
      if z !in p {
        assert z !in t;
        assert FirstIndex(s, z) == |t|;
      }
    }
  }

  /** Appending one element extends the first-seen list only when the
      element is new. */
  lemma FirstSeenSnoc<T(!new)>(s: seq<T>, z: T)
    ensures FirstSeen(s + [z]) == if z in FirstSeen(s) then FirstSeen(s) else FirstSeen(s) + [z]
  {
    assert (s + [z])[..|s|] == s;
  }

  lemma AppendAssoc<T>(a: seq<T>, b: seq<T>, c: seq<T>)
    ensures (a + b) + c == a + (b + c)
  {
  }

  lemma PrefixSnoc<T>(s: seq<T>, i: nat)
    requires i < |s|
    ensures s[..i + 1] == s[..i] + [s[i]]
  {
  }

  lemma DistinctSnoc<T>(t: seq<T>, z: T)
    ensures Distinct(t + [z]) <==> Distinct(t) && z !in t
  {
    var s := t + [z];
    if Distinct(s) {
      forall i, j | 0 <= i < j < |t| ensures t[i] != t[j] { assert t[i] == s[i] && t[j] == s[j]; }
      forall i | 0 <= i < |t| ensures t[i] != z { assert s[i] == t[i] && s[|t|] == z; }
    }
  }

  lemma DistinctAt<T>(s: seq<T>, i: nat, j: nat)
    requires Distinct(s) && i < j < |s|
    ensures s[i] != s[j]
  {
  }

  /** A duplicate-free list of copies of one value has at most one element. */
  lemma DistinctConstant<T>(s: seq<T>, x: T)
    requires Distinct(s) && forall i :: 0 <= i < |s| ==> s[i] == x
    ensures |s| <= 1
  {
    if |s| > 1 {
      DistinctAt(s, 0, 1);
      assert false;
    }
  }

  /** A list is duplicate-free exactly when no element occurs twice in its
      multiset. */
  lemma {:induction false} DistinctCounts<T>(s: seq<T>)
    ensures Distinct(s) <==> forall x :: multiset(s)[x] <= 1
  {
    if s != [] {
      var t := s[..|s| - 1];
      var z := s[|s| - 1];
      assert s == t + [z];
      DistinctCounts(t);
      DistinctSnoc(t, z);
      assert multiset(s) == multiset(t) + multiset{z};
      if forall x :: multiset(s)[x] <= 1 {
        assert forall x :: multiset(t)[x] <= multiset(s)[x];
        assert multiset(t)[z] == 0;
      }
    }
  }

  /** `s.map(f)` */
  function MapSeq<A, B>(s: seq<A>, f: A -> B): (r: seq<B>)
    ensures |r| == |s|
    ensures forall k :: 0 <= k < |s| ==> r[k] == f(s[k])
  {
    if s == [] then []
    else
      var init := s[..|s| - 1];
      assert forall k :: 0 <= k < |init| ==> init[k] == s[k];
      MapSeq(init, f) + [f(s[|s| - 1])]
  }

  lemma MapSeqSnoc<A, B>(s: seq<A>, f: A -> B, k: nat)
    requires k < |s|
    ensures MapSeq(s[..k + 1], f) == MapSeq(s[..k], f) + [f(s[k])]
  {
    assert s[..k + 1][..k] == s[..k];
  }

  /** The blocks of `b`, one after another. */
  function Flatten<T>(b: seq<seq<T>>): seq<T>
  {
    if b == [] then [] else Flatten(b[..|b| - 1]) + b[|b| - 1]
  }

  lemma MulLe(a: nat, c: nat, n: nat)
    requires a <= c
    ensures 0 <= a * n <= c * n
  {
  }

  /** Blocks of equal width `n`: element k of block j is at j·n + k. */
  lemma {:induction false} FlattenAt<T>(b: seq<seq<T>>, n: nat, j: nat, k: nat)
    requires forall i :: 0 <= i < |b| ==> |b[i]| == n
    requires j < |b| && k < n
    ensures |Flatten(b)| == |b| * n
    ensures 0 <= j * n + k < |Flatten(b)| && Flatten(b)[j * n + k] == b[j][k]
  {
    var init := b[..|b| - 1];
    FlattenLength(init, n);
    MulLe(j, |init|, n);
    assert |b| * n == |init| * n + n;
    if j < |init| {
      FlattenAt(init, n, j, k);
      MulLe(j + 1, |init|, n);
      assert init[j] == b[j];
    } else {
      assert j * n == |init| * n;
    }
  }

  lemma {:induction false} FlattenLength<T>(b: seq<seq<T>>, n: nat)
    requires forall i :: 0 <= i < |b| ==> |b[i]| == n
    ensures |Flatten(b)| == |b| * n
  {
    if b != [] {
      var init := b[..|b| - 1];
      FlattenLength(init, n);
      assert |b| * n == |init| * n + n;
    }
  }
}
