/** The string operations the pivot engine relies on: `Array.prototype.join`
    and `String.prototype.split` with the separator "::", and the default
    `Array.prototype.sort` order on strings. */
module Strings {
  import opened PivotTypes
  import opened Seqs

  const Sep: string := "::"

  /** parts.join("::") */
  function Join(parts: seq<string>): string
  {
    if |parts| == 0 then ""
    else if |parts| == 1 then parts[0]
    else parts[0] + Sep + Join(parts[1..])
  }

  /** The separator "::" starts at index i of s. */
  predicate SepAt(s: string, i: int)
  {
    0 <= i && i + 2 <= |s| && s[i] == ':' && s[i + 1] == ':'
  }

  predicate HasSep(s: string)
  {
    exists i :: 0 <= i < |s| && SepAt(s, i)
  }

  /** The first index at or after `from` where "::" starts (`indexOf`). */
  function FindSep(s: string, from: nat): (r: Option<nat>)
    ensures r.Some? ==> from <= r.value && SepAt(s, r.value) &&
                        forall j :: from <= j < r.value ==> !SepAt(s, j)
    ensures r.None? ==> forall j :: from <= j ==> !SepAt(s, j)
    decreases |s| - from
  {
    if from + 2 > |s| then None
    else if SepAt(s, from) then Some(from)
    else FindSep(s, from + 1)
  }

  /** s.split("::"): the pieces between the occurrences of the separator,
      found left to right without overlap. Never empty: "".split("::") is [""]. */
  function Split(s: string): (parts: seq<string>)
    ensures |parts| >= 1
    decreases |s|
  {
    match FindSep(s, 0)
    case None => [s]
    case Some(i) => [s[..i]] + Split(s[i + 2..])
  }

  /** A sequence of parts that one "::"-join followed by one "::"-split gives
      back: no part contains the separator, and no part but the last ends
      with ':' (otherwise that colon and the separator's first colon are
      read as a separator one position early). */
  ghost predicate Separable(parts: seq<string>)
  {
    (forall i :: 0 <= i < |parts| ==> !HasSep(parts[i])) &&
    (forall i :: 0 <= i < |parts| - 1 ==> parts[i] == [] || parts[i][|parts[i]| - 1] != ':')
  }

  lemma {:induction false} SplitJoin(parts: seq<string>)
    requires |parts| >= 1 && Separable(parts)
    ensures Split(Join(parts)) == parts
  {
    var p := parts[0];
    if |parts| == 1 {
      assert !HasSep(p);
      assert FindSep(p, 0).None?;
    } else {
      var rest := Join(parts[1..]);
      var s := p + Sep + rest;
      assert Join(parts) == s;
      assert SepAt(s, |p|);
      forall j | 0 <= j < |p| ensures !SepAt(s, j) {
        if j + 1 < |p| {
          assert s[j] == p[j] && s[j + 1] == p[j + 1];
          assert !SepAt(p, j);
        } else {
          assert s[j] == p[|p| - 1];
        }
      }
      assert FindSep(s, 0) == Some(|p|);
      assert s[|p| + 2..] == rest;
      assert s[..|p|] == p;
      assert Separable(parts[1..]) by {
        forall i | 0 <= i < |parts[1..]| ensures !HasSep(parts[1..][i]) {
          assert parts[1..][i] == parts[i + 1];
        }
      }
      SplitJoin(parts[1..]);
    }
  }

  /** Excluding the separator from the parts is not enough: ["a:", ":b"] joins
      to "a::::b", which splits into three parts. */
  lemma SplitJoinColonCounterexample()
    ensures !HasSep("a:") && !HasSep(":b")
    ensures Split(Join(["a:", ":b"])) == ["a", "", "b"]
  {
    assert !SepAt("a:", 0) && !SepAt("a:", 1);
    assert !SepAt(":b", 0) && !SepAt(":b", 1);
    var s := "a::::b";
    assert Join(["a:", ":b"]) == s;
    assert !SepAt(s, 0) && SepAt(s, 1);
    assert FindSep(s, 1) == Some(1);
    assert FindSep(s, 0) == Some(1);
    assert s[..1] == "a" && s[3..] == "::b";
    assert Split(s) == ["a"] + Split("::b");
    assert SepAt("::b", 0);
    assert FindSep("::b", 0) == Some(0);
    assert "::b"[..0] == "" && "::b"[2..] == "b";
    assert Split("::b") == [""] + Split("b");
    assert FindSep("b", 0) == None;
    assert Split("b") == ["b"];
  }

  /** Strict lexicographic order on UTF code points: the order of the
      default `sort()` on strings. */
  predicate LexLess(a: string, b: string)
  {
    if |a| == 0 then |b| > 0
    else if |b| == 0 then false
    else if a[0] < b[0] then true
    else if a[0] == b[0] then LexLess(a[1..], b[1..])
    else false
  }

  predicate LexLe(a: string, b: string)
  {
    a == b || LexLess(a, b)
  }

  lemma {:induction false} LexLessIrreflexive(a: string)
    ensures !LexLess(a, a)
  {
    if |a| > 0 { LexLessIrreflexive(a[1..]); }
  }

  lemma {:induction false} LexLessTransitive(a: string, b: string, c: string)
    requires LexLess(a, b) && LexLess(b, c)
    ensures LexLess(a, c)
  {
    if |a| > 0 && |b| > 0 && |c| > 0 && a[0] == b[0] == c[0] {
      LexLessTransitive(a[1..], b[1..], c[1..]);
    }
  }

  lemma {:induction false} LexLessTotal(a: string, b: string)
    requires a != b
    ensures LexLess(a, b) || LexLess(b, a)
  {
    if |a| > 0 && |b| > 0 && a[0] == b[0] {
      assert a[1..] != b[1..] by {
        assert a == [a[0]] + a[1..] && b == [b[0]] + b[1..];
      }
      LexLessTotal(a[1..], b[1..]);
    }
  }

  lemma {:induction false} LexLessAsymmetric(a: string, b: string)
    requires LexLess(a, b)
    ensures !LexLess(b, a)
  {
    if LexLess(b, a) {
      LexLessTransitive(a, b, a);
      LexLessIrreflexive(a);
    }
  }

  ghost predicate Sorted(s: seq<string>)
  {
    forall i, j :: 0 <= i < j < |s| ==> LexLe(s[i], s[j])
  }

  ghost predicate StrictlySorted(s: seq<string>)
  {
    forall i, j :: 0 <= i < j < |s| ==> LexLess(s[i], s[j])
  }

  /** Insert `x` before the first element it does not exceed. */
  function Insert(x: string, s: seq<string>): (r: seq<string>)
    requires Sorted(s)
    ensures Sorted(r)
    ensures multiset(r) == multiset(s) + multiset{x}
    ensures forall y :: y in r <==> y == x || y in s
  {
    if s == [] then [x]
    else if LexLe(x, s[0]) then
      assert forall j :: 0 < j < |s| ==> LexLe(x, s[j]) by {
        forall j | 0 < j < |s| ensures LexLe(x, s[j]) {
          if x != s[0] && s[0] != s[j] { LexLessTransitive(x, s[0], s[j]); }
        }
      }
      [x] + s
    else
      var t := Insert(x, s[1..]);
      assert s == [s[0]] + s[1..];
      assert LexLess(s[0], x) by { LexLessTotal(x, s[0]); }
      assert forall y :: y in t ==> LexLe(s[0], y);
      [s[0]] + t
  }

  /** Array.prototype.sort() on strings, as an insertion sort: the result is
      sorted and a permutation of the input. */
  function Sort(xs: seq<string>): (r: seq<string>)
    ensures Sorted(r)
    ensures multiset(r) == multiset(xs)
    ensures forall y :: y in r <==> y in xs
    ensures |r| == |xs|
  {
    if xs == [] then []
    else
      assert xs == xs[..|xs| - 1] + [xs[|xs| - 1]];
      var r := Insert(xs[|xs| - 1], Sort(xs[..|xs| - 1]));
      assert |r| == |multiset(r)|;
      r
  }

  lemma DistinctCons(a: string, u: seq<string>)
    requires Distinct(u) && a !in u
    ensures Distinct([a] + u)
  {
    forall i, j | 0 <= i < j < |[a] + u| ensures ([a] + u)[i] != ([a] + u)[j] {
      assert ([a] + u)[j] == u[j - 1];
      if i > 0 { assert ([a] + u)[i] == u[i - 1]; }
    }
  }

  lemma {:induction false} InsertDistinct(x: string, s: seq<string>)
    requires Sorted(s) && Distinct(s) && x !in s
    ensures Distinct(Insert(x, s))
  {
    if s == [] {
    } else if LexLe(x, s[0]) {
      DistinctCons(x, s);
    } else {
      var t := s[1..];
      assert s == [s[0]] + t;
      assert Distinct(t) by {
        forall i, j | 0 <= i < j < |t| ensures t[i] != t[j] { assert t[i] == s[i + 1] && t[j] == s[j + 1]; }
      }
      assert s[0] !in t by {
        forall j | 0 <= j < |t| ensures t[j] != s[0] { assert t[j] == s[j + 1]; }
      }
      InsertDistinct(x, t);
      DistinctCons(s[0], Insert(x, t));
    }
  }

  /** Sorting a duplicate-free list yields a strictly ascending one. */
  lemma {:induction false} SortDistinct(xs: seq<string>)
    requires Distinct(xs)
    ensures Distinct(Sort(xs)) && StrictlySorted(Sort(xs))
  {
    if xs != [] {
      var t := xs[..|xs| - 1];
      assert xs == t + [xs[|xs| - 1]];
      SortDistinct(t);
      InsertDistinct(xs[|xs| - 1], Sort(t));
    }
  }
}
