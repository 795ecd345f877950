/** Sorting, mapping and permutations of sequences, shared by the other modules. */
module Sequences {

  function Map<T, U>(f: T -> U, s: seq<T>): (r: seq<U>)
    ensures |r| == |s|
    ensures forall i :: 0 <= i < |s| ==> r[i] == f(s[i])
  {
    seq(|s|, i requires 0 <= i < |s| => f(s[i]))
  }

  function Flatten<T>(ss: seq<seq<T>>): seq<T>
  {
    if ss == [] then [] else Flatten(ss[..|ss| - 1]) + ss[|ss| - 1]
  }

  /** The concatenation of what each element becomes. */
  function FlatMap<T, U>(f: T -> seq<U>, s: seq<T>): seq<U>
  {
    if s == [] then [] else FlatMap(f, s[..|s| - 1]) + f(s[|s| - 1])
  }

  lemma Associate<T>(a: seq<T>, b: seq<T>, c: seq<T>)
    ensures (a + b) + c == a + (b + c)
  {
  }

  lemma SliceGrows<T>(s: seq<T>, x: nat, y: nat)
    requires x < y <= |s|
    ensures s[x..y] == s[x..y - 1] + [s[y - 1]]
  {
  }

  lemma SliceFront<T>(s: seq<T>, x: nat, y: nat)
    requires x < y <= |s|
    ensures s[x..y] == [s[x]] + s[x + 1..y]
  {
  }

  lemma {:induction false} FlatMapAppend<T, U>(f: T -> seq<U>, s: seq<T>, x: T)
    ensures FlatMap(f, s + [x]) == FlatMap(f, s) + f(x)
  {
    assert (s + [x])[..|s|] == s;
  }

  lemma {:induction false} FlatMapConcat<T, U>(f: T -> seq<U>, a: seq<T>, b: seq<T>)
    ensures FlatMap(f, a + b) == FlatMap(f, a) + FlatMap(f, b)
  {
    if b == [] {
      assert a + b == a;
    } else {
      var init, last := b[..|b| - 1], b[|b| - 1];
      assert b == init + [last];
      FlatMapConcat(f, a, init);
      FlatMapAppend(f, a + init, last);
      Associate(a, init, [last]);
      Associate(FlatMap(f, a), FlatMap(f, init), f(last));
    }
  }

  lemma {:induction false} FlatMapFront<T, U>(f: T -> seq<U>, s: seq<T>)
    requires s != []
    ensures FlatMap(f, s) == f(s[0]) + FlatMap(f, s[1..])
  {
    var first := [s[0]];
    assert s == first + s[1..];
    FlatMapConcat(f, first, s[1..]);
    assert first[..0] == [] && FlatMap(f, first) == f(s[0]);
  }

  function Sum(s: seq<real>): real
  {
    if s == [] then 0.0 else Sum(s[..|s| - 1]) + s[|s| - 1]
  }

  function RemoveAt<T>(s: seq<T>, i: nat): seq<T>
    requires i < |s|
  {
    s[..i] + s[i + 1..]
  }

  lemma RemoveAtMultiset<T>(s: seq<T>, i: nat)
    requires i < |s|
    ensures multiset(s) == multiset(RemoveAt(s, i)) + multiset{s[i]}
  {
    assert s == s[..i] + [s[i]] + s[i + 1..];
  }

  /** A permutation of `s` holds the last element of `s` somewhere, and the rest is a permutation of the rest. */
  lemma FindLast<T>(s: seq<T>, t: seq<T>) returns (i: nat)
    requires s != [] && multiset(s) == multiset(t)
    ensures i < |t| && t[i] == s[|s| - 1]
    ensures multiset(s[..|s| - 1]) == multiset(RemoveAt(t, i))
  {
    var x := s[|s| - 1];
    assert s == s[..|s| - 1] + [x];
    assert x in multiset(t);
    i :| 0 <= i < |t| && t[i] == x;
    RemoveAtMultiset(t, i);
    assert multiset(s[..|s| - 1]) == multiset(s) - multiset{x};
    assert multiset(RemoveAt(t, i)) == multiset(t) - multiset{x};
  }

  lemma {:induction false} SumRemoveAt(s: seq<real>, i: nat)
    requires i < |s|
    ensures Sum(s) == Sum(RemoveAt(s, i)) + s[i]
  {
    var n := |s| - 1;
    if i == n {
      assert RemoveAt(s, i) == s[..n];
    } else {
      SumRemoveAt(s[..n], i);
      var r := RemoveAt(s, i);
      assert r[..|r| - 1] == RemoveAt(s[..n], i);
    }
  }

  lemma {:induction false} SumOfPermutation(s: seq<real>, t: seq<real>)
    requires multiset(s) == multiset(t)
    ensures Sum(s) == Sum(t)
  {
    if s == [] {
      assert |multiset(t)| == 0;
      assert t == [];
    } else {
      var i := FindLast(s, t);
      SumOfPermutation(s[..|s| - 1], RemoveAt(t, i));
      SumRemoveAt(t, i);
    }
  }

  lemma MapRemoveAt<T, U>(f: T -> U, s: seq<T>, i: nat)
    requires i < |s|
    ensures Map(f, RemoveAt(s, i)) == RemoveAt(Map(f, s), i)
  {
  }

  lemma {:induction false} MapOfPermutation<T, U>(f: T -> U, s: seq<T>, t: seq<T>)
    requires multiset(s) == multiset(t)
    ensures multiset(Map(f, s)) == multiset(Map(f, t))
  {
    if s == [] {
      assert |multiset(t)| == 0;
      assert t == [];
    } else {
      var i := FindLast(s, t);
      MapOfPermutation(f, s[..|s| - 1], RemoveAt(t, i));
      MapRemoveAt(f, t, i);
      RemoveAtMultiset(Map(f, t), i);
      assert Map(f, s) == Map(f, s[..|s| - 1]) + [f(s[|s| - 1])];
    }
  }

  lemma Cancel<T>(a: multiset<T>, b: multiset<T>, c: multiset<T>)
    requires a + c == b + c
    ensures a == b
  {
    assert a == (a + c) - c && b == (b + c) - c;
  }

  // ------------------------------------------------------------- flattening

  lemma {:induction false} FlattenUpdate<T>(ss: seq<seq<T>>, k: nat, part: seq<T>)
    requires k < |ss|
    ensures multiset(Flatten(ss[k := part])) + multiset(ss[k]) == multiset(Flatten(ss)) + multiset(part)
  {
    var n := |ss| - 1;
    var tt := ss[k := part];
    assert Flatten(tt) == Flatten(tt[..n]) + tt[n];
    if k == n {
      assert tt[..n] == ss[..n];
    } else {
      FlattenUpdate(ss[..n], k, part);
      assert tt[..n] == ss[..n][k := part];
      assert multiset(Flatten(tt)) + multiset(ss[k])
          == (multiset(Flatten(tt[..n])) + multiset(ss[k])) + multiset(ss[n]);
      assert multiset(Flatten(ss)) + multiset(part)
          == (multiset(Flatten(ss[..n])) + multiset(part)) + multiset(ss[n]);
    }
  }

  lemma FlattenAppend<T>(ss: seq<seq<T>>, k: nat, x: T)
    requires k < |ss|
    ensures multiset(Flatten(ss[k := ss[k] + [x]])) == multiset(Flatten(ss)) + multiset{x}
  {
    var tt := ss[k := ss[k] + [x]];
    FlattenUpdate(ss, k, ss[k] + [x]);
    assert multiset(ss[k] + [x]) == multiset(ss[k]) + multiset{x};
    assert multiset(Flatten(tt)) == (multiset(Flatten(tt)) + multiset(ss[k])) - multiset(ss[k]);
  }

  lemma {:induction false} FlattenRemove<T>(ss: seq<seq<T>>, k: nat, i: nat)
    requires k < |ss| && i < |ss[k]|
    ensures multiset(Flatten(ss)) == multiset(Flatten(ss[k := RemoveAt(ss[k], i)])) + multiset{ss[k][i]}
  {
    var part, x := RemoveAt(ss[k], i), multiset{ss[k][i]};
    var before, after := multiset(Flatten(ss)), multiset(Flatten(ss[k := part]));
    FlattenUpdate(ss, k, part);
    RemoveAtMultiset(ss[k], i);
    assert (after + x) + multiset(part) == before + multiset(part);
    Cancel(after + x, before, multiset(part));
  }

  lemma {:induction false} FlattenOfPermutations<T>(ss: seq<seq<T>>, tt: seq<seq<T>>)
    requires |ss| == |tt| && forall k :: 0 <= k < |ss| ==> multiset(ss[k]) == multiset(tt[k])
    ensures multiset(Flatten(ss)) == multiset(Flatten(tt))
  {
    if ss != [] {
      FlattenOfPermutations(ss[..|ss| - 1], tt[..|tt| - 1]);
    }
  }

  lemma {:induction false} FindInFlatten<T>(ss: seq<seq<T>>, x: T) returns (k: nat, i: nat)
    requires x in Flatten(ss)
    ensures k < |ss| && i < |ss[k]| && ss[k][i] == x
  {
    var n := |ss| - 1;
    if x in ss[n] {
      k := n;
      i :| 0 <= i < |ss[n]| && ss[n][i] == x;
    } else {
      k, i := FindInFlatten(ss[..n], x);
    }
  }

  lemma {:induction false} FlattenEmpty<T>(ss: seq<seq<T>>)
    requires Flatten(ss) == []
    ensures forall k :: 0 <= k < |ss| ==> ss[k] == []
  {
    if ss != [] {
      assert |Flatten(ss)| == |Flatten(ss[..|ss| - 1])| + |ss[|ss| - 1]|;
      FlattenEmpty(ss[..|ss| - 1]);
    }
  }

  // ---------------------------------------------------------------- sorting

  ghost predicate StrictTotalOrder<T(!new)>(before: (T, T) -> bool)
  {
    && (forall x :: !before(x, x))
    && (forall x, y, z :: before(x, y) && before(y, z) ==> before(x, z))
    && (forall x, y :: x == y || before(x, y) || before(y, x))
  }

  ghost predicate Sorted<T>(s: seq<T>, before: (T, T) -> bool)
  {
    forall i, j :: 0 <= i < j < |s| ==> !before(s[j], s[i])
  }

  function Insert<T>(x: T, s: seq<T>, before: (T, T) -> bool): seq<T>
  {
    if s == [] then [x]
    else if before(x, s[|s| - 1]) then Insert(x, s[..|s| - 1], before) + [s[|s| - 1]]
    else s + [x]
  }

  function SortBy<T>(s: seq<T>, before: (T, T) -> bool): seq<T>
  {
    if s == [] then [] else Insert(s[|s| - 1], SortBy(s[..|s| - 1], before), before)
  }

  lemma NotBeforeIsTransitive<T(!new)>(before: (T, T) -> bool, x: T, y: T, z: T)
    requires StrictTotalOrder(before) && !before(y, x) && !before(z, y)
    ensures !before(z, x)
  {
    assert before(z, x) && before(x, y) ==> before(z, y);
  }

  lemma BeforeIsAsymmetric<T(!new)>(before: (T, T) -> bool, x: T, y: T)
    requires StrictTotalOrder(before) && before(x, y)
    ensures !before(y, x)
  {
  }

  lemma SortedPrefix<T>(s: seq<T>, before: (T, T) -> bool)
    requires s != [] && Sorted(s, before)
    ensures Sorted(s[..|s| - 1], before)
    ensures forall i :: 0 <= i < |s| - 1 ==> !before(s[|s| - 1], s[i])
  {
  }

  lemma SortedAppend<T>(s: seq<T>, x: T, before: (T, T) -> bool)
    requires Sorted(s, before) && forall y :: y in s ==> !before(x, y)
    ensures Sorted(s + [x], before)
  {
  }

  lemma {:induction false} InsertKeepsElements<T>(x: T, s: seq<T>, before: (T, T) -> bool)
    ensures multiset(Insert(x, s, before)) == multiset(s) + multiset{x}
    ensures forall y :: y in Insert(x, s, before) ==> y == x || y in s
  {
    if s != [] && before(x, s[|s| - 1]) {
      InsertKeepsElements(x, s[..|s| - 1], before);
      assert s == s[..|s| - 1] + [s[|s| - 1]];
    }
  }

  lemma {:induction false} InsertSorts<T(!new)>(x: T, s: seq<T>, before: (T, T) -> bool)
    requires StrictTotalOrder(before) && Sorted(s, before)
    ensures Sorted(Insert(x, s, before), before)
  {
    if s == [] {
    } else {
      var init, last := s[..|s| - 1], s[|s| - 1];
      SortedPrefix(s, before);
      if before(x, last) {
        InsertSorts(x, init, before);
        InsertKeepsElements(x, init, before);
        BeforeIsAsymmetric(before, x, last);
        SortedAppend(Insert(x, init, before), last, before);
      } else {
        forall y | y in s ensures !before(x, y) {
          if y in init { NotBeforeIsTransitive(before, y, last, x); }
        }
        SortedAppend(s, x, before);
      }
    }
  }

  lemma {:induction false} SortBySorts<T(!new)>(s: seq<T>, before: (T, T) -> bool)
    requires StrictTotalOrder(before)
    ensures Sorted(SortBy(s, before), before)
    ensures multiset(SortBy(s, before)) == multiset(s)
  {
    if s != [] {
      SortBySorts(s[..|s| - 1], before);
      InsertSorts(s[|s| - 1], SortBy(s[..|s| - 1], before), before);
      InsertKeepsElements(s[|s| - 1], SortBy(s[..|s| - 1], before), before);
      assert s == s[..|s| - 1] + [s[|s| - 1]];
    }
  }

  lemma LastIsGreatest<T(!new)>(s: seq<T>, y: T, before: (T, T) -> bool)
    requires StrictTotalOrder(before) && Sorted(s, before) && y in s
    ensures !before(s[|s| - 1], y)
  {
  }

  lemma SameLast<T(!new)>(s: seq<T>, t: seq<T>, before: (T, T) -> bool)
    requires StrictTotalOrder(before) && Sorted(s, before) && Sorted(t, before)
    requires multiset(s) == multiset(t) && s != []
    ensures t != [] && s[|s| - 1] == t[|t| - 1]
  {
    var i := FindLast(s, t);
    LastIsGreatest(t, s[|s| - 1], before);
    var j := FindLast(t, s);
    LastIsGreatest(s, t[|t| - 1], before);
  }

  lemma DropSameLast<T>(s: seq<T>, t: seq<T>)
    requires s != [] && t != [] && s[|s| - 1] == t[|t| - 1] && multiset(s) == multiset(t)
    ensures multiset(s[..|s| - 1]) == multiset(t[..|t| - 1])
  {
    var n, m, x := |s| - 1, |t| - 1, s[|s| - 1];
    assert s == s[..n] + [x] && t == t[..m] + [x];
    Cancel(multiset(s[..n]), multiset(t[..m]), multiset{x});
  }

  /** Whatever algorithm sorts, the result is the same: a sorted permutation is unique. */
  lemma {:induction false} SortedIsUnique<T(!new)>(s: seq<T>, t: seq<T>, before: (T, T) -> bool)
    requires StrictTotalOrder(before) && Sorted(s, before) && Sorted(t, before)
    requires multiset(s) == multiset(t)
    ensures s == t
  {
    if s == [] {
      assert |multiset(t)| == 0;
    } else {
      SameLast(s, t, before);
      DropSameLast(s, t);
      SortedPrefix(s, before);
      SortedPrefix(t, before);
      SortedIsUnique(s[..|s| - 1], t[..|t| - 1], before);
    }
  }

  lemma {:induction false} SortOfPermutation<T(!new)>(s: seq<T>, t: seq<T>, before: (T, T) -> bool)
    requires StrictTotalOrder(before) && multiset(s) == multiset(t)
    ensures SortBy(s, before) == SortBy(t, before)
  {
    SortBySorts(s, before);
    SortBySorts(t, before);
    SortedIsUnique(SortBy(s, before), SortBy(t, before), before);
  }

  // ------------------------------------------------------------ cardinality

  /** An injective image is at least as large. */
  lemma {:induction false} InjectionBound(source: set<nat>, target: set<nat>, f: nat -> nat)
    requires forall x :: x in source ==> f(x) in target
    requires forall x, y :: x in source && y in source && f(x) == f(y) ==> x == y
    ensures |source| <= |target|
  {
    if source != {} {
      var x :| x in source;
      InjectionBound(source - {x}, target - {f(x)}, f);
    }
  }
}
