/**
 Stable sorting by an order that is a parameter, as the array sort of the
 language does it: that it permutes and sorts, that a sorted sequence without
 ties is unique, and that it goes together with filtering and mapping. Orders
 of strings, by locale or by code units, are parameters too.
 */
module Sorting {
  ghost predicate TotalPreorder<T(!new)>(leq: (T, T) -> bool) {
    && (forall x, y :: leq(x, y) || leq(y, x))
    && (forall x, y, z :: leq(x, y) && leq(y, z) ==> leq(x, z))
  }

  ghost predicate Antisymmetric<T(!new)>(leq: (T, T) -> bool) {
    forall x, y :: leq(x, y) && leq(y, x) ==> x == y
  }

  type Order = (string, string) -> bool

  /** An order of strings that tells them apart. */
  ghost predicate Total(order: Order) {
    TotalPreorder(order) && Antisymmetric(order)
  }

  ghost predicate Sorted<T>(leq: (T, T) -> bool, s: seq<T>) {
    forall i, j :: 0 <= i < j < |s| ==> leq(s[i], s[j])
  }

  /** x goes after the elements that are not above it. */
  function Insert<T>(leq: (T, T) -> bool, x: T, s: seq<T>): seq<T> {
    if s == [] then [x]
    else if leq(s[|s| - 1], x) then s + [x]
    else Insert(leq, x, s[..|s| - 1]) + [s[|s| - 1]]
  }

  function Sort<T>(leq: (T, T) -> bool, s: seq<T>): seq<T> {
    if s == [] then [] else Insert(leq, s[|s| - 1], Sort(leq, s[..|s| - 1]))
  }

  lemma {:induction false} InsertPermutes<T>(leq: (T, T) -> bool, x: T, s: seq<T>)
    ensures multiset(Insert(leq, x, s)) == multiset(s) + multiset{x}
  {
    if s != [] {
      assert s == s[..|s| - 1] + [s[|s| - 1]];
      InsertPermutes(leq, x, s[..|s| - 1]);
    }
  }

  lemma {:induction false} SortPermutes<T>(leq: (T, T) -> bool, s: seq<T>)
    ensures multiset(Sort(leq, s)) == multiset(s)
    ensures |Sort(leq, s)| == |s|
  {
    if s != [] {
      assert s == s[..|s| - 1] + [s[|s| - 1]];
      SortPermutes(leq, s[..|s| - 1]);
      InsertPermutes(leq, s[|s| - 1], Sort(leq, s[..|s| - 1]));
    }
    assert |multiset(Sort(leq, s))| == |multiset(s)|;
  }

  lemma SortMembers<T>(leq: (T, T) -> bool, s: seq<T>)
    ensures forall x :: x in Sort(leq, s) <==> x in s
  {
    SortPermutes(leq, s);
    assert forall x :: x in Sort(leq, s) <==> x in multiset(Sort(leq, s));
  }

  lemma {:induction false} InsertSorts<T(!new)>(leq: (T, T) -> bool, x: T, s: seq<T>)
    requires TotalPreorder(leq) && Sorted(leq, s)
    ensures Sorted(leq, Insert(leq, x, s))
  {
    if s != [] {
      var init, last := s[..|s| - 1], s[|s| - 1];
      assert s == init + [last];
      if !leq(last, x) {
        InsertSorts(leq, x, init);
        InsertPermutes(leq, x, init);
        var t := Insert(leq, x, init);
        forall i | 0 <= i < |t| ensures leq(t[i], last) {
          assert t[i] in multiset(t);
          assert t[i] == x || t[i] in init;
        }
      } else {
        forall i | 0 <= i < |s| ensures leq(s[i], x) {
          assert i < |s| - 1 ==> leq(s[i], last);
        }
      }
    }
  }

  lemma {:induction false} SortSorts<T(!new)>(leq: (T, T) -> bool, s: seq<T>)
    requires TotalPreorder(leq)
    ensures Sorted(leq, Sort(leq, s))
  {
    if s != [] {
      SortSorts(leq, s[..|s| - 1]);
      InsertSorts(leq, s[|s| - 1], Sort(leq, s[..|s| - 1]));
    }
  }

  lemma LastIsTop<T(!new)>(leq: (T, T) -> bool, s: seq<T>, x: T)
    requires TotalPreorder(leq) && Sorted(leq, s) && x in s
    ensures leq(x, s[|s| - 1])
  {
  }

  lemma LastAgrees<T(!new)>(leq: (T, T) -> bool, s: seq<T>, t: seq<T>)
    requires Antisymmetric(leq) && TotalPreorder(leq) && s != [] && t != []
    requires Sorted(leq, s) && Sorted(leq, t) && multiset(s) == multiset(t)
    ensures s[|s| - 1] == t[|t| - 1]
  {
    var a, b := s[|s| - 1], t[|t| - 1];
    assert a in multiset(t) && b in multiset(s);
    LastIsTop(leq, t, a);
    LastIsTop(leq, s, b);
  }

  lemma WithoutLast<T>(s: seq<T>)
    requires s != []
    ensures multiset(s[..|s| - 1]) == multiset(s) - multiset{s[|s| - 1]}
  {
    assert s == s[..|s| - 1] + [s[|s| - 1]];
  }

  lemma SortedBefore<T>(leq: (T, T) -> bool, s: seq<T>)
    requires s != [] && Sorted(leq, s)
    ensures Sorted(leq, s[..|s| - 1])
  {
  }

  /** A sequence that is sorted by an order that tells its elements apart is determined by its elements. */
  lemma {:induction false} SortedUnique<T(!new)>(leq: (T, T) -> bool, s: seq<T>, t: seq<T>)
    requires Antisymmetric(leq) && TotalPreorder(leq)
    requires Sorted(leq, s) && Sorted(leq, t) && multiset(s) == multiset(t)
    ensures s == t
  {
    hide TotalPreorder, Antisymmetric, Sorted;
    assert |s| == |multiset(s)| && |t| == |multiset(t)|;
    if s != [] {
      LastAgrees(leq, s, t);
      WithoutLast(s);
      WithoutLast(t);
      SortedBefore(leq, s);
      SortedBefore(leq, t);
      SortedUnique(leq, s[..|s| - 1], t[..|t| - 1]);
      Rejoined(s);
      Rejoined(t);
    }
  }

  lemma Rejoined<T>(s: seq<T>)
    requires s != []
    ensures s == s[..|s| - 1] + [s[|s| - 1]]
  {
  }

  lemma SortIgnoresOrder<T(!new)>(leq: (T, T) -> bool, s: seq<T>, t: seq<T>)
    requires Antisymmetric(leq) && TotalPreorder(leq) && multiset(s) == multiset(t)
    ensures Sort(leq, s) == Sort(leq, t)
  {
    hide Sort, TotalPreorder, Antisymmetric, Sorted;
    SortPermutes(leq, s);
    SortPermutes(leq, t);
    SortSorts(leq, s);
    SortSorts(leq, t);
    SortedUnique(leq, Sort(leq, s), Sort(leq, t));
  }

  lemma {:induction false} SortedIsFixed<T(!new)>(leq: (T, T) -> bool, s: seq<T>)
    requires Sorted(leq, s)
    ensures Sort(leq, s) == s
  {
    if s != [] {
      var init := s[..|s| - 1];
      SortedIsFixed(leq, init);
      assert s == init + [s[|s| - 1]];
      assert init != [] ==> leq(init[|init| - 1], s[|s| - 1]);
    }
  }

  lemma {:induction false} DistinctCounts<T>(s: seq<T>)
    requires forall i, j :: 0 <= i < j < |s| ==> s[i] != s[j]
    ensures forall x :: multiset(s)[x] == if x in s then 1 else 0
  {
    if s != [] {
      var init := s[..|s| - 1];
      DistinctCounts(init);
      assert s == init + [s[|s| - 1]];
      assert s[|s| - 1] !in init;
    }
  }

  lemma DistinctOfPermutation<T>(s: seq<T>, t: seq<T>)
    requires forall i, j :: 0 <= i < j < |s| ==> s[i] != s[j]
    requires multiset(s) == multiset(t)
    ensures forall i, j :: 0 <= i < j < |t| ==> t[i] != t[j]
  {
    forall i, j | 0 <= i < j < |t| ensures t[i] != t[j] {
      DistinctCounts(s);
      if t[i] == t[j] {
        Twice(t, i, j);
      }
    }
  }

  lemma Twice<T>(t: seq<T>, i: nat, j: nat)
    requires i < j < |t| && t[i] == t[j]
    ensures multiset(t)[t[i]] >= 2
  {
    assert t == t[..j] + t[j..];
    assert t[i] in t[..j] && t[i] in t[j..];
  }

  ghost predicate StrictlySorted<T>(leq: (T, T) -> bool, s: seq<T>) {
    forall i, j :: 0 <= i < j < |s| ==> leq(s[i], s[j]) && !leq(s[j], s[i])
  }

  lemma FirstOfStrict<T(!new)>(leq: (T, T) -> bool, s: seq<T>, t: seq<T>)
    requires StrictlySorted(leq, s) && StrictlySorted(leq, t) && s != [] && t != [] && s[0] in t && t[0] in s
    ensures s[0] == t[0]
  {
    var i :| 0 <= i < |t| && t[i] == s[0];
    var j :| 0 <= j < |s| && s[j] == t[0];
    if i > 0 && j > 0 {
      assert false;
    }
  }

  /** A strictly sorted sequence is determined by its elements. */
  lemma {:induction false} StrictlySortedUnique<T(!new)>(leq: (T, T) -> bool, s: seq<T>, t: seq<T>)
    requires StrictlySorted(leq, s) && StrictlySorted(leq, t) && forall x :: x in s <==> x in t
    ensures s == t
  {
    if s != [] {
      assert s[0] in t;
    }
    if t != [] {
      assert t[0] in s;
      FirstOfStrict(leq, s, t);
      var u, v := s[1..], t[1..];
      assert s == [s[0]] + u && t == [t[0]] + v;
      forall x ensures x in u <==> x in v {
        StrictTail(leq, s, x);
        StrictTail(leq, t, x);
      }
      StrictlySortedUnique(leq, u, v);
    }
  }

  lemma StrictTail<T(!new)>(leq: (T, T) -> bool, s: seq<T>, x: T)
    requires StrictlySorted(leq, s) && s != []
    ensures x in s[1..] <==> x in s && x != s[0]
  {
    if x in s[1..] {
      var i :| 0 <= i < |s[1..]| && s[1..][i] == x;
      assert s[i + 1] == x && leq(s[0], x) && !leq(x, s[0]);
    }
  }

  ghost predicate DistinctBy<T, K>(key: T -> K, s: seq<T>) {
    forall i, j :: 0 <= i < j < |s| ==> key(s[i]) != key(s[j])
  }

  lemma DistinctByPermutation<T, K>(key: T -> K, s: seq<T>, t: seq<T>)
    requires DistinctBy(key, s) && multiset(s) == multiset(t)
    ensures DistinctBy(key, t)
  {
    DistinctOfPermutation(s, t);
    forall i, j | 0 <= i < j < |t| ensures key(t[i]) != key(t[j]) {
      assert t[i] in multiset(s) && t[j] in multiset(s);
      var k :| 0 <= k < |s| && s[k] == t[i];
      var l :| 0 <= l < |s| && s[l] == t[j];
    }
  }

  function Mapped<T, U>(f: T -> U, s: seq<T>): seq<U> {
    seq(|s|, i requires 0 <= i < |s| => f(s[i]))
  }

  function Omitting<T>(s: seq<T>, k: nat): seq<T>
    requires k < |s|
  {
    s[..k] + s[k + 1..]
  }

  lemma TakenOut<T>(s: seq<T>, k: nat)
    requires k < |s|
    ensures multiset(s) == multiset(Omitting(s, k)) + multiset{s[k]}
  {
    assert s == s[..k] + [s[k]] + s[k + 1..];
  }

  lemma MappedOmitting<T, U>(f: T -> U, s: seq<T>, k: nat)
    requires k < |s|
    ensures Mapped(f, Omitting(s, k)) == Omitting(Mapped(f, s), k)
  {
  }

  /** What a mapping makes of a permutation is a permutation. */
  lemma {:induction false} MappedPermutes<T, U>(f: T -> U, s: seq<T>, t: seq<T>)
    requires multiset(s) == multiset(t)
    ensures multiset(Mapped(f, s)) == multiset(Mapped(f, t))
    decreases |s|
  {
    assert |s| == |multiset(s)| == |multiset(t)| == |t|;
    if s != [] {
      assert s[0] in multiset(t);
      var k :| 0 <= k < |t| && t[k] == s[0];
      TakenOut(s, 0);
      TakenOut(t, k);
      MappedOmitting(f, s, 0);
      MappedOmitting(f, t, k);
      TakenOut(Mapped(f, s), 0);
      TakenOut(Mapped(f, t), k);
      assert multiset(Omitting(s, 0)) == multiset(s) - multiset{s[0]};
      assert multiset(Omitting(t, k)) == multiset(t) - multiset{s[0]};
      MappedPermutes(f, Omitting(s, 0), Omitting(t, k));
    }
  }

  /** The elements that satisfy a predicate, in their order. */
  function Filter<T>(keep: T -> bool, s: seq<T>): seq<T> {
    if s == [] then []
    else
      var rest := Filter(keep, s[..|s| - 1]);
      if keep(s[|s| - 1]) then rest + [s[|s| - 1]] else rest
  }

  lemma {:induction false} FilterMembers<T>(keep: T -> bool, s: seq<T>, x: T)
    ensures x in Filter(keep, s) <==> x in s && keep(x)
  {
    if s != [] {
      assert s == s[..|s| - 1] + [s[|s| - 1]];
      FilterMembers(keep, s[..|s| - 1], x);
    }
  }

  lemma {:induction false} FilterConcat<T>(keep: T -> bool, s: seq<T>, t: seq<T>)
    ensures Filter(keep, s + t) == Filter(keep, s) + Filter(keep, t)
  {
    if t == [] {
      assert s + t == s;
    } else {
      assert (s + t)[..|s + t| - 1] == s + t[..|t| - 1];
      FilterConcat(keep, s, t[..|t| - 1]);
    }
  }

  /** The first element kept comes no later than any that is kept. */
  lemma {:induction false} FirstKept<T>(keep: T -> bool, s: seq<T>, j: nat) returns (i: nat)
    requires j < |s| && keep(s[j])
    ensures i <= j && Filter(keep, s) != [] && s[i] == Filter(keep, s)[0]
  {
    var init := s[..|s| - 1];
    if j < |init| {
      i := FirstKept(keep, init, j);
    } else if Filter(keep, init) == [] {
      i := j;
    } else {
      FilterMembers(keep, init, Filter(keep, init)[0]);
      i :| 0 <= i < |init| && init[i] == Filter(keep, init)[0];
    }
  }

  lemma {:induction false} FilterInsert<T(!new)>(leq: (T, T) -> bool, keep: T -> bool, x: T, s: seq<T>)
    requires TotalPreorder(leq) && Sorted(leq, s)
    ensures Filter(keep, Insert(leq, x, s)) == if keep(x) then Insert(leq, x, Filter(keep, s)) else Filter(keep, s)
  {
    if s != [] {
      var init, last := s[..|s| - 1], s[|s| - 1];
      if leq(last, x) {
        var kept := Filter(keep, s);
        if kept != [] {
          FilterMembers(keep, s, kept[|kept| - 1]);
          LastIsTop(leq, s, kept[|kept| - 1]);
          assert leq(kept[|kept| - 1], x);
        }
      } else {
        FilterInsert(leq, keep, x, init);
        FilterConcat(keep, Insert(leq, x, init), [last]);
        if keep(last) {
          var rest := Filter(keep, init);
          assert (rest + [last])[..|rest|] == rest;
        }
      }
    }
  }

  /** Sorting is stable: what is kept of a sorted sequence is what is kept, sorted. */
  lemma {:induction false} FilterSort<T(!new)>(leq: (T, T) -> bool, keep: T -> bool, s: seq<T>)
    requires TotalPreorder(leq)
    ensures Filter(keep, Sort(leq, s)) == Sort(leq, Filter(keep, s))
  {
    if s != [] {
      var init, last := s[..|s| - 1], s[|s| - 1];
      FilterSort(leq, keep, init);
      SortSorts(leq, init);
      FilterInsert(leq, keep, last, Sort(leq, init));
      var rest := Filter(keep, init);
      assert (rest + [last])[..|rest|] == rest;
    }
  }

  lemma {:induction false} MappedInsert<T(!new), U>(leq: (T, T) -> bool, less: (U, U) -> bool, f: T -> U, x: T,
                                          s: seq<T>)
    requires forall a, b :: less(f(a), f(b)) == leq(a, b)
    ensures Mapped(f, Insert(leq, x, s)) == Insert(less, f(x), Mapped(f, s))
  {
    if s != [] && !leq(s[|s| - 1], x) {
      MappedInsert(leq, less, f, x, s[..|s| - 1]);
      assert Mapped(f, s)[..|s| - 1] == Mapped(f, s[..|s| - 1]);
    }
  }

  /** Sorting what a mapping gives is the same as mapping what is sorted by the same keys. */
  lemma {:induction false} MappedSort<T(!new), U>(leq: (T, T) -> bool, less: (U, U) -> bool, f: T -> U, s: seq<T>)
    requires forall a, b :: less(f(a), f(b)) == leq(a, b)
    ensures Mapped(f, Sort(leq, s)) == Sort(less, Mapped(f, s))
  {
    if s != [] {
      MappedSort(leq, less, f, s[..|s| - 1]);
      MappedInsert(leq, less, f, s[|s| - 1], Sort(leq, s[..|s| - 1]));
      assert Mapped(f, s)[..|s| - 1] == Mapped(f, s[..|s| - 1]);
    }
  }
}
