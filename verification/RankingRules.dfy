/**
 Which of two routes ranks better, said of their assignments alone: counts of
 positions and of providers, one criterion after the other.
 */
module RankingRules {
  import opened Base
  import opened Sorting
  import opened Ranking

  // The criteria.

  /** The third-party providers of a route. */
  ghost function Chosen(x: seq<Assignment>): set<string> {
    set i | 0 <= i < |x| && !x[i].native :: x[i].providerId
  }

  /** Those of them that are installed. */
  ghost function ChosenInstalled(x: seq<Assignment>): set<string> {
    set i | 0 <= i < |x| && x[i].installed && x[i].providerId in Chosen(x) :: x[i].providerId
  }

  /** Those of them that are at position m of the request's preferences, or before. */
  ghost function ChosenPreferred(x: seq<Assignment>, m: int): set<string> {
    set i | 0 <= i < |x| && x[i].providerId in Chosen(x) && x[i].preferredRank.Some? && x[i].preferredRank.value <= m ::
      x[i].providerId
  }

  /** The number of capabilities that are covered natively. */
  ghost function Natively(x: seq<Assignment>): nat {
    |set i | 0 <= i < |x| && x[i].native|
  }

  /** The number of capabilities that are covered with this support. */
  ghost function With(x: seq<Assignment>, support: Support): nat {
    |set i | 0 <= i < |x| && x[i].support == support|
  }

  ghost function Confidence(x: seq<Assignment>): real {
    if x == [] then 0.0 else x[0].confidence + Confidence(x[1..])
  }

  /** At every position of the preferences as many providers of x as of y have been reached. */
  ghost predicate PreferredAlike(x: seq<Assignment>, y: seq<Assignment>) {
    forall m :: 0 <= m < UNRANKED ==> |ChosenPreferred(x, m)| == |ChosenPreferred(y, m)|
  }

  /** At the first position at which the numbers differ, x has more. */
  ghost predicate PreferredMore(x: seq<Assignment>, y: seq<Assignment>) {
    exists m ::
      && 0 <= m < UNRANKED && |ChosenPreferred(x, m)| > |ChosenPreferred(y, m)|
      && forall j :: 0 <= j < m ==> |ChosenPreferred(x, j)| == |ChosenPreferred(y, j)|
  }

  /**
   Fewer third-party providers; else more capabilities covered natively; else more of the providers installed; else the
   more preferred providers; else more primary support, then more secondary, then less fallback; else more confidence.
   */
  ghost predicate Beats(x: seq<Assignment>, y: seq<Assignment>) {
    if |Chosen(x)| != |Chosen(y)| then |Chosen(x)| < |Chosen(y)|
    else if Natively(x) != Natively(y) then Natively(x) > Natively(y)
    else if |ChosenInstalled(x)| != |ChosenInstalled(y)| then |ChosenInstalled(x)| > |ChosenInstalled(y)|
    else if !PreferredAlike(x, y) then PreferredMore(x, y)
    else if With(x, Primary) != With(y, Primary) then With(x, Primary) > With(y, Primary)
    else if With(x, Secondary) != With(y, Secondary) then With(x, Secondary) > With(y, Secondary)
    else if With(x, Fallback) != With(y, Fallback) then With(x, Fallback) < With(y, Fallback)
    else Confidence(x) > Confidence(y)
  }

  // Counting.

  lemma SameChosen(x: seq<Assignment>)
    ensures ThirdParty(x) == Chosen(x) && Installed(x) == ChosenInstalled(x)
  {
    forall q ensures q in ThirdParty(x) <==> q in Chosen(x) {
      if q in Chosen(x) {
        var i :| 0 <= i < |x| && !x[i].native && x[i].providerId == q;
        assert x[i] in x;
      }
    }
    forall q ensures q in Installed(x) <==> q in ChosenInstalled(x) {
      if q in ChosenInstalled(x) {
        var i :| 0 <= i < |x| && x[i].installed && x[i].providerId in Chosen(x) && x[i].providerId == q;
        assert x[i] in x;
      }
    }
  }

  ghost function Positions(x: seq<Assignment>, has: Assignment -> bool): set<int> {
    set i | 0 <= i < |x| && has(x[i])
  }

  lemma {:induction false} CountIsSize(x: seq<Assignment>, has: Assignment -> bool)
    ensures Count(x, has) == |Positions(x, has)|
  {
    if x != [] {
      var init := x[..|x| - 1];
      CountIsSize(init, has);
      assert Positions(x, has) == Positions(init, has) + (if has(x[|x| - 1]) then {|x| - 1} else {});
    } else {
      assert Positions(x, has) == {};
    }
  }

  lemma CountsAre(x: seq<Assignment>)
    ensures Count(x, IsNative()) == Natively(x)
    ensures Count(x, Gives(Primary)) == With(x, Primary) && Count(x, Gives(Secondary)) == With(x, Secondary)
    ensures Count(x, Gives(Fallback)) == With(x, Fallback)
  {
    CountIsSize(x, IsNative());
    CountIsSize(x, Gives(Primary));
    CountIsSize(x, Gives(Secondary));
    CountIsSize(x, Gives(Fallback));
    assert Positions(x, IsNative()) == set i | 0 <= i < |x| && x[i].native;
    assert Positions(x, Gives(Primary)) == set i | 0 <= i < |x| && x[i].support == Primary;
    assert Positions(x, Gives(Secondary)) == set i | 0 <= i < |x| && x[i].support == Secondary;
    assert Positions(x, Gives(Fallback)) == set i | 0 <= i < |x| && x[i].support == Fallback;
  }

  lemma {:induction false} ConfidenceLast(x: seq<Assignment>)
    requires x != []
    ensures Confidence(x) == Confidence(x[..|x| - 1]) + x[|x| - 1].confidence
  {
    if |x| > 1 {
      ConfidenceLast(x[1..]);
      assert x[1..][..|x| - 2] == x[..|x| - 1][1..];
    }
  }

  lemma {:induction false} ConfidenceIs(x: seq<Assignment>)
    ensures ConfidenceTotal(x) == Confidence(x)
  {
    if x != [] {
      ConfidenceIs(x[..|x| - 1]);
      ConfidenceLast(x);
    }
  }

  // Sorted vectors of one length.

  function UpTo(m: int): int -> bool {
    (n: int) => n <= m
  }

  /** How many entries are at most m. */
  function Reached(v: seq<int>, m: int): nat {
    |Filter(UpTo(m), v)|
  }

  lemma {:induction false} FilterCounts<T>(keep: T -> bool, s: seq<T>, a: T)
    ensures multiset(Filter(keep, s))[a] == if keep(a) then multiset(s)[a] else 0
  {
    if s != [] {
      FilterCounts(keep, s[..|s| - 1], a);
      assert s == s[..|s| - 1] + [s[|s| - 1]];
    }
  }

  lemma ReachedPermutes(v: seq<int>, w: seq<int>, m: int)
    requires multiset(v) == multiset(w)
    ensures Reached(v, m) == Reached(w, m)
  {
    forall a ensures multiset(Filter(UpTo(m), v))[a] == multiset(Filter(UpTo(m), w))[a] {
      FilterCounts(UpTo(m), v, a);
      FilterCounts(UpTo(m), w, a);
    }
    assert multiset(Filter(UpTo(m), v)) == multiset(Filter(UpTo(m), w));
    assert |multiset(Filter(UpTo(m), v))| == |multiset(Filter(UpTo(m), w))|;
  }

  lemma {:induction false} NoneReached(v: seq<int>, m: int)
    requires forall i :: 0 <= i < |v| ==> v[i] > m
    ensures Reached(v, m) == 0
  {
    if v != [] { NoneReached(v[..|v| - 1], m); }
  }

  /** Where two sorted vectors first differ, the one with the smaller entry has reached more by then. */
  lemma FirstDifference(v: seq<int>, w: seq<int>, i: nat)
    requires i < |v| == |w| && v[..i] == w[..i] && v[i] < w[i]
    requires Sorted(Ascending(), v) && Sorted(Ascending(), w)
    ensures Reached(v, v[i]) > Reached(w, v[i])
    ensures forall m :: m < v[i] ==> Reached(v, m) == Reached(w, m)
  {
    assert v == v[..i] + v[i..] && w == w[..i] + w[i..];
    forall j | i <= j < |v| ensures v[j] >= v[i] && w[j] >= w[i] {
      assert i < j ==> Ascending()(v[i], v[j]) && Ascending()(w[i], w[j]);
    }
    forall m | m < v[i] ensures Reached(v, m) == Reached(w, m) {
      FilterConcat(UpTo(m), v[..i], v[i..]);
      FilterConcat(UpTo(m), w[..i], w[i..]);
      NoneReached(v[i..], m);
      NoneReached(w[i..], m);
    }
    FilterConcat(UpTo(v[i]), v[..i], v[i..]);
    FilterConcat(UpTo(v[i]), w[..i], w[i..]);
    NoneReached(w[i..], v[i]);
    FilterMembers(UpTo(v[i]), v[i..], v[i]);
    assert v[i] == v[i..][0];
  }

  /** The comparison of vectors of one length finds the first difference. */
  lemma {:induction false} ComparesFirst(v: seq<int>, w: seq<int>, i: nat) returns (k: nat)
    requires |v| == |w| && i <= |v| && v[..i] == w[..i]
    ensures k <= |v| && v[..k] == w[..k]
    ensures CompareFrom(v, w, i) < 0 <==> k < |v| && v[k] < w[k]
    ensures CompareFrom(v, w, i) > 0 <==> k < |v| && v[k] > w[k]
    ensures CompareFrom(v, w, i) == 0 <==> k == |v|
    decreases |v| - i
  {
    if i == |v| || v[i] != w[i] {
      k := i;
    } else {
      assert v[..i + 1] == v[..i] + [v[i]] && w[..i + 1] == w[..i] + [w[i]];
      k := ComparesFirst(v, w, i + 1);
    }
  }

  // Preferences.

  lemma {:induction false} BestUpTo(x: seq<Assignment>, provider: string, m: int)
    requires m < UNRANKED
    ensures BestPreference(x, provider) <= m <==>
            exists i :: 0 <= i < |x| && x[i].providerId == provider && x[i].preferredRank.Some?
                        && x[i].preferredRank.value <= m
    ensures 0 <= BestPreference(x, provider) <= UNRANKED
  {
    if x != [] {
      BestUpTo(x[..|x| - 1], provider, m);
    }
  }

  ghost function Reaching(list: seq<string>, best: string -> int, m: int): set<string> {
    set p | p in list && best(p) <= m
  }

  lemma ReachingMore(init: seq<string>, last: string, best: string -> int, m: int)
    requires last !in init
    ensures last !in Reaching(init, best, m)
    ensures Reaching(init + [last], best, m) == Reaching(init, best, m) + (if best(last) <= m then {last} else {})
  {
  }

  lemma ReachedMore(v: seq<int>, n: int, m: int)
    ensures Reached(v + [n], m) == Reached(v, m) + if n <= m then 1 else 0
  {
    FilterConcat(UpTo(m), v, [n]);
    assert [n][..0] == [];
  }

  lemma {:induction false} ReachedInList(list: seq<string>, best: string -> int, m: int)
    requires forall i, j :: 0 <= i < j < |list| ==> list[i] != list[j]
    ensures Reached(Mapped(best, list), m) == |Reaching(list, best, m)|
  {
    if list == [] {
      assert Reaching(list, best, m) == {};
    } else {
      var init, last := list[..|list| - 1], list[|list| - 1];
      assert list == init + [last];
      ReachedInList(init, best, m);
      assert Mapped(best, list) == Mapped(best, init) + [best(last)];
      hide Reached, Reaching;
      ReachedMore(Mapped(best, init), best(last), m);
      ReachingMore(init, last, best, m);
    }
  }

  function Best(x: seq<Assignment>): string -> int {
    (p: string) => BestPreference(x, p)
  }

  lemma VectorIs(x: seq<Assignment>)
    ensures PreferredVector(x) == Sort(Ascending(), Mapped(Best(x), ProviderList(x)))
  {
    var list := ProviderList(x);
    hide ProviderList, BestPreference, Sort;
    assert seq(|list|, i requires 0 <= i < |list| => BestPreference(x, list[i])) == Mapped(Best(x), list);
  }

  lemma ReachingIsPreferred(x: seq<Assignment>, m: int)
    requires m < UNRANKED
    ensures Reaching(ProviderList(x), Best(x), m) == ChosenPreferred(x, m)
  {
    var list := ProviderList(x);
    SameChosen(x);
    hide ProviderList, BestPreference, ThirdParty, Chosen;
    forall p ensures p in Reaching(list, Best(x), m) <==> p in ChosenPreferred(x, m) {
      BestUpTo(x, p, m);
    }
  }

  lemma PreferredIs(x: seq<Assignment>, m: int)
    requires m < UNRANKED
    ensures Reached(PreferredVector(x), m) == |ChosenPreferred(x, m)|
  {
    var v := Mapped(Best(x), ProviderList(x));
    hide Sort, Reached, Reaching, ChosenPreferred, Best, PreferredVector;
    VectorIs(x);
    SortPermutes(Ascending(), v);
    ReachedPermutes(PreferredVector(x), v, m);
    ReachedInList(ProviderList(x), Best(x), m);
    ReachingIsPreferred(x, m);
  }

  lemma VectorOf(x: seq<Assignment>)
    ensures |PreferredVector(x)| == |Chosen(x)| && Ranks(PreferredVector(x))
  {
    var list := ProviderList(x);
    var v := Mapped(Best(x), list);
    VectorIs(x);
    SortPermutes(Ascending(), v);
    SortMembers(Ascending(), v);
    SortSorts(Ascending(), v);
    SameChosen(x);
    ListSize(list, Chosen(x));
    hide Sort, Sorted, PreferredVector, BestPreference, ProviderList;
    var sorted := PreferredVector(x);
    forall i | 0 <= i < |sorted| ensures 0 <= sorted[i] <= UNRANKED {
      assert sorted[i] in v;
      var j :| 0 <= j < |v| && v[j] == sorted[i];
      BestUpTo(x, list[j], 0);
    }
  }

  lemma {:induction false} ListSize(list: seq<string>, elements: set<string>)
    requires forall i, j :: 0 <= i < j < |list| ==> list[i] != list[j]
    requires forall p :: p in list <==> p in elements
    ensures |list| == |elements|
  {
    if list != [] {
      var init, last := list[..|list| - 1], list[|list| - 1];
      assert list == init + [last];
      ListSize(init, elements - {last});
    } else {
      assert elements == {};
    }
  }

  /** v has reached more than w at the first value at which that differs. */
  ghost predicate MoreReached(v: seq<int>, w: seq<int>) {
    exists m ::
      && 0 <= m < UNRANKED && Reached(v, m) > Reached(w, m)
      && forall j :: 0 <= j < m ==> Reached(v, j) == Reached(w, j)
  }

  ghost predicate AsReached(v: seq<int>, w: seq<int>) {
    forall m :: 0 <= m < UNRANKED ==> Reached(v, m) == Reached(w, m)
  }

  lemma NotBoth(v: seq<int>, w: seq<int>)
    ensures !(MoreReached(v, w) && AsReached(v, w)) && !(MoreReached(v, w) && MoreReached(w, v))
  {
    hide Reached;
  }

  ghost predicate Ranks(v: seq<int>) {
    Sorted(Ascending(), v) && forall i :: 0 <= i < |v| ==> 0 <= v[i] <= UNRANKED
  }

  lemma DifferenceIsReached(v: seq<int>, w: seq<int>, k: nat)
    requires Ranks(v) && Ranks(w) && k < |v| == |w| && v[..k] == w[..k] && v[k] < w[k]
    ensures MoreReached(v, w)
  {
    FirstDifference(v, w, k);
    hide Reached, Sorted;
    assert 0 <= v[k] < UNRANKED;
  }

  lemma VectorsCompare(v: seq<int>, w: seq<int>)
    requires Ranks(v) && Ranks(w) && |v| == |w|
    ensures CompareFrom(v, w, 0) == 0 <==> AsReached(v, w)
    ensures CompareFrom(v, w, 0) < 0 <==> MoreReached(v, w)
  {
    hide Ranks, MoreReached, CompareFrom, Reached;
    NotBoth(v, w);
    NotBoth(w, v);
    var k := ComparesFirst(v, w, 0);
    if k == |v| {
      assert v == v[..k] && w == w[..k];
    } else if v[k] < w[k] {
      DifferenceIsReached(v, w, k);
    } else {
      DifferenceIsReached(w, v, k);
    }
  }

  lemma PreferencesCompare(x: seq<Assignment>, y: seq<Assignment>)
    requires |Chosen(x)| == |Chosen(y)|
    ensures var c := CompareFrom(PreferredVector(x), PreferredVector(y), 0);
            && (c == 0 <==> PreferredAlike(x, y))
            && (c < 0 <==> PreferredMore(x, y))
  {
    var v, w := PreferredVector(x), PreferredVector(y);
    VectorOf(x);
    VectorOf(y);
    VectorsCompare(v, w);
    hide PreferredVector, ChosenPreferred, Reached, Sorted, CompareFrom, Chosen;
    forall m: int | m < UNRANKED
      ensures Reached(v, m) == |ChosenPreferred(x, m)| && Reached(w, m) == |ChosenPreferred(y, m)|
    {
      PreferredIs(x, m);
      PreferredIs(y, m);
    }
  }

  /** One route ranks better than another if and only if it beats it, criterion by criterion. */
  lemma RanksExactly(x: seq<Assignment>, y: seq<Assignment>)
    ensures Compare(RankOf(x), RankOf(y)) < 0 <==> Beats(x, y)
  {
    SameChosen(x);
    SameChosen(y);
    CountsAre(x);
    CountsAre(y);
    ConfidenceIs(x);
    ConfidenceIs(y);
    if |Chosen(x)| == |Chosen(y)| { PreferencesCompare(x, y); }
    hide ThirdParty, Installed, Chosen, ChosenInstalled, Count, Natively, With, Confidence, ConfidenceTotal,
      PreferredVector, PreferredAlike, PreferredMore, CompareFrom;
  }
}
