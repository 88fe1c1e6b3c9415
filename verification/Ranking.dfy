/**
 How routes are ranked: by the number of third-party providers first, then by
 native and installed coverage, by the preferences of the request, by how many
 assignments have primary, secondary and fallback support, and by confidence.
 The ranking is a total preorder.
 */
module Ranking {
  import opened Base
  import opened Sorting

  datatype Support = Primary | Secondary | Fallback

  /** Confidence is an exact number. */
  datatype Assignment = Assignment(
    capabilityId: string,
    providerId: string,
    native: bool,
    integrationIds: seq<string>,
    support: Support,
    confidence: real,
    installed: bool,
    preferredRank: Option<nat>)

  const UNRANKED: int := MAX_SAFE_INTEGER

  datatype Rank = Rank(
    providers: int,
    native: int,
    installed: int,
    preferred: seq<int>,
    primary: int,
    secondary: int,
    fallback: int,
    confidence: real)

  /** The architecture of a route: which provider covers which capability. */
  type Signature = seq<(string, string)>

  /** What the environment decides: how strings and signatures are compared, and how a number is written. */
  datatype Orders = Orders(
    locale: Order,
    units: Order,
    number: real -> string,
    signatures: (Signature, Signature) -> bool)

  function SignatureOf(assignments: seq<Assignment>): Signature {
    seq(|assignments|, i requires 0 <= i < |assignments| => (assignments[i].capabilityId, assignments[i].providerId))
  }

  /** The third-party providers of a route. */
  function ThirdParty(assignments: seq<Assignment>): set<string> {
    set a | a in assignments && !a.native :: a.providerId
  }

  function Installed(assignments: seq<Assignment>): set<string> {
    set a | a in assignments && a.providerId in ThirdParty(assignments) && a.installed :: a.providerId
  }

  /** The third-party providers of a route, each once. */
  function ProviderList(assignments: seq<Assignment>): (list: seq<string>)
    ensures forall p :: p in list <==> p in ThirdParty(assignments)
    ensures forall i, j :: 0 <= i < j < |list| ==> list[i] != list[j]
  {
    if assignments == [] then []
    else
      var init, last := assignments[..|assignments| - 1], assignments[|assignments| - 1];
      assert assignments == init + [last];
      var list := ProviderList(init);
      if last.native || last.providerId in list then list else list + [last.providerId]
  }

  /** The best preference among the assignments of a provider. */
  function BestPreference(assignments: seq<Assignment>, provider: string): int {
    if assignments == [] then UNRANKED
    else
      var last := assignments[|assignments| - 1];
      var rest := BestPreference(assignments[..|assignments| - 1], provider);
      if last.providerId == provider && last.preferredRank.Some? && last.preferredRank.value < rest
      then last.preferredRank.value else rest
  }

  function Ascending(): (int, int) -> bool {
    (x, y) => x <= y
  }

  function PreferredVector(assignments: seq<Assignment>): seq<int> {
    var list := ProviderList(assignments);
    Sort(Ascending(), seq(|list|, i requires 0 <= i < |list| => BestPreference(assignments, list[i])))
  }

  function Count(assignments: seq<Assignment>, has: Assignment -> bool): nat {
    if assignments == [] then 0
    else Count(assignments[..|assignments| - 1], has) + if has(assignments[|assignments| - 1]) then 1 else 0
  }

  function ConfidenceTotal(assignments: seq<Assignment>): real {
    if assignments == [] then 0.0
    else ConfidenceTotal(assignments[..|assignments| - 1]) + assignments[|assignments| - 1].confidence
  }

  function IsNative(): Assignment -> bool {
    (a: Assignment) => a.native
  }

  function Gives(support: Support): Assignment -> bool {
    (a: Assignment) => a.support == support
  }

  function RankOf(assignments: seq<Assignment>): Rank {
    Rank(
      |ThirdParty(assignments)|,
      Count(assignments, IsNative()),
      |Installed(assignments)|,
      PreferredVector(assignments),
      Count(assignments, Gives(Primary)),
      Count(assignments, Gives(Secondary)),
      Count(assignments, Gives(Fallback)),
      ConfidenceTotal(assignments))
  }

  // Comparison: -1 for better, 0 for as good, 1 for worse.

  function CompareNumbers(x: real, y: real): int {
    if x < y then -1 else if x > y then 1 else 0
  }

  function CompareInts(x: int, y: int): int {
    if x < y then -1 else if x > y then 1 else 0
  }

  function At(v: seq<int>, i: nat): int {
    if i < |v| then v[i] else UNRANKED
  }

  function Max(x: nat, y: nat): nat {
    if x < y then y else x
  }

  /** From position i on; a missing entry counts as unranked. */
  function CompareFrom(v: seq<int>, w: seq<int>, i: nat): int
    decreases Max(|v|, |w|) - i
  {
    if i >= Max(|v|, |w|) then 0
    else
      var c := CompareInts(At(v, i), At(w, i));
      if c != 0 then c else CompareFrom(v, w, i + 1)
  }

  function Then(c: int, d: int): int {
    if c != 0 then c else d
  }

  function Compare(x: Rank, y: Rank): int {
    Then(CompareInts(x.providers, y.providers),
    Then(CompareInts(-x.native, -y.native),
    Then(CompareInts(-x.installed, -y.installed),
    Then(CompareFrom(x.preferred, y.preferred, 0),
    Then(CompareInts(-x.primary, -y.primary),
    Then(CompareInts(-x.secondary, -y.secondary),
    Then(CompareInts(x.fallback, y.fallback),
         CompareNumbers(-x.confidence, -y.confidence))))))))
  }

  method CompareVectors(v: seq<int>, w: seq<int>) returns (result: int)
    ensures result == CompareFrom(v, w, 0)
  {
    var length := Max(|v|, |w|);
    var i: nat := 0;
    while i < length
      invariant i <= length
      invariant CompareFrom(v, w, 0) == CompareFrom(v, w, i)
    {
      result := CompareInts(At(v, i), At(w, i));
      if result != 0 {
        return;
      }
      i := i + 1;
    }
    result := 0;
  }

  method CompareRouteCandidates(x: Rank, y: Rank) returns (result: int)
    ensures result == Compare(x, y)
  {
    var scalars := [CompareInts(x.providers, y.providers), CompareInts(-x.native, -y.native),
                    CompareInts(-x.installed, -y.installed)];
    var i := 0;
    while i < |scalars|
      invariant 0 <= i <= |scalars|
      invariant forall j :: 0 <= j < i ==> scalars[j] == 0
    {
      if scalars[i] != 0 {
        assert (i > 0 ==> scalars[0] == 0) && (i > 1 ==> scalars[1] == 0);
        return scalars[i];
      }
      i := i + 1;
    }
    assert scalars[0] == 0 && scalars[1] == 0 && scalars[2] == 0;
    var preferred := CompareVectors(x.preferred, y.preferred);
    if preferred != 0 {
      return preferred;
    }
    var supports := [CompareInts(-x.primary, -y.primary), CompareInts(-x.secondary, -y.secondary),
                     CompareInts(x.fallback, y.fallback), CompareNumbers(-x.confidence, -y.confidence)];
    i := 0;
    while i < |supports|
      invariant 0 <= i <= |supports|
      invariant forall j :: 0 <= j < i ==> supports[j] == 0
    {
      if supports[i] != 0 {
        assert (i > 0 ==> supports[0] == 0) && (i > 1 ==> supports[1] == 0) && (i > 2 ==> supports[2] == 0);
        hide CompareFrom;
        return supports[i];
      }
      i := i + 1;
    }
    assert supports[0] == 0 && supports[1] == 0 && supports[2] == 0 && supports[3] == 0;
    result := 0;
  }

  // The ranking is a total preorder.

  lemma {:induction false} VectorsOpposite(v: seq<int>, w: seq<int>, i: nat)
    ensures CompareFrom(v, w, i) == -CompareFrom(w, v, i)
    ensures -1 <= CompareFrom(v, w, i) <= 1
    decreases Max(|v|, |w|) - i
  {
    if i < Max(|v|, |w|) {
      VectorsOpposite(v, w, i + 1);
    }
  }

  lemma {:induction false} VectorsTransitive(u: seq<int>, v: seq<int>, w: seq<int>, i: nat)
    requires CompareFrom(u, v, i) <= 0 && CompareFrom(v, w, i) <= 0
    ensures CompareFrom(u, w, i) <= 0
    ensures CompareFrom(u, w, i) == 0 ==> CompareFrom(u, v, i) == 0 && CompareFrom(v, w, i) == 0
    decreases Max(Max(|u|, |v|), |w|) - i
  {
    if i < Max(Max(|u|, |v|), |w|) {
      if At(u, i) == At(v, i) == At(w, i) {
        VectorsTransitive(u, v, w, i + 1);
      }
    }
  }

  lemma CompareOpposite(x: Rank, y: Rank)
    ensures Compare(x, y) == -Compare(y, x)
    ensures -1 <= Compare(x, y) <= 1
  {
    VectorsOpposite(x.preferred, y.preferred, 0);
  }

  /** Ranking is transitive, and stays strict when one of the two steps is. */
  lemma CompareTransitive(x: Rank, y: Rank, z: Rank)
    requires Compare(x, y) <= 0 && Compare(y, z) <= 0
    ensures Compare(x, z) <= 0
    ensures Compare(x, z) == 0 ==> Compare(x, y) == 0 && Compare(y, z) == 0
  {
    hide CompareFrom;
    VectorsOpposite(x.preferred, y.preferred, 0);
    VectorsOpposite(y.preferred, z.preferred, 0);
    VectorsOpposite(x.preferred, z.preferred, 0);
    if CompareFrom(x.preferred, y.preferred, 0) <= 0 && CompareFrom(y.preferred, z.preferred, 0) <= 0 {
      VectorsTransitive(x.preferred, y.preferred, z.preferred, 0);
    }
  }
}
