/**
 The exhaustive search for a route: the options of each capability, and all
 combinations of one option or omission for each capability of the request.
 */
module RouteSearch {
  import opened Base
  import opened Sorting
  import opened Requests
  import opened Ranking
  import opened Candidates

  /** A request, normalized, with the candidates for it. */
  datatype Problem = Problem(
    capabilities: seq<Capability>,
    known: set<string>,
    candidates: seq<ProviderCandidate>,
    preferred: seq<string>,
    maxProviders: nat)

  datatype Route = Route(assignments: seq<Assignment>, omitted: seq<string>)

  // The options of one capability.

  function IndexOf(values: seq<string>, value: string, i: nat): Option<nat>
    decreases |values| - i
  {
    if i >= |values| then None else if values[i] == value then Some(i) else IndexOf(values, value, i + 1)
  }

  function AssignmentOf(p: Problem, c: ProviderCandidate, claim: Claim): Assignment {
    Assignment(claim.capabilityId, c.providerId, c.native, c.integrationIds, claim.support, claim.confidence,
               c.installed, IndexOf(p.preferred, c.providerId, 0))
  }

  /** What the first n claims of a candidate offer for a capability. */
  function Offered(p: Problem, c: ProviderCandidate, id: string, n: nat): seq<Assignment>
    requires n <= |c.claims|
  {
    if n == 0 then []
    else
      var rest := Offered(p, c, id, n - 1);
      if c.claims[n - 1].capabilityId == id && c.environmentSupported then rest + [AssignmentOf(p, c, c.claims[n - 1])]
      else rest
  }

  /** What the first n candidates offer. */
  function Supported(p: Problem, id: string, n: nat): seq<Assignment>
    requires n <= |p.candidates|
  {
    if n == 0 then []
    else Supported(p, id, n - 1) + Offered(p, p.candidates[n - 1], id, |p.candidates[n - 1].claims|)
  }

  function SupportRank(support: Support): nat {
    match support
    case Primary => 0
    case Secondary => 1
    case Fallback => 2
  }

  /** The text by which options are sorted. The confidence is written negated, and compared as text. */
  function SortKey(o: Orders, support: Support, confidence: real, providerId: string): string {
    ["012"[SupportRank(support)]] + "\0" + o.number(-confidence) + "\0" + providerId
  }

  function OptionOrder(o: Orders): (Assignment, Assignment) -> bool {
    (a: Assignment, b: Assignment) =>
      o.locale(SortKey(o, a.support, a.confidence, a.providerId), SortKey(o, b.support, b.confidence, b.providerId))
  }

  function Options(o: Orders, p: Problem, id: string): seq<Assignment> {
    if id in p.known then Sort(OptionOrder(o), Supported(p, id, |p.candidates|)) else []
  }

  method AssignmentOptions(o: Orders, p: Problem, id: string) returns (supported: seq<Assignment>)
    requires id in p.known
    ensures supported == Options(o, p, id)
  {
    supported := [];
    for n := 0 to |p.candidates|
      invariant supported == Supported(p, id, n)
    {
      var c := p.candidates[n];
      for m := 0 to |c.claims|
        invariant supported == Supported(p, id, n) + Offered(p, c, id, m)
      {
        if c.claims[m].capabilityId == id && c.environmentSupported {
          supported := supported + [AssignmentOf(p, c, c.claims[m])];
        }
      }
    }
    supported := Sort(OptionOrder(o), supported);
  }

  /** a is what some candidate claims for the capability. */
  ghost predicate Offers(p: Problem, id: string, a: Assignment) {
    id in p.known && exists n, m :: 0 <= n < |p.candidates| && 0 <= m < |p.candidates[n].claims|
                                    && Makes(p, id, p.candidates[n], p.candidates[n].claims[m], a)
  }

  predicate Makes(p: Problem, id: string, c: ProviderCandidate, claim: Claim, a: Assignment) {
    claim.capabilityId == id && c.environmentSupported && a == AssignmentOf(p, c, claim)
  }

  lemma {:induction false} OfferedMakes(p: Problem, c: ProviderCandidate, id: string, n: nat, a: Assignment)
    requires n <= |c.claims|
    ensures a in Offered(p, c, id, n) <==> exists m :: 0 <= m < n && Makes(p, id, c, c.claims[m], a)
  {
    if n > 0 {
      OfferedMakes(p, c, id, n - 1, a);
      assert Makes(p, id, c, c.claims[n - 1], a) <==>
             c.claims[n - 1].capabilityId == id && c.environmentSupported && a == AssignmentOf(p, c, c.claims[n - 1]);
      hide Makes, AssignmentOf;
    }
  }

  lemma {:induction false} SupportedMakes(p: Problem, id: string, n: nat, a: Assignment)
    requires n <= |p.candidates|
    ensures a in Supported(p, id, n) <==>
            exists k, m :: 0 <= k < n && 0 <= m < |p.candidates[k].claims|
                           && Makes(p, id, p.candidates[k], p.candidates[k].claims[m], a)
  {
    hide Makes, Offered;
    if n > 0 {
      SupportedMakes(p, id, n - 1, a);
      OfferedMakes(p, p.candidates[n - 1], id, |p.candidates[n - 1].claims|, a);
    }
  }

  lemma OptionsOffer(o: Orders, p: Problem, id: string, a: Assignment)
    ensures a in Options(o, p, id) <==> Offers(p, id, a)
  {
    hide Makes, Sort, Supported;
    if id in p.known {
      SortMembers(OptionOrder(o), Supported(p, id, |p.candidates|));
      SupportedMakes(p, id, |p.candidates|, a);
    }
  }

  // The combinations.

  function Omit(r: Route, id: string): Route {
    r.(omitted := r.omitted + [id])
  }

  function Assign(r: Route, a: Assignment): Route {
    r.(assignments := r.assignments + [a])
  }

  function AssignFirst(r: Route, options: seq<Assignment>, n: nat): seq<Route>
    requires n <= |options|
  {
    if n == 0 then [] else AssignFirst(r, options, n - 1) + [Assign(r, options[n - 1])]
  }

  function Extended(c: Capability, options: seq<Assignment>, r: Route): seq<Route> {
    (if c.required then [] else [Omit(r, c.id)]) + AssignFirst(r, options, |options|)
  }

  function AllExtended(c: Capability, options: seq<Assignment>, routes: seq<Route>): seq<Route> {
    if routes == [] then []
    else AllExtended(c, options, routes[..|routes| - 1]) + Extended(c, options, routes[|routes| - 1])
  }

  /** The combinations for the first n capabilities. */
  function Combinations(o: Orders, p: Problem, n: nat): seq<Route>
    requires n <= |p.capabilities|
  {
    if n == 0 then [Route([], [])]
    else AllExtended(p.capabilities[n - 1], Options(o, p, p.capabilities[n - 1].id), Combinations(o, p, n - 1))
  }

  /** For each capability, the assignment chosen for it, or None. */
  type Choice = seq<Option<Assignment>>

  ghost predicate MayChoose(p: Problem, c: Capability, a: Option<Assignment>) {
    if a.None? then !c.required else Offers(p, c.id, a.value)
  }

  ghost predicate Chooses(p: Problem, choice: Choice) {
    |choice| <= |p.capabilities| && forall i :: 0 <= i < |choice| ==> MayChoose(p, p.capabilities[i], choice[i])
  }

  ghost function RouteOf(p: Problem, choice: Choice): Route
    requires |choice| <= |p.capabilities|
  {
    if choice == [] then Route([], [])
    else
      var r := RouteOf(p, choice[..|choice| - 1]);
      var last := choice[|choice| - 1];
      if last.None? then Omit(r, p.capabilities[|choice| - 1].id) else Assign(r, last.value)
  }

  /** r is what some choice for the first n capabilities amounts to. */
  ghost predicate Arises(p: Problem, n: nat, r: Route) {
    exists choice: Choice :: |choice| == n && Chooses(p, choice) && RouteOf(p, choice) == r
  }

  lemma {:induction false} AssignedIn(r: Route, options: seq<Assignment>, n: nat, s: Route)
    requires n <= |options|
    ensures s in AssignFirst(r, options, n) <==> exists i :: 0 <= i < n && s == Assign(r, options[i])
  {
    if n > 0 {
      AssignedIn(r, options, n - 1, s);
    }
  }

  /** s extends r by an option or, if that is allowed, by omission. */
  ghost predicate Extends(c: Capability, options: seq<Assignment>, r: Route, s: Route) {
    || (!c.required && s == Omit(r, c.id))
    || exists i :: 0 <= i < |options| && s == Assign(r, options[i])
  }

  lemma {:induction false} ExtendedIn(c: Capability, options: seq<Assignment>, routes: seq<Route>, s: Route)
    ensures s in AllExtended(c, options, routes) <==> exists i :: 0 <= i < |routes| && Extends(c, options, routes[i], s)
  {
    if routes != [] {
      var init, last := routes[..|routes| - 1], routes[|routes| - 1];
      ExtendedIn(c, options, init, s);
      AssignedIn(last, options, |options|, s);
      assert s in Extended(c, options, last) <==> Extends(c, options, last, s);
      hide Extends, Extended, AssignFirst;
      assert forall i :: 0 <= i < |init| ==> routes[i] == init[i];
    }
  }

  lemma NothingChosen(p: Problem, s: Route)
    ensures Arises(p, 0, s) <==> s == Route([], [])
  {
    assert Chooses(p, []) && RouteOf(p, []) == Route([], []);
  }

  /** The enumeration misses no choice and adds none. */
  lemma {:induction false} EnumerationIsComplete(o: Orders, p: Problem, n: nat, s: Route)
    requires n <= |p.capabilities|
    ensures s in Combinations(o, p, n) <==> Arises(p, n, s)
  {
    hide Arises, Extends, Options, AllExtended;
    if n == 0 {
      NothingChosen(p, s);
    } else {
      var c := p.capabilities[n - 1];
      var before := Combinations(o, p, n - 1);
      ExtendedIn(c, Options(o, p, c.id), before, s);
      if s in Combinations(o, p, n) {
        var i :| 0 <= i < |before| && Extends(c, Options(o, p, c.id), before[i], s);
        EnumerationIsComplete(o, p, n - 1, before[i]);
        StepArises(o, p, n, before[i], s);
      } else if Arises(p, n, s) {
        ArisesStep(o, p, n, s);
        var r :| Arises(p, n - 1, r) && Extends(c, Options(o, p, c.id), r, s);
        EnumerationIsComplete(o, p, n - 1, r);
      }
    }
  }

  lemma ChoosesMore(p: Problem, choice: Choice, last: Option<Assignment>)
    requires |choice| < |p.capabilities| && Chooses(p, choice) && MayChoose(p, p.capabilities[|choice|], last)
    ensures Chooses(p, choice + [last])
    ensures RouteOf(p, choice + [last])
         == if last.None? then Omit(RouteOf(p, choice), p.capabilities[|choice|].id)
            else Assign(RouteOf(p, choice), last.value)
  {
    hide MayChoose;
    assert (choice + [last])[..|choice|] == choice;
  }

  lemma StepArises(o: Orders, p: Problem, n: nat, r: Route, s: Route)
    requires 0 < n <= |p.capabilities| && Arises(p, n - 1, r)
    requires var c := p.capabilities[n - 1]; Extends(c, Options(o, p, c.id), r, s)
    ensures Arises(p, n, s)
  {
    hide Options, Offers, RouteOf, Chooses;
    var c := p.capabilities[n - 1];
    var choice: Choice :| |choice| == n - 1 && Chooses(p, choice) && RouteOf(p, choice) == r;
    var options := Options(o, p, c.id);
    if !c.required && s == Omit(r, c.id) {
      ChoosesMore(p, choice, None);
      assert |choice + [None]| == n;
    } else {
      var i :| 0 <= i < |options| && s == Assign(r, options[i]);
      OptionsOffer(o, p, c.id, options[i]);
      ChoosesMore(p, choice, Some(options[i]));
      assert |choice + [Some(options[i])]| == n;
    }
  }

  lemma ArisesStep(o: Orders, p: Problem, n: nat, s: Route)
    requires 0 < n <= |p.capabilities| && Arises(p, n, s)
    ensures var c := p.capabilities[n - 1];
            exists r :: Arises(p, n - 1, r) && Extends(c, Options(o, p, c.id), r, s)
  {
    var c := p.capabilities[n - 1];
    var choice: Choice :| |choice| == n && Chooses(p, choice) && RouteOf(p, choice) == s;
    hide Offers, Options;
    var init, last := choice[..n - 1], choice[n - 1];
    assert Chooses(p, init);
    assert MayChoose(p, c, last);
    var r := RouteOf(p, init);
    assert Arises(p, n - 1, r);
    if last.Some? {
      OptionsOffer(o, p, c.id, last.value);
      var i :| 0 <= i < |Options(o, p, c.id)| && Options(o, p, c.id)[i] == last.value;
      assert s == Assign(r, Options(o, p, c.id)[i]);
    }
    assert Extends(c, Options(o, p, c.id), r, s);
  }
}
