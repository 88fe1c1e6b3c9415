/**
 What the router answers, said of the request, the catalog and the assignments
 of routes alone.
 */
module RoutingRules {
  import opened Base
  import opened Sorting
  import opened Requests
  import opened Ranking
  import opened RankingRules
  import opened Candidates
  import opened RouteSearch
  import opened LeadingOptions
  import opened Router
  import opened RouterResults
  import opened Routing

  // Candidates.

  /** A runtime of the provider that is there to be used: its own kind, and built in only for the platform itself. */
  ghost predicate Runs(provider: string, x: Integration) {
    && x.available && x.isRuntime
    && (provider == "web-platform" ==> x.kind == BuiltIn)
    && (provider != "web-platform" ==> x.kind == RuntimePackage)
  }

  /** Licensed, paid for if it must be, and harmless. */
  ghost predicate MayRun(input: Input, x: Integration) {
    && x.license.Some? && x.license.value in input.policy.allowedLicenses
    && (x.paidPlan ==> input.policy.allowPaidServices && input.request.allowPaidServices)
    && !x.projectWrite && x.networkHosts == 0
    && x.executionRisk != "command-execution" && x.executionRisk != "network-and-command"
    && x.executionRisk != "privileged" && x.executionRisk != "project-write"
  }

  ghost predicate Eligible(input: Input, provider: string) {
    && provider !in input.request.forbiddenProviders
    && provider in input.policy.allowedConnectors && provider !in input.policy.deniedConnectors
    && provider in input.connectors
    && var c := input.connectors[provider];
    && c.schemaV2 && c.selectable && c.healthy && (c.reviewStatus == "approved" || c.reviewStatus == "stable")
    && (exists i :: 0 <= i < |c.integrations| && Runs(provider, c.integrations[i]))
    && (forall i :: 0 <= i < |c.integrations| && Runs(provider, c.integrations[i]) ==> MayRun(input, c.integrations[i]))
  }

  lemma {:induction false} RuntimesAre(provider: string, integrations: seq<Integration>, x: Integration)
    ensures x in RuntimeOf(provider, integrations) <==> x in integrations && Runs(provider, x)
  {
    if integrations != [] {
      assert integrations == integrations[..|integrations| - 1] + [integrations[|integrations| - 1]];
      RuntimesAre(provider, integrations[..|integrations| - 1], x);
    }
  }

  lemma {:induction false} NoFailure(input: Input, integrations: seq<Integration>)
    ensures PolicyFailure(input, integrations).None? <==>
            forall i :: 0 <= i < |integrations| ==> MayRun(input, integrations[i])
  {
    if integrations != [] {
      assert integrations == [integrations[0]] + integrations[1..];
      NoFailure(input, integrations[1..]);
    }
  }

  lemma RuntimesExactly(input: Input, provider: string, integrations: seq<Integration>)
    ensures var runtime := RuntimeOf(provider, integrations);
            && (runtime != [] <==> exists i :: 0 <= i < |integrations| && Runs(provider, integrations[i]))
            && (PolicyFailure(input, runtime).None? <==>
                  forall i :: 0 <= i < |integrations| && Runs(provider, integrations[i]) ==>
                    MayRun(input, integrations[i]))
  {
    var runtime := RuntimeOf(provider, integrations);
    forall x ensures x in runtime <==> x in integrations && Runs(provider, x) {
      RuntimesAre(provider, integrations, x);
    }
    NoFailure(input, runtime);
    hide RuntimeOf, PolicyFailure, Runs, MayRun;
    if i :| 0 <= i < |integrations| && Runs(provider, integrations[i]) {
      assert integrations[i] in runtime;
    }
    if runtime != [] { assert runtime[0] in runtime; }
    if forall i :: 0 <= i < |runtime| ==> MayRun(input, runtime[i]) {
      forall i | 0 <= i < |integrations| && Runs(provider, integrations[i]) ensures MayRun(input, integrations[i]) {
        assert integrations[i] in runtime;
      }
    } else {
      var i :| 0 <= i < |runtime| && !MayRun(input, runtime[i]);
      assert runtime[i] in runtime;
    }
  }

  /** A dependency of this name is declared. */
  ghost predicate Declares(input: Input, name: string) {
    exists d :: d in input.dependencies && d.name == name
  }

  lemma NamesDeclared(input: Input, name: string)
    ensures Names(input.dependencies, name) <==> Declares(input, name)
  {
  }

  /** A provider is a candidate if and only if it is eligible. */
  lemma EligibleExactly(o: Orders, input: Input, provider: string)
    ensures Verdict(o, input, provider).Ok? <==> Eligible(input, provider)
  {
    if provider in input.connectors {
      RuntimesExactly(input, provider, input.connectors[provider].integrations);
    }
    hide RuntimeOf, PolicyFailure, Sort;
  }

  /** What a candidate is: native, installed and supported as the project tells, with its claims sorted. */
  lemma CandidateIs(o: Orders, input: Input, provider: string)
    requires Verdict(o, input, provider).Ok?
    ensures var c := Verdict(o, input, provider).value;
            var connector := input.connectors[provider];
            && c.providerId == provider && (c.native <==> provider == "web-platform")
            && (c.environmentSupported <==>
                  (provider == "motion" ==>
                    && Declares(input, "react")
                    && forall d :: d in input.dependencies && d.name == "react" ==> d.isAtLeast))
            && (c.installed <==>
                  exists x :: x in connector.integrations && Runs(provider, x)
                              && x.packageName.Some? && Declares(input, x.packageName.value))
            && (forall id :: id in c.integrationIds <==>
                  exists x :: x in connector.integrations && Runs(provider, x) && x.id == id)
            && multiset(c.claims) == multiset(connector.claims)
            && (Total(o.locale) ==>
                  forall i, j :: 0 <= i < j < |c.claims| ==>
                    o.locale(c.claims[i].capabilityId, c.claims[j].capabilityId))
  {
    var connector := input.connectors[provider];
    var runtime := RuntimeOf(provider, connector.integrations);
    VerdictIs(o, input, provider);
    hide Verdict, RuntimeOf, Sort, InstalledBy, MotionSupported, Declares, Runs, Total;
    InstalledIs(input, provider, connector.integrations);
    SupportIs(input);
    IdsAre(o, provider, connector.integrations);
    SortPermutes(ByCapability(o.locale), connector.claims);
    if Total(o.locale) { ClaimsAreSorted(o, connector.claims); }
  }

  lemma VerdictIs(o: Orders, input: Input, provider: string)
    requires Verdict(o, input, provider).Ok?
    ensures provider in input.connectors
    ensures var c := input.connectors[provider];
            var runtime := RuntimeOf(provider, c.integrations);
            Verdict(o, input, provider).value ==
            ProviderCandidate(provider, provider == "web-platform", Sort(o.units, Ids(runtime)),
                              InstalledBy(input.dependencies, runtime),
                              provider == "motion" ==> MotionSupported(input.dependencies),
                              Sort(ByCapability(o.locale), c.claims))
  {
    hide RuntimeOf, PolicyFailure, Sort, InstalledBy, MotionSupported;
  }

  function Ids(integrations: seq<Integration>): seq<string> {
    seq(|integrations|, i requires 0 <= i < |integrations| => integrations[i].id)
  }

  lemma IdsAre(o: Orders, provider: string, integrations: seq<Integration>)
    ensures forall id :: id in Sort(o.units, Ids(RuntimeOf(provider, integrations))) <==>
                         exists x :: x in integrations && Runs(provider, x) && x.id == id
  {
    var runtime := RuntimeOf(provider, integrations);
    var ids := Ids(runtime);
    SortMembers(o.units, ids);
    forall x ensures x in runtime <==> x in integrations && Runs(provider, x) {
      RuntimesAre(provider, integrations, x);
    }
    hide RuntimeOf, Sort, Runs;
    forall id ensures id in ids <==> exists x :: x in runtime && x.id == id {
      if x :| x in runtime && x.id == id {
        var i :| 0 <= i < |runtime| && runtime[i] == x;
        assert ids[i] == id;
      }
    }
  }

  lemma SupportIs(input: Input)
    ensures MotionSupported(input.dependencies) <==>
            && Declares(input, "react")
            && forall d :: d in input.dependencies && d.name == "react" ==> d.isAtLeast
  {
    NamesDeclared(input, "react");
    hide Names, Declares;
  }

  lemma InstalledIs(input: Input, provider: string, integrations: seq<Integration>)
    ensures InstalledBy(input.dependencies, RuntimeOf(provider, integrations)) <==>
            exists x :: x in integrations && Runs(provider, x)
                        && x.packageName.Some? && Declares(input, x.packageName.value)
  {
    var runtime := RuntimeOf(provider, integrations);
    forall name ensures Names(input.dependencies, name) <==> Declares(input, name) { NamesDeclared(input, name); }
    forall x ensures x in runtime <==> x in integrations && Runs(provider, x) {
      RuntimesAre(provider, integrations, x);
    }
    hide Names, Declares, RuntimeOf, Runs;
  }

  lemma ClaimsAreSorted(o: Orders, claims: seq<Claim>)
    requires Total(o.locale)
    ensures var sorted := Sort(ByCapability(o.locale), claims);
            forall i, j :: 0 <= i < j < |sorted| ==> o.locale(sorted[i].capabilityId, sorted[j].capabilityId)
  {
    var leq := ByCapability(o.locale);
    assert TotalPreorder(leq) by {
      assert forall c, d :: leq(c, d) == o.locale(c.capabilityId, d.capabilityId);
    }
    SortSorts(leq, claims);
    hide Sort;
    var sorted := Sort(leq, claims);
    forall i, j | 0 <= i < j < |sorted| ensures o.locale(sorted[i].capabilityId, sorted[j].capabilityId) {
      assert leq(sorted[i], sorted[j]);
    }
  }

  // Options.

  /** provider is at this position of the preferences, and at no earlier one; or at none. */
  ghost predicate PositionOf(preferred: seq<string>, provider: string, position: Option<nat>) {
    match position
    case None => provider !in preferred
    case Some(k) => k < |preferred| && preferred[k] == provider && provider !in preferred[..k]
  }

  lemma {:induction false} FoundAt(values: seq<string>, value: string, i: nat)
    requires i <= |values| && value !in values[..i]
    ensures PositionOf(values, value, IndexOf(values, value, i))
    decreases |values| - i
  {
    if i < |values| && values[i] != value {
      assert values[..i + 1] == values[..i] + [values[i]];
      FoundAt(values, value, i + 1);
    } else if i == |values| {
      assert values[..i] == values;
    }
  }

  /** a is what claim of candidate c offers for a capability. */
  ghost predicate OfferedBy(p: Problem, id: string, c: ProviderCandidate, claim: Claim, a: Assignment) {
    && claim.capabilityId == id && c.environmentSupported
    && a.capabilityId == id && a.providerId == c.providerId && a.native == c.native && a.installed == c.installed
    && a.integrationIds == c.integrationIds && a.support == claim.support && a.confidence == claim.confidence
    && PositionOf(p.preferred, c.providerId, a.preferredRank)
  }

  lemma PositionIsUnique(preferred: seq<string>, provider: string, a: Option<nat>, b: Option<nat>)
    requires PositionOf(preferred, provider, a) && PositionOf(preferred, provider, b)
    ensures a == b
  {
  }

  lemma MakesExactly(p: Problem, id: string, c: ProviderCandidate, claim: Claim, a: Assignment)
    ensures Makes(p, id, c, claim, a) <==> OfferedBy(p, id, c, claim, a)
  {
    FoundAt(p.preferred, c.providerId, 0);
    if OfferedBy(p, id, c, claim, a) {
      PositionIsUnique(p.preferred, c.providerId, a.preferredRank, IndexOf(p.preferred, c.providerId, 0));
    }
    hide IndexOf, PositionOf;
  }

  /** The options of a known capability are exactly what claims of candidates offer. */
  lemma OptionsExactly(o: Orders, p: Problem, id: string, a: Assignment)
    ensures a in Options(o, p, id) <==>
            && id in p.known
            && exists c, claim :: c in p.candidates && claim in c.claims && OfferedBy(p, id, c, claim, a)
  {
    OptionsOffer(o, p, id, a);
    OffersByCandidate(p, id, a);
    hide Options, Offers, Makes, OfferedBy;
    forall c, claim ensures Makes(p, id, c, claim, a) <==> OfferedBy(p, id, c, claim, a) {
      MakesExactly(p, id, c, claim, a);
    }
  }

  /** The text by which options are tried. */
  function TriedBy(o: Orders, a: Assignment): string {
    (match a.support case Primary => "0" case Secondary => "1" case Fallback => "2")
    + "\0" + o.number(0.0 - a.confidence) + "\0" + a.providerId
  }

  lemma OptionsAreTriedInOrder(o: Orders, p: Problem, id: string)
    requires Total(o.locale)
    ensures var options := Options(o, p, id);
            forall i, j :: 0 <= i < j < |options| ==> o.locale(TriedBy(o, options[i]), TriedBy(o, options[j]))
  {
    var options := Options(o, p, id);
    if id in p.known {
      OptionOrderIsTotal(o);
      SortSorts(OptionOrder(o), Supported(p, id, |p.candidates|));
    }
    hide Sort, Supported;
    forall i, j | 0 <= i < j < |options| ensures o.locale(TriedBy(o, options[i]), TriedBy(o, options[j])) {
      assert OptionOrder(o)(options[i], options[j]);
      KeyIs(o, options[i]);
      KeyIs(o, options[j]);
    }
  }

  lemma KeyIs(o: Orders, a: Assignment)
    ensures SortKey(o, a.support, a.confidence, a.providerId) == TriedBy(o, a)
  {
    assert ["012"[SupportRank(a.support)]] ==
           (match a.support case Primary => "0" case Secondary => "1" case Fallback => "2");
  }

  // The answer.

  lemma BeatsIsBetter(r: Route, s: Route)
    ensures Better(r, s) <==> Beats(r.assignments, s.assignments)
  {
    RanksExactly(r.assignments, s.assignments);
  }

  ghost predicate Status(r: Route, status: RouteStatus) {
    match status
    case NoSdk => |r.assignments| == 0
    case Native => |r.assignments| > 0 && forall i :: 0 <= i < |r.assignments| ==> r.assignments[i].native
    case Selected => exists i :: 0 <= i < |r.assignments| && !r.assignments[i].native
  }

  lemma StatusIs(r: Route)
    ensures Status(r, StatusOfRoute(r))
  {
    SameChosen(r.assignments);
    if Providers(r) != 0 {
      var q :| q in Chosen(r.assignments);
    }
    if i :| 0 <= i < |r.assignments| && !r.assignments[i].native {
      assert r.assignments[i].providerId in Chosen(r.assignments);
    }
  }

  /**
   For every request that normalizes: a route is found if and only if it contends and beats every other contender,
   criterion by criterion; and its status tells which providers it uses.
   */
  lemma FoundExactly(o: Orders, input: Input, r: Route)
    requires Usable(o) && Posed(o, input).Some?
    ensures var p := Posed(o, input).value;
            (exists status :: Routed(o, input) == Some(Found(status, r)) && Status(r, status)) <==>
            && Contender(o, p, r)
            && forall s :: Contender(o, p, s) && s != r ==> Beats(r.assignments, s.assignments)
  {
    var p := Posed(o, input).value;
    hide Posed, Decide, Usable, Contender, Beats, Status, StatusOfRoute, Better;
    RoutedMeansStrictlyBest(o, input, r);
    forall s ensures Better(r, s) <==> Beats(r.assignments, s.assignments) { BeatsIsBetter(r, s); }
    StatusIs(r);
    FoundHasItsStatus(o, p);
  }

  lemma FoundHasItsStatus(o: Orders, p: Problem)
    ensures Decide(o, p).Found? ==> Decide(o, p).status == StatusOfRoute(Decide(o, p).route)
  {
    FoundIsOfStatus(o, p);
  }

  /** A tie names two contenders, neither of which beats the other, and which every other one does not beat. */
  lemma TiesExactly(o: Orders, input: Input)
    requires Usable(o) && Posed(o, input).Some? && Routed(o, input).value.Tie?
    ensures var p, r, s := Posed(o, input).value, Routed(o, input).value.best, Routed(o, input).value.second;
            && Contender(o, p, r) && Contender(o, p, s) && r != s
            && forall t :: Contender(o, p, t) ==>
                 !Beats(t.assignments, r.assignments) && !Beats(t.assignments, s.assignments)
  {
    var p := Posed(o, input).value;
    PosedIsWellformed(o, input);
    hide Posed, Decide, Usable, Contender, Beats, Better, Wellformed, Leaders, MaterialTie;
    var r, s := Decide(o, p).best, Decide(o, p).second;
    TieMeansTwoOptimal(o, p);
    TieNamesTheLeaders(o, p, r, s);
    forall t, u: Route ensures Better(t, u) <==> Beats(t.assignments, u.assignments) { BeatsIsBetter(t, u); }
    assert r != s by { LeadersDiffer(o, p, r, s); }
  }

  lemma LeadersDiffer(o: Orders, p: Problem, r: Route, s: Route)
    requires Leaders(o, p, r, s)
    ensures r != s
  {
  }
}
