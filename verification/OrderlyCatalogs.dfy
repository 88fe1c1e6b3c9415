/**
 When the search answers with the best route of all: of a provider's claims for
 one capability only the first one tried counts, in the order of a text.
 */
module OrderlyCatalogs {
  import opened Base
  import opened Sorting
  import opened Requests
  import opened Ranking
  import opened Candidates
  import opened Ownership
  import opened RouteSearch
  import opened LeadingOptions
  import opened Router
  import opened RouterResults
  import opened Routing

  // Taking the first option of each provider.

  /** Support and confidence of the one are at least as good as those of the other. */
  predicate NoWorse(support: Support, confidence: real, support': Support, confidence': real) {
    || SupportRank(support) < SupportRank(support')
    || (support == support' && confidence >= confidence')
  }

  /** The first of a candidate's claims for a capability is no worse than its others. */
  ghost predicate OrderlyClaims(o: Orders, c: ProviderCandidate, id: string) {
    var own := OwnClaims(o, c, id);
    forall i :: 0 <= i < |own| ==> NoWorse(own[0].support, own[0].confidence, own[i].support, own[i].confidence)
  }

  ghost predicate OrderlyCandidates(o: Orders, p: Problem) {
    forall c, id :: c in p.candidates && c.environmentSupported && id in p.known ==> OrderlyClaims(o, c, id)
  }

  /** y is x with options no worse. */
  ghost predicate Improves(y: seq<Assignment>, x: seq<Assignment>) {
    && |y| == |x|
    && (forall i :: 0 <= i < |x| ==> SameCandidate(x[i], y[i]))
    && (forall i :: 0 <= i < |x| ==> NoWorse(y[i].support, y[i].confidence, x[i].support, x[i].confidence))
  }

  lemma ImprovesBefore(y: seq<Assignment>, x: seq<Assignment>)
    requires Improves(y, x) && x != []
    ensures Improves(y[..|y| - 1], x[..|x| - 1])
    ensures var a, b := x[|x| - 1], y[|y| - 1];
            SameCandidate(a, b) && NoWorse(b.support, b.confidence, a.support, a.confidence)
  {
  }

  lemma {:induction false} SameNatives(y: seq<Assignment>, x: seq<Assignment>)
    requires Improves(y, x)
    ensures Count(y, IsNative()) == Count(x, IsNative())
  {
    if x != [] {
      ImprovesBefore(y, x);
      SameNatives(y[..|y| - 1], x[..|x| - 1]);
    }
  }

  lemma SameProviders(y: seq<Assignment>, x: seq<Assignment>)
    requires Improves(y, x)
    ensures ThirdParty(y) == ThirdParty(x) && Installed(y) == Installed(x)
  {
    SameThirdParty(x, y);
    forall q ensures q in Installed(y) <==> q in Installed(x) {
      if q in Installed(x) {
        var i :| 0 <= i < |x| && x[i].providerId in ThirdParty(x) && x[i].installed && x[i].providerId == q;
        assert y[i] in y && SameCandidate(x[i], y[i]);
      }
      if q in Installed(y) {
        var i :| 0 <= i < |y| && y[i].providerId in ThirdParty(y) && y[i].installed && y[i].providerId == q;
        assert x[i] in x && SameCandidate(x[i], y[i]);
      }
    }
  }

  lemma {:induction false} SameList(y: seq<Assignment>, x: seq<Assignment>)
    requires Improves(y, x)
    ensures ProviderList(y) == ProviderList(x)
  {
    if x != [] {
      ImprovesBefore(y, x);
      SameList(y[..|y| - 1], x[..|x| - 1]);
    }
  }

  lemma {:induction false} SamePreference(y: seq<Assignment>, x: seq<Assignment>, provider: string)
    requires Improves(y, x)
    ensures BestPreference(y, provider) == BestPreference(x, provider)
  {
    if x != [] {
      ImprovesBefore(y, x);
      SamePreference(y[..|y| - 1], x[..|x| - 1], provider);
    }
  }

  lemma SamePreferences(y: seq<Assignment>, x: seq<Assignment>)
    requires Improves(y, x)
    ensures PreferredVector(y) == PreferredVector(x)
  {
    SameList(y, x);
    var list := ProviderList(x);
    hide ProviderList, BestPreference, Sort, Improves;
    forall i | 0 <= i < |list| ensures BestPreference(y, list[i]) == BestPreference(x, list[i]) {
      assert Improves(y, x);
      SamePreference(y, x, list[i]);
    }
    assert seq(|list|, i requires 0 <= i < |list| => BestPreference(y, list[i]))
        == seq(|list|, i requires 0 <= i < |list| => BestPreference(x, list[i]));
  }

  /** More primaries, or as many and more secondaries, and so on down to the confidence. */
  predicate SupportNoWorse(primary: int, secondary: int, fallback: int, confidence: real,
                           primary': int, secondary': int, fallback': int, confidence': real)
  {
    || primary > primary'
    || (primary == primary'
        && (|| secondary > secondary'
            || (secondary == secondary'
                && (fallback < fallback' || (fallback == fallback' && confidence >= confidence')))))
  }

  lemma {:induction false} SupportImproves(y: seq<Assignment>, x: seq<Assignment>)
    requires Improves(y, x)
    ensures SupportNoWorse(Count(y, Gives(Primary)), Count(y, Gives(Secondary)), Count(y, Gives(Fallback)),
                           ConfidenceTotal(y),
                           Count(x, Gives(Primary)), Count(x, Gives(Secondary)), Count(x, Gives(Fallback)),
                           ConfidenceTotal(x))
  {
    if x != [] {
      ImprovesBefore(y, x);
      SupportImproves(y[..|y| - 1], x[..|x| - 1]);
      hide Improves, SameCandidate;
    }
  }

  lemma EqualVectors(v: seq<int>)
    ensures CompareFrom(v, v, 0) == 0
  {
    VectorsOpposite(v, v, 0);
  }

  /** A route with options no worse ranks no worse. */
  lemma ImprovedRank(r: Route, s: Route)
    requires Improves(s.assignments, r.assignments)
    ensures !Better(r, s)
  {
    SameNatives(s.assignments, r.assignments);
    SameProviders(s.assignments, r.assignments);
    SamePreferences(s.assignments, r.assignments);
    SupportImproves(s.assignments, r.assignments);
    EqualVectors(PreferredVector(r.assignments));
    hide Improves, Count, ConfidenceTotal, PreferredVector, ThirdParty, Installed, CompareFrom;
  }

  /** Each option chosen can be replaced by the first one of its provider. */
  lemma {:induction false} LeadingChoice(o: Orders, p: Problem, c: Choice) returns (d: Choice)
    requires Usable(o) && Wellformed(p) && OrderlyCandidates(o, p) && Chooses(p, c)
    ensures |d| == |c| && Chooses(p, d) && LeadChoice(o, p, d)
    ensures Improves(RouteOf(p, d).assignments, RouteOf(p, c).assignments)
  {
    hide Usable, Wellformed, OrderlyCandidates, Offers, Lead, Improves;
    if c == [] {
      d := [];
      assert Improves([], []) by { NothingImproves(); }
    } else {
      var n := |c| - 1;
      ChooseBefore(p, c);
      var init := LeadingChoice(o, p, c[..n]);
      var last := c[n];
      if last.Some? {
        var b := LeadingOption(o, p, p.capabilities[n].id, last.value);
        last := Some(b);
        MoreImproves(RouteOf(p, init).assignments, RouteOf(p, c[..n]).assignments, b, c[n].value);
      }
      d := init + [last];
      assert d[..n] == init;
      ChoosesMore(p, init, last);
    }
  }

  lemma NothingImproves()
    ensures Improves([], [])
  {
  }

  lemma MoreImproves(y: seq<Assignment>, x: seq<Assignment>, b: Assignment, a: Assignment)
    requires Improves(y, x) && SameCandidate(a, b) && NoWorse(b.support, b.confidence, a.support, a.confidence)
    ensures Improves(y + [b], x + [a])
  {
  }

  lemma LeadingOption(o: Orders, p: Problem, id: string, a: Assignment) returns (b: Assignment)
    requires OrderlyCandidates(o, p) && Offers(p, id, a)
    ensures Offers(p, id, b) && Lead(o, p, b) && SameCandidate(a, b)
    ensures NoWorse(b.support, b.confidence, a.support, a.confidence)
  {
    var c, claim := OfferedBy(p, id, a);
    b := LeadOf(o, p, id, c);
    var own := OwnClaims(o, c, id);
    ClaimIsOwn(o, c, id, claim);
    assert OrderlyClaims(o, c, id);
    var i :| 0 <= i < |own| && own[i] == claim;
  }

  lemma ClaimIsOwn(o: Orders, c: ProviderCandidate, id: string, claim: Claim)
    ensures claim in OwnClaims(o, c, id) <==> claim in c.claims && claim.capabilityId == id
  {
    FilterMembers(For(id), c.claims, claim);
    SortMembers(ClaimOrder(o, c.providerId), Filter(For(id), c.claims));
  }

  /** If claims are orderly, every admissible route has a contender of the same architecture that ranks no worse. */
  lemma ContenderFor(o: Orders, p: Problem, r: Route) returns (s: Route)
    requires Usable(o) && Wellformed(p) && OrderlyCandidates(o, p) && Admissible(p, r)
    ensures Contender(o, p, s) && SignatureOf(s.assignments) == SignatureOf(r.assignments) && !Better(r, s)
  {
    hide Usable, Wellformed, OrderlyCandidates, Chooses, LeadChoice, Better, StatusOf, Providers, Lead;
    var n := |p.capabilities|;
    var c: Choice :| |c| == n && Chooses(p, c) && RouteOf(p, c) == r;
    var d := LeadingChoice(o, p, c);
    s := RouteOf(p, d);
    assert Arises(p, n, s);
    ImprovedRank(r, s);
    ImprovedSignature(s.assignments, r.assignments);
    LeadChoiceLeads(o, p, d);
    DistinctOf(p);
    SignatureDecidesLimits(p, r, s);
  }

  lemma DistinctOf(p: Problem)
    requires Wellformed(p)
    ensures DistinctProviders(p.candidates)
  {
  }

  lemma ImprovedSignature(y: seq<Assignment>, x: seq<Assignment>)
    requires Improves(y, x)
    ensures SignatureOf(y) == SignatureOf(x)
  {
  }

  lemma LeadChoiceLeads(o: Orders, p: Problem, d: Choice)
    requires |d| <= |p.capabilities| && LeadChoice(o, p, d)
    ensures LeadRoute(o, p, RouteOf(p, d))
  {
    hide Lead, RouteOf;
    forall a | a in RouteOf(p, d).assignments ensures Lead(o, p, a) {
      var i := AssignedIsChosen(p, d, a);
    }
  }

  /** No admissible route ranks better than r, and those of other architectures rank worse. */
  ghost predicate BestOfAll(p: Problem, r: Route) {
    && Admissible(p, r)
    && forall s :: Admissible(p, s) ==>
         !Better(s, r) && (SignatureOf(s.assignments) != SignatureOf(r.assignments) ==> Better(r, s))
  }

  /** If claims are orderly, what is found is the best of all routes, and it is found if there is one. */
  lemma OrderlyMeansBestOfAll(o: Orders, p: Problem)
    requires Usable(o) && Wellformed(p) && OrderlyCandidates(o, p)
    ensures Decide(o, p).Found? ==> BestOfAll(p, Decide(o, p).route)
    ensures (exists r :: BestOfAll(p, r)) ==> Decide(o, p).Found?
  {
    hide Usable, Wellformed, OrderlyCandidates, Decide, InLimit, LeadRoute, Better, StatusOfRoute;
    if Decide(o, p).Found? {
      var r := Decide(o, p).route;
      FoundIsOfStatus(o, p);
      FoundMeansStrictlyBest(o, p, r);
      forall s | Admissible(p, s)
        ensures !Better(s, r) && (SignatureOf(s.assignments) != SignatureOf(r.assignments) ==> Better(r, s))
      {
        var t := ContenderFor(o, p, s);
        BetterAsymmetric(r, t);
        if t != r { BetterThrough(r, t, s); }
      }
    }
    if r :| BestOfAll(p, r) {
      var t := ContenderFor(o, p, r);
      forall s | Contender(o, p, s) && s != t ensures Better(t, s) {
        DistinctArchitectures(o, p, t, s);
        BetterAsymmetric(r, s);
        BetterThrough(t, r, s);
      }
      FoundMeansStrictlyBest(o, p, t);
    }
  }

  // For catalogs and requests.

  /** The input with nothing forbidden and paid services allowed: whoever may be a candidate at all is one. */
  function Opened(input: Input): Input {
    input.(request := input.request.(forbiddenProviders := [], allowPaidServices := true))
  }

  ghost predicate OrderlyProvider(o: Orders, input: Input, provider: string) {
    var verdict := Verdict(o, Opened(input), provider);
    verdict.Ok? && verdict.value.environmentSupported ==>
      forall id :: id in input.known ==> OrderlyClaims(o, verdict.value, id)
  }

  /** Each provider that can take part tries the best of its claims for a capability first. */
  ghost predicate Orderly(o: Orders, input: Input) {
    forall provider :: provider in PROVIDERS ==> OrderlyProvider(o, input, provider)
  }

  /** If a route is found, it is the best of all. */
  ghost predicate AnswersBest(o: Orders, input: Input) {
    Routed(o, input).Some? && Routed(o, input).value.Found? ==>
      BestOfAll(Posed(o, input).value, Routed(o, input).value.route)
  }

  lemma {:induction false} FewerFailures(a: Input, b: Input, integrations: seq<Integration>)
    requires b == a.(request := b.request)
    requires a.request.allowPaidServices ==> b.request.allowPaidServices
    ensures PolicyFailure(a, integrations).None? ==> PolicyFailure(b, integrations).None?
  {
    if integrations != [] {
      FewerFailures(a, b, integrations[1..]);
    }
  }

  /** A request that forbids no more and pays for no less keeps each candidate as it is. */
  lemma VerdictKept(o: Orders, a: Input, b: Input, provider: string)
    requires b == a.(request := b.request) && provider !in b.request.forbiddenProviders
    requires a.request.allowPaidServices ==> b.request.allowPaidServices
    requires Verdict(o, a, provider).Ok?
    ensures Verdict(o, b, provider) == Verdict(o, a, provider)
  {
    FewerFailures(a, b, RuntimeOf(provider, a.connectors[provider].integrations));
  }

  lemma CandidatesAreOrderly(o: Orders, input: Input)
    requires Orderly(o, input) && Posed(o, input).Some?
    ensures OrderlyCandidates(o, Posed(o, input).value)
  {
    var request := Normalize(o.locale, o.units, input.request).value;
    var posed := input.(request := request);
    var p := Posed(o, input).value;
    hide OrderlyClaims, Verdict, CandidatesAmong, Normalize;
    forall c, id | c in p.candidates && c.environmentSupported && id in p.known ensures OrderlyClaims(o, c, id) {
      CandidateFound(o, posed, PROVIDERS, c);
      VerdictKept(o, posed, Opened(input), c.providerId);
      assert OrderlyProvider(o, input, c.providerId);
    }
  }

  // A request that shows the disorder.

  function Others(provider: string): seq<string> {
    Filter((q: string) => q != provider, PROVIDERS)
  }

  /** Only this capability, and only from this provider. */
  function OnlyFrom(provider: string, id: string): Request {
    Request([Capability(id, true, None)], [], Others(provider), 1, true)
  }

  lemma OnlyFromNormalized(o: Orders, provider: string, id: string)
    ensures var normal := Normalize(o.locale, o.units, OnlyFrom(provider, id));
            && normal.Some?
            && normal.value == OnlyFrom(provider, id).(forbiddenProviders := normal.value.forbiddenProviders)
            && forall q :: q in normal.value.forbiddenProviders <==> q in PROVIDERS && q != provider
  {
    hide Sort, Keep, Distinct, Contradictory, Others;
    OneIsNormal(o, Capability(id, true, None));
    ForbiddenNormalized(o.units, Others(provider));
    OthersAre(provider);
    NothingKept();
  }

  lemma OneIsNormal(o: Orders, c: Capability)
    requires c.quality.None?
    ensures !Contradictory([c]) && Sort(ById(o.locale), Distinct([c])) == [c]
  {
    assert [c][..0] == [];
    assert Distinct([c]) == [c];
  }

  lemma NothingKept()
    ensures Keep([]) == []
  {
  }

  lemma OthersAre(provider: string)
    ensures forall q :: q in Others(provider) <==> q in PROVIDERS && q != provider
  {
    var other := (q: string) => q != provider;
    assert Others(provider) == Filter(other, PROVIDERS);
    forall q ensures q in Filter(other, PROVIDERS) <==> q in PROVIDERS && q != provider {
      FilterMembers(other, PROVIDERS, q);
    }
  }

  /** The problem posed has that provider as its only candidate. */
  lemma OnlyFromPosed(o: Orders, input: Input, provider: string, id: string, c: ProviderCandidate)
    requires provider in PROVIDERS && Verdict(o, Opened(input), provider) == Ok(c) && id in input.known
    ensures var p := Posed(o, input.(request := OnlyFrom(provider, id)));
            && p.Some?
            && p.value.capabilities == [Capability(id, true, None)] && p.value.known == input.known
            && p.value.preferred == [] && p.value.maxProviders == 1
            && (forall d :: d in p.value.candidates <==> d == c)
  {
    OnlyFromNormalized(o, provider, id);
    hide CandidatesAmong, Normalize, Verdict, OnlyFrom;
    var only := input.(request := Normalize(o.locale, o.units, OnlyFrom(provider, id)).value);
    assert OnlyFrom(provider, id) == Request([Capability(id, true, None)], [], Others(provider), 1, true) by {
      OnlyFromIs(provider, id);
    }
    VerdictNames(o, Opened(input), provider);
    VerdictKept(o, Opened(input), only, provider);
    forall d ensures d in CandidatesAmong(o, only, PROVIDERS) <==> d == c {
      CandidateFound(o, only, PROVIDERS, d);
      if d.providerId in PROVIDERS && d.providerId != provider {
        ForbiddenVerdict(o, only, d.providerId);
      }
    }
  }

  lemma OnlyFromIs(provider: string, id: string)
    ensures OnlyFrom(provider, id) == Request([Capability(id, true, None)], [], Others(provider), 1, true)
  {
  }

  lemma ForbiddenVerdict(o: Orders, input: Input, provider: string)
    requires provider in input.request.forbiddenProviders
    ensures Verdict(o, input, provider).Err?
  {
  }

  /** With one required capability a route is one option. */
  lemma OneChoice(p: Problem, c: Capability, r: Route)
    requires p.capabilities == [c] && c.required
    ensures Arises(p, 1, r) <==> exists a :: Offers(p, c.id, a) && r == Route([a], [])
  {
    hide Offers;
    if Arises(p, 1, r) {
      var choice: Choice :| |choice| == 1 && Chooses(p, choice) && RouteOf(p, choice) == r;
      assert MayChoose(p, p.capabilities[0], choice[0]);
      assert choice[..0] == [] && RouteOf(p, choice[..0]) == Route([], []);
      assert [] + [choice[0].value] == [choice[0].value];
    }
    if a :| Offers(p, c.id, a) && r == Route([a], []) {
      var choice: Choice := [Some(a)];
      assert choice[..0] == [] && [] + [a] == [a];
      assert RouteOf(p, choice[..0]) == Route([], []);
      assert RouteOf(p, choice) == r;
      assert MayChoose(p, p.capabilities[0], choice[0]);
      assert |choice| == 1 && Chooses(p, choice);
    }
  }

  lemma AloneIsFine(capabilities: seq<Capability>, a: Assignment)
    ensures StatusOf(capabilities, [a]) == Fine
  {
    hide Between, Resolved;
    assert |AllResolved(capabilities, [a])| == 1;
  }

  lemma AloneIsWithinOne(a: Assignment)
    ensures Providers(Route([a], [])) <= 1
  {
    assert ThirdParty([a]) <= {a.providerId};
    if ThirdParty([a]) != {} {
      assert ThirdParty([a]) == {a.providerId};
    }
  }

  lemma OneIsAdmissible(p: Problem, c: Capability, a: Assignment)
    requires p.capabilities == [c] && c.required && p.maxProviders == 1 && Offers(p, c.id, a)
    ensures Admissible(p, Route([a], []))
  {
    OneChoice(p, c, Route([a], []));
    AloneIsFine(p.capabilities, a);
    AloneIsWithinOne(a);
    hide Arises, Providers, StatusOf, Offers;
  }

  lemma CountsOfOne(a: Assignment, support: Support)
    ensures Count([a], Gives(support)) == if a.support == support then 1 else 0
    ensures ConfidenceTotal([a]) == a.confidence
  {
    assert [a][..0] == [];
    assert ConfidenceTotal([a]) == ConfidenceTotal([]) + a.confidence;
  }

  /** Of two options of one candidate the better one makes the better route. */
  lemma BetterOption(a: Assignment, b: Assignment)
    requires SameCandidate(a, b) && !NoWorse(b.support, b.confidence, a.support, a.confidence)
    ensures Better(Route([a], []), Route([b], []))
  {
    assert Improves([a], [b]);
    SameNatives([a], [b]);
    SameProviders([a], [b]);
    SamePreferences([a], [b]);
    EqualVectors(PreferredVector([b]));
    CountsOfOne(a, Primary);
    CountsOfOne(a, Secondary);
    CountsOfOne(a, Fallback);
    CountsOfOne(b, Primary);
    CountsOfOne(b, Secondary);
    CountsOfOne(b, Fallback);
    hide Improves, Count, ConfidenceTotal, PreferredVector, ThirdParty, Installed, CompareFrom;
  }

  lemma OnlyContender(o: Orders, p: Problem, c: ProviderCandidate, id: string)
    requires Usable(o) && Wellformed(p) && c.environmentSupported && id in p.known
    requires p.capabilities == [Capability(id, true, None)] && p.maxProviders == 1
    requires forall d :: d in p.candidates <==> d == c
    requires OwnClaims(o, c, id) != []
    ensures StrictlyBest(o, p, Route([AssignmentOf(p, c, OwnClaims(o, c, id)[0])], []))
  {
    ClaimIsOwn(o, c, id, OwnClaims(o, c, id)[0]);
    var b := LeadOf(o, p, id, c);
    OneIsAdmissible(p, p.capabilities[0], b);
    hide OwnClaims, Lead, InLimit, Offers, Better;
    forall s | Contender(o, p, s) ensures s == Route([b], []) {
      InLimitArises(p, s);
      OneChoice(p, p.capabilities[0], s);
      var a :| Offers(p, id, a) && s == Route([a], []);
      assert a in s.assignments;
      OffersNames(p, id, a);
      var d, _ := OfferedBy(p, id, a);
      LeadIsUnique(o, p, a, b);
    }
  }

  lemma InLimitArises(p: Problem, r: Route)
    requires InLimit(p, r, Fine)
    ensures Arises(p, |p.capabilities|, r)
  {
  }

  /**
   The request that asks only for this capability and forbids all other providers is answered with the first claim.
   */
  lemma FirstClaimIsFound(o: Orders, input: Input, provider: string, id: string, c: ProviderCandidate)
    requires Usable(o) && provider in PROVIDERS && id in input.known
    requires Verdict(o, Opened(input), provider) == Ok(c) && c.environmentSupported && OwnClaims(o, c, id) != []
    ensures var only := input.(request := OnlyFrom(provider, id));
            && Posed(o, only).Some?
            && var p := Posed(o, only).value;
            && var r := Route([AssignmentOf(p, c, OwnClaims(o, c, id)[0])], []);
            && Routed(o, only) == Some(Found(StatusOfRoute(r), r))
            && forall claim :: claim in OwnClaims(o, c, id) ==> Admissible(p, Route([AssignmentOf(p, c, claim)], []))
  {
    var only := input.(request := OnlyFrom(provider, id));
    OnlyFromPosed(o, input, provider, id, c);
    PosedIsWellformed(o, only);
    var p := Posed(o, only).value;
    hide Posed, OwnClaims, Verdict, Decide, StrictlyBest, Wellformed, OnlyFrom, InLimit;
    var r := Route([AssignmentOf(p, c, OwnClaims(o, c, id)[0])], []);
    OnlyContender(o, p, c, id);
    RoutedMeansStrictlyBest(o, only, r);
    forall claim | claim in OwnClaims(o, c, id) ensures Admissible(p, Route([AssignmentOf(p, c, claim)], [])) {
      ClaimIsOwn(o, c, id, claim);
      ClaimOffers(p, c, id, claim);
      OneIsAdmissible(p, p.capabilities[0], AssignmentOf(p, c, claim));
    }
  }

  lemma ClaimOffers(p: Problem, c: ProviderCandidate, id: string, claim: Claim)
    requires c in p.candidates && claim in c.claims && claim.capabilityId == id
    requires c.environmentSupported && id in p.known
    ensures Offers(p, id, AssignmentOf(p, c, claim))
  {
    var n :| 0 <= n < |p.candidates| && p.candidates[n] == c;
    var m :| 0 <= m < |c.claims| && c.claims[m] == claim;
    assert Makes(p, id, p.candidates[n], p.candidates[n].claims[m], AssignmentOf(p, c, claim));
  }

  lemma WorseFirstClaim(o: Orders, p: Problem, c: ProviderCandidate, id: string, claim: Claim)
    requires claim in OwnClaims(o, c, id)
    requires var first := OwnClaims(o, c, id)[0];
             !NoWorse(first.support, first.confidence, claim.support, claim.confidence)
    ensures Better(Route([AssignmentOf(p, c, claim)], []), Route([AssignmentOf(p, c, OwnClaims(o, c, id)[0])], []))
  {
    var first := OwnClaims(o, c, id)[0];
    assert first in OwnClaims(o, c, id);
    ClaimIsOwn(o, c, id, first);
    ClaimIsOwn(o, c, id, claim);
    hide OwnClaims, Better;
    BetterOption(AssignmentOf(p, c, claim), AssignmentOf(p, c, first));
  }

  lemma NotBest(o: Orders, input: Input, r: Route, s: Route)
    requires Routed(o, input) == Some(Found(StatusOfRoute(r), r)) && Posed(o, input).Some?
    requires Admissible(Posed(o, input).value, s) && Better(s, r)
    ensures !AnswersBest(o, input)
  {
    hide Routed, Posed, InLimit, Better;
  }

  /** A provider out of order makes the search miss the best route of some request. */
  lemma DisorderShows(o: Orders, input: Input, provider: string) returns (request: Request)
    requires Usable(o) && provider in PROVIDERS && !OrderlyProvider(o, input, provider)
    ensures !AnswersBest(o, input.(request := request))
  {
    var c := Verdict(o, Opened(input), provider).value;
    hide Verdict, OwnClaims, Better, Posed, Routed, InLimit, Usable, AnswersBest;
    var id :| id in input.known && !OrderlyClaims(o, c, id);
    var own := OwnClaims(o, c, id);
    var i :| 0 <= i < |own| && !NoWorse(own[0].support, own[0].confidence, own[i].support, own[i].confidence);
    FirstClaimIsFound(o, input, provider, id, c);
    request := OnlyFrom(provider, id);
    var p := Posed(o, input.(request := request)).value;
    assert own[i] in own;
    WorseFirstClaim(o, p, c, id, own[i]);
    NotBest(o, input.(request := request), Route([AssignmentOf(p, c, own[0])], []),
            Route([AssignmentOf(p, c, own[i])], []));
  }

  /**
   For a catalog, every request that is answered with a route is answered with the best of all, if and only if each
   provider tries the best of its claims for a capability first.
   */
  lemma AlwaysBestIffOrderly(o: Orders, input: Input)
    requires Usable(o)
    ensures Orderly(o, input) <==> forall request :: AnswersBest(o, input.(request := request))
  {
    hide OrderlyProvider, AnswersBest;
    if Orderly(o, input) {
      forall request ensures AnswersBest(o, input.(request := request)) {
        AnswersBestWhenOrderly(o, input, request);
      }
    } else {
      var provider :| provider in PROVIDERS && !OrderlyProvider(o, input, provider);
      var request := DisorderShows(o, input, provider);
    }
  }

  lemma AnswersBestWhenOrderly(o: Orders, input: Input, request: Request)
    requires Usable(o) && Orderly(o, input)
    ensures AnswersBest(o, input.(request := request))
  {
    var asked := input.(request := request);
    if Posed(o, asked).Some? {
      OrderlyForAnyRequest(o, input, request);
      PosedIsWellformed(o, asked);
      CandidatesAreOrderly(o, asked);
      hide Posed, BestOfAll, Decide, Usable, Wellformed, OrderlyCandidates, Orderly;
      OrderlyMeansBestOfAll(o, Posed(o, asked).value);
    }
  }

  lemma OrderlyForAnyRequest(o: Orders, input: Input, request: Request)
    requires Orderly(o, input)
    ensures Orderly(o, input.(request := request))
  {
    var asked := input.(request := request);
    hide OrderlyClaims;
    forall provider | provider in PROVIDERS ensures OrderlyProvider(o, asked, provider) {
      OpenedVerdict(o, input, asked, provider);
      assert OrderlyProvider(o, input, provider);
      hide Verdict;
    }
  }

  lemma OpenedVerdict(o: Orders, a: Input, b: Input, provider: string)
    requires b == a.(request := b.request)
    ensures Verdict(o, Opened(a), provider).Ok? || Verdict(o, Opened(b), provider).Ok? ==>
              Verdict(o, Opened(a), provider) == Verdict(o, Opened(b), provider)
  {
    hide Verdict;
    if Verdict(o, Opened(a), provider).Ok? {
      VerdictKept(o, Opened(a), Opened(b), provider);
    }
    if Verdict(o, Opened(b), provider).Ok? {
      VerdictKept(o, Opened(b), Opened(a), provider);
    }
  }

  // A catalog that is out of order.

  const RUNTIME := Integration("gsap-core", RuntimePackage, true, true, Some("MIT"), false, false, 0, "none", None)

  const LOW := Claim("x", Primary, 0.5)

  const HIGH := Claim("x", Primary, 0.9)

  /** A connector that claims one capability twice. */
  const CLAIMING := Connector(true, true, "approved", true, [RUNTIME], [LOW, HIGH])

  function CatalogOf(request: Request): Input {
    Input(request, [], map["gsap" := CLAIMING], {"x"}, RoutingPolicy({"gsap"}, {}, {"MIT"}, false))
  }

  lemma ClaimingIsCandidate(o: Orders, request: Request) returns (c: ProviderCandidate)
    requires Total(o.locale)
    ensures Verdict(o, Opened(CatalogOf(request)), "gsap") == Ok(c)
    ensures c.environmentSupported && !c.native && c.providerId == "gsap" && c.claims == [LOW, HIGH]
  {
    var input := Opened(CatalogOf(request));
    assert [RUNTIME][..0] == [] && [RUNTIME][1..] == [];
    assert RuntimeOf("gsap", [RUNTIME]) == [RUNTIME];
    assert PolicyFailure(input, [RUNTIME]) == None;
    assert Sorted(ByCapability(o.locale), [LOW, HIGH]) by {
      assert o.locale("x", "x");
    }
    SortedIsFixed(ByCapability(o.locale), [LOW, HIGH]);
    hide Sort, PolicyFailure, RuntimeOf;
    c := Verdict(o, input, "gsap").value;
  }

  lemma LowComesFirst(o: Orders, c: ProviderCandidate)
    requires c.claims == [LOW, HIGH]
    requires o.locale(SortKey(o, Primary, 0.5, c.providerId), SortKey(o, Primary, 0.9, c.providerId))
    ensures OwnClaims(o, c, "x") == [LOW, HIGH]
  {
    var order := ClaimOrder(o, c.providerId);
    assert [LOW, HIGH][..1] == [LOW] && [LOW][..0] == [];
    assert Filter(For("x"), [LOW]) == [LOW];
    assert Filter(For("x"), [LOW, HIGH]) == [LOW, HIGH];
    assert order(LOW, HIGH);
    SortedIsFixed(order, [LOW, HIGH]);
  }

  /**
   With a confidence of 0.5 and one of 0.9 for one capability, and an order in which the text of -0.5 comes before that
   of -0.9, the request for it is answered with the former, although the latter makes an admissible, better route.
   */
  lemma DuplicateClaimsLoseTheBest(o: Orders)
    requires Usable(o)
    requires o.locale(SortKey(o, Primary, 0.5, "gsap"), SortKey(o, Primary, 0.9, "gsap"))
    ensures var input := CatalogOf(OnlyFrom("gsap", "x"));
            && Posed(o, input).Some?
            && var p := Posed(o, input).value;
            && Routed(o, input).Some? && Routed(o, input).value.Found?
            && var low := Routed(o, input).value.route;
            && |low.assignments| == 1 && low.assignments[0].providerId == "gsap" && low.assignments[0].confidence == 0.5
            && var high := Route([low.assignments[0].(confidence := 0.9)], []);
            && Admissible(p, high) && Better(high, low)
  {
    var request := OnlyFrom("gsap", "x");
    var c := ClaimingIsCandidate(o, request);
    LowComesFirst(o, c);
    hide Verdict, OwnClaims, OnlyFrom, Better, Posed, Routed, InLimit, Usable, Sort;
    FirstClaimIsFound(o, CatalogOf(request), "gsap", "x", c);
    assert CatalogOf(request).(request := request) == CatalogOf(request);
    var p := Posed(o, CatalogOf(request)).value;
    assert LOW in OwnClaims(o, c, "x") && HIGH in OwnClaims(o, c, "x");
    BetterOption(AssignmentOf(p, c, HIGH), AssignmentOf(p, c, LOW));
  }
}
