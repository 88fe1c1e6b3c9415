/**
 Which providers may take part in a route, and what each offers. The three
 providers the router knows are checked one after the other against the
 request, the policy and the catalog; the first check that fails rejects the
 provider.
 */
module Candidates {
  import opened Base
  import opened Sorting
  import opened Requests
  import opened Ranking

  datatype IntegrationKind = BuiltIn | RuntimePackage | OtherKind

  datatype Integration = Integration(
    id: string,
    kind: IntegrationKind,
    available: bool,
    isRuntime: bool,
    license: Option<string>,
    paidPlan: bool,
    projectWrite: bool,
    networkHosts: nat,
    executionRisk: string,
    packageName: Option<string>)

  datatype Claim = Claim(capabilityId: string, support: Support, confidence: real)

  datatype Connector = Connector(
    schemaV2: bool,
    selectable: bool,
    reviewStatus: string,
    healthy: bool,
    integrations: seq<Integration>,
    claims: seq<Claim>)

  /** isAtLeast is the answer to whether the declared version proves the minimum that Motion needs of React. */
  datatype Dependency = Dependency(name: string, isAtLeast: bool)

  datatype RoutingPolicy = RoutingPolicy(
    allowedConnectors: set<string>,
    deniedConnectors: set<string>,
    allowedLicenses: set<string>,
    allowPaidServices: bool)

  datatype Input = Input(
    request: Request,
    dependencies: seq<Dependency>,
    connectors: map<string, Connector>,
    known: set<string>,
    policy: RoutingPolicy)

  datatype ProviderCandidate = ProviderCandidate(
    providerId: string,
    native: bool,
    integrationIds: seq<string>,
    installed: bool,
    environmentSupported: bool,
    claims: seq<Claim>)

  datatype Rejection =
    ForbiddenProvider | PolicyDenied | ConnectorUnhealthy | RuntimeUnavailable | LicenseDenied | PaidDenied

  const PROVIDERS: seq<string> := ["gsap", "motion", "web-platform"]

  const RISKY: set<string> := {"command-execution", "network-and-command", "privileged", "project-write"}

  predicate Names(dependencies: seq<Dependency>, name: string) {
    exists i :: 0 <= i < |dependencies| && dependencies[i].name == name
  }

  /** Motion needs a declared React, every declaration of which proves its minimum. */
  predicate MotionSupported(dependencies: seq<Dependency>) {
    && Names(dependencies, "react")
    && forall i :: 0 <= i < |dependencies| && dependencies[i].name == "react" ==> dependencies[i].isAtLeast
  }

  predicate IsRuntime(provider: string, integration: Integration) {
    && integration.available && integration.isRuntime
    && integration.kind == if provider == "web-platform" then BuiltIn else RuntimePackage
  }

  function RuntimeOf(provider: string, integrations: seq<Integration>): seq<Integration> {
    if integrations == [] then []
    else
      var rest := RuntimeOf(provider, integrations[..|integrations| - 1]);
      if IsRuntime(provider, integrations[|integrations| - 1]) then rest + [integrations[|integrations| - 1]] else rest
  }

  function RuntimeFailure(input: Input, integration: Integration): Option<Rejection> {
    if integration.license.None? || integration.license.value !in input.policy.allowedLicenses then Some(LicenseDenied)
    else if integration.paidPlan && (!input.policy.allowPaidServices || !input.request.allowPaidServices) then
      Some(PaidDenied)
    else if integration.projectWrite || integration.networkHosts > 0 || integration.executionRisk in RISKY then
      Some(PolicyDenied)
    else None
  }

  /** The failure of the first integration that has one. */
  function PolicyFailure(input: Input, integrations: seq<Integration>): Option<Rejection> {
    if integrations == [] then None
    else
      var first := RuntimeFailure(input, integrations[0]);
      if first.Some? then first else PolicyFailure(input, integrations[1..])
  }

  predicate InstalledBy(dependencies: seq<Dependency>, integrations: seq<Integration>) {
    exists i :: 0 <= i < |integrations| && integrations[i].packageName.Some?
                && Names(dependencies, integrations[i].packageName.value)
  }

  function ByCapability(locale: Order): (Claim, Claim) -> bool {
    (c: Claim, d: Claim) => locale(c.capabilityId, d.capabilityId)
  }

  function Verdict(o: Orders, input: Input, provider: string): Result<ProviderCandidate, Rejection> {
    if provider in input.request.forbiddenProviders then Err(ForbiddenProvider)
    else if provider !in input.policy.allowedConnectors || provider in input.policy.deniedConnectors then
      Err(PolicyDenied)
    else if provider !in input.connectors then Err(ConnectorUnhealthy)
    else
      var c := input.connectors[provider];
      if !c.schemaV2 || !c.selectable || c.reviewStatus !in {"approved", "stable"} || !c.healthy then
        Err(ConnectorUnhealthy)
      else
        var runtime := RuntimeOf(provider, c.integrations);
        if runtime == [] then Err(RuntimeUnavailable)
        else if PolicyFailure(input, runtime).Some? then Err(PolicyFailure(input, runtime).value)
        else
          Ok(ProviderCandidate(
               provider,
               provider == "web-platform",
               Sort(o.units, seq(|runtime|, i requires 0 <= i < |runtime| => runtime[i].id)),
               InstalledBy(input.dependencies, runtime),
               provider == "motion" ==> MotionSupported(input.dependencies),
               Sort(ByCapability(o.locale), c.claims)))
  }

  /** The candidates among these providers, in their order; that of PROVIDERS is the one by locale already. */
  function CandidatesAmong(o: Orders, input: Input, providers: seq<string>): seq<ProviderCandidate> {
    if providers == [] then []
    else
      var rest := CandidatesAmong(o, input, providers[..|providers| - 1]);
      var verdict := Verdict(o, input, providers[|providers| - 1]);
      if verdict.Ok? then rest + [verdict.value] else rest
  }

  method BuildProviderCandidates(o: Orders, input: Input)
    returns (candidates: seq<ProviderCandidate>, rejections: map<string, Rejection>)
    ensures candidates == CandidatesAmong(o, input, PROVIDERS)
    ensures forall p :: p in rejections <==> p in PROVIDERS && Verdict(o, input, p).Err?
    ensures forall p :: p in rejections ==> Verdict(o, input, p) == Err(rejections[p])
  {
    candidates, rejections := [], map[];
    for n := 0 to |PROVIDERS|
      invariant candidates == CandidatesAmong(o, input, PROVIDERS[..n])
      invariant forall p :: p in rejections <==> p in PROVIDERS[..n] && Verdict(o, input, p).Err?
      invariant forall p :: p in rejections ==> Verdict(o, input, p) == Err(rejections[p])
    {
      hide Verdict;
      assert PROVIDERS[..n + 1] == PROVIDERS[..n] + [PROVIDERS[n]];
      var verdict := Verdict(o, input, PROVIDERS[n]);
      match verdict {
        case Ok(candidate) => candidates := candidates + [candidate];
        case Err(rejection) => rejections := rejections[PROVIDERS[n] := rejection];
      }
    }
    assert PROVIDERS[..|PROVIDERS|] == PROVIDERS;
  }

  /** A candidate is a provider that passes every check; nothing else is one. */
  lemma {:induction false} CandidateFound(o: Orders, input: Input, providers: seq<string>, c: ProviderCandidate)
    ensures c in CandidatesAmong(o, input, providers) <==>
            c.providerId in providers && Verdict(o, input, c.providerId) == Ok(c)
  {
    if providers != [] {
      var init, last := providers[..|providers| - 1], providers[|providers| - 1];
      assert providers == init + [last];
      CandidateFound(o, input, init, c);
      VerdictNames(o, input, last);
      hide Verdict;
    }
  }

  lemma VerdictNames(o: Orders, input: Input, provider: string)
    ensures Verdict(o, input, provider).Ok? ==> Verdict(o, input, provider).value.providerId == provider
  {
  }

  lemma ForbiddingOne(o: Orders, input: Input, more: Input, provider: string, p: string)
    requires more == input.(request := input.request.(forbiddenProviders := more.request.forbiddenProviders))
    requires forall f :: f in more.request.forbiddenProviders <==>
                         f in input.request.forbiddenProviders || f == provider
    ensures Verdict(o, more, p) == if p == provider then Err(ForbiddenProvider) else Verdict(o, input, p)
  {
    assert forall i :: RuntimeFailure(more, i) == RuntimeFailure(input, i);
    if p in input.connectors {
      SameFailure(input, more, RuntimeOf(p, input.connectors[p].integrations));
    }
  }

  lemma {:induction false} SameFailure(input: Input, more: Input, integrations: seq<Integration>)
    requires forall i :: RuntimeFailure(more, i) == RuntimeFailure(input, i)
    ensures PolicyFailure(more, integrations) == PolicyFailure(input, integrations)
  {
    if integrations != [] {
      SameFailure(input, more, integrations[1..]);
    }
  }

  ghost predicate DistinctProviders(candidates: seq<ProviderCandidate>) {
    forall i, j :: 0 <= i < j < |candidates| ==> candidates[i].providerId != candidates[j].providerId
  }

  lemma {:induction false} CandidatesDistinct(o: Orders, input: Input, providers: seq<string>)
    requires forall i, j :: 0 <= i < j < |providers| ==> providers[i] != providers[j]
    ensures DistinctProviders(CandidatesAmong(o, input, providers))
  {
    if providers != [] {
      var init, last := providers[..|providers| - 1], providers[|providers| - 1];
      CandidatesDistinct(o, input, init);
      var rest := CandidatesAmong(o, input, init);
      forall i | 0 <= i < |rest| ensures rest[i].providerId in init {
        CandidateFound(o, input, init, rest[i]);
        assert rest[i] in rest;
      }
      VerdictNames(o, input, last);
      hide Verdict;
    }
  }

  function Without(candidates: seq<ProviderCandidate>, provider: string): seq<ProviderCandidate> {
    if candidates == [] then []
    else
      var rest := Without(candidates[..|candidates| - 1], provider);
      if candidates[|candidates| - 1].providerId == provider then rest else rest + [candidates[|candidates| - 1]]
  }

  /** Forbidding one provider more takes away that candidate and changes no other. */
  lemma {:induction false} ForbiddingRemovesOne(o: Orders, input: Input, more: Input, provider: string,
                                                providers: seq<string>)
    requires more == input.(request := input.request.(forbiddenProviders := more.request.forbiddenProviders))
    requires forall f :: f in more.request.forbiddenProviders <==>
                         f in input.request.forbiddenProviders || f == provider
    ensures CandidatesAmong(o, more, providers) == Without(CandidatesAmong(o, input, providers), provider)
  {
    if providers != [] {
      var init, last := providers[..|providers| - 1], providers[|providers| - 1];
      ForbiddingRemovesOne(o, input, more, provider, init);
      ForbiddingOne(o, input, more, provider, last);
      VerdictNames(o, input, last);
      hide Verdict;
      var rest := CandidatesAmong(o, input, init);
      var verdict := Verdict(o, input, last);
      if verdict.Ok? {
        assert (rest + [verdict.value])[..|rest|] == rest;
      }
    }
  }

  lemma {:induction false} WithoutKeeps(candidates: seq<ProviderCandidate>, provider: string, c: ProviderCandidate)
    ensures c in Without(candidates, provider) <==> c in candidates && c.providerId != provider
  {
    if candidates != [] {
      assert candidates == candidates[..|candidates| - 1] + [candidates[|candidates| - 1]];
      WithoutKeeps(candidates[..|candidates| - 1], provider, c);
    }
  }

  lemma {:induction false} WithoutDistinct(candidates: seq<ProviderCandidate>, provider: string)
    requires DistinctProviders(candidates)
    ensures DistinctProviders(Without(candidates, provider))
    ensures forall c :: c in Without(candidates, provider) ==> c in candidates
  {
    forall c ensures c in Without(candidates, provider) <==> c in candidates && c.providerId != provider {
      WithoutKeeps(candidates, provider, c);
    }
    if candidates != [] {
      var init, last := candidates[..|candidates| - 1], candidates[|candidates| - 1];
      WithoutDistinct(init, provider);
      var rest := Without(init, provider);
      forall i | 0 <= i < |rest| ensures rest[i].providerId != last.providerId {
        assert rest[i] in init;
      }
    }
  }
}
