/** Routing a request, from its normalization to the decision. */
module Routing {
  import opened Base
  import opened Sorting
  import opened Requests
  import opened Ranking
  import opened Candidates
  import opened Ownership
  import opened RouteSearch
  import opened LeadingOptions
  import opened Router
  import opened RouterResults

  function ProblemOf(o: Orders, input: Input): Problem {
    Problem(input.request.capabilities, input.known, CandidatesAmong(o, input, PROVIDERS),
            input.request.preferredProviders, input.request.maxProviders)
  }

  /** The problem that a request poses, once normalized; None if it is rejected. */
  ghost function Posed(o: Orders, input: Input): Option<Problem> {
    var request := Normalize(o.locale, o.units, input.request);
    if request.None? then None else Some(ProblemOf(o, input.(request := request.value)))
  }

  ghost function Routed(o: Orders, input: Input): Option<Decision> {
    var p := Posed(o, input);
    if p.None? then None else Some(Decide(o, p.value))
  }

  lemma AllExtendedStep(c: Capability, options: seq<Assignment>, routes: seq<Route>, i: nat)
    requires i < |routes|
    ensures AllExtended(c, options, routes[..i + 1])
         == AllExtended(c, options, routes[..i]) + Extended(c, options, routes[i])
  {
    assert routes[..i + 1][..i] == routes[..i];
  }

  method ExtendAll(c: Capability, options: seq<Assignment>, routes: seq<Route>) returns (next: seq<Route>)
    ensures next == AllExtended(c, options, routes)
  {
    next := [];
    for i := 0 to |routes|
      invariant next == AllExtended(c, options, routes[..i])
    {
      AllExtendedStep(c, options, routes, i);
      ghost var before := next;
      hide AllExtended;
      if !c.required {
        next := next + [Omit(routes[i], c.id)];
      }
      ghost var omitting := if c.required then [] else [Omit(routes[i], c.id)];
      for j := 0 to |options|
        invariant next == before + (omitting + AssignFirst(routes[i], options, j))
      {
        next := next + [Assign(routes[i], options[j])];
      }
    }
    assert routes[..|routes|] == routes;
  }

  lemma EnumerateStep(o: Orders, p: Problem, n: nat)
    requires n < |p.capabilities|
    ensures var c := p.capabilities[n];
            && Combinations(o, p, n + 1) == AllExtended(c, Options(o, p, c.id), Combinations(o, p, n))
            && (c.id !in p.known ==> Options(o, p, c.id) == [])
            && FirstLacking(o, p, n)
               == if c.required && Options(o, p, c.id) == [] then Some(c.id) else FirstLacking(o, p, n + 1)
  {
    hide AllExtended;
  }

  /** Every combination, or the first required capability that nothing covers. */
  method Enumerate(o: Orders, p: Problem) returns (lacking: Option<string>, combinations: seq<Route>)
    ensures lacking == FirstLacking(o, p, 0)
    ensures lacking.None? ==> combinations == Combinations(o, p, |p.capabilities|)
  {
    combinations := [Route([], [])];
    hide AssignFirst, Extended;
    for n := 0 to |p.capabilities|
      invariant FirstLacking(o, p, 0) == FirstLacking(o, p, n)
      invariant combinations == Combinations(o, p, n)
    {
      EnumerateStep(o, p, n);
      hide AllExtended, Combinations, FirstLacking, Options, Lacking;
      var c := p.capabilities[n];
      if c.id !in p.known {
        if c.required {
          return Some(c.id), [];
        }
        combinations := ExtendAll(c, [], combinations);
      } else {
        var options := AssignmentOptions(o, p, c.id);
        if c.required && options == [] {
          return Some(c.id), [];
        }
        combinations := ExtendAll(c, options, combinations);
      }
    }
    lacking := None;
  }

  ghost predicate Exceeds(p: Problem, routes: seq<Route>) {
    exists r :: r in routes && Providers(r) > p.maxProviders
  }

  datatype Classes = Classes(valid: seq<Route>, ambiguous: seq<Route>, blocked: seq<Route>, exceeded: bool)

  ghost predicate Classified(p: Problem, routes: seq<Route>, c: Classes) {
    && c.valid == WithStatus(p, routes, Fine)
    && c.ambiguous == WithStatus(p, routes, NeedsInput)
    && c.blocked == WithStatus(p, routes, Blocked)
    && (c.exceeded <==> Exceeds(p, routes))
  }

  function Put(c: Classes, r: Route, status: OwnershipStatus): Classes {
    match status
    case Fine => c.(valid := c.valid + [r])
    case NeedsInput => c.(ambiguous := c.ambiguous + [r])
    case Blocked => c.(blocked := c.blocked + [r])
  }

  lemma ClassifiedStep(p: Problem, routes: seq<Route>, i: nat, c: Classes)
    requires i < |routes| && Classified(p, routes[..i], c)
    ensures Classified(p, routes[..i + 1],
                       if Providers(routes[i]) > p.maxProviders then c.(exceeded := true)
                       else Put(c, routes[i], StatusOf(p.capabilities, routes[i].assignments)))
  {
    hide Providers, StatusOf;
    assert routes[..i + 1][..i] == routes[..i];
    assert routes[..i + 1] == routes[..i] + [routes[i]];
  }

  method Classify(o: Orders, p: Problem, routes: seq<Route>) returns (classes: Classes)
    ensures Classified(p, routes, classes)
  {
    classes := Classes([], [], [], false);
    for i := 0 to |routes|
      invariant Classified(p, routes[..i], classes)
    {
      ClassifiedStep(p, routes, i, classes);
      hide Classified, StatusOf, Providers;
      if Providers(routes[i]) > p.maxProviders {
        classes := classes.(exceeded := true);
      } else {
        var resolution := ResolveOwnership(o.locale, p.capabilities, routes[i].assignments);
        classes := Put(classes, routes[i], resolution.status);
      }
    }
    assert routes[..|routes|] == routes;
  }

  method DeduplicateRoutes(routes: seq<Route>) returns (values: seq<Route>)
    ensures values == Deduplicate(routes)
  {
    values := [];
    for i := 0 to |routes|
      invariant values == Deduplicate(routes[..i])
    {
      assert routes[..i + 1][..i] == routes[..i];
      if !HasKey(values, routes[i]) {
        values := values + [routes[i]];
      }
    }
    assert routes[..|routes|] == routes;
  }

  method Search(o: Orders, p: Problem) returns (decision: Decision)
    ensures decision == Decide(o, p)
  {
    hide FirstLacking, Combinations, WithStatus, Deduplicate, Sort, AmongBest, Providers, RankOrder, RouteOrder;
    var lacking, combinations := Enumerate(o, p);
    if lacking.Some? {
      return Unsupported(lacking.value);
    }
    var classes := Classify(o, p, combinations);
    var valid := DeduplicateRoutes(classes.valid);
    SortPermutes(RouteOrder(o), valid);
    if valid != [] {
      return AmongBest(Sort(RouteOrder(o), valid));
    }
    var ambiguous := DeduplicateRoutes(classes.ambiguous);
    SortPermutes(RankOrder(), ambiguous);
    if ambiguous != [] {
      return AmbiguousOwnership(Sort(RankOrder(), ambiguous)[0]);
    }
    if classes.blocked != [] {
      return BlockedOwnership(classes.blocked[0]);
    }
    decision := if classes.exceeded then ProviderLimit else NoProviderSet;
  }

  method RouteCapabilities(o: Orders, input: Input) returns (decision: Option<Decision>)
    ensures decision == Routed(o, input)
  {
    hide Normalize, Decide, CandidatesAmong;
    var request := NormalizeRequest(o.locale, o.units, input.request);
    if request.None? {
      return None;
    }
    var normalized := input.(request := request.value);
    var candidates, _ := BuildProviderCandidates(o, normalized);
    var found := Search(o, Problem(request.value.capabilities, input.known, candidates,
                                   request.value.preferredProviders, request.value.maxProviders));
    decision := Some(found);
  }

  // Results for requests.

  /** Candidates are distinct providers and normalized capabilities have distinct ids, whatever the input. */
  lemma PosedIsWellformed(o: Orders, input: Input)
    requires Total(o.locale) && Posed(o, input).Some?
    ensures Wellformed(Posed(o, input).value)
  {
    hide CandidatesAmong, Sort, Sorted, Distinct, Contradictory, Keep, DistinctProviders, DistinctIds, Asked, Total;
    NormalizedCapabilities(o.locale, input.request.capabilities);
    CandidatesDistinct(o, input.(request := Normalize(o.locale, o.units, input.request).value), PROVIDERS);
  }

  /** The decision does not depend on the order or the repetition of the requested capabilities. */
  lemma RequestOrderIsIrrelevant(o: Orders, a: Input, b: Input)
    requires Total(o.locale)
    requires b == a.(request := a.request.(capabilities := b.request.capabilities))
    requires Asked(a.request.capabilities) == Asked(b.request.capabilities)
    ensures Routed(o, a) == Routed(o, b)
  {
    hide Normalize, Decide, ProblemOf, Asked;
    NormalizationIgnoresOrder(o.locale, o.units, a.request, b.request);
  }

  /**
   What is found for a request is the one contender that ranks better than every other, and it is found if there is
   one.
   */
  lemma RoutedMeansStrictlyBest(o: Orders, input: Input, r: Route)
    requires Usable(o) && Posed(o, input).Some?
    ensures Routed(o, input) == Some(Found(StatusOfRoute(r), r)) <==> StrictlyBest(o, Posed(o, input).value, r)
  {
    hide Posed, Decide, StrictlyBest, Wellformed, StatusOfRoute;
    PosedIsWellformed(o, input);
    FoundMeansStrictlyBest(o, Posed(o, input).value, r);
  }

  lemma ForbiddenPosed(o: Orders, a: Input, b: Input, provider: string)
    requires b == a.(request := a.request.(forbiddenProviders := a.request.forbiddenProviders + [provider]))
    requires Posed(o, a).Some?
    ensures Posed(o, b) == Some(Posed(o, a).value.(candidates := Without(Posed(o, a).value.candidates, provider)))
  {
    var n := a.(request := Normalize(o.locale, o.units, a.request).value);
    var m := b.(request := Normalize(o.locale, o.units, b.request).value);
    ForbiddenNormalized(o.units, a.request.forbiddenProviders);
    ForbiddenNormalized(o.units, b.request.forbiddenProviders);
    hide CandidatesAmong, Sort, Keep, Without, Contradictory, Distinct;
    ForbiddingRemovesOne(o, n, m, provider, PROVIDERS);
  }

  /** Forbidding one more provider, one that no route of the answer uses, leaves the answer as it is. */
  lemma ForbiddingUnused(o: Orders, a: Input, b: Input, provider: string)
    requires Usable(o)
    requires b == a.(request := a.request.(forbiddenProviders := a.request.forbiddenProviders + [provider]))
    requires Routed(o, a).Some?
    requires match Routed(o, a).value
             case Found(_, r) => !Uses(r, provider)
             case Tie(r, s) => !Uses(r, provider) && !Uses(s, provider)
             case _ => false
    ensures Routed(o, b) == Routed(o, a)
  {
    ForbiddenPosed(o, a, b, provider);
    PosedIsWellformed(o, a);
    hide Posed, Wellformed, Decide, Usable, Without, Uses;
    var p, q := Posed(o, a).value, Posed(o, b).value;
    if Decide(o, p).Found? {
      RemovingUnused(o, p, q, provider);
    } else {
      RemovingUnusedFromTie(o, p, q, provider);
    }
  }

  lemma ForbiddenNormalized(units: Order, forbidden: seq<string>)
    ensures forall f :: f in Sort(units, Keep(forbidden)) <==> f in forbidden
  {
    SortMembers(units, Keep(forbidden));
    KeepDistinct(forbidden);
  }
}
