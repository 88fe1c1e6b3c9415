/** What a routing decision does not depend on, and why there may be none. */
module RouterResults {
  import opened Base
  import opened Sorting
  import opened Requests
  import opened Ranking
  import opened Candidates
  import opened Ownership
  import opened RouteSearch
  import opened LeadingOptions
  import opened Router

  // Why there is no route.

  lemma DeduplicateEmpty(routes: seq<Route>)
    ensures Deduplicate(routes) == [] <==> routes == []
    ensures forall r :: r in Deduplicate(routes) ==> r in routes
  {
    DeduplicateKeeps(routes);
    if routes != [] {
      assert routes[0] in routes;
    }
  }

  lemma FirstInLimit(o: Orders, p: Problem, status: OwnershipStatus)
    ensures var found := WithStatus(p, Combinations(o, p, |p.capabilities|), status);
            && (found == [] <==> forall r :: !InLimit(p, r, status))
            && (forall r :: r in found ==> InLimit(p, r, status))
  {
    var found := WithStatus(p, Combinations(o, p, |p.capabilities|), status);
    hide InLimit, WithStatus, Combinations;
    forall r ensures r in found <==> InLimit(p, r, status) {
      InLimitFound(o, p, status, r);
    }
    if found != [] {
      assert found[0] in found;
    }
  }

  /** How the answer without a route depends on the routes that arise. */
  ghost predicate Explains(p: Problem, d: Decision) {
    match d
    case Unsupported(_) => forall r :: !Arises(p, |p.capabilities|, r)
    case AmbiguousOwnership(r) => InLimit(p, r, NeedsInput) && forall s :: !Admissible(p, s)
    case BlockedOwnership(r) => InLimit(p, r, Blocked) && forall s :: !InLimit(p, s, NeedsInput) && !Admissible(p, s)
    case ProviderLimit =>
      && (exists r :: Arises(p, |p.capabilities|, r))
      && (forall r :: Arises(p, |p.capabilities|, r) ==> Providers(r) > p.maxProviders)
    case NoProviderSet => false
    case _ => exists s :: Admissible(p, s)
  }

  lemma NoneInLimit(p: Problem, r: Route)
    requires Arises(p, |p.capabilities|, r)
    requires !InLimit(p, r, Fine) && !InLimit(p, r, NeedsInput) && !InLimit(p, r, Blocked)
    ensures Providers(r) > p.maxProviders
  {
    hide Arises, Providers, StatusOf;
  }

  /** The routes of one status, deduplicated. */
  ghost function Found(o: Orders, p: Problem, status: OwnershipStatus): seq<Route> {
    Deduplicate(WithStatus(p, Combinations(o, p, |p.capabilities|), status))
  }

  lemma FoundInLimit(o: Orders, p: Problem, status: OwnershipStatus)
    ensures Found(o, p, status) == [] <==> forall r :: !InLimit(p, r, status)
    ensures forall r :: r in Found(o, p, status) ==> InLimit(p, r, status)
  {
    hide InLimit, WithStatus, Combinations;
    FirstInLimit(o, p, status);
    DeduplicateEmpty(WithStatus(p, Combinations(o, p, |p.capabilities|), status));
  }

  lemma CauseOfRoute(o: Orders, p: Problem)
    requires FirstLacking(o, p, 0).None? && Found(o, p, Fine) != []
    ensures Explains(p, Decide(o, p))
  {
    hide WithStatus, Combinations, Deduplicate, Sort, MaterialTie, InLimit, FirstLacking, StatusOfRoute, RouteOrder;
    FoundInLimit(o, p, Fine);
    SortPermutes(RouteOrder(o), Found(o, p, Fine));
    assert Found(o, p, Fine)[0] in Found(o, p, Fine);
    assert Admissible(p, Found(o, p, Fine)[0]);
  }

  lemma CauseOfAmbiguity(o: Orders, p: Problem)
    requires FirstLacking(o, p, 0).None? && Found(o, p, Fine) == [] && Found(o, p, NeedsInput) != []
    ensures Explains(p, Decide(o, p))
  {
    hide WithStatus, Combinations, Deduplicate, Sort, InLimit, FirstLacking, RankOrder;
    FoundInLimit(o, p, Fine);
    FoundInLimit(o, p, NeedsInput);
    var ambiguous := Found(o, p, NeedsInput);
    SortPermutes(RankOrder(), ambiguous);
    SortMembers(RankOrder(), ambiguous);
    assert Sort(RankOrder(), ambiguous)[0] in ambiguous;
  }

  lemma CauseOfBlock(o: Orders, p: Problem)
    requires FirstLacking(o, p, 0).None? && Found(o, p, Fine) == [] && Found(o, p, NeedsInput) == []
    ensures Explains(p, Decide(o, p))
  {
    hide WithStatus, Combinations, Deduplicate, InLimit, Arises, FirstLacking, Providers;
    FoundInLimit(o, p, Fine);
    FoundInLimit(o, p, NeedsInput);
    FirstInLimit(o, p, Blocked);
    if WithStatus(p, Combinations(o, p, |p.capabilities|), Blocked) == [] {
      SomethingArises(o, p, |p.capabilities|);
      OverLimit(o, p);
    }
  }

  /**
   Every answer has its cause, and the cause excludes every better answer; the final catch-all, that no provider set
   covers the request, is never given.
   */
  lemma EveryAnswerHasItsCause(o: Orders, p: Problem)
    ensures Explains(p, Decide(o, p))
  {
    hide Found, Decide, Arises;
    if FirstLacking(o, p, 0).Some? {
      forall r ensures !Arises(p, |p.capabilities|, r) { NothingArises(o, p, r); }
      UnsupportedWhenLacking(o, p);
    } else if Found(o, p, Fine) != [] {
      CauseOfRoute(o, p);
    } else if Found(o, p, NeedsInput) != [] {
      CauseOfAmbiguity(o, p);
    } else {
      CauseOfBlock(o, p);
    }
  }

  /** Of the leading routes whose ownership needs input, the one reported ranks as well as any. */
  lemma BestAmbiguity(o: Orders, p: Problem)
    requires Usable(o) && Wellformed(p) && Decide(o, p).AmbiguousOwnership?
    ensures Leading(o, p, Decide(o, p).route, NeedsInput)
    ensures forall s :: Leading(o, p, s, NeedsInput) ==> !Better(s, Decide(o, p).route)
  {
    var ambiguous := Found(o, p, NeedsInput);
    DeduplicatedRoutes(o, p, NeedsInput);
    AmbiguityIsFirst(o, p);
    hide Wellformed, Decide, Leading, Found, Sort, Better;
    LeastIsFirst(ambiguous);
    SortMembers(RankOrder(), ambiguous);
    assert Sort(RankOrder(), ambiguous)[0] in ambiguous;
  }

  lemma AmbiguityIsFirst(o: Orders, p: Problem)
    requires Decide(o, p).AmbiguousOwnership?
    ensures Found(o, p, NeedsInput) != [] && |Sort(RankOrder(), Found(o, p, NeedsInput))| > 0
    ensures Decide(o, p).route == Sort(RankOrder(), Found(o, p, NeedsInput))[0]
  {
    hide WithStatus, Combinations, Deduplicate, Sort, FirstLacking, RankOrder, RouteOrder, MaterialTie;
    SortPermutes(RankOrder(), Found(o, p, NeedsInput));
  }

  lemma LeastIsFirst(routes: seq<Route>)
    requires routes != [] && |Sort(RankOrder(), routes)| > 0
    ensures forall s :: s in routes ==> !Better(s, Sort(RankOrder(), routes)[0])
  {
    RankOrderIsTotal();
    SortSorts(RankOrder(), routes);
    SortMembers(RankOrder(), routes);
    var sorted := Sort(RankOrder(), routes);
    hide Sort, Compare, RankOfRoute;
    forall s | s in routes ensures !Better(s, sorted[0]) {
      var j :| 0 <= j < |sorted| && sorted[j] == s;
      assert RankOrder()(sorted[0], sorted[j]);
      CompareOpposite(RankOfRoute(sorted[0]), RankOfRoute(s));
    }
  }

  lemma UnsupportedWhenLacking(o: Orders, p: Problem)
    requires FirstLacking(o, p, 0).Some?
    ensures Decide(o, p).Unsupported?
  {
  }

  lemma OverLimit(o: Orders, p: Problem)
    requires exists r :: Arises(p, |p.capabilities|, r)
    requires forall r :: !InLimit(p, r, Fine) && !InLimit(p, r, NeedsInput) && !InLimit(p, r, Blocked)
    ensures exists r :: r in Combinations(o, p, |p.capabilities|) && Providers(r) > p.maxProviders
    ensures forall r :: Arises(p, |p.capabilities|, r) ==> Providers(r) > p.maxProviders
  {
    hide Combinations, InLimit, Arises, Providers;
    forall r | Arises(p, |p.capabilities|, r) ensures Providers(r) > p.maxProviders {
      NoneInLimit(p, r);
    }
    var r :| Arises(p, |p.capabilities|, r);
    EnumerationIsComplete(o, p, |p.capabilities|, r);
  }

  // No provider is there for optional capabilities only.

  function Dropped(c: Choice, provider: string): Choice {
    seq(|c|, i requires 0 <= i < |c| => if c[i].Some? && c[i].value.providerId == provider then None else c[i])
  }

  function WithoutProvider(assignments: seq<Assignment>, provider: string): seq<Assignment> {
    if assignments == [] then []
    else
      var rest, last := WithoutProvider(assignments[..|assignments| - 1], provider), assignments[|assignments| - 1];
      if last.providerId == provider then rest else rest + [last]
  }

  lemma {:induction false} DroppedRoute(p: Problem, c: Choice, provider: string)
    requires |c| <= |p.capabilities|
    ensures RouteOf(p, Dropped(c, provider)).assignments == WithoutProvider(RouteOf(p, c).assignments, provider)
  {
    if c != [] {
      var init := c[..|c| - 1];
      DroppedRoute(p, init, provider);
      assert Dropped(c, provider)[..|c| - 1] == Dropped(init, provider);
      var r := RouteOf(p, init);
      if c[|c| - 1].Some? {
        assert Assign(r, c[|c| - 1].value).assignments[..|r.assignments|] == r.assignments;
      }
    }
  }

  lemma {:induction false} WithoutProviderFinds(assignments: seq<Assignment>, provider: string, a: Assignment)
    ensures a in WithoutProvider(assignments, provider) <==> a in assignments && a.providerId != provider
  {
    if assignments != [] {
      assert assignments == assignments[..|assignments| - 1] + [assignments[|assignments| - 1]];
      WithoutProviderFinds(assignments[..|assignments| - 1], provider, a);
    }
  }

  lemma OneProviderLess(assignments: seq<Assignment>, provider: string)
    requires provider in ThirdParty(assignments)
    ensures ThirdParty(WithoutProvider(assignments, provider)) == ThirdParty(assignments) - {provider}
    ensures |ThirdParty(WithoutProvider(assignments, provider))| == |ThirdParty(assignments)| - 1
  {
    forall a ensures a in WithoutProvider(assignments, provider) <==> a in assignments && a.providerId != provider {
      WithoutProviderFinds(assignments, provider, a);
    }
    hide WithoutProvider;
    var after := ThirdParty(WithoutProvider(assignments, provider));
    forall q ensures q in after <==> q in ThirdParty(assignments) && q != provider {
      if q in ThirdParty(assignments) && q != provider {
        var a :| a in assignments && !a.native && a.providerId == q;
        assert a in WithoutProvider(assignments, provider);
      }
    }
    assert after == ThirdParty(assignments) - {provider};
  }

  /** provider covers a required capability in the route. */
  ghost predicate Needed(p: Problem, r: Route, provider: string) {
    exists i, a :: 0 <= i < |p.capabilities| && a in r.assignments && Covers(p.capabilities[i], a, provider)
  }

  predicate Covers(c: Capability, a: Assignment, provider: string) {
    c.required && a.capabilityId == c.id && a.providerId == provider
  }

  lemma DroppedIsChoice(p: Problem, c: Choice, provider: string)
    requires Chooses(p, c) && !Needed(p, RouteOf(p, c), provider)
    ensures Chooses(p, Dropped(c, provider))
  {
    hide Offers, RouteOf;
    var d := Dropped(c, provider);
    forall i | 0 <= i < |d| ensures MayChoose(p, p.capabilities[i], d[i]) {
      assert MayChoose(p, p.capabilities[i], c[i]);
      if c[i].Some? && c[i].value.providerId == provider {
        ChosenIsAssigned(p, c, i);
        OffersNames(p, p.capabilities[i].id, c[i].value);
        assert Covers(p.capabilities[i], c[i].value, provider) || !p.capabilities[i].required;
      }
    }
  }

  lemma DroppedArises(p: Problem, r: Route, provider: string) returns (s: Route)
    requires Arises(p, |p.capabilities|, r) && !Needed(p, r, provider)
    ensures Arises(p, |p.capabilities|, s) && s.assignments == WithoutProvider(r.assignments, provider)
  {
    hide Needed, RouteOf, Chooses;
    var c: Choice :| |c| == |p.capabilities| && Chooses(p, c) && RouteOf(p, c) == r;
    var d := Dropped(c, provider);
    assert |d| == |c|;
    DroppedIsChoice(p, c, provider);
    DroppedRoute(p, c, provider);
    s := RouteOf(p, d);
  }

  lemma DroppedContends(o: Orders, p: Problem, r: Route, provider: string) returns (s: Route)
    requires Contender(o, p, r) && provider in ThirdParty(r.assignments) && !Needed(p, r, provider)
    ensures Contender(o, p, s) && Providers(s) < Providers(r)
  {
    hide Needed, Arises, StatusOf, ThirdParty, Lead;
    s := DroppedArises(p, r, provider);
    OneProviderLess(r.assignments, provider);
    forall a ensures a in s.assignments ==> a in r.assignments {
      WithoutProviderFinds(r.assignments, provider, a);
    }
    FewerAssignmentsStayFine(p.capabilities, s.assignments, r.assignments);
  }

  /** In a route as good as any, each third-party provider covers a required capability. */
  lemma EveryProviderIsNeeded(o: Orders, p: Problem, r: Route, provider: string)
    requires Optimal(o, p, r) && provider in ThirdParty(r.assignments)
    ensures Needed(p, r, provider)
  {
    hide Needed, ThirdParty, Better, Contender;
    if !Needed(p, r, provider) {
      var s := DroppedContends(o, p, r, provider);
      FewerProvidersIsBetter(s, r);
      assert false;
    }
  }

  lemma FewerProvidersIsBetter(r: Route, s: Route)
    requires Providers(r) < Providers(s)
    ensures Better(r, s)
  {
  }

  // Raising the limit.

  lemma {:induction false} SameRoute(p: Problem, q: Problem, c: Choice)
    requires q.capabilities == p.capabilities && |c| <= |p.capabilities|
    ensures RouteOf(q, c) == RouteOf(p, c)
  {
    if c != [] {
      SameRoute(p, q, c[..|c| - 1]);
    }
  }

  lemma LimitDoesNotChoose(p: Problem, q: Problem, r: Route)
    requires q == p.(maxProviders := q.maxProviders)
    ensures Arises(p, |p.capabilities|, r) <==> Arises(q, |q.capabilities|, r)
  {
    hide RouteOf;
    forall id, a ensures Offers(p, id, a) <==> Offers(q, id, a) { SameOffers(p, q, id, a); }
    hide Offers;
    forall c: Choice | |c| == |p.capabilities|
      ensures Chooses(p, c) <==> Chooses(q, c)
      ensures RouteOf(q, c) == RouteOf(p, c)
    {
      SameRoute(p, q, c);
      assert forall i :: 0 <= i < |c| ==>
                         (MayChoose(p, p.capabilities[i], c[i]) <==> MayChoose(q, q.capabilities[i], c[i]));
    }
  }

  lemma SameOffers(p: Problem, q: Problem, id: string, a: Assignment)
    requires q == p.(maxProviders := q.maxProviders)
    ensures Offers(p, id, a) <==> Offers(q, id, a)
  {
    assert forall c, claim :: Makes(p, id, c, claim, a) <==> Makes(q, id, c, claim, a);
    hide Makes;
  }

  /** Which option of a provider is the first does not depend on the limit. */
  lemma LimitDoesNotLead(o: Orders, p: Problem, q: Problem, r: Route)
    requires q == p.(maxProviders := q.maxProviders)
    ensures LeadRoute(o, p, r) <==> LeadRoute(o, q, r)
  {
    hide OwnClaims;
    assert forall c, claim :: AssignmentOf(p, c, claim) == AssignmentOf(q, c, claim);
    hide AssignmentOf;
    forall a ensures Lead(o, p, a) <==> Lead(o, q, a) {
      assert forall c :: Represents(o, p, c, a) <==> Represents(o, q, c, a);
    }
  }

  lemma RaisedLimit(o: Orders, p: Problem, q: Problem, r: Route)
    requires q == p.(maxProviders := q.maxProviders) && q.maxProviders >= p.maxProviders
    ensures Contender(o, p, r) ==> Contender(o, q, r)
    ensures Contender(o, q, r) && !Contender(o, p, r) ==> Providers(r) > p.maxProviders
  {
    hide Arises, StatusOf, LeadRoute;
    LimitDoesNotChoose(p, q, r);
    LimitDoesNotLead(o, p, q, r);
  }

  /** Raising maxProviders changes neither a route that was found nor the two routes of a tie. */
  lemma RaisingTheLimit(o: Orders, p: Problem, q: Problem)
    requires Usable(o) && Wellformed(p)
    requires q == p.(maxProviders := q.maxProviders) && q.maxProviders >= p.maxProviders
    ensures Decide(o, p).Found? || Decide(o, p).Tie? ==> Decide(o, q) == Decide(o, p)
  {
    hide Decide, Better, Usable, StatusOfRoute, Contender, MaterialTie, Leaders;
    assert Wellformed(q);
    hide Wellformed;
    if Decide(o, p).Found? {
      var r := Decide(o, p).route;
      FoundIsOfStatus(o, p);
      FoundMeansStrictlyBest(o, p, r);
      RaisedLimit(o, p, q, r);
      WithinLimit(o, p, r);
      forall s | Contender(o, q, s) && s != r ensures Better(r, s) {
        RaisedLimit(o, p, q, s);
        if !Contender(o, p, s) {
          FewerProvidersIsBetter(r, s);
        }
      }
      FoundMeansStrictlyBest(o, q, r);
    } else if Decide(o, p).Tie? {
      var r, s := Decide(o, p).best, Decide(o, p).second;
      TieNamesTheLeaders(o, p, r, s);
      StillLeaders(o, p, q, r, s);
      TieNamesTheLeaders(o, q, r, s);
    }
  }

  lemma StillLeaders(o: Orders, p: Problem, q: Problem, r: Route, s: Route)
    requires q == p.(maxProviders := q.maxProviders) && q.maxProviders >= p.maxProviders && Leaders(o, p, r, s)
    ensures Leaders(o, q, r, s)
  {
    hide Contender, Better;
    RaisedLimit(o, p, q, r);
    RaisedLimit(o, p, q, s);
    WithinLimit(o, p, r);
    WithinLimit(o, p, s);
    forall t | Contender(o, q, t) && t != r && t != s ensures Precedes(o, r, t) && Precedes(o, s, t) {
      RaisedLimit(o, p, q, t);
      if !Contender(o, p, t) {
        FewerPrecedes(o, r, t);
        FewerPrecedes(o, s, t);
      }
    }
  }

  lemma FewerPrecedes(o: Orders, r: Route, s: Route)
    requires Providers(r) < Providers(s)
    ensures Precedes(o, r, s)
  {
  }

  lemma WithinLimit(o: Orders, p: Problem, r: Route)
    requires Contender(o, p, r)
    ensures Providers(r) <= p.maxProviders
  {
  }

  lemma FoundIsOfStatus(o: Orders, p: Problem)
    ensures Decide(o, p).Found? ==> Decide(o, p).status == StatusOfRoute(Decide(o, p).route)
  {
    hide Combinations, WithStatus, Deduplicate, FirstLacking, Providers, Sort, MaterialTie, StatusOfRoute;
  }

  // Forbidding a provider that is not used.

  lemma FewerOffers(p: Problem, q: Problem, provider: string, id: string, a: Assignment)
    requires q == p.(candidates := Without(p.candidates, provider))
    ensures Offers(q, id, a) <==> Offers(p, id, a) && a.providerId != provider
  {
    OffersByCandidate(p, id, a);
    OffersByCandidate(q, id, a);
    hide Offers, Without;
    forall c ensures c in q.candidates <==> c in p.candidates && c.providerId != provider {
      WithoutKeeps(p.candidates, provider, c);
    }
    assert forall c, claim :: Makes(p, id, c, claim, a) <==> Makes(q, id, c, claim, a);
    assert forall c, claim :: Makes(p, id, c, claim, a) ==> c.providerId == a.providerId;
    hide Makes;
  }

  lemma OffersByCandidate(p: Problem, id: string, a: Assignment)
    ensures Offers(p, id, a) <==>
            id in p.known && exists c, claim :: c in p.candidates && claim in c.claims && Makes(p, id, c, claim, a)
  {
    hide Makes;
    if c, claim :| id in p.known && c in p.candidates && claim in c.claims && Makes(p, id, c, claim, a) {
      var n :| 0 <= n < |p.candidates| && p.candidates[n] == c;
      var m :| 0 <= m < |c.claims| && c.claims[m] == claim;
    }
  }

  predicate Uses(r: Route, provider: string) {
    exists i :: 0 <= i < |r.assignments| && r.assignments[i].providerId == provider
  }

  lemma FewerChoices(p: Problem, q: Problem, provider: string, c: Choice)
    requires q == p.(candidates := Without(p.candidates, provider)) && |c| <= |p.capabilities|
    ensures Chooses(q, c) ==> Chooses(p, c)
    ensures Chooses(p, c) && !Uses(RouteOf(p, c), provider) ==> Chooses(q, c)
  {
    hide Without, RouteOf;
    forall id, a ensures Offers(q, id, a) <==> Offers(p, id, a) && a.providerId != provider {
      FewerOffers(p, q, provider, id, a);
    }
    hide Offers;
    forall i | 0 <= i < |c|
      ensures MayChoose(q, q.capabilities[i], c[i]) ==> MayChoose(p, p.capabilities[i], c[i])
      ensures MayChoose(p, p.capabilities[i], c[i]) && !Uses(RouteOf(p, c), provider) ==>
                MayChoose(q, q.capabilities[i], c[i])
    {
      if c[i].Some? {
        ChosenIsAssigned(p, c, i);
      }
    }
  }

  /** What the other providers lead with stays. */
  lemma FewerLead(o: Orders, p: Problem, q: Problem, provider: string, a: Assignment)
    requires q == p.(candidates := Without(p.candidates, provider))
    ensures Lead(o, q, a) <==> Lead(o, p, a) && a.providerId != provider
  {
    hide OwnClaims, Without;
    forall c ensures c in q.candidates <==> c in p.candidates && c.providerId != provider {
      WithoutKeeps(p.candidates, provider, c);
    }
    assert forall c, claim :: AssignmentOf(p, c, claim) == AssignmentOf(q, c, claim);
    hide AssignmentOf;
    assert forall c :: Represents(o, p, c, a) <==> Represents(o, q, c, a);
  }

  lemma FewerRoutes(o: Orders, p: Problem, q: Problem, provider: string, r: Route)
    requires q == p.(candidates := Without(p.candidates, provider))
    ensures Contender(o, q, r) ==> Contender(o, p, r)
    ensures Contender(o, p, r) && !Uses(r, provider) ==> Contender(o, q, r)
  {
    hide Without, StatusOf, Chooses, RouteOf, Providers, Lead;
    forall c: Choice | |c| == |p.capabilities|
      ensures Chooses(q, c) ==> Chooses(p, c)
      ensures Chooses(p, c) && !Uses(RouteOf(p, c), provider) ==> Chooses(q, c)
      ensures RouteOf(q, c) == RouteOf(p, c)
    {
      FewerChoices(p, q, provider, c);
      SameRoute(p, q, c);
    }
    forall a | a in r.assignments ensures Lead(o, q, a) ==> Lead(o, p, a)
                                  ensures Lead(o, p, a) && !Uses(r, provider) ==> Lead(o, q, a) {
      FewerLead(o, p, q, provider, a);
    }
  }

  /** Taking away a provider that the route found does not use leaves the decision as it is. */
  lemma RemovingUnused(o: Orders, p: Problem, q: Problem, provider: string)
    requires Usable(o) && Wellformed(p)
    requires q == p.(candidates := Without(p.candidates, provider))
    requires Decide(o, p).Found? && !Uses(Decide(o, p).route, provider)
    ensures Decide(o, q) == Decide(o, p)
  {
    hide Decide, Better, Usable, StatusOfRoute, Contender, Without, Uses;
    WithoutDistinct(p.candidates, provider);
    assert Wellformed(q);
    hide Wellformed;
    var r := Decide(o, p).route;
    FoundIsOfStatus(o, p);
    FoundMeansStrictlyBest(o, p, r);
    forall s ensures Contender(o, q, s) ==> Contender(o, p, s) { FewerRoutes(o, p, q, provider, s); }
    FewerRoutes(o, p, q, provider, r);
    FoundMeansStrictlyBest(o, q, r);
  }

  /** The same for a tie of which neither route uses the provider. */
  lemma RemovingUnusedFromTie(o: Orders, p: Problem, q: Problem, provider: string)
    requires Usable(o) && Wellformed(p)
    requires q == p.(candidates := Without(p.candidates, provider)) && Decide(o, p).Tie?
    requires !Uses(Decide(o, p).best, provider) && !Uses(Decide(o, p).second, provider)
    ensures Decide(o, q) == Decide(o, p)
  {
    hide Decide, Usable, Contender, Without, Uses, Precedes, MaterialTie;
    WithoutDistinct(p.candidates, provider);
    assert Wellformed(q);
    hide Wellformed;
    var r, s := Decide(o, p).best, Decide(o, p).second;
    TieNamesTheLeaders(o, p, r, s);
    forall t ensures Contender(o, q, t) ==> Contender(o, p, t) { FewerRoutes(o, p, q, provider, t); }
    FewerRoutes(o, p, q, provider, r);
    FewerRoutes(o, p, q, provider, s);
    TieNamesTheLeaders(o, q, r, s);
  }
}
