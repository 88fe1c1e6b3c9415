/** The routing decision: the best route, a tie, or why there is none. */
module Router {
  import opened Base
  import opened Sorting
  import opened Requests
  import opened Ranking
  import opened Candidates
  import opened Ownership
  import opened RouteSearch
  import opened LeadingOptions

  datatype RouteStatus = NoSdk | Native | Selected

  datatype Decision =
    | Unsupported(capabilityId: string)
    | Found(status: RouteStatus, route: Route)
    | Tie(best: Route, second: Route)
    | AmbiguousOwnership(route: Route)
    | BlockedOwnership(route: Route)
    | ProviderLimit
    | NoProviderSet

  function RankOfRoute(r: Route): Rank {
    RankOf(r.assignments)
  }

  function Providers(r: Route): nat {
    |ThirdParty(r.assignments)|
  }

  predicate Precedes(o: Orders, r: Route, s: Route) {
    var c := Compare(RankOfRoute(r), RankOfRoute(s));
    c < 0 || (c == 0 && o.signatures(SignatureOf(r.assignments), SignatureOf(s.assignments)))
  }

  /** By rank, and by signature among routes of one rank. */
  function RouteOrder(o: Orders): (Route, Route) -> bool {
    (r: Route, s: Route) => Precedes(o, r, s)
  }

  function RankOrder(): (Route, Route) -> bool {
    (r: Route, s: Route) => Compare(RankOfRoute(r), RankOfRoute(s)) <= 0
  }

  predicate SameKey(r: Route, s: Route) {
    SignatureOf(r.assignments) == SignatureOf(s.assignments) && multiset(r.omitted) == multiset(s.omitted)
  }

  predicate HasKey(routes: seq<Route>, r: Route) {
    exists i :: 0 <= i < |routes| && SameKey(routes[i], r)
  }

  /** The first route seen with each key. */
  function Deduplicate(routes: seq<Route>): seq<Route> {
    if routes == [] then []
    else
      var rest := Deduplicate(routes[..|routes| - 1]);
      if HasKey(rest, routes[|routes| - 1]) then rest else rest + [routes[|routes| - 1]]
  }

  predicate MaterialTie(r: Route, s: Route) {
    Compare(RankOfRoute(r), RankOfRoute(s)) == 0 && SignatureOf(r.assignments) != SignatureOf(s.assignments)
  }

  /** The routes within the provider limit whose ownership has this status. */
  ghost function WithStatus(p: Problem, routes: seq<Route>, status: OwnershipStatus): seq<Route> {
    if routes == [] then []
    else
      var rest, last := WithStatus(p, routes[..|routes| - 1], status), routes[|routes| - 1];
      if Providers(last) <= p.maxProviders && StatusOf(p.capabilities, last.assignments) == status then rest + [last]
      else rest
  }

  predicate Lacking(o: Orders, p: Problem, i: nat)
    requires i < |p.capabilities|
  {
    p.capabilities[i].required && Options(o, p, p.capabilities[i].id) == []
  }

  /** The first required capability from n on that no option covers. */
  function FirstLacking(o: Orders, p: Problem, n: nat): Option<string>
    decreases |p.capabilities| - n
  {
    if n >= |p.capabilities| then None
    else if Lacking(o, p, n) then Some(p.capabilities[n].id)
    else FirstLacking(o, p, n + 1)
  }

  function StatusOfRoute(r: Route): RouteStatus {
    if r.assignments == [] then NoSdk else if Providers(r) == 0 then Native else Selected
  }

  function AmongBest(sorted: seq<Route>): Decision
    requires sorted != []
  {
    if |sorted| > 1 && MaterialTie(sorted[0], sorted[1]) then Tie(sorted[0], sorted[1])
    else Found(StatusOfRoute(sorted[0]), sorted[0])
  }

  ghost function Decide(o: Orders, p: Problem): Decision {
    var lacking := FirstLacking(o, p, 0);
    if lacking.Some? then Unsupported(lacking.value)
    else
      var all := Combinations(o, p, |p.capabilities|);
      var valid := Deduplicate(WithStatus(p, all, Fine));
      var ambiguous := Deduplicate(WithStatus(p, all, NeedsInput));
      var blocked := WithStatus(p, all, Blocked);
      if valid != [] then SortPermutes(RouteOrder(o), valid); AmongBest(Sort(RouteOrder(o), valid))
      else if ambiguous != [] then
        SortPermutes(RankOrder(), ambiguous);
        AmbiguousOwnership(Sort(RankOrder(), ambiguous)[0])
      else if blocked != [] then BlockedOwnership(blocked[0])
      else if exists r :: r in all && Providers(r) > p.maxProviders then ProviderLimit
      else NoProviderSet
  }

  // What the answer means.

  /** A complete route within the limit, of this ownership status. */
  ghost predicate InLimit(p: Problem, r: Route, status: OwnershipStatus) {
    && Arises(p, |p.capabilities|, r)
    && Providers(r) <= p.maxProviders
    && StatusOf(p.capabilities, r.assignments) == status
  }

  /** A route that covers what is required within the limit and has no ownership conflict. */
  ghost predicate Admissible(p: Problem, r: Route) {
    InLimit(p, r, Fine)
  }

  /** A route of this status that takes the first option of each provider it uses, as deduplication leaves them. */
  ghost predicate Leading(o: Orders, p: Problem, r: Route, status: OwnershipStatus) {
    InLimit(p, r, status) && LeadRoute(o, p, r)
  }

  /** An admissible route that takes the first option of each provider it uses. */
  ghost predicate Contender(o: Orders, p: Problem, r: Route) {
    Leading(o, p, r, Fine)
  }

  ghost predicate Better(r: Route, s: Route) {
    Compare(RankOfRoute(r), RankOfRoute(s)) < 0
  }

  /** The one contender that ranks better than every other. */
  ghost predicate StrictlyBest(o: Orders, p: Problem, r: Route) {
    Contender(o, p, r) && forall s :: Contender(o, p, s) && s != r ==> Better(r, s)
  }

  ghost predicate Optimal(o: Orders, p: Problem, r: Route) {
    Contender(o, p, r) && forall s :: Contender(o, p, s) ==> !Better(s, r)
  }

  lemma {:induction false} WithStatusFinds(p: Problem, routes: seq<Route>, status: OwnershipStatus, r: Route)
    ensures r in WithStatus(p, routes, status) <==>
            r in routes && Providers(r) <= p.maxProviders && StatusOf(p.capabilities, r.assignments) == status
  {
    hide Providers, StatusOf;
    if routes != [] {
      assert routes == routes[..|routes| - 1] + [routes[|routes| - 1]];
      WithStatusFinds(p, routes[..|routes| - 1], status, r);
    }
  }

  lemma InLimitFound(o: Orders, p: Problem, status: OwnershipStatus, r: Route)
    ensures r in WithStatus(p, Combinations(o, p, |p.capabilities|), status) <==> InLimit(p, r, status)
  {
    hide StatusOf, Combinations, Arises, Providers, WithStatus;
    WithStatusFinds(p, Combinations(o, p, |p.capabilities|), status, r);
    EnumerationIsComplete(o, p, |p.capabilities|, r);
  }

  // Signatures tell routes apart.

  lemma OffersNames(p: Problem, id: string, a: Assignment)
    requires Offers(p, id, a)
    ensures a.capabilityId == id
  {
  }

  lemma {:induction false} AssignsEarlier(p: Problem, choice: Choice, i: nat)
    requires Chooses(p, choice) && i < |RouteOf(p, choice).assignments|
    ensures exists k :: 0 <= k < |choice| && p.capabilities[k].id == RouteOf(p, choice).assignments[i].capabilityId
  {
    var n := |choice| - 1;
    var init := choice[..n];
    hide Offers;
    assert Chooses(p, init) && MayChoose(p, p.capabilities[n], choice[n]);
    if i < |RouteOf(p, init).assignments| {
      AssignsEarlier(p, init, i);
      var k :| 0 <= k < |init| && p.capabilities[k].id == RouteOf(p, init).assignments[i].capabilityId;
      assert p.capabilities[k].id == RouteOf(p, choice).assignments[i].capabilityId;
    } else {
      OffersNames(p, p.capabilities[n].id, choice[n].value);
    }
  }

  ghost function ChoiceSignature(p: Problem, c: Choice): Signature
    requires |c| <= |p.capabilities|
  {
    SignatureOf(RouteOf(p, c).assignments)
  }

  ghost predicate LeadChoice(o: Orders, p: Problem, c: Choice) {
    forall i :: 0 <= i < |c| && c[i].Some? ==> Lead(o, p, c[i].value)
  }

  lemma {:induction false} SignatureDecides(o: Orders, p: Problem, c: Choice, d: Choice)
    requires |c| == |d| <= |p.capabilities|
    requires Wellformed(p) && Chooses(p, c) && Chooses(p, d) && LeadChoice(o, p, c) && LeadChoice(o, p, d)
    requires ChoiceSignature(p, c) == ChoiceSignature(p, d)
    ensures RouteOf(p, c) == RouteOf(p, d)
  {
    hide Wellformed, Chooses, Offers, MayChoose, ChoiceSignature, Lead;
    if c != [] {
      var n := |c| - 1;
      ChooseBefore(p, c);
      ChooseBefore(p, d);
      LastsAgree(o, p, c, d);
      SignatureDecides(o, p, c[..n], d[..n]);
    }
  }

  lemma ChooseBefore(p: Problem, c: Choice)
    requires c != [] && Chooses(p, c)
    ensures Chooses(p, c[..|c| - 1]) && MayChoose(p, p.capabilities[|c| - 1], c[|c| - 1])
  {
    hide MayChoose;
  }

  /** With equal signatures the last choices agree, and what was chosen before has equal signatures too. */
  lemma LastsAgree(o: Orders, p: Problem, c: Choice, d: Choice)
    requires 0 < |c| == |d| <= |p.capabilities|
    requires Wellformed(p) && Chooses(p, c) && Chooses(p, d) && LeadChoice(o, p, c) && LeadChoice(o, p, d)
    requires ChoiceSignature(p, c) == ChoiceSignature(p, d)
    ensures c[|c| - 1] == d[|c| - 1]
    ensures ChoiceSignature(p, c[..|c| - 1]) == ChoiceSignature(p, d[..|c| - 1])
  {
    hide ChoiceSignature, Chooses, Offers, Ends, Lead;
    var n := |c| - 1;
    var id := p.capabilities[n].id;
    LastEntry(p, c);
    LastEntry(p, d);
    EndsDecide(ChoiceSignature(p, c), ChoiceSignature(p, c[..n]), ChoiceSignature(p, d[..n]), id, c[n], d[n]);
    if c[n].Some? {
      ChosenIsOffered(p, c);
      ChosenIsOffered(p, d);
      OffersNames(p, id, c[n].value);
      OffersNames(p, id, d[n].value);
      LeadIsUnique(o, p, c[n].value, d[n].value);
    }
  }

  /** sig is before with the entry of the last choice, if there is one; it ends with that capability only then. */
  ghost predicate Ends(sig: Signature, before: Signature, id: string, last: Option<Assignment>) {
    if last.Some? then sig == before + [(id, last.value.providerId)]
    else sig == before && (sig == [] || sig[|sig| - 1].0 != id)
  }

  lemma EndsDecide(sig: Signature, before: Signature, other: Signature, id: string, a: Option<Assignment>,
                   b: Option<Assignment>)
    requires Ends(sig, before, id, a) && Ends(sig, other, id, b)
    ensures before == other && (a.Some? <==> b.Some?) && (a.Some? ==> a.value.providerId == b.value.providerId)
  {
    if a.Some? && b.Some? {
      SameLast(before, other, (id, a.value.providerId), (id, b.value.providerId));
    }
  }

  lemma SameLast(s: Signature, t: Signature, a: (string, string), b: (string, string))
    requires s + [a] == t + [b]
    ensures s == t && a == b
  {
    assert (s + [a])[|s|] == a && (t + [b])[|t|] == b;
    assert s == (s + [a])[..|s|] && t == (t + [b])[..|t|];
  }

  lemma ChosenIsOffered(p: Problem, c: Choice)
    requires c != [] && Chooses(p, c) && c[|c| - 1].Some?
    ensures Offers(p, p.capabilities[|c| - 1].id, c[|c| - 1].value)
  {
    hide Offers;
    ChooseBefore(p, c);
  }

  /** The last entry of a signature is for the last capability exactly if that is assigned. */
  lemma LastEntry(p: Problem, c: Choice)
    requires Wellformed(p) && Chooses(p, c) && c != []
    ensures var n := |c| - 1;
            Ends(ChoiceSignature(p, c), ChoiceSignature(p, c[..n]), p.capabilities[n].id, c[n])
  {
    var n := |c| - 1;
    hide Offers;
    ChooseBefore(p, c);
    if c[n].Some? {
      OffersNames(p, p.capabilities[n].id, c[n].value);
    } else {
      var r := RouteOf(p, c[..n]);
      if r.assignments != [] {
        AssignsEarlier(p, c[..n], |r.assignments| - 1);
      }
    }
  }

  /** Each choice of a route is among its assignments. */
  lemma {:induction false} ChosenIsAssigned(p: Problem, c: Choice, i: nat)
    requires i < |c| <= |p.capabilities| && c[i].Some?
    ensures c[i].value in RouteOf(p, c).assignments
  {
    var init := c[..|c| - 1];
    if i < |init| {
      ChosenIsAssigned(p, init, i);
      assert init[i] == c[i];
    }
  }

  /** Each assignment of a route is the choice for one of its capabilities. */
  lemma {:induction false} AssignedIsChosen(p: Problem, c: Choice, a: Assignment) returns (i: nat)
    requires |c| <= |p.capabilities| && a in RouteOf(p, c).assignments
    ensures i < |c| && c[i] == Some(a)
  {
    var init := c[..|c| - 1];
    if a in RouteOf(p, init).assignments {
      i := AssignedIsChosen(p, init, a);
    } else {
      i := |init|;
    }
  }

  lemma SignatureDecidesRoute(o: Orders, p: Problem, r: Route, s: Route)
    requires Wellformed(p) && Arises(p, |p.capabilities|, r) && Arises(p, |p.capabilities|, s)
    requires LeadRoute(o, p, r) && LeadRoute(o, p, s)
    requires SignatureOf(r.assignments) == SignatureOf(s.assignments)
    ensures r == s
  {
    var n := |p.capabilities|;
    var c: Choice :| |c| == n && Chooses(p, c) && RouteOf(p, c) == r;
    var d: Choice :| |d| == n && Chooses(p, d) && RouteOf(p, d) == s;
    hide Lead, Wellformed, Chooses;
    forall i | 0 <= i < n && c[i].Some? ensures Lead(o, p, c[i].value) { ChosenIsAssigned(p, c, i); }
    forall i | 0 <= i < n && d[i].Some? ensures Lead(o, p, d[i].value) { ChosenIsAssigned(p, d, i); }
    SignatureDecides(o, p, c, d);
  }

  // What depends on the signature alone.

  lemma AssignedIsOffered(p: Problem, r: Route, a: Assignment)
    requires Arises(p, |p.capabilities|, r) && a in r.assignments
    ensures Offers(p, a.capabilityId, a)
  {
    hide Offers;
    var choice: Choice :| |choice| == |p.capabilities| && Chooses(p, choice) && RouteOf(p, choice) == r;
    var i := AssignedIsChosen(p, choice, a);
    assert MayChoose(p, p.capabilities[i], choice[i]);
    OffersNames(p, p.capabilities[i].id, a);
  }

  lemma OneProviderIsOneCandidate(p: Problem, a: Assignment, b: Assignment)
    requires DistinctProviders(p.candidates) && Offers(p, a.capabilityId, a) && Offers(p, b.capabilityId, b)
    requires a.providerId == b.providerId
    ensures a.native == b.native && a.installed == b.installed && a.preferredRank == b.preferredRank
    ensures a.integrationIds == b.integrationIds
  {
    var c, _ := OfferedBy(p, a.capabilityId, a);
    var d, _ := OfferedBy(p, b.capabilityId, b);
    OneOfName(p, c, d);
  }

  lemma SignatureAt(x: seq<Assignment>, y: seq<Assignment>)
    requires SignatureOf(x) == SignatureOf(y)
    ensures |x| == |y|
    ensures forall i :: 0 <= i < |x| ==> x[i].capabilityId == y[i].capabilityId && x[i].providerId == y[i].providerId
  {
    assert |SignatureOf(x)| == |x| && |SignatureOf(y)| == |y|;
    forall i | 0 <= i < |x| ensures x[i].capabilityId == y[i].capabilityId && x[i].providerId == y[i].providerId {
      assert SignatureOf(x)[i] == SignatureOf(y)[i];
    }
  }

  lemma SignatureDecidesStatus(capabilities: seq<Capability>, x: seq<Assignment>, y: seq<Assignment>)
    requires SignatureOf(x) == SignatureOf(y)
    ensures StatusOf(capabilities, x) == StatusOf(capabilities, y)
  {
    SignatureAt(x, y);
    hide SignatureOf;
    assert AllResolved(capabilities, x) == AllResolved(capabilities, y);
  }

  /** Routes with one signature agree assignment by assignment in all but support and confidence. */
  lemma SignatureDecidesCandidates(p: Problem, r: Route, s: Route)
    requires DistinctProviders(p.candidates)
    requires Arises(p, |p.capabilities|, r) && Arises(p, |p.capabilities|, s)
    requires SignatureOf(r.assignments) == SignatureOf(s.assignments)
    ensures |r.assignments| == |s.assignments|
    ensures forall i :: 0 <= i < |r.assignments| ==> SameCandidate(r.assignments[i], s.assignments[i])
  {
    SignatureAt(r.assignments, s.assignments);
    hide SignatureOf, Arises, Offers, DistinctProviders;
    forall i | 0 <= i < |r.assignments| ensures SameCandidate(r.assignments[i], s.assignments[i]) {
      AssignedIsOffered(p, r, r.assignments[i]);
      AssignedIsOffered(p, s, s.assignments[i]);
      OneProviderIsOneCandidate(p, r.assignments[i], s.assignments[i]);
    }
  }

  /** Two assignments that differ at most in support and confidence. */
  ghost predicate SameCandidate(a: Assignment, b: Assignment) {
    b == a.(support := b.support, confidence := b.confidence)
  }

  lemma {:induction false} SameThirdParty(x: seq<Assignment>, y: seq<Assignment>)
    requires |x| == |y| && forall i :: 0 <= i < |x| ==> SameCandidate(x[i], y[i])
    ensures ThirdParty(x) == ThirdParty(y)
  {
    forall q ensures q in ThirdParty(x) <==> q in ThirdParty(y) {
      if q in ThirdParty(x) {
        var i :| 0 <= i < |x| && !x[i].native && x[i].providerId == q;
        assert y[i] in y && SameCandidate(x[i], y[i]);
      }
      if q in ThirdParty(y) {
        var i :| 0 <= i < |y| && !y[i].native && y[i].providerId == q;
        assert x[i] in x && SameCandidate(x[i], y[i]);
      }
    }
  }

  lemma SignatureDecidesLimits(p: Problem, r: Route, s: Route)
    requires DistinctProviders(p.candidates)
    requires Arises(p, |p.capabilities|, r) && Arises(p, |p.capabilities|, s)
    requires SignatureOf(r.assignments) == SignatureOf(s.assignments)
    ensures Providers(r) == Providers(s)
    ensures StatusOf(p.capabilities, r.assignments) == StatusOf(p.capabilities, s.assignments)
  {
    hide SignatureOf, StatusOf, Arises;
    SignatureDecidesCandidates(p, r, s);
    SameThirdParty(r.assignments, s.assignments);
    SignatureDecidesStatus(p.capabilities, r.assignments, s.assignments);
  }

  // Deduplication.

  lemma {:induction false} DeduplicateKeeps(routes: seq<Route>)
    ensures forall r :: r in Deduplicate(routes) ==> r in routes
    ensures forall r :: r in routes ==> HasKey(Deduplicate(routes), r)
  {
    if routes != [] {
      var init, last := routes[..|routes| - 1], routes[|routes| - 1];
      assert routes == init + [last];
      DeduplicateKeeps(init);
      hide SameKey;
      assert SameKey(last, last) by { SameKeyAsItself(last); }
      KeyAdded(Deduplicate(init), last);
    }
  }

  lemma SameKeyAsItself(r: Route)
    ensures SameKey(r, r)
  {
  }

  lemma KeyAdded(routes: seq<Route>, s: Route)
    ensures forall r :: HasKey(routes, r) || SameKey(s, r) ==> HasKey(routes + [s], r)
  {
    hide SameKey;
    forall r | HasKey(routes, r) || SameKey(s, r) ensures HasKey(routes + [s], r) {
      if HasKey(routes, r) {
        var i :| 0 <= i < |routes| && SameKey(routes[i], r);
        assert SameKey((routes + [s])[i], r);
      } else {
        assert SameKey((routes + [s])[|routes|], r);
      }
    }
  }

  ghost predicate DistinctKeys(routes: seq<Route>) {
    forall i, j :: 0 <= i < j < |routes| ==> !SameKey(routes[i], routes[j])
  }

  lemma DistinctKeysAdded(routes: seq<Route>, r: Route)
    requires DistinctKeys(routes) && !HasKey(routes, r)
    ensures DistinctKeys(routes + [r])
  {
    hide SameKey;
    var d := routes + [r];
    forall i, j | 0 <= i < j < |d| ensures !SameKey(d[i], d[j]) {
      assert d[i] == routes[i];
    }
  }

  lemma {:induction false} DeduplicateDistinct(routes: seq<Route>)
    ensures DistinctKeys(Deduplicate(routes))
  {
    if routes != [] {
      DeduplicateDistinct(routes[..|routes| - 1]);
      var rest := Deduplicate(routes[..|routes| - 1]);
      if !HasKey(rest, routes[|routes| - 1]) {
        DistinctKeysAdded(rest, routes[|routes| - 1]);
      }
      hide DistinctKeys, HasKey;
    }
  }

  ghost predicate AllArise(p: Problem, routes: seq<Route>) {
    forall r :: r in routes ==> Arises(p, |p.capabilities|, r)
  }

  lemma {:induction false} LedWithStatus(o: Orders, p: Problem, routes: seq<Route>, status: OwnershipStatus)
    requires Wellformed(p) && Led(o, p, routes) && AllArise(p, routes)
    ensures Led(o, p, WithStatus(p, routes, status)) && AllArise(p, WithStatus(p, routes, status))
  {
    if routes != [] {
      var init, last := routes[..|routes| - 1], routes[|routes| - 1];
      hide Leads, Arises, StatusOf, Providers;
      assert AllArise(p, init);
      LedWithStatus(o, p, init, status);
      var s :| s in routes && Leads(o, p, s, last);
      LeadsAgree(o, p, s, last);
      WithStatusFinds(p, routes, status, s);
      var found := WithStatus(p, init, status);
      if WithStatus(p, routes, status) != found {
        assert (found + [last])[..|found|] == found;
        assert LedIn(o, p, WithStatus(p, routes, status), last);
      }
    }
  }

  lemma LeadsAgree(o: Orders, p: Problem, s: Route, r: Route)
    requires Wellformed(p) && Leads(o, p, s, r)
    requires Arises(p, |p.capabilities|, s) && Arises(p, |p.capabilities|, r)
    ensures Providers(s) == Providers(r)
    ensures StatusOf(p.capabilities, s.assignments) == StatusOf(p.capabilities, r.assignments)
  {
    SignatureDecidesLimits(p, s, r);
  }

  /** Of a list in which a leading route comes first, deduplication keeps the leading routes, all of them. */
  lemma {:induction false} LedDeduplicate(o: Orders, p: Problem, routes: seq<Route>)
    requires Wellformed(p) && Led(o, p, routes) && AllArise(p, routes)
    ensures forall r :: r in Deduplicate(routes) <==> r in routes && LeadRoute(o, p, r)
  {
    if routes != [] {
      var init, last := routes[..|routes| - 1], routes[|routes| - 1];
      hide Arises, LeadRoute, Deduplicate, SameKey, Wellformed;
      assert routes == init + [last];
      LedDeduplicate(o, p, init);
      DeduplicateKeeps(init);
      var s :| s in routes && Leads(o, p, s, last);
      LeadsHasKey(o, p, s, last);
      LastDeduplicated(o, p, init, last, s);
    }
  }

  lemma LeadsHasKey(o: Orders, p: Problem, s: Route, r: Route)
    requires Leads(o, p, s, r)
    ensures SameKey(s, r) && LeadRoute(o, p, s)
  {
  }

  lemma HasKeyThrough(routes: seq<Route>, s: Route, r: Route)
    requires SameKey(s, r)
    ensures HasKey(routes, s) ==> HasKey(routes, r)
  {
    if i :| 0 <= i < |routes| && SameKey(routes[i], s) {
      assert SameKey(routes[i], r);
    }
  }

  lemma LastDeduplicated(o: Orders, p: Problem, init: seq<Route>, last: Route, s: Route)
    requires Wellformed(p) && AllArise(p, init + [last])
    requires forall r :: r in Deduplicate(init) <==> r in init && LeadRoute(o, p, r)
    requires forall r :: r in init ==> HasKey(Deduplicate(init), r)
    requires (s in init || s == last) && SameKey(s, last) && LeadRoute(o, p, s)
    ensures forall r :: r in Deduplicate(init + [last]) <==> r in init + [last] && LeadRoute(o, p, r)
  {
    var rest := Deduplicate(init);
    assert (init + [last])[..|init|] == init;
    assert Deduplicate(init + [last]) == if HasKey(rest, last) then rest else rest + [last];
    hide Arises, LeadRoute, Deduplicate, SameKey, Wellformed;
    assert last in init + [last];
    HasKeyThrough(rest, s, last);
    if HasKey(rest, last) && LeadRoute(o, p, last) {
      var i :| 0 <= i < |rest| && SameKey(rest[i], last);
      assert rest[i] in rest && rest[i] in init + [last];
      KeyIsSignature(rest[i], last);
      SignatureDecidesRoute(o, p, rest[i], last);
    }
  }

  lemma KeyIsSignature(r: Route, s: Route)
    requires SameKey(r, s)
    ensures SignatureOf(r.assignments) == SignatureOf(s.assignments)
  {
  }

  /**
   What deduplication gives of the routes of one status: the leading ones, all of them, and no two of one signature.
   */
  lemma DeduplicatedRoutes(o: Orders, p: Problem, status: OwnershipStatus)
    requires Usable(o) && Wellformed(p)
    ensures var routes := Deduplicate(WithStatus(p, Combinations(o, p, |p.capabilities|), status));
            && (forall r :: r in routes <==> Leading(o, p, r, status))
            && DistinctKeys(routes)
  {
    var all := Combinations(o, p, |p.capabilities|);
    var found := WithStatus(p, all, status);
    DeduplicateDistinct(found);
    CombinationsAreLed(o, p, |p.capabilities|);
    hide Wellformed, Deduplicate, DistinctKeys, Combinations, WithStatus, Arises, LeadRoute, Led;
    forall r ensures r in all <==> Arises(p, |p.capabilities|, r) { EnumerationIsComplete(o, p, |p.capabilities|, r); }
    LedWithStatus(o, p, all, status);
    LedDeduplicate(o, p, found);
    forall r ensures r in found <==> InLimit(p, r, status) { InLimitFound(o, p, status, r); }
  }

  // The order of routes.

  ghost predicate Usable(o: Orders) {
    Total(o.locale) && TotalPreorder(o.signatures) && Antisymmetric(o.signatures)
  }

  lemma RouteOrderIsTotal(o: Orders)
    requires Usable(o)
    ensures TotalPreorder(RouteOrder(o))
  {
    hide Compare, RankOfRoute, SignatureOf;
    forall r, s ensures Precedes(o, r, s) || Precedes(o, s, r) {
      CompareOpposite(RankOfRoute(r), RankOfRoute(s));
    }
    forall r, s, t | Precedes(o, r, s) && Precedes(o, s, t) ensures Precedes(o, r, t) {
      CompareTransitive(RankOfRoute(r), RankOfRoute(s), RankOfRoute(t));
    }
    hide Precedes;
    assert forall r, s :: RouteOrder(o)(r, s) == Precedes(o, r, s);
  }

  lemma RankOrderIsTotal()
    ensures TotalPreorder(RankOrder())
  {
    hide Compare, RankOfRoute;
    var leq := RankOrder();
    forall r, s ensures leq(r, s) || leq(s, r) {
      CompareOpposite(RankOfRoute(r), RankOfRoute(s));
    }
    forall r, s, t | leq(r, s) && leq(s, t) ensures leq(r, t) {
      CompareTransitive(RankOfRoute(r), RankOfRoute(s), RankOfRoute(t));
    }
  }

  lemma SortedByRank(o: Orders, routes: seq<Route>)
    requires Usable(o)
    ensures var s := Sort(RouteOrder(o), routes);
            && |s| == |routes|
            && (forall r :: r in s <==> r in routes)
            && (forall i, j :: 0 <= i < j < |s| ==> !Better(s[j], s[i]))
  {
    hide Sort, Compare, RankOfRoute, SignatureOf;
    RouteOrderIsTotal(o);
    SortSorts(RouteOrder(o), routes);
    SortMembers(RouteOrder(o), routes);
    SortPermutes(RouteOrder(o), routes);
    var s := Sort(RouteOrder(o), routes);
    forall i, j | 0 <= i < j < |s| ensures !Better(s[j], s[i]) {
      assert RouteOrder(o)(s[i], s[j]);
      CompareOpposite(RankOfRoute(s[i]), RankOfRoute(s[j]));
    }
  }

  /** Strictly better is transitive, also through routes of equal rank. */
  lemma BetterThrough(r: Route, s: Route, t: Route)
    requires !Better(s, r) && !Better(t, s)
    ensures !Better(t, r)
    ensures Better(r, s) || Better(s, t) ==> Better(r, t)
    ensures Better(r, t) ==> Better(r, s) || Better(s, t)
  {
    hide Compare, RankOfRoute;
    CompareOpposite(RankOfRoute(r), RankOfRoute(s));
    CompareOpposite(RankOfRoute(s), RankOfRoute(t));
    CompareOpposite(RankOfRoute(r), RankOfRoute(t));
    CompareTransitive(RankOfRoute(r), RankOfRoute(s), RankOfRoute(t));
    if Compare(RankOfRoute(r), RankOfRoute(s)) == 0 && Compare(RankOfRoute(s), RankOfRoute(t)) == 0 {
      CompareTransitive(RankOfRoute(t), RankOfRoute(s), RankOfRoute(r));
    }
  }

  lemma BetterAsymmetric(r: Route, s: Route)
    ensures !(Better(r, s) && Better(s, r))
    ensures Compare(RankOfRoute(r), RankOfRoute(s)) == 0 <==> !Better(r, s) && !Better(s, r)
  {
    CompareOpposite(RankOfRoute(r), RankOfRoute(s));
  }

  // The decision.

  lemma {:induction false} LackingFound(o: Orders, p: Problem, n: nat)
    ensures FirstLacking(o, p, n).Some? <==> exists i :: n <= i < |p.capabilities| && Lacking(o, p, i)
    decreases |p.capabilities| - n
  {
    hide Lacking;
    if n < |p.capabilities| {
      LackingFound(o, p, n + 1);
    }
  }

  /** Nothing arises if a required capability has no option. */
  lemma NothingArises(o: Orders, p: Problem, r: Route)
    requires FirstLacking(o, p, 0).Some?
    ensures !Arises(p, |p.capabilities|, r)
  {
    LackingFound(o, p, 0);
    var i :| 0 <= i < |p.capabilities| && Lacking(o, p, i);
    if choice: Choice :| |choice| == |p.capabilities| && Chooses(p, choice) && RouteOf(p, choice) == r {
      hide Offers, RouteOf;
      assert MayChoose(p, p.capabilities[i], choice[i]);
      if choice[i].Some? {
        OptionsOffer(o, p, p.capabilities[i].id, choice[i].value);
      }
    }
  }

  /** Without a lacking capability some route arises. */
  lemma {:induction false} SomethingArises(o: Orders, p: Problem, n: nat)
    requires FirstLacking(o, p, 0).None? && n <= |p.capabilities|
    ensures exists r :: Arises(p, n, r)
  {
    if n == 0 {
      NothingChosen(p, Route([], []));
    } else {
      SomethingArises(o, p, n - 1);
      var r :| Arises(p, n - 1, r);
      LackingFound(o, p, 0);
      var c := p.capabilities[n - 1];
      var options := Options(o, p, c.id);
      assert !Lacking(o, p, n - 1);
      hide Options, Arises;
      var s := if c.required then Assign(r, options[0]) else Omit(r, c.id);
      assert Extends(c, options, r, s);
      StepArises(o, p, n, r, s);
    }
  }

  /** What sorting makes of the contenders. */
  ghost predicate Ranked(o: Orders, p: Problem, sorted: seq<Route>) {
    && (forall r :: r in sorted <==> Contender(o, p, r))
    && (forall i, j :: 0 <= i < j < |sorted| ==> !Better(sorted[j], sorted[i]))
    && (forall i, j :: 0 <= i < j < |sorted| ==> sorted[i] != sorted[j])
  }

  lemma SortingRanks(o: Orders, p: Problem, valid: seq<Route>)
    requires Usable(o) && DistinctKeys(valid) && forall r :: r in valid <==> Contender(o, p, r)
    ensures Ranked(o, p, Sort(RouteOrder(o), valid))
    ensures valid == [] <==> Sort(RouteOrder(o), valid) == []
  {
    hide DistinctKeys, Sort, Better, Contender, Usable, RouteOrder;
    SortedByRank(o, valid);
    SortPermutes(RouteOrder(o), valid);
    KeysMeanDistinct(valid);
    DistinctOfPermutation(valid, Sort(RouteOrder(o), valid));
  }

  lemma ContendersRanked(o: Orders, p: Problem)
    requires Usable(o) && Wellformed(p)
    ensures var valid := Deduplicate(WithStatus(p, Combinations(o, p, |p.capabilities|), Fine));
            Ranked(o, p, Sort(RouteOrder(o), valid)) && (valid == [] <==> Sort(RouteOrder(o), valid) == [])
  {
    hide Wellformed, Deduplicate, Combinations, WithStatus, Sort, Usable, InLimit, Ranked, DistinctKeys, RouteOrder;
    DeduplicatedRoutes(o, p, Fine);
    SortingRanks(o, p, Deduplicate(WithStatus(p, Combinations(o, p, |p.capabilities|), Fine)));
  }

  lemma KeysMeanDistinct(routes: seq<Route>)
    requires DistinctKeys(routes)
    ensures forall i, j :: 0 <= i < j < |routes| ==> routes[i] != routes[j]
  {
  }

  lemma FirstOfRanked(o: Orders, p: Problem, sorted: seq<Route>)
    requires Ranked(o, p, sorted) && sorted != []
    ensures Optimal(o, p, sorted[0])
    ensures forall s :: Contender(o, p, s) && s != sorted[0] ==> |sorted| > 1 && !Better(s, sorted[1])
  {
    hide Contender, Better;
    forall s | Contender(o, p, s)
      ensures !Better(s, sorted[0]) && (s != sorted[0] ==> |sorted| > 1 && !Better(s, sorted[1]))
    {
      BetterAsymmetric(s, s);
      var j :| 0 <= j < |sorted| && sorted[j] == s;
    }
  }

  /** Distinct routes that arise have distinct signatures. */
  lemma DistinctArchitectures(o: Orders, p: Problem, r: Route, s: Route)
    requires Wellformed(p) && Contender(o, p, r) && Contender(o, p, s) && r != s
    ensures SignatureOf(r.assignments) != SignatureOf(s.assignments)
  {
    hide Arises, Wellformed;
    if SignatureOf(r.assignments) == SignatureOf(s.assignments) {
      SignatureDecidesRoute(o, p, r, s);
    }
  }

  lemma AmongBestMeans(o: Orders, p: Problem, sorted: seq<Route>)
    requires Wellformed(p) && Ranked(o, p, sorted) && sorted != []
    ensures var d := AmongBest(sorted);
            && (d.Found? ==> StrictlyBest(o, p, d.route) && d.status == StatusOfRoute(d.route))
            && (d.Tie? ==> Optimal(o, p, d.best) && Optimal(o, p, d.second) && d.best != d.second)
  {
    FirstOfRanked(o, p, sorted);
    assert Contender(o, p, sorted[0]) && (|sorted| > 1 ==> Contender(o, p, sorted[1]) && sorted[0] != sorted[1]);
    hide Contender, Wellformed, Ranked, Better, StatusOfRoute;
    if |sorted| > 1 {
      DistinctArchitectures(o, p, sorted[0], sorted[1]);
      BetterAsymmetric(sorted[0], sorted[1]);
      hide SignatureOf, Compare, RankOfRoute;
      forall s | Contender(o, p, s) ensures !Better(s, sorted[0])
                                  && (s != sorted[0] && !MaterialTie(sorted[0], sorted[1]) ==> Better(sorted[0], s))
                                  && (MaterialTie(sorted[0], sorted[1]) ==> !Better(s, sorted[1]))
      {
        if s != sorted[0] {
          BetterThrough(sorted[0], sorted[1], s);
        }
      }
    }
  }

  /** The route found is the one contender that ranks better than every other, and it is found if there is one. */
  lemma FoundMeansStrictlyBest(o: Orders, p: Problem, r: Route)
    requires Usable(o) && Wellformed(p)
    ensures Decide(o, p) == Found(StatusOfRoute(r), r) <==> StrictlyBest(o, p, r)
  {
    hide Wellformed, Deduplicate, Combinations, WithStatus, Sort, Better, Usable, FirstLacking, Ranked, RouteOrder,
      AmongBest, StatusOfRoute, Arises;
    ContendersRanked(o, p);
    var valid := Deduplicate(WithStatus(p, Combinations(o, p, |p.capabilities|), Fine));
    var sorted := Sort(RouteOrder(o), valid);
    if FirstLacking(o, p, 0).Some? {
      NothingArises(o, p, r);
    } else if valid == [] {
      RankedEmpty(o, p, sorted);
    } else {
      AmongBestMeans(o, p, sorted);
      FoundOrTie(sorted);
      BestIsUnique(o, p, AmongBest(sorted), r);
    }
  }

  lemma RankedEmpty(o: Orders, p: Problem, sorted: seq<Route>)
    requires Ranked(o, p, sorted)
    ensures sorted == [] <==> forall r :: !Contender(o, p, r)
  {
    hide Contender;
    if sorted != [] {
      assert sorted[0] in sorted;
    }
  }

  lemma BestIsUnique(o: Orders, p: Problem, d: Decision, r: Route)
    requires d.Found? || d.Tie?
    requires d.Found? ==> StrictlyBest(o, p, d.route) && d.status == StatusOfRoute(d.route)
    requires d.Tie? ==> Optimal(o, p, d.best) && Optimal(o, p, d.second) && d.best != d.second
    ensures d == Found(StatusOfRoute(r), r) <==> StrictlyBest(o, p, r)
  {
    hide Contender, StatusOfRoute, Better;
    if StrictlyBest(o, p, r) {
      if d.Found? {
        BetterAsymmetric(d.route, r);
      }
    }
  }

  /**
   A tie is reported if and only if two contenders, which then differ in architecture, rank as well as any
   other.
   */
  lemma TieMeansTwoOptimal(o: Orders, p: Problem)
    requires Usable(o) && Wellformed(p)
    ensures Decide(o, p).Tie? <==> exists r, s :: Optimal(o, p, r) && Optimal(o, p, s) && r != s
    ensures Decide(o, p).Tie? ==> Optimal(o, p, Decide(o, p).best) && Optimal(o, p, Decide(o, p).second)
                                  && SignatureOf(Decide(o, p).best.assignments)
                                     != SignatureOf(Decide(o, p).second.assignments)
  {
    hide Wellformed, Deduplicate, Combinations, WithStatus, Sort, Better, Usable, FirstLacking, Ranked, RouteOrder,
      AmongBest, StatusOfRoute, Arises, SignatureOf;
    ContendersRanked(o, p);
    var valid := Deduplicate(WithStatus(p, Combinations(o, p, |p.capabilities|), Fine));
    var sorted := Sort(RouteOrder(o), valid);
    if FirstLacking(o, p, 0).Some? {
      forall r ensures !Contender(o, p, r) { NothingArises(o, p, r); }
    } else if valid == [] {
      RankedEmpty(o, p, sorted);
    } else {
      AmongBestMeans(o, p, sorted);
      var d := AmongBest(sorted);
      FoundOrTie(sorted);
      if d.Tie? {
        DistinctArchitectures(o, p, d.best, d.second);
      } else {
        forall r, s | Optimal(o, p, r) && Optimal(o, p, s) ensures r == s {
          OnlyOptimal(o, p, d.route, r);
          OnlyOptimal(o, p, d.route, s);
        }
      }
    }
  }

  lemma OnlyOptimal(o: Orders, p: Problem, best: Route, r: Route)
    requires StrictlyBest(o, p, best) && Optimal(o, p, r)
    ensures r == best
  {
    hide Contender, Better;
  }

  lemma FoundOrTie(sorted: seq<Route>)
    requires sorted != []
    ensures AmongBest(sorted).Found? || AmongBest(sorted).Tie?
  {
  }

  // The two routes of a tie.

  /** Among the contenders r comes first and s next, by rank and then by signature. */
  ghost predicate Leaders(o: Orders, p: Problem, r: Route, s: Route) {
    && Contender(o, p, r) && Contender(o, p, s) && r != s && Precedes(o, r, s)
    && forall t :: Contender(o, p, t) && t != r && t != s ==> Precedes(o, r, t) && Precedes(o, s, t)
  }

  lemma PrecedesBothWays(o: Orders, p: Problem, r: Route, s: Route)
    requires Usable(o) && Wellformed(p) && Contender(o, p, r) && Contender(o, p, s)
    requires Precedes(o, r, s) && Precedes(o, s, r)
    ensures r == s
  {
    CompareOpposite(RankOfRoute(r), RankOfRoute(s));
    assert SignatureOf(r.assignments) == SignatureOf(s.assignments);
    SignatureDecidesRoute(o, p, r, s);
  }

  lemma LeadersAreUnique(o: Orders, p: Problem, r: Route, s: Route, r': Route, s': Route)
    requires Usable(o) && Wellformed(p) && Leaders(o, p, r, s) && Leaders(o, p, r', s')
    ensures r == r' && s == s'
  {
    hide Usable, Wellformed, Contender, Precedes;
    if r != r' { PrecedesBothWays(o, p, r, r'); }
    if s != s' { PrecedesBothWays(o, p, s, s'); }
  }

  lemma FirstTwoLead(o: Orders, p: Problem, valid: seq<Route>)
    requires Usable(o) && Ranked(o, p, Sort(RouteOrder(o), valid)) && |Sort(RouteOrder(o), valid)| > 1
    ensures Leaders(o, p, Sort(RouteOrder(o), valid)[0], Sort(RouteOrder(o), valid)[1])
  {
    RouteOrderIsTotal(o);
    SortSorts(RouteOrder(o), valid);
    hide Usable, Contender, Precedes, Sort, Better, TotalPreorder;
    var sorted := Sort(RouteOrder(o), valid);
    forall i, j | 0 <= i < j < |sorted| ensures Precedes(o, sorted[i], sorted[j]) {
      assert RouteOrder(o)(sorted[i], sorted[j]);
    }
    forall t | Contender(o, p, t) && t != sorted[0] && t != sorted[1]
      ensures Precedes(o, sorted[0], t) && Precedes(o, sorted[1], t)
    {
      var j :| 0 <= j < |sorted| && sorted[j] == t;
    }
  }

  lemma FewContenders(o: Orders, p: Problem, sorted: seq<Route>, r: Route, s: Route)
    requires Ranked(o, p, sorted) && |sorted| <= 1 && Contender(o, p, r) && Contender(o, p, s)
    ensures r == s
  {
    hide Contender, Better;
  }

  /** A tie names the two contenders that come first, and is reported if and only if these rank equal. */
  lemma TieNamesTheLeaders(o: Orders, p: Problem, r: Route, s: Route)
    requires Usable(o) && Wellformed(p)
    ensures Decide(o, p) == Tie(r, s) <==> Leaders(o, p, r, s) && MaterialTie(r, s)
  {
    hide Wellformed, Deduplicate, Combinations, WithStatus, Sort, Better, Usable, FirstLacking, Ranked, RouteOrder,
      StatusOfRoute, Arises, MaterialTie, Precedes, LeadRoute;
    ContendersRanked(o, p);
    var valid := Deduplicate(WithStatus(p, Combinations(o, p, |p.capabilities|), Fine));
    var sorted := Sort(RouteOrder(o), valid);
    if FirstLacking(o, p, 0).Some? {
      NothingArises(o, p, r);
    } else if valid == [] {
      RankedEmpty(o, p, sorted);
    } else if |sorted| <= 1 {
      if Leaders(o, p, r, s) { FewContenders(o, p, sorted, r, s); }
    } else {
      FirstTwoLead(o, p, valid);
      if Leaders(o, p, r, s) { LeadersAreUnique(o, p, r, s, sorted[0], sorted[1]); }
    }
  }
}
