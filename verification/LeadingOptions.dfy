/**
 Which options a provider is represented by: of the routes with one signature
 deduplication keeps the one that takes the first options of its providers.
 */
module LeadingOptions {
  import opened Sorting
  import opened Requests
  import opened Ranking
  import opened Candidates
  import opened RouteSearch

  // The options of one provider.

  function For(id: string): Claim -> bool {
    (claim: Claim) => claim.capabilityId == id
  }

  function From(provider: string): Assignment -> bool {
    (a: Assignment) => a.providerId == provider
  }

  function Making(p: Problem, c: ProviderCandidate): Claim -> Assignment {
    (claim: Claim) => AssignmentOf(p, c, claim)
  }

  function ClaimOrder(o: Orders, provider: string): (Claim, Claim) -> bool {
    (c: Claim, d: Claim) =>
      o.locale(SortKey(o, c.support, c.confidence, provider), SortKey(o, d.support, d.confidence, provider))
  }

  /** The claims of a candidate for a capability, in the order in which they are tried. */
  function OwnClaims(o: Orders, c: ProviderCandidate, id: string): seq<Claim> {
    Sort(ClaimOrder(o, c.providerId), Filter(For(id), c.claims))
  }

  lemma OptionOrderIsTotal(o: Orders)
    requires Total(o.locale)
    ensures TotalPreorder(OptionOrder(o))
  {
    hide SortKey;
    var leq := OptionOrder(o);
    var key := (a: Assignment) => SortKey(o, a.support, a.confidence, a.providerId);
    assert forall a, b :: leq(a, b) == o.locale(key(a), key(b));
    forall a, b ensures leq(a, b) || leq(b, a) {
      assert o.locale(key(a), key(b)) || o.locale(key(b), key(a));
    }
    forall a, b, c | leq(a, b) && leq(b, c) ensures leq(a, c) {
      assert o.locale(key(a), key(b)) && o.locale(key(b), key(c));
    }
  }

  lemma {:induction false} OfferedByClaims(p: Problem, c: ProviderCandidate, id: string, n: nat)
    requires n <= |c.claims| && c.environmentSupported
    ensures Offered(p, c, id, n) == Mapped(Making(p, c), Filter(For(id), c.claims[..n]))
  {
    if n > 0 {
      OfferedByClaims(p, c, id, n - 1);
      assert c.claims[..n][..n - 1] == c.claims[..n - 1];
      hide AssignmentOf;
    }
  }

  lemma {:induction false} OfferedFrom(p: Problem, c: ProviderCandidate, id: string, n: nat, provider: string)
    requires n <= |c.claims|
    ensures Filter(From(provider), Offered(p, c, id, n))
         == if c.providerId == provider then Offered(p, c, id, n) else []
  {
    if n > 0 {
      OfferedFrom(p, c, id, n - 1, provider);
      var rest := Offered(p, c, id, n - 1);
      if Offered(p, c, id, n) != rest {
        assert (rest + [AssignmentOf(p, c, c.claims[n - 1])])[..|rest|] == rest;
      }
    }
  }

  /** What one provider offers comes from the one candidate of that name. */
  lemma {:induction false} SupportedFrom(p: Problem, id: string, n: nat, k: nat)
    requires n <= |p.candidates| && k < |p.candidates| && DistinctProviders(p.candidates)
    ensures var c := p.candidates[k];
            Filter(From(c.providerId), Supported(p, id, n)) == if k < n then Offered(p, c, id, |c.claims|) else []
  {
    if n > 0 {
      SupportedFrom(p, id, n - 1, k);
      var d := p.candidates[n - 1];
      OfferedFrom(p, d, id, |d.claims|, p.candidates[k].providerId);
      FilterConcat(From(p.candidates[k].providerId), Supported(p, id, n - 1), Offered(p, d, id, |d.claims|));
      hide Offered, Filter;
      assert k != n - 1 ==> d.providerId != p.candidates[k].providerId;
    }
  }

  lemma OwnOptions(o: Orders, p: Problem, id: string, c: ProviderCandidate)
    requires Total(o.locale) && DistinctProviders(p.candidates)
    requires c in p.candidates && c.environmentSupported && id in p.known
    ensures Filter(From(c.providerId), Options(o, p, id)) == Mapped(Making(p, c), OwnClaims(o, c, id))
  {
    var k :| 0 <= k < |p.candidates| && p.candidates[k] == c;
    var all := Supported(p, id, |p.candidates|);
    OptionOrderIsTotal(o);
    FilterSort(OptionOrder(o), From(c.providerId), all);
    SupportedFrom(p, id, |p.candidates|, k);
    OfferedByClaims(p, c, id, |c.claims|);
    assert c.claims[..|c.claims|] == c.claims;
    SameKeys(o, p, c);
    MappedSort(ClaimOrder(o, c.providerId), OptionOrder(o), Making(p, c), Filter(For(id), c.claims));
  }

  lemma SameKeys(o: Orders, p: Problem, c: ProviderCandidate)
    ensures forall x, y ::
              OptionOrder(o)(Making(p, c)(x), Making(p, c)(y)) == ClaimOrder(o, c.providerId)(x, y)
  {
    hide SortKey;
  }

  // Leading options.

  ghost predicate Wellformed(p: Problem) {
    DistinctProviders(p.candidates) && DistinctIds(p.capabilities)
  }

  ghost predicate Represents(o: Orders, p: Problem, c: ProviderCandidate, a: Assignment) {
    && c.providerId == a.providerId && c.environmentSupported
    && OwnClaims(o, c, a.capabilityId) != []
    && a == AssignmentOf(p, c, OwnClaims(o, c, a.capabilityId)[0])
  }

  /** a is the first of its provider's options for its capability. */
  ghost predicate Lead(o: Orders, p: Problem, a: Assignment) {
    exists c :: c in p.candidates && Represents(o, p, c, a)
  }

  ghost predicate LeadRoute(o: Orders, p: Problem, r: Route) {
    forall a :: a in r.assignments ==> Lead(o, p, a)
  }

  lemma LeadIsUnique(o: Orders, p: Problem, a: Assignment, b: Assignment)
    requires DistinctProviders(p.candidates) && Lead(o, p, a) && Lead(o, p, b)
    requires a.providerId == b.providerId && a.capabilityId == b.capabilityId
    ensures a == b
  {
    var c :| c in p.candidates && Represents(o, p, c, a);
    var d :| d in p.candidates && Represents(o, p, d, b);
    OneOfName(p, c, d);
  }

  lemma OneOfName(p: Problem, c: ProviderCandidate, d: ProviderCandidate)
    requires DistinctProviders(p.candidates) && c in p.candidates && d in p.candidates && c.providerId == d.providerId
    ensures c == d
  {
    var i :| 0 <= i < |p.candidates| && p.candidates[i] == c;
    var j :| 0 <= j < |p.candidates| && p.candidates[j] == d;
  }

  lemma OfferedBy(p: Problem, id: string, a: Assignment) returns (c: ProviderCandidate, claim: Claim)
    requires Offers(p, id, a)
    ensures c in p.candidates && claim in c.claims && Makes(p, id, c, claim, a)
  {
    var n, m :| 0 <= n < |p.candidates| && 0 <= m < |p.candidates[n].claims|
                && Makes(p, id, p.candidates[n], p.candidates[n].claims[m], a);
    c, claim := p.candidates[n], p.candidates[n].claims[m];
  }

  /** A candidate with a claim for a capability has a first one, which its option is made of. */
  lemma LeadOf(o: Orders, p: Problem, id: string, c: ProviderCandidate) returns (a: Assignment)
    requires c in p.candidates && c.environmentSupported && id in p.known
    requires exists claim :: claim in c.claims && claim.capabilityId == id
    ensures OwnClaims(o, c, id) != [] && a == AssignmentOf(p, c, OwnClaims(o, c, id)[0])
    ensures a.capabilityId == id && a.providerId == c.providerId && Lead(o, p, a) && Offers(p, id, a)
  {
    var own := Filter(For(id), c.claims);
    var claim :| claim in c.claims && claim.capabilityId == id;
    FilterMembers(For(id), c.claims, claim);
    SortPermutes(ClaimOrder(o, c.providerId), own);
    SortMembers(ClaimOrder(o, c.providerId), own);
    var first := OwnClaims(o, c, id)[0];
    assert first in OwnClaims(o, c, id);
    FilterMembers(For(id), c.claims, first);
    a := AssignmentOf(p, c, first);
    assert Represents(o, p, c, a);
    var n :| 0 <= n < |p.candidates| && p.candidates[n] == c;
    var m :| 0 <= m < |c.claims| && c.claims[m] == first;
    assert Makes(p, id, p.candidates[n], p.candidates[n].claims[m], a);
  }

  /** At or before each option there is the leading one of its provider. */
  lemma LeadComesFirst(o: Orders, p: Problem, id: string, j: nat) returns (i: nat)
    requires Total(o.locale) && Wellformed(p) && j < |Options(o, p, id)|
    ensures i <= j && Lead(o, p, Options(o, p, id)[i])
    ensures Options(o, p, id)[i].providerId == Options(o, p, id)[j].providerId
    ensures Options(o, p, id)[i].capabilityId == Options(o, p, id)[j].capabilityId == id
  {
    var options := Options(o, p, id);
    OptionsOffer(o, p, id, options[j]);
    var c, claim := OfferedBy(p, id, options[j]);
    hide Options, OwnClaims, Filter, Lead;
    i := FirstKept(From(c.providerId), options, j);
    OwnOptions(o, p, id, c);
    var a := LeadOf(o, p, id, c);
    assert options[i] == a;
  }

  // Lists in which a leading route comes first.

  ghost predicate Leads(o: Orders, p: Problem, s: Route, r: Route) {
    LeadRoute(o, p, s) && SignatureOf(s.assignments) == SignatureOf(r.assignments) && s.omitted == r.omitted
  }

  ghost predicate LedIn(o: Orders, p: Problem, routes: seq<Route>, r: Route) {
    exists s :: s in routes && Leads(o, p, s, r)
  }

  /** At or before each route there is the leading one of its signature. */
  ghost predicate Led(o: Orders, p: Problem, routes: seq<Route>) {
    routes != [] ==> Led(o, p, routes[..|routes| - 1]) && LedIn(o, p, routes, routes[|routes| - 1])
  }

  lemma {:induction false} LedConcat(o: Orders, p: Problem, routes: seq<Route>, more: seq<Route>)
    requires Led(o, p, routes)
    requires forall i: nat :: i < |more| ==> LedIn(o, p, routes + more[..i + 1], more[i])
    ensures Led(o, p, routes + more)
  {
    hide LedIn;
    if more == [] {
      assert routes + more == routes;
    } else {
      var init := more[..|more| - 1];
      forall i: nat | i < |init| ensures LedIn(o, p, routes + init[..i + 1], init[i]) {
        assert init[..i + 1] == more[..i + 1];
        assert LedIn(o, p, routes + more[..i + 1], more[i]);
      }
      LedConcat(o, p, routes, init);
      assert (routes + more)[..|routes + more| - 1] == routes + init;
      assert more[..|init| + 1] == more;
      assert LedIn(o, p, routes + more[..|init| + 1], more[|init|]);
    }
  }

  lemma {:induction false} AssignFirstAt(r: Route, options: seq<Assignment>, n: nat)
    requires n <= |options|
    ensures |AssignFirst(r, options, n)| == n
    ensures forall i :: 0 <= i < n ==> AssignFirst(r, options, n)[i] == Assign(r, options[i])
  {
    if n > 0 {
      AssignFirstAt(r, options, n - 1);
    }
  }

  function Offset(c: Capability): nat {
    if c.required then 0 else 1
  }

  lemma ExtendedAt(c: Capability, options: seq<Assignment>, r: Route)
    ensures |Extended(c, options, r)| == Offset(c) + |options|
    ensures !c.required ==> Extended(c, options, r)[0] == Omit(r, c.id)
    ensures forall i :: 0 <= i < |options| ==> Extended(c, options, r)[Offset(c) + i] == Assign(r, options[i])
  {
    AssignFirstAt(r, options, |options|);
    hide AssignFirst;
  }

  lemma SignatureAdded(assignments: seq<Assignment>, a: Assignment)
    ensures SignatureOf(assignments + [a]) == SignatureOf(assignments) + [(a.capabilityId, a.providerId)]
  {
  }

  lemma LeadsOmitting(o: Orders, p: Problem, s: Route, r: Route, id: string)
    requires Leads(o, p, s, r)
    ensures Leads(o, p, Omit(s, id), Omit(r, id))
  {
    hide Lead;
  }

  lemma LeadsAssigning(o: Orders, p: Problem, s: Route, r: Route, a: Assignment, b: Assignment)
    requires Leads(o, p, s, r) && Lead(o, p, a)
    requires a.capabilityId == b.capabilityId && a.providerId == b.providerId
    ensures Leads(o, p, Assign(s, a), Assign(r, b))
  {
    hide Lead;
    SignatureAdded(s.assignments, a);
    SignatureAdded(r.assignments, b);
  }

  /**
   The leading extension of a route comes with those of an earlier route, or earlier among those of the route itself.
   */
  lemma LedExtension(o: Orders, p: Problem, c: Capability, init: seq<Route>, r: Route, s: Route, i: nat)
    requires Total(o.locale) && Wellformed(p) && Leads(o, p, s, r) && (s in init || s == r)
    requires var options := Options(o, p, c.id); i < |Extended(c, options, r)|
    ensures var options := Options(o, p, c.id);
            LedIn(o, p, AllExtended(c, options, init) + Extended(c, options, r)[..i + 1], Extended(c, options, r)[i])
  {
    var options := Options(o, p, c.id);
    var all, more := AllExtended(c, options, init), Extended(c, options, r);
    hide Options, Leads, AllExtended, Extended, Lead;
    ExtendedAt(c, options, r);
    var t: Route;
    if i < Offset(c) {
      t := Omit(s, c.id);
      LeadsOmitting(o, p, s, r, c.id);
      if s == r { assert more[..i + 1][0] == t; }
    } else {
      var j := LeadComesFirst(o, p, c.id, i - Offset(c));
      t := Assign(s, options[j]);
      LeadsAssigning(o, p, s, r, options[j], options[i - Offset(c)]);
      if s == r { assert more[..i + 1][Offset(c) + j] == t; }
    }
    if s in init {
      ExtendedIn(c, options, init, t);
      var k :| 0 <= k < |init| && init[k] == s;
      assert Extends(c, options, init[k], t);
    }
    assert t in all + more[..i + 1];
  }

  lemma {:induction false} LedExtended(o: Orders, p: Problem, c: Capability, routes: seq<Route>)
    requires Total(o.locale) && Wellformed(p) && Led(o, p, routes)
    ensures Led(o, p, AllExtended(c, Options(o, p, c.id), routes))
  {
    if routes != [] {
      var init, last := routes[..|routes| - 1], routes[|routes| - 1];
      hide Options, Leads, Extended;
      LedExtended(o, p, c, init);
      var s :| s in routes && Leads(o, p, s, last);
      assert s in init || s == last;
      var options := Options(o, p, c.id);
      forall i: nat | i < |Extended(c, options, last)|
        ensures LedIn(o, p, AllExtended(c, options, init) + Extended(c, options, last)[..i + 1],
                      Extended(c, options, last)[i])
      {
        LedExtension(o, p, c, init, last, s, i);
      }
      LedConcat(o, p, AllExtended(c, options, init), Extended(c, options, last));
    }
  }

  lemma StartsLed(o: Orders, p: Problem)
    ensures Led(o, p, [Route([], [])])
  {
    var r := Route([], []);
    assert Leads(o, p, r, r);
    assert [r][..0] == [];
    assert r in [r];
  }

  /** Among all combinations a leading route comes before every other one of its signature. */
  lemma {:induction false} CombinationsAreLed(o: Orders, p: Problem, n: nat)
    requires Total(o.locale) && Wellformed(p) && n <= |p.capabilities|
    ensures Led(o, p, Combinations(o, p, n))
  {
    if n == 0 {
      StartsLed(o, p);
    } else {
      hide Led, Options, AllExtended;
      CombinationsAreLed(o, p, n - 1);
      LedExtended(o, p, p.capabilities[n - 1], Combinations(o, p, n - 1));
    }
  }
}
