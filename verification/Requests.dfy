/**
 Route requests and what their normalization keeps. Each capability is kept
 once, sorted by id; two entries that contradict each other reject the request.
 Preferred providers keep their order, forbidden ones are sorted. Normalization
 depends on what is asked only, not on how often or in which order.
 */
module Requests {
  import opened Base
  import opened Sorting

  datatype QualityValue = Flag(flag: bool) | Number(number: real) | Text(text: string)

  /** The quality of a capability is a record; None if it is not given. */
  datatype Capability = Capability(id: string, required: bool, quality: Option<map<string, QualityValue>>)

  datatype Request = Request(
    capabilities: seq<Capability>,
    preferredProviders: seq<string>,
    forbiddenProviders: seq<string>,
    maxProviders: nat,
    allowPaidServices: bool)

  /** Entries are sorted, which a record does not show; an empty record is dropped. */
  function NormalCapability(c: Capability): Capability {
    if c.quality == Some(map[]) then c.(quality := None) else c
  }

  /** Each value once, in order of its first appearance. */
  function Keep(values: seq<string>): seq<string> {
    if values == [] then []
    else
      var rest := Keep(values[..|values| - 1]);
      if values[|values| - 1] in rest then rest else rest + [values[|values| - 1]]
  }

  function ById(order: Order): (Capability, Capability) -> bool {
    (c: Capability, d: Capability) => order(c.id, d.id)
  }

  /** Two entries for one capability that do not say the same. */
  ghost predicate Contradictory(capabilities: seq<Capability>) {
    exists i, j :: 0 <= i < j < |capabilities| && Clash(capabilities[i], capabilities[j])
  }

  predicate Clash(c: Capability, d: Capability) {
    c.id == d.id && NormalCapability(c) != NormalCapability(d)
  }

  ghost predicate HasId(capabilities: seq<Capability>, id: string) {
    exists i :: 0 <= i < |capabilities| && capabilities[i].id == id
  }

  /** The entries kept, in order of their first appearance. */
  ghost function Distinct(capabilities: seq<Capability>): seq<Capability> {
    if capabilities == [] then []
    else
      var rest := Distinct(capabilities[..|capabilities| - 1]);
      var c := NormalCapability(capabilities[|capabilities| - 1]);
      if HasId(rest, c.id) then rest else rest + [c]
  }

  /** None: the request is rejected as contradictory. Identifiers are sorted by locale, other strings by code units. */
  ghost function Normalize(locale: Order, units: Order, request: Request): Option<Request> {
    if Contradictory(request.capabilities) then None
    else
      Some(request.(capabilities := Sort(ById(locale), Distinct(request.capabilities)),
                    preferredProviders := Keep(request.preferredProviders),
                    forbiddenProviders := Sort(units, Keep(request.forbiddenProviders))))
  }

  method UniqueInOrder(values: seq<string>) returns (result: seq<string>)
    ensures result == Keep(values)
  {
    var seen: set<string> := {};
    result := [];
    for i := 0 to |values|
      invariant result == Keep(values[..i])
      invariant forall v :: v in seen <==> v in result
    {
      assert values[..i + 1][..i] == values[..i];
      if values[i] !in seen {
        seen := seen + {values[i]};
        result := result + [values[i]];
      }
    }
    assert values[..|values|] == values;
  }

  method UniqueCapabilities(capabilities: seq<Capability>) returns (kept: Option<seq<Capability>>)
    ensures kept == if Contradictory(capabilities) then None else Some(Distinct(capabilities))
  {
    hide Indexed, Contradictory, HasId, NormalCapability, Distinct;
    var byId: map<string, Capability> := map[];
    var values: seq<Capability> := [];
    Unseen();
    for i := 0 to |capabilities|
      invariant values == Distinct(capabilities[..i])
      invariant Indexed(byId, values, capabilities[..i])
    {
      var c := NormalCapability(capabilities[i]);
      assert capabilities[..i + 1] == capabilities[..i] + [capabilities[i]];
      IndexedStep(byId, values, capabilities[..i], capabilities[i]);
      DistinctStep(byId, values, capabilities[..i], capabilities[i]);
      if c.id in byId {
        if byId[c.id] != c {
          Clashes(byId, values, capabilities, i);
          return None;
        }
      } else {
        byId := byId[c.id := c];
        values := values + [c];
      }
    }
    assert capabilities[..|capabilities|] == capabilities;
    IndexedMeansConsistent(byId, values, capabilities);
    kept := Some(values);
  }

  method NormalizeRequest(locale: Order, units: Order, request: Request) returns (normalized: Option<Request>)
    ensures normalized == Normalize(locale, units, request)
  {
    hide Contradictory, Distinct, Keep;
    var kept := UniqueCapabilities(request.capabilities);
    if kept.None? {
      return None;
    }
    var preferred := UniqueInOrder(request.preferredProviders);
    var forbidden := UniqueInOrder(request.forbiddenProviders);
    normalized := Some(request.(capabilities := Sort(ById(locale), kept.value), preferredProviders := preferred,
                                forbiddenProviders := Sort(units, forbidden)));
  }

  lemma Unseen()
    ensures Indexed(map[], [], []) && Distinct([]) == []
  {
  }

  lemma Clashes(byId: map<string, Capability>, kept: seq<Capability>, capabilities: seq<Capability>, i: nat)
    requires i < |capabilities| && Indexed(byId, kept, capabilities[..i])
    requires capabilities[i].id in byId && byId[capabilities[i].id] != NormalCapability(capabilities[i])
    ensures Contradictory(capabilities)
  {
    Seen(byId, kept, capabilities[..i], capabilities[i].id);
    var j :| 0 <= j < i && NormalCapability(capabilities[..i][j]) == byId[capabilities[i].id]
             && capabilities[j].id == capabilities[i].id;
    assert Clash(capabilities[j], capabilities[i]);
  }

  /** What the loop knows of the entries so far. */
  ghost predicate Indexed(byId: map<string, Capability>, kept: seq<Capability>, sofar: seq<Capability>) {
    Agree(byId, sofar) && SameIds(byId, sofar) && SameIds(byId, kept)
  }

  ghost predicate Agree(byId: map<string, Capability>, sofar: seq<Capability>) {
    forall c :: c in sofar ==> c.id in byId && byId[c.id] == NormalCapability(c)
  }

  ghost predicate SameIds(byId: map<string, Capability>, capabilities: seq<Capability>) {
    forall id :: id in byId <==> HasId(capabilities, id)
  }

  lemma IndexedStep(byId: map<string, Capability>, kept: seq<Capability>, sofar: seq<Capability>, next: Capability)
    requires Indexed(byId, kept, sofar)
    ensures var c := NormalCapability(next);
            && (c.id in byId && byId[c.id] == c ==> Indexed(byId, kept, sofar + [next]))
            && (c.id !in byId ==> Indexed(byId[c.id := c], kept + [c], sofar + [next]))
  {
    var c := NormalCapability(next);
    SameId(next);
    hide NormalCapability, HasId;
    IdsAdded(kept, c);
    IdsAdded(sofar, next);
  }

  lemma DistinctStep(byId: map<string, Capability>, kept: seq<Capability>, sofar: seq<Capability>, next: Capability)
    requires Indexed(byId, kept, sofar) && kept == Distinct(sofar)
    ensures NormalCapability(next).id == next.id
    ensures Distinct(sofar + [next]) == if next.id in byId then kept else kept + [NormalCapability(next)]
  {
    var longer := sofar + [next];
    assert longer[..|sofar|] == sofar && longer[|sofar|] == next;
  }

  lemma Seen(byId: map<string, Capability>, kept: seq<Capability>, sofar: seq<Capability>, id: string)
    requires Indexed(byId, kept, sofar) && id in byId
    ensures exists j :: 0 <= j < |sofar| && NormalCapability(sofar[j]) == byId[id] && sofar[j].id == id
  {
    var j :| 0 <= j < |sofar| && sofar[j].id == id;
    assert sofar[j] in sofar;
  }

  lemma SameId(c: Capability)
    ensures NormalCapability(c).id == c.id
  {
  }

  lemma IdsAdded(kept: seq<Capability>, c: Capability)
    ensures forall id :: HasId(kept + [c], id) <==> HasId(kept, id) || id == c.id
  {
    forall id ensures HasId(kept + [c], id) <==> HasId(kept, id) || id == c.id {
      if HasId(kept, id) {
        var i :| 0 <= i < |kept| && kept[i].id == id;
        assert (kept + [c])[i].id == id;
      }
      assert (kept + [c])[|kept|] == c;
    }
  }

  lemma IndexedMeansConsistent(byId: map<string, Capability>, kept: seq<Capability>, all: seq<Capability>)
    requires Indexed(byId, kept, all)
    ensures !Contradictory(all)
  {
  }

  // What is requested: a set of capabilities.

  ghost function Asked(capabilities: seq<Capability>): set<Capability> {
    set c | c in capabilities :: NormalCapability(c)
  }

  ghost predicate ClashIn(asked: set<Capability>) {
    exists c, d :: c in asked && d in asked && c.id == d.id && c != d
  }

  lemma ContradictoryOf(capabilities: seq<Capability>)
    ensures Contradictory(capabilities) <==> ClashIn(Asked(capabilities))
  {
    forall c ensures NormalCapability(c).id == c.id { SameId(c); }
    hide NormalCapability;
    if ClashIn(Asked(capabilities)) {
      var c, d :| c in Asked(capabilities) && d in Asked(capabilities) && c.id == d.id && c != d;
      var i :| 0 <= i < |capabilities| && NormalCapability(capabilities[i]) == c;
      var j :| 0 <= j < |capabilities| && NormalCapability(capabilities[j]) == d;
      assert Clash(capabilities[i], capabilities[j]) && Clash(capabilities[j], capabilities[i]);
      assert i < j || j < i;
    }
    if Contradictory(capabilities) {
      var i, j :| 0 <= i < j < |capabilities| && Clash(capabilities[i], capabilities[j]);
      assert NormalCapability(capabilities[i]) in Asked(capabilities);
      assert NormalCapability(capabilities[j]) in Asked(capabilities);
    }
  }

  ghost predicate DistinctIds(capabilities: seq<Capability>) {
    forall i, j :: 0 <= i < j < |capabilities| ==> capabilities[i].id != capabilities[j].id
  }

  lemma {:induction false} DistinctHasIds(capabilities: seq<Capability>)
    ensures DistinctIds(Distinct(capabilities))
  {
    if capabilities != [] {
      DistinctHasIds(capabilities[..|capabilities| - 1]);
    }
  }

  /** Of requests that do not contradict themselves, the entries kept are what is asked, each once. */
  lemma {:induction false} DistinctKeepsAsked(capabilities: seq<Capability>)
    requires !ClashIn(Asked(capabilities))
    ensures forall c :: c in Distinct(capabilities) <==> c in Asked(capabilities)
  {
    if capabilities != [] {
      var init, last := capabilities[..|capabilities| - 1], capabilities[|capabilities| - 1];
      assert capabilities == init + [last];
      AskedAdded(init, last);
      DistinctKeepsAsked(init);
      var c := NormalCapability(last);
      hide Asked, NormalCapability;
      if HasId(Distinct(init), c.id) {
        var i :| 0 <= i < |Distinct(init)| && Distinct(init)[i].id == c.id;
        assert Distinct(init)[i] in Asked(capabilities) && c in Asked(capabilities);
      }
    }
  }

  lemma AskedAdded(capabilities: seq<Capability>, c: Capability)
    ensures Asked(capabilities + [c]) == Asked(capabilities) + {NormalCapability(c)}
  {
    assert forall d :: d in capabilities + [c] <==> d in capabilities || d == c;
  }

  lemma ByIdIsPreorder(order: Order)
    requires TotalPreorder(order)
    ensures TotalPreorder(ById(order))
  {
    assert forall c, d :: ById(order)(c, d) == order(c.id, d.id);
  }

  lemma SortByIdUnique(order: Order, s: seq<Capability>, t: seq<Capability>)
    requires Total(order) && Sorted(ById(order), s) && Sorted(ById(order), t)
    requires DistinctIds(s) && DistinctIds(t)
    requires forall c :: c in s <==> c in t
    ensures s == t
  {
    ByIdIsStrict(order, s);
    ByIdIsStrict(order, t);
    StrictlySortedUnique(ById(order), s, t);
  }

  lemma ByIdIsStrict(order: Order, s: seq<Capability>)
    requires Total(order) && Sorted(ById(order), s) && DistinctIds(s)
    ensures StrictlySorted(ById(order), s)
  {
    assert forall c, d :: ById(order)(c, d) == order(c.id, d.id);
  }

  lemma SortKeepsIds(order: Order, s: seq<Capability>)
    requires TotalPreorder(order) && DistinctIds(s)
    ensures DistinctIds(Sort(ById(order), s)) && Sorted(ById(order), Sort(ById(order), s))
    ensures forall c :: c in Sort(ById(order), s) <==> c in s
  {
    ByIdIsPreorder(order);
    SortSorts(ById(order), s);
    SortMembers(ById(order), s);
    SortPermutes(ById(order), s);
    DistinctByPermutation((c: Capability) => c.id, s, Sort(ById(order), s));
  }

  lemma NormalizedCapabilities(order: Order, capabilities: seq<Capability>)
    requires Total(order) && !Contradictory(capabilities)
    ensures var sorted := Sort(ById(order), Distinct(capabilities));
            && DistinctIds(sorted) && Sorted(ById(order), sorted)
            && forall c :: c in sorted <==> c in Asked(capabilities)
  {
    hide Contradictory, Sort, Distinct, Sorted;
    ContradictoryOf(capabilities);
    DistinctHasIds(capabilities);
    DistinctKeepsAsked(capabilities);
    SortKeepsIds(order, Distinct(capabilities));
  }

  /**
   Normalization gives the same result, or rejects the same, for every order and every consistent duplication of the
   capabilities: it depends only on what is asked.
   */
  lemma NormalizationIgnoresOrder(locale: Order, units: Order, r: Request, s: Request)
    requires Total(locale)
    requires s == r.(capabilities := s.capabilities) && Asked(r.capabilities) == Asked(s.capabilities)
    ensures Normalize(locale, units, r) == Normalize(locale, units, s)
  {
    ContradictoryOf(r.capabilities);
    ContradictoryOf(s.capabilities);
    hide Contradictory, ClashIn, Distinct, Sort, Asked, Sorted, Total;
    if !Contradictory(r.capabilities) {
      NormalizedCapabilities(locale, r.capabilities);
      NormalizedCapabilities(locale, s.capabilities);
      SortByIdUnique(locale,
                     Sort(ById(locale), Distinct(r.capabilities)),
                     Sort(ById(locale), Distinct(s.capabilities)));
    }
  }

  // Normalizing twice is normalizing once.

  lemma {:induction false} KeepDistinct(values: seq<string>)
    ensures forall i, j :: 0 <= i < j < |Keep(values)| ==> Keep(values)[i] != Keep(values)[j]
    ensures forall v :: v in Keep(values) <==> v in values
  {
    if values != [] {
      assert values == values[..|values| - 1] + [values[|values| - 1]];
      KeepDistinct(values[..|values| - 1]);
    }
  }

  lemma {:induction false} KeepFixed(values: seq<string>)
    requires forall i, j :: 0 <= i < j < |values| ==> values[i] != values[j]
    ensures Keep(values) == values
  {
    if values != [] {
      assert values == values[..|values| - 1] + [values[|values| - 1]];
      KeepFixed(values[..|values| - 1]);
    }
  }

  lemma SortedKeepFixed(units: Order, values: seq<string>)
    requires Total(units)
    ensures var sorted := Sort(units, Keep(values)); Sort(units, Keep(sorted)) == sorted
  {
    var sorted := Sort(units, Keep(values));
    KeepDistinct(values);
    SortSorts(units, Keep(values));
    SortPermutes(units, Keep(values));
    DistinctOfPermutation(Keep(values), sorted);
    KeepFixed(sorted);
    SortedIsFixed(units, sorted);
  }

  lemma {:induction false} DistinctFixed(capabilities: seq<Capability>)
    requires DistinctIds(capabilities) && forall c :: c in capabilities ==> NormalCapability(c) == c
    ensures Distinct(capabilities) == capabilities
  {
    if capabilities != [] {
      var init := capabilities[..|capabilities| - 1];
      assert capabilities == init + [capabilities[|capabilities| - 1]];
      DistinctFixed(init);
    }
  }

  lemma NormalizingTwice(locale: Order, units: Order, r: Request)
    requires Total(locale) && Total(units) && Normalize(locale, units, r).Some?
    ensures var n := Normalize(locale, units, r).value; Normalize(locale, units, n) == Some(n)
  {
    var n := Normalize(locale, units, r).value;
    NormalizedCapabilities(locale, r.capabilities);
    assert !Contradictory(n.capabilities);
    SortedKeepFixed(units, r.forbiddenProviders);
    KeepDistinct(r.preferredProviders);
    KeepFixed(Keep(r.preferredProviders));
    hide Sort, Keep, Contradictory;
    AskedIsNormal(r.capabilities);
    hide Asked, NormalCapability;
    DistinctFixed(n.capabilities);
    ByIdFixed(locale, n.capabilities);
  }

  lemma AskedIsNormal(capabilities: seq<Capability>)
    ensures forall c :: c in Asked(capabilities) ==> NormalCapability(c) == c
  {
  }

  lemma ByIdFixed(order: Order, s: seq<Capability>)
    requires Total(order) && DistinctIds(s) && Sorted(ById(order), s)
    ensures Sort(ById(order), s) == s
  {
    SortKeepsIds(order, s);
    SortByIdUnique(order, Sort(ById(order), s), s);
  }
}
