/**
 What normalizing a request does, said of its entries alone.
 */
module RequestRules {
  import opened Base
  import opened Sorting
  import opened Requests

  /** The qualities an entry names; one that has no quality and one whose quality is empty name none. */
  function Qualities(c: Capability): map<string, QualityValue> {
    match c.quality
    case None => map[]
    case Some(q) => q
  }

  ghost predicate SaysTheSame(c: Capability, d: Capability) {
    c.id == d.id && c.required == d.required && Qualities(c) == Qualities(d)
  }

  lemma NormalSays(c: Capability, d: Capability)
    ensures NormalCapability(c) == NormalCapability(d) <==> SaysTheSame(c, d)
    ensures SaysTheSame(c, NormalCapability(c))
    ensures NormalCapability(c).quality == if |Qualities(c)| == 0 then None else Some(Qualities(c))
  {
  }

  /** A request is rejected if and only if two of its entries for one capability do not say the same. */
  lemma RejectsExactly(locale: Order, units: Order, r: Request)
    ensures Normalize(locale, units, r).None? <==>
            exists i, j :: 0 <= i < j < |r.capabilities| && r.capabilities[i].id == r.capabilities[j].id
                           && !SaysTheSame(r.capabilities[i], r.capabilities[j])
  {
    forall i, j | 0 <= i < j < |r.capabilities|
      ensures Clash(r.capabilities[i], r.capabilities[j]) <==>
              r.capabilities[i].id == r.capabilities[j].id && !SaysTheSame(r.capabilities[i], r.capabilities[j])
    {
      NormalSays(r.capabilities[i], r.capabilities[j]);
    }
    hide Clash, SaysTheSame, Distinct, Sort, Keep;
  }

  /** Each capability asked for has one entry, by identifier, that says what was asked, without an empty quality. */
  ghost predicate Answers(locale: Order, asked: seq<Capability>, entries: seq<Capability>) {
    && (forall i, j :: 0 <= i < j < |entries| ==>
          locale(entries[i].id, entries[j].id) && entries[i].id != entries[j].id)
    && (forall e :: e in entries ==> AskedFor(asked, e))
    && (forall c :: c in asked ==> AnsweredBy(entries, c))
  }

  ghost predicate AskedFor(asked: seq<Capability>, entry: Capability) {
    entry.quality != Some(map[]) && exists c :: c in asked && SaysTheSame(c, entry)
  }

  ghost predicate AnsweredBy(entries: seq<Capability>, c: Capability) {
    exists e :: e in entries && SaysTheSame(c, e)
  }

  /** These values, each once, in order of their first appearance. */
  ghost predicate InOrder(values: seq<string>, kept: seq<string>) {
    && (forall v :: v in kept <==> v in values)
    && forall i, j :: 0 <= i < j < |kept| ==> Sooner(values, kept[i], kept[j])
  }

  /** v appears, and w not before it. */
  ghost predicate Sooner(values: seq<string>, v: string, w: string) {
    exists k :: 0 <= k < |values| && values[k] == v && w !in values[..k + 1]
  }

  lemma SoonerAdded(values: seq<string>, more: string, v: string, w: string)
    requires Sooner(values, v, w)
    ensures Sooner(values + [more], v, w)
  {
    var k :| 0 <= k < |values| && values[k] == v && w !in values[..k + 1];
    assert (values + [more])[..k + 1] == values[..k + 1];
  }

  lemma {:induction false} FirstOf(values: seq<string>, v: string, w: string)
    requires v in values && w !in values
    ensures Sooner(values, v, w)
  {
    var k :| 0 <= k < |values| && values[k] == v;
    assert forall u :: u in values[..k + 1] ==> u in values;
  }

  lemma {:induction false} KeepsOrder(values: seq<string>)
    ensures InOrder(values, Keep(values))
  {
    KeepDistinct(values);
    if values != [] {
      var init, last := values[..|values| - 1], values[|values| - 1];
      assert values == init + [last];
      KeepDistinct(init);
      KeepsOrder(init);
      var kept := Keep(values);
      hide Sooner;
      forall i, j | 0 <= i < j < |kept| ensures Sooner(values, kept[i], kept[j]) {
        if j < |Keep(init)| {
          SoonerAdded(init, last, kept[i], kept[j]);
        } else {
          FirstOf(init, kept[i], last);
          SoonerAdded(init, last, kept[i], last);
        }
      }
    }
  }

  /** Each value comes before the later ones, and is none of them. */
  ghost predicate Ascends(units: Order, values: seq<string>) {
    forall i, j :: 0 <= i < j < |values| ==> units(values[i], values[j]) && values[i] != values[j]
  }

  /** Capabilities are answered, preferred providers kept in order, forbidden ones sorted, each once; the rest stays. */
  lemma NormalizesExactly(locale: Order, units: Order, r: Request)
    requires Total(locale) && Total(units) && Normalize(locale, units, r).Some?
    ensures var n := Normalize(locale, units, r).value;
            && Answers(locale, r.capabilities, n.capabilities)
            && InOrder(r.preferredProviders, n.preferredProviders)
            && (forall v :: v in n.forbiddenProviders <==> v in r.forbiddenProviders)
            && Ascends(units, n.forbiddenProviders)
            && n.maxProviders == r.maxProviders && n.allowPaidServices == r.allowPaidServices
  {
    KeepsOrder(r.preferredProviders);
    ForbiddenAre(units, r.forbiddenProviders);
    CapabilitiesAnswer(locale, r.capabilities);
    hide Answers, InOrder, Ascends, Sort, Keep, Distinct, Contradictory, Total;
  }

  lemma ForbiddenAre(units: Order, values: seq<string>)
    requires Total(units)
    ensures var sorted := Sort(units, Keep(values));
            (forall v :: v in sorted <==> v in values) && Ascends(units, sorted)
  {
    KeepDistinct(values);
    SortSorts(units, Keep(values));
    SortPermutes(units, Keep(values));
    SortMembers(units, Keep(values));
    DistinctOfPermutation(Keep(values), Sort(units, Keep(values)));
    hide Sort, Keep;
  }

  lemma CapabilitiesAnswer(locale: Order, asked: seq<Capability>)
    requires Total(locale) && !Contradictory(asked)
    ensures Answers(locale, asked, Sort(ById(locale), Distinct(asked)))
  {
    hide Sort, Distinct, Contradictory, Sorted, Total, Answers;
    var entries := Sort(ById(locale), Distinct(asked));
    NormalizedCapabilities(locale, asked);
    EntriesAnswer(locale, asked, entries);
  }

  lemma EntriesAnswer(locale: Order, asked: seq<Capability>, entries: seq<Capability>)
    requires DistinctIds(entries) && Sorted(ById(locale), entries) && forall c :: c in entries <==> c in Asked(asked)
    ensures Answers(locale, asked, entries)
  {
    forall i, j | 0 <= i < j < |entries|
      ensures locale(entries[i].id, entries[j].id) && entries[i].id != entries[j].id
    {
      assert ById(locale)(entries[i], entries[j]);
    }
    forall e | e in entries ensures AskedFor(asked, e) {
      var c :| c in asked && e == NormalCapability(c);
      NormalSays(c, c);
    }
    forall c | c in asked ensures AnsweredBy(entries, c) {
      NormalSays(c, c);
      assert NormalCapability(c) in Asked(asked);
    }
    hide AskedFor, AnsweredBy, Asked, Sorted;
  }
}
