/** When layers resolve, and what the resolved policy guarantees. */
module PolicyResults {
  import opened Base
  import opened Policy

  // Every layer only tightens the state.

  predicate Within(a: Option<set<string>>, b: Option<set<string>>) {
    b.Some? ==> a.Some? && a.value <= b.value
  }

  predicate WithinCap(a: Option<int>, b: Option<int>) {
    b.Some? ==> a.Some? && a.value <= b.value
  }

  /** t allows no more than s and asks for no less. */
  ghost predicate Tighter(t: State, s: State) {
    && (forall f :: Within(ListOf(t, f), ListOf(s, f)))
    && Elements(s.deniedConnectors) <= Elements(t.deniedConnectors)
    && (t.allowExperimental ==> s.allowExperimental)
    && (t.allowPaidServices ==> s.allowPaidServices)
    && (t.allowRemoteProjectContent ==> s.allowRemoteProjectContent)
    && Rank(t.networkMode) >= Rank(s.networkMode)
    && WithinCap(t.maxBundleKilobytes, s.maxBundleKilobytes)
    && (s.requireReducedMotion ==> t.requireReducedMotion)
    && Elements(s.requiredApprovals) <= Elements(t.requiredApprovals)
  }

  lemma NarrowsMeansSubset(current: Option<set<string>>, values: seq<string>)
    ensures Narrows(current, values) <==> (current.Some? ==> Elements(values) <= current.value)
  {
  }

  /** A layer that is accepted leaves a state that is as tight or tighter in every field. */
  lemma AcceptedLayerTightens(s: State, rules: Rules)
    requires LayerRefusal(s, rules).None?
    ensures Tighter(AfterLayer(s, rules), s)
  {
    AcceptedMeansFits(s, rules);
    UnionGrows(s.deniedConnectors, rules.deniedConnectors);
    UnionGrows(s.requiredApprovals, rules.requiredApprovals);
    forall f ensures Within(ListOf(AfterLayer(s, rules), f), ListOf(s, f)) {
      assert Narrows(ListOf(s, f), Stated(rules, f));
      NarrowsMeansSubset(ListOf(s, f), Stated(rules, f));
      ListAfter(s, rules, f);
    }
    hide NextList, Union, Elements, Narrows;
  }

  lemma ListAfter(s: State, rules: Rules, f: ListField)
    ensures ListOf(AfterLayer(s, rules), f) == NextList(ListOf(s, f), Stated(rules, f))
  {
    hide NextList, Union;
  }

  /** The same conditions, without their order. */
  ghost predicate Fits(s: State, rules: Rules) {
    && (forall f :: Narrows(ListOf(s, f), Stated(rules, f)))
    && !Reallows(s.deniedConnectors, rules.allowedConnectors)
    && (rules.allowExperimental ==> s.allowExperimental)
    && (rules.allowPaidServices ==> s.allowPaidServices)
    && (rules.allowRemoteProjectContent ==> s.allowRemoteProjectContent)
    && Rank(rules.networkMode) >= Rank(s.networkMode)
    && (rules.allowedHosts != [] ==> rules.networkMode == Allowlist)
    && WithinCap(rules.maxBundleKilobytes, s.maxBundleKilobytes)
    && (s.requireReducedMotion ==> rules.requireReducedMotion)
  }

  lemma AcceptedMeansFits(s: State, rules: Rules)
    ensures LayerRefusal(s, rules).None? <==> Fits(s, rules)
  {
    hide Narrows, Reallows, Rank;
    if LayerRefusal(s, rules).None? {
      forall f ensures Narrows(ListOf(s, f), Stated(rules, f)) {
        match f { case _ => }
      }
    }
  }

  // When layers resolve.

  /** What a layer may state at all, under the baseline. */
  predicate Strict(rules: Rules) {
    && !rules.allowExperimental && !rules.allowPaidServices && !rules.allowRemoteProjectContent
    && rules.networkMode == Deny && rules.allowedHosts == [] && rules.requireReducedMotion
  }

  /** What a later layer may state, given an earlier one. */
  ghost predicate Restricts(earlier: Rules, later: Rules) {
    && (forall f :: Stated(earlier, f) != [] && Stated(later, f) != [] ==>
          Elements(Stated(later, f)) <= Elements(Stated(earlier, f)))
    && Elements(later.allowedConnectors) !! Elements(earlier.deniedConnectors)
    && WithinCap(later.maxBundleKilobytes, earlier.maxBundleKilobytes)
  }

  ghost predicate Tightening(layers: seq<Rules>) {
    && (forall n :: 0 <= n < |layers| ==> Strict(layers[n]))
    && (forall i, j :: 0 <= i < j < |layers| ==> Restricts(layers[i], layers[j]))
  }

  ghost predicate Accepted(layers: seq<Rules>) {
    forall n :: 0 <= n < |layers| ==> LayerRefusal(Folded(layers[..n]), layers[n]).None?
  }

  lemma {:induction false} NoRefusal(layers: seq<Rules>, n: nat)
    requires n <= |layers|
    ensures FirstRefusal(layers, n).None? <==>
            forall k :: n <= k < |layers| ==> LayerRefusal(Folded(layers[..k]), layers[k]).None?
    decreases |layers| - n
  {
    hide LayerRefusal, Folded;
    if n < |layers| {
      NoRefusal(layers, n + 1);
    }
  }

  lemma AcceptedStep(layers: seq<Rules>)
    requires layers != []
    ensures var init := layers[..|layers| - 1];
            Accepted(layers) <==> Accepted(init) && LayerRefusal(Folded(init), layers[|layers| - 1]).None?
  {
    hide LayerRefusal, Folded;
    var init := layers[..|layers| - 1];
    forall n | 0 <= n < |init| ensures layers[..n] == init[..n] && layers[n] == init[n] {
    }
  }

  lemma TighteningStep(layers: seq<Rules>)
    requires layers != []
    ensures var init, last := layers[..|layers| - 1], layers[|layers| - 1];
            Tightening(layers) <==>
            Tightening(init) && Strict(last) && forall i :: 0 <= i < |init| ==> Restricts(init[i], last)
  {
    hide Strict, Restricts;
    var init := layers[..|layers| - 1];
    assert layers == init + [layers[|layers| - 1]];
  }

  // What the state knows of the layers.

  /** The list is the narrowest stated, None if none is stated. */
  ghost predicate Narrowest(layers: seq<Rules>, f: ListField, list: Option<set<string>>) {
    && (list.None? ==> forall k :: 0 <= k < |layers| ==> Stated(layers[k], f) == [])
    && (list.Some? ==>
          && (exists k :: 0 <= k < |layers| && Stated(layers[k], f) != []
                          && Elements(Stated(layers[k], f)) == list.value)
          && (forall k :: 0 <= k < |layers| && Stated(layers[k], f) != [] ==>
                list.value <= Elements(Stated(layers[k], f))))
  }

  /** The cap is the lowest stated, None if none is stated. */
  ghost predicate Lowest(layers: seq<Rules>, cap: Option<int>) {
    && (cap.None? ==> forall k :: 0 <= k < |layers| ==> layers[k].maxBundleKilobytes.None?)
    && (cap.Some? ==>
          && (exists k :: 0 <= k < |layers| && layers[k].maxBundleKilobytes == cap)
          && (forall k :: 0 <= k < |layers| ==> WithinCap(cap, layers[k].maxBundleKilobytes)))
  }

  ghost predicate Denied(layers: seq<Rules>, connectors: set<string>) {
    forall c :: c in connectors <==> exists k :: 0 <= k < |layers| && c in layers[k].deniedConnectors
  }

  ghost predicate Approved(layers: seq<Rules>, approvals: set<string>) {
    forall a :: a in approvals <==> exists k :: 0 <= k < |layers| && a in layers[k].requiredApprovals
  }

  ghost predicate Reflects(layers: seq<Rules>, s: State) {
    && (forall f :: Narrowest(layers, f, ListOf(s, f)))
    && Lowest(layers, s.maxBundleKilobytes)
    && Denied(layers, Elements(s.deniedConnectors))
    && Approved(layers, Elements(s.requiredApprovals))
    && !s.allowExperimental && !s.allowPaidServices && !s.allowRemoteProjectContent && s.requireReducedMotion
    && s.networkMode == Deny
  }

  lemma NarrowestNext(layers: seq<Rules>, last: Rules, f: ListField, list: Option<set<string>>)
    requires Narrowest(layers, f, list) && Narrows(list, Stated(last, f))
    ensures Narrowest(layers + [last], f, NextList(list, Stated(last, f)))
  {
    NarrowsMeansSubset(list, Stated(last, f));
    hide Narrows, Elements;
    var after := layers + [last];
    assert after[|layers|] == last;
    var next := NextList(list, Stated(last, f));
    if Stated(last, f) == [] && list.Some? {
      var k :| 0 <= k < |layers| && Stated(layers[k], f) != [] && Elements(Stated(layers[k], f)) == list.value;
      assert after[k] == layers[k];
    }
    forall k | 0 <= k < |after| && next.Some? && Stated(after[k], f) != []
      ensures next.value <= Elements(Stated(after[k], f))
    {
      if k < |layers| {
        assert after[k] == layers[k];
      }
    }
  }

  lemma LowestNext(layers: seq<Rules>, last: Rules, cap: Option<int>)
    requires Lowest(layers, cap) && WithinCap(last.maxBundleKilobytes, cap)
    ensures Lowest(layers + [last], last.maxBundleKilobytes)
  {
    var after := layers + [last];
    assert after[|layers|] == last;
    forall k | 0 <= k < |after| ensures WithinCap(last.maxBundleKilobytes, after[k].maxBundleKilobytes) {
      if k < |layers| {
        assert after[k] == layers[k];
      }
    }
  }

  lemma DeniedNext(layers: seq<Rules>, last: Rules, connectors: set<string>)
    requires Denied(layers, connectors)
    ensures Denied(layers + [last], connectors + Elements(last.deniedConnectors))
  {
    var after := layers + [last];
    assert after[|layers|] == last && forall k :: 0 <= k < |layers| ==> after[k] == layers[k];
    forall c ensures c in connectors + Elements(last.deniedConnectors) <==>
                     exists k :: 0 <= k < |after| && c in after[k].deniedConnectors
    {
      if c in connectors {
        var k :| 0 <= k < |layers| && c in layers[k].deniedConnectors;
        assert c in after[k].deniedConnectors;
      }
    }
  }

  lemma ApprovedNext(layers: seq<Rules>, last: Rules, approvals: set<string>)
    requires Approved(layers, approvals)
    ensures Approved(layers + [last], approvals + Elements(last.requiredApprovals))
  {
    var after := layers + [last];
    assert after[|layers|] == last && forall k :: 0 <= k < |layers| ==> after[k] == layers[k];
    forall a ensures a in approvals + Elements(last.requiredApprovals) <==>
                     exists k :: 0 <= k < |after| && a in after[k].requiredApprovals
    {
      if a in approvals {
        var k :| 0 <= k < |layers| && a in layers[k].requiredApprovals;
        assert a in after[k].requiredApprovals;
      }
    }
  }

  lemma ReflectsNext(layers: seq<Rules>, last: Rules, s: State)
    requires Reflects(layers, s) && Fits(s, last) && Strict(last)
    ensures Reflects(layers + [last], AfterLayer(s, last))
  {
    hide Narrows, NextList, Narrowest, Lowest, Denied, Approved, Union, Elements, WithinCap, Reallows;
    forall f ensures Narrowest(layers + [last], f, ListOf(AfterLayer(s, last), f)) {
      NarrowestNext(layers, last, f, ListOf(s, f));
      ListAfter(s, last, f);
    }
    LowestNext(layers, last, s.maxBundleKilobytes);
    UnionGrows(s.deniedConnectors, last.deniedConnectors);
    UnionGrows(s.requiredApprovals, last.requiredApprovals);
    DeniedNext(layers, last, Elements(s.deniedConnectors));
    ApprovedNext(layers, last, Elements(s.requiredApprovals));
  }

  lemma ListFits(layers: seq<Rules>, f: ListField, list: Option<set<string>>, values: seq<string>)
    requires Narrowest(layers, f, list)
    ensures Narrows(list, values) <==>
            values == [] || forall k :: 0 <= k < |layers| && Stated(layers[k], f) != [] ==>
                              Elements(values) <= Elements(Stated(layers[k], f))
  {
    NarrowsMeansSubset(list, values);
    hide Narrows;
    if values == [] {
      assert Elements(values) == {};
    }
    hide Elements;
    if list.Some? {
      var k :| 0 <= k < |layers| && Stated(layers[k], f) != [] && Elements(Stated(layers[k], f)) == list.value;
    }
  }

  lemma CapFits(layers: seq<Rules>, cap: Option<int>, value: Option<int>)
    requires Lowest(layers, cap)
    ensures WithinCap(value, cap) <==> forall k :: 0 <= k < |layers| ==> WithinCap(value, layers[k].maxBundleKilobytes)
  {
    if cap.Some? {
      var k :| 0 <= k < |layers| && layers[k].maxBundleKilobytes == cap;
    }
  }

  lemma DenialFits(layers: seq<Rules>, denied: seq<string>, values: seq<string>)
    requires Denied(layers, Elements(denied))
    ensures !Reallows(denied, values) <==>
            forall k :: 0 <= k < |layers| ==> Elements(values) !! Elements(layers[k].deniedConnectors)
  {
    if i :| 0 <= i < |values| && values[i] in denied {
      assert values[i] in Elements(denied);
      var k :| 0 <= k < |layers| && values[i] in layers[k].deniedConnectors;
      assert values[i] in Elements(values) && values[i] in Elements(layers[k].deniedConnectors);
    }
    forall k, v | 0 <= k < |layers| && v in layers[k].deniedConnectors ensures v in denied {
      DenialSeen(layers, denied, k, v);
    }
    if !Reallows(denied, values) {
      forall k | 0 <= k < |layers| ensures Elements(values) !! Elements(layers[k].deniedConnectors) {
        forall v | v in Elements(values) ensures v !in denied {
          var i :| 0 <= i < |values| && values[i] == v;
        }
      }
    }
  }

  lemma DenialSeen(layers: seq<Rules>, denied: seq<string>, k: nat, v: string)
    requires Denied(layers, Elements(denied)) && k < |layers| && v in layers[k].deniedConnectors
    ensures v in denied
  {
    assert v in Elements(denied);
  }

  /** A layer fits the state exactly if it is strict and restricts every layer before it. */
  lemma FitsMeansRestricts(layers: seq<Rules>, last: Rules, s: State)
    requires Reflects(layers, s)
    ensures Fits(s, last) <==> Strict(last) && forall i :: 0 <= i < |layers| ==> Restricts(layers[i], last)
  {
    hide Narrows, Narrowest, Lowest, Denied, Approved, Elements, WithinCap, Reallows;
    forall f ensures Narrows(ListOf(s, f), Stated(last, f)) <==>
                     Stated(last, f) == [] || forall k :: 0 <= k < |layers| && Stated(layers[k], f) != [] ==>
                       Elements(Stated(last, f)) <= Elements(Stated(layers[k], f))
    {
      ListFits(layers, f, ListOf(s, f), Stated(last, f));
    }
    CapFits(layers, s.maxBundleKilobytes, last.maxBundleKilobytes);
    DenialFits(layers, s.deniedConnectors, last.allowedConnectors);
    StrictFits(s, last);
  }

  lemma StrictFits(s: State, last: Rules)
    requires !s.allowExperimental && !s.allowPaidServices && !s.allowRemoteProjectContent && s.requireReducedMotion
    requires s.networkMode == Deny
    ensures Rank(last.networkMode) >= Rank(s.networkMode) <==> last.networkMode == Deny
  {
  }

  lemma {:induction false} LayersReflected(layers: seq<Rules>)
    ensures Accepted(layers) <==> Tightening(layers)
    ensures Accepted(layers) ==> Reflects(layers, Folded(layers))
  {
    hide LayerRefusal, Fits, Strict, Restricts, AfterLayer, Accepted, Tightening, Reflects;
    if layers == [] {
      NoLayers();
    } else {
      var init, last := layers[..|layers| - 1], layers[|layers| - 1];
      assert layers == init + [last];
      LayersReflected(init);
      AcceptedStep(layers);
      TighteningStep(layers);
      AcceptedMeansFits(Folded(init), last);
      if Accepted(init) {
        FitsMeansRestricts(init, last, Folded(init));
        if Fits(Folded(init), last) {
          ReflectsNext(init, last, Folded(init));
        }
      }
    }
  }

  lemma NoLayers()
    ensures Accepted([]) && Tightening([]) && Reflects([], BASELINE)
  {
    assert Elements([]) == {};
  }

  /**
   Layers resolve if and only if each of them keeps to the baseline and restricts every layer before it: its lists lie
   within their stated lists, it allows no connector they deny, and it states a bundle cap no higher than theirs.
   */
  lemma ResolvesIffTightening(layers: seq<Rules>)
    ensures Resolved(layers).Ok? <==> Tightening(layers)
  {
    NoRefusal(layers, 0);
    LayersReflected(layers);
    hide Tightening, LayerRefusal, Folded;
  }

  function EffectiveList(e: Effective, f: ListField): set<string> {
    match f
    case AllowedConnectors => e.allowedConnectors
    case AllowedLicenses => e.allowedLicenses
    case AllowedHosts => e.allowedHosts
    case FilesystemRead => e.filesystemRead
    case FilesystemWrite => e.filesystemWrite
  }

  /** Nothing is allowed that a layer which states a list leaves out, nor anything of a list that no layer states. */
  ghost predicate KeepsLists(layers: seq<Rules>, e: Effective) {
    && (forall f, k :: 0 <= k < |layers| && Stated(layers[k], f) != [] ==>
          EffectiveList(e, f) <= Elements(Stated(layers[k], f)))
    && (forall f :: (forall k :: 0 <= k < |layers| ==> Stated(layers[k], f) == []) ==> EffectiveList(e, f) == {})
  }

  lemma ReflectsKeepsLists(layers: seq<Rules>, s: State)
    requires Reflects(layers, s)
    ensures KeepsLists(layers, EffectiveOf(s))
  {
    hide Lowest, Approved, Denied, Elements, Stated, Narrowest;
    var e := EffectiveOf(s);
    forall f ensures EffectiveList(e, f) <= OrEmpty(ListOf(s, f)) {
    }
    hide EffectiveList, EffectiveOf, ListOf;
    forall f ensures forall k :: 0 <= k < |layers| && Stated(layers[k], f) != [] ==>
                       OrEmpty(ListOf(s, f)) <= Elements(Stated(layers[k], f))
             ensures (forall k :: 0 <= k < |layers| ==> Stated(layers[k], f) == []) ==> OrEmpty(ListOf(s, f)) == {}
    {
      NarrowestKeeps(layers, f, ListOf(s, f));
    }
  }

  /** No layer's denial is allowed, and what is denied and approved is exactly what some layer denies and needs. */
  ghost predicate KeepsDenials(layers: seq<Rules>, e: Effective) {
    && (forall k :: 0 <= k < |layers| ==> e.allowedConnectors !! Elements(layers[k].deniedConnectors))
    && Denied(layers, e.deniedConnectors)
    && Approved(layers, e.requiredApprovals)
  }

  lemma ReflectsKeepsDenials(layers: seq<Rules>, s: State)
    requires Reflects(layers, s)
    ensures KeepsDenials(layers, EffectiveOf(s))
  {
    hide Narrowest, Lowest, Approved, Denied, Elements;
    DeniedKeeps(layers, Elements(s.deniedConnectors));
  }

  /**
   A resolved policy allows only what every layer that states a list allows, and nothing of a list that no layer states;
   it allows no connector that any layer denies; its cap is the lowest one stated; it needs exactly the approvals that
   some layer needs; and it keeps the network denied, without hosts.
   */
  lemma EffectiveKeepsEveryLayer(layers: seq<Rules>)
    requires Resolved(layers).Ok?
    ensures var e := Resolved(layers).value;
            && KeepsLists(layers, e) && KeepsDenials(layers, e) && Lowest(layers, e.maxBundleKilobytes)
            && e.networkMode == Deny && e.allowedHosts == {} && e.requireReducedMotion
            && !e.allowExperimental && !e.allowPaidServices && !e.allowRemoteProjectContent
  {
    NoRefusal(layers, 0);
    hide Folded, FirstRefusal, LayerRefusal, KeepsLists, KeepsDenials, Tightening, Narrowest, Lowest, Denied, Approved;
    LayersReflected(layers);
    var s := Folded(layers);
    assert Narrowest(layers, AllowedHosts, ListOf(s, AllowedHosts));
    NoHosts(layers, s.allowedHosts);
    ReflectsKeepsLists(layers, s);
    ReflectsKeepsDenials(layers, s);
  }

  lemma NarrowestKeeps(layers: seq<Rules>, f: ListField, list: Option<set<string>>)
    requires Narrowest(layers, f, list)
    ensures forall k :: 0 <= k < |layers| && Stated(layers[k], f) != [] ==>
              OrEmpty(list) <= Elements(Stated(layers[k], f))
    ensures (forall k :: 0 <= k < |layers| ==> Stated(layers[k], f) == []) ==> OrEmpty(list) == {}
  {
    hide Elements, Stated;
  }

  lemma NoHosts(layers: seq<Rules>, hosts: Option<set<string>>)
    requires Narrowest(layers, AllowedHosts, hosts) && Tightening(layers)
    ensures OrEmpty(hosts) == {}
  {
    hide Restricts, Elements;
    if hosts.Some? {
      assert false;
    }
  }

  lemma DeniedKeeps(layers: seq<Rules>, connectors: set<string>)
    requires Denied(layers, connectors)
    ensures forall k :: 0 <= k < |layers| ==> Elements(layers[k].deniedConnectors) <= connectors
  {
  }

  // When one more layer tightens the effective policy too.

  /** What a layer allows of a list that no layer before it states. */
  function Grant(last: Rules, f: ListField): set<string> {
    Elements(Stated(last, f)) - if f == AllowedConnectors then Elements(last.deniedConnectors) else {}
  }

  ghost predicate StatedBefore(layers: seq<Rules>, f: ListField) {
    exists k :: 0 <= k < |layers| && Stated(layers[k], f) != []
  }

  /** The effective list of a state. */
  function EffectiveOfState(s: State, f: ListField): set<string> {
    OrEmpty(ListOf(s, f)) - if f == AllowedConnectors then Elements(s.deniedConnectors) else {}
  }

  lemma EffectiveListOf(s: State, f: ListField)
    ensures EffectiveList(EffectiveOf(s), f) == EffectiveOfState(s, f)
  {
  }

  lemma NarrowestStates(layers: seq<Rules>, f: ListField, list: Option<set<string>>)
    requires Narrowest(layers, f, list)
    ensures list.Some? <==> StatedBefore(layers, f)
  {
    hide Elements, Stated;
  }

  /** Nothing that a fitting layer allows is denied already. */
  lemma FitsAllowsNoDenied(s: State, last: Rules)
    requires Fits(s, last)
    ensures Elements(last.allowedConnectors) !! Elements(s.deniedConnectors)
  {
    assert !Reallows(s.deniedConnectors, last.allowedConnectors);
    forall c | c in last.allowedConnectors ensures c !in s.deniedConnectors {
      var i :| 0 <= i < |last.allowedConnectors| && last.allowedConnectors[i] == c;
    }
  }

  lemma ListTightens(layers: seq<Rules>, s: State, last: Rules, f: ListField)
    requires Reflects(layers, s) && Fits(s, last)
    ensures EffectiveOfState(AfterLayer(s, last), f) <= EffectiveOfState(s, f)
            <==> StatedBefore(layers, f) || Grant(last, f) == {}
  {
    ListAfter(s, last, f);
    UnionGrows(s.deniedConnectors, last.deniedConnectors);
    NarrowestStates(layers, f, ListOf(s, f));
    FitsAllowsNoDenied(s, last);
    assert Narrows(ListOf(s, f), Stated(last, f));
    NarrowsMeansSubset(ListOf(s, f), Stated(last, f));
    hide Narrows, Reallows, Narrowest, Lowest, Denied, Approved, Union, Reflects;
    assert AfterLayer(s, last).deniedConnectors == Union(s.deniedConnectors, last.deniedConnectors);
    hide AfterLayer;
    if ListOf(s, f).None? {
      assert Stated(last, f) == [] ==> Elements(Stated(last, f)) == {};
      hide Elements;
      assert EffectiveOfState(s, f) == {};
      assert EffectiveOfState(AfterLayer(s, last), f) == Grant(last, f);
    }
  }

  /**
   The effective policy is not monotone where the fold state is. One more layer leaves every effective list as tight or
   tighter if and only if each list that it is the first to state grants nothing: an absent list denied everything.
   */
  lemma EffectiveTightensExactly(layers: seq<Rules>, last: Rules)
    requires Resolved(layers + [last]).Ok?
    ensures Resolved(layers).Ok?
    ensures (forall f :: EffectiveList(Resolved(layers + [last]).value, f) <= EffectiveList(Resolved(layers).value, f))
            <==> forall f :: StatedBefore(layers, f) || Grant(last, f) == {}
  {
    var more := layers + [last];
    assert more[..|layers|] == layers;
    NoRefusal(layers, 0);
    NoRefusal(more, 0);
    AcceptedStep(more);
    LayersReflected(layers);
    AcceptedMeansFits(Folded(layers), last);
    FoldedNext(layers, last);
    hide Accepted, LayerRefusal, Folded, FirstRefusal, Fits, Reflects, Tightening, Grant, StatedBefore;
    forall f
      ensures EffectiveList(Resolved(more).value, f) <= EffectiveList(Resolved(layers).value, f)
              <==> StatedBefore(layers, f) || Grant(last, f) == {}
    {
      ListTightens(layers, Folded(layers), last, f);
      EffectiveListOf(Folded(layers), f);
      EffectiveListOf(Folded(more), f);
    }
  }

  lemma FoldedNext(layers: seq<Rules>, last: Rules)
    ensures Folded(layers + [last]) == AfterLayer(Folded(layers), last)
  {
    assert (layers + [last])[..|layers|] == layers;
  }

  /** One layer that states nothing but is accepted. */
  const SILENT := Rules([], [], false, [], false, Deny, [], [], [], false, None, true, [])

  /** A layer that is the first to state a list can make the effective policy allow more. */
  lemma EffectiveCanGrow(name: string)
    ensures var more := [SILENT, SILENT.(allowedConnectors := [name])];
            && Resolved([SILENT]).Ok? && Resolved(more).Ok?
            && Resolved([SILENT]).value.allowedConnectors == {}
            && Resolved(more).value.allowedConnectors == {name}
  {
    var more := [SILENT, SILENT.(allowedConnectors := [name])];
    assert Elements([]) == {};
    assert Tightening([SILENT]) && Tightening(more);
    ResolvesIffTightening([SILENT]);
    ResolvesIffTightening(more);
    hide Tightening, FirstRefusal;
    assert more[..1] == [SILENT] && [SILENT][..0] == [];
    assert Folded([SILENT]) == AfterLayer(BASELINE, SILENT);
    assert Folded(more) == AfterLayer(AfterLayer(BASELINE, SILENT), more[1]);
    assert Elements([name]) == {name};
  }

  // The decisions.

  /** The fields that the baseline decides. */
  predicate OfBaseline(field: Field) {
    field in {AllowExperimental, AllowPaidServices, AllowRemoteProjectContent, RequireReducedMotion, Network}
  }

  /** A new decision is of its layer. */
  lemma RecordedOnly(decisions: seq<Decision>, s: State, t: State, layer: nat, d: Decision)
    requires d in Recorded(decisions, s, t, layer)
    ensures d in decisions || (d.Decision? && d.layer == layer)
  {
    var one := PermissionDecisions(decisions, s, t, layer);
    var two := SwitchDecisions(one, s, t, layer);
    var three := ReachDecisions(two, s, t, layer);
    assert d in three || (d.Decision? && d.layer == layer);
    assert d in two || (d.Decision? && d.layer == layer);
    assert d in one || (d.Decision? && d.layer == layer);
  }

  lemma {:induction false} DecisionsAreOfLayers(layers: seq<Rules>, d: Decision)
    requires d in DecisionsOf(layers)
    ensures d.Decision? && d.layer <= |layers|
  {
    if layers != [] {
      hide Recorded, Folded;
      var init := layers[..|layers| - 1];
      RecordedOnly(DecisionsOf(init), Folded(init), Folded(layers), |layers|, d);
      if d in DecisionsOf(init) { DecisionsAreOfLayers(init, d); }
    }
  }

  lemma RecordedElsewhere(decisions: seq<Decision>, s: State, t: State, layer: nat, d: Decision)
    requires d.Decision? ==> d.layer != layer
    ensures d in Recorded(decisions, s, t, layer) <==> d in decisions
  {
    hide Recorded;
    RecordedAfter(decisions, s, t, layer);
    if d in Recorded(decisions, s, t, layer) { RecordedOnly(decisions, s, t, layer, d); }
  }

  lemma {:induction false} LayerChangesAreRecorded(layers: seq<Rules>, k: nat, field: Field)
    requires k < |layers|
    ensures Decision(field, k + 1) in DecisionsOf(layers) <==>
            Changed(Folded(layers[..k]), Folded(layers[..k + 1]), field)
    decreases |layers|
  {
    hide Recorded, Changed, Folded;
    var init := layers[..|layers| - 1];
    if k == |init| {
      assert layers[..k + 1] == layers;
      if Decision(field, k + 1) in DecisionsOf(init) { DecisionsAreOfLayers(init, Decision(field, k + 1)); }
      RecordedIn(DecisionsOf(init), Folded(init), Folded(layers), |layers|, field);
    } else {
      assert init[..k] == layers[..k] && init[..k + 1] == layers[..k + 1];
      RecordedElsewhere(DecisionsOf(init), Folded(init), Folded(layers), |layers|, Decision(field, k + 1));
      LayerChangesAreRecorded(init, k, field);
    }
  }

  lemma {:induction false} BaselineIsRecorded(layers: seq<Rules>, field: Field)
    ensures Decision(field, 0) in DecisionsOf(layers) <==> OfBaseline(field)
  {
    if layers != [] {
      hide Recorded, Folded;
      var init := layers[..|layers| - 1];
      RecordedElsewhere(DecisionsOf(init), Folded(init), Folded(layers), |layers|, Decision(field, 0));
      BaselineIsRecorded(init, field);
    }
  }

  /**
   What the decisions that a resolution reports tell: layer k + 1 has one for a field if and only if it changed that
   field, layer 0 for the fields of the baseline; the denial of inherited connectors is reported if and only if it took
   some away; and there are no others.
   */
  lemma DecisionsTellChanges(layers: seq<Rules>, field: Field)
    ensures var decisions := ReportedDecisions(layers);
            && (forall k :: 0 <= k < |layers| ==>
                  (Decision(field, k + 1) in decisions <==>
                   Changed(Folded(layers[..k]), Folded(layers[..k + 1]), field)))
            && (Decision(field, 0) in decisions <==> OfBaseline(field))
            && (DenyInherited in decisions <==>
                  OrEmpty(Folded(layers).allowedConnectors) * Elements(Folded(layers).deniedConnectors) != {})
            && (forall d :: d in decisions && d.Decision? ==> d.layer <= |layers|)
  {
    hide Changed, Folded, DecisionsOf;
    forall k | 0 <= k < |layers|
      ensures Decision(field, k + 1) in DecisionsOf(layers) <==>
              Changed(Folded(layers[..k]), Folded(layers[..k + 1]), field)
    {
      LayerChangesAreRecorded(layers, k, field);
    }
    BaselineIsRecorded(layers, field);
    forall d | d in DecisionsOf(layers) ensures d.Decision? && d.layer <= |layers| { DecisionsAreOfLayers(layers, d); }
  }

  lemma RecordedAfter(decisions: seq<Decision>, s: State, t: State, layer: nat)
    ensures decisions <= Recorded(decisions, s, t, layer)
  {
    var one := PermissionDecisions(decisions, s, t, layer);
    var two := SwitchDecisions(one, s, t, layer);
    var three := ReachDecisions(two, s, t, layer);
    hide Note;
    assert decisions <= one;
    assert one <= two;
    ReachRecorded(two, s, t, layer, Network);
    assert three <= LimitDecisions(three, s, t, layer);
    hide PermissionDecisions, SwitchDecisions, ReachDecisions, LimitDecisions;
    PrefixOfPrefix(decisions, one, two);
    PrefixOfPrefix(decisions, two, three);
    PrefixOfPrefix(decisions, three, Recorded(decisions, s, t, layer));
  }

  lemma RecordedIn(decisions: seq<Decision>, s: State, t: State, layer: nat, field: Field)
    ensures Decision(field, layer) in Recorded(decisions, s, t, layer) <==>
            Decision(field, layer) in decisions || Changed(s, t, field)
  {
    var one := PermissionDecisions(decisions, s, t, layer);
    var two := SwitchDecisions(one, s, t, layer);
    PermissionsRecorded(decisions, s, t, layer, field);
    SwitchesRecorded(one, s, t, layer, field);
    ReachRecorded(two, s, t, layer, field);
    LimitsRecorded(ReachDecisions(two, s, t, layer), s, t, layer, field);
    hide PermissionDecisions, SwitchDecisions, ReachDecisions, LimitDecisions;
  }

  lemma PrefixOfPrefix(a: seq<Decision>, b: seq<Decision>, c: seq<Decision>)
    requires a <= b <= c
    ensures a <= c
  {
  }

  lemma NoteHolds(d: seq<Decision>, changed: bool, f: Field, field: Field, layer: nat)
    ensures Decision(field, layer) in d + Note(changed, f, layer) <==>
            Decision(field, layer) in d || (changed && f == field)
  {
  }

  lemma PermissionsRecorded(d: seq<Decision>, s: State, t: State, layer: nat, field: Field)
    ensures d <= PermissionDecisions(d, s, t, layer)
    ensures Decision(field, layer) in PermissionDecisions(d, s, t, layer) <==>
            Decision(field, layer) in d
            || (t.allowedConnectors != s.allowedConnectors && field == List(AllowedConnectors))
            || (t.allowedLicenses != s.allowedLicenses && field == List(AllowedLicenses))
  {
  }

  lemma SwitchesRecorded(d: seq<Decision>, s: State, t: State, layer: nat, field: Field)
    ensures d <= SwitchDecisions(d, s, t, layer)
    ensures Decision(field, layer) in SwitchDecisions(d, s, t, layer) <==>
            Decision(field, layer) in d
            || (t.allowExperimental != s.allowExperimental && field == AllowExperimental)
            || (t.allowPaidServices != s.allowPaidServices && field == AllowPaidServices)
            || (t.allowRemoteProjectContent != s.allowRemoteProjectContent && field == AllowRemoteProjectContent)
  {
  }

  lemma ReachRecorded(d: seq<Decision>, s: State, t: State, layer: nat, field: Field)
    ensures d <= ReachDecisions(d, s, t, layer)
    ensures Decision(field, layer) in ReachDecisions(d, s, t, layer) <==>
            Decision(field, layer) in d
            || (t.networkMode != s.networkMode && field == Network)
            || (t.allowedHosts != s.allowedHosts && field == List(AllowedHosts))
            || (t.filesystemRead != s.filesystemRead && field == List(FilesystemRead))
            || (t.filesystemWrite != s.filesystemWrite && field == List(FilesystemWrite))
  {
    hide Note;
    var a := d + Note(t.networkMode != s.networkMode, Network, layer);
    var b := a + Note(t.allowedHosts != s.allowedHosts, List(AllowedHosts), layer);
    var c := b + Note(t.filesystemRead != s.filesystemRead, List(FilesystemRead), layer);
    NoteHolds(d, t.networkMode != s.networkMode, Network, field, layer);
    NoteHolds(a, t.allowedHosts != s.allowedHosts, List(AllowedHosts), field, layer);
    NoteHolds(b, t.filesystemRead != s.filesystemRead, List(FilesystemRead), field, layer);
    NoteHolds(c, t.filesystemWrite != s.filesystemWrite, List(FilesystemWrite), field, layer);
    assert d <= a <= b <= c;
  }

  lemma LimitsRecorded(d: seq<Decision>, s: State, t: State, layer: nat, field: Field)
    ensures d <= LimitDecisions(d, s, t, layer)
    ensures Decision(field, layer) in LimitDecisions(d, s, t, layer) <==>
            Decision(field, layer) in d
            || (t.maxBundleKilobytes != s.maxBundleKilobytes && field == MaxBundle)
            || (|t.requiredApprovals| > |s.requiredApprovals| && field == RequiredApprovals)
            || (t.requireReducedMotion != s.requireReducedMotion && field == RequireReducedMotion)
  {
  }

  predicate Changed(s: State, t: State, field: Field) {
    match field
    case List(f) => ListOf(t, f) != ListOf(s, f)
    case AllowExperimental => t.allowExperimental != s.allowExperimental
    case AllowPaidServices => t.allowPaidServices != s.allowPaidServices
    case AllowRemoteProjectContent => t.allowRemoteProjectContent != s.allowRemoteProjectContent
    case Network => t.networkMode != s.networkMode
    case MaxBundle => t.maxBundleKilobytes != s.maxBundleKilobytes
    case RequiredApprovals => |t.requiredApprovals| > |s.requiredApprovals|
    case RequireReducedMotion => t.requireReducedMotion != s.requireReducedMotion
  }
}
