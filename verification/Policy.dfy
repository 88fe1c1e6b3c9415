/**
 Layered policy resolution: starting from the built-in baseline, each layer may
 only restrict what it inherits. A layer is refused with the first weakening
 that is found in it, or folded field by field; the decisions tell which layer
 changed which field.
 */
module Policy {
  import opened Base

  datatype NetworkMode = Unrestricted | Allowlist | Deny

  datatype ListField = AllowedConnectors | AllowedLicenses | AllowedHosts | FilesystemRead | FilesystemWrite

  datatype Field =
    | List(list: ListField) | AllowExperimental | AllowPaidServices | AllowRemoteProjectContent | Network | MaxBundle
    | RequiredApprovals | RequireReducedMotion

  datatype Rules = Rules(
    allowedConnectors: seq<string>,
    deniedConnectors: seq<string>,
    allowExperimental: bool,
    allowedLicenses: seq<string>,
    allowPaidServices: bool,
    networkMode: NetworkMode,
    allowedHosts: seq<string>,
    filesystemRead: seq<string>,
    filesystemWrite: seq<string>,
    allowRemoteProjectContent: bool,
    maxBundleKilobytes: Option<int>,
    requireReducedMotion: bool,
    requiredApprovals: seq<string>)

  /** Sorted lists without duplicates are sets; None: no constraint yet. */
  datatype State = State(
    allowedConnectors: Option<set<string>>,
    deniedConnectors: seq<string>,
    allowedLicenses: Option<set<string>>,
    allowExperimental: bool,
    allowPaidServices: bool,
    networkMode: NetworkMode,
    allowedHosts: Option<set<string>>,
    filesystemRead: Option<set<string>>,
    filesystemWrite: Option<set<string>>,
    allowRemoteProjectContent: bool,
    maxBundleKilobytes: Option<int>,
    requireReducedMotion: bool,
    requiredApprovals: seq<string>)

  datatype Effective = Effective(
    allowedConnectors: set<string>,
    deniedConnectors: set<string>,
    allowExperimental: bool,
    allowedLicenses: set<string>,
    allowPaidServices: bool,
    networkMode: NetworkMode,
    allowedHosts: set<string>,
    filesystemRead: set<string>,
    filesystemWrite: set<string>,
    allowRemoteProjectContent: bool,
    maxBundleKilobytes: Option<int>,
    requireReducedMotion: bool,
    requiredApprovals: set<string>)

  datatype Code = WeakeningDenied | Invalid

  datatype Refusal = Refusal(code: Code, field: Field)

  /** What is recorded: a layer changed a field, or denials took allowed connectors away in the end. */
  datatype Decision = Decision(field: Field, layer: nat) | DenyInherited

  const BASELINE := State(None, [], None, false, false, Deny, None, None, None, false, None, true, [])

  function Elements(values: seq<string>): set<string> {
    set v | v in values
  }

  function Rank(mode: NetworkMode): int {
    match mode
    case Unrestricted => 0
    case Allowlist => 1
    case Deny => 2
  }

  function ListOf(s: State, f: ListField): Option<set<string>> {
    match f
    case AllowedConnectors => s.allowedConnectors
    case AllowedLicenses => s.allowedLicenses
    case AllowedHosts => s.allowedHosts
    case FilesystemRead => s.filesystemRead
    case FilesystemWrite => s.filesystemWrite
  }

  function Stated(rules: Rules, f: ListField): seq<string> {
    match f
    case AllowedConnectors => rules.allowedConnectors
    case AllowedLicenses => rules.allowedLicenses
    case AllowedHosts => rules.allowedHosts
    case FilesystemRead => rules.filesystemRead
    case FilesystemWrite => rules.filesystemWrite
  }

  // One layer, field by field.

  /** An empty list states nothing. */
  function NextList(current: Option<set<string>>, values: seq<string>): Option<set<string>> {
    if values == [] then current else Some(Elements(values))
  }

  predicate Narrows(current: Option<set<string>>, values: seq<string>) {
    current.Some? ==> forall i :: 0 <= i < |values| ==> values[i] in current.value
  }

  predicate Reallows(denied: seq<string>, values: seq<string>) {
    exists i :: 0 <= i < |values| && values[i] in denied
  }

  function ListRefusal(s: State, f: ListField, values: seq<string>, denyChecked: bool): Option<Refusal> {
    if (denyChecked && Reallows(s.deniedConnectors, values)) || !Narrows(ListOf(s, f), values)
    then Some(Refusal(WeakeningDenied, List(f))) else None
  }

  function FlagRefusal(field: Field, current: bool, value: bool, loosening: bool): Option<Refusal> {
    if value != current && value == loosening then Some(Refusal(WeakeningDenied, field)) else None
  }

  function HostsRefusal(s: State, rules: Rules): Option<Refusal> {
    if rules.allowedHosts != [] && rules.networkMode != Allowlist then Some(Refusal(Invalid, List(AllowedHosts)))
    else ListRefusal(s, AllowedHosts, rules.allowedHosts, false)
  }

  function BundleRefusal(current: Option<int>, value: Option<int>): Option<Refusal> {
    if current.Some? && (value.None? || value.value > current.value) then Some(Refusal(WeakeningDenied, MaxBundle))
    else None
  }

  /** Values that are not there yet are added at the end. */
  function Union(current: seq<string>, values: seq<string>): seq<string> {
    if values == [] then current
    else
      var rest := Union(current, values[..|values| - 1]);
      if values[|values| - 1] in rest then rest else rest + [values[|values| - 1]]
  }

  function OrElse(a: Option<Refusal>, b: Option<Refusal>): Option<Refusal> {
    if a.Some? then a else b
  }

  function PermissionRefusal(s: State, rules: Rules): Option<Refusal> {
    OrElse(ListRefusal(s, AllowedConnectors, rules.allowedConnectors, true),
           ListRefusal(s, AllowedLicenses, rules.allowedLicenses, false))
  }

  function SwitchRefusal(s: State, rules: Rules): Option<Refusal> {
    OrElse(FlagRefusal(AllowExperimental, s.allowExperimental, rules.allowExperimental, true),
    OrElse(FlagRefusal(AllowPaidServices, s.allowPaidServices, rules.allowPaidServices, true),
           FlagRefusal(AllowRemoteProjectContent, s.allowRemoteProjectContent, rules.allowRemoteProjectContent, true)))
  }

  function ReachRefusal(s: State, rules: Rules): Option<Refusal> {
    OrElse(if Rank(rules.networkMode) < Rank(s.networkMode) then Some(Refusal(WeakeningDenied, Network)) else None,
    OrElse(HostsRefusal(s, rules),
    OrElse(ListRefusal(s, FilesystemRead, rules.filesystemRead, false),
           ListRefusal(s, FilesystemWrite, rules.filesystemWrite, false))))
  }

  function LimitRefusal(s: State, rules: Rules): Option<Refusal> {
    OrElse(BundleRefusal(s.maxBundleKilobytes, rules.maxBundleKilobytes),
           FlagRefusal(RequireReducedMotion, s.requireReducedMotion, rules.requireReducedMotion, false))
  }

  /** The first refusal of a layer, in the order of the checks. */
  function LayerRefusal(s: State, rules: Rules): Option<Refusal> {
    OrElse(PermissionRefusal(s, rules),
    OrElse(SwitchRefusal(s, rules),
    OrElse(ReachRefusal(s, rules), LimitRefusal(s, rules))))
  }

  // What a layer makes of the state when nothing is refused.

  function AfterPermissions(s: State, rules: Rules): State {
    s.(allowedConnectors := NextList(s.allowedConnectors, rules.allowedConnectors),
       deniedConnectors := Union(s.deniedConnectors, rules.deniedConnectors),
       allowedLicenses := NextList(s.allowedLicenses, rules.allowedLicenses))
  }

  function AfterSwitches(s: State, rules: Rules): State {
    s.(allowExperimental := rules.allowExperimental,
       allowPaidServices := rules.allowPaidServices,
       allowRemoteProjectContent := rules.allowRemoteProjectContent)
  }

  function AfterReach(s: State, rules: Rules): State {
    s.(networkMode := rules.networkMode,
       allowedHosts := NextList(s.allowedHosts, rules.allowedHosts),
       filesystemRead := NextList(s.filesystemRead, rules.filesystemRead),
       filesystemWrite := NextList(s.filesystemWrite, rules.filesystemWrite))
  }

  function AfterLimits(s: State, rules: Rules): State {
    s.(maxBundleKilobytes := rules.maxBundleKilobytes,
       requiredApprovals := Union(s.requiredApprovals, rules.requiredApprovals),
       requireReducedMotion := rules.requireReducedMotion)
  }

  function AfterLayer(s: State, rules: Rules): State {
    AfterLimits(AfterReach(AfterSwitches(AfterPermissions(s, rules), rules), rules), rules)
  }

  function Note(changed: bool, field: Field, layer: nat): seq<Decision> {
    if changed then [Decision(field, layer)] else []
  }

  function PermissionDecisions(decisions: seq<Decision>, s: State, t: State, layer: nat): seq<Decision> {
    decisions
    + Note(t.allowedConnectors != s.allowedConnectors, List(AllowedConnectors), layer)
    + Note(t.allowedLicenses != s.allowedLicenses, List(AllowedLicenses), layer)
  }

  function SwitchDecisions(decisions: seq<Decision>, s: State, t: State, layer: nat): seq<Decision> {
    decisions
    + Note(t.allowExperimental != s.allowExperimental, AllowExperimental, layer)
    + Note(t.allowPaidServices != s.allowPaidServices, AllowPaidServices, layer)
    + Note(t.allowRemoteProjectContent != s.allowRemoteProjectContent, AllowRemoteProjectContent, layer)
  }

  function ReachDecisions(decisions: seq<Decision>, s: State, t: State, layer: nat): seq<Decision> {
    decisions
    + Note(t.networkMode != s.networkMode, Network, layer)
    + Note(t.allowedHosts != s.allowedHosts, List(AllowedHosts), layer)
    + Note(t.filesystemRead != s.filesystemRead, List(FilesystemRead), layer)
    + Note(t.filesystemWrite != s.filesystemWrite, List(FilesystemWrite), layer)
  }

  function LimitDecisions(decisions: seq<Decision>, s: State, t: State, layer: nat): seq<Decision> {
    decisions
    + Note(t.maxBundleKilobytes != s.maxBundleKilobytes, MaxBundle, layer)
    + Note(|t.requiredApprovals| > |s.requiredApprovals|, RequiredApprovals, layer)
    + Note(t.requireReducedMotion != s.requireReducedMotion, RequireReducedMotion, layer)
  }

  /** One decision more for each field that changes, in the order of the folds; denied connectors have none. */
  function Recorded(decisions: seq<Decision>, s: State, t: State, layer: nat): seq<Decision> {
    LimitDecisions(
      ReachDecisions(
        SwitchDecisions(PermissionDecisions(decisions, s, t, layer), s, t, layer), s, t, layer), s, t, layer)
  }

  // All layers.

  function Folded(layers: seq<Rules>): State {
    if layers == [] then BASELINE else AfterLayer(Folded(layers[..|layers| - 1]), layers[|layers| - 1])
  }

  function DecisionsOf(layers: seq<Rules>): seq<Decision> {
    if layers == [] then
      [Decision(AllowExperimental, 0), Decision(AllowPaidServices, 0), Decision(AllowRemoteProjectContent, 0),
       Decision(RequireReducedMotion, 0), Decision(Network, 0)]
    else
      var init := layers[..|layers| - 1];
      Recorded(DecisionsOf(init), Folded(init), Folded(layers), |layers|)
  }

  function OrEmpty(list: Option<set<string>>): set<string> {
    if list.Some? then list.value else {}
  }

  function Stripping(s: State): seq<Decision> {
    if OrEmpty(s.allowedConnectors) * Elements(s.deniedConnectors) != {} then [DenyInherited] else []
  }

  function ReportedDecisions(layers: seq<Rules>): seq<Decision> {
    DecisionsOf(layers) + Stripping(Folded(layers))
  }

  /** In the end an absent list denies everything, and denials win. */
  function EffectiveOf(s: State): Effective {
    Effective(
      OrEmpty(s.allowedConnectors) - Elements(s.deniedConnectors),
      Elements(s.deniedConnectors),
      s.allowExperimental,
      OrEmpty(s.allowedLicenses),
      s.allowPaidServices,
      s.networkMode,
      OrEmpty(s.allowedHosts),
      OrEmpty(s.filesystemRead),
      OrEmpty(s.filesystemWrite),
      s.allowRemoteProjectContent,
      s.maxBundleKilobytes,
      s.requireReducedMotion,
      Elements(s.requiredApprovals))
  }

  // The resolver.

  function WithList(s: State, f: ListField, list: Option<set<string>>): State {
    match f
    case AllowedConnectors => s.(allowedConnectors := list)
    case AllowedLicenses => s.(allowedLicenses := list)
    case AllowedHosts => s.(allowedHosts := list)
    case FilesystemRead => s.(filesystemRead := list)
    case FilesystemWrite => s.(filesystemWrite := list)
  }

  datatype Flag = Experimental | PaidServices | RemoteProjectContent | ReducedMotion

  function FieldOf(flag: Flag): Field {
    match flag
    case Experimental => AllowExperimental
    case PaidServices => AllowPaidServices
    case RemoteProjectContent => AllowRemoteProjectContent
    case ReducedMotion => RequireReducedMotion
  }

  function FlagOf(s: State, flag: Flag): bool {
    match flag
    case Experimental => s.allowExperimental
    case PaidServices => s.allowPaidServices
    case RemoteProjectContent => s.allowRemoteProjectContent
    case ReducedMotion => s.requireReducedMotion
  }

  function WithFlag(s: State, flag: Flag, value: bool): State {
    match flag
    case Experimental => s.(allowExperimental := value)
    case PaidServices => s.(allowPaidServices := value)
    case RemoteProjectContent => s.(allowRemoteProjectContent := value)
    case ReducedMotion => s.(requireReducedMotion := value)
  }

  lemma UnionGrows(current: seq<string>, values: seq<string>)
    ensures |Union(current, values)| >= |current|
    ensures Elements(Union(current, values)) == Elements(current) + Elements(values)
  {
    if values != [] {
      var init, last := values[..|values| - 1], values[|values| - 1];
      assert values == init + [last];
      UnionGrows(current, init);
      assert Elements(values) == Elements(init) + {last};
      var rest := Union(current, init);
      assert Elements(rest + [last]) == Elements(rest) + {last};
    }
  }

  class PolicyResolver {
    var state: State
    var decisions: seq<Decision>

    constructor ()
      ensures state == BASELINE && decisions == DecisionsOf([])
    {
      state := BASELINE;
      decisions := [Decision(AllowExperimental, 0), Decision(AllowPaidServices, 0),
                    Decision(AllowRemoteProjectContent, 0), Decision(RequireReducedMotion, 0), Decision(Network, 0)];
    }

    method FoldAllowlist(f: ListField, values: seq<string>, denyChecked: bool, layer: nat)
      returns (refusal: Option<Refusal>)
      modifies this
      ensures refusal == ListRefusal(old(state), f, values, denyChecked)
      ensures refusal.None? ==>
                state == WithList(old(state), f, NextList(ListOf(old(state), f), values))
                && decisions == old(decisions)
                              + Note(NextList(ListOf(old(state), f), values) != ListOf(old(state), f), List(f), layer)
    {
      var current := ListOf(state, f);
      if values == [] {
        return None;
      }
      if denyChecked {
        for i := 0 to |values|
          invariant state == old(state) && decisions == old(decisions)
          invariant !Reallows(state.deniedConnectors, values[..i])
        {
          assert values[..i + 1] == values[..i] + [values[i]];
          if values[i] in state.deniedConnectors {
            return Some(Refusal(WeakeningDenied, List(f)));
          }
        }
        assert values[..|values|] == values;
      }
      if current.Some? {
        for i := 0 to |values|
          invariant state == old(state) && decisions == old(decisions)
          invariant forall j :: 0 <= j < i ==> values[j] in current.value
        {
          if values[i] !in current.value {
            return Some(Refusal(WeakeningDenied, List(f)));
          }
        }
      }
      var narrowed := Some(Elements(values));
      if narrowed != current {
        state := WithList(state, f, narrowed);
        decisions := decisions + [Decision(List(f), layer)];
      }
      refusal := None;
    }

    method FoldBool(flag: Flag, value: bool, loosening: bool, layer: nat) returns (refusal: Option<Refusal>)
      modifies this
      ensures refusal == FlagRefusal(FieldOf(flag), FlagOf(old(state), flag), value, loosening)
      ensures refusal.None? ==>
                state == WithFlag(old(state), flag, value)
                && decisions == old(decisions) + Note(value != FlagOf(old(state), flag), FieldOf(flag), layer)
    {
      if value == FlagOf(state, flag) {
        return None;
      }
      if value == loosening {
        return Some(Refusal(WeakeningDenied, FieldOf(flag)));
      }
      state := WithFlag(state, flag, value);
      decisions := decisions + [Decision(FieldOf(flag), layer)];
      refusal := None;
    }

    method FoldNetworkMode(mode: NetworkMode, layer: nat) returns (refusal: Option<Refusal>)
      modifies this
      ensures refusal == if Rank(mode) < Rank(old(state).networkMode) then Some(Refusal(WeakeningDenied, Network))
                         else None
      ensures refusal.None? ==>
                state == old(state).(networkMode := mode)
                && decisions == old(decisions) + Note(mode != old(state).networkMode, Network, layer)
    {
      if Rank(mode) < Rank(state.networkMode) {
        return Some(Refusal(WeakeningDenied, Network));
      }
      if Rank(mode) > Rank(state.networkMode) {
        state := state.(networkMode := mode);
        decisions := decisions + [Decision(Network, layer)];
      }
      refusal := None;
    }

    method FoldAllowedHosts(rules: Rules, layer: nat) returns (refusal: Option<Refusal>)
      modifies this
      ensures refusal == HostsRefusal(old(state), rules)
      ensures refusal.None? ==>
                state == old(state).(allowedHosts := NextList(old(state).allowedHosts, rules.allowedHosts))
                && decisions == old(decisions)
                              + Note(NextList(old(state).allowedHosts, rules.allowedHosts) != old(state).allowedHosts,
                                     List(AllowedHosts), layer)
    {
      if rules.allowedHosts != [] && rules.networkMode != Allowlist {
        return Some(Refusal(Invalid, List(AllowedHosts)));
      }
      refusal := FoldAllowlist(AllowedHosts, rules.allowedHosts, false, layer);
    }

    method FoldMaxBundle(value: Option<int>, layer: nat) returns (refusal: Option<Refusal>)
      modifies this
      ensures refusal == BundleRefusal(old(state).maxBundleKilobytes, value)
      ensures refusal.None? ==>
                state == old(state).(maxBundleKilobytes := value)
                && decisions == old(decisions) + Note(value != old(state).maxBundleKilobytes, MaxBundle, layer)
    {
      var current := state.maxBundleKilobytes;
      if value == current {
        return None;
      }
      if current.Some? && (value.None? || value.value > current.value) {
        return Some(Refusal(WeakeningDenied, MaxBundle));
      }
      state := state.(maxBundleKilobytes := value);
      decisions := decisions + [Decision(MaxBundle, layer)];
      refusal := None;
    }

    method FoldDenied(values: seq<string>)
      modifies this`state
      ensures state == old(state).(deniedConnectors := Union(old(state).deniedConnectors, values))
    {
      for i := 0 to |values|
        invariant state == old(state).(deniedConnectors := Union(old(state).deniedConnectors, values[..i]))
      {
        assert values[..i + 1][..i] == values[..i];
        if values[i] !in state.deniedConnectors {
          state := state.(deniedConnectors := state.deniedConnectors + [values[i]]);
        }
      }
      assert values[..|values|] == values;
    }

    method FoldRequiredApprovals(values: seq<string>, layer: nat)
      modifies this
      ensures state == old(state).(requiredApprovals := Union(old(state).requiredApprovals, values))
      ensures decisions == old(decisions)
                         + Note(|Union(old(state).requiredApprovals, values)| > |old(state).requiredApprovals|,
                                RequiredApprovals, layer)
    {
      var before := |state.requiredApprovals|;
      for i := 0 to |values|
        invariant state == old(state).(requiredApprovals := Union(old(state).requiredApprovals, values[..i]))
        invariant decisions == old(decisions)
      {
        assert values[..i + 1][..i] == values[..i];
        if values[i] !in state.requiredApprovals {
          state := state.(requiredApprovals := state.requiredApprovals + [values[i]]);
        }
      }
      assert values[..|values|] == values;
      if |state.requiredApprovals| > before {
        decisions := decisions + [Decision(RequiredApprovals, layer)];
      }
    }

    method FoldPermissions(rules: Rules, layer: nat) returns (refusal: Option<Refusal>)
      modifies this
      ensures refusal == PermissionRefusal(old(state), rules)
      ensures refusal.None? ==>
                state == AfterPermissions(old(state), rules)
                && decisions == PermissionDecisions(old(decisions), old(state), state, layer)
    {
      hide NextList, Union, Reallows, Narrows, Note;
      refusal := FoldAllowlist(AllowedConnectors, rules.allowedConnectors, true, layer);
      if refusal.Some? { return; }
      FoldDenied(rules.deniedConnectors);
      refusal := FoldAllowlist(AllowedLicenses, rules.allowedLicenses, false, layer);
    }

    method FoldSwitches(rules: Rules, layer: nat) returns (refusal: Option<Refusal>)
      modifies this
      ensures refusal == SwitchRefusal(old(state), rules)
      ensures refusal.None? ==>
                state == AfterSwitches(old(state), rules)
                && decisions == SwitchDecisions(old(decisions), old(state), state, layer)
    {
      hide Note;
      refusal := FoldBool(Experimental, rules.allowExperimental, true, layer);
      if refusal.Some? { return; }
      refusal := FoldBool(PaidServices, rules.allowPaidServices, true, layer);
      if refusal.Some? { return; }
      refusal := FoldBool(RemoteProjectContent, rules.allowRemoteProjectContent, true, layer);
    }

    method FoldReach(rules: Rules, layer: nat) returns (refusal: Option<Refusal>)
      modifies this
      ensures refusal == ReachRefusal(old(state), rules)
      ensures refusal.None? ==>
                state == AfterReach(old(state), rules)
                && decisions == ReachDecisions(old(decisions), old(state), state, layer)
    {
      hide NextList, Union, Reallows, Narrows, Note;
      refusal := FoldNetworkMode(rules.networkMode, layer);
      if refusal.Some? { return; }
      refusal := FoldAllowedHosts(rules, layer);
      if refusal.Some? { return; }
      refusal := FoldAllowlist(FilesystemRead, rules.filesystemRead, false, layer);
      if refusal.Some? { return; }
      refusal := FoldAllowlist(FilesystemWrite, rules.filesystemWrite, false, layer);
    }

    method FoldLimits(rules: Rules, layer: nat) returns (refusal: Option<Refusal>)
      modifies this
      ensures refusal == LimitRefusal(old(state), rules)
      ensures refusal.None? ==>
                state == AfterLimits(old(state), rules)
                && decisions == LimitDecisions(old(decisions), old(state), state, layer)
    {
      hide NextList, Union, Reallows, Narrows, Note;
      refusal := FoldMaxBundle(rules.maxBundleKilobytes, layer);
      if refusal.Some? { return; }
      FoldRequiredApprovals(rules.requiredApprovals, layer);
      refusal := FoldBool(ReducedMotion, rules.requireReducedMotion, false, layer);
    }

    method FoldLayer(rules: Rules, layer: nat) returns (refusal: Option<Refusal>)
      modifies this
      ensures refusal == LayerRefusal(old(state), rules)
      ensures refusal.None? ==>
                state == AfterLayer(old(state), rules)
                && decisions == Recorded(old(decisions), old(state), state, layer)
    {
      ghost var s := state;
      FoldsAreIndependent(s, rules);
      LaterFoldsKeep(s, rules, layer, decisions);
      hide PermissionRefusal, SwitchRefusal, ReachRefusal, LimitRefusal, AfterPermissions, AfterSwitches, AfterReach,
        AfterLimits, PermissionDecisions, SwitchDecisions, ReachDecisions, LimitDecisions;
      refusal := FoldPermissions(rules, layer);
      if refusal.Some? { return; }
      refusal := FoldSwitches(rules, layer);
      if refusal.Some? { return; }
      refusal := FoldReach(rules, layer);
      if refusal.Some? { return; }
      refusal := FoldLimits(rules, layer);
    }

    method Resolve(layers: seq<Rules>) returns (result: Result<Effective, Refusal>)
      requires state == BASELINE && decisions == DecisionsOf([])
      modifies this
      ensures result == Resolved(layers)
      ensures result.Ok? ==> decisions == ReportedDecisions(layers)
    {
      assert layers[..0] == [];
      for n := 0 to |layers|
        invariant state == Folded(layers[..n]) && decisions == DecisionsOf(layers[..n])
        invariant FirstRefusal(layers, 0) == FirstRefusal(layers, n)
      {
        assert layers[..n + 1][..n] == layers[..n];
        hide LayerRefusal, AfterLayer, Recorded;
        var refusal := FoldLayer(layers[n], n + 1);
        if refusal.Some? {
          return Err(refusal.value);
        }
      }
      assert layers[..|layers|] == layers;
      hide EffectiveOf;
      if OrEmpty(state.allowedConnectors) * Elements(state.deniedConnectors) != {} {
        decisions := decisions + [DenyInherited];
      }
      result := Ok(EffectiveOf(state));
    }
  }

  /** The folds leave alone what the later folds look at. */
  lemma FoldsAreIndependent(s: State, rules: Rules)
    ensures var t := AfterPermissions(s, rules);
            var u := AfterSwitches(t, rules);
            && SwitchRefusal(t, rules) == SwitchRefusal(s, rules)
            && ReachRefusal(u, rules) == ReachRefusal(s, rules)
            && LimitRefusal(AfterReach(u, rules), rules) == LimitRefusal(s, rules)
  {
    hide NextList, Union, Narrows;
  }

  lemma LaterFoldsKeep(s: State, rules: Rules, layer: nat, decisions: seq<Decision>)
    ensures var t := AfterPermissions(s, rules);
            var u := AfterSwitches(t, rules);
            var v := AfterReach(u, rules);
            var w := AfterLimits(v, rules);
            && PermissionDecisions(decisions, s, t, layer) == PermissionDecisions(decisions, s, w, layer)
            && (forall d: seq<Decision> :: SwitchDecisions(d, t, u, layer) == SwitchDecisions(d, s, w, layer))
            && (forall d: seq<Decision> :: ReachDecisions(d, u, v, layer) == ReachDecisions(d, s, w, layer))
            && (forall d: seq<Decision> :: LimitDecisions(d, v, w, layer) == LimitDecisions(d, s, w, layer))
  {
    hide NextList, Union, Note;
  }

  /** The first refusal from layer n on. */
  function FirstRefusal(layers: seq<Rules>, n: nat): Option<Refusal>
    requires n <= |layers|
    decreases |layers| - n
  {
    if n == |layers| then None
    else OrElse(LayerRefusal(Folded(layers[..n]), layers[n]), FirstRefusal(layers, n + 1))
  }

  function Resolved(layers: seq<Rules>): Result<Effective, Refusal> {
    var refusal := FirstRefusal(layers, 0);
    if refusal.Some? then Err(refusal.value) else Ok(EffectiveOf(Folded(layers)))
  }
}
