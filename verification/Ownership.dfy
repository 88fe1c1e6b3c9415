/**
 Which provider owns which property of which scope. Two providers that both
 claim one property of a scope are in conflict; two that may overlap because
 one of them does not name its property are ambiguous. A route is fine if it
 has neither.
 */
module Ownership {
  import opened Base
  import opened Sorting
  import opened Requests
  import opened Ranking

  datatype Template = Template(domain: string, property: string, possibleProperties: set<string>)

  function TemplateFor(id: string): Template {
    if id == "platform.css-transition" then
      Template("dom-style", "css-transition", {"background", "border", "color", "filter", "opacity", "transform"})
    else if id == "platform.css-animation" then
      Template("dom-animation", "css-animation", {"filter", "layout", "opacity", "transform"})
    else if id == "platform.waapi-animation" then
      Template("dom-animation", "waapi-animation", {"filter", "layout", "opacity", "transform"})
    else if id == "motion.presence" then Template("presence", "presence", {"opacity", "transform"})
    else if id == "motion.layout" || id == "motion.shared-layout" || id == "motion.flip" then
      Template("layout", "layout", {"layout", "transform"})
    else if id == "motion.spring" then Template("timing", "timing", {"timing"})
    else if id == "interaction.drag" then Template("gesture", "drag", {"transform"})
    else if id == "interaction.gesture" then Template("gesture", "gesture", {"gesture", "transform"})
    else if id == "motion.timeline" then
      Template("timeline", "timeline", {"filter", "layout", "opacity", "transform"})
    else if id == "motion.svg" then Template("svg-animation", "svg", {"opacity", "svg", "transform"})
    else if id == "scroll.triggered-animation" || id == "scroll.pinned-sequence" then
      Template("scroll-trigger", "scroll", {"opacity", "scroll", "transform"})
    else Template("capability", id, {id})
  }

  predicate IsSpace(c: char) {
    || c in {' ', '\t', '\n', '\r', '\U{000B}', '\U{000C}', '\U{00A0}', '\U{1680}', '\U{2028}', '\U{2029}', '\U{202F}',
             '\U{205F}', '\U{3000}', '\U{FEFF}'}
    || '\U{2000}' <= c <= '\U{200A}'
  }

  function Trim(s: string): string {
    if s != "" && IsSpace(s[0]) then Trim(s[1..])
    else if s != "" && IsSpace(s[|s| - 1]) then Trim(s[..|s| - 1])
    else s
  }

  /** The first capability with an id. */
  function Find(capabilities: seq<Capability>, id: string): Option<Capability> {
    if capabilities == [] then None
    else if capabilities[0].id == id then Some(capabilities[0])
    else Find(capabilities[1..], id)
  }

  function StringQuality(capabilities: seq<Capability>, id: string, key: string): Option<string> {
    var c := Find(capabilities, id);
    if c.Some? && c.value.quality.Some? && key in c.value.quality.value && c.value.quality.value[key].Text?
       && Trim(c.value.quality.value[key].text) != ""
    then Some(Trim(c.value.quality.value[key].text)) else None
  }

  datatype Owned = Owned(
    providerId: string,
    domain: string,
    scope: string,
    property: string,
    explicitScope: bool,
    explicitProperty: bool,
    possible: set<string>)

  function Resolved(capabilities: seq<Capability>, a: Assignment): Owned {
    var template := TemplateFor(a.capabilityId);
    var scope := StringQuality(capabilities, a.capabilityId, "scope");
    var property := StringQuality(capabilities, a.capabilityId, "property");
    Owned(a.providerId,
          template.domain,
          if scope.Some? then scope.value else "capability:" + a.capabilityId,
          if property.Some? then property.value else template.property,
          scope.Some?,
          property.Some?,
          if property.Some? then {property.value} else template.possibleProperties)
  }

  function AllResolved(capabilities: seq<Capability>, assignments: seq<Assignment>): seq<Owned> {
    seq(|assignments|, i requires 0 <= i < |assignments| => Resolved(capabilities, assignments[i]))
  }

  datatype Kind = Conflict | Ambiguous

  datatype Constraint = Constraint(kind: Kind, left: string, right: string, scope: string, property: string)

  function ConstraintOf(kind: Kind, l: Owned, r: Owned): Constraint {
    Constraint(kind, l.providerId, r.providerId, l.scope, l.property)
  }

  /** What is wrong between two owners. */
  function Between(l: Owned, r: Owned): Option<Kind> {
    if l.providerId == r.providerId then None
    else if l.scope != r.scope then None
    else if l.explicitProperty && r.explicitProperty && l.property == r.property then Some(Conflict)
    else if (!l.explicitProperty || !r.explicitProperty) && l.explicitScope && r.explicitScope
            && l.possible * r.possible != {} then Some(Ambiguous)
    else None
  }

  datatype OwnershipStatus = Fine | NeedsInput | Blocked

  datatype Resolution = Resolution(
    ownership: seq<Owned>,
    status: OwnershipStatus,
    constraints: seq<Constraint>,
    requiredInput: set<string>)

  ghost predicate Has(owned: seq<Owned>, kind: Kind) {
    exists i, j :: 0 <= i < j < |owned| && Between(owned[i], owned[j]) == Some(kind)
  }

  ghost function StatusOf(capabilities: seq<Capability>, assignments: seq<Assignment>): OwnershipStatus {
    var owned := AllResolved(capabilities, assignments);
    if Has(owned, Conflict) then Blocked else if Has(owned, Ambiguous) then NeedsInput else Fine
  }

  /** The constraints between i and the owners from j on. */
  function RowFrom(owned: seq<Owned>, i: nat, j: nat): seq<Constraint>
    requires i < |owned|
    decreases |owned| - j
  {
    if j >= |owned| then []
    else
      var kind := Between(owned[i], owned[j]);
      (if kind.Some? then [ConstraintOf(kind.value, owned[i], owned[j])] else [])
      + RowFrom(owned, i, j + 1)
  }

  function ConstraintsFrom(owned: seq<Owned>, i: nat): seq<Constraint>
    decreases |owned| - i
  {
    if i >= |owned| then [] else RowFrom(owned, i, i + 1) + ConstraintsFrom(owned, i + 1)
  }

  /** c is the constraint between two owners. */
  predicate Constrains(owned: seq<Owned>, i: nat, k: nat, c: Constraint)
    requires i < |owned| && k < |owned|
  {
    && Between(owned[i], owned[k]) == Some(c.kind)
    && c == ConstraintOf(c.kind, owned[i], owned[k])
  }

  lemma RowStep(owned: seq<Owned>, i: nat, j: nat, c: Constraint)
    requires i < |owned| && j < |owned|
    ensures c in RowFrom(owned, i, j) <==> Constrains(owned, i, j, c) || c in RowFrom(owned, i, j + 1)
  {
    hide Between;
  }

  lemma {:induction false} RowFinds(owned: seq<Owned>, i: nat, j: nat, c: Constraint)
    requires i < |owned|
    ensures c in RowFrom(owned, i, j) <==> exists k :: j <= k < |owned| && Constrains(owned, i, k, c)
    decreases |owned| - j
  {
    hide Constrains;
    if j < |owned| {
      RowStep(owned, i, j, c);
      RowFinds(owned, i, j + 1, c);
      hide RowFrom;
    }
  }

  /** c is the constraint of some pair whose first owner is i or later. */
  ghost predicate Paired(owned: seq<Owned>, i: nat, c: Constraint) {
    exists k, l :: i <= k < l < |owned| && Constrains(owned, k, l, c)
  }

  lemma PairedStep(owned: seq<Owned>, i: nat, c: Constraint)
    requires i < |owned|
    ensures Paired(owned, i, c) <==>
            (exists l :: i < l < |owned| && Constrains(owned, i, l, c)) || Paired(owned, i + 1, c)
  {
    hide Constrains;
    if Paired(owned, i, c) {
      var k, l :| i <= k < l < |owned| && Constrains(owned, k, l, c);
      assert k == i || i + 1 <= k;
    }
  }

  /** The constraints are those of the pairs. */
  lemma {:induction false} ConstraintsFind(owned: seq<Owned>, i: nat, c: Constraint)
    ensures c in ConstraintsFrom(owned, i) <==> Paired(owned, i, c)
    decreases |owned| - i
  {
    hide Constrains, RowFrom;
    if i < |owned| {
      RowFinds(owned, i, i + 1, c);
      ConstraintsFind(owned, i + 1, c);
      PairedStep(owned, i, c);
      hide Paired;
    }
  }

  ghost predicate Mentions(constraints: seq<Constraint>, kind: Kind) {
    exists i :: 0 <= i < |constraints| && constraints[i].kind == kind
  }

  ghost function ScopesToSplit(constraints: seq<Constraint>): set<string> {
    set c | c in constraints && c.kind == Ambiguous :: c.scope
  }

  lemma KindsFound(owned: seq<Owned>, kind: Kind)
    ensures Mentions(ConstraintsFrom(owned, 0), kind) <==> Has(owned, kind)
  {
    hide Between;
    if Has(owned, kind) {
      var i, j :| 0 <= i < j < |owned| && Between(owned[i], owned[j]) == Some(kind);
      var c := ConstraintOf(kind, owned[i], owned[j]);
      assert Constrains(owned, i, j, c);
      ConstraintsFind(owned, 0, c);
      assert c in ConstraintsFrom(owned, 0);
    }
    if Mentions(ConstraintsFrom(owned, 0), kind) {
      var n :| 0 <= n < |ConstraintsFrom(owned, 0)| && ConstraintsFrom(owned, 0)[n].kind == kind;
      var c := ConstraintsFrom(owned, 0)[n];
      ConstraintsFind(owned, 0, c);
      var i, j :| 0 <= i < j < |owned| && Constrains(owned, i, j, c);
      assert Between(owned[i], owned[j]) == Some(kind);
    }
  }

  lemma Mentioned(constraints: seq<Constraint>, c: Constraint, kind: Kind)
    ensures Mentions(constraints + [c], kind) <==> Mentions(constraints, kind) || c.kind == kind
    ensures ScopesToSplit(constraints + [c])
         == if c.kind == Ambiguous then ScopesToSplit(constraints) + {c.scope} else ScopesToSplit(constraints)
  {
    var after := constraints + [c];
    assert after[|constraints|] == c;
    if Mentions(constraints, kind) {
      var i :| 0 <= i < |constraints| && constraints[i].kind == kind;
      assert after[i].kind == kind;
    }
  }

  // The order of what is reported.

  function Code(kind: Kind): string {
    match kind
    case Conflict => "OWNERSHIP_CONFLICT"
    case Ambiguous => "OWNERSHIP_AMBIGUOUS"
  }

  function Message(c: Constraint): string {
    match c.kind
    case Conflict =>
      c.left + " and " + c.right + " both require exclusive ownership of " + c.scope + "/" + c.property + "."
    case Ambiguous =>
      c.left + " and " + c.right + " may overlap on scope " + c.scope + "; explicit properties are required."
  }

  /** By the first component in which two sequences of texts differ. */
  predicate Before(locale: Order, s: seq<string>, t: seq<string>) {
    s == [] || t == [] || (locale(s[0], t[0]) && (!locale(t[0], s[0]) || Before(locale, s[1..], t[1..])))
  }

  function ByMessage(locale: Order): (Constraint, Constraint) -> bool {
    (c: Constraint, d: Constraint) => Before(locale, [Code(c.kind), Message(c)], [Code(d.kind), Message(d)])
  }

  function ByOwner(locale: Order): (Owned, Owned) -> bool {
    (l: Owned, r: Owned) =>
      Before(locale, [l.providerId, l.scope, l.domain, l.property], [r.providerId, r.scope, r.domain, r.property])
  }

  method ResolveOwnership(locale: Order, capabilities: seq<Capability>, assignments: seq<Assignment>)
    returns (r: Resolution)
    ensures r.ownership == Sort(ByOwner(locale), AllResolved(capabilities, assignments))
    ensures r.status == StatusOf(capabilities, assignments)
    ensures r.constraints == Sort(ByMessage(locale), ConstraintsFrom(AllResolved(capabilities, assignments), 0))
    ensures r.requiredInput == ScopesToSplit(r.constraints)
  {
    var owned := AllResolved(capabilities, assignments);
    hide AllResolved, StatusOf, ConstraintsFrom, Sort, Known;
    var constraints, blocked, ambiguous, requiredInput := ComparePairs(owned);
    Finishes(capabilities, assignments, constraints, blocked, ambiguous, requiredInput, |owned|);
    SortMembers(ByMessage(locale), constraints);
    r := Resolution(Sort(ByOwner(locale), owned),
                    if blocked then Blocked else if ambiguous then NeedsInput else Fine,
                    Sort(ByMessage(locale), constraints),
                    requiredInput);
  }

  /** Looks at every two owners, and says what is wrong between them. */
  method ComparePairs(owned: seq<Owned>)
    returns (constraints: seq<Constraint>, blocked: bool, ambiguous: bool, requiredInput: set<string>)
    ensures Known(owned, constraints, blocked, ambiguous, requiredInput, |owned|, |owned| + 1)
  {
    constraints, blocked, ambiguous, requiredInput := [], false, false, {};
    var i: nat := 0;
    hide Between, Known;
    Starts(owned);
    while i < |owned|
      invariant i <= |owned|
      invariant Known(owned, constraints, blocked, ambiguous, requiredInput, i, i + 1)
    {
      var j := i + 1;
      while j < |owned|
        invariant i < j <= |owned|
        invariant Known(owned, constraints, blocked, ambiguous, requiredInput, i, j)
      {
        var kind := Between(owned[i], owned[j]);
        PairStep(owned, constraints, blocked, ambiguous, requiredInput, i, j);
        if kind.Some? {
          constraints := constraints + [ConstraintOf(kind.value, owned[i], owned[j])];
          if kind.value == Conflict {
            blocked := true;
          } else {
            ambiguous := true;
            requiredInput := requiredInput + {owned[i].scope};
          }
        }
        j := j + 1;
      }
      RowEnds(owned, constraints, blocked, ambiguous, requiredInput, i, j);
      i := i + 1;
    }
  }

  /** The constraints of the pairs before (i, j). */
  ghost predicate So(owned: seq<Owned>, constraints: seq<Constraint>, i: nat, j: nat) {
    if i < |owned|
    then constraints + (RowFrom(owned, i, j) + ConstraintsFrom(owned, i + 1)) == ConstraintsFrom(owned, 0)
    else constraints == ConstraintsFrom(owned, 0)
  }

  /** What the loops know before they look at the pair (i, j). */
  ghost predicate Known(owned: seq<Owned>, constraints: seq<Constraint>, blocked: bool, ambiguous: bool,
                        requiredInput: set<string>, i: nat, j: nat)
  {
    So(owned, constraints, i, j) && Flags(constraints, blocked, ambiguous, requiredInput)
  }

  lemma Starts(owned: seq<Owned>)
    ensures Known(owned, [], false, false, {}, 0, 1)
  {
    NoFlags();
  }

  lemma SoNext(owned: seq<Owned>, constraints: seq<Constraint>, i: nat, j: nat)
    requires i < j < |owned| && So(owned, constraints, i, j)
    ensures var kind := Between(owned[i], owned[j]);
            So(owned,
               if kind.Some?
               then constraints + [ConstraintOf(kind.value, owned[i], owned[j])]
               else constraints,
               i, j + 1)
  {
    hide Between, ConstraintsFrom;
  }

  lemma PairStep(owned: seq<Owned>, constraints: seq<Constraint>, blocked: bool, ambiguous: bool,
                 requiredInput: set<string>, i: nat, j: nat)
    requires i < j < |owned| && Known(owned, constraints, blocked, ambiguous, requiredInput, i, j)
    ensures var kind := Between(owned[i], owned[j]);
            match kind
            case None => Known(owned, constraints, blocked, ambiguous, requiredInput, i, j + 1)
            case Some(k) =>
              var c := ConstraintOf(k, owned[i], owned[j]);
              if k == Conflict then Known(owned, constraints + [c], true, ambiguous, requiredInput, i, j + 1)
              else Known(owned, constraints + [c], blocked, true, requiredInput + {owned[i].scope}, i, j + 1)
  {
    hide Between, So, Flags;
    SoNext(owned, constraints, i, j);
    var kind := Between(owned[i], owned[j]);
    if kind.Some? {
      FlagsAdded(constraints, blocked, ambiguous, requiredInput,
                 ConstraintOf(kind.value, owned[i], owned[j]));
    }
  }

  lemma RowEnds(owned: seq<Owned>, constraints: seq<Constraint>, blocked: bool, ambiguous: bool,
                requiredInput: set<string>, i: nat, j: nat)
    requires i < |owned| <= j && Known(owned, constraints, blocked, ambiguous, requiredInput, i, j)
    ensures Known(owned, constraints, blocked, ambiguous, requiredInput, i + 1, i + 2)
  {
    hide Between, Flags;
  }

  lemma Finishes(capabilities: seq<Capability>, assignments: seq<Assignment>, constraints: seq<Constraint>,
                 blocked: bool,
                 ambiguous: bool, requiredInput: set<string>, i: nat)
    requires var owned := AllResolved(capabilities, assignments);
             i >= |owned| && Known(owned, constraints, blocked, ambiguous, requiredInput, i, i + 1)
    ensures constraints == ConstraintsFrom(AllResolved(capabilities, assignments), 0)
    ensures requiredInput == ScopesToSplit(constraints)
    ensures StatusOf(capabilities, assignments) == if blocked then Blocked else if ambiguous then NeedsInput else Fine
  {
    FlagsTell(capabilities, assignments, blocked, ambiguous, requiredInput);
  }

  /** What the loop knows of the constraints so far. */
  ghost predicate Flags(constraints: seq<Constraint>, blocked: bool, ambiguous: bool, requiredInput: set<string>) {
    && (blocked <==> Mentions(constraints, Conflict))
    && (ambiguous <==> Mentions(constraints, Ambiguous))
    && requiredInput == ScopesToSplit(constraints)
  }

  lemma FlagsAdded(constraints: seq<Constraint>, blocked: bool, ambiguous: bool, requiredInput: set<string>,
                   c: Constraint)
    requires Flags(constraints, blocked, ambiguous, requiredInput)
    ensures Flags(constraints + [c], blocked || c.kind == Conflict, ambiguous || c.kind == Ambiguous,
                  if c.kind == Ambiguous then requiredInput + {c.scope} else requiredInput)
  {
    Mentioned(constraints, c, Conflict);
    Mentioned(constraints, c, Ambiguous);
  }

  lemma FlagsTell(capabilities: seq<Capability>, assignments: seq<Assignment>, blocked: bool, ambiguous: bool,
                  requiredInput: set<string>)
    requires Flags(ConstraintsFrom(AllResolved(capabilities, assignments), 0), blocked, ambiguous, requiredInput)
    ensures requiredInput == ScopesToSplit(ConstraintsFrom(AllResolved(capabilities, assignments), 0))
    ensures StatusOf(capabilities, assignments) == if blocked then Blocked else if ambiguous then NeedsInput else Fine
  {
    KindsFound(AllResolved(capabilities, assignments), Conflict);
    KindsFound(AllResolved(capabilities, assignments), Ambiguous);
  }

  lemma NoFlags()
    ensures Flags([], false, false, {})
  {
  }

  // What the status means.

  lemma BetweenSymmetric(l: Owned, r: Owned)
    ensures Between(l, r) == Between(r, l)
  {
    assert l.possible * r.possible == r.possible * l.possible;
  }

  /** Owners that name both their scopes or both their properties. */
  predicate Named(l: Owned, r: Owned) {
    (l.explicitScope && r.explicitScope) || (l.explicitProperty && r.explicitProperty)
  }

  /**
   Ownership is fine if and only if no property can be written by two providers of one scope that both name the scope
   or both name the property.
   */
  lemma FineMeansExclusive(capabilities: seq<Capability>, assignments: seq<Assignment>)
    ensures var owned := AllResolved(capabilities, assignments);
            StatusOf(capabilities, assignments) == Fine <==>
            forall i, j :: 0 <= i < |owned| && 0 <= j < |owned| && owned[i].providerId != owned[j].providerId
                           && owned[i].scope == owned[j].scope && Named(owned[i], owned[j]) ==>
              owned[i].possible !! owned[j].possible
  {
    var owned := AllResolved(capabilities, assignments);
    forall i, j | 0 <= i < |owned| && 0 <= j < |owned|
      ensures Between(owned[i], owned[j]) == Between(owned[j], owned[i])
      ensures Between(owned[i], owned[j]).None? <==>
              ((owned[i].providerId != owned[j].providerId && owned[i].scope == owned[j].scope
                && Named(owned[i], owned[j])) ==> owned[i].possible !! owned[j].possible)
    {
      BetweenSymmetric(owned[i], owned[j]);
      BetweenNone(capabilities, assignments[i], assignments[j]);
    }
    hide Between, Resolved, Named;
    if StatusOf(capabilities, assignments) != Fine {
      var kind := if Has(owned, Conflict) then Conflict else Ambiguous;
      var i, j :| 0 <= i < j < |owned| && Between(owned[i], owned[j]) == Some(kind);
    } else {
      forall i, j | 0 <= i < |owned| && 0 <= j < |owned|
        ensures i != j ==> Between(owned[i], owned[j]).None?
      {
        if i != j {
          NothingBetween(owned, i, j);
        }
      }
    }
  }

  lemma NothingBetween(owned: seq<Owned>, i: nat, j: nat)
    requires i < |owned| && j < |owned| && i != j && !Has(owned, Conflict) && !Has(owned, Ambiguous)
    ensures Between(owned[i], owned[j]).None?
  {
    BetweenSymmetric(owned[i], owned[j]);
    hide Between;
    var k, l := if i < j then i else j, if i < j then j else i;
    if Between(owned[k], owned[l]) == Some(Conflict) || Between(owned[k], owned[l]) == Some(Ambiguous) {
      assert false;
    }
  }

  lemma BetweenNone(capabilities: seq<Capability>, a: Assignment, b: Assignment)
    ensures var l, r := Resolved(capabilities, a), Resolved(capabilities, b);
            Between(l, r).None? <==>
            (l.providerId != r.providerId && l.scope == r.scope && Named(l, r) ==> l.possible !! r.possible)
  {
    hide TemplateFor, StringQuality;
    var l, r := Resolved(capabilities, a), Resolved(capabilities, b);
    if l.possible !! r.possible {
      assert l.possible * r.possible == {};
    } else {
      var x :| x in l.possible && x in r.possible;
      assert x in l.possible * r.possible;
    }
    if l.explicitProperty && r.explicitProperty {
      assert l.property in l.possible && r.property in r.possible;
      assert l.possible !! r.possible <==> l.property != r.property;
    }
  }

  /** Leaving assignments out never makes ownership worse. */
  lemma FewerAssignmentsStayFine(capabilities: seq<Capability>, some: seq<Assignment>, all: seq<Assignment>)
    requires forall a :: a in some ==> a in all
    requires StatusOf(capabilities, all) == Fine
    ensures StatusOf(capabilities, some) == Fine
  {
    FineMeansExclusive(capabilities, some);
    FineMeansExclusive(capabilities, all);
    var owned, few := AllResolved(capabilities, all), AllResolved(capabilities, some);
    hide StatusOf, Resolved, Named;
    forall i, j | 0 <= i < |few| && 0 <= j < |few| && few[i].providerId != few[j].providerId
                  && few[i].scope == few[j].scope && Named(few[i], few[j])
      ensures few[i].possible !! few[j].possible
    {
      assert some[i] in all && some[j] in all;
      var k :| 0 <= k < |all| && all[k] == some[i];
      var l :| 0 <= l < |all| && all[l] == some[j];
      assert owned[k] == few[i] && owned[l] == few[j];
    }
  }
}
