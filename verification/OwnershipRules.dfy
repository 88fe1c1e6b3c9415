/**
 Who owns what, and what is wrong between owners, said of capabilities and
 assignments alone.
 */
module OwnershipRules {
  import opened Base
  import opened Sorting
  import opened Requests
  import opened Ranking
  import opened Ownership

  // What a capability may write.

  const TRANSITIONS := {"platform.css-transition"}
  const ANIMATIONS := {"platform.css-animation", "platform.waapi-animation"}
  const LAYOUTS := {"motion.layout", "motion.shared-layout", "motion.flip"}
  const SCROLLS := {"scroll.triggered-animation", "scroll.pinned-sequence"}
  const INTERACTIONS := {"interaction.drag", "interaction.gesture"}
  const MOTIONS := {"motion.presence", "motion.spring"}
  const DRAWINGS := {"motion.timeline", "motion.svg"}

  /** The capabilities with a domain of their own. */
  const LISTED := TRANSITIONS + ANIMATIONS + LAYOUTS + SCROLLS + INTERACTIONS + MOTIONS + DRAWINGS

  /** The listed capabilities that may write a property. */
  function WritersOf(property: string): set<string> {
    match property
    case "background" => TRANSITIONS
    case "border" => TRANSITIONS
    case "color" => TRANSITIONS
    case "filter" => TRANSITIONS + ANIMATIONS + {"motion.timeline"}
    case "layout" => ANIMATIONS + LAYOUTS + {"motion.timeline"}
    case "timing" => {"motion.spring"}
    case "gesture" => {"interaction.gesture"}
    case "svg" => {"motion.svg"}
    case "scroll" => SCROLLS
    case "opacity" => TRANSITIONS + ANIMATIONS + SCROLLS + {"motion.presence", "motion.timeline", "motion.svg"}
    case "transform" => TRANSITIONS + ANIMATIONS + LAYOUTS + SCROLLS + INTERACTIONS + DRAWINGS + {"motion.presence"}
    case _ => {}
  }

  /** The domain of a listed capability, and the property it has if none is named. */
  ghost predicate Belongs(id: string, domain: string, property: string) {
    match domain
    case "dom-style" => id in TRANSITIONS && property == "css-transition"
    case "dom-animation" =>
      || (id == "platform.css-animation" && property == "css-animation")
      || (id == "platform.waapi-animation" && property == "waapi-animation")
    case "layout" => id in LAYOUTS && property == "layout"
    case "scroll-trigger" => id in SCROLLS && property == "scroll"
    case "presence" => id == "motion.presence" && property == "presence"
    case "timing" => id == "motion.spring" && property == "timing"
    case "timeline" => id == "motion.timeline" && property == "timeline"
    case "svg-animation" => id == "motion.svg" && property == "svg"
    case "gesture" =>
      (id == "interaction.drag" && property == "drag") || (id == "interaction.gesture" && property == "gesture")
    case _ => false
  }

  /** The templates, read by domain and by property; a capability that is not listed writes itself alone. */
  lemma TemplatesAre(id: string)
    ensures id !in LISTED ==> TemplateFor(id) == Template("capability", id, {id})
    ensures id in LISTED ==>
              var t := TemplateFor(id);
              && Belongs(id, t.domain, t.property)
              && forall p :: p in t.possibleProperties <==> id in WritersOf(p)
  {
    if id in LISTED {
      hide TemplateFor, Belongs, WritersOf;
      if id in TRANSITIONS + ANIMATIONS {
        PlatformIs(id);
      } else if id in LAYOUTS {
        LayoutsAre(id);
      } else if id in SCROLLS {
        ScrollsAre(id);
      } else if id in INTERACTIONS {
        InteractionsAre(id);
      } else if id in DRAWINGS {
        DrawingsAre(id);
      } else {
        MotionsAre(id);
      }
    }
  }

  lemma PlatformIs(id: string)
    requires id in TRANSITIONS + ANIMATIONS
    ensures var t := TemplateFor(id);
            && Belongs(id, t.domain, t.property)
            && forall p :: p in t.possibleProperties <==> id in WritersOf(p)
  {
  }

  lemma LayoutsAre(id: string)
    requires id in LAYOUTS
    ensures var t := TemplateFor(id);
            && Belongs(id, t.domain, t.property)
            && forall p :: p in t.possibleProperties <==> id in WritersOf(p)
  {
  }

  lemma ScrollsAre(id: string)
    requires id in SCROLLS
    ensures var t := TemplateFor(id);
            && Belongs(id, t.domain, t.property)
            && forall p :: p in t.possibleProperties <==> id in WritersOf(p)
  {
  }

  lemma InteractionsAre(id: string)
    requires id in INTERACTIONS
    ensures var t := TemplateFor(id);
            && Belongs(id, t.domain, t.property)
            && forall p :: p in t.possibleProperties <==> id in WritersOf(p)
  {
  }

  lemma MotionsAre(id: string)
    requires id in MOTIONS
    ensures var t := TemplateFor(id);
            && Belongs(id, t.domain, t.property)
            && forall p :: p in t.possibleProperties <==> id in WritersOf(p)
  {
  }

  lemma DrawingsAre(id: string)
    requires id in DRAWINGS
    ensures var t := TemplateFor(id);
            && Belongs(id, t.domain, t.property)
            && forall p :: p in t.possibleProperties <==> id in WritersOf(p)
  {
  }

  // What a request says of a capability.

  /** White space, by code point. */
  lemma SpacesAre(c: char)
    ensures IsSpace(c) <==>
            var n := c as int;
            || 9 <= n <= 13 || n in {32, 160, 5760, 8239, 8287, 12288, 65279} || 8192 <= n <= 8202 || 8232 <= n <= 8233
  {
  }

  /** t is s from i to j, with only white space around it. */
  ghost predicate Cut(s: string, t: string, i: int, j: int) {
    && 0 <= i <= j <= |s| && t == s[i..j]
    && (forall k :: 0 <= k < i ==> IsSpace(s[k])) && (forall k :: j <= k < |s| ==> IsSpace(s[k]))
  }

  /** Neither the first nor the last character of t is white space. */
  ghost predicate Tight(t: string) {
    t != "" ==> !IsSpace(t[0]) && !IsSpace(t[|t| - 1])
  }

  /** t is s without the white space around it. */
  ghost predicate Trims(s: string, t: string) {
    Tight(t) && exists i, j :: Cut(s, t, i, j)
  }

  lemma CutFirst(s: string, t: string, i: int, j: int)
    requires s != "" && IsSpace(s[0]) && Cut(s[1..], t, i, j)
    ensures Cut(s, t, i + 1, j + 1)
  {
    hide IsSpace;
    var rest := s[1..];
    forall k | 1 <= k < |s| ensures s[k] == rest[k - 1] {
    }
  }

  lemma CutLast(s: string, t: string, i: int, j: int)
    requires s != "" && IsSpace(s[|s| - 1]) && Cut(s[..|s| - 1], t, i, j)
    ensures Cut(s, t, i, j)
  {
    hide IsSpace;
    var init := s[..|s| - 1];
    forall k | 0 <= k < |init| ensures s[k] == init[k] {
    }
  }

  lemma {:induction false} TrimCuts(s: string) returns (i: int, j: int)
    ensures Cut(s, Trim(s), i, j)
    decreases |s|
  {
    hide IsSpace;
    if s != "" && IsSpace(s[0]) {
      i, j := TrimCuts(s[1..]);
      CutFirst(s, Trim(s), i, j);
      i, j := i + 1, j + 1;
    } else if s != "" && IsSpace(s[|s| - 1]) {
      i, j := TrimCuts(s[..|s| - 1]);
      CutLast(s, Trim(s), i, j);
    } else {
      i, j := 0, |s|;
    }
  }

  lemma {:induction false} TrimIsTight(s: string)
    ensures Tight(Trim(s))
    decreases |s|
  {
    hide IsSpace;
    if s != "" && IsSpace(s[0]) {
      TrimIsTight(s[1..]);
    } else if s != "" && IsSpace(s[|s| - 1]) {
      TrimIsTight(s[..|s| - 1]);
    }
  }

  lemma CutAtMost(s: string, t: string, u: string, i: int, j: int, m: int, n: int)
    requires Cut(s, t, i, j) && Tight(t) && Cut(s, u, m, n) && t != ""
    ensures m <= i && j <= n
  {
    hide IsSpace;
    assert t[0] == s[i] && t[|t| - 1] == s[j - 1];
  }

  lemma TrimsExactly(s: string, t: string)
    ensures Trims(s, t) <==> t == Trim(s)
  {
    TrimIsTight(s);
    var m, n := TrimCuts(s);
    hide Trim, Tight, Cut;
    if Trims(s, t) {
      var i, j :| Cut(s, t, i, j);
      if t != "" { CutAtMost(s, t, Trim(s), i, j, m, n); }
      if Trim(s) != "" { CutAtMost(s, Trim(s), t, m, n, i, j); }
      CutsAgree(s, t, Trim(s), i, j, m, n);
    }
  }

  lemma CutsAgree(s: string, t: string, u: string, i: int, j: int, m: int, n: int)
    requires Cut(s, t, i, j) && Cut(s, u, m, n)
    requires t != "" ==> m <= i && j <= n
    requires u != "" ==> i <= m && n <= j
    ensures t == u
  {
    hide IsSpace;
    assert |t| == j - i && |u| == n - m;
  }

  /** The first capability with this id has a text under this key, not blank, and this is it. */
  ghost predicate Says(capabilities: seq<Capability>, id: string, key: string, value: string) {
    value != "" && exists i :: First(capabilities, id, i) && SaysOf(capabilities[i], key, value)
  }

  ghost predicate SaysOf(c: Capability, key: string, value: string) {
    c.quality.Some? && key in c.quality.value && c.quality.value[key].Text? && Trims(c.quality.value[key].text, value)
  }

  ghost predicate First(capabilities: seq<Capability>, id: string, i: int) {
    0 <= i < |capabilities| && capabilities[i].id == id && forall k :: 0 <= k < i ==> capabilities[k].id != id
  }

  lemma {:induction false} FindsFirst(capabilities: seq<Capability>, id: string)
    ensures Find(capabilities, id).None? ==> forall i :: !First(capabilities, id, i)
    ensures forall i :: First(capabilities, id, i) ==> Find(capabilities, id) == Some(capabilities[i])
    ensures Find(capabilities, id).Some? ==> exists i :: First(capabilities, id, i)
  {
    if capabilities != [] {
      var rest := capabilities[1..];
      FindsFirst(rest, id);
      if capabilities[0].id == id {
        assert First(capabilities, id, 0);
      } else {
        forall i | First(capabilities, id, i) ensures Find(capabilities, id) == Some(capabilities[i]) {
          forall k | 0 <= k < i - 1 ensures rest[k].id != id { assert rest[k] == capabilities[k + 1]; }
          assert First(rest, id, i - 1);
        }
        if Find(rest, id).Some? {
          var i :| First(rest, id, i);
          forall k | 0 <= k < i + 1 ensures capabilities[k].id != id {
            if k > 0 { assert capabilities[k] == rest[k - 1]; }
          }
          assert First(capabilities, id, i + 1);
        }
      }
    }
  }

  lemma SaysExactly(capabilities: seq<Capability>, id: string, key: string)
    ensures forall v :: Says(capabilities, id, key, v) <==> StringQuality(capabilities, id, key) == Some(v)
  {
    FindsFirst(capabilities, id);
    var found := Find(capabilities, id);
    hide Find, Trim, Trims;
    if found.Some? && found.value.quality.Some? && key in found.value.quality.value
       && found.value.quality.value[key].Text?
    {
      var text := found.value.quality.value[key].text;
      forall v ensures SaysOf(found.value, key, v) <==> v == Trim(text) {
        TrimsExactly(text, v);
      }
    }
    forall v ensures Says(capabilities, id, key, v) <==> StringQuality(capabilities, id, key) == Some(v) {
      if StringQuality(capabilities, id, key) == Some(v) {
        var i :| First(capabilities, id, i);
        assert SaysOf(capabilities[i], key, v);
      }
      if Says(capabilities, id, key, v) {
        var i :| First(capabilities, id, i) && SaysOf(capabilities[i], key, v);
      }
    }
  }

  // Owners.

  /** What an assignment owns: what the request says of its capability, and what the template says otherwise. */
  ghost predicate Owns(capabilities: seq<Capability>, a: Assignment, o: Owned) {
    && o.providerId == a.providerId && o.domain == TemplateFor(a.capabilityId).domain
    && (o.explicitScope <==> exists v :: Says(capabilities, a.capabilityId, "scope", v))
    && (if o.explicitScope then Says(capabilities, a.capabilityId, "scope", o.scope)
        else o.scope == "capability:" + a.capabilityId)
    && (o.explicitProperty <==> exists v :: Says(capabilities, a.capabilityId, "property", v))
    && (if o.explicitProperty then Says(capabilities, a.capabilityId, "property", o.property)
        else o.property == TemplateFor(a.capabilityId).property)
    && o.possible == if o.explicitProperty then {o.property} else TemplateFor(a.capabilityId).possibleProperties
  }

  lemma OwnsExactly(capabilities: seq<Capability>, a: Assignment, o: Owned)
    ensures Owns(capabilities, a, o) <==> o == Resolved(capabilities, a)
  {
    SaysExactly(capabilities, a.capabilityId, "scope");
    SaysExactly(capabilities, a.capabilityId, "property");
    hide TemplateFor, StringQuality, Says;
  }

  // What is wrong.

  /** Two providers claim one property of one scope. */
  ghost predicate Claims(l: Owned, r: Owned) {
    && l.providerId != r.providerId && l.scope == r.scope
    && l.explicitProperty && r.explicitProperty && l.property == r.property
  }

  /** Two providers of one named scope may write one property, and at least one of them does not name its own. */
  ghost predicate MayClash(l: Owned, r: Owned) {
    && l.providerId != r.providerId && l.scope == r.scope && l.explicitScope && r.explicitScope
    && !(l.explicitProperty && r.explicitProperty)
    && exists p :: p in l.possible && p in r.possible
  }

  lemma BetweenIs(l: Owned, r: Owned)
    ensures Between(l, r) == Some(Conflict) <==> Claims(l, r)
    ensures Between(l, r) == Some(Ambiguous) <==> MayClash(l, r)
  {
    if l.possible * r.possible != {} {
      var p :| p in l.possible * r.possible;
      assert p in l.possible && p in r.possible;
    } else {
      forall p | p in l.possible ensures p !in r.possible {
        assert p !in l.possible * r.possible;
      }
    }
  }

  /** A route is blocked by a claim, and needs input for a possible clash only. */
  lemma StatusExactly(capabilities: seq<Capability>, assignments: seq<Assignment>)
    ensures var owned := AllResolved(capabilities, assignments);
            && |owned| == |assignments|
            && (forall i :: 0 <= i < |owned| ==> Owns(capabilities, assignments[i], owned[i]))
            && (StatusOf(capabilities, assignments) == Blocked <==>
                  exists i, j :: 0 <= i < j < |owned| && Claims(owned[i], owned[j]))
            && (StatusOf(capabilities, assignments) == NeedsInput <==>
                  && (forall i, j :: 0 <= i < j < |owned| ==> !Claims(owned[i], owned[j]))
                  && exists i, j :: 0 <= i < j < |owned| && MayClash(owned[i], owned[j]))
  {
    var owned := AllResolved(capabilities, assignments);
    forall i | 0 <= i < |owned| ensures Owns(capabilities, assignments[i], owned[i]) {
      OwnsExactly(capabilities, assignments[i], owned[i]);
    }
    forall i, j | 0 <= i < j < |owned|
      ensures Between(owned[i], owned[j]) == Some(Conflict) <==> Claims(owned[i], owned[j])
      ensures Between(owned[i], owned[j]) == Some(Ambiguous) <==> MayClash(owned[i], owned[j])
    {
      BetweenIs(owned[i], owned[j]);
    }
    hide Owns, Resolved, AllResolved, Between, Claims, MayClash;
  }

  /** c reports what is wrong between the i-th and the j-th owner. */
  ghost predicate ReportsPair(owned: seq<Owned>, i: int, j: int, c: Constraint) {
    && 0 <= i < j < |owned|
    && c.left == owned[i].providerId && c.right == owned[j].providerId
    && c.scope == owned[i].scope && c.property == owned[i].property
    && (if c.kind == Conflict then Claims(owned[i], owned[j]) else MayClash(owned[i], owned[j]))
  }

  lemma ReportsExactly(owned: seq<Owned>, c: Constraint)
    ensures c in ConstraintsFrom(owned, 0) <==> exists i, j :: ReportsPair(owned, i, j, c)
  {
    ConstraintsFind(owned, 0, c);
    forall i, j | 0 <= i < j < |owned| ensures Constrains(owned, i, j, c) <==> ReportsPair(owned, i, j, c) {
      BetweenIs(owned[i], owned[j]);
      hide Between, Claims, MayClash;
    }
    hide Constrains, ConstraintsFrom, Claims, MayClash;
    if i, j :| ReportsPair(owned, i, j, c) {
      assert Constrains(owned, i, j, c);
    }
  }

  /** Input is asked for a scope exactly if a possible clash of it is reported. */
  lemma AsksExactly(owned: seq<Owned>, scope: string)
    ensures scope in ScopesToSplit(ConstraintsFrom(owned, 0)) <==>
            exists i, j :: 0 <= i < j < |owned| && owned[i].scope == scope && MayClash(owned[i], owned[j])
  {
    var constraints := ConstraintsFrom(owned, 0);
    forall c ensures c in constraints <==> exists i, j :: ReportsPair(owned, i, j, c) {
      ReportsExactly(owned, c);
    }
    hide ConstraintsFrom, MayClash, Claims;
    if i, j :| 0 <= i < j < |owned| && owned[i].scope == scope && MayClash(owned[i], owned[j]) {
      var c := Constraint(Ambiguous, owned[i].providerId, owned[j].providerId, scope, owned[i].property);
      assert ReportsPair(owned, i, j, c);
      assert c in constraints;
    }
  }

  // The order of what is reported.

  /** Two lists of one length agree, or differ first where the one comes before the other. */
  ghost predicate Precedes(locale: Order, s: seq<string>, t: seq<string>) {
    |s| == |t| && (s == t || exists k :: 0 <= k < |s| && s[..k] == t[..k] && s[k] != t[k] && locale(s[k], t[k]))
  }

  lemma {:induction false} BeforePrecedes(locale: Order, s: seq<string>, t: seq<string>)
    requires Total(locale) && |s| == |t|
    ensures Before(locale, s, t) <==> Precedes(locale, s, t)
  {
    if s != [] {
      BeforePrecedes(locale, s[1..], t[1..]);
      if s[0] == t[0] {
        assert locale(s[0], t[0]);
        PrecedesTail(locale, s, t);
      } else {
        assert s[..0] == t[..0];
        forall k | 0 < k < |s| ensures s[..k] != t[..k] {
          assert s[..k][0] == s[0] && t[..k][0] == t[0];
        }
      }
    }
  }

  lemma PrecedesTail(locale: Order, s: seq<string>, t: seq<string>)
    requires |s| == |t| != 0 && s[0] == t[0]
    ensures Precedes(locale, s, t) <==> Precedes(locale, s[1..], t[1..])
  {
    assert s == [s[0]] + s[1..] && t == [t[0]] + t[1..];
    if k :| 0 <= k < |s| && s[..k] == t[..k] && s[k] != t[k] && locale(s[k], t[k]) {
      assert s[1..][..k - 1] == s[..k][1..] && t[1..][..k - 1] == t[..k][1..];
      assert s[1..][k - 1] == s[k] && t[1..][k - 1] == t[k];
    }
    if k :| 0 <= k < |s| - 1 && s[1..][..k] == t[1..][..k] && s[1..][k] != t[1..][k]
            && locale(s[1..][k], t[1..][k])
    {
      assert s[..k + 1] == [s[0]] + s[1..][..k] && t[..k + 1] == [t[0]] + t[1..][..k];
      assert s[k + 1] == s[1..][k] && t[k + 1] == t[1..][k];
    }
  }

  lemma PrecedesIsTotal(locale: Order, s: seq<string>, t: seq<string>)
    requires Total(locale) && |s| == |t|
    ensures Precedes(locale, s, t) || Precedes(locale, t, s)
  {
    if s != t {
      var k := FirstDifference(s, t);
    }
  }

  lemma {:induction false} FirstDifference(s: seq<string>, t: seq<string>) returns (k: nat)
    requires |s| == |t| && s != t
    ensures k < |s| && s[..k] == t[..k] && s[k] != t[k]
  {
    k := 0;
    while s[k] == t[k]
      invariant k < |s| && s[..k] == t[..k]
      decreases |s| - k
    {
      assert s[..k + 1] == s[..k] + [s[k]] && t[..k + 1] == t[..k] + [t[k]];
      assert s[..|s|] == s && t[..|t|] == t;
      k := k + 1;
    }
  }

  lemma PrecedesIsTransitive(locale: Order, s: seq<string>, t: seq<string>, u: seq<string>)
    requires Total(locale) && Precedes(locale, s, t) && Precedes(locale, t, u)
    ensures Precedes(locale, s, u)
  {
    if s != t && t != u {
      var k :| 0 <= k < |s| && s[..k] == t[..k] && s[k] != t[k] && locale(s[k], t[k]);
      var l :| 0 <= l < |t| && t[..l] == u[..l] && t[l] != u[l] && locale(t[l], u[l]);
      var m := if k < l then k else l;
      assert s[..m] == s[..k][..m] && t[..m] == t[..k][..m] == t[..l][..m] && u[..m] == u[..l][..m];
      if k < l {
        assert t[k] == t[..l][k] == u[..l][k] == u[k];
      } else if l < k {
        assert s[l] == s[..k][l] == t[..k][l] == t[l];
      }
      assert s[m] != u[m] && locale(s[m], u[m]);
    }
  }

  /** What ownership is sorted by. */
  function OwnerKey(o: Owned): seq<string> {
    [o.providerId, o.scope, o.domain, o.property]
  }

  /** What constraints are sorted by: their code and their message. */
  function ConstraintKey(c: Constraint): seq<string> {
    var both := c.left + " and " + c.right;
    if c.kind == Conflict then
      ["OWNERSHIP_CONFLICT",
       both + " both require exclusive ownership of " + c.scope + "/" + c.property + "."]
    else
      ["OWNERSHIP_AMBIGUOUS",
       both + " may overlap on scope " + c.scope + "; explicit properties are required."]
  }

  lemma OwnersGoBy(locale: Order, l: Owned, r: Owned)
    requires Total(locale)
    ensures ByOwner(locale)(l, r) <==> Precedes(locale, OwnerKey(l), OwnerKey(r))
  {
    BeforePrecedes(locale, OwnerKey(l), OwnerKey(r));
    hide Before, Precedes;
  }

  lemma KeyIs(c: Constraint)
    ensures [Code(c.kind), Message(c)] == ConstraintKey(c)
  {
  }

  lemma ConstraintsGoBy(locale: Order, c: Constraint, d: Constraint)
    requires Total(locale)
    ensures ByMessage(locale)(c, d) <==> Precedes(locale, ConstraintKey(c), ConstraintKey(d))
  {
    BeforePrecedes(locale, ConstraintKey(c), ConstraintKey(d));
    KeyIs(c);
    KeyIs(d);
    hide Before, Precedes, ConstraintKey, Code, Message;
  }

  /** Sorting by an order that goes by keys puts the keys in order. */
  lemma KeysInOrder<T(!new)>(locale: Order, leq: (T, T) -> bool, key: T -> seq<string>, n: nat, s: seq<T>)
    requires Total(locale) && forall x :: |key(x)| == n
    requires forall x, y :: leq(x, y) <==> Precedes(locale, key(x), key(y))
    ensures multiset(Sort(leq, s)) == multiset(s)
    ensures forall i, j :: 0 <= i < j < |Sort(leq, s)| ==> Precedes(locale, key(Sort(leq, s)[i]), key(Sort(leq, s)[j]))
  {
    hide Precedes, Total, Sort;
    assert TotalPreorder(leq) by {
      forall x, y ensures leq(x, y) || leq(y, x) {
        PrecedesIsTotal(locale, key(x), key(y));
      }
      forall x, y, z | leq(x, y) && leq(y, z) ensures leq(x, z) {
        PrecedesIsTransitive(locale, key(x), key(y), key(z));
      }
    }
    SortPermutes(leq, s);
    SortSorts(leq, s);
  }

  /** Owners are reported by provider, scope, domain and property, and constraints by code and message. */
  lemma ReportsAreOrdered(locale: Order, owned: seq<Owned>)
    requires Total(locale)
    ensures var owners := Sort(ByOwner(locale), owned);
            && multiset(owners) == multiset(owned)
            && forall i, j :: 0 <= i < j < |owners| ==> Precedes(locale, OwnerKey(owners[i]), OwnerKey(owners[j]))
    ensures var reports := Sort(ByMessage(locale), ConstraintsFrom(owned, 0));
            && multiset(reports) == multiset(ConstraintsFrom(owned, 0))
            && forall i, j :: 0 <= i < j < |reports| ==>
                                Precedes(locale, ConstraintKey(reports[i]), ConstraintKey(reports[j]))
  {
    hide Sort, Precedes, ConstraintsFrom, Total;
    forall l, r ensures ByOwner(locale)(l, r) <==> Precedes(locale, OwnerKey(l), OwnerKey(r)) {
      OwnersGoBy(locale, l, r);
    }
    forall c, d ensures ByMessage(locale)(c, d) <==> Precedes(locale, ConstraintKey(c), ConstraintKey(d)) {
      ConstraintsGoBy(locale, c, d);
    }
    KeysInOrder(locale, ByOwner(locale), OwnerKey, 4, owned);
    KeysInOrder(locale, ByMessage(locale), ConstraintKey, 2, ConstraintsFrom(owned, 0));
  }
}
