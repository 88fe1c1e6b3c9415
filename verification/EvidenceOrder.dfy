/**
 Ingestion does not depend on the order of checks, results, diagnostics or
 artifacts: neither whether it succeeds nor the envelope, digest included.
 */
module EvidenceOrder {
  import opened Base
  import opened Sorting
  import opened Evidence
  import opened EvidenceResults

  /** A result without the order of its diagnostics and artifacts. */
  datatype Contents = Contents(rest: RunnerResult, diagnostics: multiset<Diagnostic>, artifacts: multiset<Artifact>)

  function Unordered(r: RunnerResult): Contents {
    Contents(r.(diagnostics := [], artifacts := []), multiset(r.diagnostics), multiset(r.artifacts))
  }

  function AllUnordered(results: seq<RunnerResult>): seq<Contents> {
    Mapped((r: RunnerResult) => Unordered(r), results)
  }

  /** The same input, up to the order of checks, of results, and of each result's diagnostics and artifacts. */
  ghost predicate Reordered(a: Input, b: Input) {
    && b == a.(checks := b.checks, results := b.results)
    && multiset(a.checks) == multiset(b.checks)
    && multiset(AllUnordered(a.results)) == multiset(AllUnordered(b.results))
  }

  lemma ResultCounterpart(a: Input, b: Input, r: RunnerResult)
    requires Reordered(a, b) && r in a.results
    ensures exists s :: s in b.results && Unordered(s) == Unordered(r)
  {
    hide Unordered;
    var i :| 0 <= i < |a.results| && a.results[i] == r;
    assert AllUnordered(a.results)[i] == Unordered(r);
    assert Unordered(r) in multiset(AllUnordered(b.results));
    var j :| 0 <= j < |b.results| && AllUnordered(b.results)[j] == Unordered(r);
    assert b.results[j] in b.results;
  }

  lemma PlanIdsReordered(a: Input, b: Input)
    requires Reordered(a, b) && DistinctIds(PlanIds(a.checks))
    ensures DistinctIds(PlanIds(b.checks))
  {
    var key := (p: PlannedCheck) => p.id;
    assert forall i :: 0 <= i < |a.checks| ==> key(a.checks[i]) == PlanIds(a.checks)[i];
    assert DistinctBy(key, a.checks);
    DistinctByPermutation(key, a.checks, b.checks);
    assert forall i :: 0 <= i < |b.checks| ==> key(b.checks[i]) == PlanIds(b.checks)[i];
  }

  lemma ResultIdsReordered(a: Input, b: Input)
    requires Reordered(a, b) && DistinctIds(ResultIds(a.results))
    ensures DistinctIds(ResultIds(b.results))
  {
    var key := (c: Contents) => c.rest.checkId;
    var s, t := AllUnordered(a.results), AllUnordered(b.results);
    assert forall i :: 0 <= i < |s| ==> key(s[i]) == ResultIds(a.results)[i];
    assert DistinctBy(key, s);
    DistinctByPermutation(key, s, t);
    assert forall i :: 0 <= i < |t| ==> key(t[i]) == ResultIds(b.results)[i];
  }

  lemma AnsweredReordered(a: Input, b: Input, id: string)
    requires Reordered(a, b) && Answered(a.results, id)
    ensures Answered(b.results, id)
  {
    var i :| 0 <= i < |a.results| && a.results[i].checkId == id;
    ResultCounterpart(a, b, a.results[i]);
    var s :| s in b.results && Unordered(s) == Unordered(a.results[i]);
    assert s.checkId == id by { assert Unordered(s).rest.checkId == Unordered(a.results[i]).rest.checkId; }
    var j :| 0 <= j < |b.results| && b.results[j] == s;
  }

  lemma ArtifactsReordered(h: Hashes, a: Input, b: Input, r: RunnerResult, s: RunnerResult)
    requires Reordered(a, b) && Unordered(r) == Unordered(s) && ValidArtifacts(h, a, r)
    ensures ValidArtifacts(h, b, s)
  {
    assert multiset(r.artifacts) == multiset(s.artifacts) by {
      assert Unordered(r).artifacts == Unordered(s).artifacts;
    }
    assert r.status == s.status by { assert Unordered(r).rest.status == Unordered(s).rest.status; }
    hide Unordered, Reordered;
    forall i | 0 <= i < |s.artifacts| ensures ValidArtifact(h, a, s.artifacts[i]) {
      assert s.artifacts[i] in multiset(r.artifacts);
    }
    DistinctArtifacts(r.artifacts, s.artifacts);
    hide ValidArtifact, DistinctIds;
    assert |r.artifacts| == |multiset(r.artifacts)| == |multiset(s.artifacts)| == |s.artifacts|;
    SameContents(h, a, b) by { UnfoldReordered(a, b); }
  }

  lemma DistinctArtifacts(s: seq<Artifact>, t: seq<Artifact>)
    requires multiset(s) == multiset(t)
    requires DistinctIds(ArtifactIds(s)) && DistinctIds(ArtifactDigests(s))
    ensures DistinctIds(ArtifactIds(t)) && DistinctIds(ArtifactDigests(t))
  {
    var byId, byDigest := (x: Artifact) => x.id, (x: Artifact) => x.digest;
    assert forall i :: 0 <= i < |s| ==> byId(s[i]) == ArtifactIds(s)[i] && byDigest(s[i]) == ArtifactDigests(s)[i];
    assert DistinctBy(byId, s) && DistinctBy(byDigest, s);
    DistinctByPermutation(byId, s, t);
    DistinctByPermutation(byDigest, s, t);
    assert forall i :: 0 <= i < |t| ==> byId(t[i]) == ArtifactIds(t)[i] && byDigest(t[i]) == ArtifactDigests(t)[i];
  }

  lemma UnfoldReordered(a: Input, b: Input)
    requires Reordered(a, b)
    ensures b == a.(checks := b.checks, results := b.results)
  {
  }

  lemma SameContents(h: Hashes, a: Input, b: Input)
    requires b == a.(checks := b.checks, results := b.results)
    ensures forall x :: ValidArtifact(h, b, x) <==> ValidArtifact(h, a, x)
  {
  }

  lemma FitsReordered(h: Hashes, a: Input, b: Input, r: RunnerResult, s: RunnerResult)
    requires Reordered(a, b) && Unordered(r) == Unordered(s) && ResultFits(h, a, r)
    ensures ResultFits(h, b, s)
  {
    ArtifactsReordered(h, a, b, r, s);
    hide ValidArtifacts;
    assert Unordered(r).rest == Unordered(s).rest;
    assert r.checkId == s.checkId && r.planId == s.planId && r.planDigest == s.planDigest && r.sound == s.sound
        && r.status == s.status && r.exitCode == s.exitCode
        && r.startedAt == s.startedAt && r.completedAt == s.completedAt;
    hide Unordered;
    var i :| 0 <= i < |a.checks| && a.checks[i].id == r.checkId;
    assert a.checks[i] in multiset(b.checks);
    var j :| 0 <= j < |b.checks| && b.checks[j] == a.checks[i];
  }

  lemma AcceptableReordered(h: Hashes, a: Input, b: Input)
    requires Reordered(a, b) && Acceptable(h, a)
    ensures Acceptable(h, b)
  {
    PlanIdsReordered(a, b);
    ResultIdsReordered(a, b);
    UnfoldReordered(a, b);
    forall p | p in b.checks ensures PlannedWell(b.results, p) {
      assert p in multiset(a.checks);
      assert p in a.checks && PlannedWell(a.results, p);
      if p.status == Passed {
        AnsweredReordered(a, b, p.id);
      }
    }
    forall s | s in b.results ensures ResultFits(h, b, s) {
      BackReordered(a, b);
      ResultCounterpart(b, a, s);
      var r :| r in a.results && Unordered(r) == Unordered(s);
      FitsReordered(h, a, b, r, s);
    }
    hide Reordered, DistinctIds, PlanIds, ResultIds, Planned, ValidResult, ValidArtifacts;
  }

  lemma BackReordered(a: Input, b: Input)
    requires Reordered(a, b)
    ensures Reordered(b, a)
  {
  }

  /** One planned check comes out the same, with either order of the results. */
  lemma SameNormalCheck(h: Hashes, o: Orders, a: Input, b: Input, p: PlannedCheck)
    requires Usable(o) && Reordered(a, b) && DistinctIds(ResultIds(b.results))
    ensures NormalCheck(o, CheckOf(p, ResultFor(a.results, p.id)))
         == NormalCheck(o, CheckOf(p, ResultFor(b.results, p.id)))
  {
    ResultForFinds(a.results, p.id);
    ResultForFinds(b.results, p.id);
    BackReordered(a, b);
    if Answered(a.results, p.id) {
      AnsweredReordered(a, b, p.id);
      var r, s := ResultFor(a.results, p.id).value, ResultFor(b.results, p.id).value;
      ResultCounterpart(a, b, r);
      var t :| t in b.results && Unordered(t) == Unordered(r);
      assert t.checkId == p.id by { assert Unordered(t).rest.checkId == Unordered(r).rest.checkId; }
      OneResult(b.results, s, t);
      SameNormalResult(o, p, r, s);
    } else if Answered(b.results, p.id) {
      AnsweredReordered(b, a, p.id);
    }
  }

  lemma OneResult(results: seq<RunnerResult>, s: RunnerResult, t: RunnerResult)
    requires DistinctIds(ResultIds(results)) && s in results && t in results && s.checkId == t.checkId
    ensures s == t
  {
    var i :| 0 <= i < |results| && results[i] == s;
    var j :| 0 <= j < |results| && results[j] == t;
    assert ResultIds(results)[i] == ResultIds(results)[j];
  }

  lemma SameNormalResult(o: Orders, p: PlannedCheck, r: RunnerResult, s: RunnerResult)
    requires Usable(o) && Unordered(r) == Unordered(s)
    ensures NormalCheck(o, CheckOf(p, Some(r))) == NormalCheck(o, CheckOf(p, Some(s)))
  {
    assert Unordered(r).diagnostics == Unordered(s).diagnostics && Unordered(r).artifacts == Unordered(s).artifacts
        && Unordered(r).rest.status == Unordered(s).rest.status;
    var digest := (x: Artifact) => x.digest;
    MappedPermutes(digest, r.artifacts, s.artifacts);
    assert Mapped(digest, r.artifacts) == ArtifactDigests(r.artifacts);
    assert Mapped(digest, s.artifacts) == ArtifactDigests(s.artifacts);
    ByCodeIsTotal(o);
    SortIgnoresOrder(ByCode(o), r.diagnostics, s.diagnostics);
    SortIgnoresOrder(o.units, ArtifactDigests(r.artifacts), ArtifactDigests(s.artifacts));
    hide Sort;
  }

  lemma ChecksIn(o: Orders, a: Input, c: Check)
    ensures SomeNormal(o, ChecksOf(a, |a.checks|), c) <==>
            exists p :: p in a.checks && c == NormalCheck(o, CheckOf(p, ResultFor(a.results, p.id)))
  {
    hide NormalCheck, CheckOf, ResultFor;
    var checks := ChecksOf(a, |a.checks|);
    assert forall i :: 0 <= i < |a.checks| ==> checks[i] == CheckOf(a.checks[i], ResultFor(a.results, a.checks[i].id));
    if p :| p in a.checks && c == NormalCheck(o, CheckOf(p, ResultFor(a.results, p.id))) {
      var i :| 0 <= i < |a.checks| && a.checks[i] == p;
      assert c == NormalCheck(o, checks[i]);
    }
    if i :| 0 <= i < |checks| && c == NormalCheck(o, checks[i]) {
      assert a.checks[i] in a.checks;
    }
  }

  lemma SameChecks(h: Hashes, o: Orders, a: Input, b: Input)
    requires Usable(o) && Reordered(a, b) && Acceptable(h, a) && Acceptable(h, b)
    ensures NormalizeChecks(o, ChecksOf(a, |a.checks|)) == NormalizeChecks(o, ChecksOf(b, |b.checks|))
  {
    var s, t := ChecksOf(a, |a.checks|), ChecksOf(b, |b.checks|);
    ChecksCount(a);
    ChecksCount(b);
    NormalMembers(o, s);
    NormalMembers(o, t);
    NormalStrict(o, s);
    NormalStrict(o, t);
    forall p ensures p in a.checks <==> p in b.checks {
      assert p in multiset(a.checks) <==> p in multiset(b.checks);
    }
    assert DistinctIds(ResultIds(b.results));
    hide NormalizeChecks, ChecksOf, NormalCheck, CheckOf, ResultFor, Acceptable, Reordered, Sorted, StrictlySorted,
      SomeNormal;
    forall p: PlannedCheck ensures NormalCheck(o, CheckOf(p, ResultFor(a.results, p.id)))
                                == NormalCheck(o, CheckOf(p, ResultFor(b.results, p.id)))
    {
      SameNormalCheck(h, o, a, b, p);
    }
    forall c ensures c in NormalizeChecks(o, s) <==> c in NormalizeChecks(o, t) {
      ChecksIn(o, a, c);
      ChecksIn(o, b, c);
    }
    StrictlySortedUnique(ById(o), NormalizeChecks(o, s), NormalizeChecks(o, t));
  }

  /**
   Ingestion accepts the same and returns the same envelope, digest included, whatever the order of the planned checks,
   of the results, and of the diagnostics and artifacts in each result.
   */
  lemma OrderDoesNotMatter(h: Hashes, o: Orders, a: Input, b: Input)
    requires Usable(o) && Reordered(a, b)
    ensures Ingested(h, o, a).Ok? <==> Ingested(h, o, b).Ok?
    ensures Ingested(h, o, a).Ok? ==> Ingested(h, o, a) == Ingested(h, o, b)
  {
    IngestedIffAcceptable(h, o, a);
    IngestedIffAcceptable(h, o, b);
    BackReordered(a, b);
    UnfoldReordered(a, b);
    hide Acceptable, Reordered, IngestFailure, Usable;
    if Acceptable(h, a) {
      AcceptableReordered(h, a, b);
      SameChecks(h, o, a, b);
    } else if Acceptable(h, b) {
      AcceptableReordered(h, b, a);
    }
    hide NormalizeChecks, ChecksOf;
  }
}
