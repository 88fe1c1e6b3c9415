/** What ingested and verified evidence guarantees. */
module EvidenceResults {
  import opened Base
  import opened Sorting
  import opened Evidence

  ghost predicate Usable(o: Orders) {
    Total(o.locale) && Total(o.units)
  }

  // When results are accepted.

  ghost predicate Acceptable(h: Hashes, input: Input) {
    && input.boundPlanId == input.subject.executionPlanId && input.boundPlanDigest == input.subject.executionPlanDigest
    && DistinctIds(PlanIds(input.checks))
    && DistinctIds(ResultIds(input.results))
    && (forall p :: p in input.checks ==> PlannedWell(input.results, p))
    && (forall r :: r in input.results ==>
          Planned(input, r.checkId) && ValidResult(input, r) && ValidArtifacts(h, input, r))
  }

  /** A required check is not declared unnecessary, and a check passes only by a result. */
  predicate PlannedWell(results: seq<RunnerResult>, p: PlannedCheck) {
    !(p.required && p.status == NotRequired) && (p.status == Passed ==> Answered(results, p.id))
  }

  lemma {:induction false} RequiredMeans(input: Input, n: nat)
    requires n <= |input.checks|
    ensures RequiredFrom(input, n).None? <==>
            forall i :: n <= i < |input.checks| ==> !(input.checks[i].required && input.checks[i].status == NotRequired)
    decreases |input.checks| - n
  {
    if n < |input.checks| {
      RequiredMeans(input, n + 1);
    }
  }

  lemma {:induction false} FabricatedMeans(input: Input, n: nat)
    requires n <= |input.checks|
    ensures FabricatedFrom(input, n).None? <==>
            forall i :: n <= i < |input.checks| ==> !Fabricated(input, input.checks[i])
    decreases |input.checks| - n
  {
    hide Fabricated;
    if n < |input.checks| {
      FabricatedMeans(input, n + 1);
    }
  }

  lemma {:induction false} ResultsMean(h: Hashes, input: Input, n: nat)
    requires n <= |input.results|
    ensures ResultsError(h, input, n).None? <==>
            forall i :: n <= i < |input.results| ==> ResultError(h, input, i).None?
    decreases |input.results| - n
  {
    hide ResultError;
    if n < |input.results| {
      ResultsMean(h, input, n + 1);
    }
  }

  lemma ResultsDistinct(results: seq<RunnerResult>)
    ensures DistinctIds(ResultIds(results)) <==>
            forall i :: 0 <= i < |results| ==> !Answered(results[..i], results[i].checkId)
  {
    if DistinctIds(ResultIds(results)) {
      forall i | 0 <= i < |results| ensures !Answered(results[..i], results[i].checkId) {
        assert forall j :: 0 <= j < i ==>
            results[j].checkId == ResultIds(results)[j] && ResultIds(results)[j] != ResultIds(results)[i];
      }
    } else {
      var i, j :| 0 <= i < j < |results| && ResultIds(results)[i] == ResultIds(results)[j];
      assert results[..j][i].checkId == results[j].checkId;
      assert Answered(results[..j], results[j].checkId);
    }
  }

  ghost predicate ResultFits(h: Hashes, input: Input, r: RunnerResult) {
    Planned(input, r.checkId) && ValidResult(input, r) && ValidArtifacts(h, input, r)
  }

  lemma ResultErrorMeans(h: Hashes, input: Input)
    ensures ResultsError(h, input, 0).None? <==>
            DistinctIds(ResultIds(input.results)) && forall r :: r in input.results ==> ResultFits(h, input, r)
  {
    ResultsMean(h, input, 0);
    ResultsDistinct(input.results);
    hide ResultsError, Answered, DistinctIds, ResultIds;
    forall i | 0 <= i < |input.results|
      ensures ResultError(h, input, i).None? <==>
              !Answered(input.results[..i], input.results[i].checkId) && ResultFits(h, input, input.results[i])
    {
    }
    hide ResultError, ResultFits;
  }

  /**
   Results are ingested if and only if the verification plan is bound to the execution plan, names no check twice and
   declares no required check unnecessary, every result answers one planned check of its own, validly and with valid
   artifacts, and no check passes without a result.
   */
  lemma IngestedIffAcceptable(h: Hashes, o: Orders, input: Input)
    ensures Ingested(h, o, input).Ok? <==> Acceptable(h, input)
  {
    RequiredMeans(input, 0);
    FabricatedMeans(input, 0);
    ResultErrorMeans(h, input);
    hide RequiredFrom, FabricatedFrom, ResultsError, DistinctIds, PlanIds, ResultIds, Planned, ValidResult,
      ValidArtifacts, EnvelopeOf;
    forall i | 0 <= i < |input.checks|
      ensures PlannedWell(input.results, input.checks[i]) <==>
              && !(input.checks[i].required && input.checks[i].status == NotRequired)
              && !Fabricated(input, input.checks[i])
    {
      ResultForFinds(input.results, input.checks[i].id);
    }
    hide PlannedWell, Fabricated, Answered;
    assert (forall p :: p in input.checks ==> PlannedWell(input.results, p)) <==>
           forall i :: 0 <= i < |input.checks| ==> PlannedWell(input.results, input.checks[i]);
  }

  // Normal checks.

  lemma ByCodeIsTotal(o: Orders)
    requires Usable(o)
    ensures TotalPreorder(ByCode(o)) && Antisymmetric(ByCode(o))
  {
    assert forall c, d :: ByCode(o)(c, d) ==
                          if c.code == d.code then o.locale(c.message, d.message) else o.locale(c.code, d.code);
  }

  lemma NormalCheckTwice(o: Orders, c: Check)
    requires Usable(o)
    ensures NormalCheck(o, NormalCheck(o, c)) == NormalCheck(o, c)
  {
    ByCodeIsTotal(o);
    SortSorts(ByCode(o), c.diagnostics);
    SortSorts(o.units, c.artifacts);
    SortedIsFixed(ByCode(o), Sort(ByCode(o), c.diagnostics));
    SortedIsFixed(o.units, Sort(o.units, c.artifacts));
  }

  lemma ByIdIsPreorder(o: Orders)
    requires Usable(o)
    ensures TotalPreorder(ById(o))
  {
    assert forall c, d :: ById(o)(c, d) == o.locale(c.id, d.id);
  }

  ghost predicate SomeNormal(o: Orders, checks: seq<Check>, c: Check) {
    exists i :: 0 <= i < |checks| && c == NormalCheck(o, checks[i])
  }

  lemma NormalMembers(o: Orders, checks: seq<Check>)
    requires Usable(o)
    ensures forall c :: c in NormalizeChecks(o, checks) <==> SomeNormal(o, checks, c)
    ensures Sorted(ById(o), NormalizeChecks(o, checks))
  {
    ByIdIsPreorder(o);
    SortMembers(ById(o), NormalEach(o, checks));
    SortSorts(ById(o), NormalEach(o, checks));
    hide Sort, NormalCheck;
    forall c ensures c in NormalEach(o, checks) <==> SomeNormal(o, checks, c) {
      if i :| 0 <= i < |checks| && c == NormalCheck(o, checks[i]) {
        assert NormalEach(o, checks)[i] == c;
      }
    }
  }

  /** Normal checks of checks with different ids have different ids, and are determined by their elements. */
  lemma NormalStrict(o: Orders, checks: seq<Check>)
    requires Usable(o) && DistinctIds(CheckIds(checks))
    ensures DistinctIds(CheckIds(NormalizeChecks(o, checks)))
    ensures StrictlySorted(ById(o), NormalizeChecks(o, checks))
  {
    var each, normal := NormalEach(o, checks), NormalizeChecks(o, checks);
    var key := (c: Check) => c.id;
    NormalMembers(o, checks);
    SortPermutes(ById(o), each);
    hide Sort;
    assert forall i :: 0 <= i < |checks| ==> each[i].id == CheckIds(checks)[i];
    assert DistinctBy(key, each);
    DistinctByPermutation(key, each, normal);
    assert forall i :: 0 <= i < |normal| ==> key(normal[i]) == CheckIds(normal)[i];
    assert forall c, d :: ById(o)(c, d) == o.locale(c.id, d.id);
    hide NormalizeChecks, NormalEach;
    forall i, j | 0 <= i < j < |normal| ensures !ById(o)(normal[j], normal[i]) {
      assert key(normal[i]) != key(normal[j]);
      assert ById(o)(normal[i], normal[j]);
    }
  }

  lemma NormalizingTwice(o: Orders, checks: seq<Check>)
    requires Usable(o)
    ensures NormalizeChecks(o, NormalizeChecks(o, checks)) == NormalizeChecks(o, checks)
  {
    var normal := NormalizeChecks(o, checks);
    NormalMembers(o, checks);
    hide NormalizeChecks, NormalCheck;
    forall i | 0 <= i < |normal| ensures NormalCheck(o, normal[i]) == normal[i] {
      assert normal[i] in normal;
      var k :| 0 <= k < |checks| && normal[i] == NormalCheck(o, checks[k]);
      NormalCheckTwice(o, checks[k]);
    }
    assert NormalEach(o, normal) == normal;
    SortedIsFixed(ById(o), normal);
    assert NormalizeChecks(o, normal) == Sort(ById(o), NormalEach(o, normal)) by { NormalizeIsSort(o, normal); }
  }

  lemma NormalizeIsSort(o: Orders, checks: seq<Check>)
    ensures NormalizeChecks(o, checks) == Sort(ById(o), NormalEach(o, checks))
  {
  }

  // The checks that are left open.

  lemma {:induction false} OpenIdsFind(checks: seq<Check>, id: string)
    ensures id in OpenIds(checks) <==> exists i :: 0 <= i < |checks| && Open(checks[i]) && checks[i].id == id
  {
    if checks != [] {
      OpenIdsFind(checks[..|checks| - 1], id);
      assert checks == checks[..|checks| - 1] + [checks[|checks| - 1]];
      hide Open;
    }
  }

  lemma {:induction false} OpenIdsDistinct(checks: seq<Check>)
    requires DistinctIds(CheckIds(checks))
    ensures DistinctIds(OpenIds(checks))
  {
    if checks != [] {
      var init, last := checks[..|checks| - 1], checks[|checks| - 1];
      assert CheckIds(init) == CheckIds(checks)[..|checks| - 1];
      OpenIdsDistinct(init);
      OpenIdsFind(init, last.id);
      assert forall i :: 0 <= i < |init| ==>
          init[i].id == CheckIds(checks)[i] && CheckIds(checks)[i] != CheckIds(checks)[|checks| - 1];
      hide Open;
      assert last.id !in OpenIds(init);
      hide CheckIds;
    }
  }

  lemma DistinctSort(units: Order, ids: seq<string>)
    requires DistinctIds(ids)
    ensures DistinctIds(Sort(units, ids))
  {
    SortPermutes(units, ids);
    DistinctOfPermutation(ids, Sort(units, ids));
  }

  // Ingested evidence verifies.

  /** What ingestion knows of each check. */
  ghost predicate Proper(h: Hashes, c: Check) {
    && (c.status == Passed ==> c.artifacts != [])
    && !(c.required && c.status == NotRequired)
    && (forall i :: 0 <= i < |c.artifacts| ==> h.isDigest(c.artifacts[i]))
  }

  lemma ChecksAreProper(h: Hashes, input: Input, i: nat)
    requires Acceptable(h, input) && i < |input.checks|
    ensures Proper(h, ChecksOf(input, |input.checks|)[i])
  {
    var p := input.checks[i];
    assert p in input.checks && PlannedWell(input.results, p);
    ResultForFinds(input.results, p.id);
    var r := ResultFor(input.results, p.id);
    hide ResultFor, Answered, Planned, DistinctIds;
    if r.Some? {
      assert ValidResult(input, r.value) && ValidArtifacts(h, input, r.value);
    }
  }

  lemma NormalKeepsProper(h: Hashes, o: Orders, c: Check)
    requires Proper(h, c)
    ensures Proper(h, NormalCheck(o, c))
  {
    SortMembers(o.units, c.artifacts);
    SortPermutes(o.units, c.artifacts);
    hide Sort;
    var sorted := Sort(o.units, c.artifacts);
    forall i | 0 <= i < |sorted| ensures h.isDigest(sorted[i]) {
      assert sorted[i] in sorted;
    }
  }

  lemma ProperChecksHaveNoIssues(h: Hashes, checks: seq<Check>)
    requires forall c :: c in checks ==> Proper(h, c)
    ensures ChecksIssues(h, checks) == {}
  {
  }

  lemma IngestedChecksAreProper(h: Hashes, o: Orders, input: Input)
    requires Usable(o) && Acceptable(h, input)
    ensures forall c :: c in NormalizeChecks(o, ChecksOf(input, |input.checks|)) ==> Proper(h, c)
  {
    var checks := ChecksOf(input, |input.checks|);
    NormalMembers(o, checks);
    hide Acceptable, NormalizeChecks, Proper, ChecksOf, NormalCheck;
    forall c | c in NormalizeChecks(o, checks) ensures Proper(h, c) {
      var i :| 0 <= i < |checks| && c == NormalCheck(o, checks[i]);
      assert i < |input.checks| by { ChecksCount(input); }
      ChecksAreProper(h, input, i);
      NormalKeepsProper(h, o, checks[i]);
    }
  }

  lemma ChecksCount(input: Input)
    ensures |ChecksOf(input, |input.checks|)| == |input.checks|
    ensures CheckIds(ChecksOf(input, |input.checks|)) == PlanIds(input.checks)
  {
  }

  lemma EnvelopeVerifies(h: Hashes, o: Orders, subject: Subject, checks: seq<Check>)
    requires Usable(o) && DistinctIds(CheckIds(checks))
    requires forall c :: c in NormalizeChecks(o, checks) ==> Proper(h, c)
    ensures Issues(h, o, EnvelopeOf(h, o, subject, checks)) == {}
  {
    var normal := NormalizeChecks(o, checks);
    NormalStrict(o, checks);
    NormalizingTwice(o, checks);
    OpenIdsDistinct(normal);
    var open := OpenIds(normal);
    DistinctSort(o.units, open);
    SortSorts(o.units, open);
    SortedIsFixed(o.units, Sort(o.units, open));
    ProperChecksHaveNoIssues(h, normal);
    hide NormalizeChecks, Sort, OpenIds, DistinctIds, ChecksIssues, Usable, Proper;
  }

  /** Every envelope that ingestion returns passes verification without an issue. */
  lemma IngestedEvidenceVerifies(h: Hashes, o: Orders, input: Input)
    requires Usable(o) && Ingested(h, o, input).Ok?
    ensures Issues(h, o, Ingested(h, o, input).value) == {}
  {
    IngestedIffAcceptable(h, o, input);
    IngestedChecksAreProper(h, o, input);
    ChecksCount(input);
    assert DistinctIds(PlanIds(input.checks));
    EnvelopeVerifies(h, o, input.subject, ChecksOf(input, |input.checks|));
    hide Issues, EnvelopeOf, IngestFailure;
  }

  /**
   A check of ingested evidence that has passed is proved: by a result bound to the plan that exited with zero, each of
   whose artifacts, and there is one, is the hash of the content supplied for it.
   */
  lemma PassedMeansProved(h: Hashes, o: Orders, input: Input, c: Check)
    requires Usable(o) && Ingested(h, o, input).Ok? && c in Ingested(h, o, input).value.checks && c.status == Passed
    ensures exists r :: r in input.results && Proves(h, input, r, c)
  {
    IngestedIffAcceptable(h, o, input);
    var checks := ChecksOf(input, |input.checks|);
    NormalMembers(o, checks);
    ChecksCount(input);
    hide NormalizeChecks, IngestFailure, Acceptable, ChecksOf, NormalCheck, Proves;
    var i :| 0 <= i < |checks| && c == NormalCheck(o, checks[i]);
    ResultBehind(h, o, input, i);
  }

  lemma ResultBehind(h: Hashes, o: Orders, input: Input, i: nat)
    requires Acceptable(h, input) && i < |input.checks| && ChecksOf(input, |input.checks|)[i].status == Passed
    ensures exists r :: r in input.results && Proves(h, input, r, NormalCheck(o, ChecksOf(input, |input.checks|)[i]))
  {
    var p := input.checks[i];
    assert p in input.checks && PlannedWell(input.results, p);
    ResultForFinds(input.results, p.id);
    var r := ResultFor(input.results, p.id).value;
    var c := ChecksOf(input, |input.checks|)[i];
    assert c == CheckOf(p, Some(r));
    assert ValidResult(input, r) && ValidArtifacts(h, input, r);
    hide ResultFor, Answered, Planned, DistinctIds, ChecksOf, Acceptable;
    ResultProves(h, o, input, r, p);
  }

  lemma ResultProves(h: Hashes, o: Orders, input: Input, r: RunnerResult, p: PlannedCheck)
    requires ValidResult(input, r) && ValidArtifacts(h, input, r) && r.status == Passed && r.checkId == p.id
    ensures Proves(h, input, r, NormalCheck(o, CheckOf(p, Some(r))))
  {
    var c := NormalCheck(o, CheckOf(p, Some(r)));
    SortPermutes(o.units, ArtifactDigests(r.artifacts));
    hide Sort, DistinctIds;
    forall d ensures d in c.artifacts <==> exists a :: a in r.artifacts && a.digest == d {
      ArtifactOf(o, r, c, d);
    }
    forall a | a in r.artifacts ensures a.id in input.contents && h.bytes(input.contents[a.id]) == a.digest {
      var k :| 0 <= k < |r.artifacts| && r.artifacts[k] == a;
      assert ValidArtifact(h, input, r.artifacts[k]);
    }
  }

  ghost predicate Proves(h: Hashes, input: Input, r: RunnerResult, c: Check) {
    && r.checkId == c.id && r.status == Passed && r.exitCode == Some(0)
    && r.planId == input.subject.executionPlanId && r.planDigest == input.subject.executionPlanDigest
    && c.artifacts != []
    && (forall d :: d in c.artifacts <==> exists a :: a in r.artifacts && a.digest == d)
    && (forall a :: a in r.artifacts ==> a.id in input.contents && h.bytes(input.contents[a.id]) == a.digest)
  }

  lemma ArtifactOf(o: Orders, r: RunnerResult, c: Check, d: string)
    requires multiset(c.artifacts) == multiset(ArtifactDigests(r.artifacts))
    ensures d in c.artifacts <==> exists a :: a in r.artifacts && a.digest == d
  {
    assert d in c.artifacts <==> d in multiset(ArtifactDigests(r.artifacts));
    if a :| a in r.artifacts && a.digest == d {
      var i :| 0 <= i < |r.artifacts| && r.artifacts[i] == a;
      assert ArtifactDigests(r.artifacts)[i] == d;
    }
    if d in c.artifacts {
      var i :| 0 <= i < |r.artifacts| && ArtifactDigests(r.artifacts)[i] == d;
      assert r.artifacts[i].digest == d;
    }
  }

  // Verified evidence.

  /** For verified evidence, complete means that every required check passed with an artifact. */
  lemma CompleteMeansAllPassed(h: Hashes, o: Orders, e: Envelope)
    requires Issues(h, o, e) == {}
    ensures DeriveUnverified(o, e.checks) == [] <==>
            forall c :: c in e.checks && c.required ==> c.status == Passed && c.artifacts != []
  {
    assert ChecksIssues(h, e.checks) == {};
    hide Issues;
    SortPermutes(o.units, OpenIds(e.checks));
    hide Sort;
    forall c | c in e.checks && c.required
      ensures c.status != NotRequired && (c.status == Passed ==> c.artifacts != [])
    {
      NoIssueOf(h, e.checks, c);
    }
    hide ChecksIssues;
    if OpenIds(e.checks) == [] {
      forall c | c in e.checks && c.required ensures c.status == Passed {
        OpenIdsFind(e.checks, c.id);
      }
    } else {
      OpenIdsFind(e.checks, OpenIds(e.checks)[0]);
    }
  }

  lemma NoIssueOf(h: Hashes, checks: seq<Check>, c: Check)
    requires ChecksIssues(h, checks) == {} && c in checks && c.required
    ensures c.status != NotRequired && (c.status == Passed ==> c.artifacts != [])
  {
    assert RequiredStateInvalid(c.id) !in ChecksIssues(h, checks);
    assert RequiredArtifactMissing(c.id) !in ChecksIssues(h, checks);
  }
}
