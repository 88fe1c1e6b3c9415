/**
 When evidence is accepted, what an envelope holds and when it verifies, said
 of plan, results and envelope alone.
 */
module EvidenceRules {
  import opened Base
  import opened Sorting
  import opened Evidence
  import opened EvidenceResults

  // Ingestion.

  ghost predicate PlanInOrder(input: Input) {
    && input.boundPlanId == input.subject.executionPlanId
    && input.boundPlanDigest == input.subject.executionPlanDigest
    && (forall i, j :: 0 <= i < j < |input.checks| ==> input.checks[i].id != input.checks[j].id)
    && (forall i :: 0 <= i < |input.checks| ==>
          && (input.checks[i].required ==> input.checks[i].status != NotRequired)
          && (input.checks[i].status == Passed ==>
                exists j :: 0 <= j < |input.results| && input.results[j].checkId == input.checks[i].id))
  }

  /** A result of this plan, in a state that a run can end in, with the exit code that goes with it. */
  ghost predicate ResultInOrder(input: Input, r: RunnerResult) {
    && (exists i :: 0 <= i < |input.checks| && input.checks[i].id == r.checkId)
    && r.sound
    && r.planId == input.subject.executionPlanId && r.planDigest == input.subject.executionPlanDigest
    && r.status in {Passed, Failed, Blocked, Cancelled, TimedOut, Unverified}
    && (r.status == Passed ==> r.exitCode == Some(0) && |r.artifacts| > 0)
    && (r.status == Failed ==> r.exitCode != Some(0))
    && r.completedAt >= r.startedAt
  }

  /** Each artifact is the digest of content that was supplied under its name; no name and no digest comes twice. */
  ghost predicate ArtifactsInOrder(h: Hashes, input: Input, r: RunnerResult) {
    && (forall i :: 0 <= i < |r.artifacts| ==>
          var a := r.artifacts[i];
          && !h.isBlank(a.id) && h.isDigest(a.digest)
          && a.id in input.contents && a.digest == h.bytes(input.contents[a.id]))
    && (forall i, j :: 0 <= i < j < |r.artifacts| ==>
          r.artifacts[i].id != r.artifacts[j].id && r.artifacts[i].digest != r.artifacts[j].digest)
  }

  lemma ArtifactsExactly(h: Hashes, input: Input, r: RunnerResult)
    ensures ValidArtifacts(h, input, r) <==>
            ArtifactsInOrder(h, input, r) && (r.status == Passed ==> |r.artifacts| > 0)
  {
    var ids, digests := ArtifactIds(r.artifacts), ArtifactDigests(r.artifacts);
    assert DistinctIds(ids) <==>
           forall i, j :: 0 <= i < j < |r.artifacts| ==> r.artifacts[i].id != r.artifacts[j].id by {
      assert forall i :: 0 <= i < |ids| ==> ids[i] == r.artifacts[i].id;
    }
    assert DistinctIds(digests) <==>
           forall i, j :: 0 <= i < j < |r.artifacts| ==> r.artifacts[i].digest != r.artifacts[j].digest by {
      assert forall i :: 0 <= i < |digests| ==> digests[i] == r.artifacts[i].digest;
    }
    hide DistinctIds, ArtifactIds, ArtifactDigests;
  }

  lemma ResultExactly(h: Hashes, input: Input, r: RunnerResult)
    ensures Planned(input, r.checkId) && ValidResult(input, r) && ValidArtifacts(h, input, r) <==>
            ResultInOrder(input, r) && ArtifactsInOrder(h, input, r)
  {
    ArtifactsExactly(h, input, r);
    hide ValidArtifacts, ArtifactsInOrder;
  }

  lemma PlanExactly(input: Input)
    ensures PlanInOrder(input) <==>
            && input.boundPlanId == input.subject.executionPlanId
            && input.boundPlanDigest == input.subject.executionPlanDigest
            && DistinctIds(PlanIds(input.checks))
            && forall p :: p in input.checks ==> PlannedWell(input.results, p)
  {
    assert DistinctIds(PlanIds(input.checks)) <==>
           forall i, j :: 0 <= i < j < |input.checks| ==> input.checks[i].id != input.checks[j].id by {
      var ids := PlanIds(input.checks);
      assert forall i :: 0 <= i < |ids| ==> ids[i] == input.checks[i].id;
    }
    hide DistinctIds, PlanIds;
    if forall i :: 0 <= i < |input.checks| ==> PlannedWell(input.results, input.checks[i]) {
      forall p | p in input.checks ensures PlannedWell(input.results, p) {
      }
    }
  }

  /** Results are accepted if and only if plan, results and artifacts are in order and no check has two results. */
  lemma IngestsExactly(h: Hashes, o: Orders, input: Input)
    ensures Ingested(h, o, input).Ok? <==>
            && PlanInOrder(input)
            && (forall i, j :: 0 <= i < j < |input.results| ==> input.results[i].checkId != input.results[j].checkId)
            && (forall i :: 0 <= i < |input.results| ==>
                  ResultInOrder(input, input.results[i]) && ArtifactsInOrder(h, input, input.results[i]))
  {
    IngestedIffAcceptable(h, o, input);
    PlanExactly(input);
    assert DistinctIds(ResultIds(input.results)) <==>
           forall i, j :: 0 <= i < j < |input.results| ==> input.results[i].checkId != input.results[j].checkId by {
      var ids := ResultIds(input.results);
      assert forall i :: 0 <= i < |ids| ==> ids[i] == input.results[i].checkId;
    }
    forall i | 0 <= i < |input.results|
      ensures (&& Planned(input, input.results[i].checkId) && ValidResult(input, input.results[i])
               && ValidArtifacts(h, input, input.results[i])) <==>
              (ResultInOrder(input, input.results[i]) && ArtifactsInOrder(h, input, input.results[i]))
    {
      ResultExactly(h, input, input.results[i]);
    }
    hide Ingested, PlanInOrder, DistinctIds, ResultIds, PlanIds, Planned, ValidResult, ValidArtifacts, ResultInOrder,
      ArtifactsInOrder, PlannedWell;
  }

  // Normal checks.

  /** c says what b says, perhaps in another order. */
  ghost predicate SaysTheSame(b: Check, c: Check) {
    && c.id == b.id && c.required == b.required && c.status == b.status
    && multiset(c.diagnostics) == multiset(b.diagnostics) && multiset(c.artifacts) == multiset(b.artifacts)
  }

  /** Diagnostics by code and then by message, artifacts by their units. */
  ghost predicate Ordered(o: Orders, c: Check) {
    && (forall i, j :: 0 <= i < j < |c.diagnostics| ==>
          var d, e := c.diagnostics[i], c.diagnostics[j];
          if d.code != e.code then o.locale(d.code, e.code) else o.locale(d.message, e.message))
    && (forall i, j :: 0 <= i < j < |c.artifacts| ==> o.units(c.artifacts[i], c.artifacts[j]))
  }

  lemma NormalCheckIs(o: Orders, c: Check)
    requires Usable(o)
    ensures SaysTheSame(c, NormalCheck(o, c)) && Ordered(o, NormalCheck(o, c))
  {
    ByCodeIsTotal(o);
    SortPermutes(ByCode(o), c.diagnostics);
    SortPermutes(o.units, c.artifacts);
    SortSorts(ByCode(o), c.diagnostics);
    SortSorts(o.units, c.artifacts);
    hide Sort, TotalPreorder, Antisymmetric;
    var n := NormalCheck(o, c);
    forall i, j | 0 <= i < j < |n.diagnostics|
      ensures var d, e := n.diagnostics[i], n.diagnostics[j];
              if d.code != e.code then o.locale(d.code, e.code) else o.locale(d.message, e.message)
    {
      assert ByCode(o)(n.diagnostics[i], n.diagnostics[j]);
    }
  }

  /** n reports the same checks, ordered, by id. */
  ghost predicate Normalizes(o: Orders, checks: seq<Check>, n: seq<Check>) {
    && |n| == |checks|
    && (forall i, j :: 0 <= i < j < |n| ==> o.locale(n[i].id, n[j].id))
    && (forall j :: 0 <= j < |n| ==> Ordered(o, n[j]) && SaidIn(checks, n[j]))
    && (forall i :: 0 <= i < |checks| ==> SaidAgain(checks[i], n))
  }

  ghost predicate SaidIn(checks: seq<Check>, c: Check) {
    exists i :: 0 <= i < |checks| && SaysTheSame(checks[i], c)
  }

  ghost predicate SaidAgain(c: Check, checks: seq<Check>) {
    exists i :: 0 <= i < |checks| && SaysTheSame(c, checks[i])
  }

  lemma NormalizedBack(o: Orders, checks: seq<Check>, j: nat) returns (i: nat)
    requires Usable(o) && j < |NormalizeChecks(o, checks)|
    ensures i < |checks| && SaysTheSame(checks[i], NormalizeChecks(o, checks)[j])
    ensures Ordered(o, NormalizeChecks(o, checks)[j])
  {
    hide NormalizeChecks, NormalCheck, SaysTheSame, Ordered;
    NormalMembers(o, checks);
    var c := NormalizeChecks(o, checks)[j];
    assert c in NormalizeChecks(o, checks);
    i :| 0 <= i < |checks| && c == NormalCheck(o, checks[i]);
    NormalCheckIs(o, checks[i]);
  }

  lemma NormalizedForth(o: Orders, checks: seq<Check>, i: nat) returns (j: nat)
    requires Usable(o) && i < |checks|
    ensures j < |NormalizeChecks(o, checks)| && SaysTheSame(checks[i], NormalizeChecks(o, checks)[j])
  {
    hide NormalizeChecks, NormalCheck, SaysTheSame, Ordered;
    NormalMembers(o, checks);
    assert SomeNormal(o, checks, NormalCheck(o, checks[i]));
    j :| 0 <= j < |NormalizeChecks(o, checks)| && NormalizeChecks(o, checks)[j] == NormalCheck(o, checks[i]);
    NormalCheckIs(o, checks[i]);
  }

  lemma NormalizedById(o: Orders, checks: seq<Check>)
    requires Usable(o)
    ensures var n := NormalizeChecks(o, checks);
            |n| == |checks| && forall i, j :: 0 <= i < j < |n| ==> o.locale(n[i].id, n[j].id)
  {
    var n := NormalizeChecks(o, checks);
    NormalMembers(o, checks);
    NormalizeIsSort(o, checks);
    SortPermutes(ById(o), NormalEach(o, checks));
    assert forall c, d :: ById(o)(c, d) == o.locale(c.id, d.id);
    hide NormalCheck, Sort, NormalizeChecks, SomeNormal;
    assert |n| == |NormalEach(o, checks)| == |checks|;
    forall i, j | 0 <= i < j < |n| ensures o.locale(n[i].id, n[j].id) {
      assert ById(o)(n[i], n[j]);
    }
  }

  lemma NormalizesExactly(o: Orders, checks: seq<Check>)
    requires Usable(o)
    ensures Normalizes(o, checks, NormalizeChecks(o, checks))
  {
    hide NormalizeChecks, SaysTheSame, Ordered, Usable;
    var n := NormalizeChecks(o, checks);
    NormalizedById(o, checks);
    forall j | 0 <= j < |n| ensures Ordered(o, n[j]) && SaidIn(checks, n[j]) {
      var i := NormalizedBack(o, checks, j);
    }
    forall i | 0 <= i < |checks| ensures SaidAgain(checks[i], n) {
      var j := NormalizedForth(o, checks, i);
    }
    hide SaidIn, SaidAgain;
  }

  // The envelope.

  /** c reports planned check p: with its result, if there is one, else as planned. */
  ghost predicate ReportsOn(input: Input, p: PlannedCheck, c: Check) {
    && c.id == p.id && c.required == p.required
    && (forall r :: r in input.results && r.checkId == p.id ==>
          && c.status == r.status && multiset(c.diagnostics) == multiset(r.diagnostics)
          && (forall d :: d in c.artifacts <==> exists i :: 0 <= i < |r.artifacts| && r.artifacts[i].digest == d))
    && ((forall r :: r in input.results ==> r.checkId != p.id) ==>
          c.status == p.status && c.diagnostics == [] && c.artifacts == [])
  }

  lemma ResultIsTheOnly(results: seq<RunnerResult>, r: RunnerResult)
    requires DistinctIds(ResultIds(results)) && r in results
    ensures ResultFor(results, r.checkId) == Some(r)
  {
    ResultForFinds(results, r.checkId);
    var i :| 0 <= i < |results| && results[i] == r;
    var ids := ResultIds(results);
    assert ids[i] == r.checkId;
    var s := ResultFor(results, r.checkId).value;
    var j :| 0 <= j < |results| && results[j] == s;
    assert ids[j] == r.checkId;
  }

  lemma CheckReports(input: Input, p: PlannedCheck, c: Check)
    requires DistinctIds(ResultIds(input.results))
    requires SaysTheSame(CheckOf(p, ResultFor(input.results, p.id)), c)
    ensures ReportsOn(input, p, c)
  {
    ResultForFinds(input.results, p.id);
    forall r | r in input.results && r.checkId == p.id
      ensures ResultFor(input.results, p.id) == Some(r)
      ensures forall d :: d in c.artifacts <==> exists i :: 0 <= i < |r.artifacts| && r.artifacts[i].digest == d
    {
      ResultIsTheOnly(input.results, r);
      hide DistinctIds, ResultIds;
      var digests := ArtifactDigests(r.artifacts);
      assert forall i :: 0 <= i < |digests| ==> digests[i] == r.artifacts[i].digest;
      forall d ensures d in c.artifacts <==> d in digests {
        assert d in multiset(c.artifacts) <==> d in multiset(digests);
      }
    }
    if forall r :: r in input.results ==> r.checkId != p.id {
      hide DistinctIds, ResultIds;
      assert ResultFor(input.results, p.id).None?;
      assert |multiset(c.diagnostics)| == 0 && |multiset(c.artifacts)| == 0;
    }
  }

  /** The required checks that have not passed. */
  ghost predicate LeftOpen(checks: seq<Check>, id: string) {
    exists i :: 0 <= i < |checks| && checks[i].id == id && checks[i].required
                && checks[i].status != Passed && checks[i].status != NotRequired
  }

  lemma OpenExactly(checks: seq<Check>, id: string)
    ensures id in OpenIds(checks) <==> LeftOpen(checks, id)
  {
    OpenIdsFind(checks, id);
  }

  /** These ids, sorted, are the checks left open, each once. */
  ghost predicate ListsOpen(o: Orders, checks: seq<Check>, ids: seq<string>) {
    && (forall i, j :: 0 <= i < j < |ids| ==> o.units(ids[i], ids[j]) && ids[i] != ids[j])
    && (forall id :: id in ids <==> LeftOpen(checks, id))
  }

  lemma DerivedListsOpen(o: Orders, checks: seq<Check>)
    requires Usable(o) && DistinctIds(CheckIds(checks))
    ensures ListsOpen(o, checks, DeriveUnverified(o, checks))
  {
    var open := OpenIds(checks);
    OpenIdsDistinct(checks);
    DistinctSort(o.units, open);
    SortSorts(o.units, open);
    SortMembers(o.units, open);
    hide Sort, OpenIds, LeftOpen;
    forall id ensures id in open <==> LeftOpen(checks, id) { OpenExactly(checks, id); }
  }

  /**
   The envelope reports on every planned check, in normal order, lists what is left open, and is identified by a digest
   of subject, checks and list.
   */
  lemma EnvelopeExactly(h: Hashes, o: Orders, input: Input)
    requires Usable(o) && Ingested(h, o, input).Ok?
    ensures var e := Ingested(h, o, input).value;
            && e.subject == input.subject && |e.checks| == |input.checks|
            && (forall i :: 0 <= i < |input.checks| ==> Reported(input, e.checks, i))
            && (forall i, j :: 0 <= i < j < |e.checks| ==> o.locale(e.checks[i].id, e.checks[j].id))
            && (forall j :: 0 <= j < |e.checks| ==> Ordered(o, e.checks[j]))
            && ListsOpen(o, e.checks, e.unverified)
            && e.digest == h.json(Preimage(e.subject, e.checks, e.unverified)) && e.evidenceId == h.idOf(e.digest)
  {
    hide ReportsOn, Ordered, ListsOpen, Usable;
    var checks := ChecksOf(input, |input.checks|);
    IngestedIsEnvelope(h, o, input);
    EnvelopeIs(h, o, input.subject, checks);
    NormalizesExactly(o, checks);
    hide NormalizeChecks, EnvelopeOf, ChecksOf, Ingested;
    hide Reported;
    forall i | 0 <= i < |input.checks| ensures Reported(input, NormalizeChecks(o, checks), i) {
      CheckIsReported(o, input, i);
    }
    NormalizedById(o, checks);
    ChecksCount(input);
  }

  lemma IngestedIsEnvelope(h: Hashes, o: Orders, input: Input)
    requires Ingested(h, o, input).Ok?
    ensures Ingested(h, o, input).value == EnvelopeOf(h, o, input.subject, ChecksOf(input, |input.checks|))
    ensures DistinctIds(CheckIds(ChecksOf(input, |input.checks|))) && DistinctIds(ResultIds(input.results))
  {
    IngestedIffAcceptable(h, o, input);
    ChecksCount(input);
    hide IngestFailure, EnvelopeOf, DistinctIds;
  }

  /** Some check reports on the i-th planned one. */
  ghost predicate Reported(input: Input, checks: seq<Check>, i: nat)
    requires i < |input.checks|
  {
    exists j :: 0 <= j < |checks| && ReportsOn(input, input.checks[i], checks[j])
  }

  lemma CheckIsReported(o: Orders, input: Input, i: nat)
    requires Usable(o) && DistinctIds(ResultIds(input.results)) && i < |input.checks|
    ensures Reported(input, NormalizeChecks(o, ChecksOf(input, |input.checks|)), i)
  {
    var checks := ChecksOf(input, |input.checks|);
    assert checks[i] == CheckOf(input.checks[i], ResultFor(input.results, input.checks[i].id));
    hide NormalizeChecks, SaysTheSame, ReportsOn, Usable, DistinctIds, ResultFor, CheckOf, ChecksOf;
    assert |checks| == |input.checks| by { ChecksCount(input); }
    var j := NormalizedForth(o, checks, i);
    CheckReports(input, input.checks[i], NormalizeChecks(o, checks)[j]);
  }

  lemma EnvelopeIs(h: Hashes, o: Orders, subject: Subject, checks: seq<Check>)
    requires Usable(o) && DistinctIds(CheckIds(checks))
    ensures var e := EnvelopeOf(h, o, subject, checks);
            && e.subject == subject && e.checks == NormalizeChecks(o, checks)
            && ListsOpen(o, e.checks, e.unverified)
            && e.digest == h.json(Preimage(subject, e.checks, e.unverified)) && e.evidenceId == h.idOf(e.digest)
  {
    var normal := NormalizeChecks(o, checks);
    NormalStrict(o, checks);
    NormalizingTwice(o, checks);
    DerivedListsOpen(o, normal);
    SortSorts(o.units, OpenIds(normal));
    SortedIsFixed(o.units, Sort(o.units, OpenIds(normal)));
    hide NormalizeChecks, ListsOpen, Sort, OpenIds;
  }

  // Verification.

  lemma SaidSame(b: Check, c: Check)
    requires SaysTheSame(b, c)
    ensures c.id == b.id && c.required == b.required && c.status == b.status
  {
  }

  lemma SameOpen(o: Orders, checks: seq<Check>, id: string)
    requires Usable(o)
    ensures LeftOpen(checks, id) <==> LeftOpen(NormalizeChecks(o, checks), id)
  {
    hide NormalizeChecks, SaysTheSame, Ordered, Usable;
    var n := NormalizeChecks(o, checks);
    if LeftOpen(checks, id) {
      var i :| 0 <= i < |checks| && checks[i].id == id && checks[i].required
               && checks[i].status != Passed && checks[i].status != NotRequired;
      var j := NormalizedForth(o, checks, i);
      SaidSame(checks[i], n[j]);
    }
    if LeftOpen(n, id) {
      var j :| 0 <= j < |n| && n[j].id == id && n[j].required && n[j].status != Passed && n[j].status != NotRequired;
      var i := NormalizedBack(o, checks, j);
      SaidSame(checks[i], n[j]);
    }
  }

  /** The list of an envelope holds exactly the checks left open, each once, in any order. */
  lemma UnverifiedExactly(o: Orders, e: Envelope)
    requires Usable(o) && DistinctIds(CheckIds(e.checks))
    ensures UnverifiedIssue(o, e) == {} <==>
            && (forall i, j :: 0 <= i < j < |e.unverified| ==> e.unverified[i] != e.unverified[j])
            && (forall id :: id in e.unverified <==> LeftOpen(e.checks, id))
  {
    var n := NormalizeChecks(o, e.checks);
    NormalStrict(o, e.checks);
    OpenIdsDistinct(n);
    forall id ensures id in OpenIds(n) <==> LeftOpen(e.checks, id) {
      OpenExactly(n, id);
      SameOpen(o, e.checks, id);
    }
    hide NormalizeChecks, LeftOpen, OpenIds, Sort, CheckIds, StrictlySorted;
    SameSorted(o, e.unverified, OpenIds(n));
  }

  /** Sorted, two lists are the same if and only if they have the same elements, if one of them has each once. */
  lemma SameSorted(o: Orders, s: seq<string>, t: seq<string>)
    requires Usable(o) && DistinctIds(t)
    ensures DistinctIds(s) && Sort(o.units, s) == Sort(o.units, t) <==>
            DistinctIds(s) && forall id :: id in s <==> id in t
  {
    SortMembers(o.units, s);
    SortMembers(o.units, t);
    hide Sort;
    if DistinctIds(s) && forall id :: id in s <==> id in t {
      SameElements(s, t);
      SortIgnoresOrder(o.units, s, t);
    }
    if Sort(o.units, s) == Sort(o.units, t) {
      forall id ensures id in s <==> id in t {
        assert id in Sort(o.units, s) <==> id in Sort(o.units, t);
      }
    }
  }

  lemma SameElements(s: seq<string>, t: seq<string>)
    requires DistinctIds(s) && DistinctIds(t) && forall id :: id in s <==> id in t
    ensures multiset(s) == multiset(t)
  {
    DistinctCounts(s);
    DistinctCounts(t);
    forall id ensures multiset(s)[id] == multiset(t)[id] {
      assert id in multiset(s) <==> id in s;
      assert id in multiset(t) <==> id in t;
    }
  }

  /** A check that can stand in verified evidence. */
  ghost predicate Stands(h: Hashes, c: Check) {
    && (c.required ==> c.status != NotRequired && (c.status == Passed ==> |c.artifacts| > 0))
    && forall i :: 0 <= i < |c.artifacts| ==> h.isDigest(c.artifacts[i])
  }

  lemma ChecksStand(h: Hashes, checks: seq<Check>)
    ensures ChecksIssues(h, checks) == {} <==> forall i :: 0 <= i < |checks| ==> Stands(h, checks[i])
  {
    if forall i :: 0 <= i < |checks| ==> Stands(h, checks[i]) {
      forall c | c in checks ensures Stands(h, c) {
      }
    } else {
      var i :| 0 <= i < |checks| && !Stands(h, checks[i]);
      var c := checks[i];
      assert c in checks;
      if c.required && c.status == Passed && c.artifacts == [] {
        assert RequiredArtifactMissing(c.id) in ChecksIssues(h, checks);
      } else if c.required && c.status == NotRequired {
        assert RequiredStateInvalid(c.id) in ChecksIssues(h, checks);
      } else {
        assert ArtifactDigestInvalid(c.id) in ChecksIssues(h, checks);
      }
    }
  }

  /**
   An envelope verifies if and only if no check comes twice, each can stand, the list is of the checks left open, and
   the digest is that of subject, checks and list in normal order, and the identifier that of the digest.
   */
  lemma VerifiesExactly(h: Hashes, o: Orders, e: Envelope)
    requires Usable(o)
    ensures Issues(h, o, e) == {} <==>
            && (forall i, j :: 0 <= i < j < |e.checks| ==> e.checks[i].id != e.checks[j].id)
            && (forall i :: 0 <= i < |e.checks| ==> Stands(h, e.checks[i]))
            && (forall i, j :: 0 <= i < j < |e.unverified| ==> e.unverified[i] != e.unverified[j])
            && (forall id :: id in e.unverified <==> LeftOpen(e.checks, id))
            && e.digest == h.json(Preimage(e.subject, NormalizeChecks(o, e.checks), Sort(o.units, e.unverified)))
            && e.evidenceId == h.idOf(e.digest)
  {
    ChecksStand(h, e.checks);
    var ids := CheckIds(e.checks);
    assert DistinctIds(ids) <==> forall i, j :: 0 <= i < j < |e.checks| ==> e.checks[i].id != e.checks[j].id by {
      assert forall i :: 0 <= i < |ids| ==> ids[i] == e.checks[i].id;
    }
    if DistinctIds(ids) { UnverifiedExactly(o, e); }
    hide ChecksIssues, UnverifiedIssue, DistinctIds, CheckIds, NormalizeChecks, Sort, Stands, LeftOpen, Usable;
    IssuesSplit(h, o, e);
  }

  lemma IssuesSplit(h: Hashes, o: Orders, e: Envelope)
    ensures Issues(h, o, e) == {} <==>
            && DistinctIds(CheckIds(e.checks)) && ChecksIssues(h, e.checks) == {} && UnverifiedIssue(o, e) == {}
            && h.json(EvidencePreimage(o, e.subject, e.checks, e.unverified)) == e.digest
            && h.idOf(e.digest) == e.evidenceId
  {
    hide ChecksIssues, UnverifiedIssue, DistinctIds, CheckIds, EvidencePreimage;
    if !DistinctIds(CheckIds(e.checks)) { assert CheckDuplicate in Issues(h, o, e); }
    if h.json(EvidencePreimage(o, e.subject, e.checks, e.unverified)) != e.digest {
      assert DigestMismatch in Issues(h, o, e);
    }
    if h.idOf(e.digest) != e.evidenceId { assert IdMismatch in Issues(h, o, e); }
    if issue :| issue in ChecksIssues(h, e.checks) + UnverifiedIssue(o, e) { assert issue in Issues(h, o, e); }
  }
}
