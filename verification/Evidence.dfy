/**
 Evidence envelopes: ingestion of runner results, normalization, verification
 and summary. Hashes, and what looks like a digest, are parameters. Ingestion
 gives the first error in the order of its checks; verification collects all
 issues of an envelope.
 */
module Evidence {
  import opened Base
  import opened Sorting

  datatype Status = Passed | Failed | NotRun | NotRequired | Blocked | Cancelled | TimedOut | Unverified

  datatype Diagnostic = Diagnostic(code: string, message: string)

  datatype Check = Check(
    id: string,
    required: bool,
    status: Status,
    diagnostics: seq<Diagnostic>,
    artifacts: seq<string>)

  datatype PlannedCheck = PlannedCheck(id: string, required: bool, status: Status)

  datatype Artifact = Artifact(id: string, digest: string)

  /** sound: the result is plain JSON without secrets, has non-empty names, readable times and harmless redactions. */
  datatype RunnerResult = RunnerResult(
    checkId: string,
    planId: string,
    planDigest: string,
    sound: bool,
    status: Status,
    exitCode: Option<int>,
    startedAt: int,
    completedAt: int,
    diagnostics: seq<Diagnostic>,
    artifacts: seq<Artifact>)

  /** The snapshots, the route plan and the execution plan that the evidence is about. */
  datatype Subject = Subject(
    projectSnapshot: string,
    catalogSnapshot: string,
    policySnapshot: string,
    routePlan: string,
    executionPlanId: string,
    executionPlanDigest: string)

  datatype Input = Input(
    subject: Subject,
    boundPlanId: string,
    boundPlanDigest: string,
    checks: seq<PlannedCheck>,
    results: seq<RunnerResult>,
    contents: map<string, string>)

  datatype Preimage = Preimage(subject: Subject, checks: seq<Check>, unverified: seq<string>)

  datatype Envelope = Envelope(
    subject: Subject,
    checks: seq<Check>,
    unverified: seq<string>,
    digest: string,
    evidenceId: string)

  datatype Hashes = Hashes(
    isDigest: string -> bool,
    isBlank: string -> bool,
    bytes: string -> string,
    json: Preimage -> string,
    idOf: string -> string)

  /** Identifiers and diagnostics are ordered by locale, other strings by code units. */
  datatype Orders = Orders(locale: Order, units: Order)

  datatype IngestError =
    | PlanNotBound | DuplicatePlanCheck | RequiredNotRequired(id: string) | MultipleResults(id: string)
    | UnexpectedResult(id: string) | InvalidResult(id: string)
    | InvalidArtifacts(id: string) | FabricatedPass(id: string)

  datatype Issue =
    | CheckDuplicate | RequiredArtifactMissing(id: string) | RequiredStateInvalid(id: string)
    | ArtifactDigestInvalid(id: string) | UnverifiedMismatch | DigestMismatch | IdMismatch

  // Normalization.

  function ByCode(o: Orders): (Diagnostic, Diagnostic) -> bool {
    (c: Diagnostic, d: Diagnostic) =>
      if c.code == d.code then o.locale(c.message, d.message) else o.locale(c.code, d.code)
  }

  function ById(o: Orders): (Check, Check) -> bool {
    (c: Check, d: Check) => o.locale(c.id, d.id)
  }

  function NormalCheck(o: Orders, c: Check): Check {
    c.(diagnostics := Sort(ByCode(o), c.diagnostics), artifacts := Sort(o.units, c.artifacts))
  }

  function NormalEach(o: Orders, checks: seq<Check>): seq<Check> {
    seq(|checks|, i requires 0 <= i < |checks| => NormalCheck(o, checks[i]))
  }

  function NormalizeChecks(o: Orders, checks: seq<Check>): seq<Check> {
    Sort(ById(o), NormalEach(o, checks))
  }

  predicate Open(c: Check) {
    c.required && c.status != Passed && c.status != NotRequired
  }

  function OpenIds(checks: seq<Check>): seq<string> {
    if checks == [] then []
    else
      var rest := OpenIds(checks[..|checks| - 1]);
      if Open(checks[|checks| - 1]) then rest + [checks[|checks| - 1].id] else rest
  }

  function DeriveUnverified(o: Orders, checks: seq<Check>): seq<string> {
    Sort(o.units, OpenIds(checks))
  }

  function EvidencePreimage(o: Orders, subject: Subject, checks: seq<Check>, unverified: seq<string>): Preimage {
    Preimage(subject, NormalizeChecks(o, checks), Sort(o.units, unverified))
  }

  predicate DistinctIds<T(==)>(ids: seq<T>) {
    forall i, j :: 0 <= i < j < |ids| ==> ids[i] != ids[j]
  }

  /** These strings, each once. */
  ghost predicate Seen(seen: set<string>, ids: seq<string>) {
    DistinctIds(ids) && forall x :: x in seen <==> x in ids
  }

  lemma SeenNext(seen: set<string>, ids: seq<string>, i: nat)
    requires i < |ids| && Seen(seen, ids[..i])
    ensures if ids[i] in seen then !DistinctIds(ids) else Seen(seen + {ids[i]}, ids[..i + 1])
  {
    assert ids[..i + 1] == ids[..i] + [ids[i]];
  }

  /** Whether a string comes twice. */
  method HasDuplicates(ids: seq<string>) returns (duplicate: bool)
    ensures duplicate <==> !DistinctIds(ids)
  {
    var seen: set<string> := {};
    for i := 0 to |ids|
      invariant Seen(seen, ids[..i])
    {
      SeenNext(seen, ids, i);
      if ids[i] in seen {
        return true;
      }
      seen := seen + {ids[i]};
    }
    assert ids[..|ids|] == ids;
    duplicate := false;
  }

  // Ingestion.

  function PlanIds(checks: seq<PlannedCheck>): seq<string> {
    seq(|checks|, i requires 0 <= i < |checks| => checks[i].id)
  }

  function CheckIds(checks: seq<Check>): seq<string> {
    seq(|checks|, i requires 0 <= i < |checks| => checks[i].id)
  }

  function ResultIds(results: seq<RunnerResult>): seq<string> {
    seq(|results|, i requires 0 <= i < |results| => results[i].checkId)
  }

  function ArtifactIds(artifacts: seq<Artifact>): seq<string> {
    seq(|artifacts|, i requires 0 <= i < |artifacts| => artifacts[i].id)
  }

  function ArtifactDigests(artifacts: seq<Artifact>): seq<string> {
    seq(|artifacts|, i requires 0 <= i < |artifacts| => artifacts[i].digest)
  }

  predicate ValidResult(input: Input, r: RunnerResult) {
    && r.sound
    && r.planId == input.subject.executionPlanId && r.planDigest == input.subject.executionPlanDigest
    && r.status != NotRun && r.status != NotRequired
    && (r.status == Passed ==> r.exitCode == Some(0))
    && (r.status == Failed ==> r.exitCode != Some(0))
    && r.startedAt <= r.completedAt
  }

  predicate ValidArtifact(h: Hashes, input: Input, a: Artifact) {
    !h.isBlank(a.id) && h.isDigest(a.digest) && a.id in input.contents && h.bytes(input.contents[a.id]) == a.digest
  }

  predicate ValidArtifacts(h: Hashes, input: Input, r: RunnerResult) {
    && (forall i :: 0 <= i < |r.artifacts| ==> ValidArtifact(h, input, r.artifacts[i]))
    && DistinctIds(ArtifactIds(r.artifacts)) && DistinctIds(ArtifactDigests(r.artifacts))
    && (r.status == Passed ==> r.artifacts != [])
  }

  predicate Planned(input: Input, id: string) {
    exists i :: 0 <= i < |input.checks| && input.checks[i].id == id
  }

  predicate Answered(results: seq<RunnerResult>, id: string) {
    exists i :: 0 <= i < |results| && results[i].checkId == id
  }

  function ResultError(h: Hashes, input: Input, n: nat): Option<IngestError>
    requires n < |input.results|
  {
    var r := input.results[n];
    if Answered(input.results[..n], r.checkId) then Some(MultipleResults(r.checkId))
    else if !Planned(input, r.checkId) then Some(UnexpectedResult(r.checkId))
    else if !ValidResult(input, r) then Some(InvalidResult(r.checkId))
    else if !ValidArtifacts(h, input, r) then Some(InvalidArtifacts(r.checkId))
    else None
  }

  /** The first error among the results from n on. */
  function ResultsError(h: Hashes, input: Input, n: nat): Option<IngestError>
    requires n <= |input.results|
    decreases |input.results| - n
  {
    if n == |input.results| then None
    else if ResultError(h, input, n).Some? then ResultError(h, input, n)
    else ResultsError(h, input, n + 1)
  }

  function ResultFor(results: seq<RunnerResult>, id: string): Option<RunnerResult> {
    if results == [] then None
    else if results[|results| - 1].checkId == id then Some(results[|results| - 1])
    else ResultFor(results[..|results| - 1], id)
  }

  function CheckOf(p: PlannedCheck, r: Option<RunnerResult>): Check {
    match r
    case None => Check(p.id, p.required, p.status, [], [])
    case Some(r) => Check(p.id, p.required, r.status, r.diagnostics, ArtifactDigests(r.artifacts))
  }

  /** The checks of the first n planned ones. */
  function ChecksOf(input: Input, n: nat): seq<Check>
    requires n <= |input.checks|
  {
    seq(n, i requires 0 <= i < n => CheckOf(input.checks[i], ResultFor(input.results, input.checks[i].id)))
  }

  predicate Fabricated(input: Input, p: PlannedCheck) {
    ResultFor(input.results, p.id).None? && p.status == Passed
  }

  /** The first planned check from n on that claims to have passed without a result. */
  function FabricatedFrom(input: Input, n: nat): Option<IngestError>
    requires n <= |input.checks|
    decreases |input.checks| - n
  {
    if n == |input.checks| then None
    else if Fabricated(input, input.checks[n]) then Some(FabricatedPass(input.checks[n].id))
    else FabricatedFrom(input, n + 1)
  }

  function RequiredFrom(input: Input, n: nat): Option<IngestError>
    requires n <= |input.checks|
    decreases |input.checks| - n
  {
    if n == |input.checks| then None
    else if input.checks[n].required && input.checks[n].status == NotRequired then
      Some(RequiredNotRequired(input.checks[n].id))
    else RequiredFrom(input, n + 1)
  }

  function IngestFailure(h: Hashes, input: Input): Option<IngestError> {
    if || input.boundPlanId != input.subject.executionPlanId
       || input.boundPlanDigest != input.subject.executionPlanDigest then
      Some(PlanNotBound)
    else if !DistinctIds(PlanIds(input.checks)) then Some(DuplicatePlanCheck)
    else if RequiredFrom(input, 0).Some? then RequiredFrom(input, 0)
    else if ResultsError(h, input, 0).Some? then ResultsError(h, input, 0)
    else FabricatedFrom(input, 0)
  }

  function EnvelopeOf(h: Hashes, o: Orders, subject: Subject, checks: seq<Check>): Envelope {
    var normalized := NormalizeChecks(o, checks);
    var unverified := DeriveUnverified(o, normalized);
    var digest := h.json(EvidencePreimage(o, subject, normalized, unverified));
    Envelope(subject, normalized, unverified, digest, h.idOf(digest))
  }

  function Ingested(h: Hashes, o: Orders, input: Input): Result<Envelope, IngestError> {
    var failure := IngestFailure(h, input);
    if failure.Some? then Err(failure.value)
    else Ok(EnvelopeOf(h, o, input.subject, ChecksOf(input, |input.checks|)))
  }

  method CheckArtifacts(h: Hashes, input: Input, r: RunnerResult) returns (valid: bool)
    ensures valid <==> ValidArtifacts(h, input, r)
  {
    var ids: set<string> := {};
    var digests: set<string> := {};
    for i := 0 to |r.artifacts|
      invariant forall j :: 0 <= j < i ==> ValidArtifact(h, input, r.artifacts[j])
      invariant Seen(ids, ArtifactIds(r.artifacts)[..i]) && Seen(digests, ArtifactDigests(r.artifacts)[..i])
    {
      SeenNext(ids, ArtifactIds(r.artifacts), i);
      SeenNext(digests, ArtifactDigests(r.artifacts), i);
      hide Seen, DistinctIds;
      var a := r.artifacts[i];
      if h.isBlank(a.id) || !h.isDigest(a.digest) {
        return false;
      }
      if a.id in ids || a.digest in digests {
        return false;
      }
      ids := ids + {a.id};
      digests := digests + {a.digest};
      if a.id !in input.contents || h.bytes(input.contents[a.id]) != a.digest {
        return false;
      }
    }
    assert ArtifactIds(r.artifacts)[..|r.artifacts|] == ArtifactIds(r.artifacts);
    assert ArtifactDigests(r.artifacts)[..|r.artifacts|] == ArtifactDigests(r.artifacts);
    valid := !(r.status == Passed && r.artifacts == []);
  }

  lemma {:induction false} ResultForFinds(results: seq<RunnerResult>, id: string)
    ensures ResultFor(results, id).Some? <==> Answered(results, id)
    ensures ResultFor(results, id).Some? ==>
              ResultFor(results, id).value in results && ResultFor(results, id).value.checkId == id
  {
    if results != [] {
      var init, last := results[..|results| - 1], results[|results| - 1];
      assert results == init + [last];
      ResultForFinds(init, id);
    }
  }

  method IngestEvidence(h: Hashes, o: Orders, input: Input) returns (reply: Result<Envelope, IngestError>)
    ensures reply == Ingested(h, o, input)
  {
    hide ValidResult, ValidArtifacts, EnvelopeOf;
    if || input.boundPlanId != input.subject.executionPlanId
       || input.boundPlanDigest != input.subject.executionPlanDigest {
      return Err(PlanNotBound);
    }
    var duplicate := HasDuplicates(PlanIds(input.checks));
    if duplicate {
      return Err(DuplicatePlanCheck);
    }
    hide PlanIds, DistinctIds;
    for n := 0 to |input.checks|
      invariant RequiredFrom(input, 0) == RequiredFrom(input, n)
    {
      if input.checks[n].required && input.checks[n].status == NotRequired {
        return Err(RequiredNotRequired(input.checks[n].id));
      }
    }
    var stored: map<string, RunnerResult> := map[];
    for n := 0 to |input.results|
      invariant ResultsError(h, input, 0) == ResultsError(h, input, n)
      invariant Stored(stored, input.results[..n])
    {
      var r := input.results[n];
      StoredTells(stored, input.results[..n], r.checkId);
      hide Stored;
      if r.checkId in stored {
        return Err(MultipleResults(r.checkId));
      }
      if !Planned(input, r.checkId) {
        return Err(UnexpectedResult(r.checkId));
      }
      if !ValidResult(input, r) {
        return Err(InvalidResult(r.checkId));
      }
      var valid := CheckArtifacts(h, input, r);
      if !valid {
        return Err(InvalidArtifacts(r.checkId));
      }
      StoredNext(stored, input.results[..n], r);
      assert input.results[..n + 1] == input.results[..n] + [r];
      stored := stored[r.checkId := r];
    }
    assert input.results[..|input.results|] == input.results;
    var checks: seq<Check> := [];
    for n := 0 to |input.checks|
      invariant FabricatedFrom(input, 0) == FabricatedFrom(input, n)
      invariant checks == ChecksOf(input, n)
    {
      var p := input.checks[n];
      StoredTells(stored, input.results, p.id);
      hide Stored;
      if p.id !in stored && p.status == Passed {
        return Err(FabricatedPass(p.id));
      }
      checks := checks + [CheckOf(p, if p.id in stored then Some(stored[p.id]) else None)];
    }
    reply := Ok(EnvelopeOf(h, o, input.subject, checks));
  }

  /** The results so far, each under its check. */
  ghost predicate Stored(stored: map<string, RunnerResult>, results: seq<RunnerResult>) {
    forall id :: ResultFor(results, id) == if id in stored then Some(stored[id]) else None
  }

  lemma StoredTells(stored: map<string, RunnerResult>, results: seq<RunnerResult>, id: string)
    requires Stored(stored, results)
    ensures ResultFor(results, id) == if id in stored then Some(stored[id]) else None
    ensures id in stored <==> Answered(results, id)
  {
    ResultForFinds(results, id);
  }

  lemma StoredNext(stored: map<string, RunnerResult>, results: seq<RunnerResult>, r: RunnerResult)
    requires Stored(stored, results)
    ensures Stored(stored[r.checkId := r], results + [r])
  {
    assert (results + [r])[..|results|] == results;
  }

  // Verification.

  ghost function ChecksIssues(h: Hashes, checks: seq<Check>): set<Issue> {
    (set c | c in checks && c.required && c.status == Passed && c.artifacts == [] :: RequiredArtifactMissing(c.id))
    + (set c | c in checks && c.required && c.status == NotRequired :: RequiredStateInvalid(c.id))
    + (set c | c in checks && (exists i :: 0 <= i < |c.artifacts| && !h.isDigest(c.artifacts[i])) ::
         ArtifactDigestInvalid(c.id))
  }

  function UnverifiedIssue(o: Orders, e: Envelope): set<Issue> {
    if && DistinctIds(e.unverified)
       && Sort(o.units, e.unverified) == DeriveUnverified(o, NormalizeChecks(o, e.checks)) then {}
    else {UnverifiedMismatch}
  }

  ghost function StateIssues(h: Hashes, o: Orders, e: Envelope): set<Issue> {
    (if DistinctIds(CheckIds(e.checks)) then {} else {CheckDuplicate})
    + ChecksIssues(h, e.checks) + UnverifiedIssue(o, e)
  }

  ghost function Issues(h: Hashes, o: Orders, e: Envelope): set<Issue> {
    StateIssues(h, o, e)
    + (if h.json(EvidencePreimage(o, e.subject, e.checks, e.unverified)) == e.digest then {} else {DigestMismatch})
    + (if h.idOf(e.digest) == e.evidenceId then {} else {IdMismatch})
  }

  /** The issues of one check. */
  function CheckIssues(h: Hashes, c: Check): set<Issue> {
    (if c.required && c.status == Passed && c.artifacts == [] then {RequiredArtifactMissing(c.id)} else {})
    + (if c.required && c.status == NotRequired then {RequiredStateInvalid(c.id)} else {})
    + (if exists i :: 0 <= i < |c.artifacts| && !h.isDigest(c.artifacts[i]) then {ArtifactDigestInvalid(c.id)} else {})
  }

  lemma OneCheckMore(h: Hashes, checks: seq<Check>, c: Check)
    ensures ChecksIssues(h, checks + [c]) == ChecksIssues(h, checks) + CheckIssues(h, c)
  {
    assert forall d :: d in checks + [c] <==> d in checks || d == c;
  }

  method FindStateIssues(h: Hashes, o: Orders, e: Envelope) returns (issues: set<Issue>)
    ensures issues == StateIssues(h, o, e)
  {
    hide CheckIssues, ChecksIssues, DistinctIds, NormalizeChecks, DeriveUnverified;
    issues := {};
    var duplicate := HasDuplicates(CheckIds(e.checks));
    if duplicate {
      issues := {CheckDuplicate};
    }
    ghost var before := issues;
    NoChecks(h, e.checks);
    for n := 0 to |e.checks|
      invariant issues == before + ChecksIssues(h, e.checks[..n])
    {
      assert e.checks[..n + 1] == e.checks[..n] + [e.checks[n]];
      OneCheckMore(h, e.checks[..n], e.checks[n]);
      issues := issues + CheckIssues(h, e.checks[n]);
    }
    assert e.checks[..|e.checks|] == e.checks;
    var repeated := HasDuplicates(e.unverified);
    if repeated || Sort(o.units, e.unverified) != DeriveUnverified(o, NormalizeChecks(o, e.checks)) {
      issues := issues + {UnverifiedMismatch};
    }
  }

  lemma NoChecks(h: Hashes, checks: seq<Check>)
    ensures ChecksIssues(h, checks[..0]) == {}
  {
  }

  method VerifyEvidence(h: Hashes, o: Orders, e: Envelope) returns (issues: set<Issue>)
    ensures issues == Issues(h, o, e)
  {
    hide StateIssues, EvidencePreimage;
    issues := FindStateIssues(h, o, e);
    if h.json(EvidencePreimage(o, e.subject, e.checks, e.unverified)) != e.digest {
      issues := issues + {DigestMismatch};
    }
    if h.idOf(e.digest) != e.evidenceId {
      issues := issues + {IdMismatch};
    }
  }

  // Summary.

  datatype Summary = Summary(total: nat, byStatus: map<Status, nat>, requiredComplete: bool, failed: seq<string>)

  function CountOf(checks: seq<Check>, status: Status): nat {
    if checks == [] then 0
    else CountOf(checks[..|checks| - 1], status) + if checks[|checks| - 1].status == status then 1 else 0
  }

  function FailedIds(checks: seq<Check>): seq<string> {
    if checks == [] then []
    else
      var rest := FailedIds(checks[..|checks| - 1]);
      if checks[|checks| - 1].status == Failed then rest + [checks[|checks| - 1].id] else rest
  }

  const STATES: seq<Status> := [Passed, Failed, NotRun, NotRequired, Blocked, Cancelled, TimedOut, Unverified]

  /** None: the evidence does not verify. */
  method SummarizeEvidence(h: Hashes, o: Orders, e: Envelope) returns (summary: Option<Summary>)
    ensures summary.None? <==> Issues(h, o, e) != {}
    ensures summary.Some? ==>
              && summary.value.total == |e.checks|
              && (forall s :: s in summary.value.byStatus && summary.value.byStatus[s] == CountOf(e.checks, s))
              && (summary.value.requiredComplete <==> DeriveUnverified(o, e.checks) == [])
              && summary.value.failed == Sort(o.units, FailedIds(e.checks))
  {
    var issues := VerifyEvidence(h, o, e);
    hide Issues;
    if issues != {} {
      return None;
    }
    var byStatus: map<Status, nat> := map s: Status | s in STATES :: 0;
    var failed: seq<string> := [];
    forall s: Status ensures s in STATES {
      AllStates(s);
    }
    for n := 0 to |e.checks|
      invariant forall s :: s in byStatus && byStatus[s] == CountOf(e.checks[..n], s)
      invariant failed == FailedIds(e.checks[..n])
    {
      assert e.checks[..n + 1][..n] == e.checks[..n];
      byStatus := byStatus[e.checks[n].status := byStatus[e.checks[n].status] + 1];
      if e.checks[n].status == Failed {
        failed := failed + [e.checks[n].id];
      }
    }
    assert e.checks[..|e.checks|] == e.checks;
    summary := Some(Summary(|e.checks|, byStatus, DeriveUnverified(o, e.checks) == [], Sort(o.units, failed)));
  }

  lemma AllStates(s: Status)
    ensures s in STATES
  {
    assert STATES[0] == Passed && STATES[1] == Failed && STATES[2] == NotRun && STATES[3] == NotRequired
        && STATES[4] == Blocked && STATES[5] == Cancelled && STATES[6] == TimedOut && STATES[7] == Unverified;
  }
}
