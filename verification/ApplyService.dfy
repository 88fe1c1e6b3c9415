/**
 The apply service: preparations, one-time approvals, cancellation, and the
 run that applies a plan and undoes it when something fails.
 */
module ApplyService {
  import opened Base
  import opened MemorySandbox
  import opened Rollback
  import opened Approvals

  /** Its identity is the capability: an equal copy authorizes nothing. */
  class Preparation {
    const runId: string
    const nonce: string
    const operations: seq<Operation>
    const ready: bool

    constructor (runId: string, nonce: string, operations: seq<Operation>, ready: bool)
      ensures this.runId == runId && this.nonce == nonce && this.operations == operations && this.ready == ready
    {
      this.runId, this.nonce, this.operations, this.ready := runId, nonce, operations, ready;
    }
  }

  datatype Stored = Stored(preparation: Preparation, input: PrepareInput, consumed: bool)

  datatype Status = Applied | RolledBack | RollbackFailed | WasCancelled

  datatype Report = Report(status: Status, before: Tree, after: Tree, events: nat)

  datatype RollbackEntry = RollbackEntry(operationIndex: nat, path: Path)

  function RunIdOf(nonce: string): string {
    "run_" + nonce[..if |nonce| <= 16 then |nonce| else 16]
  }

  /** The content of operation i, if the provider answers and the digest is the planned one. */
  function Checked(digestOf: Bytes -> nat, op: Operation, answer: Option<Bytes>): Option<Bytes> {
    if answer.Some? && (op.contentDigest.None? || digestOf(answer.value) == op.contentDigest.value) then answer
    else None
  }

  ghost function Contents(digestOf: Bytes -> nat, ops: seq<Operation>, provider: nat -> Option<Bytes>):
    nat -> Option<Bytes>
  {
    (i: nat) => if i < |ops| then Checked(digestOf, ops[i], provider(i)) else None
  }

  lemma ContentsAt(digestOf: Bytes -> nat, ops: seq<Operation>, provider: nat -> Option<Bytes>, i: nat)
    ensures Contents(digestOf, ops, provider)(i) == if i < |ops| then Checked(digestOf, ops[i], provider(i)) else None
  {
  }

  /** arrivals(i): a cancellation arrives between read i-1 of the set of cancelled runs and read i. */
  ghost predicate CancelledBy(arrivals: nat -> bool, i: int) {
    exists j: nat :: j <= i && arrivals(j)
  }

  ghost function Cancels(arrivals: nat -> bool): nat -> bool {
    (i: nat) => CancelledBy(arrivals, i)
  }

  /** What a run reports on a plan, from the session it starts in. */
  ghost function ReportOf(setup: Setup, s: Session, ops: seq<Operation>, contents: nat -> Option<Bytes>,
                          arrivals: nat -> bool): Report
  {
    var run := Forward(setup, s, ops, contents, Cancels(arrivals), |ops|);
    var undo := run.failed || CancelledBy(arrivals, |ops|);
    var undone := UndoAll(setup, Directories(s.tree), run.session, run.records);
    var rollbackFailed := undo && (undone.failures > 0 || undone.session.tree != s.tree);
    Report(
      if CancelledBy(arrivals, |ops| + 1) then WasCancelled
      else if rollbackFailed then RollbackFailed
      else if run.failed then RolledBack
      else Applied,
      s.tree,
      if undo then undone.session.tree else run.session.tree,
      run.events)
  }

  // What the report means.

  /**
   The status of every run: a cancellation before the last read hides all else; otherwise a failed run is rolled back,
   which means that the initial tree is there, unless its undo failed; and an applied one keeps its work.
   */
  lemma StatusTells(setup: Setup, s: Session, ops: seq<Operation>, contents: nat -> Option<Bytes>,
                    arrivals: nat -> bool)
    ensures var report := ReportOf(setup, s, ops, contents, arrivals);
            var run := Forward(setup, s, ops, contents, Cancels(arrivals), |ops|);
            var undone := UndoAll(setup, Directories(s.tree), run.session, run.records);
            && report.before == s.tree && report.events == run.events
            && (report.status == WasCancelled <==> exists k: nat :: k <= |ops| + 1 && arrivals(k))
            && (report.status == RollbackFailed <==>
                  && report.status != WasCancelled && run.failed
                  && (undone.failures > 0 || undone.session.tree != s.tree))
            && (report.status == RolledBack ==>
                  run.failed && undone.failures == 0 && report.after == s.tree)
            && (report.status == Applied ==> !run.failed && report.after == run.session.tree)
  {
    hide Forward, UndoAll, Directories;
  }

  lemma AppliedMeansApplied(setup: Setup, s: Session, ops: seq<Operation>, contents: nat -> Option<Bytes>,
                            arrivals: nat -> bool)
    requires ReportOf(setup, s, ops, contents, arrivals).status.Applied?
    ensures var report := ReportOf(setup, s, ops, contents, arrivals);
            && report.events == |ops|
            && (forall i: nat :: i < |ops| ==> ops[i].kind.DeleteFile? || contents(i).Some?)
            && (forall q :: FileAt(report.after, q) == Intended(s.tree, ops, contents, |ops|, q))
  {
    UnfailedRunIsApplied(setup, s, ops, contents, Cancels(arrivals), |ops|);
  }

  /** The digests of the plan decide the contents: two applied runs on the same tree leave the same files. */
  lemma PlanDigestsDecideTheFiles(digestOf: Bytes -> nat, setup: Setup, s: Session, setup': Setup, s': Session,
                                  ops: seq<Operation>, provider: nat -> Option<Bytes>, provider': nat -> Option<Bytes>,
                                  arrivals: nat -> bool, arrivals': nat -> bool)
    requires forall b, b' :: digestOf(b) == digestOf(b') ==> b == b'
    requires forall i :: 0 <= i < |ops| ==> ops[i].contentDigest.Some?
    requires s.tree == s'.tree
    requires ReportOf(setup, s, ops, Contents(digestOf, ops, provider), arrivals).status.Applied?
    requires ReportOf(setup', s', ops, Contents(digestOf, ops, provider'), arrivals').status.Applied?
    ensures forall q :: FileAt(ReportOf(setup, s, ops, Contents(digestOf, ops, provider), arrivals).after, q)
                     == FileAt(ReportOf(setup', s', ops, Contents(digestOf, ops, provider'), arrivals').after, q)
  {
    var contents, contents' := Contents(digestOf, ops, provider), Contents(digestOf, ops, provider');
    AppliedMeansApplied(setup, s, ops, contents, arrivals);
    AppliedMeansApplied(setup', s', ops, contents', arrivals');
    hide ReportOf;
    forall i: nat | i < |ops| && !ops[i].kind.DeleteFile? ensures contents(i) == contents'(i) {
      ContentsAt(digestOf, ops, provider, i);
      ContentsAt(digestOf, ops, provider', i);
    }
    forall q
      ensures Intended(s.tree, ops, contents, |ops|, q) == Intended(s.tree, ops, contents', |ops|, q)
    {
      SameContentsSameFiles(s.tree, ops, contents, contents', |ops|, q);
    }
  }

  lemma {:induction false} SameContentsSameFiles(tree: Tree, ops: seq<Operation>, contents: nat -> Option<Bytes>,
                                                 contents': nat -> Option<Bytes>, n: nat, q: Path)
    requires n <= |ops|
    requires forall i: nat :: i < n && !ops[i].kind.DeleteFile? ==> contents(i) == contents'(i)
    ensures Intended(tree, ops, contents, n, q) == Intended(tree, ops, contents', n, q)
  {
    if n > 0 {
      SameContentsSameFiles(tree, ops, contents, contents', n - 1, q);
    }
  }

  /**
   A run whose recorded operations could be undone and which kept the room to do so is never reported as failed to roll
   back: it is applied, or it leaves the initial tree, unless it was cancelled too late to be undone.
   */
  lemma UndoableRunIsRolledBack(setup: Setup, s: Session, ops: seq<Operation>, contents: nat -> Option<Bytes>,
                                arrivals: nat -> bool)
    requires WellFormed(s.tree) && !s.closed && FileCount(s.tree) <= setup.policy.maxFiles
    requires UndoableRun(setup, s, ops, contents, Cancels(arrivals))
    requires var run := Forward(setup, s, ops, contents, Cancels(arrivals), |ops|);
             Room(setup, run.session, run.records)
    ensures var report := ReportOf(setup, s, ops, contents, arrivals);
            var run := Forward(setup, s, ops, contents, Cancels(arrivals), |ops|);
            && report.status == (if CancelledBy(arrivals, |ops| + 1) then WasCancelled
                                 else if run.failed then RolledBack
                                 else Applied)
            && (run.failed || CancelledBy(arrivals, |ops|) ==> report.after == s.tree)
            && (!run.failed && !CancelledBy(arrivals, |ops|) ==>
                  forall q :: FileAt(report.after, q) == Intended(s.tree, ops, contents, |ops|, q))
  {
    RollbackRestores(setup, s, ops, contents, Cancels(arrivals));
    if !Forward(setup, s, ops, contents, Cancels(arrivals), |ops|).failed {
      UnfailedRunIsApplied(setup, s, ops, contents, Cancels(arrivals), |ops|);
    }
    hide Forward, UndoAll, Intended, Room, UndoableRun, Directories;
  }

  /**
   Reported as cancelled does not mean restored: a cancellation that arrives during close comes after the last undo.
   */
  lemma LateCancellationKeepsTheWork(digestOf: Bytes -> nat, content: Bytes)
    ensures var policy := SandboxPolicy(10, |content|, 10, 10, {[]}, {});
            var setup := Setup(policy, 0, (n: nat) => 0);
            var s := Session(map[[] := Directory], 0, 0, 0, false);
            var ops := [Operation(CreateFile, ["a"], None)];
            var contents := Contents(digestOf, ops, (i: nat) => Some(content));
            var report := ReportOf(setup, s, ops, contents, (i: nat) => i == 2);
            report.status.WasCancelled? && FileAt(report.after, ["a"]) == Some(content) && report.after != report.before
  {
    var policy := SandboxPolicy(10, |content|, 10, 10, {[]}, {});
    var setup := Setup(policy, 0, (n: nat) => 0);
    var s := Session(map[[] := Directory], 0, 0, 0, false);
    var ops := [Operation(CreateFile, ["a"], None)];
    var contents := Contents(digestOf, ops, (i: nat) => Some(content));
    var arrivals := (i: nat) => i == 2;
    assert [] <= ["a"];
    assert Writable(policy, ["a"]);
    assert WithParents(s.tree, ["a"], 1) == s.tree;
    assert BlockedAt(s.tree, ["a"]) == 1;
    assert FilePaths(s.tree) == {};
    assert !Cancels(arrivals)(0);
    var run := Forward(setup, s, ops, contents, Cancels(arrivals), 1);
    assert Forward(setup, s, ops, contents, Cancels(arrivals), 0) == Run(s, [], 0, false);
    ContentsAt(digestOf, ops, (i: nat) => Some(content), 0);
    assert Perform(setup, s, 0, ops[0], contents(0)).session == AfterWrite(setup, s, ["a"], content).0;
    assert InTime(setup, 0);
    assert AfterWrite(setup, s, ["a"], content).0.tree == s.tree[["a"] := File(content)];
    assert run.session.tree == s.tree[["a"] := File(content)];
    assert !CancelledBy(arrivals, 1);
    assert CancelledBy(arrivals, 2) by { assert arrivals(2); }
  }

  // The service.

  /** The records that entries stand for, with the contents kept for them. */
  function RecordsOf(entries: seq<RollbackEntry>, kept: map<int, Option<Bytes>>): (records: seq<Record>)
    requires forall e :: e in entries ==> e.operationIndex in kept
    ensures |records| == |entries|
    ensures forall i :: 0 <= i < |entries| ==>
              records[i] == Record(entries[i].operationIndex, entries[i].path, kept[entries[i].operationIndex])
  {
    if entries == [] then []
    else
      var last := entries[|entries| - 1];
      RecordsOf(entries[..|entries| - 1], kept) + [Record(last.operationIndex, last.path, kept[last.operationIndex])]
  }

  lemma UndoAllStep(setup: Setup, initial: set<Path>, s: Session, entries: seq<RollbackEntry>, kept: map<int,
                    Option<Bytes>>,
                    n: nat)
    requires 0 < n <= |entries| && forall e :: e in entries ==> e.operationIndex in kept
    ensures var e := entries[n - 1];
            var (t, ok) := AfterUndo(setup, initial, s, Record(e.operationIndex, e.path, kept[e.operationIndex]));
            var rest := UndoAll(setup, initial, t, RecordsOf(entries[..n - 1], kept));
            UndoAll(setup, initial, s, RecordsOf(entries[..n], kept))
              == rest.(failures := if ok then rest.failures else rest.failures + 1)
  {
    hide AfterUndo;
    assert entries[..n][..n - 1] == entries[..n - 1];
  }

  lemma UndoNothing(setup: Setup, initial: set<Path>, s: Session, entries: seq<RollbackEntry>, kept: map<int,
                    Option<Bytes>>)
    ensures UndoAll(setup, initial, s, RecordsOf(entries[..0], kept)) == Undone(s, 0)
  {
  }

  lemma RecordsGrow(entries: seq<RollbackEntry>, kept: map<int, Option<Bytes>>, entry: RollbackEntry,
                    prior: Option<Bytes>)
    requires forall e :: e in entries ==> e.operationIndex in kept && e.operationIndex < entry.operationIndex
    ensures RecordsOf(entries + [entry], kept[entry.operationIndex := prior])
         == RecordsOf(entries, kept) + [Record(entry.operationIndex, entry.path, prior)]
  {
  }

  lemma AdvanceIs(setup: Setup, run: Rollback.Run, k: nat, op: Operation, content: Option<Bytes>, cancelled: bool)
    requires !run.failed
    ensures var step := Perform(setup, run.session, k, op, content);
            Advance(setup, run, k, op, content, cancelled) ==
            if cancelled then run.(failed := true)
            else Rollback.Run(step.session,
                              if step.record.Some? then run.records + [step.record.value] else run.records,
                              if step.applied then run.events + 1 else run.events,
                              !step.applied)
  {
    hide Perform;
  }

  lemma PerformStaysOpen(setup: Setup, s: Session, k: nat, op: Operation, content: Option<Bytes>)
    ensures Perform(setup, s, k, op, content).session.closed == s.closed
    ensures var record := Perform(setup, s, k, op, content).record;
            record.Some? ==> record.value.index == k && record.value.path == op.path
  {
  }

  lemma {:induction false} FailedStays(setup: Setup, s: Session, ops: seq<Operation>, contents: nat -> Option<Bytes>,
                                       cancelled: nat -> bool, n: nat, m: nat)
    requires n <= m <= |ops|
    requires Forward(setup, s, ops, contents, cancelled, n).failed || n == m
    ensures Forward(setup, s, ops, contents, cancelled, m) == Forward(setup, s, ops, contents, cancelled, n)
    decreases m
  {
    if n < m {
      hide Perform;
      FailedStays(setup, s, ops, contents, cancelled, n, m - 1);
    }
  }

  lemma {:induction false} PruneStaysOpen(setup: Setup, initial: set<Path>, s: Session, p: Path, end: nat)
    requires end <= |p|
    ensures AfterPrune(setup, initial, s, p, end).closed == s.closed
    decreases end
  {
    if end > 0 {
      var t := if p[..end] in initial then s else AfterRemove(setup, s, p[..end]).0;
      PruneStaysOpen(setup, initial, t, p, end - 1);
    }
  }

  lemma {:induction false} UndoStaysOpen(setup: Setup, initial: set<Path>, s: Session, records: seq<Record>)
    ensures UndoAll(setup, initial, s, records).session.closed == s.closed
    decreases |records|
  {
    if records != [] {
      var last := records[|records| - 1];
      if last.prior.None? {
        PruneStaysOpen(setup, initial, AfterRemove(setup, s, last.path).0, last.path, PruneStart(last.path));
      }
      UndoStaysOpen(setup, initial, AfterUndo(setup, initial, s, last).0, records[..|records| - 1]);
    }
  }

  /** Why an application is refused, if it is, and whether the preparation is used up by the attempt. */
  function Admission(seal: Approval -> string, preparations: map<string, Stored>, used: set<string>,
                     cancelled: set<string>, preparation: Preparation, sandboxId: string, now: int):
    (Option<ApplyError>, bool)
  {
    var runId := preparation.runId;
    if runId !in preparations || preparations[runId].consumed || preparations[runId].preparation != preparation then
      (Some(PreparationInvalid), false)
    else
      var violation := FirstViolation(seal, preparations[runId].input, now);
      if violation.Some? then (violation, false)
      else if !preparation.ready then (Some(NotReady), true)
      else if sandboxId == "" then (Some(InputInvalid), true)
      else if runId in cancelled then (Some(Cancelled), true)
      else if preparation.nonce in used then (Some(ApprovalReplayed), true)
      else (None, true)
  }

  lemma BoundIffGates(seal: Approval -> string, input: PrepareInput, now: int, unused: bool)
    ensures var approval := input.approval;
            (Bound(seal, input, now) && unused) <==>
            false !in [
              Integral(seal, approval),
              Unexpired(approval, now),
              unused,
              BindsPlan(input),
              approval.projectSnapshotId == input.projectSnapshotId,
              approval.policySnapshotId == input.policyDigest,
              approval.allowedCommandIds == [] && approval.allowedNetworkHosts == [],
              !input.protectedBranch,
              WithinPolicy(approval.limits, input.sandboxPolicy)]
  {
  }

  /** A call of prepare. */
  datatype Call = Call(input: PrepareInput, now: int)

  /** The sandbox that a provider gives, but for the policy, with which it is asked for. */
  datatype Supply = Supply(openedAt: int, clock: nat -> int, session: Session)

  /** The input last prepared under a run id, if there is one. */
  function Latest(calls: seq<Call>, runId: string): Option<PrepareInput> {
    if calls == [] then None
    else if RunIdOf(calls[|calls| - 1].input.approval.nonce) == runId then Some(calls[|calls| - 1].input)
    else Latest(calls[..|calls| - 1], runId)
  }

  /** Under a run id the input last prepared is stored, unused; where none was, what was stored stays. */
  ghost predicate StoredFor(runId: string, before: map<string, Stored>, latest: Option<PrepareInput>,
                            after: map<string, Stored>)
  {
    match latest
    case None => (runId in after <==> runId in before) && (runId in before ==> after[runId] == before[runId])
    case Some(input) => runId in after && after[runId].input == input && !after[runId].consumed
  }

  ghost predicate StoredAfter(before: map<string, Stored>, calls: seq<Call>, after: map<string, Stored>) {
    forall runId: string :: StoredFor(runId, before, Latest(calls, runId), after)
  }

  /** The policy a sandbox is asked for with: that of the stored input, unless another was prepared meanwhile. */
  function PolicyAfter(own: PrepareInput, calls: seq<Call>, runId: string): SandboxPolicy {
    var latest := Latest(calls, runId);
    if latest.Some? then latest.value.sandboxPolicy else own.sandboxPolicy
  }

  lemma StoredNext(before: map<string, Stored>, calls: seq<Call>, i: nat, sofar: map<string, Stored>, stored: Stored)
    requires i < |calls| && StoredAfter(before, calls[..i], sofar) && stored.input == calls[i].input && !stored.consumed
    ensures StoredAfter(before, calls[..i + 1], sofar[RunIdOf(calls[i].input.approval.nonce) := stored])
  {
    hide RunIdOf;
    var more, id := calls[..i + 1], RunIdOf(calls[i].input.approval.nonce);
    assert more[..i] == calls[..i];
    var after := sofar[id := stored];
    forall runId: string ensures StoredFor(runId, before, Latest(more, runId), after) {
      assert StoredFor(runId, before, Latest(calls[..i], runId), sofar);
    }
  }

  lemma StoredNow(before: map<string, Stored>, calls: seq<Call>, after: map<string, Stored>, runId: string)
    requires StoredAfter(before, calls, after) && runId in before
    ensures runId in after && after[runId].input.sandboxPolicy == PolicyAfter(before[runId].input, calls, runId)
  {
    assert StoredFor(runId, before, Latest(calls, runId), after);
  }

  datatype ApplyOutcome = Rejected(error: ApplyError) | Completed(report: Report)

  class ApplyService {
    const digestOf: Bytes -> nat
    const seal: Approval -> string
    var preparations: map<string, Stored>
    var usedApprovals: set<string>
    var cancelledRuns: set<string>
    var rollbackContents: map<string, map<int, Option<Bytes>>>

    constructor (digestOf: Bytes -> nat, seal: Approval -> string)
      ensures this.digestOf == digestOf && this.seal == seal
      ensures preparations == map[] && usedApprovals == {} && cancelledRuns == {} && rollbackContents == map[]
    {
      this.digestOf, this.seal := digestOf, seal;
      preparations, usedApprovals, cancelledRuns, rollbackContents := map[], {}, {}, map[];
    }

    /** Every gate is evaluated; a failed gate leaves a preparation that is stored but not ready. */
    method Prepare(input: PrepareInput, now: int) returns (preparation: Preparation)
      modifies this`preparations
      ensures fresh(preparation)
      ensures preparation.runId == RunIdOf(input.approval.nonce) && preparation.nonce == input.approval.nonce
      ensures preparation.operations == input.plan.operations
      ensures var a, plan, policy := input.approval, input.plan, input.sandboxPolicy;
              preparation.ready <==>
                && a.integrityDigest == seal(a.(integrityDigest := ""))
                && a.expiresAt != None && a.expiresAt.value >= now
                && a.nonce !in usedApprovals
                && plan.applyMode && plan.approvalRequired && !input.protectedBranch
                && a.planId == plan.id && a.planDigest == plan.digest
                && a.projectSnapshotId == input.projectSnapshotId && a.policySnapshotId == input.policyDigest
                && |a.allowedCommandIds| == 0 && |a.allowedNetworkHosts| == 0
                && a.limits.maxFiles <= policy.maxFiles && a.limits.maxBytes <= policy.maxBytes
                && a.limits.maxOperations <= policy.maxOperations
                && a.limits.maxDurationSeconds <= policy.maxDurationSeconds
                && forall k :: 0 <= k < |plan.operations| ==>
                     && plan.operations[k].kind in a.allowedOperations
                     && exists i, n :: && 0 <= i < |a.allowedPaths| && 0 <= n <= |plan.operations[k].path|
                                       && a.allowedPaths[i] == plan.operations[k].path[..n]
                                       && (n > 0 || plan.operations[k].path == [])
      ensures preparations == old(preparations)[preparation.runId := Stored(preparation, input, false)]
    {
      var approval, ops := input.approval, input.plan.operations;
      var gates := [
        Integral(seal, approval),
        Unexpired(approval, now),
        approval.nonce !in usedApprovals,
        BindsPlan(input),
        approval.projectSnapshotId == input.projectSnapshotId,
        approval.policySnapshotId == input.policyDigest,
        approval.allowedCommandIds == [] && approval.allowedNetworkHosts == [],
        !input.protectedBranch,
        WithinPolicy(approval.limits, input.sandboxPolicy)];
      ghost var bound := false !in gates;
      assert bound <==> Bound(seal, input, now) && approval.nonce !in usedApprovals by {
        BoundIffGates(seal, input, now, approval.nonce !in usedApprovals);
      }
      var i := 0;
      while i < |ops|
        invariant 0 <= i <= |ops|
        invariant false !in gates <==> bound && PermitsAll(approval, ops[..i])
      {
        gates := gates + [Permits(approval, ops[i])];
        assert ops[..i + 1] == ops[..i] + [ops[i]];
        i := i + 1;
      }
      assert ops[..i] == ops;
      BoundExactly(seal, input, now);
      PermitsAllExactly(approval, ops);
      preparation := new Preparation(RunIdOf(approval.nonce), approval.nonce, ops, false !in gates);
      preparations := preparations[preparation.runId := Stored(preparation, input, false)];
    }

    method Cancel(runId: string)
      modifies this`cancelledRuns
      ensures cancelledRuns == old(cancelledRuns) + {runId}
    {
      cancelledRuns := cancelledRuns + {runId};
    }

    /** The awaits of the run from read lo to read hi: cancellations of it may arrive. */
    method Await(runId: string, arrivals: nat -> bool, lo: nat, hi: nat)
      requires lo <= hi + 1
      requires runId in cancelledRuns <==> CancelledBy(arrivals, lo - 1)
      modifies this`cancelledRuns
      ensures runId in cancelledRuns <==> CancelledBy(arrivals, hi)
    {
      var i := lo;
      while i <= hi
        invariant lo <= i <= hi + 1
        invariant runId in cancelledRuns <==> CancelledBy(arrivals, i - 1)
      {
        if arrivals(i) {
          Cancel(runId);
        }
        i := i + 1;
      }
    }

    /** One operation on the sandbox; prior is kept before the sandbox is changed. */
    method PerformOperation(sandbox: MemorySandbox, runId: string, index: nat, op: Operation, answer: Option<Bytes>)
      returns (recorded: bool, applied: bool)
      requires runId in rollbackContents
      modifies sandbox, this`rollbackContents
      ensures var step := Perform(sandbox.setup, old(sandbox.State()), index, op, Checked(digestOf, op, answer));
              && sandbox.State() == step.session && recorded == step.record.Some? && applied == step.applied
              && rollbackContents == if recorded
                 then old(rollbackContents)[runId := old(rollbackContents)[runId][index := step.record.value.prior]]
                 else old(rollbackContents)
    {
      recorded, applied := false, false;
      var prior := sandbox.Read(op.path);
      var reply: Reply;
      match op.kind {
        case DeleteFile =>
          if prior.None? {
            return;
          }
          rollbackContents := rollbackContents[runId := rollbackContents[runId][index := prior]];
          reply := sandbox.Remove(op.path);
        case _ =>
          var content := Checked(digestOf, op, answer);
          if content.None? {
            return;
          }
          rollbackContents := rollbackContents[runId := rollbackContents[runId][index := prior]];
          reply := sandbox.Write(op.path, content.value);
      }
      recorded, applied := true, reply.Done?;
    }

    /** Undoes one record; removals are best effort. */
    method UndoOperation(sandbox: MemorySandbox, initial: set<Path>, record: Record) returns (ok: bool)
      modifies sandbox
      ensures (sandbox.State(), ok) == AfterUndo(sandbox.setup, initial, old(sandbox.State()), record)
    {
      var path := record.path;
      if record.prior.Some? {
        var reply := sandbox.Write(path, record.prior.value);
        return reply.Done?;
      }
      var _ := sandbox.Remove(path);
      var end: nat := PruneStart(path);
      ghost var s := sandbox.State();
      while end > 0
        invariant end <= |path|
        invariant AfterPrune(sandbox.setup, initial, s, path, PruneStart(path))
               == AfterPrune(sandbox.setup, initial, sandbox.State(), path, end)
      {
        var directory := path[..end];
        if directory !in initial {
          var _ := sandbox.Remove(directory);
        }
        end := end - 1;
      }
      ok := true;
    }

    function KeptFor(runId: string): map<int, Option<Bytes>>
      reads this
    {
      if runId in rollbackContents then rollbackContents[runId] else map[]
    }

    /** Undoes the records from the last to the first, then compares the tree with the one before. */
    method RollbackInSandbox(runId: string, sandbox: MemorySandbox, entries: seq<RollbackEntry>, before: Tree)
      returns (failures: nat)
      modifies sandbox
      ensures (forall e :: e in entries ==> e.operationIndex in KeptFor(runId)) ==>
                var undone := UndoAll(sandbox.setup, Directories(before), old(sandbox.State()),
                                      RecordsOf(entries, KeptFor(runId)));
                && sandbox.State() == undone.session
                && failures == undone.failures + if undone.session.closed || undone.session.tree != before then 1 else 0
      ensures !(forall e :: e in entries ==> e.operationIndex in KeptFor(runId)) ==> failures > 0
    {
      hide AfterUndo, UndoAll, RecordsOf;
      var initial := set p | p in before && before[p].Directory?;
      assert initial == Directories(before);
      var kept := KeptFor(runId);
      failures := 0;
      var n: nat := |entries|;
      assert entries[..n] == entries;
      ghost var s := sandbox.State();
      ghost var complete := forall e :: e in entries ==> e.operationIndex in kept;
      while n > 0
        invariant n <= |entries|
        invariant complete ==>
                    var rest := UndoAll(sandbox.setup, initial, sandbox.State(), RecordsOf(entries[..n], kept));
                    UndoAll(sandbox.setup, initial, s, RecordsOf(entries, kept))
                      == rest.(failures := rest.failures + failures)
        invariant !complete && failures == 0 ==> exists e :: e in entries[..n] && e.operationIndex !in kept
      {
        var entry := entries[n - 1];
        if entry.operationIndex in kept {
          if complete {
            UndoAllStep(sandbox.setup, initial, sandbox.State(), entries, kept, n);
          }
          var ok := UndoOperation(sandbox, initial,
                                  Record(entry.operationIndex, entry.path, kept[entry.operationIndex]));
          failures := if ok then failures else failures + 1;
        } else {
          failures := failures + 1;
        }
        n := n - 1;
      }
      UndoNothing(sandbox.setup, initial, sandbox.State(), entries, kept);
      var after := sandbox.Snapshot();
      if after != Some(before) {
        failures := failures + 1;
      }
    }

    /** The checks that are made again before the first mutation: the first one that fails. */
    method AssertBound(input: PrepareInput, now: int) returns (violation: Option<ApplyError>)
      ensures violation == FirstViolation(seal, input, now)
    {
      var approval, plan, policy := input.approval, input.plan, input.sandboxPolicy;
      if seal(approval.(integrityDigest := "")) != approval.integrityDigest {
        return Some(DigestMismatch);
      }
      if approval.expiresAt.None? {
        return Some(ApprovalMissing);
      }
      if now > approval.expiresAt.value {
        return Some(Expired);
      }
      if !plan.applyMode {
        return Some(DriftPlan);
      }
      if !plan.approvalRequired {
        return Some(ApprovalMissing);
      }
      if approval.planId != plan.id {
        return Some(DriftPlan);
      }
      if approval.planDigest != plan.digest {
        return Some(DriftPlan);
      }
      if approval.projectSnapshotId != input.projectSnapshotId {
        return Some(DriftProject);
      }
      if approval.policySnapshotId != input.policyDigest {
        return Some(DriftPolicy);
      }
      if |approval.allowedCommandIds| > 0 {
        return Some(CommandDenied);
      }
      if |approval.allowedNetworkHosts| > 0 {
        return Some(NetworkDenied);
      }
      if approval.limits.maxFiles > policy.maxFiles || approval.limits.maxBytes > policy.maxBytes {
        return Some(LimitsExceeded);
      }
      if || approval.limits.maxOperations > policy.maxOperations
         || approval.limits.maxDurationSeconds > policy.maxDurationSeconds {
        return Some(LimitsExceeded);
      }
      if input.protectedBranch {
        return Some(DriftProject);
      }
      violation := None;
    }

    /**
     Applies a prepared plan in the sandbox the provider gives, if it gives one. The checks up to the reservation of the
     approval come before the first await, so no other call can come between them; other preparations may come during
     that await, and the sandbox is asked for with the policy that is then stored under the run id.
     */
    method Apply(preparation: Preparation, sandboxId: string, meanwhile: seq<Call>, supply: Option<Supply>,
                 provider: nat -> Option<Bytes>, arrivals: nat -> bool, now: int)
      returns (outcome: ApplyOutcome, sandbox: MemorySandbox?)
      modifies this`preparations, this`usedApprovals, this`cancelledRuns, this`rollbackContents
      ensures var (error, consumed) := Admission(seal, old(preparations), old(usedApprovals), old(cancelledRuns),
                                                 preparation, sandboxId, now);
              var runId := preparation.runId;
              var taken := if !consumed then old(preparations)
                           else old(preparations)[runId := old(preparations)[runId].(consumed := true)];
              && usedApprovals == old(usedApprovals) + (if error.None? then {preparation.nonce} else {})
              && (error.Some? ==> preparations == taken && rollbackContents == old(rollbackContents))
              && (error.None? ==> StoredAfter(taken, meanwhile, preparations))
              && outcome == if error.Some? then Rejected(error.value)
                            else if supply.None? || supply.value.session.closed then Rejected(InputInvalid)
                            else
                              var policy := PolicyAfter(old(preparations)[runId].input, meanwhile, runId);
                              Completed(ReportOf(Setup(policy, supply.value.openedAt, supply.value.clock),
                                                 supply.value.session, preparation.operations,
                                                 Contents(digestOf, preparation.operations, provider), arrivals))
      ensures outcome.Rejected? ==> cancelledRuns == old(cancelledRuns)
      ensures sandbox != null ==> fresh(sandbox) && sandbox.closed
      ensures outcome.Completed? ==> sandbox != null && sandbox.tree == outcome.report.after
    {
      var runId := preparation.runId;
      if runId !in preparations || preparations[runId].consumed || preparations[runId].preparation != preparation {
        return Rejected(PreparationInvalid), null;
      }
      var stored := preparations[runId];
      var violation := AssertBound(stored.input, now);
      if violation.Some? {
        return Rejected(violation.value), null;
      }
      preparations := preparations[runId := stored.(consumed := true)];
      if !preparation.ready {
        return Rejected(NotReady), null;
      }
      if sandboxId == "" {
        return Rejected(InputInvalid), null;
      }
      if runId in cancelledRuns {
        return Rejected(Cancelled), null;
      }
      if preparation.nonce in usedApprovals {
        return Rejected(ApprovalReplayed), null;
      }
      usedApprovals := usedApprovals + {preparation.nonce};
      rollbackContents := rollbackContents[runId := map[]];
      ghost var taken := preparations;
      PrepareMeanwhile(meanwhile);
      StoredNow(taken, meanwhile, preparations, runId);
      hide StoredAfter, PolicyAfter, ReportOf, Contents, Bound;
      if supply.None? {
        return Rejected(InputInvalid), null;
      }
      var setup := Setup(preparations[runId].input.sandboxPolicy, supply.value.openedAt, supply.value.clock);
      sandbox := new MemorySandbox.From(setup, supply.value.session);
      var before := sandbox.Snapshot();
      if before.None? {
        sandbox.Close();
        return Rejected(InputInvalid), sandbox;
      }
      var report := Run(preparation, sandbox, provider, arrivals);
      outcome := Completed(report);
    }

    /** The calls of prepare that come during an await. */
    method PrepareMeanwhile(calls: seq<Call>)
      modifies this`preparations
      ensures StoredAfter(old(preparations), calls, preparations)
    {
      for i := 0 to |calls|
        invariant StoredAfter(old(preparations), calls[..i], preparations)
      {
        ghost var before := preparations;
        var preparation := Prepare(calls[i].input, calls[i].now);
        StoredNext(old(preparations), calls, i, before, preparations[preparation.runId]);
      }
      assert calls[..|calls|] == calls;
    }

    /** From the first await on: apply, undo if that failed or was cancelled, close, report. */
    method Run(preparation: Preparation, sandbox: MemorySandbox, provider: nat -> Option<Bytes>, arrivals: nat -> bool)
      returns (report: Report)
      requires !sandbox.closed
      requires preparation.runId !in cancelledRuns
      requires preparation.runId in rollbackContents && rollbackContents[preparation.runId] == map[]
      modifies sandbox, this`cancelledRuns, this`rollbackContents
      ensures report == ReportOf(sandbox.setup, old(sandbox.State()), preparation.operations,
                                 Contents(digestOf, preparation.operations, provider), arrivals)
      ensures sandbox.closed && sandbox.tree == report.after
    {
      hide Advance, Perform, UndoAll, RecordsOf, Checked;
      var runId, ops := preparation.runId, preparation.operations;
      ghost var s, contents := sandbox.State(), Contents(digestOf, ops, provider);
      var before := sandbox.tree;
      var entries: seq<RollbackEntry> := [];
      var i, events, failed := 0, 0, false;
      while i < |ops| && !failed
        invariant 0 <= i <= |ops|
        invariant !sandbox.closed
        invariant runId in cancelledRuns <==> CancelledBy(arrivals, i - 1)
        invariant runId in rollbackContents
        invariant forall e :: e in entries ==> e.operationIndex in rollbackContents[runId] && e.operationIndex < i
        invariant Forward(sandbox.setup, s, ops, contents, Cancels(arrivals), i)
               == Rollback.Run(sandbox.State(), RecordsOf(entries, rollbackContents[runId]), events, failed)
      {
        Await(runId, arrivals, i, i);
        ghost var run := Rollback.Run(sandbox.State(), RecordsOf(entries, rollbackContents[runId]), events, failed);
        AdvanceIs(sandbox.setup, run, i, ops[i], contents(i), runId in cancelledRuns);
        if runId in cancelledRuns {
          failed := true;
        } else {
          PerformStaysOpen(sandbox.setup, sandbox.State(), i, ops[i], Checked(digestOf, ops[i], provider(i)));
          ghost var kept := rollbackContents[runId];
          var recorded, applied := PerformOperation(sandbox, runId, i, ops[i], provider(i));
          if recorded {
            RecordsGrow(entries, kept, RollbackEntry(i, ops[i].path), rollbackContents[runId][i]);
            entries := entries + [RollbackEntry(i, ops[i].path)];
          }
          events := if applied then events + 1 else events;
          failed := !applied;
        }
        i := i + 1;
      }
      FailedStays(sandbox.setup, s, ops, contents, Cancels(arrivals), i, |ops|);
      Await(runId, arrivals, i, |ops|);
      var rollbackFailed := false;
      if failed || runId in cancelledRuns {
        UndoStaysOpen(sandbox.setup, Directories(before), sandbox.State(), RecordsOf(entries, rollbackContents[runId]));
        var failures := RollbackInSandbox(runId, sandbox, entries, before);
        rollbackFailed := failures > 0;
      }
      Await(runId, arrivals, |ops| + 1, |ops| + 1);
      sandbox.Close();
      var status := if runId in cancelledRuns then WasCancelled
                    else if rollbackFailed then RollbackFailed
                    else if failed then RolledBack
                    else Applied;
      report := Report(status, before, sandbox.tree, events);
    }
  }
}
