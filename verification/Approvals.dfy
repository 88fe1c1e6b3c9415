/**
 Approvals: what one is bound to, what it permits, and the checks of both
 before a plan is prepared and again before it is applied.
 */
module Approvals {
  import opened Base
  import opened MemorySandbox
  import opened Rollback

  datatype Limits = Limits(maxFiles: nat, maxBytes: nat, maxOperations: nat, maxDurationSeconds: int)

  /** expiresAt is None for a text that is no date. */
  datatype Approval = Approval(
    nonce: string,
    integrityDigest: string,
    expiresAt: Option<int>,
    planId: string,
    planDigest: string,
    projectSnapshotId: string,
    policySnapshotId: string,
    allowedOperations: seq<Kind>,
    allowedPaths: seq<Path>,
    allowedCommandIds: seq<string>,
    allowedNetworkHosts: seq<string>,
    limits: Limits)

  datatype Plan = Plan(
    id: string,
    digest: string,
    applyMode: bool,
    approvalRequired: bool,
    operations: seq<Operation>)

  datatype PrepareInput = PrepareInput(
    plan: Plan,
    approval: Approval,
    projectSnapshotId: string,
    policyDigest: string,
    sandboxPolicy: SandboxPolicy,
    protectedBranch: bool)

  datatype ApplyError =
    | DigestMismatch | ApprovalMissing | Expired
    | DriftPlan | DriftProject | DriftPolicy
    | CommandDenied | NetworkDenied | LimitsExceeded
    | PreparationInvalid | NotReady | InputInvalid | Cancelled | ApprovalReplayed

  predicate Integral(seal: Approval -> string, approval: Approval) {
    seal(approval.(integrityDigest := "")) == approval.integrityDigest
  }

  predicate Unexpired(approval: Approval, now: int) {
    approval.expiresAt.Some? && now <= approval.expiresAt.value
  }

  predicate BindsPlan(input: PrepareInput) {
    && input.plan.applyMode && input.plan.approvalRequired
    && input.approval.planId == input.plan.id && input.approval.planDigest == input.plan.digest
  }

  predicate WithinPolicy(limits: Limits, policy: SandboxPolicy) {
    && limits.maxFiles <= policy.maxFiles
    && limits.maxBytes <= policy.maxBytes
    && limits.maxOperations <= policy.maxOperations
    && limits.maxDurationSeconds <= policy.maxDurationSeconds
  }

  /** The approval is intact, valid at this time, bound to this input, and asks for nothing that is switched off. */
  predicate Bound(seal: Approval -> string, input: PrepareInput, now: int) {
    && Integral(seal, input.approval)
    && Unexpired(input.approval, now)
    && BindsPlan(input)
    && input.approval.projectSnapshotId == input.projectSnapshotId
    && input.approval.policySnapshotId == input.policyDigest
    && input.approval.allowedCommandIds == [] && input.approval.allowedNetworkHosts == []
    && WithinPolicy(input.approval.limits, input.sandboxPolicy)
    && !input.protectedBranch
  }

  /** The first check that fails, in the order in which they are made again before a plan is applied. */
  function FirstViolation(seal: Approval -> string, input: PrepareInput, now: int): (violation: Option<ApplyError>)
    ensures violation.None? <==> Bound(seal, input, now)
    ensures violation == Some(Expired) ==> exists at :: input.approval.expiresAt == Some(at) && at < now
  {
    var approval, plan := input.approval, input.plan;
    if !Integral(seal, approval) then Some(DigestMismatch)
    else if approval.expiresAt.None? then Some(ApprovalMissing)
    else if now > approval.expiresAt.value then Some(Expired)
    else if !plan.applyMode then Some(DriftPlan)
    else if !plan.approvalRequired then Some(ApprovalMissing)
    else if approval.planId != plan.id || approval.planDigest != plan.digest then Some(DriftPlan)
    else if approval.projectSnapshotId != input.projectSnapshotId then Some(DriftProject)
    else if approval.policySnapshotId != input.policyDigest then Some(DriftPolicy)
    else if approval.allowedCommandIds != [] then Some(CommandDenied)
    else if approval.allowedNetworkHosts != [] then Some(NetworkDenied)
    else if !WithinPolicy(approval.limits, input.sandboxPolicy) then Some(LimitsExceeded)
    else if input.protectedBranch then Some(DriftProject)
    else None
  }

  /** p is an allowed path or lies below one; the root allows only itself. */
  predicate PathAllowed(allowedPaths: seq<Path>, p: Path) {
    exists allowed :: allowed in allowedPaths && (allowed == p || (allowed != [] && allowed < p))
  }

  predicate Permits(approval: Approval, op: Operation) {
    op.kind in approval.allowedOperations && PathAllowed(approval.allowedPaths, op.path)
  }

  predicate PermitsAll(approval: Approval, ops: seq<Operation>) {
    forall op :: op in ops ==> Permits(approval, op)
  }

  // What the checks mean.

  /** The first n segments of p, all of it or not, are an allowed path; none of them are only if p is the root. */
  ghost predicate Covered(approval: Approval, p: Path) {
    exists i, n :: && 0 <= i < |approval.allowedPaths| && 0 <= n <= |p| && approval.allowedPaths[i] == p[..n]
                   && (n > 0 || p == [])
  }

  /** An operation is permitted if and only if its kind is allowed and its path is covered by an allowed one. */
  lemma PermitsExactly(approval: Approval, op: Operation)
    ensures Permits(approval, op) <==> op.kind in approval.allowedOperations && Covered(approval, op.path)
  {
    var p, allowedPaths := op.path, approval.allowedPaths;
    if allowed :| allowed in allowedPaths && (allowed == p || (allowed != [] && allowed < p)) {
      var i :| 0 <= i < |allowedPaths| && allowedPaths[i] == allowed;
      assert allowedPaths[i] == p[..|allowed|];
    }
    if i, n :| && 0 <= i < |allowedPaths| && 0 <= n <= |p| && allowedPaths[i] == p[..n] && (n > 0 || p == []) {
      assert allowedPaths[i] in allowedPaths && allowedPaths[i] <= p;
    }
  }

  lemma PermitsAllExactly(approval: Approval, ops: seq<Operation>)
    ensures PermitsAll(approval, ops) <==>
            forall i :: 0 <= i < |ops| ==>
              ops[i].kind in approval.allowedOperations && Covered(approval, ops[i].path)
  {
    hide Permits, Covered;
    forall i | 0 <= i < |ops|
      ensures Permits(approval, ops[i]) <==>
              ops[i].kind in approval.allowedOperations && Covered(approval, ops[i].path)
    {
      PermitsExactly(approval, ops[i]);
    }
  }

  /** Bound, of the fields of approval, plan and input alone. */
  lemma BoundExactly(seal: Approval -> string, input: PrepareInput, now: int)
    ensures var a, plan, policy := input.approval, input.plan, input.sandboxPolicy;
            Bound(seal, input, now) <==>
            && a.integrityDigest == seal(a.(integrityDigest := ""))
            && a.expiresAt != None && a.expiresAt.value >= now
            && plan.applyMode && plan.approvalRequired && !input.protectedBranch
            && a.planId == plan.id && a.planDigest == plan.digest
            && a.projectSnapshotId == input.projectSnapshotId && a.policySnapshotId == input.policyDigest
            && |a.allowedCommandIds| == 0 && |a.allowedNetworkHosts| == 0
            && a.limits.maxFiles <= policy.maxFiles && a.limits.maxBytes <= policy.maxBytes
            && a.limits.maxOperations <= policy.maxOperations
            && a.limits.maxDurationSeconds <= policy.maxDurationSeconds
  {
  }
}
