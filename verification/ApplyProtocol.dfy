/**
 Every interleaving of prepare, apply and cancel on one service. Each run has a
 sandbox and a map of kept contents of its own, and gives up control at awaits.
 */
module ApplyProtocol {
  import opened Base
  import opened MemorySandbox
  import opened Rollback
  import opened Approvals
  import opened ApplyService

  /** source is the number of the map of kept contents that the undo found under the run id. */
  datatype Phase =
    | Applying
    | Undoing(left: nat, source: nat)
    | Closing(rollbackFailed: bool)
    | Finished(status: Status)

  /** A run in its sandbox; mine is the number of its reservation and map, done counts the operations performed. */
  datatype Process = Process(
    input: PrepareInput,
    startedAt: int,
    mine: nat,
    setup: Setup,
    start: Session,
    contents: nat -> Option<Bytes>,
    session: Session,
    entries: seq<RollbackEntry>,
    events: nat,
    done: nat,
    failed: bool,
    undone: bool,
    failures: nat,
    phase: Phase)
  {
    function Nonce(): string { input.approval.nonce }
    function RunId(): string { RunIdOf(Nonce()) }
    function Ops(): seq<Operation> { input.plan.operations }
  }

  /** A stored preparation; its id stands for the identity of the preparation object. */
  datatype Held = Held(id: nat, input: PrepareInput, ready: bool, consumed: bool)

  /** A run that has reserved its approval; created tells that its sandbox was asked for. */
  datatype Reserved = Reserved(input: PrepareInput, startedAt: int, contents: nat -> Option<Bytes>, created: bool)
  {
    function Nonce(): string { input.approval.nonce }
    function RunId(): string { RunIdOf(Nonce()) }
  }

  type Kept = map<int, Option<Bytes>>

  /**
   What the runs share: the stored preparations, the used approvals, the cancelled runs, and the table that tells which
   kept contents belong to a run id. maps holds every map of kept contents ever made, one for each reservation, and
   registered the one last made for a run id.
   */
  datatype World = World(
    held: map<string, Held>,
    nextId: nat,
    used: set<string>,
    cancelled: set<string>,
    reservations: seq<Reserved>,
    maps: seq<Kept>,
    registered: map<string, nat>,
    processes: seq<Process>)

  /** start is None if the provider gives no sandbox; one that is closed cannot be read either. */
  datatype Event =
    | Prepare(input: PrepareInput, now: int)
    | Apply(runId: string, id: nat, now: int, contents: nat -> Option<Bytes>)
    | Create(reservation: nat, openedAt: int, clock: nat -> int, start: Option<Session>)
    | Cancel(runId: string)
    | Continue(index: nat)

  const INITIAL := World(map[], 0, {}, {}, [], [], map[], [])

  function Never(): nat -> bool {
    (i: nat) => false
  }

  ghost function AfterPrepare(seal: Approval -> string, w: World, input: PrepareInput, now: int): World {
    var nonce := input.approval.nonce;
    var ready := Bound(seal, input, now) && nonce !in w.used && PermitsAll(input.approval, input.plan.operations);
    w.(held := w.held[RunIdOf(nonce) := Held(w.nextId, input, ready, false)], nextId := w.nextId + 1)
  }

  /** The checks and the reservation: nothing comes between them. */
  ghost function AfterApply(seal: Approval -> string, w: World, runId: string, id: nat, now: int,
                            contents: nat -> Option<Bytes>): World
  {
    if runId !in w.held || w.held[runId].consumed || w.held[runId].id != id then w
    else
      var held := w.held[runId];
      var nonce := held.input.approval.nonce;
      if FirstViolation(seal, held.input, now).Some? then w
      else
        var taken := w.(held := w.held[runId := held.(consumed := true)]);
        if !held.ready || runId in w.cancelled || nonce in w.used then taken
        else
          taken.(used := w.used + {nonce},
                 reservations := w.reservations + [Reserved(held.input, now, contents, false)],
                 maps := w.maps + [map[]],
                 registered := w.registered[RunIdOf(nonce) := |w.maps|])
  }

  /** The sandbox is made after an await, with the policy that is then stored under the run id. */
  ghost function AfterCreate(w: World, i: nat, openedAt: int, clock: nat -> int, start: Option<Session>): World {
    if i >= |w.reservations| || w.reservations[i].created then w
    else
      var r := w.reservations[i];
      var asked := w.(reservations := w.reservations[i := r.(created := true)]);
      if r.RunId() !in w.held || start.None? || start.value.closed then asked
      else
        var setup := Setup(w.held[r.RunId()].input.sandboxPolicy, openedAt, clock);
        var p := Process(r.input, r.startedAt, i, setup, start.value, r.contents, start.value, [], 0, 0, false,
                         false, 0, Applying);
        asked.(processes := w.processes + [p])
  }

  /**
   What a run does from one await to the next: registered is the map now found under its run id, mine are the contents
   it has kept itself, and found those in the map that its undo reads.
   */
  ghost function AfterContinue(p: Process, cancelled: bool, registered: nat, mine: Kept, found: Kept): (Process, Kept) {
    match p.phase
    case Applying =>
      if p.failed || p.done >= |p.Ops()| then
        if p.failed || cancelled then (p.(undone := true, phase := Undoing(|p.entries|, registered)), mine)
        else (p.(phase := Closing(false)), mine)
      else if cancelled then (p.(failed := true), mine)
      else
        var op := p.Ops()[p.done];
        var step := Perform(p.setup, p.session, p.done, op, p.contents(p.done));
        (p.(session := step.session,
            entries := if step.record.Some? then p.entries + [RollbackEntry(p.done, op.path)] else p.entries,
            events := if step.applied then p.events + 1 else p.events,
            done := p.done + 1,
            failed := !step.applied),
         if step.record.Some? then mine[p.done := step.record.value.prior] else mine)
    case Undoing(left, source) =>
      if left == 0 then
        var mismatch := p.session.closed || p.session.tree != p.start.tree;
        (p.(phase := Closing(p.failures > 0 || mismatch)), mine)
      else if left > |p.entries| || p.entries[left - 1].operationIndex !in found then
        (p.(failures := p.failures + 1, phase := Undoing(left - 1, source)), mine)
      else
        var e := p.entries[left - 1];
        var (t, ok) := AfterUndo(p.setup, Directories(p.start.tree), p.session,
                                 Record(e.operationIndex, e.path, found[e.operationIndex]));
        (p.(session := t, failures := if ok then p.failures else p.failures + 1, phase := Undoing(left - 1, source)),
         mine)
    case Closing(rollbackFailed) =>
      (p.(phase := Finished(if cancelled then WasCancelled
                            else if rollbackFailed then RollbackFailed
                            else if p.failed then RolledBack
                            else Applied)), mine)
    case Finished(_) => (p, mine)
  }

  function MapAt(w: World, i: nat): Kept {
    if i < |w.maps| then w.maps[i] else map[]
  }

  function RegisteredFor(w: World, runId: string): nat {
    if runId in w.registered then w.registered[runId] else |w.maps|
  }

  function Found(w: World, p: Process): Kept {
    if p.phase.Undoing? then MapAt(w, p.phase.source) else map[]
  }

  ghost function Continued(w: World, p: Process): (Process, Kept) {
    AfterContinue(p, p.RunId() in w.cancelled, RegisteredFor(w, p.RunId()), MapAt(w, p.mine), Found(w, p))
  }

  ghost function Next(seal: Approval -> string, w: World, event: Event): World {
    match event
    case Prepare(input, now) => AfterPrepare(seal, w, input, now)
    case Apply(runId, id, now, contents) => AfterApply(seal, w, runId, id, now, contents)
    case Create(i, openedAt, clock, start) => AfterCreate(w, i, openedAt, clock, start)
    case Cancel(runId) => w.(cancelled := w.cancelled + {runId})
    case Continue(index) =>
      if index >= |w.processes| || w.processes[index].mine >= |w.maps| then w
      else
        var (q, kept) := Continued(w, w.processes[index]);
        w.(processes := w.processes[index := q], maps := w.maps[q.mine := kept])
  }

  ghost function After(seal: Approval -> string, events: seq<Event>): World {
    if events == [] then INITIAL else Next(seal, After(seal, events[..|events| - 1]), events[|events| - 1])
  }

  // Safety: no hypothesis on nonces, plans, trees or limits.

  ghost function Progress(p: Process): Rollback.Run
    requires p.done <= |p.Ops()|
  {
    Forward(p.setup, p.start, p.Ops(), p.contents, Never(), p.done)
  }

  /** What holds of one run, cancelled telling whether its id is among the cancelled ones. */
  ghost predicate SafeProcess(p: Process, cancelled: bool) {
    && p.done <= |p.Ops()|
    && Progress(p).events == p.events
    && (Progress(p).failed ==> p.failed)
    && (!Progress(p).failed && p.failed ==> cancelled)
    && (p.undone ==> p.failed || cancelled)
    && (!p.undone ==> Progress(p).session == p.session)
    && match p.phase
       case Applying => !p.undone
       case Undoing(_, _) => p.undone
       case Closing(rollbackFailed) =>
         && (!p.undone ==> !p.failed && p.done == |p.Ops()|)
         && (p.undone && !rollbackFailed ==> p.session.tree == p.start.tree)
       case Finished(status) =>
         && (status.Applied? ==> !p.undone && !p.failed && p.done == |p.Ops()|)
         && (status.RolledBack? ==> p.failed && p.session.tree == p.start.tree)
         && (status.RolledBack? && !cancelled ==> Progress(p).failed)
  }

  /** The run started under an unexpired approval that is bound to its plan and permits each of its operations. */
  ghost predicate Authorized(seal: Approval -> string, r: Reserved) {
    Bound(seal, r.input, r.startedAt) && PermitsAll(r.input.approval, r.input.plan.operations)
  }

  ghost predicate WellStored(runId: string, held: Held) {
    && RunIdOf(held.input.approval.nonce) == runId
    && (held.ready ==> PermitsAll(held.input.approval, held.input.plan.operations))
  }

  /** Each reservation is authorized, is the only one of its nonce, and has a map. */
  ghost predicate Ledger(seal: Approval -> string, w: World) {
    && (forall runId :: runId in w.held ==> WellStored(runId, w.held[runId]))
    && |w.maps| == |w.reservations|
    && (forall i :: 0 <= i < |w.reservations| ==>
          w.reservations[i].Nonce() in w.used && Authorized(seal, w.reservations[i]))
    && (forall i, j :: 0 <= i < j < |w.reservations| ==> w.reservations[i].Nonce() != w.reservations[j].Nonce())
    && (forall runId :: runId in w.registered ==>
          w.registered[runId] < |w.reservations| && w.reservations[w.registered[runId]].RunId() == runId)
  }

  /** p runs what r has reserved. */
  ghost predicate Runs(p: Process, r: Reserved) {
    r.created && p.input == r.input && p.startedAt == r.startedAt && p.contents == r.contents
  }

  /** Each run has a reservation of its own. */
  ghost predicate Owned(w: World) {
    && (forall k :: 0 <= k < |w.processes| ==>
          w.processes[k].mine < |w.reservations| && Runs(w.processes[k], w.reservations[w.processes[k].mine]))
    && (forall k, l :: 0 <= k < l < |w.processes| ==> w.processes[k].mine != w.processes[l].mine)
  }

  ghost predicate AllSafe(w: World) {
    forall k :: 0 <= k < |w.processes| ==> SafeProcess(w.processes[k], w.processes[k].RunId() in w.cancelled)
  }

  ghost predicate Safe(seal: Approval -> string, w: World) {
    Ledger(seal, w) && Owned(w) && AllSafe(w)
  }

  lemma SafeContinue(p: Process, cancelled: bool, registered: nat, mine: Kept, found: Kept)
    requires SafeProcess(p, cancelled)
    ensures SafeProcess(AfterContinue(p, cancelled, registered, mine, found).0, cancelled)
  {
    hide Perform, AfterUndo;
  }

  lemma LedgerReserves(seal: Approval -> string, w: World, r: Reserved)
    requires Ledger(seal, w) && Authorized(seal, r) && r.Nonce() !in w.used
    ensures Ledger(seal, w.(used := w.used + {r.Nonce()},
                            reservations := w.reservations + [r],
                            maps := w.maps + [map[]],
                            registered := w.registered[r.RunId() := |w.maps|]))
  {
    hide Authorized, WellStored;
  }

  lemma LedgerTakes(seal: Approval -> string, w: World, runId: string)
    requires Ledger(seal, w) && runId in w.held
    ensures Ledger(seal, w.(held := w.held[runId := w.held[runId].(consumed := true)]))
  {
    hide Authorized, PermitsAll;
  }

  lemma LedgerApply(seal: Approval -> string, w: World, event: Event)
    requires Ledger(seal, w) && event.Apply?
    ensures Ledger(seal, Next(seal, w, event))
  {
    hide Ledger, Bound, PermitsAll;
    if event.runId in w.held {
      var held := w.held[event.runId];
      LedgerTakes(seal, w, event.runId);
      var taken := w.(held := w.held[event.runId := held.(consumed := true)]);
      var r := Reserved(held.input, event.now, event.contents, false);
      if Authorized(seal, r) && r.Nonce() !in w.used {
        LedgerReserves(seal, taken, r);
      }
      if held.ready { ReadyIsPermitted(seal, w, event.runId); }
    }
  }

  lemma ReadyIsPermitted(seal: Approval -> string, w: World, runId: string)
    requires Ledger(seal, w) && runId in w.held && w.held[runId].ready
    ensures PermitsAll(w.held[runId].input.approval, w.held[runId].input.plan.operations)
  {
    assert WellStored(runId, w.held[runId]);
  }

  lemma LedgerCreate(seal: Approval -> string, w: World, i: nat)
    requires Ledger(seal, w) && i < |w.reservations|
    ensures Ledger(seal, w.(reservations := w.reservations[i := w.reservations[i].(created := true)]))
  {
    hide Bound, PermitsAll, WellStored;
  }

  lemma LedgerNext(seal: Approval -> string, w: World, event: Event)
    requires Ledger(seal, w)
    ensures Ledger(seal, Next(seal, w, event))
  {
    match event {
      case Prepare(_, _) =>
        hide Bound, PermitsAll, Authorized;
      case Apply(_, _, _, _) =>
        hide Ledger, Next;
        LedgerApply(seal, w, event);
      case Create(i, _, _, _) =>
        hide Authorized, WellStored;
        if i < |w.reservations| { LedgerCreate(seal, w, i); }
      case _ =>
        hide Authorized, WellStored, Continued;
    }
  }

  /** A run changes by its own steps only, and keeps what it was started with. */
  lemma ProcessNext(seal: Approval -> string, w: World, event: Event, k: nat)
    requires k < |w.processes|
    ensures var v := Next(seal, w, event);
            && k < |v.processes|
            && (event != Continue(k) ==> v.processes[k] == w.processes[k])
            && var p, q := w.processes[k], v.processes[k];
            && q.input == p.input && q.startedAt == p.startedAt && q.start == p.start && q.setup == p.setup
            && q.contents == p.contents && q.mine == p.mine
  {
    hide Continued, FirstViolation, Bound, PermitsAll;
    if event == Continue(k) {
      ContinueKeepsTheRun(w, w.processes[k]);
    }
  }

  /** A reservation stays, and so does its map but for the steps of its own run. */
  lemma ReservationNext(seal: Approval -> string, w: World, event: Event, i: nat)
    requires Owned(w) && i < |w.reservations| == |w.maps|
    ensures var v := Next(seal, w, event);
            && i < |v.reservations| && i < |v.maps|
            && v.reservations[i].(created := w.reservations[i].created) == w.reservations[i]
            && (w.reservations[i].created ==> v.reservations[i].created)
            && ((forall k: nat :: event == Continue(k) && k < |w.processes| ==> w.processes[k].mine != i) ==>
                  v.maps[i] == w.maps[i])
  {
    hide Continued, FirstViolation, Bound, PermitsAll;
    if event.Continue? && event.index < |w.processes| {
      ContinueKeepsTheRun(w, w.processes[event.index]);
    }
  }

  /** A run is new only when its sandbox is created. */
  lemma CreatedNext(seal: Approval -> string, w: World, event: Event)
    ensures var v := Next(seal, w, event);
            |v.processes| > |w.processes| ==>
              && event.Create? && |v.processes| == |w.processes| + 1
              && event.reservation < |w.reservations| && !w.reservations[event.reservation].created
              && var p := v.processes[|w.processes|];
              && p.mine == event.reservation < |v.reservations| && Runs(p, v.reservations[p.mine])
              && p.session == p.start && p.events == 0 && p.done == 0 && !p.failed && !p.undone && p.phase.Applying?
              && p.entries == [] && p.failures == 0 && v.maps == w.maps
  {
    hide Continued, FirstViolation, Bound, PermitsAll;
  }

  lemma OwnedNext(seal: Approval -> string, w: World, event: Event)
    requires Ledger(seal, w) && Owned(w)
    ensures Owned(Next(seal, w, event))
  {
    hide Authorized, WellStored, Next;
    var v := Next(seal, w, event);
    forall k | 0 <= k < |w.processes|
      ensures k < |v.processes| && v.processes[k].mine == w.processes[k].mine < |w.reservations|
      ensures v.processes[k].mine < |v.reservations| && Runs(v.processes[k], v.reservations[v.processes[k].mine])
    {
      ProcessNext(seal, w, event, k);
      ReservationNext(seal, w, event, w.processes[k].mine);
    }
    CreatedNext(seal, w, event);
    ProcessesGrow(seal, w, event);
  }

  lemma ProcessesGrow(seal: Approval -> string, w: World, event: Event)
    ensures |w.processes| <= |Next(seal, w, event).processes| <= |w.processes| + 1
  {
    hide Continued, FirstViolation, Bound, PermitsAll;
  }

  lemma AllSafeNext(seal: Approval -> string, w: World, event: Event)
    requires AllSafe(w)
    ensures AllSafe(Next(seal, w, event))
  {
    hide SafeProcess, AfterContinue, Bound, PermitsAll, FirstViolation;
    var v := Next(seal, w, event);
    match event {
      case Create(_, _, _, _) =>
        if |v.processes| > |w.processes| {
          var p := v.processes[|w.processes|];
          SafeStart(p, p.RunId() in v.cancelled);
        }
      case Cancel(runId) =>
        forall k | 0 <= k < |w.processes|
          ensures SafeProcess(w.processes[k], w.processes[k].RunId() in w.cancelled + {runId})
        {
          CancelStaysSafe(w.processes[k], w.processes[k].RunId() in w.cancelled);
        }
      case Continue(k) =>
        if k < |w.processes| {
          var p := w.processes[k];
          SafeContinue(p, p.RunId() in w.cancelled, RegisteredFor(w, p.RunId()), MapAt(w, p.mine), Found(w, p));
          ContinueKeepsTheRun(w, p);
        }
      case _ =>
    }
  }

  lemma SafeStart(p: Process, cancelled: bool)
    requires p.session == p.start && p.events == 0 && p.done == 0 && !p.failed && !p.undone && p.phase.Applying?
    ensures SafeProcess(p, cancelled)
  {
  }

  lemma CancelStaysSafe(p: Process, cancelled: bool)
    requires SafeProcess(p, cancelled)
    ensures SafeProcess(p, true)
  {
  }

  lemma ContinueKeepsTheRun(w: World, p: Process)
    ensures var q := Continued(w, p).0;
            && q.input == p.input && q.startedAt == p.startedAt && q.start == p.start && q.setup == p.setup
            && q.contents == p.contents && q.mine == p.mine
  {
    hide Perform, AfterUndo;
  }

  lemma {:induction false} AlwaysSafe(seal: Approval -> string, events: seq<Event>)
    ensures Safe(seal, After(seal, events))
  {
    if events != [] {
      hide Ledger, Owned, AllSafe, Next;
      var w, event := After(seal, events[..|events| - 1]), events[|events| - 1];
      AlwaysSafe(seal, events[..|events| - 1]);
      LedgerNext(seal, w, event);
      OwnedNext(seal, w, event);
      AllSafeNext(seal, w, event);
    }
  }

  /** In every interleaving an approval starts at most one run. */
  lemma OneRunPerApproval(seal: Approval -> string, events: seq<Event>, k: nat, l: nat)
    requires k < |After(seal, events).processes| && l < |After(seal, events).processes|
    requires After(seal, events).processes[k].Nonce() == After(seal, events).processes[l].Nonce()
    ensures k == l
  {
    hide AllSafe, Next, Authorized, After;
    AlwaysSafe(seal, events);
    var w := After(seal, events);
    var i, j := w.processes[k].mine, w.processes[l].mine;
    assert w.reservations[i].Nonce() == w.reservations[j].Nonce();
  }

  /**
   In every interleaving a run that finishes as applied did the whole plan, one that finishes as rolled back left the
   initial tree, and each was authorized when it started.
   */
  lemma FinishedMeans(seal: Approval -> string, events: seq<Event>, k: nat)
    requires k < |After(seal, events).processes|
    ensures var p := After(seal, events).processes[k];
            && Bound(seal, p.input, p.startedAt)
            && (forall op :: op in p.Ops() ==>
                  op.kind in p.input.approval.allowedOperations && Covered(p.input.approval, op.path))
    ensures var p := After(seal, events).processes[k];
            p.phase == Finished(Applied) ==>
              && p.events == |p.Ops()|
              && (forall i: nat :: i < |p.Ops()| ==> p.Ops()[i].kind.DeleteFile? || p.contents(i).Some?)
              && (forall q ::
                    FileAt(p.session.tree, q) == Intended(p.start.tree, p.Ops(), p.contents, |p.Ops()|, q))
    ensures var p := After(seal, events).processes[k];
            p.phase == Finished(RolledBack) ==> p.failed && p.session.tree == p.start.tree
  {
    AlwaysSafe(seal, events);
    var w := After(seal, events);
    var p := w.processes[k];
    hide After, Next, Bound, Permits, Covered;
    assert SafeProcess(p, p.RunId() in w.cancelled);
    assert Authorized(seal, w.reservations[p.mine]);
    forall op | op in p.Ops()
      ensures op.kind in p.input.approval.allowedOperations && Covered(p.input.approval, op.path)
    {
      PermitsExactly(p.input.approval, op);
    }
    if p.phase == Finished(Applied) {
      UnfailedRunIsApplied(p.setup, p.start, p.Ops(), p.contents, Never(), |p.Ops()|);
    }
  }

  lemma AfterOne(seal: Approval -> string, events: seq<Event>, event: Event)
    ensures After(seal, events + [event]) == Next(seal, After(seal, events), event)
  {
    assert (events + [event])[..|events|] == events;
  }

  // The policy of the sandbox.

  /** While reservation i waits for its sandbox, nothing is prepared under its run id. */
  ghost predicate NothingPreparedBetween(seal: Approval -> string, events: seq<Event>, i: nat) {
    forall n: nat :: n < |events| ==> LeavesWaiting(After(seal, events[..n]), events[n], i)
  }

  ghost predicate Waiting(w: World, i: nat) {
    i < |w.reservations| && !w.reservations[i].created
  }

  ghost predicate LeavesWaiting(w: World, event: Event, i: nat) {
    Waiting(w, i) && event.Prepare? ==> RunIdOf(event.input.approval.nonce) != w.reservations[i].RunId()
  }

  /** What is stored for a waiting reservation is what it was checked with, and so is the policy of its sandbox. */
  ghost predicate CheckedPolicy(w: World, i: nat) {
    && (Waiting(w, i) ==>
          var r := w.reservations[i]; r.RunId() in w.held && w.held[r.RunId()].input == r.input)
    && forall k :: 0 <= k < |w.processes| && w.processes[k].mine == i ==>
         w.processes[k].setup.policy == w.processes[k].input.sandboxPolicy
  }

  lemma CheckedPolicyNext(seal: Approval -> string, w: World, event: Event, i: nat)
    requires Ledger(seal, w) && Owned(w) && LeavesWaiting(w, event, i) && CheckedPolicy(w, i)
    ensures CheckedPolicy(Next(seal, w, event), i)
  {
    hide Bound, PermitsAll, Continued, FirstViolation, Authorized;
    if event.Continue? && event.index < |w.processes| {
      ContinueKeepsTheRun(w, w.processes[event.index]);
    }
  }

  lemma {:induction false} AlwaysCheckedPolicy(seal: Approval -> string, events: seq<Event>, i: nat)
    requires NothingPreparedBetween(seal, events, i)
    ensures CheckedPolicy(After(seal, events), i)
  {
    if events != [] {
      var before := events[..|events| - 1];
      forall n: nat | n < |before| ensures LeavesWaiting(After(seal, before[..n]), before[n], i) {
        assert before[..n] == events[..n];
      }
      hide LeavesWaiting, CheckedPolicy, Next, Ledger, Owned, AllSafe;
      AlwaysCheckedPolicy(seal, before, i);
      AlwaysSafe(seal, before);
      CheckedPolicyNext(seal, After(seal, before), events[|events| - 1], i);
    }
  }

  /** A run works under the policy its approval was checked against, if nothing is prepared under its id meanwhile. */
  lemma PolicyIsTheCheckedOne(seal: Approval -> string, events: seq<Event>, k: nat)
    requires k < |After(seal, events).processes|
    requires NothingPreparedBetween(seal, events, After(seal, events).processes[k].mine)
    ensures var p := After(seal, events).processes[k];
            p.setup.policy == p.input.sandboxPolicy && WithinPolicy(p.input.approval.limits, p.setup.policy)
  {
    AlwaysCheckedPolicy(seal, events, After(seal, events).processes[k].mine);
    FinishedMeans(seal, events, k);
  }

  /** Otherwise it works under the policy prepared meanwhile, whatever that is, and for whatever plan. */
  lemma LaterPolicyIsUsed(seal: Approval -> string, input: PrepareInput, other: PrepareInput, now: int, later: int,
                          contents: nat -> Option<Bytes>, openedAt: int, clock: nat -> int, start: Session)
    requires Bound(seal, input, now) && PermitsAll(input.approval, input.plan.operations) && !start.closed
    requires RunIdOf(other.approval.nonce) == RunIdOf(input.approval.nonce)
    ensures var runId := RunIdOf(input.approval.nonce);
            var w := After(seal, [Prepare(input, now)] + [Apply(runId, 0, now, contents)] + [Prepare(other, later)]
                                 + [Create(0, openedAt, clock, Some(start))]);
            && |w.processes| == 1
            && w.processes[0].input == input && w.processes[0].setup.policy == other.sandboxPolicy
  {
    var runId := RunIdOf(input.approval.nonce);
    var first, second, third := Prepare(input, now), Apply(runId, 0, now, contents), Prepare(other, later);
    AfterOne(seal, [], first);
    assert [] + [first] == [first];
    AfterOne(seal, [first], second);
    AfterOne(seal, [first] + [second], third);
    AfterOne(seal, [first] + [second] + [third], Create(0, openedAt, clock, Some(start)));
    hide Bound, PermitsAll;
    assert After(seal, []) == INITIAL;
    hide After;
    var w := After(seal, [first] + [second]);
    assert w.reservations == [Reserved(input, now, contents, false)] && w.processes == [];
  }
}
