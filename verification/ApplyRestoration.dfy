/**
 Interleaved runs and their undo. The undo finds its kept contents under the
 run id, so it is right exactly if no other run may take that id meanwhile.
 */
module ApplyRestoration {
  import opened MemorySandbox
  import opened Rollback
  import opened Approvals
  import opened ApplyService
  import opened ApplyProtocol

  /** While run k applies its plan, the contents registered under its id are its own. */
  ghost predicate KeepsItsId(seal: Approval -> string, events: seq<Event>, k: nat) {
    forall n: nat :: n <= |events| ==> IdIsKept(After(seal, events[..n]), k)
  }

  ghost predicate IdIsKept(w: World, k: nat) {
    k < |w.processes| && w.processes[k].phase.Applying? ==>
      RegisteredFor(w, w.processes[k].RunId()) == w.processes[k].mine
  }

  ghost function WholeUndo(p: Process): Undone
    requires p.done <= |p.Ops()|
  {
    UndoAll(p.setup, Directories(p.start.tree), Progress(p).session, Progress(p).records)
  }

  ghost predicate NotRestored(p: Process)
    requires p.done <= |p.Ops()|
  {
    WholeUndo(p).failures > 0 || WholeUndo(p).session.closed || WholeUndo(p).session.tree != p.start.tree
  }

  /** The kept contents are those of the run's own records, and its undo is on the way to undoing all of them. */
  ghost predicate Faithful(p: Process, kept: Kept) {
    && p.done <= |p.Ops()|
    && (forall e :: e in p.entries ==> e.operationIndex in kept && e.operationIndex < p.done)
    && RecordsOf(p.entries, kept) == Progress(p).records
    && (!p.undone ==> p.failures == 0 && p.session == Progress(p).session && (!p.failed ==> !Progress(p).failed))
    && match p.phase
       case Applying => !p.undone
       case Undoing(left, source) =>
         && source == p.mine
         && left <= |p.entries|
         && (var rest := UndoAll(p.setup, Directories(p.start.tree), p.session, RecordsOf(p.entries[..left], kept));
             WholeUndo(p) == rest.(failures := rest.failures + p.failures))
       case Closing(rollbackFailed) =>
         && (p.undone ==> p.session == WholeUndo(p).session)
         && (rollbackFailed <==> p.undone && NotRestored(p))
       case Finished(status) =>
         && (p.undone ==> p.session == WholeUndo(p).session)
         && (status.RollbackFailed? ==> NotRestored(p))
  }

  lemma FaithfulApplying(p: Process, registered: nat, kept: Kept)
    requires Faithful(p, kept) && p.phase.Applying? && !p.failed && p.done < |p.Ops()|
    ensures var (q, kept') := AfterContinue(p, false, registered, kept, map[]); Faithful(q, kept')
  {
    var op, content := p.Ops()[p.done], p.contents(p.done);
    PerformStaysOpen(p.setup, p.session, p.done, op, content);
    AdvanceIs(p.setup, Progress(p), p.done, op, content, false);
    hide Perform, UndoAll, RecordsOf, Advance;
    var step := Perform(p.setup, p.session, p.done, op, content);
    var (q, kept') := AfterContinue(p, false, registered, kept, map[]);
    assert Progress(q) == Advance(p.setup, Progress(p), p.done, op, content, false);
    if step.record.Some? {
      RecordsGrow(p.entries, kept, RollbackEntry(p.done, op.path), step.record.value.prior);
    }
    assert RecordsOf(q.entries, kept') == Progress(q).records;
  }

  lemma FaithfulDeciding(p: Process, cancelled: bool, registered: nat, kept: Kept)
    requires Faithful(p, kept) && p.phase.Applying? && registered == p.mine
    requires p.failed || p.done >= |p.Ops()| || cancelled
    ensures var (q, kept') := AfterContinue(p, cancelled, registered, kept, map[]); Faithful(q, kept')
  {
    hide Forward, UndoAll, RecordsOf;
    assert p.entries[..|p.entries|] == p.entries;
  }

  lemma FaithfulUndoing(p: Process, cancelled: bool, registered: nat, kept: Kept)
    requires Faithful(p, kept) && p.phase.Undoing? && p.undone
    ensures var (q, kept') := AfterContinue(p, cancelled, registered, kept, kept); Faithful(q, kept')
  {
    hide Forward, AfterUndo, UndoAll, RecordsOf;
    var left := p.phase.left;
    if left == 0 {
      UndoNothing(p.setup, Directories(p.start.tree), p.session, p.entries, kept);
    } else {
      UndoAllStep(p.setup, Directories(p.start.tree), p.session, p.entries, kept, left);
    }
  }

  lemma FaithfulClosing(p: Process, cancelled: bool, registered: nat, kept: Kept, found: Kept)
    requires Faithful(p, kept) && (p.phase.Closing? || p.phase.Finished?)
    ensures var (q, kept') := AfterContinue(p, cancelled, registered, kept, found); Faithful(q, kept')
  {
    hide Forward, UndoAll, RecordsOf;
  }

  lemma FaithfulContinue(w: World, p: Process)
    requires p.mine < |w.maps| && Faithful(p, w.maps[p.mine]) && SafeProcess(p, p.RunId() in w.cancelled)
    requires p.phase.Applying? ==> RegisteredFor(w, p.RunId()) == p.mine
    ensures var (q, kept) := Continued(w, p); Faithful(q, kept)
  {
    var cancelled, registered, kept := p.RunId() in w.cancelled, RegisteredFor(w, p.RunId()), w.maps[p.mine];
    hide AfterContinue;
    if p.phase.Applying? {
      hide Faithful;
      if p.failed || p.done >= |p.Ops()| || cancelled {
        FaithfulDeciding(p, cancelled, registered, kept);
      } else {
        FaithfulNotDone(p, kept);
        FaithfulApplying(p, registered, kept);
      }
    } else if p.phase.Undoing? {
      FaithfulUndoing(p, cancelled, registered, kept);
    } else {
      hide Faithful;
      FaithfulClosing(p, cancelled, registered, kept, Found(w, p));
    }
  }

  lemma FaithfulNotDone(p: Process, kept: Kept)
    requires Faithful(p, kept)
    ensures p.done <= |p.Ops()|
  {
  }

  lemma FaithfulStart(p: Process)
    requires p.session == p.start && p.entries == [] && p.done == 0 && p.failures == 0
    requires !p.failed && !p.undone && p.phase.Applying?
    ensures Faithful(p, map[])
  {
  }

  ghost predicate FaithfulAt(w: World, k: nat) {
    k < |w.processes| ==> Faithful(w.processes[k], MapAt(w, w.processes[k].mine))
  }

  /** The map of a reservation stays empty until its run has a sandbox. */
  ghost predicate WaitingIsEmpty(w: World) {
    |w.maps| == |w.reservations| && forall i :: 0 <= i < |w.maps| && !w.reservations[i].created ==> w.maps[i] == map[]
  }

  lemma WaitingIsEmptyNext(seal: Approval -> string, w: World, event: Event)
    requires WaitingIsEmpty(w) && Owned(w)
    ensures WaitingIsEmpty(Next(seal, w, event))
  {
    hide AfterContinue, Bound, PermitsAll, FirstViolation;
    if event.Continue? && event.index < |w.processes| {
      ContinueKeepsTheRun(w, w.processes[event.index]);
    }
  }

  lemma {:induction false} AlwaysWaitingIsEmpty(seal: Approval -> string, events: seq<Event>)
    ensures WaitingIsEmpty(After(seal, events))
  {
    if events != [] {
      hide WaitingIsEmpty, Next, Ledger, Owned, AllSafe;
      AlwaysWaitingIsEmpty(seal, events[..|events| - 1]);
      AlwaysSafe(seal, events[..|events| - 1]);
      WaitingIsEmptyNext(seal, After(seal, events[..|events| - 1]), events[|events| - 1]);
    }
  }

  lemma FaithfulNext(seal: Approval -> string, w: World, event: Event, k: nat)
    requires Safe(seal, w) && WaitingIsEmpty(w) && IdIsKept(w, k) && FaithfulAt(w, k)
    ensures FaithfulAt(Next(seal, w, event), k)
  {
    hide Faithful, SafeProcess, Authorized, WellStored, Continued, Next;
    var v := Next(seal, w, event);
    CreatedNext(seal, w, event);
    if k < |w.processes| {
      var p := w.processes[k];
      ProcessNext(seal, w, event, k);
      ReservationNext(seal, w, event, p.mine);
      if event == Continue(k) {
        FaithfulContinue(w, p);
        ContinuedNext(seal, w, k);
      }
    } else if k < |v.processes| {
      FaithfulStart(v.processes[k]);
      ProcessesGrow(seal, w, event);
    }
  }

  lemma ContinuedNext(seal: Approval -> string, w: World, k: nat)
    requires k < |w.processes| && w.processes[k].mine < |w.maps|
    ensures var v := Next(seal, w, Continue(k));
            v.processes[k] == Continued(w, w.processes[k]).0 && |v.maps| == |w.maps|
            && v.maps[w.processes[k].mine] == Continued(w, w.processes[k]).1
  {
    hide AfterContinue;
    ContinueKeepsTheRun(w, w.processes[k]);
  }

  /** A run whose id no other run takes while it applies its plan undoes what it has itself recorded, all of it. */
  lemma {:induction false} AlwaysFaithful(seal: Approval -> string, events: seq<Event>, k: nat)
    requires KeepsItsId(seal, events, k)
    ensures FaithfulAt(After(seal, events), k)
  {
    if events != [] {
      var before := events[..|events| - 1];
      forall n: nat | n <= |before| ensures IdIsKept(After(seal, before[..n]), k) {
        assert before[..n] == events[..n];
      }
      hide FaithfulAt, Next, Safe, WaitingIsEmpty, IdIsKept;
      AlwaysFaithful(seal, before, k);
      AlwaysSafe(seal, before);
      AlwaysWaitingIsEmpty(seal, before);
      assert before[..|before|] == before;
      FaithfulNext(seal, After(seal, before), events[|events| - 1], k);
    }
  }

  /** Cut(n) lets n operations run and then cancels. */
  function Cut(n: nat): nat -> bool {
    (i: nat) => i >= n
  }

  lemma {:induction false} CutRun(p: Process, n: nat)
    requires n <= p.done <= |p.Ops()|
    ensures Forward(p.setup, p.start, p.Ops(), p.contents, Never(), n)
         == Forward(p.setup, p.start, p.Ops(), p.contents, Cut(p.done), n)
  {
    if n > 0 {
      hide Advance;
      CutRun(p, n - 1);
    }
  }

  /**
   In every interleaving, a finished run whose id no other run took while it applied its plan, whose recorded operations
   could be undone and which kept the room to do so, is not reported as failed to roll back, and if it was undone its
   tree is the initial one.
   */
  lemma InterleavedRunIsRestored(seal: Approval -> string, events: seq<Event>, k: nat)
    requires KeepsItsId(seal, events, k) && k < |After(seal, events).processes|
    requires var p := After(seal, events).processes[k];
             && p.phase.Finished?
             && p.done <= |p.Ops()|
             && Steady(p.setup, p.start.tree, p.start)
             && UndoableRun(p.setup, p.start, p.Ops(), p.contents, Cut(p.done))
             && Room(p.setup, Progress(p).session, Progress(p).records)
    ensures var p := After(seal, events).processes[k];
            && !p.phase.status.RollbackFailed?
            && (p.phase.status.RolledBack? || p.undone ==> p.session.tree == p.start.tree)
  {
    AlwaysFaithful(seal, events, k);
    FinishedMeans(seal, events, k);
    var w := After(seal, events);
    hide After, KeepsItsId, Forward, Room, UndoableRun, Steady, Bound, Covered, Faithful;
    FaithfulRunIsRestored(w.processes[k], MapAt(w, w.processes[k].mine));
  }

  lemma FaithfulRunIsRestored(p: Process, kept: Kept)
    requires p.phase.Finished? && Faithful(p, kept)
    requires Steady(p.setup, p.start.tree, p.start)
    requires UndoableRun(p.setup, p.start, p.Ops(), p.contents, Cut(p.done))
    requires Room(p.setup, Progress(p).session, Progress(p).records)
    ensures !p.phase.status.RollbackFailed?
    ensures p.undone ==> p.session.tree == p.start.tree
  {
    hide UndoAll, Forward, RecordsOf, Room, UndoableRun, Steady, Sandwich;
    CutRun(p, p.done);
    ForwardEffect(p.setup, p.start, p.Ops(), p.contents, Cut(p.done), p.done);
    SandwichHere(p.setup, p.start.tree, Progress(p).session);
    UndoFromSandwich(p.setup, p.start, p.Ops(), p.contents, Cut(p.done), p.done, Progress(p).session);
    UndoStaysOpen(p.setup, Directories(p.start.tree), Progress(p).session, Progress(p).records);
    assert !Progress(p).session.closed by { RoomIsOpen(p.setup, Progress(p).session, Progress(p).records); }
  }

  /** In terms of the plan and the session it starts from alone. */
  lemma InterleavedFittingPlanIsRestored(seal: Approval -> string, events: seq<Event>, k: nat)
    requires KeepsItsId(seal, events, k) && k < |After(seal, events).processes|
    requires var p := After(seal, events).processes[k];
             && p.phase.Finished?
             && WellFormed(p.start.tree) && !p.start.closed && FileCount(p.start.tree) <= p.setup.policy.maxFiles
             && PlanFits(p.setup.policy, p.start.tree, p.Ops())
             && PlanRoom(p.setup, p.start, p.Ops(), p.contents)
    ensures var p := After(seal, events).processes[k];
            && !p.phase.status.RollbackFailed?
            && (p.phase.status.RolledBack? || p.undone ==> p.session.tree == p.start.tree)
  {
    var w := After(seal, events);
    var p := w.processes[k];
    AlwaysSafe(seal, events);
    assert SafeProcess(p, p.RunId() in w.cancelled);
    hide After, Forward, PlanFits, PlanRoom, Room, UndoableRun;
    FittingPlanIsUndoable(p.setup, p.start, p.Ops(), p.contents, Cut(p.done));
    FittingPlanHasRoom(p.setup, p.start, p.Ops(), p.contents, Cut(p.done), p.done);
    CutRun(p, p.done);
    InterleavedRunIsRestored(seal, events, k);
  }

  lemma SandwichHere(setup: Setup, initial: Tree, s: Session)
    requires Steady(setup, initial, s)
    ensures Sandwich(Directories(initial), s.tree, s.tree)
  {
  }

  lemma RoomIsOpen(setup: Setup, s: Session, records: seq<Record>)
    requires Room(setup, s, records)
    ensures !s.closed
  {
  }

  // Which runs keep their ids.

  ghost predicate Prepared(events: seq<Event>, input: PrepareInput) {
    exists n :: 0 <= n < |events| && events[n].Prepare? && events[n].input == input
  }

  /** Whatever is stored or reserved was prepared. */
  ghost predicate FromEvents(w: World, events: seq<Event>) {
    && (forall runId :: runId in w.held ==> Prepared(events, w.held[runId].input))
    && (forall i :: 0 <= i < |w.reservations| ==> Prepared(events, w.reservations[i].input))
  }

  lemma PreparedMore(events: seq<Event>, event: Event)
    ensures forall input :: Prepared(events, input) ==> Prepared(events + [event], input)
    ensures event.Prepare? ==> Prepared(events + [event], event.input)
  {
    forall input | Prepared(events, input) ensures Prepared(events + [event], input) {
      var n :| 0 <= n < |events| && events[n].Prepare? && events[n].input == input;
      assert (events + [event])[n] == events[n];
    }
    assert (events + [event])[|events|] == event;
  }

  lemma FromEventsNext(seal: Approval -> string, w: World, events: seq<Event>, event: Event)
    requires FromEvents(w, events)
    ensures FromEvents(Next(seal, w, event), events + [event])
  {
    hide Bound, PermitsAll, Continued, FirstViolation, Prepared;
    PreparedMore(events, event);
  }

  lemma {:induction false} AlwaysFromEvents(seal: Approval -> string, events: seq<Event>)
    ensures FromEvents(After(seal, events), events)
  {
    if events != [] {
      var before, last := events[..|events| - 1], events[|events| - 1];
      assert events == before + [last];
      hide FromEvents, Next;
      AlwaysFromEvents(seal, before);
      FromEventsNext(seal, After(seal, before), before, last);
    }
  }

  /** No other nonce than this is prepared under its run id. */
  ghost predicate AloneOnItsId(events: seq<Event>, nonce: string) {
    forall n :: 0 <= n < |events| && events[n].Prepare? && RunIdOf(events[n].input.approval.nonce) == RunIdOf(nonce) ==>
      events[n].input.approval.nonce == nonce
  }

  /** A run alone on its id keeps it: a nonce is never used twice. */
  lemma AloneKeepsItsId(seal: Approval -> string, events: seq<Event>, k: nat)
    requires k < |After(seal, events).processes|
    requires AloneOnItsId(events, After(seal, events).processes[k].Nonce())
    ensures KeepsItsId(seal, events, k)
  {
    var nonce := After(seal, events).processes[k].Nonce();
    forall n: nat | n <= |events| ensures IdIsKept(After(seal, events[..n]), k) {
      AlwaysSafe(seal, events[..n]);
      AlwaysFromEvents(seal, events[..n]);
      RegisteredStays(seal, events[..n]);
      var w := After(seal, events[..n]);
      if k < |w.processes| {
        NonceStays(seal, events, n, k);
        AloneIsRegistered(seal, w, events[..n], k);
      }
    }
  }

  lemma AloneIsRegistered(seal: Approval -> string, w: World, events: seq<Event>, k: nat)
    requires Ledger(seal, w) && Owned(w) && AllRegistered(w) && FromEvents(w, events)
    requires k < |w.processes| && AloneOnItsId(events, w.processes[k].Nonce())
    ensures RegisteredFor(w, w.processes[k].RunId()) == w.processes[k].mine
  {
    hide Authorized, WellStored;
    var p := w.processes[k];
    var r := w.reservations[p.mine];
    assert r.RunId() in w.registered;
    var i := w.registered[r.RunId()];
    var n :| 0 <= n < |events| && events[n].Prepare? && events[n].input == w.reservations[i].input;
    assert w.reservations[i].Nonce() == p.Nonce();
  }

  /** Each reservation's id is registered. */
  ghost predicate AllRegistered(w: World) {
    forall i :: 0 <= i < |w.reservations| ==> w.reservations[i].RunId() in w.registered
  }

  lemma {:induction false} RegisteredStays(seal: Approval -> string, events: seq<Event>)
    ensures AllRegistered(After(seal, events))
  {
    if events != [] {
      hide Bound, PermitsAll, Continued, FirstViolation;
      RegisteredStays(seal, events[..|events| - 1]);
      AfterLast(seal, events);
      hide After;
    }
  }

  lemma {:induction false} NonceStays(seal: Approval -> string, events: seq<Event>, n: nat, k: nat)
    requires n <= |events| && k < |After(seal, events[..n]).processes|
    ensures k < |After(seal, events).processes|
    ensures var p, q := After(seal, events[..n]).processes[k], After(seal, events).processes[k];
            q.input == p.input && q.setup == p.setup && q.start == p.start && q.contents == p.contents
    decreases |events|
  {
    if n == |events| {
      assert events[..n] == events;
    } else {
      var before := events[..|events| - 1];
      assert before[..n] == events[..n];
      NonceStays(seal, before, n, k);
      AfterLast(seal, events);
      hide After, Next;
      ProcessNext(seal, After(seal, before), events[|events| - 1], k);
    }
  }

  lemma AfterLast(seal: Approval -> string, events: seq<Event>)
    requires events != []
    ensures After(seal, events) == Next(seal, After(seal, events[..|events| - 1]), events[|events| - 1])
  {
  }
}
