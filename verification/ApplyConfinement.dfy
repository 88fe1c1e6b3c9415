/**
 Which files a run can change, in every interleaving: those it plans, and, when
 it is undone, exactly those that lie above a recorded operation.
 */
module ApplyConfinement {
  import opened Base
  import opened MemorySandbox
  import opened Rollback
  import opened Approvals
  import opened ApplyService
  import opened ApplyProtocol
  import opened ApplyRestoration

  // Files that the plan does not name.

  /** The path of an entry lies below q. */
  ghost predicate AboveEntry(entries: seq<RollbackEntry>, q: Path) {
    exists e :: e in entries && q < e.path
  }

  ghost predicate Unchanged(p: Process, q: Path) {
    FileAt(p.session.tree, q) == FileAt(p.start.tree, q)
  }

  /** An unplanned file stays as it is, unless the run is undone and has recorded an operation below it. */
  ghost predicate Confined(p: Process) {
    && (forall e :: e in p.entries ==> Planned(p.Ops(), e.path))
    && forall q :: !Planned(p.Ops(), q)
                   && (p.phase.Applying? || FileAt(p.start.tree, q).None? || !AboveEntry(p.entries, q)) ==>
         Unchanged(p, q)
  }

  lemma PerformTouchesItsPath(setup: Setup, s: Session, k: nat, op: Operation, content: Option<Bytes>, q: Path)
    requires q != op.path
    ensures FileAt(Perform(setup, s, k, op, content).session.tree, q) == FileAt(s.tree, q)
  {
    hide FileCount, Writable;
  }

  /** Pruning takes away files above p only, and brings none. */
  lemma {:induction false} PruneTouchesPrefixes(setup: Setup, initial: set<Path>, s: Session, p: Path, end: nat,
                                                q: Path)
    requires end <= |p|
    ensures var t := AfterPrune(setup, initial, s, p, end);
            && (!(q < p) && q != p ==> FileAt(t.tree, q) == FileAt(s.tree, q))
            && (FileAt(s.tree, q).None? ==> FileAt(t.tree, q).None?)
    decreases end
  {
    if end > 0 {
      assert p[..end] <= p;
      var t := if p[..end] in initial then s else AfterRemove(setup, s, p[..end]).0;
      PruneTouchesPrefixes(setup, initial, t, p, end - 1, q);
    }
  }

  lemma UndoTouchesPrefixes(setup: Setup, initial: set<Path>, s: Session, record: Record, q: Path)
    requires q != record.path
    ensures var t := AfterUndo(setup, initial, s, record).0;
            && (!(q < record.path) ==> FileAt(t.tree, q) == FileAt(s.tree, q))
            && (FileAt(s.tree, q).None? ==> FileAt(t.tree, q).None?)
  {
    hide FileCount, Writable;
    if record.prior.None? {
      PruneTouchesPrefixes(setup, initial, AfterRemove(setup, s, record.path).0, record.path, PruneStart(record.path),
                           q);
    }
  }

  lemma ConfinedApplying(w: World, p: Process)
    requires Confined(p) && p.phase.Applying?
    ensures Confined(Continued(w, p).0)
  {
    hide Perform, AfterUndo;
    if p.done < |p.Ops()| {
      var op := p.Ops()[p.done];
      assert Planned(p.Ops(), op.path);
      forall q | !Planned(p.Ops(), q)
        ensures FileAt(Perform(p.setup, p.session, p.done, op, p.contents(p.done)).session.tree, q)
             == FileAt(p.start.tree, q)
      {
        PerformTouchesItsPath(p.setup, p.session, p.done, op, p.contents(p.done), q);
        assert Unchanged(p, q);
      }
    }
  }

  lemma ConfinedUndoing(w: World, p: Process)
    requires Confined(p) && !p.phase.Applying?
    ensures Confined(Continued(w, p).0)
  {
    hide Perform, AfterUndo, Planned, AboveEntry;
    if && p.phase.Undoing? && 0 < p.phase.left <= |p.entries|
       && p.entries[p.phase.left - 1].operationIndex in Found(w, p) {
      var e := p.entries[p.phase.left - 1];
      assert e in p.entries;
      var record := Record(e.operationIndex, e.path, Found(w, p)[e.operationIndex]);
      forall q | !Planned(p.Ops(), q) && (FileAt(p.start.tree, q).None? || !AboveEntry(p.entries, q))
        ensures FileAt(AfterUndo(p.setup, Directories(p.start.tree), p.session, record).0.tree, q)
             == FileAt(p.start.tree, q)
      {
        assert Unchanged(p, q);
        IsAboveEntry(p.entries, e, q);
        UndoTouchesPrefixes(p.setup, Directories(p.start.tree), p.session, record, q);
      }
    }
  }

  lemma IsAboveEntry(entries: seq<RollbackEntry>, e: RollbackEntry, q: Path)
    requires e in entries
    ensures q < e.path ==> AboveEntry(entries, q)
  {
  }

  ghost predicate AllConfined(w: World) {
    forall k :: 0 <= k < |w.processes| ==> Confined(w.processes[k])
  }

  lemma ConfinedNext(seal: Approval -> string, w: World, event: Event)
    requires AllConfined(w)
    ensures AllConfined(Next(seal, w, event))
  {
    hide Continued, Bound, PermitsAll, FirstViolation, Planned, AboveEntry;
    if event.Continue? && event.index < |w.processes| {
      var p := w.processes[event.index];
      if p.phase.Applying? { ConfinedApplying(w, p); } else { ConfinedUndoing(w, p); }
    }
  }

  lemma {:induction false} AlwaysConfined(seal: Approval -> string, events: seq<Event>)
    ensures AllConfined(After(seal, events))
  {
    if events != [] {
      hide AllConfined, Next;
      AlwaysConfined(seal, events[..|events| - 1]);
      ConfinedNext(seal, After(seal, events[..|events| - 1]), events[|events| - 1]);
    }
  }

  /** The plan has an operation on q itself, of an allowed kind, and q is an allowed path or lies below one. */
  ghost predicate Approved(p: Process, q: Path) {
    && Covered(p.input.approval, q)
    && exists op :: op in p.Ops() && op.path == q && op.kind in p.input.approval.allowedOperations
  }

  lemma PlannedIsApproved(seal: Approval -> string, events: seq<Event>, k: nat, q: Path)
    requires k < |After(seal, events).processes| && Planned(After(seal, events).processes[k].Ops(), q)
    ensures Approved(After(seal, events).processes[k], q)
  {
    FinishedMeans(seal, events, k);
    var p := After(seal, events).processes[k];
    hide After, Covered;
    var i :| 0 <= i < |p.Ops()| && p.Ops()[i].path == q;
    assert p.Ops()[i] in p.Ops();
  }

  /**
   At every point of every interleaving, a file that a run has changed is one that its approval permits it to change, or
   one that was there at the start, above an operation that the run has recorded.
   */
  lemma OnlyApprovedFilesChange(seal: Approval -> string, events: seq<Event>, k: nat, q: Path)
    requires k < |After(seal, events).processes| && !Unchanged(After(seal, events).processes[k], q)
    ensures var p := After(seal, events).processes[k];
            || Approved(p, q)
            || (!p.phase.Applying? && FileAt(p.start.tree, q).Some? && AboveEntry(p.entries, q))
  {
    AlwaysConfined(seal, events);
    var p := After(seal, events).processes[k];
    assert Confined(p);
    if Planned(p.Ops(), q) {
      PlannedIsApproved(seal, events, k, q);
    }
  }

  /** No file that the plan does not name lies above a planned path. */
  ghost predicate NothingAbove(tree: Tree, ops: seq<Operation>) {
    forall i, a: Path :: 0 <= i < |ops| && a < ops[i].path && FileAt(tree, a).Some? ==> Planned(ops, a)
  }

  /** From the plan and the tree alone: then at every point only files change that the approval permits to change. */
  lemma OnlyPlannedFilesChange(seal: Approval -> string, events: seq<Event>, k: nat, q: Path)
    requires k < |After(seal, events).processes|
    requires var p := After(seal, events).processes[k]; NothingAbove(p.start.tree, p.Ops()) && !Unchanged(p, q)
    ensures Approved(After(seal, events).processes[k], q)
  {
    OnlyApprovedFilesChange(seal, events, k, q);
    AlwaysConfined(seal, events);
    var p := After(seal, events).processes[k];
    hide After, Approved;
    assert Confined(p);
    if AboveEntry(p.entries, q) && FileAt(p.start.tree, q).Some? {
      var e :| e in p.entries && q < e.path;
      var i :| 0 <= i < |p.Ops()| && p.Ops()[i].path == e.path;
      PlannedIsApproved(seal, events, k, q);
    }
  }

  // The converse: an undone run deletes each file above what it has recorded.

  /** Forward, a file that is not planned stays, and nothing comes below it. */
  ghost predicate Blocks(p: Process, run: Rollback.Run, q: Path) {
    && FileAt(run.session.tree, q).Some?
    && !run.session.closed && run.session.readings >= p.start.readings
    && (forall x: Path :: q < x ==> FileAt(run.session.tree, x).None?)
    && (forall i :: 0 <= i < |run.records| ==> Planned(p.Ops(), run.records[i].path))
    && (forall i :: 0 <= i < |run.records| && q < run.records[i].path ==> run.records[i].prior.None?)
  }

  lemma BlockedWrite(tree: Tree, p: Path, q: Path)
    requires q != [] && q < p && FileAt(tree, q).Some?
    ensures BlockedAt(tree, p) < |p|
  {
    assert q == p[..|q|];
  }

  /** An operation other than on a file leaves it, and what is not below it. */
  lemma PerformBlocked(setup: Setup, s: Session, k: nat, op: Operation, content: Option<Bytes>, q: Path)
    requires q != [] && q != op.path && FileAt(s.tree, q).Some? && forall x: Path :: q < x ==> FileAt(s.tree, x).None?
    ensures var step := Perform(setup, s, k, op, content);
            && FileAt(step.session.tree, q) == FileAt(s.tree, q)
            && (forall x: Path :: q < x ==> FileAt(step.session.tree, x).None?)
            && step.session.closed == s.closed && step.session.readings >= s.readings
            && (step.record.Some? ==> step.record.value.path == op.path)
            && (step.record.Some? && q < op.path ==> step.record.value.prior.None?)
  {
    if q < op.path { BlockedWrite(s.tree, op.path, q); }
    hide FileCount, Writable;
    forall x: Path | q < x ensures FileAt(Perform(setup, s, k, op, content).session.tree, x).None? {
      if x != op.path {
        PerformTouchesItsPath(setup, s, k, op, content, x);
      } else {
        var n := BlockedAt(s.tree, op.path);
        assert FileAt(WithParents(s.tree, op.path, n), op.path) == FileAt(s.tree, op.path);
      }
    }
  }

  lemma AdvanceBlocks(p: Process, run: Rollback.Run, n: nat, q: Path)
    requires n < |p.Ops()| && q != [] && !Planned(p.Ops(), q) && Blocks(p, run, q)
    ensures Blocks(p, Advance(p.setup, run, n, p.Ops()[n], p.contents(n), false), q)
  {
    hide Perform;
    var op := p.Ops()[n];
    assert Planned(p.Ops(), op.path);
    PerformBlocked(p.setup, run.session, n, op, p.contents(n), q);
    hide Planned;
  }

  lemma StartBlocks(p: Process, q: Path)
    requires WellFormed(p.start.tree) && !p.start.closed && FileAt(p.start.tree, q).Some?
    ensures q != [] && Blocks(p, Rollback.Run(p.start, [], 0, false), q)
  {
    assert DirectoryAt(p.start.tree, []) && !DirectoryAt(p.start.tree, q);
    assert forall x: Path :: q < x ==> x !in p.start.tree;
  }

  lemma {:induction false} ForwardBlocks(p: Process, q: Path, n: nat)
    requires n <= |p.Ops()| && WellFormed(p.start.tree) && !p.start.closed
    requires FileAt(p.start.tree, q).Some? && !Planned(p.Ops(), q)
    ensures Blocks(p, Forward(p.setup, p.start, p.Ops(), p.contents, Never(), n), q)
  {
    hide Blocks, Advance, WellFormed, Planned;
    StartBlocks(p, q);
    if n > 0 {
      ForwardBlocks(p, q, n - 1);
      AdvanceBlocks(p, Forward(p.setup, p.start, p.Ops(), p.contents, Never(), n - 1), n - 1, q);
    }
  }

  /** Pruning above p reaches each file there that no initial directory protects. */
  lemma {:induction false} PruneDeletes(setup: Setup, initial: set<Path>, s: Session, p: Path, end: nat, q: Path)
    requires end <= |p| && 0 < |q| <= end && q == p[..|q|] && q !in initial
    requires !s.closed && TimeLeft(setup, s)
    ensures FileAt(AfterPrune(setup, initial, s, p, end).tree, q).None?
    decreases end
  {
    var d := p[..end];
    var t := if d in initial then s else AfterRemove(setup, s, d).0;
    if |q| == end {
      PruneTouchesPrefixes(setup, initial, t, p, end - 1, q);
    } else {
      PruneDeletes(setup, initial, t, p, end - 1, q);
    }
  }

  lemma UndoDeletes(setup: Setup, initial: set<Path>, s: Session, record: Record, q: Path)
    requires record.prior.None? && q != [] && q < record.path && q !in initial && !s.closed && TimeLeft(setup, s)
    ensures FileAt(AfterUndo(setup, initial, s, record).0.tree, q).None?
  {
    hide FileCount, Writable;
    PruneDeletes(setup, initial, AfterRemove(setup, s, record.path).0, record.path, PruneStart(record.path), q);
  }

  lemma {:induction false} PruneKeepsTime(setup: Setup, initial: set<Path>, s: Session, p: Path, end: nat)
    requires end <= |p| && TimeLeft(setup, s)
    ensures TimeLeft(setup, AfterPrune(setup, initial, s, p, end))
    decreases end
  {
    if end > 0 {
      var t := if p[..end] in initial then s else AfterRemove(setup, s, p[..end]).0;
      PruneKeepsTime(setup, initial, t, p, end - 1);
    }
  }

  lemma UndoKeepsTime(setup: Setup, initial: set<Path>, s: Session, record: Record)
    requires !s.closed && TimeLeft(setup, s)
    ensures var t := AfterUndo(setup, initial, s, record).0; !t.closed && TimeLeft(setup, t)
  {
    hide FileCount, Writable;
    if record.prior.None? {
      var t := AfterRemove(setup, s, record.path).0;
      PruneStaysOpen(setup, initial, t, record.path, PruneStart(record.path));
      PruneKeepsTime(setup, initial, t, record.path, PruneStart(record.path));
    }
  }

  lemma {:induction false} UndoAllDeletes(setup: Setup, initial: set<Path>, s: Session, records: seq<Record>, q: Path)
    requires q != [] && q !in initial && !s.closed && TimeLeft(setup, s)
    requires forall i :: 0 <= i < |records| ==> records[i].path != q
    requires || FileAt(s.tree, q).None?
             || exists i :: 0 <= i < |records| && records[i].prior.None? && q < records[i].path
    ensures FileAt(UndoAll(setup, initial, s, records).session.tree, q).None?
    decreases |records|
  {
    if records != [] {
      var last, rest := records[|records| - 1], records[..|records| - 1];
      hide AfterUndo, TimeLeft;
      UndoTouchesPrefixes(setup, initial, s, last, q);
      UndoKeepsTime(setup, initial, s, last);
      var t := AfterUndo(setup, initial, s, last).0;
      if FileAt(s.tree, q).Some? {
        var i :| 0 <= i < |records| && records[i].prior.None? && q < records[i].path;
        if i == |rest| { UndoDeletes(setup, initial, s, last, q); } else { assert rest[i] == records[i]; }
      }
      UndoAllDeletes(setup, initial, t, rest, q);
    }
  }

  lemma WholeUndoDeletes(p: Process, kept: Kept, q: Path)
    requires Faithful(p, kept) && AboveEntry(p.entries, q)
    requires WellFormed(p.start.tree) && !p.start.closed && TimeLeft(p.setup, p.start)
    requires FileAt(p.start.tree, q).Some? && !Planned(p.Ops(), q)
    ensures FileAt(WholeUndo(p).session.tree, q).None?
  {
    ForwardBlocks(p, q, p.done);
    assert DirectoryAt(p.start.tree, []) && !DirectoryAt(p.start.tree, q);
    var run := Progress(p);
    assert run.records == RecordsOf(p.entries, kept);
    hide Forward, UndoAll, RecordsOf, WellFormed, Planned, InTime;
    var e :| e in p.entries && q < e.path;
    var i :| 0 <= i < |p.entries| && p.entries[i] == e;
    assert run.records[i].path == e.path;
    UndoAllDeletes(p.setup, Directories(p.start.tree), run.session, run.records, q);
  }

  /**
   Exactly: when a run that keeps its id has been undone, in time, an unplanned file has changed if and only if it was
   there at the start and the run has recorded an operation below it; and then it is gone.
   */
  lemma UndoneRunDeletesExactly(seal: Approval -> string, events: seq<Event>, k: nat, q: Path)
    requires KeepsItsId(seal, events, k) && k < |After(seal, events).processes|
    requires var p := After(seal, events).processes[k];
             && p.undone && (p.phase.Closing? || p.phase.Finished?)
             && WellFormed(p.start.tree) && !p.start.closed && TimeLeft(p.setup, p.start)
             && !Planned(p.Ops(), q)
    ensures var p := After(seal, events).processes[k];
            && (!Unchanged(p, q) <==> FileAt(p.start.tree, q).Some? && AboveEntry(p.entries, q))
            && (!Unchanged(p, q) ==> FileAt(p.session.tree, q).None?)
  {
    AlwaysFaithful(seal, events, k);
    AlwaysConfined(seal, events);
    var w := After(seal, events);
    var p := w.processes[k];
    assert Confined(p) && Faithful(p, MapAt(w, p.mine));
    hide After, KeepsItsId, WholeUndo, RecordsOf, WellFormed, Planned, AboveEntry, Forward, NotRestored, TimeLeft;
    if FileAt(p.start.tree, q).Some? && AboveEntry(p.entries, q) {
      WholeUndoDeletes(p, MapAt(w, p.mine), q);
    }
  }
}
