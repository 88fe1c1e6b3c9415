/**
 Applying the operations of a plan in order, and undoing the recorded ones in
 reverse order when something fails. See Sandwich for what the undo keeps.
 */
module Rollback {
  import opened Base
  import opened MemorySandbox

  datatype Kind = CreateFile | ReplaceFile | DeleteFile

  datatype Operation = Operation(kind: Kind, path: Path, contentDigest: Option<nat>)

  /** What is kept for the undo of one operation: where it wrote and what was there (None: no file). */
  datatype Record = Record(index: nat, path: Path, prior: Option<Bytes>)

  datatype Step = Step(session: Session, record: Option<Record>, applied: bool)

  /** What a run has done so far; events counts the operations reported as applied. */
  datatype Run = Run(session: Session, records: seq<Record>, events: nat, failed: bool)

  datatype Undone = Undone(session: Session, failures: nat)

  /** One operation. content is what the provider gave, None if it failed or its digest is not the planned one. */
  ghost function Perform(setup: Setup, s: Session, index: nat, op: Operation, content: Option<Bytes>): Step {
    var prior := ReadFile(s, op.path);
    var record := Some(Record(index, op.path, prior));
    if op.kind.DeleteFile? then
      if prior.None? then Step(s, None, false)
      else
        var (t, reply) := AfterRemove(setup, s, op.path);
        Step(t, record, reply.Done?)
    else if content.None? then Step(s, None, false)
    else
      var (t, reply) := AfterWrite(setup, s, op.path, content.value);
      Step(t, record, reply.Done?)
  }

  /** The loop body for operation k; cancelled is what the check before the operation reads. */
  ghost function Advance(setup: Setup, run: Run, k: nat, op: Operation, content: Option<Bytes>, cancelled: bool): Run {
    if run.failed then run
    else if cancelled then run.(failed := true)
    else
      var step := Perform(setup, run.session, k, op, content);
      Run(step.session,
          if step.record.Some? then run.records + [step.record.value] else run.records,
          if step.applied then run.events + 1 else run.events,
          !step.applied)
  }

  /** The run after the first n operations. */
  ghost function Forward(setup: Setup, s: Session, ops: seq<Operation>, contents: nat -> Option<Bytes>,
                         cancelled: nat -> bool, n: nat): Run
    requires n <= |ops|
  {
    if n == 0 then Run(s, [], 0, false)
    else
      Advance(setup, Forward(setup, s, ops, contents, cancelled, n - 1),
              n - 1, ops[n - 1], contents(n - 1), cancelled(n - 1))
  }

  /** Tries to remove the prefixes of p of length end down to 1 that are not among the initial directories. */
  ghost function AfterPrune(setup: Setup, initial: set<Path>, s: Session, p: Path, end: nat): Session
    requires end <= |p|
    decreases end
  {
    if end == 0 then s
    else
      var t := if p[..end] in initial then s else AfterRemove(setup, s, p[..end]).0;
      AfterPrune(setup, initial, t, p, end - 1)
  }

  function PruneStart(p: Path): nat {
    if |p| == 0 then 0 else |p| - 1
  }

  ghost function AfterUndo(setup: Setup, initial: set<Path>, s: Session, record: Record): (Session, bool) {
    match record.prior
    case None =>
      (AfterPrune(setup, initial, AfterRemove(setup, s, record.path).0, record.path, PruneStart(record.path)), true)
    case Some(content) =>
      var (t, reply) := AfterWrite(setup, s, record.path, content);
      (t, reply.Done?)
  }

  ghost function UndoAll(setup: Setup, initial: set<Path>, s: Session, records: seq<Record>): Undone
    decreases |records|
  {
    if records == [] then Undone(s, 0)
    else
      var (t, ok) := AfterUndo(setup, initial, s, records[|records| - 1]);
      var rest := UndoAll(setup, initial, t, records[..|records| - 1]);
      rest.(failures := if ok then rest.failures else rest.failures + 1)
  }

  // What a caller has to know of a path for the operation on it to be undone.

  /** There is no directory at p and no file above p. */
  ghost predicate Clean(tree: Tree, p: Path) {
    && !DirectoryAt(tree, p)
    && forall a: Path :: a < p ==> FileAt(tree, a).None?
  }

  ghost predicate Undoable(policy: SandboxPolicy, tree: Tree, p: Path) {
    && Clean(tree, p)
    && (p in tree ==> Writable(policy, p))
  }

  ghost predicate Recorded(setup: Setup, s: Session, ops: seq<Operation>, contents: nat -> Option<Bytes>,
                           cancelled: nat -> bool, k: nat)
    requires k < |ops|
  {
    var run := Forward(setup, s, ops, contents, cancelled, k);
    !run.failed && !cancelled(k) && Perform(setup, run.session, k, ops[k], contents(k)).record.Some?
  }

  /** Each recorded operation met an undoable path in the tree it ran on. */
  ghost predicate UndoableRun(setup: Setup, s: Session, ops: seq<Operation>, contents: nat -> Option<Bytes>,
                              cancelled: nat -> bool)
  {
    forall k: nat :: k < |ops| && Recorded(setup, s, ops, contents, cancelled, k) ==>
      Undoable(setup.policy, Forward(setup, s, ops, contents, cancelled, k).session.tree, ops[k].path)
  }

  lemma UndoableAt(setup: Setup, s: Session, ops: seq<Operation>, contents: nat -> Option<Bytes>,
                   cancelled: nat -> bool, k: nat)
    requires k < |ops| && UndoableRun(setup, s, ops, contents, cancelled)
    ensures var run := Forward(setup, s, ops, contents, cancelled, k);
            !run.failed && !cancelled(k) && Perform(setup, run.session, k, ops[k], contents(k)).record.Some? ==>
              Undoable(setup.policy, run.session.tree, ops[k].path)
  {
    hide Forward, Perform, Undoable;
    assert Recorded(setup, s, ops, contents, cancelled, k) ==>
      Undoable(setup.policy, Forward(setup, s, ops, contents, cancelled, k).session.tree, ops[k].path);
  }

  /**
   There are the operations and bytes to put every overwritten file back, last record first. Removing a created file
   and the directories above it works without, but may use up an operation for each segment of its path.
   */
  ghost predicate Enough(policy: SandboxPolicy, operations: nat, bytes: nat, records: seq<Record>)
    decreases |records|
  {
    records != [] ==>
      var last, rest := records[|records| - 1], records[..|records| - 1];
      match last.prior
      case None => Enough(policy, operations + |last.path|, bytes, rest)
      case Some(content) =>
        && operations + 1 <= policy.maxOperations
        && bytes + |content| <= policy.maxBytes
        && Enough(policy, operations + 1, bytes + |content|, rest)
  }

  lemma {:induction false} EnoughWithLess(policy: SandboxPolicy, operations: nat, bytes: nat, fewer: nat, less: nat,
                                          records: seq<Record>)
    requires fewer <= operations && less <= bytes && Enough(policy, operations, bytes, records)
    ensures Enough(policy, fewer, less, records)
    decreases |records|
  {
    if records != [] {
      var last, rest := records[|records| - 1], records[..|records| - 1];
      match last.prior
      case None =>
        EnoughWithLess(policy, operations + |last.path|, bytes, fewer + |last.path|, less, rest);
      case Some(content) =>
        EnoughWithLess(policy, operations + 1, bytes + |content|, fewer + 1, less + |content|, rest);
    }
  }

  ghost predicate TimeLeft(setup: Setup, s: Session) {
    forall n :: n >= s.readings ==> InTime(setup, n)
  }

  /** The session is open and has the time, operations and bytes left to undo the records. */
  ghost predicate Room(setup: Setup, s: Session, records: seq<Record>) {
    && !s.closed
    && TimeLeft(setup, s)
    && Enough(setup.policy, s.operations, s.bytes, records)
  }

  ghost predicate SameFiles(left: Tree, right: Tree) {
    forall q :: FileAt(left, q) == FileAt(right, q)
  }

  /**
   What is left to restore once everything from a step on is undone; tree is the one before that step. The undo does not
   recreate that tree: it may also remove a directory that an earlier undo will need and recreate. What it keeps is a
   sandwich: the files are those before the step, and the directories lie between the initial ones and those before it.
   */
  ghost predicate Sandwich(initial: set<Path>, tree: Tree, current: Tree) {
    && WellFormed(current)
    && SameFiles(current, tree)
    && (forall d :: d in initial ==> DirectoryAt(current, d))
    && (forall d :: DirectoryAt(current, d) ==> DirectoryAt(tree, d))
  }

  /** A step at p: only the file at p may change, and only directories above p may appear. */
  ghost predicate StepEffect(before: Tree, p: Path, prior: Option<Bytes>, after: Tree) {
    && WellFormed(after)
    && prior == FileAt(before, p)
    && (forall q :: q != p ==> FileAt(after, q) == FileAt(before, q))
    && (forall d :: DirectoryAt(before, d) ==> DirectoryAt(after, d))
    && (forall d :: DirectoryAt(after, d) ==> DirectoryAt(before, d) || d < p)
  }

  // Trees.

  lemma FreeWay(tree: Tree, p: Path)
    requires Clean(tree, p)
    ensures BlockedAt(tree, p) == |p|
  {
    var n := BlockedAt(tree, p);
    assert n < |p| ==> p[..n] < p && FileAt(tree, p[..n]).Some?;
  }

  lemma ParentsEffect(tree: Tree, p: Path)
    requires WellFormed(tree) && Clean(tree, p)
    ensures var after := WithParents(tree, p, |p|);
            && (forall q :: FileAt(after, q) == FileAt(tree, q))
            && (forall q :: DirectoryAt(after, q) <==> DirectoryAt(tree, q) || q < p)
            && (p in after <==> p in tree)
  {
    var above := Prefixes(p, |p|);
    var after := WithParents(tree, p, |p|);
    forall q ensures q in above <==> q < p && q != [] {
      if q < p && q != [] {
        assert q == p[..|q|];
      }
    }
    forall q ensures DirectoryAt(after, q) <==> DirectoryAt(tree, q) || q < p {
      assert q < p && q in tree ==> FileAt(tree, q).None?;
      assert q in after <==> q in tree || q in above;
    }
  }

  lemma PutFileEffect(tree: Tree, p: Path, content: Bytes)
    requires WellFormed(tree) && Clean(tree, p)
    ensures var after := WithParents(tree, p, |p|)[p := File(content)];
            && StepEffect(tree, p, FileAt(tree, p), after)
            && FileAt(after, p) == Some(content)
            && (p in tree ==> FilePaths(after) == FilePaths(tree))
            && (p !in tree ==> FilePaths(after) == FilePaths(tree) + {p})
  {
    ParentsEffect(tree, p);
    var mid := WithParents(tree, p, |p|);
    var after := mid[p := File(content)];
    assert forall q :: q != p ==> FileAt(after, q) == FileAt(mid, q);
    assert forall q :: q != p ==> (DirectoryAt(after, q) <==> DirectoryAt(mid, q));
    forall q ensures q in FilePaths(after) <==> q == p || q in FilePaths(tree) {
      assert q in FilePaths(after) <==> FileAt(after, q).Some?;
      assert q in FilePaths(tree) <==> FileAt(tree, q).Some?;
    }
    forall q, a: Path | q in after && a < q ensures DirectoryAt(after, a) {
      assert q in mid ==> DirectoryAt(mid, q) || FileAt(mid, q).Some?;
      assert q == p || q < p || q in tree;
      assert q in tree ==> DirectoryAt(tree, a);
      assert a < p || DirectoryAt(tree, a);
    }
  }

  lemma MakeParentsEffect(tree: Tree, p: Path)
    requires WellFormed(tree) && Clean(tree, p)
    ensures var after := WithParents(tree, p, |p|);
            StepEffect(tree, p, FileAt(tree, p), after) && FilePaths(after) == FilePaths(tree)
  {
    ParentsEffect(tree, p);
    var after := WithParents(tree, p, |p|);
    forall q, a: Path | q in after && a < q ensures DirectoryAt(after, a) {
      assert DirectoryAt(after, q) || FileAt(after, q).Some?;
      if !(q < p) {
        assert q in tree;
      }
    }
    forall q ensures q in FilePaths(after) <==> q in FilePaths(tree) {
      assert q in FilePaths(after) <==> FileAt(after, q).Some?;
      assert q in FilePaths(tree) <==> FileAt(tree, q).Some?;
    }
  }

  lemma FileHasNothingBelow(tree: Tree, p: Path)
    requires WellFormed(tree) && FileAt(tree, p).Some?
    ensures !HasEntriesBelow(tree, p)
  {
    assert !DirectoryAt(tree, p);
  }

  lemma DropEffect(tree: Tree, p: Path)
    requires WellFormed(tree) && p != []
    requires !HasEntriesBelow(tree, p)
    ensures var after := tree - {p};
            && WellFormed(after)
            && (forall q :: FileAt(after, q) == if q == p then None else FileAt(tree, q))
            && (forall d :: DirectoryAt(after, d) <==> d != p && DirectoryAt(tree, d))
            && FilePaths(after) == FilePaths(tree) - {p}
  {
    var after := tree - {p};
    forall q, a: Path | q in after && a < q ensures DirectoryAt(after, a) {
      assert q in tree && DirectoryAt(tree, a);
    }
  }

  // Forward steps.

  lemma WriteEffect(setup: Setup, s: Session, p: Path, content: Bytes)
    requires WellFormed(s.tree) && Clean(s.tree, p) && !s.closed
    requires FileCount(s.tree) <= setup.policy.maxFiles
    ensures var t := AfterWrite(setup, s, p, content).0;
            && !t.closed
            && StepEffect(s.tree, p, ReadFile(s, p), t.tree)
            && FileCount(t.tree) <= setup.policy.maxFiles
  {
    FreeWay(s.tree, p);
    ParentsEffect(s.tree, p);
    PutFileEffect(s.tree, p, content);
    MakeParentsEffect(s.tree, p);
  }

  lemma RemoveFileEffect(setup: Setup, s: Session, p: Path)
    requires WellFormed(s.tree) && FileAt(s.tree, p).Some? && !s.closed
    requires FileCount(s.tree) <= setup.policy.maxFiles
    ensures var t := AfterRemove(setup, s, p).0;
            && !t.closed
            && StepEffect(s.tree, p, ReadFile(s, p), t.tree)
            && FileCount(t.tree) <= setup.policy.maxFiles
  {
    FileHasNothingBelow(s.tree, p);
    DropEffect(s.tree, p);
  }

  lemma PerformEffect(setup: Setup, s: Session, index: nat, op: Operation, content: Option<Bytes>)
    requires WellFormed(s.tree) && !s.closed
    requires FileCount(s.tree) <= setup.policy.maxFiles
    requires Perform(setup, s, index, op, content).record.Some? ==> Clean(s.tree, op.path)
    ensures var step := Perform(setup, s, index, op, content);
            && !step.session.closed
            && WellFormed(step.session.tree)
            && FileCount(step.session.tree) <= setup.policy.maxFiles
            && (step.record.None? ==> step.session == s)
            && (step.record.Some? ==> step.record.value.path == op.path)
            && (step.record.Some? ==> StepEffect(s.tree, op.path, step.record.value.prior, step.session.tree))
  {
    if Perform(setup, s, index, op, content).record.Some? {
      if op.kind.DeleteFile? {
        RemoveFileEffect(setup, s, op.path);
      } else {
        WriteEffect(setup, s, op.path, content.value);
      }
    }
  }

  /** An open session whose tree still has every initial directory and respects the file limit. */
  ghost predicate Steady(setup: Setup, initial: Tree, t: Session) {
    && !t.closed
    && WellFormed(t.tree)
    && FileCount(t.tree) <= setup.policy.maxFiles
    && (forall d :: DirectoryAt(initial, d) ==> DirectoryAt(t.tree, d))
  }

  lemma AdvanceEffect(setup: Setup, initial: Tree, run: Run, k: nat, op: Operation, content: Option<Bytes>,
                      cancelled: bool)
    requires Steady(setup, initial, run.session)
    requires !run.failed && !cancelled && Perform(setup, run.session, k, op, content).record.Some? ==>
               Clean(run.session.tree, op.path)
    ensures Steady(setup, initial, Advance(setup, run, k, op, content, cancelled).session)
  {
    hide Perform, WellFormed, FileCount, Clean;
    if !run.failed && !cancelled {
      PerformEffect(setup, run.session, k, op, content);
    }
  }

  lemma {:induction false} ForwardEffect(setup: Setup, s: Session, ops: seq<Operation>,
                                         contents: nat -> Option<Bytes>, cancelled: nat -> bool, n: nat)
    requires n <= |ops|
    requires Steady(setup, s.tree, s)
    requires UndoableRun(setup, s, ops, contents, cancelled)
    ensures Steady(setup, s.tree, Forward(setup, s, ops, contents, cancelled, n).session)
  {
    hide Advance, Perform, Steady, Clean, UndoableRun;
    if n > 0 {
      ForwardEffect(setup, s, ops, contents, cancelled, n - 1);
      var run := Forward(setup, s, ops, contents, cancelled, n - 1);
      UndoableAt(setup, s, ops, contents, cancelled, n - 1);
      AdvanceEffect(setup, s.tree, run, n - 1, ops[n - 1], contents(n - 1), cancelled(n - 1));
    }
  }

  // Undoing one record.

  /**
   The files of tree, every initial directory, and no other directories than those of tree and prefixes of p up to end.
   */
  ghost predicate Pruning(initial: set<Path>, tree: Tree, current: Tree, p: Path, end: nat) {
    && WellFormed(current) && SameFiles(current, tree)
    && (forall d :: d in initial ==> DirectoryAt(current, d))
    && (forall d :: DirectoryAt(current, d) ==> DirectoryAt(tree, d) || (d < p && 0 < |d| <= end))
  }

  /** What a removal makes of a tree, if nothing else refuses it. */
  ghost function Removed(tree: Tree, d: Path): Tree {
    if d in tree && !(tree[d].Directory? && HasEntriesBelow(tree, d)) then tree - {d} else tree
  }

  /** The prefix of p of length end is empty unless it is a directory of tree, so it can go. */
  lemma PruneStep(initial: set<Path>, tree: Tree, current: Tree, p: Path, end: nat)
    requires 0 < end < |p|
    requires WellFormed(tree) && Clean(tree, p)
    requires forall d :: d in initial ==> DirectoryAt(tree, d)
    requires Pruning(initial, tree, current, p, end)
    ensures Pruning(initial, tree, if p[..end] in initial then current else Removed(current, p[..end]), p, end - 1)
  {
    var d := p[..end];
    assert d < p && FileAt(current, d) == FileAt(tree, d) == None;
    var after := current;
    if d !in initial && d in current && !HasEntriesBelow(current, d) {
      DropEffect(current, d);
      after := current - {d};
    } else if d !in initial && d in current {
      var q :| q in current && d < q;
      assert FileAt(current, q) == FileAt(tree, q);
      assert DirectoryAt(current, q) ==> DirectoryAt(tree, q) || |q| <= end;
      assert q in tree;
      assert DirectoryAt(tree, d);
    }
    forall e | DirectoryAt(after, e) ensures DirectoryAt(tree, e) || (e < p && 0 < |e| <= end - 1) {
      assert e < p && |e| == end ==> e == d;
    }
  }

  /**
   Pruning the directories above p leaves only directories of tree, if it starts with no others than prefixes of p.
   */
  lemma {:induction false} PruneEffect(setup: Setup, initial: set<Path>, tree: Tree, s: Session, p: Path, end: nat)
    requires end <= |p| && (end == |p| ==> end == 0)
    requires WellFormed(tree) && Clean(tree, p)
    requires forall d :: d in initial ==> DirectoryAt(tree, d)
    requires Pruning(initial, tree, s.tree, p, end)
    requires !s.closed && TimeLeft(setup, s)
    ensures var t := AfterPrune(setup, initial, s, p, end);
            && Pruning(initial, tree, t.tree, p, 0)
            && !t.closed && TimeLeft(setup, t)
            && t.operations <= s.operations + end && t.bytes == s.bytes
    decreases end
  {
    if end > 0 {
      hide WellFormed, Clean, Pruning, AfterRemove, TimeLeft, Removed;
      PruneStep(initial, tree, s.tree, p, end);
      RemoveInTime(setup, s, p[..end]);
      var t := if p[..end] in initial then s else AfterRemove(setup, s, p[..end]).0;
      PruneEffect(setup, initial, tree, t, p, end - 1);
    }
  }

  lemma RemoveInTime(setup: Setup, s: Session, d: Path)
    requires !s.closed && TimeLeft(setup, s) && d != []
    ensures var t := AfterRemove(setup, s, d).0;
            && !t.closed && TimeLeft(setup, t)
            && t.operations <= s.operations + 1 && t.bytes == s.bytes
            && t.tree == Removed(s.tree, d)
  {
  }

  /** Once the created file is gone, only directories above it are left to prune. */
  lemma WithoutCreatedFile(initial: set<Path>, before: Tree, after: Tree, current: Tree, p: Path)
    requires Clean(before, p) && StepEffect(before, p, None, after)
    requires WellFormed(before) && Sandwich(initial, after, current)
    ensures p != []
    ensures p in current ==> FileAt(current, p).Some? && !HasEntriesBelow(current, p)
    ensures var rest := if p in current then current - {p} else current; Pruning(initial, before, rest, p, |p| - 1)
  {
    assert DirectoryAt(before, []);
    assert FileAt(before, p).None? && !DirectoryAt(after, p);
    var rest := current;
    if p in current {
      FileHasNothingBelow(current, p);
      DropEffect(current, p);
      rest := current - {p};
    }
    forall q ensures FileAt(rest, q) == FileAt(before, q) {
      assert FileAt(current, q) == FileAt(after, q);
    }
    forall d | DirectoryAt(rest, d) ensures DirectoryAt(before, d) || (d < p && 0 < |d| <= |p| - 1) {
      assert DirectoryAt(after, d);
    }
  }

  lemma UndoCreate(setup: Setup, initial: set<Path>, before: Tree, after: Tree, s: Session, p: Path)
    requires Clean(before, p) && StepEffect(before, p, None, after)
    requires WellFormed(before) && forall d :: d in initial ==> DirectoryAt(before, d)
    requires Sandwich(initial, after, s.tree)
    requires !s.closed && TimeLeft(setup, s)
    ensures var t := AfterPrune(setup, initial, AfterRemove(setup, s, p).0, p, PruneStart(p));
            && Sandwich(initial, before, t.tree)
            && !t.closed && TimeLeft(setup, t)
            && t.operations <= s.operations + |p| && t.bytes == s.bytes
  {
    hide Clean, StepEffect, WellFormed, TimeLeft, AfterRemove, HasEntriesBelow, AfterPrune;
    WithoutCreatedFile(initial, before, after, s.tree, p);
    RemoveInTime(setup, s, p);
    PruneEffect(setup, initial, before, AfterRemove(setup, s, p).0, p, |p| - 1);
  }

  /** The file limit never stands in the way of putting a file back. */
  lemma RestoredFileFits(setup: Setup, before: Tree, after: Tree, current: Tree, p: Path)
    requires FileAt(before, p).Some? && FileCount(before) <= setup.policy.maxFiles
    requires forall q :: q != p ==> FileAt(after, q) == FileAt(before, q)
    requires SameFiles(current, after)
    requires p !in current
    ensures FileCount(current) < setup.policy.maxFiles
  {
    forall q ensures q in FilePaths(current) <==> q in FilePaths(before) && q != p {
      assert q in FilePaths(current) <==> FileAt(current, q).Some?;
      assert q in FilePaths(before) <==> FileAt(before, q).Some?;
      assert FileAt(current, q) == FileAt(after, q);
    }
    assert FilePaths(current) == FilePaths(before) - {p};
    assert p in FilePaths(before);
  }

  /** With the overwritten file back, files and directories are those before the step. */
  lemma WithRestoredFile(initial: set<Path>, before: Tree, after: Tree, current: Tree, p: Path, content: Bytes)
    requires Clean(before, p) && StepEffect(before, p, Some(content), after)
    requires WellFormed(before) && Sandwich(initial, after, current)
    ensures Clean(current, p)
    ensures Sandwich(initial, before, WithParents(current, p, |p|)[p := File(content)])
  {
    assert forall a: Path :: a < p ==> DirectoryAt(before, a);
    assert Clean(current, p) by {
      assert !DirectoryAt(after, p);
      forall a: Path | a < p ensures FileAt(current, a).None? {
        assert FileAt(current, a) == FileAt(after, a) == FileAt(before, a);
      }
    }
    PutFileEffect(current, p, content);
    var next := WithParents(current, p, |p|)[p := File(content)];
    forall q ensures FileAt(next, q) == FileAt(before, q) {
      assert q != p ==> FileAt(next, q) == FileAt(current, q) == FileAt(after, q);
    }
    forall d | DirectoryAt(next, d) ensures DirectoryAt(before, d) {
      assert DirectoryAt(current, d) || d < p;
    }
  }

  lemma UndoOverwrite(setup: Setup, initial: set<Path>, before: Tree, after: Tree, s: Session, p: Path, content: Bytes)
    requires Clean(before, p) && StepEffect(before, p, Some(content), after) && Writable(setup.policy, p)
    requires WellFormed(before) && FileCount(before) <= setup.policy.maxFiles
    requires Sandwich(initial, after, s.tree)
    requires !s.closed && TimeLeft(setup, s)
    requires s.operations < setup.policy.maxOperations && s.bytes + |content| <= setup.policy.maxBytes
    ensures var (t, reply) := AfterWrite(setup, s, p, content);
            && reply.Done?
            && Sandwich(initial, before, t.tree)
            && !t.closed && TimeLeft(setup, t)
            && t.operations == s.operations + 1 && t.bytes == s.bytes + |content|
  {
    WithRestoredFile(initial, before, after, s.tree, p, content);
    FreeWay(s.tree, p);
    ParentsEffect(s.tree, p);
    MakeParentsEffect(s.tree, p);
    if p !in s.tree {
      RestoredFileFits(setup, before, after, s.tree, p);
    }
    hide Clean, StepEffect, WellFormed, WithParents, FilePaths, BlockedAt, Writable;
  }

  /** Undoing one step leads from the sandwich around the tree after it to the sandwich around the tree before it. */
  lemma UndoEffect(setup: Setup, initial: set<Path>, before: Tree, after: Tree, s: Session, records: seq<Record>)
    requires |records| > 0
    requires var last := records[|records| - 1];
             && Undoable(setup.policy, before, last.path)
             && StepEffect(before, last.path, last.prior, after)
    requires WellFormed(before) && FileCount(before) <= setup.policy.maxFiles
    requires forall d :: d in initial ==> DirectoryAt(before, d)
    requires Sandwich(initial, after, s.tree)
    requires Room(setup, s, records)
    ensures var (t, ok) := AfterUndo(setup, initial, s, records[|records| - 1]);
            && ok
            && Sandwich(initial, before, t.tree)
            && Room(setup, t, records[..|records| - 1])
  {
    var last := records[|records| - 1];
    if last.prior.None? {
      UndoCreate(setup, initial, before, after, s, last.path);
      var t := AfterUndo(setup, initial, s, last).0;
      EnoughWithLess(setup.policy, s.operations + |last.path|, s.bytes, t.operations, t.bytes,
                     records[..|records| - 1]);
    } else {
      UndoOverwrite(setup, initial, before, after, s, last.path, last.prior.value);
    }
  }

  // Undoing everything.

  /** The last recorded operation undone, what is left is to undo the run before it. */
  lemma UndoLast(setup: Setup, current: Tree, initial: set<Path>, run: Run, k: nat, op: Operation,
                 content: Option<Bytes>, cancelled: bool, u: Session) returns (t: Session)
    requires Steady(setup, current, run.session) && initial == Directories(current)
    requires !run.failed && !cancelled && Perform(setup, run.session, k, op, content).record.Some? ==>
               Undoable(setup.policy, run.session.tree, op.path)
    requires var next := Advance(setup, run, k, op, content, cancelled);
             Sandwich(initial, next.session.tree, u.tree) && Room(setup, u, next.records)
    ensures Sandwich(initial, run.session.tree, t.tree) && Room(setup, t, run.records)
    ensures UndoAll(setup, initial, u, Advance(setup, run, k, op, content, cancelled).records)
         == UndoAll(setup, initial, t, run.records)
  {
    hide Perform, AfterUndo, Sandwich, Room, WellFormed, FileCount, Clean, StepEffect;
    assert forall d :: d in initial ==> DirectoryAt(current, d);
    t := u;
    if !run.failed && !cancelled {
      var step := Perform(setup, run.session, k, op, content);
      PerformEffect(setup, run.session, k, op, content);
      if step.record.Some? {
        var records := run.records + [step.record.value];
        assert records[..|records| - 1] == run.records;
        UndoEffect(setup, initial, run.session.tree, step.session.tree, u, records);
        t := AfterUndo(setup, initial, u, step.record.value).0;
      }
    }
  }

  lemma {:induction false} UndoFromSandwich(setup: Setup, s: Session, ops: seq<Operation>,
                                            contents: nat -> Option<Bytes>, cancelled: nat -> bool, n: nat, u: Session)
    requires n <= |ops|
    requires Steady(setup, s.tree, s)
    requires UndoableRun(setup, s, ops, contents, cancelled)
    requires var run := Forward(setup, s, ops, contents, cancelled, n);
             Sandwich(Directories(s.tree), run.session.tree, u.tree) && Room(setup, u, run.records)
    ensures UndoAll(setup, Directories(s.tree), u, Forward(setup, s, ops, contents, cancelled, n).records).failures == 0
    ensures UndoAll(setup, Directories(s.tree), u, Forward(setup, s, ops, contents, cancelled, n).records).session.tree
         == s.tree
  {
    hide Advance, Perform, AfterUndo, Sandwich, Room, Steady, Undoable, UndoableRun;
    if n == 0 {
      SandwichClosed(s.tree, u.tree);
    } else {
      ForwardEffect(setup, s, ops, contents, cancelled, n - 1);
      var run := Forward(setup, s, ops, contents, cancelled, n - 1);
      UndoableAt(setup, s, ops, contents, cancelled, n - 1);
      var t := UndoLast(setup, s.tree, Directories(s.tree), run, n - 1, ops[n - 1], contents(n - 1),
                        cancelled(n - 1), u);
      UndoFromSandwich(setup, s, ops, contents, cancelled, n - 1, t);
    }
  }

  lemma SandwichClosed(tree: Tree, current: Tree)
    requires Sandwich(Directories(tree), tree, current)
    ensures current == tree
  {
    forall p ensures p in tree <==> p in current {
      assert p in tree <==> FileAt(tree, p).Some? || p in Directories(tree);
      assert p in current <==> FileAt(current, p).Some? || DirectoryAt(current, p);
    }
    forall p | p in tree ensures tree[p] == current[p] {
      assert FileAt(tree, p) == FileAt(current, p);
    }
  }

  /** Whatever operation fails, and wherever a cancellation stops the run, undoing the records restores the tree. */
  lemma RollbackRestores(setup: Setup, s: Session, ops: seq<Operation>, contents: nat -> Option<Bytes>,
                         cancelled: nat -> bool)
    requires WellFormed(s.tree) && !s.closed && FileCount(s.tree) <= setup.policy.maxFiles
    requires UndoableRun(setup, s, ops, contents, cancelled)
    requires var run := Forward(setup, s, ops, contents, cancelled, |ops|); Room(setup, run.session, run.records)
    ensures var run := Forward(setup, s, ops, contents, cancelled, |ops|);
            var undone := UndoAll(setup, Directories(s.tree), run.session, run.records);
            undone.failures == 0 && undone.session.tree == s.tree
  {
    hide Forward, UndoAll, FileCount, Room, UndoableRun;
    ForwardEffect(setup, s, ops, contents, cancelled, |ops|);
    UndoFromSandwich(setup, s, ops, contents, cancelled, |ops|,
                     Forward(setup, s, ops, contents, cancelled, |ops|).session);
  }

  // Hypotheses on the plan and the initial tree alone.

  /**
   The planned paths are writable, no directory is at one of them, and neither an existing file nor another planned
   path lies above one of them.
   */
  ghost predicate PlanFits(policy: SandboxPolicy, tree: Tree, ops: seq<Operation>) {
    && (forall i :: 0 <= i < |ops| ==> Writable(policy, ops[i].path) && Clean(tree, ops[i].path))
    && forall i, j :: 0 <= i < |ops| && 0 <= j < |ops| ==> !(ops[i].path < ops[j].path)
  }

  ghost predicate Planned(ops: seq<Operation>, p: Path) {
    exists i :: 0 <= i < |ops| && ops[i].path == p
  }

  /** What a fitting plan keeps on a tree: files only where there was one or where it writes, and clean paths. */
  ghost predicate StillFits(setup: Setup, initial: Tree, ops: seq<Operation>, t: Session) {
    && WellFormed(t.tree) && !t.closed && FileCount(t.tree) <= setup.policy.maxFiles
    && (forall q :: FileAt(t.tree, q).Some? ==> FileAt(initial, q).Some? || Planned(ops, q))
    && (forall i :: 0 <= i < |ops| ==> Clean(t.tree, ops[i].path))
  }

  lemma FittingStep(initial: Tree, ops: seq<Operation>, k: nat, before: Tree, after: Tree)
    requires k < |ops|
    requires forall i, j :: 0 <= i < |ops| && 0 <= j < |ops| ==> !(ops[i].path < ops[j].path)
    requires forall i :: 0 <= i < |ops| ==> Clean(initial, ops[i].path) && Clean(before, ops[i].path)
    requires forall q :: FileAt(before, q).Some? ==> FileAt(initial, q).Some? || Planned(ops, q)
    requires StepEffect(before, ops[k].path, FileAt(before, ops[k].path), after)
    ensures forall q :: FileAt(after, q).Some? ==> FileAt(initial, q).Some? || Planned(ops, q)
    ensures forall i :: 0 <= i < |ops| ==> Clean(after, ops[i].path)
  {
    forall q | FileAt(after, q).Some? ensures FileAt(initial, q).Some? || Planned(ops, q) {
      assert q != ops[k].path ==> FileAt(after, q) == FileAt(before, q);
    }
    forall i | 0 <= i < |ops| ensures Clean(after, ops[i].path) {
      var p, w := ops[i].path, ops[k].path;
      assert !(p < w);
      assert DirectoryAt(after, p) ==> DirectoryAt(before, p) || p < w;
      forall a: Path | a < p ensures FileAt(after, a).None? {
        assert FileAt(initial, a).None? && !Planned(ops, a);
      }
    }
  }

  lemma FittingAdvance(setup: Setup, initial: Tree, ops: seq<Operation>, run: Run, k: nat,
                       content: Option<Bytes>, cancelled: bool)
    requires k < |ops| && PlanFits(setup.policy, initial, ops)
    requires StillFits(setup, initial, ops, run.session)
    ensures StillFits(setup, initial, ops, Advance(setup, run, k, ops[k], content, cancelled).session)
  {
    if !run.failed && !cancelled {
      assert Clean(run.session.tree, ops[k].path);
      PerformEffect(setup, run.session, k, ops[k], content);
      var step := Perform(setup, run.session, k, ops[k], content);
      if step.record.Some? {
        FittingStep(initial, ops, k, run.session.tree, step.session.tree);
      }
    }
  }

  lemma FittingStart(setup: Setup, s: Session, ops: seq<Operation>)
    requires WellFormed(s.tree) && !s.closed && FileCount(s.tree) <= setup.policy.maxFiles
    requires PlanFits(setup.policy, s.tree, ops)
    ensures StillFits(setup, s.tree, ops, s)
  {
  }

  lemma FittingForward(setup: Setup, s: Session, ops: seq<Operation>, contents: nat -> Option<Bytes>,
                       cancelled: nat -> bool, n: nat)
    requires 0 < n <= |ops| && PlanFits(setup.policy, s.tree, ops)
    requires StillFits(setup, s.tree, ops, Forward(setup, s, ops, contents, cancelled, n - 1).session)
    ensures StillFits(setup, s.tree, ops, Forward(setup, s, ops, contents, cancelled, n).session)
  {
    hide Advance, StillFits, PlanFits;
    FittingAdvance(setup, s.tree, ops, Forward(setup, s, ops, contents, cancelled, n - 1),
                   n - 1, contents(n - 1), cancelled(n - 1));
  }

  lemma {:induction false} FittingPlanStaysClean(setup: Setup, s: Session, ops: seq<Operation>,
                                                 contents: nat -> Option<Bytes>, cancelled: nat -> bool, n: nat)
    requires n <= |ops|
    requires WellFormed(s.tree) && !s.closed && FileCount(s.tree) <= setup.policy.maxFiles
    requires PlanFits(setup.policy, s.tree, ops)
    ensures StillFits(setup, s.tree, ops, Forward(setup, s, ops, contents, cancelled, n).session)
  {
    if n == 0 {
      FittingStart(setup, s, ops);
    } else {
      FittingPlanStaysClean(setup, s, ops, contents, cancelled, n - 1);
      FittingForward(setup, s, ops, contents, cancelled, n);
    }
  }

  lemma FittingPlanIsUndoable(setup: Setup, s: Session, ops: seq<Operation>, contents: nat -> Option<Bytes>,
                              cancelled: nat -> bool)
    requires WellFormed(s.tree) && !s.closed && FileCount(s.tree) <= setup.policy.maxFiles
    requires PlanFits(setup.policy, s.tree, ops)
    ensures UndoableRun(setup, s, ops, contents, cancelled)
  {
    forall k: nat | k < |ops|
      ensures Undoable(setup.policy, Forward(setup, s, ops, contents, cancelled, k).session.tree, ops[k].path)
    {
      FittingPlanStaysClean(setup, s, ops, contents, cancelled, k);
    }
  }

  // What restoration needs, exactly, for one operation.

  /** The write is refused for its path or for want of operations or bytes. */
  ghost predicate Refuses(policy: SandboxPolicy, s: Session, p: Path, content: Bytes) {
    || !Writable(policy, p)
    || s.operations + 1 > policy.maxOperations
    || s.bytes + |content| > policy.maxBytes
  }

  /** The write is refused, and the directory at its path cannot be removed either. */
  ghost predicate Untouchable(policy: SandboxPolicy, s: Session, op: Operation, content: Option<Bytes>) {
    && !op.kind.DeleteFile? && content.Some?
    && Refuses(policy, s, op.path, content.value)
    && DirectoryAt(s.tree, op.path)
    && (op.path == [] || HasEntriesBelow(s.tree, op.path))
  }

  /**
   One recorded operation is undone, and reported so, if and only if its path is undoable and there is enough left to
   undo it, or its path is out of reach.
   */
  lemma OneOperationIsRestoredExactly(setup: Setup, s: Session, op: Operation, content: Option<Bytes>)
    requires WellFormed(s.tree) && !s.closed && TimeLeft(setup, s) && FileCount(s.tree) <= setup.policy.maxFiles
    requires Perform(setup, s, 0, op, content).record.Some?
    ensures var step := Perform(setup, s, 0, op, content);
            var (t, ok) := AfterUndo(setup, Directories(s.tree), step.session, step.record.value);
            (ok && t.tree == s.tree) <==>
            || (Undoable(setup.policy, s.tree, op.path)
                && Enough(setup.policy, step.session.operations, step.session.bytes, [step.record.value]))
            || Untouchable(setup.policy, s, op, content)
  {
    var p := op.path;
    if Clean(s.tree, p) {
      UndoOnCleanPath(setup, s, op, content);
    } else {
      assert FileAt(s.tree, p).Some? ==> Clean(s.tree, p) by {
        forall a: Path | a < p && p in s.tree ensures FileAt(s.tree, a).None? {
          assert DirectoryAt(s.tree, a);
        }
      }
      if DirectoryAt(s.tree, p) {
        UndoOnDirectory(setup, s, p, content.value);
        UndoOnDirectoryIsSeen(setup, s, p, content.value);
      } else {
        var a: Path :| a < p && FileAt(s.tree, a).Some?;
        UndoBelowFile(setup, s, p, content.value, a);
      }
    }
  }

  lemma UndoOnCleanPath(setup: Setup, s: Session, op: Operation, content: Option<Bytes>)
    requires WellFormed(s.tree) && !s.closed && TimeLeft(setup, s) && FileCount(s.tree) <= setup.policy.maxFiles
    requires Perform(setup, s, 0, op, content).record.Some? && Clean(s.tree, op.path)
    ensures var step := Perform(setup, s, 0, op, content);
            var (t, ok) := AfterUndo(setup, Directories(s.tree), step.session, step.record.value);
            (ok && t.tree == s.tree) <==>
            && Undoable(setup.policy, s.tree, op.path)
            && Enough(setup.policy, step.session.operations, step.session.bytes, [step.record.value])
  {
    var initial := Directories(s.tree);
    var step := Perform(setup, s, 0, op, content);
    var record := step.record.value;
    PerformEffect(setup, s, 0, op, content);
    assert [record][..0] == [];
    if && Undoable(setup.policy, s.tree, op.path)
       && Enough(setup.policy, step.session.operations, step.session.bytes, [record]) {
      UndoEffect(setup, initial, s.tree, step.session.tree, step.session, [record]);
      SandwichClosed(s.tree, AfterUndo(setup, initial, step.session, record).0.tree);
    }
  }

  /**
   A write on a directory replaces it by a file, unless it is refused; the undo deletes what is then there, be it the
   file or the directory, if that is empty.
   */
  lemma UndoOnDirectory(setup: Setup, s: Session, p: Path, content: Bytes)
    requires WellFormed(s.tree) && DirectoryAt(s.tree, p)
    requires !s.closed && TimeLeft(setup, s)
    ensures var (u, reply) := AfterWrite(setup, s, p, content);
            && u.tree == (if Refuses(setup.policy, s, p, content) then s.tree else s.tree[p := File(content)])
            && AfterUndo(setup, Directories(s.tree), u, Record(0, p, None)).0.tree
            == if p == [] then u.tree else Removed(u.tree, p)
  {
    var initial := Directories(s.tree);
    forall a: Path | a < p ensures FileAt(s.tree, a).None? {
      assert DirectoryAt(s.tree, a);
    }
    assert BlockedAt(s.tree, p) == |p| by {
      var n := BlockedAt(s.tree, p);
      assert n < |p| ==> p[..n] < p && FileAt(s.tree, p[..n]).Some?;
    }
    assert WithParents(s.tree, p, |p|) == s.tree by {
      forall k | 0 < k < |p| ensures p[..k] in s.tree {
        assert DirectoryAt(s.tree, p[..k]);
      }
    }
    var u := AfterWrite(setup, s, p, content).0;
    var t := AfterRemove(setup, u, p).0;
    PruneNothing(setup, initial, t, p, PruneStart(p));
  }

  lemma UndoOnDirectoryIsSeen(setup: Setup, s: Session, p: Path, content: Bytes)
    requires WellFormed(s.tree) && DirectoryAt(s.tree, p)
    ensures var tree := if Refuses(setup.policy, s, p, content) then s.tree else s.tree[p := File(content)];
            (if p == [] then tree else Removed(tree, p)) == s.tree <==>
            Refuses(setup.policy, s, p, content) && (p == [] || HasEntriesBelow(s.tree, p))
  {
    var tree := if Refuses(setup.policy, s, p, content) then s.tree else s.tree[p := File(content)];
    var after := if p == [] then tree else Removed(tree, p);
    if !Refuses(setup.policy, s, p, content) {
      assert DirectoryAt(s.tree, p) && !DirectoryAt(after, p);
    } else if p != [] && !HasEntriesBelow(s.tree, p) {
      assert p in s.tree && p !in after;
    }
  }

  lemma {:induction false} PruneNothing(setup: Setup, initial: set<Path>, s: Session, p: Path, end: nat)
    requires end <= |p|
    requires forall k :: 0 < k <= end ==> p[..k] in initial
    ensures AfterPrune(setup, initial, s, p, end) == s
    decreases end
  {
    if end > 0 {
      PruneNothing(setup, initial, s, p, end - 1);
    }
  }

  /**
   A write below the file at a is refused, and its undo deletes just that file, which no initial directory protects.
   */
  lemma UndoBelowFile(setup: Setup, s: Session, p: Path, content: Bytes, a: Path)
    requires WellFormed(s.tree) && !s.closed && TimeLeft(setup, s)
    requires a < p && FileAt(s.tree, a).Some?
    ensures var (u, reply) := AfterWrite(setup, s, p, content);
            && reply == Refused(OperationDenied) && u.tree == s.tree
            && AfterUndo(setup, Directories(s.tree), u, Record(0, p, None)).0.tree == s.tree - {a}
  {
    var initial := Directories(s.tree);
    assert a != [] by { assert DirectoryAt(s.tree, []); }
    assert a == p[..|a|];
    forall k | 0 < k < |a| ensures p[..k] in initial {
      assert p[..k] < a && DirectoryAt(s.tree, p[..k]);
    }
    forall k | |a| < k <= |p| ensures p[..k] !in s.tree {
      assert a < p[..k] && !DirectoryAt(s.tree, a);
    }
    assert p == p[..|p|];
    assert BlockedAt(s.tree, p) == |a| by {
      var n := BlockedAt(s.tree, p);
      assert n <= |a|;
      assert forall k :: 0 < k < |a| ==> DirectoryAt(s.tree, p[..k]);
    }
    assert WithParents(s.tree, p, |a|) == s.tree;
    FileHasNothingBelow(s.tree, a);
    var u := AfterWrite(setup, s, p, content).0;
    PruneDropsFile(setup, initial, AfterRemove(setup, u, p).0, p, |p| - 1, |a|);
  }

  lemma {:induction false} PruneDropsFile(setup: Setup, initial: set<Path>, s: Session, p: Path, end: nat, n: nat)
    requires 0 < n <= end < |p|
    requires p[..n] !in initial && FileAt(s.tree, p[..n]).Some? && !HasEntriesBelow(s.tree, p[..n])
    requires forall k :: 0 < k < n ==> p[..k] in initial
    requires forall k :: n < k <= end ==> p[..k] !in s.tree
    requires !s.closed && TimeLeft(setup, s)
    ensures AfterPrune(setup, initial, s, p, end).tree == s.tree - {p[..n]}
    decreases end
  {
    var d := p[..end];
    var t := if d in initial then s else AfterRemove(setup, s, d).0;
    if n == end {
      PruneNothing(setup, initial, t, p, end - 1);
    } else {
      assert t.tree == s.tree;
      PruneDropsFile(setup, initial, t, p, end - 1, n);
    }
  }

  // What an unfailed run has done.

  /**
   The file that the first n operations of the plan put at q: what the last of them on q says, else the initial one.
   */
  ghost function Intended(tree: Tree, ops: seq<Operation>, contents: nat -> Option<Bytes>, n: nat, q: Path):
    Option<Bytes>
    requires n <= |ops|
  {
    if n == 0 then FileAt(tree, q)
    else if ops[n - 1].path != q then Intended(tree, ops, contents, n - 1, q)
    else if ops[n - 1].kind.DeleteFile? then None
    else contents(n - 1)
  }

  lemma AppliedStep(setup: Setup, s: Session, k: nat, op: Operation, content: Option<Bytes>)
    requires Perform(setup, s, k, op, content).applied
    ensures var step := Perform(setup, s, k, op, content);
            && step.record.Some? && step.record.value.index == k && step.record.value.path == op.path
            && (op.kind.DeleteFile? || content.Some?)
            && (forall q :: q != op.path ==> FileAt(step.session.tree, q) == FileAt(s.tree, q))
            && FileAt(step.session.tree, op.path) == if op.kind.DeleteFile? then None else content
  {
    var t := Perform(setup, s, k, op, content).session;
    if !op.kind.DeleteFile? {
      var mid := WithParents(s.tree, op.path, |op.path|);
      assert t.tree == mid[op.path := File(content.value)];
      assert forall q :: q in mid && q !in s.tree ==> mid[q].Directory?;
    }
  }

  /** Every one of the first n operations was done, with its content, and each file is as the plan intends. */
  ghost predicate AppliedThrough(tree: Tree, ops: seq<Operation>, contents: nat -> Option<Bytes>,
                                 cancelled: nat -> bool, n: nat, run: Run)
    requires n <= |ops|
  {
    && run.events == |run.records| == n
    && (forall i :: 0 <= i < n ==> run.records[i].index == i && run.records[i].path == ops[i].path)
    && (forall i: nat :: i < n ==> !cancelled(i) && (ops[i].kind.DeleteFile? || contents(i).Some?))
    && (forall q :: FileAt(run.session.tree, q) == Intended(tree, ops, contents, n, q))
  }

  lemma AppliedAdvance(setup: Setup, tree: Tree, ops: seq<Operation>, contents: nat -> Option<Bytes>,
                       cancelled: nat -> bool, n: nat, run: Run)
    requires n < |ops| && AppliedThrough(tree, ops, contents, cancelled, n, run)
    requires !Advance(setup, run, n, ops[n], contents(n), cancelled(n)).failed
    ensures AppliedThrough(tree, ops, contents, cancelled, n + 1,
                           Advance(setup, run, n, ops[n], contents(n), cancelled(n)))
  {
    AppliedStep(setup, run.session, n, ops[n], contents(n));
    var next := Advance(setup, run, n, ops[n], contents(n), cancelled(n));
    forall q ensures FileAt(next.session.tree, q) == Intended(tree, ops, contents, n + 1, q) {
      assert q != ops[n].path ==> FileAt(next.session.tree, q) == FileAt(run.session.tree, q);
    }
  }

  lemma AppliedStart(s: Session, ops: seq<Operation>, contents: nat -> Option<Bytes>, cancelled: nat -> bool)
    ensures AppliedThrough(s.tree, ops, contents, cancelled, 0, Run(s, [], 0, false))
  {
  }

  /** A run that has not failed applied the whole plan so far. */
  lemma {:induction false} UnfailedRunIsApplied(setup: Setup, s: Session, ops: seq<Operation>,
                                                contents: nat -> Option<Bytes>, cancelled: nat -> bool, n: nat)
    requires n <= |ops|
    requires !Forward(setup, s, ops, contents, cancelled, n).failed
    ensures AppliedThrough(s.tree, ops, contents, cancelled, n, Forward(setup, s, ops, contents, cancelled, n))
  {
    hide AppliedThrough, Perform;
    if n == 0 {
      assert AppliedThrough(s.tree, ops, contents, cancelled, 0, Run(s, [], 0, false)) by {
        AppliedStart(s, ops, contents, cancelled);
      }
    } else {
      var run := Forward(setup, s, ops, contents, cancelled, n - 1);
      assert !run.failed;
      UnfailedRunIsApplied(setup, s, ops, contents, cancelled, n - 1);
      AppliedAdvance(setup, s.tree, ops, contents, cancelled, n - 1, run);
    }
  }

  // Hypotheses on the plan and the session it starts from alone: what the run will record, and what that costs.

  /** The bytes that the first n operations write. */
  ghost function Written(ops: seq<Operation>, contents: nat -> Option<Bytes>, n: nat): nat
    requires n <= |ops|
  {
    if n == 0 then 0
    else if ops[n - 1].kind.DeleteFile? || contents(n - 1).None? then Written(ops, contents, n - 1)
    else Written(ops, contents, n - 1) + |contents(n - 1).value|
  }

  /** What is kept for the first n operations: the file that the ones before each of them leave at its path. */
  ghost function PlannedRecords(tree: Tree, ops: seq<Operation>, contents: nat -> Option<Bytes>, n: nat): seq<Record>
    requires n <= |ops|
  {
    if n == 0 then []
    else
      var p := ops[n - 1].path;
      PlannedRecords(tree, ops, contents, n - 1) + [Record(n - 1, p, Intended(tree, ops, contents, n - 1, p))]
  }

  ghost predicate HasContent(op: Operation, content: Option<Bytes>) {
    op.kind.DeleteFile? || content.Some?
  }

  /** The limits on operations and bytes let the first n operations through. */
  ghost predicate WithinLimits(policy: SandboxPolicy, s: Session, ops: seq<Operation>,
                               contents: nat -> Option<Bytes>, n: nat)
    requires n <= |ops|
  {
    n > 0 ==>
      && WithinLimits(policy, s, ops, contents, n - 1)
      && s.operations + n <= policy.maxOperations
      && (ops[n - 1].kind.DeleteFile? || s.bytes + Written(ops, contents, n) <= policy.maxBytes)
  }

  /** The run can come to record n operations: they have contents, and the limits let all but the last through. */
  ghost predicate CanRecord(policy: SandboxPolicy, s: Session, ops: seq<Operation>,
                            contents: nat -> Option<Bytes>, n: nat)
    requires n <= |ops|
  {
    && (n > 0 ==> WithinLimits(policy, s, ops, contents, n - 1))
    && forall i: nat :: i < n ==> HasContent(ops[i], contents(i))
  }

  /** Wherever the run stops, what the session has left by then is enough to undo what is recorded. */
  ghost predicate PlanRoom(setup: Setup, s: Session, ops: seq<Operation>, contents: nat -> Option<Bytes>) {
    && TimeLeft(setup, s)
    && forall n: nat :: n <= |ops| && CanRecord(setup.policy, s, ops, contents, n) ==>
         Enough(setup.policy, s.operations + n, s.bytes + Written(ops, contents, n),
                PlannedRecords(s.tree, ops, contents, n))
  }

  /** A run that recorded the first n operations as planned, for no more than they cost. */
  ghost predicate OnPlan(setup: Setup, s: Session, ops: seq<Operation>, contents: nat -> Option<Bytes>,
                         run: Run, n: nat)
    requires n <= |ops|
  {
    && CanRecord(setup.policy, s, ops, contents, n)
    && (!run.failed ==> WithinLimits(setup.policy, s, ops, contents, n))
    && run.records == PlannedRecords(s.tree, ops, contents, n)
    && run.session.operations <= s.operations + n
    && (!run.failed ==> run.session.operations == s.operations + n)
    && run.session.bytes <= s.bytes + Written(ops, contents, n)
    && (!run.failed ==> run.session.bytes == s.bytes + Written(ops, contents, n))
    && run.session.readings >= s.readings
  }

  lemma PlannedAdvance(setup: Setup, s: Session, ops: seq<Operation>, contents: nat -> Option<Bytes>,
                       cancelled: bool, run: Run, n: nat) returns (m: nat)
    requires n < |ops| && !run.failed && !run.session.closed
    requires OnPlan(setup, s, ops, contents, run, n)
    requires FileAt(run.session.tree, ops[n].path) == Intended(s.tree, ops, contents, n, ops[n].path)
    ensures var next := Advance(setup, run, n, ops[n], contents(n), cancelled);
            && m <= n + 1
            && OnPlan(setup, s, ops, contents, next, m)
            && (!next.failed ==> m == n + 1)
  {
    hide Enough, FileCount, WithParents, BlockedAt, Writable, Intended;
    var step := Perform(setup, run.session, n, ops[n], contents(n));
    m := if cancelled || step.record.None? then n else n + 1;
  }

  lemma {:induction false} RunStaysOnPlan(setup: Setup, s: Session, ops: seq<Operation>,
                                          contents: nat -> Option<Bytes>, cancelled: nat -> bool, n: nat)
    returns (m: nat)
    requires n <= |ops|
    requires Steady(setup, s.tree, s) && UndoableRun(setup, s, ops, contents, cancelled)
    ensures var run := Forward(setup, s, ops, contents, cancelled, n);
            && m <= n && OnPlan(setup, s, ops, contents, run, m)
            && (!run.failed ==> m == n)
  {
    hide OnPlan, Advance, UndoableRun;
    m := 0;
    if n == 0 {
      StartsOnPlan(setup, s, ops, contents);
    } else {
      var run := Forward(setup, s, ops, contents, cancelled, n - 1);
      m := RunStaysOnPlan(setup, s, ops, contents, cancelled, n - 1);
      if run.failed {
        FailedAdvance(setup, run, n - 1, ops[n - 1], contents(n - 1), cancelled(n - 1));
      } else {
        ForwardEffect(setup, s, ops, contents, cancelled, n - 1);
        UnfailedRunIsApplied(setup, s, ops, contents, cancelled, n - 1);
        m := PlannedAdvance(setup, s, ops, contents, cancelled(n - 1), run, n - 1);
      }
    }
  }

  lemma StartsOnPlan(setup: Setup, s: Session, ops: seq<Operation>, contents: nat -> Option<Bytes>)
    ensures OnPlan(setup, s, ops, contents, Run(s, [], 0, false), 0)
  {
  }

  lemma FailedAdvance(setup: Setup, run: Run, k: nat, op: Operation, content: Option<Bytes>, cancelled: bool)
    requires run.failed
    ensures Advance(setup, run, k, op, content, cancelled) == run
  {
  }

  lemma OnPlanHasRoom(setup: Setup, s: Session, ops: seq<Operation>, contents: nat -> Option<Bytes>,
                      run: Run, n: nat)
    requires n <= |ops| && !run.session.closed
    requires OnPlan(setup, s, ops, contents, run, n) && PlanRoom(setup, s, ops, contents)
    ensures Room(setup, run.session, run.records)
  {
    hide CanRecord, Enough, InTime;
    EnoughWithLess(setup.policy, s.operations + n, s.bytes + Written(ops, contents, n),
                   run.session.operations, run.session.bytes, run.records);
  }

  /** A plan that fits the tree and the limits of the session it starts from is restored wherever the run stops. */
  lemma FittingPlanIsRestored(setup: Setup, s: Session, ops: seq<Operation>, contents: nat -> Option<Bytes>,
                              cancelled: nat -> bool)
    requires WellFormed(s.tree) && !s.closed && FileCount(s.tree) <= setup.policy.maxFiles
    requires PlanFits(setup.policy, s.tree, ops) && PlanRoom(setup, s, ops, contents)
    ensures var run := Forward(setup, s, ops, contents, cancelled, |ops|);
            var undone := UndoAll(setup, Directories(s.tree), run.session, run.records);
            undone.failures == 0 && undone.session.tree == s.tree
  {
    hide Forward, UndoAll, OnPlan, PlanRoom, PlanFits, UndoableRun, WellFormed, FileCount, Room;
    FittingPlanIsUndoable(setup, s, ops, contents, cancelled);
    FittingPlanHasRoom(setup, s, ops, contents, cancelled, |ops|);
    RollbackRestores(setup, s, ops, contents, cancelled);
  }

  lemma FittingPlanHasRoom(setup: Setup, s: Session, ops: seq<Operation>, contents: nat -> Option<Bytes>,
                           cancelled: nat -> bool, n: nat)
    requires WellFormed(s.tree) && !s.closed && FileCount(s.tree) <= setup.policy.maxFiles && n <= |ops|
    requires UndoableRun(setup, s, ops, contents, cancelled) && PlanRoom(setup, s, ops, contents)
    ensures var run := Forward(setup, s, ops, contents, cancelled, n); Room(setup, run.session, run.records)
  {
    hide Forward, OnPlan, PlanRoom, UndoableRun, WellFormed, FileCount, Room;
    var m := RunStaysOnPlan(setup, s, ops, contents, cancelled, n);
    ForwardEffect(setup, s, ops, contents, cancelled, n);
    OnPlanHasRoom(setup, s, ops, contents, Forward(setup, s, ops, contents, cancelled, n), m);
  }

  /** Creating files needs no operations or bytes to spare: however the run stops, their removal is not refused. */
  lemma {:induction false} CreatesNeedNoBudget(policy: SandboxPolicy, operations: nat, bytes: nat,
                                               records: seq<Record>)
    requires forall record :: record in records ==> record.prior.None?
    ensures Enough(policy, operations, bytes, records)
    decreases |records|
  {
    if records != [] {
      CreatesNeedNoBudget(policy, operations + |records[|records| - 1].path|, bytes, records[..|records| - 1]);
    }
  }
}
