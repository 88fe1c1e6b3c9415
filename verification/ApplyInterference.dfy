/**
 Two approvals whose run ids coincide: a run of the first can always be made to
 leave its work behind, while runs of approvals with different ids never are.
 */
module ApplyInterference {
  import opened Base
  import opened MemorySandbox
  import opened Rollback
  import opened Approvals
  import opened ApplyService
  import opened ApplyProtocol
  import opened ApplyRestoration

  /** An approval that can be prepared and applied at this time. */
  ghost predicate Usable(seal: Approval -> string, input: PrepareInput, now: int) {
    Bound(seal, input, now) && PermitsAll(input.approval, input.plan.operations)
  }

  /** A sandbox as its provider gives it, with the contents for the plan. */
  datatype Given = Given(openedAt: int, clock: nat -> int, start: Session, contents: nat -> Option<Bytes>)

  function SetupOf(input: PrepareInput, g: Given): Setup {
    Setup(input.sandboxPolicy, g.openedAt, g.clock)
  }

  ghost function FirstStep(input: PrepareInput, g: Given): Step
    requires input.plan.operations != []
  {
    Perform(SetupOf(input, g), g.start, 0, input.plan.operations[0], g.contents(0))
  }

  /** The first operation of the plan is recorded and changes the tree. */
  ghost predicate FirstCounts(input: PrepareInput, g: Given) {
    && input.plan.operations != []
    && FirstStep(input, g).record.Some?
    && FirstStep(input, g).session.tree != g.start.tree
  }

  /** The first run starts and performs one operation; the second reserves under its id; the first is cancelled. */
  function Interference(input: PrepareInput, other: PrepareInput, now: int, later: int, g: Given): seq<Event> {
    var runId := RunIdOf(input.approval.nonce);
    [] + [Prepare(input, now)] + [Apply(runId, 0, now, g.contents)]
    + [Create(0, g.openedAt, g.clock, Some(g.start))] + [Continue(0)]
    + [Prepare(other, later)] + [Apply(runId, 1, later, g.contents)] + [Cancel(runId)]
  }

  /** Enough for the first run to be undone and to finish. */
  function ToTheEnd(): seq<Event> {
    [Continue(0), Continue(0), Continue(0), Continue(0), Continue(0)]
  }

  /** p is the run, and it has one entry; what is registered under its id is another, empty map. */
  ghost predicate Overlapped(w: World, p: Process) {
    && w.processes == [p] && p.mine == 0
    && |w.maps| == 2 && w.maps[1] == map[]
    && w.registered == map[p.RunId() := 1] && p.RunId() in w.cancelled
    && |p.entries| == 1 && (p.phase.Undoing? ==> p.phase.source == 1) && (p.undone || p.phase.Applying?)
  }

  /** How many steps the run has left, once it is cancelled and has one entry. */
  function StepsLeft(p: Process): nat {
    match p.phase
    case Applying => if p.failed || p.done >= |p.Ops()| then 4 else 5
    case Undoing(left, _) => 2 + left
    case Closing(_) => 1
    case Finished(_) => 0
  }

  /** One step of the run after that; it finds nothing kept, and so leaves its tree alone. */
  lemma OverlappedStep(seal: Approval -> string, w: World, p: Process) returns (q: Process)
    requires Overlapped(w, p)
    ensures Overlapped(Next(seal, w, Continue(0)), q)
    ensures q.input == p.input && q.setup == p.setup && q.start == p.start && q.contents == p.contents
    ensures q.session == p.session
    ensures StepsLeft(q) == if StepsLeft(p) == 0 then 0 else StepsLeft(p) - 1
  {
    hide Perform, AfterUndo;
    q := Continued(w, p).0;
  }

  lemma FirstStarts(seal: Approval -> string, input: PrepareInput, now: int, g: Given) returns (p: Process)
    requires Usable(seal, input, now) && !g.start.closed
    ensures var runId := RunIdOf(input.approval.nonce);
            var w := Next(seal, Next(seal, INITIAL, Prepare(input, now)), Apply(runId, 0, now, g.contents));
            Next(seal, w, Create(0, g.openedAt, g.clock, Some(g.start))) ==
            World(map[runId := Held(0, input, true, true)], 1, {input.approval.nonce}, {},
                  [Reserved(input, now, g.contents, true)], [map[]], map[runId := 0], [p])
    ensures p.input == input && p.setup == SetupOf(input, g) && p.start == p.session == g.start && p.mine == 0
    ensures p.contents == g.contents && p.entries == [] && p.done == 0 && !p.failed && !p.undone && p.phase.Applying?
  {
    hide Bound, PermitsAll;
    p := Process(input, now, 0, SetupOf(input, g), g.start, g.contents, g.start, [], 0, 0, false, false, 0, Applying);
  }

  lemma FirstPerforms(seal: Approval -> string, w: World, p: Process, g: Given) returns (q: Process)
    requires w.processes == [p] && w.cancelled == {} && |w.maps| == 1 && FirstCounts(p.input, g)
    requires p.setup == SetupOf(p.input, g) && p.start == p.session == g.start && p.mine == 0
    requires p.contents == g.contents && p.entries == [] && p.done == 0 && !p.failed && !p.undone && p.phase.Applying?
    ensures q.input == p.input && q.setup == p.setup && q.start == p.start && q.contents == p.contents && q.mine == 0
    ensures q.session == FirstStep(p.input, g).session && |q.entries| == 1 && q.phase.Applying?
    ensures var v := Next(seal, w, Continue(0)); v == w.(processes := [q], maps := v.maps) && |v.maps| == 1
  {
    hide Perform;
    q := Continued(w, p).0;
  }

  lemma SecondReserves(seal: Approval -> string, w: World, p: Process, other: PrepareInput, later: int, g: Given)
    requires Usable(seal, other, later) && RunIdOf(other.approval.nonce) == p.RunId()
    requires w.processes == [p] && p.mine == 0 && |w.maps| == 1 && |p.entries| == 1 && p.phase.Applying?
    requires w.cancelled == {} && w.nextId == 1 && other.approval.nonce !in w.used
    requires w.registered == map[p.RunId() := 0]
    ensures var v := Next(seal, Next(seal, w, Prepare(other, later)), Apply(p.RunId(), 1, later, g.contents));
            Overlapped(Next(seal, v, Cancel(p.RunId())), p)
  {
    hide Bound, PermitsAll;
  }

  lemma AfterInterference(seal: Approval -> string, input: PrepareInput, other: PrepareInput, now: int, later: int,
                          g: Given) returns (p: Process)
    requires Usable(seal, input, now) && Usable(seal, other, later) && !g.start.closed && FirstCounts(input, g)
    requires RunIdOf(input.approval.nonce) == RunIdOf(other.approval.nonce)
    requires input.approval.nonce != other.approval.nonce
    ensures Overlapped(After(seal, Interference(input, other, now, later, g)), p) && StepsLeft(p) <= 5
    ensures p.input == input && p.setup == SetupOf(input, g) && p.start == g.start && p.contents == g.contents
    ensures p.session == FirstStep(input, g).session
  {
    hide Usable, FirstCounts, FirstStep, After, Next, Overlapped;
    var runId := RunIdOf(input.approval.nonce);
    var e0, e1 := [] + [Prepare(input, now)], Apply(runId, 0, now, g.contents);
    var e2, e3 := Create(0, g.openedAt, g.clock, Some(g.start)), Continue(0);
    var e4, e5, e6 := Prepare(other, later), Apply(runId, 1, later, g.contents), Cancel(runId);
    assert After(seal, []) == INITIAL by { AfterNothing(seal); }
    AfterOne(seal, [], Prepare(input, now));
    AfterOne(seal, e0, e1);
    AfterOne(seal, e0 + [e1], e2);
    AfterOne(seal, e0 + [e1] + [e2], e3);
    AfterOne(seal, e0 + [e1] + [e2] + [e3], e4);
    AfterOne(seal, e0 + [e1] + [e2] + [e3] + [e4], e5);
    AfterOne(seal, e0 + [e1] + [e2] + [e3] + [e4] + [e5], e6);
    var first := FirstStarts(seal, input, now, g);
    var w := After(seal, e0 + [e1] + [e2]);
    p := FirstPerforms(seal, w, first, g);
    SecondReserves(seal, Next(seal, w, e3), p, other, later, g);
  }

  lemma AfterNothing(seal: Approval -> string)
    ensures After(seal, []) == INITIAL
  {
  }

  lemma OverlappedEnds(seal: Approval -> string, events: seq<Event>, p: Process) returns (q: Process)
    requires Overlapped(After(seal, events), p) && StepsLeft(p) <= 5
    ensures After(seal, events + ToTheEnd()).processes == [q] && q.phase.Finished? && q.undone
    ensures q.input == p.input && q.setup == p.setup && q.start == p.start && q.contents == p.contents
    ensures q.session == p.session
  {
    hide After, Next;
    var e := Continue(0);
    q := p;
    var sofar := events;
    for n := 0 to 5
      invariant sofar == events + ToTheEnd()[..n] && Overlapped(After(seal, sofar), q) && StepsLeft(q) <= 5 - n
      invariant q.input == p.input && q.setup == p.setup && q.start == p.start && q.contents == p.contents
      invariant q.session == p.session
    {
      AfterOne(seal, sofar, e);
      q := OverlappedStep(seal, After(seal, sofar), q);
      assert ToTheEnd()[..n + 1] == ToTheEnd()[..n] + [e];
      sofar := sofar + [e];
    }
    assert ToTheEnd()[..5] == ToTheEnd();
  }

  /** The events prepare nothing but these two approvals. */
  ghost predicate OnlyThese(events: seq<Event>, input: PrepareInput, other: PrepareInput) {
    forall n :: 0 <= n < |events| && events[n].Prepare? ==> events[n].input == input || events[n].input == other
  }

  /** Run k, of this approval in this sandbox, has finished and was undone, but its tree is not the initial one. */
  ghost predicate LeavesWork(w: World, k: nat, input: PrepareInput, g: Given) {
    && k < |w.processes|
    && var p := w.processes[k];
    && p.input == input && p.setup == SetupOf(input, g) && p.start == g.start && p.contents == g.contents
    && p.phase.Finished? && p.undone && p.session.tree != p.start.tree
  }

  /**
   For any two usable approvals with one run id, and any plan whose first operation counts, some interleaving undoes the
   run of the first and leaves its work in the sandbox.
   */
  lemma OverlapLosesTheUndo(seal: Approval -> string, input: PrepareInput, other: PrepareInput, now: int, later: int,
                            g: Given) returns (events: seq<Event>)
    requires Usable(seal, input, now) && Usable(seal, other, later) && !g.start.closed && FirstCounts(input, g)
    requires RunIdOf(input.approval.nonce) == RunIdOf(other.approval.nonce)
    requires input.approval.nonce != other.approval.nonce
    ensures OnlyThese(events, input, other) && LeavesWork(After(seal, events), 0, input, g)
  {
    hide Usable, FirstStep, After, Next, Overlapped;
    var p := AfterInterference(seal, input, other, now, later, g);
    var q := OverlappedEnds(seal, Interference(input, other, now, later, g), p);
    events := Interference(input, other, now, later, g) + ToTheEnd();
  }

  /** A plan that fits the tree and the limits of the session it starts from. */
  ghost predicate Fits(input: PrepareInput, g: Given) {
    var setup := SetupOf(input, g);
    && WellFormed(g.start.tree) && !g.start.closed && FileCount(g.start.tree) <= setup.policy.maxFiles
    && PlanFits(setup.policy, g.start.tree, input.plan.operations)
    && PlanRoom(setup, g.start, input.plan.operations, g.contents)
  }

  /** With different run ids no interleaving leaves work of an undone run behind. */
  lemma DistinctIdsRestore(seal: Approval -> string, input: PrepareInput, other: PrepareInput, g: Given,
                           events: seq<Event>, k: nat)
    requires Fits(input, g) && RunIdOf(input.approval.nonce) != RunIdOf(other.approval.nonce)
    requires OnlyThese(events, input, other)
    ensures !LeavesWork(After(seal, events), k, input, g)
  {
    hide After, PlanFits, PlanRoom, WellFormed, FileCount, KeepsItsId;
    if LeavesWork(After(seal, events), k, input, g) {
      assert AloneOnItsId(events, input.approval.nonce);
      AloneKeepsItsId(seal, events, k);
      InterleavedFittingPlanIsRestored(seal, events, k);
    }
  }

  /**
   For two usable approvals and a plan that fits, some interleaving of just these two leaves work of an undone run of
   the first behind if and only if their run ids coincide.
   */
  lemma IdsDecideRestoration(seal: Approval -> string, input: PrepareInput, other: PrepareInput, now: int, later: int,
                             g: Given)
    requires Usable(seal, input, now) && Usable(seal, other, later)
    requires input.approval.nonce != other.approval.nonce
    requires Fits(input, g) && FirstCounts(input, g)
    ensures RunIdOf(input.approval.nonce) == RunIdOf(other.approval.nonce) <==>
            exists events, k :: OnlyThese(events, input, other) && LeavesWork(After(seal, events), k, input, g)
  {
    hide Usable, FirstCounts, After, LeavesWork, OnlyThese;
    if RunIdOf(input.approval.nonce) == RunIdOf(other.approval.nonce) {
      var events := OverlapLosesTheUndo(seal, input, other, now, later, g);
    } else {
      hide Fits;
      forall events, k: nat | OnlyThese(events, input, other) ensures !LeavesWork(After(seal, events), k, input, g) {
        DistinctIdsRestore(seal, input, other, g, events, k);
      }
    }
  }
}
