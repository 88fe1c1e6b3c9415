/**
 The in-memory sandbox session: a tree of files and directories with path
 rules and limits on operations, bytes, files and time.
 */
module MemorySandbox {
  import opened Base

  /**
   A canonical relative path, given by its segments, so the root is [] and "a lies above b" is the proper-prefix order
   on sequences.
   */
  type Path = seq<string>

  type Bytes = seq<bv8>

  datatype Entry = Directory | File(content: Bytes)

  type Tree = map<Path, Entry>

  datatype SandboxPolicy = SandboxPolicy(
    maxFiles: nat,
    maxBytes: nat,
    maxOperations: nat,
    maxDurationSeconds: int,
    writableRoots: set<Path>,
    denyPaths: set<Path>)

  /** What never changes in a session; clock(n) is the n-th reading of the clock, in milliseconds. */
  datatype Setup = Setup(policy: SandboxPolicy, startedAt: int, clock: nat -> int)

  /** The mutable part of a session. */
  datatype Session = Session(tree: Tree, operations: nat, bytes: nat, readings: nat, closed: bool)

  datatype Refusal = Closed | LimitExceeded | OperationDenied | NotFound

  datatype Reply = Done | Refused(reason: Refusal)

  /** The file at p, if there is one. */
  function FileAt(tree: Tree, p: Path): Option<Bytes> {
    if p in tree && tree[p].File? then Some(tree[p].content) else None
  }

  predicate DirectoryAt(tree: Tree, p: Path) {
    p in tree && tree[p].Directory?
  }

  ghost function Directories(tree: Tree): set<Path> {
    set p | p in tree && tree[p].Directory?
  }

  ghost function FilePaths(tree: Tree): set<Path> {
    set p | p in tree && tree[p].File?
  }

  ghost function FileCount(tree: Tree): nat {
    |FilePaths(tree)|
  }

  /** The entries of a file system: whatever lies above an entry is a directory, and the root is one. */
  ghost predicate WellFormed(tree: Tree) {
    && DirectoryAt(tree, [])
    && forall p, a: Path :: p in tree && a < p ==> DirectoryAt(tree, a)
  }

  predicate InTime(setup: Setup, reading: nat) {
    setup.clock(reading) - setup.startedAt <= 1000 * setup.policy.maxDurationSeconds
  }

  predicate Writable(policy: SandboxPolicy, p: Path) {
    && (exists root :: root in policy.writableRoots && root <= p)
    && !exists deny :: deny in policy.denyPaths && deny <= p
  }

  /**
   The length of the shortest non-root proper prefix of p, from k on, at which there is a file; |p| if there is none.
   */
  ghost function BlockedAt(tree: Tree, p: Path, k: nat := 1): (n: nat)
    ensures k < |p| ==> k <= n <= |p|
    ensures k >= |p| ==> n == |p|
    ensures forall j :: k <= j < n && j < |p| ==> !(p[..j] in tree && tree[p[..j]].File?)
    ensures n < |p| ==> p[..n] in tree && tree[p[..n]].File?
    decreases |p| - k
  {
    if k >= |p| then |p|
    else if p[..k] in tree && tree[p[..k]].File? then k
    else BlockedAt(tree, p, k + 1)
  }

  /** The non-root prefixes of p shorter than n. */
  ghost function Prefixes(p: Path, n: nat): set<Path>
    requires n <= |p|
  {
    set k | 0 < k < n :: p[..k]
  }

  /** tree with a directory put at every absent prefix of p shorter than n, the root excepted. */
  ghost function WithParents(tree: Tree, p: Path, n: nat): Tree
    requires n <= |p|
  {
    tree + map a | a in Prefixes(p, n) - tree.Keys :: Directory
  }

  predicate HasEntriesBelow(tree: Tree, p: Path) {
    exists q :: q in tree && p < q
  }

  ghost function AfterWrite(setup: Setup, s: Session, p: Path, content: Bytes): (Session, Reply) {
    if !Writable(setup.policy, p) then (s, Refused(OperationDenied))
    else
      var n := BlockedAt(s.tree, p);
      var t := s.(tree := WithParents(s.tree, p, n));
      if n < |p| then (t, Refused(OperationDenied))
      else if s.closed then (t, Refused(Closed))
      else if !InTime(setup, s.readings) then (t.(readings := s.readings + 1), Refused(LimitExceeded))
      else
        var u := t.(readings := s.readings + 1, operations := s.operations + 1);
        if u.operations > setup.policy.maxOperations then (u, Refused(LimitExceeded))
        else
          var v := u.(bytes := s.bytes + |content|);
          if v.bytes > setup.policy.maxBytes then (v, Refused(LimitExceeded))
          else if p !in v.tree && FileCount(v.tree) >= setup.policy.maxFiles then (v, Refused(LimitExceeded))
          else (v.(tree := v.tree[p := File(content)]), Done)
  }

  ghost function AfterRemove(setup: Setup, s: Session, p: Path): (Session, Reply) {
    if s.closed then (s, Refused(Closed))
    else
      var t := s.(readings := s.readings + 1);
      if !InTime(setup, s.readings) then (t, Refused(LimitExceeded))
      else if p == [] then (t, Refused(OperationDenied))
      else if p !in s.tree then (t, Refused(NotFound))
      else if s.tree[p].Directory? && HasEntriesBelow(s.tree, p) then (t, Refused(OperationDenied))
      else
        var u := t.(tree := s.tree - {p}, operations := s.operations + 1);
        (u, if u.operations > setup.policy.maxOperations then Refused(LimitExceeded) else Done)
  }

  function ReadFile(s: Session, p: Path): Option<Bytes> {
    if s.closed then None else FileAt(s.tree, p)
  }

  class MemorySandbox {
    const setup: Setup
    var tree: Tree
    var operations: nat
    var bytes: nat
    var readings: nat
    var closed: bool

    function State(): Session
      reads this
    {
      Session(tree, operations, bytes, readings, closed)
    }

    /** An empty session: only the root directory. */
    constructor (setup: Setup)
      ensures this.setup == setup
      ensures State() == Session(map[[] := Directory], 0, 0, 0, false)
    {
      this.setup := setup;
      tree := map[[] := Directory];
      operations, bytes, readings, closed := 0, 0, 0, false;
    }

    /** A session as a provider hands it out. */
    constructor From(setup: Setup, s: Session)
      ensures this.setup == setup && State() == s
    {
      this.setup := setup;
      tree, operations, bytes, readings, closed := s.tree, s.operations, s.bytes, s.readings, s.closed;
    }

    method AssertTimeBudget() returns (ok: bool)
      modifies this`readings
      ensures ok == InTime(setup, old(readings)) && readings == old(readings) + 1
    {
      ok := InTime(setup, readings);
      readings := readings + 1;
    }

    method EnsureParents(p: Path) returns (ok: bool)
      modifies this`tree
      ensures tree == WithParents(old(tree), p, BlockedAt(old(tree), p))
      ensures ok == (BlockedAt(old(tree), p) == |p|)
    {
      ghost var was := tree;
      WithParentsNone(was, p);
      var k := 1;
      while k < |p|
        invariant k >= 1 && (k <= |p| || |p| == 0)
        invariant |p| > 0 ==> BlockedAt(was, p) == BlockedAt(was, p, k)
        invariant tree == WithParents(was, p, if |p| == 0 then 0 else k)
      {
        var parent := p[..k];
        WithParentsStep(was, p, k);
        if parent !in tree {
          tree := tree[parent := Directory];
        } else if tree[parent].File? {
          return false;
        }
        k := k + 1;
      }
      ok := true;
    }

    method CountFiles() returns (count: nat)
      ensures count == FileCount(tree)
    {
      count := 0;
      var rest := tree.Keys;
      ghost var counted: set<Path> := {};
      while rest != {}
        invariant rest <= tree.Keys
        invariant counted == FilePaths(tree) - rest
        invariant count == |counted|
        decreases rest
      {
        var p :| p in rest;
        rest := rest - {p};
        if tree[p].File? {
          count := count + 1;
          counted := counted + {p};
        }
      }
      assert counted == FilePaths(tree);
    }

    method Write(p: Path, content: Bytes) returns (reply: Reply)
      modifies this
      ensures (State(), reply) == AfterWrite(setup, old(State()), p, content)
    {
      if !Writable(setup.policy, p) {
        return Refused(OperationDenied);
      }
      var parents := EnsureParents(p);
      if !parents {
        return Refused(OperationDenied);
      }
      if closed {
        return Refused(Closed);
      }
      var inTime := AssertTimeBudget();
      if !inTime {
        return Refused(LimitExceeded);
      }
      operations := operations + 1;
      if operations > setup.policy.maxOperations {
        return Refused(LimitExceeded);
      }
      bytes := bytes + |content|;
      if bytes > setup.policy.maxBytes {
        return Refused(LimitExceeded);
      }
      var currentFiles := CountFiles();
      if p !in tree && currentFiles >= setup.policy.maxFiles {
        return Refused(LimitExceeded);
      }
      tree := tree[p := File(content)];
      reply := Done;
    }

    method Remove(p: Path) returns (reply: Reply)
      modifies this
      ensures (State(), reply) == AfterRemove(setup, old(State()), p)
    {
      if closed {
        return Refused(Closed);
      }
      var inTime := AssertTimeBudget();
      if !inTime {
        return Refused(LimitExceeded);
      }
      if p == [] {
        return Refused(OperationDenied);
      }
      if p !in tree {
        return Refused(NotFound);
      }
      if tree[p].Directory? && HasEntriesBelow(tree, p) {
        return Refused(OperationDenied);
      }
      tree := tree - {p};
      operations := operations + 1;
      reply := if operations > setup.policy.maxOperations then Refused(LimitExceeded) else Done;
    }

    method Read(p: Path) returns (content: Option<Bytes>)
      ensures content == ReadFile(State(), p)
    {
      content := if closed then None else FileAt(tree, p);
    }

    /** The snapshot digest covers root, paths, kinds and file digests, so it identifies the tree. */
    method Snapshot() returns (snapshot: Option<Tree>)
      ensures snapshot == if closed then None else Some(tree)
    {
      snapshot := if closed then None else Some(tree);
    }

    method Close()
      modifies this`closed
      ensures closed
    {
      closed := true;
    }
  }

  lemma WithParentsNone(tree: Tree, p: Path)
    ensures WithParents(tree, p, 0) == tree
    ensures |p| > 0 ==> WithParents(tree, p, 1) == tree
  {
  }

  lemma PrefixesStep(p: Path, k: nat)
    requires 0 < k < |p|
    ensures Prefixes(p, k + 1) == Prefixes(p, k) + {p[..k]}
    ensures p[..k] !in Prefixes(p, k)
  {
    assert forall q :: q in Prefixes(p, k) ==> |q| < k;
  }

  /** One more parent: it is created if absent, and what is already there stays. */
  lemma WithParentsStep(tree: Tree, p: Path, k: nat)
    requires 0 < k < |p|
    ensures var sofar := WithParents(tree, p, k);
            && (p[..k] in sofar <==> p[..k] in tree)
            && (p[..k] in tree ==> sofar[p[..k]] == tree[p[..k]])
            && WithParents(tree, p, k + 1) == if p[..k] in tree then sofar else sofar[p[..k] := Directory]
  {
    PrefixesStep(p, k);
    hide Prefixes;
  }

  /** What a write leaves to be read: its content if it was done, and everything else, or everything, as before. */
  lemma WrittenIsReadBack(setup: Setup, s: Session, p: Path, content: Bytes, q: Path)
    ensures var (t, reply) := AfterWrite(setup, s, p, content);
            ReadFile(t, q) == if reply.Done? && q == p then Some(content) else ReadFile(s, q)
  {
    var n := BlockedAt(s.tree, p);
    assert FileAt(WithParents(s.tree, p, n), q) == FileAt(s.tree, q);
    hide WithParents, Writable, FileCount;
  }
}
