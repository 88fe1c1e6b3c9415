/**
 When the sandbox does what it is asked, said of paths, tree, counters and
 clock alone.
 */
module SandboxRules {
  import opened Base
  import opened MemorySandbox

  /** Some writable root is the beginning of p, or all of it, and no denied path is. */
  ghost predicate Allowed(policy: SandboxPolicy, p: Path) {
    && (exists n :: 0 <= n <= |p| && p[..n] in policy.writableRoots)
    && (forall n :: 0 <= n <= |p| ==> p[..n] !in policy.denyPaths)
  }

  lemma AllowedExactly(policy: SandboxPolicy, p: Path)
    ensures Writable(policy, p) <==> Allowed(policy, p)
  {
    if root :| root in policy.writableRoots && root <= p {
      assert p[..|root|] == root;
    }
    if deny :| deny in policy.denyPaths && deny <= p {
      assert p[..|deny|] == deny;
    }
    if n :| 0 <= n <= |p| && p[..n] in policy.writableRoots {
      assert p[..n] <= p;
    }
    if n :| 0 <= n <= |p| && p[..n] in policy.denyPaths {
      assert p[..n] <= p;
    }
  }

  /** The milliseconds that have passed at a reading of the clock are within the limit in seconds. */
  ghost predicate OnTime(setup: Setup, reading: nat) {
    setup.clock(reading) <= setup.startedAt + 1000 * setup.policy.maxDurationSeconds
  }

  ghost function Files(tree: Tree): nat {
    |set p | p in tree && tree[p].File?|
  }

  lemma Unblocked(tree: Tree, p: Path)
    ensures BlockedAt(tree, p) == |p| <==> forall k :: 0 < k < |p| ==> !(p[..k] in tree && tree[p[..k]].File?)
  {
  }

  lemma ParentsKeepFiles(tree: Tree, p: Path)
    ensures FilePaths(WithParents(tree, p, |p|)) == FilePaths(tree)
    ensures p in WithParents(tree, p, |p|) <==> p in tree
  {
    assert p !in Prefixes(p, |p|);
  }

  /** A write is done if and only if its path is allowed, no file is in the way, and every limit has room for it. */
  lemma WritesExactly(setup: Setup, s: Session, p: Path, content: Bytes)
    ensures var (t, reply) := AfterWrite(setup, s, p, content);
            && (reply.Done? <==>
                  && Allowed(setup.policy, p) && !s.closed
                  && (forall k :: 0 < k < |p| ==> !(p[..k] in s.tree && s.tree[p[..k]].File?))
                  && OnTime(setup, s.readings)
                  && s.operations < setup.policy.maxOperations
                  && s.bytes + |content| <= setup.policy.maxBytes
                  && (p in s.tree || Files(s.tree) < setup.policy.maxFiles))
            && (reply.Done? ==>
                  && t.operations == s.operations + 1 && t.bytes == s.bytes + |content|
                  && t.readings == s.readings + 1 && !t.closed
                  && p in t.tree && t.tree[p] == File(content)
                  && (forall q :: q in s.tree && q != p ==> q in t.tree && t.tree[q] == s.tree[q])
                  && (forall q :: q in t.tree && q !in s.tree && q != p ==>
                        t.tree[q] == Directory && exists k :: 0 < k < |p| && p[..k] == q)
                  && (forall k :: 0 < k < |p| ==> p[..k] in t.tree && t.tree[p[..k]] == Directory))
  {
    AllowedExactly(setup.policy, p);
    Unblocked(s.tree, p);
    ParentsKeepFiles(s.tree, p);
    assert FilePaths(s.tree) == set q | q in s.tree && s.tree[q].File?;
    hide Writable, Allowed, BlockedAt, FilePaths;
  }

  /** What a refused write leaves: parents made, the clock read, and the limits counted up to the one that failed. */
  lemma RefusedWriteLeaves(setup: Setup, s: Session, p: Path, content: Bytes)
    requires !AfterWrite(setup, s, p, content).1.Done?
    ensures var t := AfterWrite(setup, s, p, content).0;
            var timed := && Allowed(setup.policy, p) && !s.closed
                         && forall k :: 0 < k < |p| ==> !(p[..k] in s.tree && s.tree[p[..k]].File?);
            var counts := timed && OnTime(setup, s.readings);
            && (forall q :: q in s.tree ==> q in t.tree && t.tree[q] == s.tree[q])
            && (forall q :: q in t.tree && q !in s.tree ==>
                  && t.tree[q] == Directory && Allowed(setup.policy, p)
                  && exists k :: 0 < k < |p| && p[..k] == q)
            && t.closed == s.closed && t.readings == s.readings + (if timed then 1 else 0)
            && t.operations == s.operations + (if counts then 1 else 0)
            && t.bytes == s.bytes + if counts && s.operations < setup.policy.maxOperations then |content| else 0
  {
    AllowedExactly(setup.policy, p);
    Unblocked(s.tree, p);
    hide Writable, Allowed, BlockedAt, FileCount;
  }

  /** A removal is done if and only if there is something other than the root, with nothing below it if a directory. */
  lemma RemovesExactly(setup: Setup, s: Session, p: Path)
    ensures var (t, reply) := AfterRemove(setup, s, p);
            var gone := && !s.closed && OnTime(setup, s.readings) && p != [] && p in s.tree
                        && (s.tree[p].Directory? ==>
                              forall q :: q in s.tree && |q| > |p| ==> q[..|p|] != p);
            && t.tree == (if gone then s.tree - {p} else s.tree)
            && t.operations == s.operations + (if gone then 1 else 0)
            && t.bytes == s.bytes && t.closed == s.closed
            && t.readings == s.readings + (if s.closed then 0 else 1)
            && (reply.Done? <==> gone && s.operations < setup.policy.maxOperations)
  {
    if p in s.tree {
      assert HasEntriesBelow(s.tree, p) <==> exists q :: q in s.tree && |q| > |p| && q[..|p|] == p by {
        if q :| q in s.tree && p < q {
          assert q[..|p|] == p;
        }
      }
    }
  }
}
