/**
 The difference of two snapshots, which a run reports. A snapshot gives each
 path a digest, and none to a directory, so the difference shows files only: a
 directory that comes or goes is not seen. Applied to the earlier digests the
 difference gives the later ones.
 */
module SnapshotDiff {
  import opened Base
  import opened Sorting
  import opened MemorySandbox
  import opened Rollback

  type Snapshot = map<Path, Option<nat>>

  datatype DiffKind = Created | Removed | Modified

  /** operation: what the plan does at the path, None if it does nothing there. */
  datatype DiffEntry = DiffEntry(
    path: Path,
    kind: DiffKind,
    beforeDigest: Option<nat>,
    afterDigest: Option<nat>,
    operation: Option<Kind>)

  function SnapshotOf(digestOf: Bytes -> nat, tree: Tree): Snapshot {
    map p | p in tree :: if tree[p].File? then Some(digestOf(tree[p].content)) else None
  }

  function DigestAt(s: Snapshot, p: Path): Option<nat> {
    if p in s then s[p] else None
  }

  /** The last operation on each path. */
  function OperationAt(ops: seq<Operation>, p: Path): Option<Kind> {
    if ops == [] then None
    else if ops[|ops| - 1].path == p then Some(ops[|ops| - 1].kind)
    else OperationAt(ops[..|ops| - 1], p)
  }

  function KindOf(before: Option<nat>, after: Option<nat>): DiffKind {
    if before.None? then Created else if after.None? then Removed else Modified
  }

  /** These entries report exactly the changed paths among these, each once. */
  ghost predicate Reports(diff: seq<DiffEntry>, before: Snapshot, after: Snapshot, ops: seq<Operation>,
                          paths: set<Path>) {
    && (forall i, j :: 0 <= i < j < |diff| ==> diff[i].path != diff[j].path)
    && (forall i :: 0 <= i < |diff| ==> EntryFor(diff[i], before, after, ops) && diff[i].path in paths)
    && (forall p :: p in paths && DigestAt(before, p) != DigestAt(after, p) ==>
          exists i :: 0 <= i < |diff| && diff[i].path == p)
  }

  predicate EntryFor(e: DiffEntry, before: Snapshot, after: Snapshot, ops: seq<Operation>) {
    && e.beforeDigest == DigestAt(before, e.path) && e.afterDigest == DigestAt(after, e.path)
    && e.beforeDigest != e.afterDigest
    && e.kind == KindOf(e.beforeDigest, e.afterDigest)
    && e.operation == OperationAt(ops, e.path)
  }

  lemma ReportsMore(diff: seq<DiffEntry>, before: Snapshot, after: Snapshot, ops: seq<Operation>, paths: set<Path>,
                    p: Path,
                    e: DiffEntry)
    requires Reports(diff, before, after, ops, paths) && p !in paths
    requires e.path == p && EntryFor(e, before, after, ops)
    ensures Reports(diff + [e], before, after, ops, paths + {p})
  {
    hide EntryFor, DigestAt;
    var longer := diff + [e];
    forall q | q in paths + {p} && DigestAt(before, q) != DigestAt(after, q)
      ensures exists i :: 0 <= i < |longer| && longer[i].path == q
    {
      if q == p {
        assert longer[|diff|] == e;
      } else {
        var i :| 0 <= i < |diff| && diff[i].path == q;
        assert longer[i].path == q;
      }
    }
  }

  function Joined(p: Path): string {
    if p == [] then "" else if |p| == 1 then p[0] else Joined(p[..|p| - 1]) + "/" + p[|p| - 1]
  }

  function PathText(p: Path): string {
    if p == [] then "." else Joined(p)
  }

  predicate PathBefore(locale: Order, e: DiffEntry, f: DiffEntry) {
    locale(PathText(e.path), PathText(f.path))
  }

  function ByPath(locale: Order): (DiffEntry, DiffEntry) -> bool {
    (e: DiffEntry, f: DiffEntry) => PathBefore(locale, e, f)
  }

  lemma ByPathIsTotal(locale: Order)
    requires Total(locale)
    ensures TotalPreorder(ByPath(locale))
  {
    hide PathText;
    forall e, f ensures PathBefore(locale, e, f) || PathBefore(locale, f, e) {
    }
    forall e, f, g | PathBefore(locale, e, f) && PathBefore(locale, f, g) ensures PathBefore(locale, e, g) {
    }
    hide PathBefore;
    assert forall e, f :: ByPath(locale)(e, f) == PathBefore(locale, e, f);
  }

  lemma ReportsPermuted(diff: seq<DiffEntry>, sorted: seq<DiffEntry>, before: Snapshot, after: Snapshot,
                        ops: seq<Operation>, paths: set<Path>)
    requires Reports(diff, before, after, ops, paths) && multiset(sorted) == multiset(diff)
    ensures Reports(sorted, before, after, ops, paths)
  {
    hide EntryFor, DigestAt;
    var path := (e: DiffEntry) => e.path;
    DistinctByPermutation(path, diff, sorted);
    forall e ensures e in sorted <==> e in diff {
      assert e in multiset(sorted) <==> e in multiset(diff);
    }
    forall i, j | 0 <= i < j < |sorted| ensures sorted[i].path != sorted[j].path {
      assert path(sorted[i]) != path(sorted[j]);
    }
    forall i | 0 <= i < |sorted| ensures EntryFor(sorted[i], before, after, ops) && sorted[i].path in paths {
      assert sorted[i] in sorted;
    }
    forall p | p in paths && DigestAt(before, p) != DigestAt(after, p)
      ensures exists i :: 0 <= i < |sorted| && sorted[i].path == p
    {
      var i :| 0 <= i < |diff| && diff[i].path == p;
      assert diff[i] in sorted;
    }
  }

  // What an entry says, written out.

  /** kind is what the plan does last at p: None if it does nothing there. */
  ghost predicate LastOn(ops: seq<Operation>, p: Path, kind: Option<Kind>) {
    match kind
    case None => forall i :: 0 <= i < |ops| ==> ops[i].path != p
    case Some(k) =>
      exists i :: 0 <= i < |ops| && ops[i].path == p && ops[i].kind == k
                  && forall j :: i < j < |ops| ==> ops[j].path != p
  }

  lemma {:induction false} OperationIsLast(ops: seq<Operation>, p: Path)
    ensures LastOn(ops, p, OperationAt(ops, p))
  {
    if ops != [] && ops[|ops| - 1].path != p {
      OperationIsLast(ops[..|ops| - 1], p);
      var found := OperationAt(ops[..|ops| - 1], p);
      if found.Some? {
        var i :| 0 <= i < |ops| - 1 && ops[i].path == p && ops[i].kind == found.value
                 && forall j :: i < j < |ops| - 1 ==> ops[j].path != p;
        assert forall j :: i < j < |ops| ==> ops[j].path != p;
      }
    }
  }

  /** The entry of a path tells its two digests, which differ; a directory has none, like nothing at all. */
  ghost predicate Tells(e: DiffEntry, before: Snapshot, after: Snapshot, ops: seq<Operation>) {
    && e.beforeDigest == (if e.path in before then before[e.path] else None)
    && e.afterDigest == (if e.path in after then after[e.path] else None)
    && e.beforeDigest != e.afterDigest
    && (e.kind == Created <==> e.beforeDigest.None?)
    && (e.kind == Removed <==> e.afterDigest.None?)
    && (e.kind == Modified <==> e.beforeDigest.Some? && e.afterDigest.Some?)
    && LastOn(ops, e.path, e.operation)
  }

  lemma EntryTells(e: DiffEntry, before: Snapshot, after: Snapshot, ops: seq<Operation>)
    requires EntryFor(e, before, after, ops)
    ensures Tells(e, before, after, ops)
  {
    OperationIsLast(ops, e.path);
    hide OperationAt, LastOn;
  }

  function Rest(p: Path): string {
    if p == [] then "" else "/" + p[0] + Rest(p[1..])
  }

  /** The names of a path with strokes between them; the root is a dot. */
  function TextOf(p: Path): string {
    if p == [] then "." else p[0] + Rest(p[1..])
  }

  lemma {:induction false} RestGrows(p: Path, name: string)
    ensures Rest(p + [name]) == Rest(p) + "/" + name
  {
    if p == [] {
      assert p + [name] == [name] && [name][1..] == [];
    } else {
      RestGrows(p[1..], name);
      assert (p + [name])[1..] == p[1..] + [name];
    }
  }

  lemma {:induction false} TextsAgree(p: Path)
    ensures PathText(p) == TextOf(p)
  {
    if |p| > 1 {
      var init, last := p[..|p| - 1], p[|p| - 1];
      TextsAgree(init);
      assert p == init + [last] && p[1..] == init[1..] + [last];
      RestGrows(init[1..], last);
    }
  }

  /** Exactly the paths whose digests differ have an entry, one each, and the entries go by the text of the path. */
  lemma DiffIs(locale: Order, diff: seq<DiffEntry>, before: Snapshot, after: Snapshot, ops: seq<Operation>)
    requires Reports(diff, before, after, ops, before.Keys + after.Keys)
    requires Total(locale) ==> Sorted(ByPath(locale), diff)
    ensures forall i :: 0 <= i < |diff| ==> Tells(diff[i], before, after, ops)
    ensures forall i, j :: 0 <= i < j < |diff| ==> diff[i].path != diff[j].path
    ensures forall p :: (exists i :: 0 <= i < |diff| && diff[i].path == p) <==>
                        (if p in before then before[p] else None) != (if p in after then after[p] else None)
    ensures Total(locale) ==>
              forall i, j :: 0 <= i < j < |diff| ==> locale(TextOf(diff[i].path), TextOf(diff[j].path))
  {
    forall i | 0 <= i < |diff| ensures Tells(diff[i], before, after, ops) {
      EntryTells(diff[i], before, after, ops);
    }
    hide Tells, PathText, TextOf;
    if Total(locale) {
      forall i, j | 0 <= i < j < |diff| ensures locale(TextOf(diff[i].path), TextOf(diff[j].path)) {
        assert ByPath(locale)(diff[i], diff[j]);
        TextsAgree(diff[i].path);
        TextsAgree(diff[j].path);
      }
    }
  }

  /** The changed paths, each once, sorted by path. */
  method DiffSnapshots(locale: Order, before: Snapshot, after: Snapshot, ops: seq<Operation>)
    returns (diff: seq<DiffEntry>)
    ensures Reports(diff, before, after, ops, before.Keys + after.Keys)
    ensures Total(locale) ==> Sorted(ByPath(locale), diff)
  {
    diff := [];
    var rest := before.Keys + after.Keys;
    ghost var done: set<Path> := {};
    while rest != {}
      invariant done !! rest && done + rest == before.Keys + after.Keys
      invariant Reports(diff, before, after, ops, done)
      decreases rest
    {
      var p :| p in rest;
      var beforeDigest, afterDigest := DigestAt(before, p), DigestAt(after, p);
      if beforeDigest != afterDigest {
        var e := DiffEntry(p, KindOf(beforeDigest, afterDigest), beforeDigest, afterDigest, OperationAt(ops, p));
        ReportsMore(diff, before, after, ops, done, p, e);
        diff := diff + [e];
      }
      rest := rest - {p};
      done := done + {p};
    }
    assert done == before.Keys + after.Keys;
    ghost var unsorted := diff;
    SortPermutes(ByPath(locale), diff);
    diff := Sort(ByPath(locale), diff);
    ReportsPermuted(unsorted, diff, before, after, ops, before.Keys + after.Keys);
    if Total(locale) {
      ByPathIsTotal(locale);
      SortSorts(ByPath(locale), unsorted);
    }
  }

  /** What the difference makes of the digest of a path. */
  function Patched(diff: seq<DiffEntry>, p: Path, digest: Option<nat>): Option<nat> {
    if diff == [] then digest
    else if diff[|diff| - 1].path == p then diff[|diff| - 1].afterDigest
    else Patched(diff[..|diff| - 1], p, digest)
  }

  lemma {:induction false} PatchedAt(diff: seq<DiffEntry>, p: Path, digest: Option<nat>)
    requires forall i, j :: 0 <= i < j < |diff| ==> diff[i].path != diff[j].path
    ensures forall i :: 0 <= i < |diff| && diff[i].path == p ==> Patched(diff, p, digest) == diff[i].afterDigest
    ensures (forall i :: 0 <= i < |diff| ==> diff[i].path != p) ==> Patched(diff, p, digest) == digest
  {
    if diff != [] {
      PatchedAt(diff[..|diff| - 1], p, digest);
    }
  }

  /** The difference, applied to the digests before, gives the digests after, at every path. */
  lemma PatchingRestores(diff: seq<DiffEntry>, before: Snapshot, after: Snapshot, ops: seq<Operation>, p: Path)
    requires Reports(diff, before, after, ops, before.Keys + after.Keys)
    ensures Patched(diff, p, DigestAt(before, p)) == DigestAt(after, p)
  {
    PatchedAt(diff, p, DigestAt(before, p));
    if DigestAt(before, p) != DigestAt(after, p) {
      assert p in before.Keys + after.Keys;
      var i :| 0 <= i < |diff| && diff[i].path == p;
    }
  }

  /** There is no difference if and only if the files are the same; directories come and go unseen. */
  lemma EmptyDiffMeansSameFiles(digestOf: Bytes -> nat, left: Tree, right: Tree, ops: seq<Operation>,
                                diff: seq<DiffEntry>)
    requires forall b, c :: digestOf(b) == digestOf(c) ==> b == c
    requires var s, t := SnapshotOf(digestOf, left), SnapshotOf(digestOf, right);
             Reports(diff, s, t, ops, s.Keys + t.Keys)
    ensures diff == [] <==> SameFiles(left, right)
  {
    var s, t := SnapshotOf(digestOf, left), SnapshotOf(digestOf, right);
    forall p ensures DigestAt(s, p) == DigestAt(t, p) <==> FileAt(left, p) == FileAt(right, p) {
    }
    if diff == [] {
      forall p ensures DigestAt(s, p) == DigestAt(t, p) {
        assert p in s.Keys + t.Keys <==> p in s || p in t;
      }
    } else {
      assert EntryFor(diff[0], s, t, ops);
    }
  }
}
