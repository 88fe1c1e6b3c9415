/**
 The audit chain: each event carries the digest of the one before it. What
 counts as a text and as a time, and the digest, are parameters.
 */
module Audit {
  import opened Base

  type Digest = nat

  datatype AuditInput = AuditInput(code: string, occurredAt: string)

  datatype AuditError = InvalidText | InvalidTime | InvalidSequence | InvalidChain | NotUnique

  /** What the digest of an event covers. */
  datatype Preimage = Preimage(sequence: int, code: string, occurredAt: string, previousDigest: Option<Digest>)

  datatype StoredEvent = StoredEvent(covered: Preimage, digest: Digest)

  datatype Format = Format(isText: string -> bool, isTime: string -> bool, hash: Preimage -> Digest)

  ghost predicate Injective(f: Format) {
    forall p, q :: f.hash(p) == f.hash(q) ==> p == q
  }

  predicate IsSequence(n: int) {
    SafeInteger(n) && n > 0
  }

  function EventDigest(f: Format, p: Preimage): Result<Digest, AuditError> {
    if !IsSequence(p.sequence) then Err(InvalidSequence)
    else if !f.isText(p.code) then Err(InvalidText)
    else if !f.isText(p.occurredAt) || !f.isTime(p.occurredAt) then Err(InvalidTime)
    else Ok(f.hash(p))
  }

  // The in-memory sink.

  function NextEvent(f: Format, last: Option<StoredEvent>, input: AuditInput): Result<StoredEvent, AuditError> {
    var sequence := if last.None? then 1 else last.value.covered.sequence + 1;
    var previous := if last.None? then None else Some(last.value.digest);
    var covered := Preimage(sequence, input.code, input.occurredAt, previous);
    if !f.isText(input.code) then Err(InvalidText)
    else if !f.isText(input.occurredAt) || !f.isTime(input.occurredAt) then Err(InvalidTime)
    else
      var digest := EventDigest(f, covered);
      if digest.Err? then Err(digest.error) else Ok(StoredEvent(covered, digest.value))
  }

  function Last(events: seq<StoredEvent>): Option<StoredEvent> {
    if events == [] then None else Some(events[|events| - 1])
  }

  class InMemoryAuditSink {
    const format: Format
    var events: seq<StoredEvent>

    constructor (format: Format)
      ensures this.format == format && events == []
    {
      this.format, events := format, [];
    }

    method Append(input: AuditInput) returns (reply: Result<StoredEvent, AuditError>)
      modifies this
      ensures reply == NextEvent(format, Last(old(events)), input)
      ensures events == if reply.Ok? then old(events) + [reply.value] else old(events)
    {
      var previous := if events == [] then None else Some(events[|events| - 1]);
      reply := NextEvent(format, previous, input);
      if reply.Ok? {
        events := events + [reply.value];
      }
    }
  }

  // The SQLite sink: a table with the sequence as its primary key and unique digests.

  type Table = map<int, StoredEvent>

  lemma {:induction false} HasMax(keys: set<int>)
    requires keys != {}
    ensures exists m :: m in keys && forall k :: k in keys ==> k <= m
  {
    if forall k :: k !in keys {
      assert false;
    }
    var k :| k in keys;
    var rest := keys - {k};
    if rest == {} {
      assert keys == {k};
    } else {
      HasMax(rest);
      var m :| m in rest && forall j :: j in rest ==> j <= m;
      assert forall j :: j in keys ==> j == k || j in rest;
      var top := if m < k then k else m;
      assert top in keys && forall j :: j in keys ==> j <= top;
    }
  }

  function Max(keys: set<int>): (m: int)
    requires keys != {}
    ensures m in keys && forall k :: k in keys ==> k <= m
  {
    HasMax(keys);
    var m :| m in keys && forall k :: k in keys ==> k <= m;
    m
  }

  /** The keys in ascending order. */
  function Ascending(keys: set<int>): seq<int> {
    if keys == {} then [] else Ascending(keys - {Max(keys)}) + [Max(keys)]
  }

  lemma {:induction false} AscendingSorts(keys: set<int>)
    ensures var s := Ascending(keys);
            && |s| == |keys|
            && (forall i :: 0 <= i < |s| ==> s[i] in keys)
            && (forall k :: k in keys ==> k in s)
            && (forall i, j :: 0 <= i < j < |s| ==> s[i] < s[j])
  {
    if keys != {} {
      AscendingSorts(keys - {Max(keys)});
    }
  }

  lemma AscendingAdded(keys: set<int>, m: int)
    requires forall k :: k in keys ==> k < m
    ensures Ascending(keys + {m}) == Ascending(keys) + [m]
  {
    assert Max(keys + {m}) == m;
    assert keys + {m} - {m} == keys;
  }

  /** The rows in the order of their keys. */
  function Rows(table: Table): seq<StoredEvent> {
    AscendingSorts(table.Keys);
    var keys := Ascending(table.Keys);
    seq(|keys|, i requires 0 <= i < |keys| => table[keys[i]])
  }

  /** What SELECT ... ORDER BY sequence DESC LIMIT 1 gives. */
  function Prior(table: Table): Option<StoredEvent> {
    if table == map[] then None else Some(table[Max(table.Keys)])
  }

  function SqlAppend(f: Format, table: Table, input: AuditInput): (Table, Result<StoredEvent, AuditError>) {
    var prior := Prior(table);
    if !f.isText(input.code) then (table, Err(InvalidText))
    else if !f.isText(input.occurredAt) || !f.isTime(input.occurredAt) then (table, Err(InvalidTime))
    else if prior.Some? && !IsSequence(prior.value.covered.sequence) then (table, Err(InvalidChain))
    else
      var next := NextEvent(f, prior, input);
      if next.Err? then (table, next)
      else
        var e := next.value;
        if e.covered.sequence in table || exists k :: k in table && table[k].digest == e.digest then
          (table, Err(NotUnique))
        else (table[e.covered.sequence := e], next)
  }

  /** The position follows, the link to the event before holds and the digest is the one of the contents. */
  predicate Linked(f: Format, events: seq<StoredEvent>, i: nat)
    requires i < |events|
  {
    var e := events[i];
    && e.covered.sequence == i + 1
    && e.covered.previousDigest == (if i == 0 then None else Some(events[i - 1].digest))
    && EventDigest(f, e.covered) == Ok(e.digest)
  }

  /** An intact chain. */
  ghost predicate Chain(f: Format, events: seq<StoredEvent>) {
    forall i :: 0 <= i < |events| ==> Linked(f, events, i)
  }

  class SqliteAuditSink {
    const format: Format
    var table: Table

    constructor (format: Format)
      ensures this.format == format && table == map[]
    {
      this.format, table := format, map[];
    }

    method Append(input: AuditInput) returns (reply: Result<StoredEvent, AuditError>)
      modifies this
      ensures (table, reply) == SqlAppend(format, old(table), input)
    {
      if !format.isText(input.code) {
        return Err(InvalidText);
      }
      if !format.isText(input.occurredAt) || !format.isTime(input.occurredAt) {
        return Err(InvalidTime);
      }
      var prior := Prior(table);
      if prior.Some? && !IsSequence(prior.value.covered.sequence) {
        return Err(InvalidChain);
      }
      reply := NextEvent(format, prior, input);
      if reply.Ok? {
        var e := reply.value;
        if e.covered.sequence in table || exists k :: k in table && table[k].digest == e.digest {
          return Err(NotUnique);
        }
        table := table[e.covered.sequence := e];
      }
    }

    /** Whatever the table holds, it is read if and only if it is an intact chain. */
    method ReadAll() returns (reply: Result<seq<StoredEvent>, AuditError>)
      ensures reply == if Chain(format, Rows(table)) then Ok(Rows(table)) else Err(InvalidChain)
    {
      var events := Rows(table);
      var i := 0;
      while i < |events|
        invariant 0 <= i <= |events|
        invariant forall j :: 0 <= j < i ==> Linked(format, events, j)
      {
        var e := events[i];
        if e.covered.sequence != i + 1 {
          assert !Linked(format, events, i);
          return Err(InvalidChain);
        }
        if (if i == 0 then e.covered.previousDigest.Some? else e.covered.previousDigest != Some(events[i - 1].digest)) {
          assert !Linked(format, events, i);
          return Err(InvalidChain);
        }
        var digest := EventDigest(format, e.covered);
        if digest != Ok(e.digest) {
          assert !Linked(format, events, i);
          return Err(InvalidChain);
        }
        i := i + 1;
      }
      reply := Ok(events);
    }
  }

  // Runs of appends.

  /** The events after appending these inputs in turn; an input that is refused leaves them alone. */
  function Appended(f: Format, inputs: seq<AuditInput>): seq<StoredEvent> {
    if inputs == [] then []
    else
      var events := Appended(f, inputs[..|inputs| - 1]);
      var reply := NextEvent(f, Last(events), inputs[|inputs| - 1]);
      if reply.Ok? then events + [reply.value] else events
  }

  ghost function SqlAppended(f: Format, inputs: seq<AuditInput>): Table {
    if inputs == [] then map[]
    else SqlAppend(f, SqlAppended(f, inputs[..|inputs| - 1]), inputs[|inputs| - 1]).0
  }

  lemma AppendKeepsChain(f: Format, events: seq<StoredEvent>, input: AuditInput)
    requires Chain(f, events) && NextEvent(f, Last(events), input).Ok?
    ensures Chain(f, events + [NextEvent(f, Last(events), input).value])
  {
    var after := events + [NextEvent(f, Last(events), input).value];
    assert events != [] ==> Linked(f, events, |events| - 1);
    forall i | 0 <= i < |after| ensures Linked(f, after, i) {
      if i < |events| {
        assert Linked(f, events, i);
      }
    }
  }

  lemma {:induction false} AppendedIsChain(f: Format, inputs: seq<AuditInput>)
    ensures Chain(f, Appended(f, inputs))
  {
    if inputs != [] {
      var before := inputs[..|inputs| - 1];
      AppendedIsChain(f, before);
      if NextEvent(f, Last(Appended(f, before)), inputs[|inputs| - 1]).Ok? {
        AppendKeepsChain(f, Appended(f, before), inputs[|inputs| - 1]);
      }
    }
  }

  /** A digest stands for its position and for every event up to it: two chains that share one share all before it. */
  lemma {:induction false} DigestDecidesHistory(f: Format, a: seq<StoredEvent>, b: seq<StoredEvent>, i: nat, j: nat)
    requires Injective(f) && Chain(f, a) && Chain(f, b)
    requires i < |a| && j < |b| && a[i].digest == b[j].digest
    ensures i == j && a[..i + 1] == b[..j + 1]
    decreases i
  {
    assert Linked(f, a, i) && Linked(f, b, j);
    assert f.hash(a[i].covered) == f.hash(b[j].covered);
    if i > 0 {
      DigestDecidesHistory(f, a, b, i - 1, j - 1);
      assert a[..i + 1] == a[..i] + [a[i]] && b[..i + 1] == b[..i] + [b[i]];
    }
  }

  /** Two accepted chains with the same last digest are the same, in length and in every event. */
  lemma LastDigestDecidesChain(f: Format, a: seq<StoredEvent>, b: seq<StoredEvent>)
    requires Injective(f) && Chain(f, a) && Chain(f, b) && a != [] && b != []
    requires a[|a| - 1].digest == b[|b| - 1].digest
    ensures a == b
  {
    DigestDecidesHistory(f, a, b, |a| - 1, |b| - 1);
    assert a[..|a|] == a && b[..|b|] == b;
  }

  // The SQLite sink keeps the same chain.

  /** The table holds these events, each at its sequence. */
  ghost predicate Holds(table: Table, events: seq<StoredEvent>) {
    && table.Keys == UpTo(|events|)
    && forall i :: 0 <= i < |events| ==> table[i + 1] == events[i]
  }

  ghost function UpTo(n: nat): (keys: set<int>)
    ensures forall k :: k in keys <==> 1 <= k <= n
  {
    if n == 0 then {} else UpTo(n - 1) + {n}
  }

  lemma {:induction false} AscendingUpTo(n: nat)
    ensures Ascending(UpTo(n)) == seq(n, i => i + 1)
  {
    if n > 0 {
      AscendingUpTo(n - 1);
      AscendingAdded(UpTo(n - 1), n);
    }
  }

  lemma RowsOf(table: Table, events: seq<StoredEvent>)
    requires Holds(table, events)
    ensures Rows(table) == events && Prior(table) == Last(events)
  {
    AscendingUpTo(|events|);
    if events != [] {
      assert Max(table.Keys) == |events|;
    }
  }

  lemma SqlAppendAgrees(f: Format, table: Table, events: seq<StoredEvent>, input: AuditInput)
    requires Injective(f) && Chain(f, events) && Holds(table, events)
    ensures var (after, sql) := SqlAppend(f, table, input);
            var memory := NextEvent(f, Last(events), input);
            && (sql.Ok? <==> memory.Ok?)
            && (sql.Ok? ==> sql == memory)
            && Holds(after, if memory.Ok? then events + [memory.value] else events)
  {
    RowsOf(table, events);
    assert events != [] ==> Linked(f, events, |events| - 1);
    var memory := NextEvent(f, Last(events), input);
    if memory.Ok? {
      var e := memory.value;
      assert e.covered.sequence == |events| + 1;
      forall k | k in table ensures table[k].digest != e.digest {
        assert Linked(f, events, k - 1);
      }
      var after := table[e.covered.sequence := e];
      var longer := events + [e];
      assert after.Keys == UpTo(|longer|);
    }
  }

  /**
   Both sinks answer every sequence of appends with the same events, and what the SQLite sink holds is read back as an
   intact chain.
   */
  lemma {:induction false} AppendsAreReadBack(f: Format, inputs: seq<AuditInput>)
    requires Injective(f)
    ensures Rows(SqlAppended(f, inputs)) == Appended(f, inputs)
    ensures Holds(SqlAppended(f, inputs), Appended(f, inputs)) && Chain(f, Rows(SqlAppended(f, inputs)))
  {
    AppendedIsChain(f, inputs);
    if inputs != [] {
      var before := inputs[..|inputs| - 1];
      AppendsAreReadBack(f, before);
      SqlAppendAgrees(f, SqlAppended(f, before), Appended(f, before), inputs[|inputs| - 1]);
    }
    RowsOf(SqlAppended(f, inputs), Appended(f, inputs));
  }
}
