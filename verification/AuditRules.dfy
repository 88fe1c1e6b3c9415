/**
 What the audit sinks accept and read, said of the events and rows alone.
 */
module AuditRules {
  import opened Base
  import opened Audit

  /** The digest can cover this. */
  ghost predicate MayStand(f: Format, p: Preimage) {
    1 <= p.sequence <= 9007199254740991 && f.isText(p.code) && f.isText(p.occurredAt) && f.isTime(p.occurredAt)
  }

  /** The i-th event stands at position i + 1, names the event before it and carries its own digest. */
  ghost predicate Intact(f: Format, events: seq<StoredEvent>, i: nat)
    requires i < |events|
  {
    && events[i].covered.sequence == i + 1 && MayStand(f, events[i].covered)
    && events[i].digest == f.hash(events[i].covered)
    && (i == 0 ==> events[i].covered.previousDigest.None?)
    && (i > 0 ==> events[i].covered.previousDigest == Some(events[i - 1].digest))
  }

  /** The rows of a table, by ascending key. */
  ghost predicate ByKey(table: Table, keys: seq<int>, rows: seq<StoredEvent>) {
    && |keys| == |rows| && (forall k :: k in keys <==> k in table)
    && (forall i, j :: 0 <= i < j < |keys| ==> keys[i] < keys[j])
    && forall i :: 0 <= i < |keys| ==> keys[i] in table && rows[i] == table[keys[i]]
  }

  lemma RowsByKey(table: Table)
    ensures exists keys :: ByKey(table, keys, Rows(table))
  {
    AscendingSorts(table.Keys);
    assert ByKey(table, Ascending(table.Keys), Rows(table)) by {
      hide Ascending;
    }
  }

  lemma LinkedExactly(f: Format, events: seq<StoredEvent>, i: nat)
    requires i < |events|
    ensures Linked(f, events, i) <==> Intact(f, events, i)
  {
  }

  /** The rows come by ascending key, and they are read if and only if each is intact. */
  lemma ReadsExactly(f: Format, table: Table)
    ensures exists keys :: ByKey(table, keys, Rows(table))
    ensures Chain(f, Rows(table)) <==> forall i :: 0 <= i < |Rows(table)| ==> Intact(f, Rows(table), i)
  {
    RowsByKey(table);
    hide Rows, ByKey;
    var rows := Rows(table);
    forall i | 0 <= i < |rows| ensures Linked(f, rows, i) <==> Intact(f, rows, i) {
      LinkedExactly(f, rows, i);
    }
    hide Linked, Intact;
  }

  /** What follows an event, or starts a chain. */
  ghost predicate Follows(last: Option<StoredEvent>, input: AuditInput, p: Preimage) {
    && p.code == input.code && p.occurredAt == input.occurredAt
    && (last.None? ==> p.sequence == 1 && p.previousDigest.None?)
    && (last.Some? ==>
          p.sequence == last.value.covered.sequence + 1 && p.previousDigest == Some(last.value.digest))
  }

  /** An event is appended in memory if and only if it follows the last one, may stand and carries its own digest. */
  lemma AppendsExactly(f: Format, events: seq<StoredEvent>, input: AuditInput, e: StoredEvent)
    ensures NextEvent(f, Last(events), input) == Ok(e) <==>
            && Follows(if |events| == 0 then None else Some(events[|events| - 1]), input, e.covered)
            && MayStand(f, e.covered) && e.digest == f.hash(e.covered)
    ensures NextEvent(f, Last(events), input).Err? ==>
              NextEvent(f, Last(events), input).error == Refused(f, input, InvalidSequence)
  {
  }

  /** Which refusal it is: the texts are looked at first. */
  function Refused(f: Format, input: AuditInput, otherwise: AuditError): AuditError {
    if !f.isText(input.code) then InvalidText
    else if !(f.isText(input.occurredAt) && f.isTime(input.occurredAt)) then InvalidTime
    else otherwise
  }

  /** The row of the greatest key. */
  ghost predicate IsLast(table: Table, last: Option<StoredEvent>) {
    match last
    case None => |table| == 0
    case Some(e) => exists k :: k in table && table[k] == e && forall j :: j in table ==> j <= k
  }

  lemma PriorIsLast(table: Table)
    ensures IsLast(table, Prior(table))
    ensures forall last :: IsLast(table, last) ==> last == Prior(table)
  {
    if table != map[] {
      var m := Max(table.Keys);
      assert m in table && |table| != 0;
    }
  }

  /**
   A row is inserted if and only if it follows the row of the greatest key, may stand, carries its own digest, and
   neither its position nor its digest is taken; otherwise the table stays.
   */
  lemma SqlAppendsExactly(f: Format, table: Table, input: AuditInput, e: StoredEvent)
    ensures SqlAppend(f, table, input).1 == Ok(e) <==>
            && (exists last :: IsLast(table, last) && Follows(last, input, e.covered)
                               && (last.Some? ==> 1 <= last.value.covered.sequence))
            && MayStand(f, e.covered) && e.digest == f.hash(e.covered)
            && e.covered.sequence !in table && forall k :: k in table ==> table[k].digest != e.digest
    ensures SqlAppend(f, table, input).1 == Ok(e) ==>
              SqlAppend(f, table, input).0 == table[e.covered.sequence := e]
    ensures SqlAppend(f, table, input).1.Err? ==> SqlAppend(f, table, input).0 == table
  {
    PriorIsLast(table);
    hide Prior, IsLast;
  }
}
