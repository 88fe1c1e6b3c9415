/**
 When each operation on a run grant is accepted, and what it then does, said of
 the fields of record, request and handle alone, for both repositories.
 */
module RunGrantRules {
  import opened Base
  import opened RunGrants
  import opened SqliteRunGrants

  /** The largest integer that a number represents together with its neighbours. */
  const LIMIT: int := 9007199254740991

  /** m is l but for the record under a key, which is only there in m if it was in l. */
  ghost predicate OnlyAt(l: Ledger, m: Ledger, key: Key) {
    && m.records.Keys == l.records.Keys
    && forall other :: other in l.records && other != key ==> m.records[other] == l.records[other]
  }

  /** A new record: active, unused, under the identifiers of the request, and only if there is none yet. */
  lemma IssuesExactly(l: Ledger, request: IssueRequest, now: int)
    ensures var t := request.terms;
            var (m, reply) := Step(l, Issue(request, now));
            && (reply != Refused <==>
                  && 0 < t.maxCalls <= LIMIT && 0 < t.maxTotalResponseBytes <= LIMIT
                  && 0 < t.maxResponseBytes <= t.maxTotalResponseBytes
                  && t.issuedAt <= now < t.expiresAt && request.inventoryAccepted
                  && (t.issuerId, t.id) !in l.records)
            && (reply == Refused ==> m == l)
            && (reply != Refused ==>
                  var g := Grant(t, 0, 0, 0, 0, Active, 0);
                  reply == Granted(g) && m == Ledger(l.records[(t.issuerId, t.id) := g], l.reservations))
  {
  }

  /** The revision named, the grant active and unexpired, a call left, and bytes left to reserve. */
  lemma ReservesExactly(l: Ledger, key: Key, expected: int, now: int, uuid: string)
    ensures var (m, reply) := Step(l, Reserve(key, expected, now, uuid));
            && (reply != Refused <==>
                  && key in l.records
                  && var g := l.records[key];
                  && g.revision == expected && -LIMIT <= expected <= LIMIT
                  && g.state == Active && now < g.terms.expiresAt
                  && g.callsUsed + g.reservedCalls < g.terms.maxCalls
                  && 0 < g.terms.maxTotalResponseBytes - g.responseBytesUsed - g.reservedResponseBytes <= LIMIT)
            && (reply == Refused ==> m == l)
  {
  }

  /** The handle holds the response limit of the grant, or what is left of its total if that is less. */
  lemma ReservesWhat(l: Ledger, key: Key, expected: int, now: int, uuid: string)
    requires Step(l, Reserve(key, expected, now, uuid)).1 != Refused && key in l.records
    ensures var (m, reply) := Step(l, Reserve(key, expected, now, uuid));
            var g := l.records[key];
            var left := g.terms.maxTotalResponseBytes - g.responseBytesUsed - g.reservedResponseBytes;
            && reply.Reserved?
            && var r := reply.reservation;
            && r.id == uuid && r.issuerId == key.0 && r.grantId == key.1 && r.revision == expected + 1
            && r.maxResponseBytes <= left && r.maxResponseBytes <= g.terms.maxResponseBytes
            && (r.maxResponseBytes == left || r.maxResponseBytes == g.terms.maxResponseBytes)
            && m.reservations == l.reservations[uuid := r]
            && OnlyAt(l, m, key)
            && m.records[key] == g.(reservedCalls := g.reservedCalls + 1,
                                    reservedResponseBytes := g.reservedResponseBytes + r.maxResponseBytes,
                                    revision := expected + 1)
  {
  }

  /** A handle that is the stored one, for a response within it, while its grant is active and unexpired. */
  lemma CommitsExactly(l: Ledger, r: Reservation, bytes: int, now: int)
    requires Sound(l)
    ensures var (m, reply) := Step(l, Commit(r, bytes, now));
            && (reply != Refused <==>
                  && r.id in l.reservations && l.reservations[r.id] == r && 0 <= bytes <= r.maxResponseBytes
                  && (r.issuerId, r.grantId) in l.records
                  && var g := l.records[(r.issuerId, r.grantId)]; g.state == Active && now < g.terms.expiresAt)
            && (reply == Refused ==> m == l)
  {
    if r.id in l.reservations && l.reservations[r.id] == r {
      ReservationIsAGuarantee(l, r, bytes, now);
    }
  }

  /** It uses one call and the bytes of the response, and exhausts the grant exactly if a quota is then used up. */
  lemma CommitsWhat(l: Ledger, r: Reservation, bytes: int, now: int)
    requires Step(l, Commit(r, bytes, now)).1 != Refused
    ensures var (m, reply) := Step(l, Commit(r, bytes, now));
            var key := (r.issuerId, r.grantId);
            && key in l.records && OnlyAt(l, m, key) && m.reservations == l.reservations - {r.id}
            && reply == Granted(m.records[key])
            && var g, h := l.records[key], m.records[key];
            && h.terms == g.terms && h.callsUsed == g.callsUsed + 1
            && h.responseBytesUsed == g.responseBytesUsed + bytes
            && h.reservedCalls == g.reservedCalls - 1
            && h.reservedResponseBytes == g.reservedResponseBytes - r.maxResponseBytes
            && h.revision == g.revision + 1 && (h.state == Active || h.state == Exhausted)
            && (h.state == Exhausted <==>
                  h.callsUsed >= g.terms.maxCalls || h.responseBytesUsed >= g.terms.maxTotalResponseBytes)
  {
  }

  /** A handle whose identifier is stored for the same grant of the same issuer; its other fields do not matter. */
  lemma ReleasesExactly(l: Ledger, r: Reservation)
    requires Sound(l)
    ensures var (m, reply) := Step(l, Release(r));
            && (reply != Refused <==>
                  && r.id in l.reservations
                  && l.reservations[r.id].issuerId == r.issuerId && l.reservations[r.id].grantId == r.grantId)
            && (reply == Refused ==> m == l)
            && (reply != Refused ==>
                  var key := (r.issuerId, r.grantId);
                  && key in l.records && OnlyAt(l, m, key) && m.reservations == l.reservations - {r.id}
                  && reply == Granted(m.records[key])
                  && var g := l.records[key];
                  m.records[key] == g.(reservedCalls := g.reservedCalls - 1,
                                       reservedResponseBytes :=
                                         g.reservedResponseBytes - l.reservations[r.id].maxResponseBytes,
                                       revision := g.revision + 1))
  {
    hide Outstanding, Total, Balanced;
    if r.id in l.reservations {
      ReleaseAlwaysSucceeds(l, l.reservations[r.id]);
    }
  }

  /** Revocation, consumption and expiry. */
  ghost predicate Ends(event: LedgerEvent) {
    event.Revoke? || event.Consume? || event.Expire?
  }

  function StateGiven(event: LedgerEvent): GrantState {
    if event.Revoke? then Revoked else if event.Consume? then Consumed else Expired
  }

  /** The revision named; active and unexpired to revoke or consume, expired in time, whatever the state, to expire. */
  lemma EndsExactly(l: Ledger, event: LedgerEvent)
    requires Ends(event)
    ensures var (m, reply) := Step(l, event);
            && (reply != Refused <==>
                  && event.key in l.records
                  && var g := l.records[event.key];
                  && g.revision == event.expected && -LIMIT <= event.expected <= LIMIT
                  && if event.Expire? then g.terms.expiresAt <= event.now
                     else g.state == Active && event.now < g.terms.expiresAt)
            && (reply == Refused ==> m == l)
            && (reply != Refused ==>
                  && OnlyAt(l, m, event.key) && m.reservations == l.reservations
                  && reply == Granted(m.records[event.key])
                  && m.records[event.key] == l.records[event.key].(state := StateGiven(event),
                                                                    revision := event.expected + 1))
  {
  }

  // Each revision of a grant admits one change.

  predicate NamesRevision(event: LedgerEvent) {
    event.Reserve? || event.Revoke? || event.Consume? || event.Expire?
  }

  /** An operation that names a revision is accepted for the revision the grant has, and for no other. */
  lemma RevisionIsNamed(l: Ledger, event: LedgerEvent)
    requires NamesRevision(event) && Step(l, event).1 != Refused
    ensures event.key in l.records && l.records[event.key].revision == event.expected
    ensures event.key in Step(l, event).0.records
    ensures Step(l, event).0.records[event.key].revision == event.expected + 1
  {
    if event.Reserve? {
      ReservesExactly(l, event.key, event.expected, event.now, event.uuid);
      ReservesWhat(l, event.key, event.expected, event.now, event.uuid);
    } else {
      EndsExactly(l, event);
    }
  }

  lemma {:induction false} RevisionsGrow(events: seq<LedgerEvent>, n: nat, key: Key)
    requires n <= |events| && key in Run(events[..n]).records
    ensures key in Run(events).records && Run(events).records[key].revision >= Run(events[..n]).records[key].revision
    decreases |events|
  {
    if n == |events| {
      assert events[..n] == events;
    } else {
      hide Step;
      var before := events[..|events| - 1];
      assert before[..n] == events[..n];
      RevisionsGrow(before, n, key);
      StepAdvances(Run(before), events[|events| - 1]);
    }
  }

  /** In every run, of two operations that name one revision of one grant at most one is accepted. */
  lemma OneChangePerRevision(events: seq<LedgerEvent>, i: nat, j: nat)
    requires i < j < |events| && NamesRevision(events[i]) && NamesRevision(events[j])
    requires events[i].key == events[j].key && events[i].expected == events[j].expected
    requires Step(Run(events[..i]), events[i]).1 != Refused
    ensures Step(Run(events[..j]), events[j]).1 == Refused
  {
    hide Step;
    var before := events[..j];
    assert before[..i + 1][..i] == events[..i] && before[..i] == events[..i];
    RevisionIsNamed(Run(events[..i]), events[i]);
    assert Run(before[..i + 1]) == Step(Run(events[..i]), events[i]).0;
    RevisionsGrow(before, i + 1, events[i].key);
    if Step(Run(before), events[j]).1 != Refused {
      RevisionIsNamed(Run(before), events[j]);
    }
  }

  // The same of the tables, whatever they hold.

  /** The reservations of a grant that the tables hold. */
  ghost function Held(db: Database, key: Key): set<Reservation> {
    set id | id in db.reservations && db.reservations[id].issuerId == key.0 && db.reservations[id].grantId == key.1 ::
      db.reservations[id]
  }

  /** A row that reads as a record: its quotas are positive and in range, and its usage and reservations within them. */
  ghost predicate Readable(row: Row, count: int, sum: int) {
    && row.terms.issuedAt < row.terms.expiresAt
    && 0 < row.terms.maxCalls <= LIMIT && 0 < row.terms.maxTotalResponseBytes <= LIMIT
    && 0 < row.terms.maxResponseBytes <= row.terms.maxTotalResponseBytes
    && 0 <= row.callsUsed && 0 <= row.responseBytesUsed && 0 <= count && 0 <= sum
    && row.callsUsed + count <= row.terms.maxCalls
    && row.responseBytesUsed + sum <= row.terms.maxTotalResponseBytes
    && 0 <= row.revision <= LIMIT
  }

  /** What reading a grant from the tables accepts, and gives. */
  lemma ReadsExactly(db: Database, key: Key)
    ensures var read, held := Required(db, key), Held(db, key);
            && (read.Ok? <==> key in db.grants && Readable(db.grants[key], |held|, Total(held)))
            && (read.Ok? ==>
                  var row := db.grants[key];
                  read.value == Grant(row.terms, row.callsUsed, row.responseBytesUsed, |held|, Total(held), row.state,
                                      row.revision))
  {
    assert Held(db, key) == Outstanding(db.reservations, key);
  }

  /** A call is reserved in the tables: the row readable and of the named revision, room left, the identifier unused. */
  lemma SqlReservesExactly(db: Database, key: Key, expected: int, now: int, uuid: string)
    ensures var (after, reply) := SqlReserve(db, key, expected, now, uuid);
            var held := Held(db, key);
            && (reply.Ok? <==>
                  && key in db.grants && uuid !in db.reservations
                  && var row := db.grants[key];
                  && Readable(row, |held|, Total(held)) && row.revision == expected
                  && row.state == Active && now < row.terms.expiresAt
                  && row.callsUsed + |held| < row.terms.maxCalls
                  && row.responseBytesUsed + Total(held) < row.terms.maxTotalResponseBytes)
            && (reply.Err? ==> after == db)
            && (reply.Ok? ==>
                  var row := db.grants[key];
                  var left := row.terms.maxTotalResponseBytes - row.responseBytesUsed - Total(held);
                  && reply.value.id == uuid && (reply.value.issuerId, reply.value.grantId) == key
                  && reply.value.revision == expected + 1
                  && reply.value.maxResponseBytes <= left && reply.value.maxResponseBytes <= row.terms.maxResponseBytes
                  && (reply.value.maxResponseBytes == left
                      || reply.value.maxResponseBytes == row.terms.maxResponseBytes)
                  && after.reservations == db.reservations[uuid := reply.value]
                  && after.grants == db.grants[key := row.(revision := expected + 1)])
  {
    ReadsExactly(db, key);
    hide Required, Held, Total;
  }

  /** Each row is stored under its own identifiers. */
  ghost predicate Keyed(db: Database) {
    forall key :: key in db.grants ==> (db.grants[key].terms.issuerId, db.grants[key].terms.id) == key
  }

  lemma SqlRevisionIsNamed(db: Database, event: LedgerEvent)
    requires Keyed(db) && NamesRevision(event) && SqlStep(db, event).1 != Refused
    ensures event.key in db.grants && db.grants[event.key].revision == event.expected
    ensures event.key in SqlStep(db, event).0.grants
    ensures SqlStep(db, event).0.grants[event.key].revision == event.expected + 1
  {
    hide Outstanding, Total;
  }

  /** Rows stay, and no step lowers a revision. */
  lemma SqlStepGrows(db: Database, event: LedgerEvent)
    requires Keyed(db)
    ensures var d := SqlStep(db, event).0;
            && Keyed(d)
            && forall key :: key in db.grants ==> key in d.grants && d.grants[key].revision >= db.grants[key].revision
  {
    hide Required, CheckRevision, CheckActive, Min;
    match event {
      case Issue(_, _) =>
      case Commit(r, _, _) => ReadsTheRow(db, (r.issuerId, r.grantId));
      case Release(r) => ReadsTheRow(db, (r.issuerId, r.grantId));
      case _ => ReadsTheRow(db, event.key);
    }
  }

  lemma ReadsTheRow(db: Database, key: Key)
    ensures var read := Required(db, key);
            read.Ok? ==> key in db.grants && read.value.terms == db.grants[key].terms
                         && read.value.revision == db.grants[key].revision
  {
    hide Outstanding, Total;
  }

  /** The tables after events, from any tables. */
  ghost function SqlFrom(db: Database, events: seq<LedgerEvent>): Database {
    if events == [] then db else SqlStep(SqlFrom(db, events[..|events| - 1]), events[|events| - 1]).0
  }

  lemma {:induction false} SqlFromIsKeyed(db: Database, events: seq<LedgerEvent>)
    requires Keyed(db)
    ensures Keyed(SqlFrom(db, events))
  {
    if events != [] {
      hide SqlStep, Keyed;
      SqlFromIsKeyed(db, events[..|events| - 1]);
      SqlStepGrows(SqlFrom(db, events[..|events| - 1]), events[|events| - 1]);
    }
  }

  lemma {:induction false} SqlRevisionsGrow(db: Database, events: seq<LedgerEvent>, n: nat, key: Key)
    requires Keyed(db) && n <= |events| && key in SqlFrom(db, events[..n]).grants
    ensures key in SqlFrom(db, events).grants
    ensures SqlFrom(db, events).grants[key].revision >= SqlFrom(db, events[..n]).grants[key].revision
    decreases |events|
  {
    if n == |events| {
      assert events[..n] == events;
    } else {
      hide SqlStep, Keyed;
      var before := events[..|events| - 1];
      assert before[..n] == events[..n];
      SqlRevisionsGrow(db, before, n, key);
      SqlFromIsKeyed(db, before);
      SqlStepGrows(SqlFrom(db, before), events[|events| - 1]);
    }
  }

  /** One file, many writers: in every order of operations on the tables one revision admits at most one change. */
  lemma OneSqlChangePerRevision(db: Database, events: seq<LedgerEvent>, i: nat, j: nat)
    requires Keyed(db) && i < j < |events| && NamesRevision(events[i]) && NamesRevision(events[j])
    requires events[i].key == events[j].key && events[i].expected == events[j].expected
    requires SqlStep(SqlFrom(db, events[..i]), events[i]).1 != Refused
    ensures SqlStep(SqlFrom(db, events[..j]), events[j]).1 == Refused
  {
    hide SqlStep, Keyed;
    var before := events[..j];
    assert before[..i + 1][..i] == events[..i] && before[..i] == events[..i];
    SqlFromIsKeyed(db, events[..i]);
    SqlFromIsKeyed(db, before);
    SqlRevisionIsNamed(SqlFrom(db, events[..i]), events[i]);
    assert SqlFrom(db, before[..i + 1]) == SqlStep(SqlFrom(db, events[..i]), events[i]).0;
    SqlRevisionsGrow(db, before, i + 1, events[i].key);
    if SqlStep(SqlFrom(db, before), events[j]).1 != Refused {
      SqlRevisionIsNamed(SqlFrom(db, before), events[j]);
    }
  }
}
