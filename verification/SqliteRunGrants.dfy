/**
 The SQLite repository of run grants. Its grant rows hold no reserved counters:
 every read counts and sums the reservation table, and checks what it decodes.
 It refines the in-memory repository.
 */
module SqliteRunGrants {
  import opened Base
  import opened RunGrants

  datatype Row = Row(terms: Terms, callsUsed: int, responseBytesUsed: int, state: GrantState, revision: int)

  datatype Database = Database(grants: map<Key, Row>, reservations: map<string, Reservation>)

  predicate Positive(n: int) {
    SafeInteger(n) && n > 0
  }

  predicate NonNegative(n: int) {
    SafeInteger(n) && n >= 0
  }

  /** A row with the count and the sum of its reservations, unless a check on it fails. */
  function Decode(row: Row, count: int, sum: int): Result<Grant, GrantError> {
    var t := row.terms;
    if t.expiresAt <= t.issuedAt then Err(InvalidStored)
    else if !Positive(t.maxCalls) || !Positive(t.maxResponseBytes) || !Positive(t.maxTotalResponseBytes) then
      Err(InvalidStored)
    else if || !NonNegative(row.callsUsed) || !NonNegative(row.responseBytesUsed)
            || !NonNegative(count) || !NonNegative(sum)
    then Err(InvalidStored)
    else if t.maxResponseBytes > t.maxTotalResponseBytes || row.callsUsed + count > t.maxCalls
            || row.responseBytesUsed + sum > t.maxTotalResponseBytes then Err(InvalidStored)
    else if !NonNegative(row.revision) then Err(InvalidStored)
    else Ok(Grant(t, row.callsUsed, row.responseBytesUsed, count, sum, row.state, row.revision))
  }

  ghost function Required(db: Database, key: Key): Result<Grant, GrantError> {
    if key !in db.grants then Err(UnknownGrant)
    else
      var outstanding := Outstanding(db.reservations, key);
      Decode(db.grants[key], |outstanding|, Total(outstanding))
  }

  /** The constraints of the grants table on the columns an update sets. */
  predicate RowFits(row: Row) {
    && 0 <= row.callsUsed <= row.terms.maxCalls
    && 0 <= row.responseBytesUsed <= row.terms.maxTotalResponseBytes
    && 0 <= row.revision
  }

  /** UPDATE ... WHERE revision = the one that was read. */
  function Update(db: Database, g: Grant, calls: int, bytes: int, state: GrantState): Result<Database, GrantError> {
    var key := GrantKey(g.terms);
    if key !in db.grants || db.grants[key].revision != g.revision then Err(RevisionMismatch)
    else
      var row := db.grants[key].(callsUsed := calls, responseBytesUsed := bytes, state := state,
                                 revision := g.revision + 1);
      if !RowFits(row) then Err(InvalidStored) else Ok(db.(grants := db.grants[key := row]))
  }

  /** The end of a transaction that updates a grant: read it back, or leave the database as it was. */
  ghost function Finish(db: Database, updated: Result<Database, GrantError>, key: Key):
    (Database, Result<Grant, GrantError>)
  {
    if updated.Err? then (db, Err(updated.error))
    else
      var read := Required(updated.value, key);
      if read.Err? then (db, read) else (updated.value, read)
  }

  ghost function SqlIssue(db: Database, record: Grant): (Database, Result<Grant, GrantError>) {
    var row := Row(record.terms, record.callsUsed, record.responseBytesUsed, record.state, record.revision);
    var checked := Decode(row, record.reservedCalls, record.reservedResponseBytes);
    if checked.Err? then (db, checked)
    else if record.reservedCalls != 0 || record.reservedResponseBytes != 0 then (db, Err(InvalidStored))
    else if GrantKey(record.terms) in db.grants then (db, Err(AlreadyExists))
    else (db.(grants := db.grants[GrantKey(record.terms) := row]), Ok(record))
  }

  ghost function SqlReserve(db: Database, key: Key, expected: int, now: int, uuid: string):
    (Database, Result<Reservation, GrantError>)
  {
    var read := Required(db, key);
    if read.Err? then (db, Err(read.error))
    else
      var g := read.value;
      if CheckRevision(g, expected).Some? then (db, Err(CheckRevision(g, expected).value))
      else if CheckActive(g.state, g.terms.expiresAt, now).Some? then
        (db, Err(CheckActive(g.state, g.terms.expiresAt, now).value))
      else if g.callsUsed + g.reservedCalls >= g.terms.maxCalls then (db, Err(CallQuotaExhausted))
      else
        var remaining := g.terms.maxTotalResponseBytes - g.responseBytesUsed - g.reservedResponseBytes;
        if !SafeInteger(remaining) || remaining <= 0 then (db, Err(ResponseQuotaExhausted))
        else
          var cap := Min(g.terms.maxResponseBytes, remaining);
          var r := Reservation(uuid, key.0, key.1, g.revision + 1, cap);
          if uuid in db.reservations || cap <= 0 || r.revision < 0 then (db, Err(InvalidStored))
          else
            (Database(db.grants[key := db.grants[key].(revision := g.revision + 1)], db.reservations[uuid := r]), Ok(r))
  }

  /** The stored reservation, if the handle is exactly it. */
  predicate Known(db: Database, r: Reservation) {
    && r.id in db.reservations && db.reservations[r.id] == r
    && NonNegative(r.revision) && Positive(r.maxResponseBytes)
  }

  function Without(db: Database, id: string): Database {
    db.(reservations := db.reservations - {id})
  }

  ghost function SqlCommit(db: Database, r: Reservation, bytes: int, now: int): (Database, Result<Grant, GrantError>) {
    if !NonNegative(bytes) then (db, Err(InvalidArgument))
    else if !Known(db, r) then (db, Err(UnknownReservation))
    else
      var read := Required(db, KeyOf(r));
      if read.Err? then (db, read)
      else
        var g := read.value;
        var calls, total := g.callsUsed + 1, g.responseBytesUsed + bytes;
        if CheckActive(g.state, g.terms.expiresAt, now).Some? then
          (db, Err(CheckActive(g.state, g.terms.expiresAt, now).value))
        else if bytes > r.maxResponseBytes then (db, Err(ExceedsReservation))
        else if !SafeInteger(calls) || calls > g.terms.maxCalls then (db, Err(CallQuotaExhausted))
        else if !SafeInteger(total) || total > g.terms.maxTotalResponseBytes then (db, Err(ResponseQuotaExhausted))
        else
          var exhausted := calls >= g.terms.maxCalls || total >= g.terms.maxTotalResponseBytes;
          var state := if exhausted then Exhausted else Active;
          Finish(db, Update(Without(db, r.id), g, calls, total, state), KeyOf(r))
  }

  ghost function SqlRelease(db: Database, r: Reservation): (Database, Result<Grant, GrantError>) {
    if !Known(db, r) then (db, Err(UnknownReservation))
    else
      var read := Required(db, KeyOf(r));
      if read.Err? then (db, read)
      else
        var g := read.value;
        Finish(db, Update(Without(db, r.id), g, g.callsUsed, g.responseBytesUsed, g.state), KeyOf(r))
  }

  ghost function SqlTransition(db: Database, key: Key, expected: int, now: int, state: GrantState):
    (Database, Result<Grant, GrantError>)
  {
    var read := Required(db, key);
    if read.Err? then (db, read)
    else
      var g := read.value;
      if CheckRevision(g, expected).Some? then (db, Err(CheckRevision(g, expected).value))
      else if CheckActive(g.state, g.terms.expiresAt, now).Some? then
        (db, Err(CheckActive(g.state, g.terms.expiresAt, now).value))
      else Finish(db, Update(db, g, g.callsUsed, g.responseBytesUsed, state), key)
  }

  ghost function SqlExpire(db: Database, key: Key, expected: int, now: int): (Database, Result<Grant, GrantError>) {
    var read := Required(db, key);
    if read.Err? then (db, read)
    else
      var g := read.value;
      if CheckRevision(g, expected).Some? then (db, Err(CheckRevision(g, expected).value))
      else if g.terms.expiresAt > now then (db, Err(NotExpired))
      else Finish(db, Update(db, g, g.callsUsed, g.responseBytesUsed, Expired), key)
  }

  /** Operations change the tables step by step; a transaction puts both back when its operation fails. */
  class SqliteRunGrantRepository {
    var grants: map<Key, Row>
    var reservations: map<string, Reservation>

    function State(): Database
      reads this
    {
      Database(grants, reservations)
    }

    constructor ()
      ensures State() == Database(map[], map[])
    {
      grants, reservations := map[], map[];
    }

    /** SELECT COUNT(*), COALESCE(SUM(max_response_bytes), 0) over the reservations of a grant. */
    method CountAndSum(key: Key) returns (count: int, sum: int)
      requires OwnIds(reservations)
      ensures count == |Outstanding(reservations, key)| && sum == Total(Outstanding(reservations, key))
    {
      count, sum := 0, 0;
      var rest := reservations.Keys;
      ghost var counted: set<Reservation> := {};
      while rest != {}
        invariant rest <= reservations.Keys
        invariant counted == Outstanding(reservations - rest, key)
        invariant count == |counted| && sum == Total(counted)
        decreases rest
      {
        var id :| id in rest;
        var r := reservations[id];
        ghost var seen := reservations - rest;
        rest := rest - {id};
        assert reservations - rest == seen[r.id := r];
        OutstandingAdded(seen, r, key);
        if KeyOf(r) == key {
          count, sum := count + 1, sum + r.maxResponseBytes;
          TotalWithout(counted + {r}, r);
          assert counted + {r} - {r} == counted;
          counted := counted + {r};
        }
      }
      assert reservations - rest == reservations;
    }

    method Read(key: Key) returns (read: Result<Grant, GrantError>)
      requires OwnIds(reservations)
      ensures read == Required(State(), key)
    {
      if key !in grants {
        return Err(UnknownGrant);
      }
      var count, sum := CountAndSum(key);
      read := Decode(grants[key], count, sum);
    }

    method Issue(record: Grant) returns (reply: Result<Grant, GrantError>)
      modifies this
      ensures (State(), reply) == SqlIssue(old(State()), record)
    {
      var row := Row(record.terms, record.callsUsed, record.responseBytesUsed, record.state, record.revision);
      var checked := Decode(row, record.reservedCalls, record.reservedResponseBytes);
      if checked.Err? {
        return checked;
      }
      if record.reservedCalls != 0 || record.reservedResponseBytes != 0 {
        return Err(InvalidStored);
      }
      if GrantKey(record.terms) in grants {
        return Err(AlreadyExists);
      }
      grants := grants[GrantKey(record.terms) := row];
      reply := Ok(record);
    }

    method ReserveCall(key: Key, expected: int, now: int, uuid: string) returns (reply: Result<Reservation, GrantError>)
      requires OwnIds(reservations)
      modifies this
      ensures (State(), reply) == SqlReserve(old(State()), key, expected, now, uuid)
      ensures OwnIds(reservations)
    {
      var read := Read(key);
      if read.Err? {
        return Err(read.error);
      }
      var g := read.value;
      var error := CheckRevision(g, expected);
      if error.Some? {
        return Err(error.value);
      }
      error := CheckActive(g.state, g.terms.expiresAt, now);
      if error.Some? {
        return Err(error.value);
      }
      if g.callsUsed + g.reservedCalls >= g.terms.maxCalls {
        return Err(CallQuotaExhausted);
      }
      var remaining := g.terms.maxTotalResponseBytes - g.responseBytesUsed - g.reservedResponseBytes;
      if !SafeInteger(remaining) || remaining <= 0 {
        return Err(ResponseQuotaExhausted);
      }
      var cap := Min(g.terms.maxResponseBytes, remaining);
      var r := Reservation(uuid, key.0, key.1, g.revision + 1, cap);
      var before := grants;
      grants := grants[key := grants[key].(revision := g.revision + 1)];
      if uuid in reservations || cap <= 0 || r.revision < 0 {
        grants := before;
        return Err(InvalidStored);
      }
      reservations := reservations[uuid := r];
      reply := Ok(r);
    }

    /** The update and the read-back of a transaction that started from the given tables. */
    method UpdateAndRead(before: Database, g: Grant, calls: int, bytes: int, state: GrantState, key: Key)
      returns (reply: Result<Grant, GrantError>)
      requires OwnIds(reservations)
      modifies this
      ensures (State(), reply) == Finish(before, Update(old(State()), g, calls, bytes, state), key)
    {
      var updated := Update(Database(grants, reservations), g, calls, bytes, state);
      if updated.Err? {
        grants, reservations := before.grants, before.reservations;
        return Err(updated.error);
      }
      grants := updated.value.grants;
      reply := Read(key);
      if reply.Err? {
        grants, reservations := before.grants, before.reservations;
      }
    }

    method CommitCall(r: Reservation, bytes: int, now: int) returns (reply: Result<Grant, GrantError>)
      requires OwnIds(reservations)
      modifies this
      ensures (State(), reply) == SqlCommit(old(State()), r, bytes, now)
    {
      if !NonNegative(bytes) {
        return Err(InvalidArgument);
      }
      var before := Database(grants, reservations);
      if !Known(before, r) {
        return Err(UnknownReservation);
      }
      var read := Read(KeyOf(r));
      if read.Err? {
        return read;
      }
      var g := read.value;
      var error := CheckActive(g.state, g.terms.expiresAt, now);
      if error.Some? {
        return Err(error.value);
      }
      if bytes > r.maxResponseBytes {
        return Err(ExceedsReservation);
      }
      var calls, total := g.callsUsed + 1, g.responseBytesUsed + bytes;
      if !SafeInteger(calls) || calls > g.terms.maxCalls {
        return Err(CallQuotaExhausted);
      }
      if !SafeInteger(total) || total > g.terms.maxTotalResponseBytes {
        return Err(ResponseQuotaExhausted);
      }
      var state := if calls >= g.terms.maxCalls || total >= g.terms.maxTotalResponseBytes then Exhausted else Active;
      reservations := reservations - {r.id};
      reply := UpdateAndRead(before, g, calls, total, state, KeyOf(r));
    }

    method ReleaseCall(r: Reservation) returns (reply: Result<Grant, GrantError>)
      requires OwnIds(reservations)
      modifies this
      ensures (State(), reply) == SqlRelease(old(State()), r)
    {
      var before := Database(grants, reservations);
      if !Known(before, r) {
        return Err(UnknownReservation);
      }
      var read := Read(KeyOf(r));
      if read.Err? {
        return read;
      }
      var g := read.value;
      reservations := reservations - {r.id};
      reply := UpdateAndRead(before, g, g.callsUsed, g.responseBytesUsed, g.state, KeyOf(r));
    }

    /** Revocation and consumption. */
    method Transition(key: Key, expected: int, now: int, state: GrantState) returns (reply: Result<Grant, GrantError>)
      requires OwnIds(reservations)
      modifies this
      ensures (State(), reply) == SqlTransition(old(State()), key, expected, now, state)
    {
      var read := Read(key);
      if read.Err? {
        return read;
      }
      var g := read.value;
      var error := CheckRevision(g, expected);
      if error.Some? {
        return Err(error.value);
      }
      error := CheckActive(g.state, g.terms.expiresAt, now);
      if error.Some? {
        return Err(error.value);
      }
      reply := UpdateAndRead(Database(grants, reservations), g, g.callsUsed, g.responseBytesUsed, state, key);
    }

    method Expire(key: Key, expected: int, now: int) returns (reply: Result<Grant, GrantError>)
      requires OwnIds(reservations)
      modifies this
      ensures (State(), reply) == SqlExpire(old(State()), key, expected, now)
    {
      var read := Read(key);
      if read.Err? {
        return read;
      }
      var g := read.value;
      var error := CheckRevision(g, expected);
      if error.Some? {
        return Err(error.value);
      }
      if g.terms.expiresAt > now {
        return Err(NotExpired);
      }
      reply := UpdateAndRead(Database(grants, reservations), g, g.callsUsed, g.responseBytesUsed, Expired, key);
    }
  }

  ghost function SqlStep(db: Database, event: LedgerEvent): (Database, Reply) {
    match event
    case Issue(request, now) =>
      var record := StoreRecord(request, now);
      if record.Err? then (db, Refused) else var (d, r) := SqlIssue(db, record.value); (d, GrantReply(r))
    case Reserve(key, expected, now, uuid) =>
      var (d, r) := SqlReserve(db, key, expected, now, uuid); (d, ReservationReply(r))
    case Commit(handle, bytes, now) => var (d, r) := SqlCommit(db, handle, bytes, now); (d, GrantReply(r))
    case Release(handle) => var (d, r) := SqlRelease(db, handle); (d, GrantReply(r))
    case Revoke(key, expected, now) =>
      var (d, r) := SqlTransition(db, key, expected, now, Revoked); (d, GrantReply(r))
    case Consume(key, expected, now) =>
      var (d, r) := SqlTransition(db, key, expected, now, Consumed); (d, GrantReply(r))
    case Expire(key, expected, now) => var (d, r) := SqlExpire(db, key, expected, now); (d, GrantReply(r))
  }

  // Refinement.

  function RowOf(g: Grant): Row {
    Row(g.terms, g.callsUsed, g.responseBytesUsed, g.state, g.revision)
  }

  /** The database holds the ledger, except for the cached counters. */
  ghost predicate Holds(db: Database, l: Ledger) {
    && db.reservations == l.reservations
    && db.grants.Keys == l.records.Keys
    && forall key :: key in l.records ==> db.grants[key] == RowOf(l.records[key])
  }

  ghost predicate RevisionsBelow(l: Ledger, bound: int) {
    && (forall key :: key in l.records ==> l.records[key].revision <= bound)
    && (forall id :: id in l.reservations ==> 0 <= l.reservations[id].revision <= bound)
  }

  ghost predicate CapsSafe(l: Ledger) {
    forall id :: id in l.reservations ==> l.reservations[id].maxResponseBytes <= MAX_SAFE_INTEGER
  }

  /** The handle of a release is one that the repository gave out, unmodified. */
  predicate Genuine(l: Ledger, event: LedgerEvent) {
    event.Release? && event.handle.id in l.reservations ==> l.reservations[event.handle.id] == event.handle
  }

  lemma BalancedDecodes(g: Grant, outstanding: set<Reservation>)
    requires Balanced(g, outstanding) && g.revision <= MAX_SAFE_INTEGER
    requires Total(outstanding) >= |outstanding|
    ensures Decode(RowOf(g), |outstanding|, Total(outstanding)) == Ok(g)
  {
    hide Total;
  }

  /** Decoding with the derived counters gives back the record with the cached ones: it never rejects. */
  lemma DecodesToTheRecord(db: Database, l: Ledger, key: Key)
    requires Sound(l) && Holds(db, l) && RevisionsBelow(l, MAX_SAFE_INTEGER)
    ensures Required(db, key) == if key in l.records then Ok(l.records[key]) else Err(UnknownGrant)
  {
    hide Total, Balanced, Decode;
    if key in l.records {
      var outstanding := Outstanding(l.reservations, key);
      assert Balanced(l.records[key], outstanding);
      TotalBounds(outstanding);
      BalancedDecodes(l.records[key], outstanding);
    }
  }

  lemma FinishHolds(db: Database, updated: Database, l: Ledger, key: Key)
    requires Sound(l) && Holds(updated, l) && RevisionsBelow(l, MAX_SAFE_INTEGER) && key in l.records
    ensures Finish(db, Ok(updated), key) == (updated, Ok(l.records[key]))
  {
    DecodesToTheRecord(updated, l, key);
  }

  lemma CommitRefines(db: Database, l: Ledger, r: Reservation, bytes: int, now: int)
    requires Sound(l) && Holds(db, l) && RevisionsBelow(l, MAX_SAFE_INTEGER - 1) && CapsSafe(l)
    ensures Holds(SqlCommit(db, r, bytes, now).0, AfterCommit(l, r, bytes, now).0)
    ensures GrantReply(SqlCommit(db, r, bytes, now).1) == GrantReply(AfterCommit(l, r, bytes, now).1)
  {
    hide Sound, Outstanding, Total;
    var (m, reply) := AfterCommit(l, r, bytes, now);
    DecodesToTheRecord(db, l, KeyOf(r));
    if r.id in l.reservations {
      OwnIdOf(l, r.id);
      if l.reservations[r.id] == r {
        KnownHandle(db, l, r);
        ReservationIsAGuarantee(l, r, bytes, now);
        KeyOfRecord(l, KeyOf(r));
      }
    }
    if reply.Ok? {
      SoundCommit(l, r, bytes, now);
      var g, next := l.records[KeyOf(r)], reply.value;
      var updated := Database(db.grants[KeyOf(r) := RowOf(next)], db.reservations - {r.id});
      KeyOfRecord(m, KeyOf(r));
      assert Update(Without(db, r.id), g, next.callsUsed, next.responseBytesUsed, next.state) == Ok(updated);
      FinishHolds(db, updated, m, KeyOf(r));
    }
  }

  lemma KeyOfRecord(l: Ledger, key: Key)
    requires Sound(l) && key in l.records
    ensures GrantKey(l.records[key].terms) == key
    ensures 0 <= l.records[key].callsUsed <= l.records[key].terms.maxCalls
    ensures 0 <= l.records[key].responseBytesUsed <= l.records[key].terms.maxTotalResponseBytes
    ensures 0 <= l.records[key].revision
    ensures l.records[key].terms.maxTotalResponseBytes <= MAX_SAFE_INTEGER
    ensures l.records[key].terms.maxResponseBytes <= MAX_SAFE_INTEGER
    ensures l.records[key].terms.maxResponseBytes >= 1
    ensures l.records[key].reservedResponseBytes >= 0
  {
    TotalBounds(Outstanding(l.reservations, key));
  }

  lemma ReleaseRefines(db: Database, l: Ledger, r: Reservation)
    requires Sound(l) && Holds(db, l) && RevisionsBelow(l, MAX_SAFE_INTEGER - 1) && CapsSafe(l)
    requires Genuine(l, Release(r))
    ensures Holds(SqlRelease(db, r).0, AfterRelease(l, r).0)
    ensures GrantReply(SqlRelease(db, r).1) == GrantReply(AfterRelease(l, r).1)
  {
    hide Sound, Outstanding, Total;
    var (m, reply) := AfterRelease(l, r);
    DecodesToTheRecord(db, l, KeyOf(r));
    if r.id in l.reservations {
      assert Known(db, r) by { KnownHandle(db, l, r); }
      ReleaseAlwaysSucceeds(l, r);
      KeyOfRecord(l, KeyOf(r));
      SoundRelease(l, r);
      var updated := Database(db.grants[KeyOf(r) := RowOf(reply.value)], db.reservations - {r.id});
      FinishHolds(db, updated, m, KeyOf(r));
    }
  }

  lemma KnownHandle(db: Database, l: Ledger, r: Reservation)
    requires Sound(l) && Holds(db, l) && RevisionsBelow(l, MAX_SAFE_INTEGER) && CapsSafe(l)
    requires r.id in l.reservations && l.reservations[r.id] == r
    ensures Known(db, r)
  {
  }

  lemma TransitionRefines(db: Database, l: Ledger, key: Key, expected: int, now: int, state: GrantState)
    requires Sound(l) && Holds(db, l) && RevisionsBelow(l, MAX_SAFE_INTEGER - 1)
    requires state != Active && state != Exhausted
    ensures Holds(SqlTransition(db, key, expected, now, state).0, AfterTransition(l, key, expected, now, state).0)
    ensures SqlTransition(db, key, expected, now, state).1 == AfterTransition(l, key, expected, now, state).1
  {
    hide Sound, Outstanding, Total;
    var (m, reply) := AfterTransition(l, key, expected, now, state);
    DecodesToTheRecord(db, l, key);
    if reply.Ok? {
      KeyOfRecord(l, key);
      SoundTransition(l, key, expected, now, state);
      FinishHolds(db, db.(grants := db.grants[key := RowOf(reply.value)]), m, key);
    }
  }

  lemma ExpireRefines(db: Database, l: Ledger, key: Key, expected: int, now: int)
    requires Sound(l) && Holds(db, l) && RevisionsBelow(l, MAX_SAFE_INTEGER - 1)
    ensures Holds(SqlExpire(db, key, expected, now).0, AfterExpire(l, key, expected, now).0)
    ensures SqlExpire(db, key, expected, now).1 == AfterExpire(l, key, expected, now).1
  {
    hide Sound, Outstanding, Total;
    var (m, reply) := AfterExpire(l, key, expected, now);
    DecodesToTheRecord(db, l, key);
    if reply.Ok? {
      KeyOfRecord(l, key);
      SoundExpire(l, key, expected, now);
      FinishHolds(db, db.(grants := db.grants[key := RowOf(reply.value)]), m, key);
    }
  }

  lemma ReserveRefines(db: Database, l: Ledger, key: Key, expected: int, now: int, uuid: string)
    requires Sound(l) && Holds(db, l) && RevisionsBelow(l, MAX_SAFE_INTEGER - 1) && uuid !in l.reservations
    ensures Holds(SqlReserve(db, key, expected, now, uuid).0, AfterReserve(l, key, expected, now, uuid).0)
    ensures SqlReserve(db, key, expected, now, uuid).1 == AfterReserve(l, key, expected, now, uuid).1
  {
    hide Sound, Outstanding, Total;
    DecodesToTheRecord(db, l, key);
    if key in l.records {
      KeyOfRecord(l, key);
    }
  }

  lemma IssueRefines(db: Database, l: Ledger, request: IssueRequest, now: int)
    requires Sound(l) && Holds(db, l)
    ensures Holds(SqlStep(db, Issue(request, now)).0, Step(l, Issue(request, now)).0)
    ensures SqlStep(db, Issue(request, now)).1 == Step(l, Issue(request, now)).1
  {
  }

  lemma StepRefines(db: Database, l: Ledger, event: LedgerEvent)
    requires Sound(l) && Holds(db, l) && RevisionsBelow(l, MAX_SAFE_INTEGER - 1) && CapsSafe(l)
    requires FreshId(l, event) && Genuine(l, event)
    ensures Holds(SqlStep(db, event).0, Step(l, event).0)
    ensures SqlStep(db, event).1 == Step(l, event).1
  {
    hide Sound, Holds, AfterReserve, AfterCommit, AfterRelease, AfterTransition, AfterExpire,
         SqlReserve, SqlCommit, SqlRelease, SqlTransition, SqlExpire;
    match event {
      case Issue(request, now) => IssueRefines(db, l, request, now);
      case Reserve(key, expected, now, uuid) => ReserveRefines(db, l, key, expected, now, uuid);
      case Commit(handle, bytes, now) => CommitRefines(db, l, handle, bytes, now);
      case Release(handle) => ReleaseRefines(db, l, handle);
      case Revoke(key, expected, now) => TransitionRefines(db, l, key, expected, now, Revoked);
      case Consume(key, expected, now) => TransitionRefines(db, l, key, expected, now, Consumed);
      case Expire(key, expected, now) => ExpireRefines(db, l, key, expected, now);
    }
  }

  lemma ReservationsComeFromReserve(l: Ledger, event: LedgerEvent)
    ensures var m := Step(l, event).0;
            forall id :: id in m.reservations ==>
              || (id in l.reservations && m.reservations[id] == l.reservations[id])
              || (event.Reserve? && event.key in l.records
                  && m.reservations[id].revision == l.records[event.key].revision + 1
                  && m.reservations[id].maxResponseBytes <= l.records[event.key].terms.maxResponseBytes)
  {
  }

  /** Revisions and caps stay in range: a step raises a revision by at most one. */
  lemma StepStaysInRange(l: Ledger, event: LedgerEvent, bound: int)
    requires Sound(l) && RevisionsBelow(l, bound) && CapsSafe(l) && bound >= 0
    ensures RevisionsBelow(Step(l, event).0, bound + 1) && CapsSafe(Step(l, event).0)
  {
    StepAdvances(l, event);
    NewRecordsStartAtZero(l, event);
    ReservationsComeFromReserve(l, event);
    if event.Reserve? && event.key in l.records {
      KeyOfRecord(l, event.key);
    }
    hide Step, Sound;
  }

  ghost function SqlRun(events: seq<LedgerEvent>): Database {
    if events == [] then Database(map[], map[]) else SqlStep(SqlRun(events[..|events| - 1]), events[|events| - 1]).0
  }

  ghost predicate GenuineRun(events: seq<LedgerEvent>) {
    forall n :: 0 <= n < |events| ==> Genuine(Run(events[..n]), events[n])
  }

  lemma {:induction false} SqliteRunHolds(events: seq<LedgerEvent>)
    requires FreshRun(events) && GenuineRun(events) && |events| <= MAX_SAFE_INTEGER
    ensures Sound(Run(events)) && Holds(SqlRun(events), Run(events))
    ensures RevisionsBelow(Run(events), |events|) && CapsSafe(Run(events))
  {
    hide Step, SqlStep, Sound, FreshId, Genuine, Holds, RevisionsBelow, CapsSafe;
    if events == [] {
      InitiallyHolds();
    } else {
      var before, last := events[..|events| - 1], events[|events| - 1];
      RunPrefix(events);
      SqliteRunHolds(before);
      RaiseBound(Run(before), |before|);
      StepRefines(SqlRun(before), Run(before), last);
      SoundStep(Run(before), last);
      StepStaysInRange(Run(before), last, |before|);
    }
  }

  lemma RunPrefix(events: seq<LedgerEvent>)
    requires FreshRun(events) && GenuineRun(events) && events != []
    ensures var before := events[..|events| - 1];
            FreshRun(before) && GenuineRun(before)
            && FreshId(Run(before), events[|events| - 1]) && Genuine(Run(before), events[|events| - 1])
  {
    hide Step, FreshId, Genuine;
    var before := events[..|events| - 1];
    forall n | 0 <= n < |before| ensures FreshId(Run(before[..n]), before[n]) && Genuine(Run(before[..n]), before[n]) {
      assert before[..n] == events[..n];
    }
  }

  lemma RaiseBound(l: Ledger, bound: int)
    requires RevisionsBelow(l, bound) && bound <= MAX_SAFE_INTEGER - 1
    ensures RevisionsBelow(l, MAX_SAFE_INTEGER - 1)
  {
  }

  lemma InitiallyHolds()
    ensures Sound(Ledger(map[], map[])) && Holds(Database(map[], map[]), Ledger(map[], map[]))
    ensures RevisionsBelow(Ledger(map[], map[]), 0) && CapsSafe(Ledger(map[], map[]))
  {
  }

  /**
   On every run with unmodified handles the two repositories give the same reply at each step and show the same
   records at the end; reading never rejects a stored grant. A run is shorter than the largest safe revision.
   */
  lemma SqliteRefinesInMemory(events: seq<LedgerEvent>)
    requires FreshRun(events) && GenuineRun(events) && |events| < MAX_SAFE_INTEGER
    ensures forall n :: 0 <= n < |events| ==>
              SqlStep(SqlRun(events[..n]), events[n]).1 == Step(Run(events[..n]), events[n]).1
    ensures forall key :: Required(SqlRun(events), key)
              == if key in Run(events).records then Ok(Run(events).records[key]) else Err(UnknownGrant)
  {
    hide Step, SqlStep, Sound, Holds, Required;
    forall n | 0 <= n < |events|
      ensures SqlStep(SqlRun(events[..n]), events[n]).1 == Step(Run(events[..n]), events[n]).1
    {
      var before := events[..n];
      forall k | 0 <= k < n ensures before[..k] == events[..k] && before[k] == events[k] {
      }
      SqliteRunHolds(before);
      RaiseBound(Run(before), |before|);
      StepRefines(SqlRun(before), Run(before), events[n]);
    }
    SqliteRunHolds(events);
    forall key ensures Required(SqlRun(events), key)
                    == if key in Run(events).records then Ok(Run(events).records[key]) else Err(UnknownGrant) {
      DecodesToTheRecord(SqlRun(events), Run(events), key);
    }
  }

  /**
   The restriction to unmodified handles is exact: on a release the two agree if and only if a handle that names a
   stored reservation of the right grant is that reservation.
   */
  lemma ReleasesAgreeExactly(db: Database, l: Ledger, r: Reservation)
    requires Sound(l) && Holds(db, l) && RevisionsBelow(l, MAX_SAFE_INTEGER - 1) && CapsSafe(l)
    ensures GrantReply(SqlRelease(db, r).1) == GrantReply(AfterRelease(l, r).1) <==>
            (r.id in l.reservations && KeyOf(l.reservations[r.id]) == KeyOf(r) ==> l.reservations[r.id] == r)
  {
    hide Sound;
    if r.id in l.reservations && KeyOf(l.reservations[r.id]) == KeyOf(r) && l.reservations[r.id] != r {
      OwnIdOf(l, r.id);
      ReleaseAlwaysSucceeds(l, l.reservations[r.id]);
    } else if Genuine(l, Release(r)) {
      ReleaseRefines(db, l, r);
    }
  }

  lemma OwnIdOf(l: Ledger, id: string)
    requires Sound(l) && id in l.reservations
    ensures l.reservations[id].id == id
  {
  }
}
