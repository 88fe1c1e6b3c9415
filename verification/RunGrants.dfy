/**
 Run grants with call and byte quotas: the in-memory repository, which caches
 in each record how much is reserved, and what its operations keep.
 */
module RunGrants {
  import opened Base

  datatype GrantState = Active | Revoked | Expired | Consumed | Exhausted

  /** What is fixed when a grant is issued. Times are milliseconds. */
  datatype Terms = Terms(
    issuerId: string,
    id: string,
    token: string,
    providerId: string,
    inventoryDigest: nat,
    toolIds: set<string>,
    issuedAt: int,
    expiresAt: int,
    maxCalls: int,
    maxResponseBytes: int,
    maxTotalResponseBytes: int)

  datatype Grant = Grant(
    terms: Terms,
    callsUsed: int,
    responseBytesUsed: int,
    reservedCalls: int,
    reservedResponseBytes: int,
    state: GrantState,
    revision: int)

  datatype Reservation =
    Reservation(id: string, issuerId: string, grantId: string, revision: int, maxResponseBytes: int)

  type Key = (string, string)

  datatype GrantError =
    | AlreadyExists | UnknownGrant | RevisionMismatch | NotActive | HasExpired | CallQuotaExhausted
    | ResponseQuotaExhausted | InvalidArgument | UnknownReservation | ExceedsReservation | ReservationMismatch
    | CounterOverflow | NotExpired | InvalidStored | OutsideWindow

  datatype Ledger = Ledger(records: map<Key, Grant>, reservations: map<string, Reservation>)

  function KeyOf(r: Reservation): Key {
    (r.issuerId, r.grantId)
  }

  function GrantKey(terms: Terms): Key {
    (terms.issuerId, terms.id)
  }

  function Min(a: int, b: int): int {
    if a <= b then a else b
  }

  /** The check that a grant can still be used at a time. */
  function CheckActive(state: GrantState, expiresAt: int, now: int): Option<GrantError> {
    if state != Active then Some(NotActive)
    else if expiresAt <= now then Some(HasExpired)
    else None
  }

  function CheckRevision(g: Grant, expected: int): Option<GrantError> {
    if !SafeInteger(expected) || g.revision != expected then Some(RevisionMismatch) else None
  }

  // Issue requests.

  datatype IssueRequest = IssueRequest(terms: Terms, inventoryAccepted: bool)

  ghost predicate ValidTerms(terms: Terms) {
    && 0 < terms.maxCalls <= MAX_SAFE_INTEGER
    && 0 < terms.maxResponseBytes <= terms.maxTotalResponseBytes <= MAX_SAFE_INTEGER
    && terms.issuedAt < terms.expiresAt
  }

  /** The record the store makes of a request, if its checks pass. */
  function StoreRecord(request: IssueRequest, now: int): (record: Result<Grant, GrantError>)
    ensures record.Ok? <==>
              && ValidTerms(request.terms) && request.inventoryAccepted
              && request.terms.issuedAt <= now < request.terms.expiresAt
    ensures record.Ok? ==>
              var g := record.value;
              && g.terms == request.terms && g.state.Active? && g.revision == 0
              && g.callsUsed == g.responseBytesUsed == g.reservedCalls == g.reservedResponseBytes == 0
    ensures record == Err(OutsideWindow) ==> !(request.terms.issuedAt <= now < request.terms.expiresAt)
  {
    var t := request.terms;
    if !(SafeInteger(t.maxCalls) && SafeInteger(t.maxResponseBytes) && SafeInteger(t.maxTotalResponseBytes)) then
      Err(InvalidArgument)
    else if t.maxCalls <= 0 || t.maxResponseBytes <= 0 || t.maxTotalResponseBytes <= 0 then Err(InvalidArgument)
    else if t.maxResponseBytes > t.maxTotalResponseBytes then Err(InvalidArgument)
    else if t.issuedAt > now || t.expiresAt <= now then Err(OutsideWindow)
    else if !request.inventoryAccepted then Err(InvalidArgument)
    else Ok(Grant(t, 0, 0, 0, 0, Active, 0))
  }

  // The in-memory repository on values.

  function AfterIssue(l: Ledger, record: Grant): (Ledger, Result<Grant, GrantError>) {
    var key := GrantKey(record.terms);
    if key in l.records then (l, Err(AlreadyExists)) else (l.(records := l.records[key := record]), Ok(record))
  }

  function AfterReserve(l: Ledger, key: Key, expected: int, now: int, uuid: string):
    (Ledger, Result<Reservation, GrantError>)
  {
    if key !in l.records then (l, Err(UnknownGrant))
    else
      var g := l.records[key];
      if CheckRevision(g, expected).Some? then (l, Err(CheckRevision(g, expected).value))
      else if CheckActive(g.state, g.terms.expiresAt, now).Some? then
        (l, Err(CheckActive(g.state, g.terms.expiresAt, now).value))
      else if g.callsUsed + g.reservedCalls >= g.terms.maxCalls then (l, Err(CallQuotaExhausted))
      else
        var remaining := g.terms.maxTotalResponseBytes - g.responseBytesUsed - g.reservedResponseBytes;
        if !SafeInteger(remaining) || remaining <= 0 then (l, Err(ResponseQuotaExhausted))
        else
          var cap := Min(g.terms.maxResponseBytes, remaining);
          var r := Reservation(uuid, key.0, key.1, g.revision + 1, cap);
          (Ledger(l.records[key := g.(reservedCalls := g.reservedCalls + 1,
                                      reservedResponseBytes := g.reservedResponseBytes + cap,
                                      revision := g.revision + 1)],
                  l.reservations[uuid := r]),
           Ok(r))
  }

  /** The fields of the handle, all of them, are compared with the stored ones. */
  function AfterCommit(l: Ledger, r: Reservation, bytes: int, now: int): (Ledger, Result<Grant, GrantError>) {
    if !SafeInteger(bytes) || bytes < 0 then (l, Err(InvalidArgument))
    else if r.id !in l.reservations || l.reservations[r.id].(id := r.id) != r then (l, Err(UnknownReservation))
    else if bytes > r.maxResponseBytes then (l, Err(ExceedsReservation))
    else
      var key := KeyOf(r);
      if key !in l.records || l.records[key].reservedCalls < 1
         || l.records[key].reservedResponseBytes < r.maxResponseBytes then (l, Err(ReservationMismatch))
      else
        var g := l.records[key];
        if CheckActive(g.state, g.terms.expiresAt, now).Some? then
          (l, Err(CheckActive(g.state, g.terms.expiresAt, now).value))
        else
          var total := g.responseBytesUsed + bytes;
          var calls := g.callsUsed + 1;
          if !SafeInteger(total) || total > g.terms.maxTotalResponseBytes then (l, Err(ResponseQuotaExhausted))
          else if !SafeInteger(calls) then (l, Err(CounterOverflow))
          else
            var exhausted := calls >= g.terms.maxCalls || total >= g.terms.maxTotalResponseBytes;
            var state := if exhausted then Exhausted else Active;
            var next := Grant(g.terms, calls, total, g.reservedCalls - 1,
                              g.reservedResponseBytes - r.maxResponseBytes, state, g.revision + 1);
            (Ledger(l.records[key := next], l.reservations - {r.id}), Ok(next))
  }

  /** The in-memory release looks only at the grant and the issuer of the handle. */
  function AfterRelease(l: Ledger, r: Reservation): (Ledger, Result<Grant, GrantError>) {
    if r.id !in l.reservations || KeyOf(l.reservations[r.id]) != KeyOf(r) then (l, Err(UnknownReservation))
    else
      var cap := l.reservations[r.id].maxResponseBytes;
      var key := KeyOf(r);
      if key !in l.records || l.records[key].reservedCalls < 1 || l.records[key].reservedResponseBytes < cap then
        (l, Err(ReservationMismatch))
      else
        var g := l.records[key];
        var next := g.(reservedCalls := g.reservedCalls - 1,
                       reservedResponseBytes := g.reservedResponseBytes - cap,
                       revision := g.revision + 1);
        (Ledger(l.records[key := next], l.reservations - {r.id}), Ok(next))
  }

  function AfterTransition(l: Ledger, key: Key, expected: int, now: int, state: GrantState):
    (Ledger, Result<Grant, GrantError>)
  {
    if key !in l.records then (l, Err(UnknownGrant))
    else
      var g := l.records[key];
      if CheckRevision(g, expected).Some? then (l, Err(CheckRevision(g, expected).value))
      else if CheckActive(g.state, g.terms.expiresAt, now).Some? then
        (l, Err(CheckActive(g.state, g.terms.expiresAt, now).value))
      else
        var next := g.(state := state, revision := g.revision + 1);
        (l.(records := l.records[key := next]), Ok(next))
  }

  /** Expiry overwrites whatever state the grant is in. */
  function AfterExpire(l: Ledger, key: Key, expected: int, now: int): (Ledger, Result<Grant, GrantError>) {
    if key !in l.records then (l, Err(UnknownGrant))
    else
      var g := l.records[key];
      if CheckRevision(g, expected).Some? then (l, Err(CheckRevision(g, expected).value))
      else if g.terms.expiresAt > now then (l, Err(NotExpired))
      else
        var next := g.(state := Expired, revision := g.revision + 1);
        (l.(records := l.records[key := next]), Ok(next))
  }

  class InMemoryRunGrantRepository {
    var records: map<Key, Grant>
    var reservations: map<string, Reservation>

    function State(): Ledger
      reads this
    {
      Ledger(records, reservations)
    }

    constructor ()
      ensures State() == Ledger(map[], map[])
    {
      records, reservations := map[], map[];
    }

    method Issue(record: Grant) returns (reply: Result<Grant, GrantError>)
      modifies this
      ensures (State(), reply) == AfterIssue(old(State()), record)
    {
      var key := GrantKey(record.terms);
      if key in records {
        return Err(AlreadyExists);
      }
      records := records[key := record];
      reply := Ok(record);
    }

    method ReserveCall(key: Key, expected: int, now: int, uuid: string) returns (reply: Result<Reservation, GrantError>)
      modifies this
      ensures (State(), reply) == AfterReserve(old(State()), key, expected, now, uuid)
    {
      if key !in records {
        return Err(UnknownGrant);
      }
      var g := records[key];
      var error := CheckRevision(g, expected);
      if error.Some? {
        return Err(error.value);
      }
      error := CheckActive(g.state, g.terms.expiresAt, now);
      if error.Some? {
        return Err(error.value);
      }
      if g.callsUsed + g.reservedCalls >= g.terms.maxCalls {
        return Err(CallQuotaExhausted);
      }
      var remaining := g.terms.maxTotalResponseBytes - g.responseBytesUsed - g.reservedResponseBytes;
      if !SafeInteger(remaining) || remaining <= 0 {
        return Err(ResponseQuotaExhausted);
      }
      var cap := Min(g.terms.maxResponseBytes, remaining);
      var r := Reservation(uuid, key.0, key.1, g.revision + 1, cap);
      records := records[key := g.(reservedCalls := g.reservedCalls + 1,
                                   reservedResponseBytes := g.reservedResponseBytes + cap,
                                   revision := g.revision + 1)];
      reservations := reservations[uuid := r];
      reply := Ok(r);
    }

    method CommitCall(r: Reservation, bytes: int, now: int) returns (reply: Result<Grant, GrantError>)
      modifies this
      ensures (State(), reply) == AfterCommit(old(State()), r, bytes, now)
    {
      if !SafeInteger(bytes) || bytes < 0 {
        return Err(InvalidArgument);
      }
      if r.id !in reservations || reservations[r.id].(id := r.id) != r {
        return Err(UnknownReservation);
      }
      if bytes > r.maxResponseBytes {
        return Err(ExceedsReservation);
      }
      var key := KeyOf(r);
      if key !in records || records[key].reservedCalls < 1 || records[key].reservedResponseBytes < r.maxResponseBytes {
        return Err(ReservationMismatch);
      }
      var g := records[key];
      var error := CheckActive(g.state, g.terms.expiresAt, now);
      if error.Some? {
        return Err(error.value);
      }
      var total := g.responseBytesUsed + bytes;
      if !SafeInteger(total) || total > g.terms.maxTotalResponseBytes {
        return Err(ResponseQuotaExhausted);
      }
      var calls := g.callsUsed + 1;
      if !SafeInteger(calls) {
        return Err(CounterOverflow);
      }
      var state := if calls >= g.terms.maxCalls || total >= g.terms.maxTotalResponseBytes then Exhausted else Active;
      var next := Grant(g.terms, calls, total, g.reservedCalls - 1,
                        g.reservedResponseBytes - r.maxResponseBytes, state, g.revision + 1);
      records := records[key := next];
      reservations := reservations - {r.id};
      reply := Ok(next);
    }

    method ReleaseCall(r: Reservation) returns (reply: Result<Grant, GrantError>)
      modifies this
      ensures (State(), reply) == AfterRelease(old(State()), r)
    {
      if r.id !in reservations || KeyOf(reservations[r.id]) != KeyOf(r) {
        return Err(UnknownReservation);
      }
      var cap := reservations[r.id].maxResponseBytes;
      var key := KeyOf(r);
      if key !in records || records[key].reservedCalls < 1 || records[key].reservedResponseBytes < cap {
        return Err(ReservationMismatch);
      }
      var g := records[key];
      var next := g.(reservedCalls := g.reservedCalls - 1,
                     reservedResponseBytes := g.reservedResponseBytes - cap,
                     revision := g.revision + 1);
      records := records[key := next];
      reservations := reservations - {r.id};
      reply := Ok(next);
    }

    /** Revocation and consumption. */
    method Transition(key: Key, expected: int, now: int, state: GrantState) returns (reply: Result<Grant, GrantError>)
      modifies this
      ensures (State(), reply) == AfterTransition(old(State()), key, expected, now, state)
    {
      if key !in records {
        return Err(UnknownGrant);
      }
      var g := records[key];
      var error := CheckRevision(g, expected);
      if error.Some? {
        return Err(error.value);
      }
      error := CheckActive(g.state, g.terms.expiresAt, now);
      if error.Some? {
        return Err(error.value);
      }
      var next := g.(state := state, revision := g.revision + 1);
      records := records[key := next];
      reply := Ok(next);
    }

    method Expire(key: Key, expected: int, now: int) returns (reply: Result<Grant, GrantError>)
      modifies this
      ensures (State(), reply) == AfterExpire(old(State()), key, expected, now)
    {
      if key !in records {
        return Err(UnknownGrant);
      }
      var g := records[key];
      var error := CheckRevision(g, expected);
      if error.Some? {
        return Err(error.value);
      }
      if g.terms.expiresAt > now {
        return Err(NotExpired);
      }
      var next := g.(state := Expired, revision := g.revision + 1);
      records := records[key := next];
      reply := Ok(next);
    }
  }

  // One step of a run of the ledger.

  datatype LedgerEvent =
    | Issue(request: IssueRequest, now: int)
    | Reserve(key: Key, expected: int, now: int, uuid: string)
    | Commit(handle: Reservation, bytes: int, now: int)
    | Release(handle: Reservation)
    | Revoke(key: Key, expected: int, now: int)
    | Consume(key: Key, expected: int, now: int)
    | Expire(key: Key, expected: int, now: int)

  datatype Reply = Refused | Granted(grant: Grant) | Reserved(reservation: Reservation)

  function GrantReply(r: Result<Grant, GrantError>): Reply {
    if r.Ok? then Granted(r.value) else Refused
  }

  function ReservationReply(r: Result<Reservation, GrantError>): Reply {
    if r.Ok? then Reserved(r.value) else Refused
  }

  function Step(l: Ledger, event: LedgerEvent): (Ledger, Reply) {
    match event
    case Issue(request, now) =>
      var record := StoreRecord(request, now);
      if record.Err? then (l, Refused) else var (m, r) := AfterIssue(l, record.value); (m, GrantReply(r))
    case Reserve(key, expected, now, uuid) =>
      var (m, r) := AfterReserve(l, key, expected, now, uuid); (m, ReservationReply(r))
    case Commit(handle, bytes, now) => var (m, r) := AfterCommit(l, handle, bytes, now); (m, GrantReply(r))
    case Release(handle) => var (m, r) := AfterRelease(l, handle); (m, GrantReply(r))
    case Revoke(key, expected, now) =>
      var (m, r) := AfterTransition(l, key, expected, now, Revoked); (m, GrantReply(r))
    case Consume(key, expected, now) =>
      var (m, r) := AfterTransition(l, key, expected, now, Consumed); (m, GrantReply(r))
    case Expire(key, expected, now) => var (m, r) := AfterExpire(l, key, expected, now); (m, GrantReply(r))
  }

  /** Identifiers drawn for reservations are new. */
  predicate FreshId(l: Ledger, event: LedgerEvent) {
    event.Reserve? ==> event.uuid !in l.reservations
  }

  // Outstanding reservations.

  ghost function Outstanding(reservations: map<string, Reservation>, key: Key): set<Reservation> {
    set id | id in reservations && KeyOf(reservations[id]) == key :: reservations[id]
  }

  ghost function Total(rs: set<Reservation>): int {
    if rs == {} then 0 else var r :| r in rs; r.maxResponseBytes + Total(rs - {r})
  }

  lemma {:induction false} TotalWithout(rs: set<Reservation>, r: Reservation)
    requires r in rs
    ensures Total(rs) == r.maxResponseBytes + Total(rs - {r})
  {
    var q :| q in rs && Total(rs) == q.maxResponseBytes + Total(rs - {q});
    if q != r {
      TotalWithout(rs - {q}, r);
      TotalWithout(rs - {r}, q);
      assert rs - {q} - {r} == rs - {r} - {q};
    }
  }

  lemma {:induction false} TotalBounds(rs: set<Reservation>)
    requires forall r :: r in rs ==> r.maxResponseBytes >= 1
    ensures Total(rs) >= |rs|
  {
    if rs != {} {
      var q :| q in rs && Total(rs) == q.maxResponseBytes + Total(rs - {q});
      TotalBounds(rs - {q});
    }
  }

  ghost predicate OwnIds(reservations: map<string, Reservation>) {
    forall id :: id in reservations ==> reservations[id].id == id
  }

  lemma OutstandingAdded(reservations: map<string, Reservation>, r: Reservation, key: Key)
    requires OwnIds(reservations) && r.id !in reservations
    ensures Outstanding(reservations[r.id := r], key)
         == if KeyOf(r) == key then Outstanding(reservations, key) + {r} else Outstanding(reservations, key)
    ensures r !in Outstanding(reservations, key)
  {
    var after := reservations[r.id := r];
    forall q ensures q in Outstanding(after, key) <==>
                     q in Outstanding(reservations, key) || (q == r && KeyOf(r) == key)
    {
      if q in Outstanding(reservations, key) {
        assert q.id in reservations && reservations[q.id] == q;
        assert after[q.id] == q;
      }
      if q == r {
        assert after[r.id] == q;
      }
    }
  }

  lemma OutstandingRemoved(reservations: map<string, Reservation>, id: string, key: Key)
    requires OwnIds(reservations) && id in reservations
    ensures Outstanding(reservations - {id}, key) == Outstanding(reservations, key) - {reservations[id]}
    ensures reservations[id] in Outstanding(reservations, key) <==> KeyOf(reservations[id]) == key
  {
    var after := reservations - {id};
    forall q ensures q in Outstanding(after, key) <==> q in Outstanding(reservations, key) && q != reservations[id] {
      if q in Outstanding(reservations, key) && q != reservations[id] {
        assert q.id in after && after[q.id] == q;
      }
    }
  }

  // What every reachable ledger satisfies.

  /** The counters of a grant against the reservations outstanding for it. */
  ghost predicate Balanced(g: Grant, outstanding: set<Reservation>) {
    && ValidTerms(g.terms)
    && g.reservedCalls == |outstanding|
    && g.reservedResponseBytes == Total(outstanding)
    && 0 <= g.callsUsed && g.callsUsed + g.reservedCalls <= g.terms.maxCalls
    && 0 <= g.responseBytesUsed && g.responseBytesUsed + g.reservedResponseBytes <= g.terms.maxTotalResponseBytes
    && (g.state == Active ==> g.callsUsed < g.terms.maxCalls && g.responseBytesUsed < g.terms.maxTotalResponseBytes)
    && (g.state == Exhausted ==>
          g.callsUsed == g.terms.maxCalls || g.responseBytesUsed == g.terms.maxTotalResponseBytes)
    && 0 <= g.revision
  }

  ghost predicate Sound(l: Ledger) {
    && OwnIds(l.reservations)
    && (forall id :: id in l.reservations ==>
          KeyOf(l.reservations[id]) in l.records && l.reservations[id].maxResponseBytes >= 1)
    && (forall key :: key in l.records ==>
          GrantKey(l.records[key].terms) == key && Balanced(l.records[key], Outstanding(l.reservations, key)))
  }

  /** How one step may change a grant. */
  ghost predicate Advances(g: Grant, h: Grant) {
    && h.terms == g.terms
    && g.callsUsed <= h.callsUsed && g.responseBytesUsed <= h.responseBytesUsed
    && h.revision == g.revision + 1
    && (h.state == Active ==> g.state == Active)
  }

  /** Whatever the step, a grant keeps its terms, its usage never falls, and it never becomes active again. */
  lemma StepAdvances(l: Ledger, event: LedgerEvent)
    ensures var (m, reply) := Step(l, event);
            && (reply == Refused ==> m == l)
            && (forall key :: key in l.records ==>
                  key in m.records && (m.records[key] == l.records[key] || Advances(l.records[key], m.records[key])))
  {
  }

  lemma SoundStep(l: Ledger, event: LedgerEvent)
    requires Sound(l) && FreshId(l, event)
    ensures Sound(Step(l, event).0)
  {
    hide Sound, AfterIssue, AfterReserve, AfterCommit, AfterRelease, AfterTransition, AfterExpire;
    match event {
      case Issue(request, now) => SoundIssue(l, request, now);
      case Reserve(key, expected, now, uuid) => SoundReserve(l, key, expected, now, uuid);
      case Commit(handle, bytes, now) => SoundCommit(l, handle, bytes, now);
      case Release(handle) => SoundRelease(l, handle);
      case Revoke(key, expected, now) => SoundTransition(l, key, expected, now, Revoked);
      case Consume(key, expected, now) => SoundTransition(l, key, expected, now, Consumed);
      case Expire(key, expected, now) => SoundExpire(l, key, expected, now);
    }
  }

  lemma SoundTransition(l: Ledger, key: Key, expected: int, now: int, state: GrantState)
    requires Sound(l) && state != Active && state != Exhausted
    ensures Sound(AfterTransition(l, key, expected, now, state).0)
  {
    hide Outstanding, Total;
  }

  lemma SoundExpire(l: Ledger, key: Key, expected: int, now: int)
    requires Sound(l)
    ensures Sound(AfterExpire(l, key, expected, now).0)
  {
    hide Outstanding, Total;
  }

  lemma SoundIssue(l: Ledger, request: IssueRequest, now: int)
    requires Sound(l)
    ensures var record := StoreRecord(request, now);
            Sound(if record.Ok? then AfterIssue(l, record.value).0 else l)
  {
    var record := StoreRecord(request, now);
    if record.Ok? && GrantKey(record.value.terms) !in l.records {
      assert Outstanding(l.reservations, GrantKey(record.value.terms)) == {};
    }
  }

  lemma SoundReserve(l: Ledger, key: Key, expected: int, now: int, uuid: string)
    requires Sound(l) && uuid !in l.reservations
    ensures Sound(AfterReserve(l, key, expected, now, uuid).0)
  {
    hide Outstanding, Total;
    var (m, reply) := AfterReserve(l, key, expected, now, uuid);
    if reply.Ok? {
      forall k | k in m.records
        ensures Balanced(m.records[k], Outstanding(m.reservations, k))
      {
        AddedToTotal(l, reply.value, k);
      }
    }
  }

  lemma AddedToTotal(l: Ledger, r: Reservation, key: Key)
    requires Sound(l) && r.id !in l.reservations && key in l.records
    ensures var after := Outstanding(l.reservations[r.id := r], key);
            if key == KeyOf(r)
            then && |after| == l.records[key].reservedCalls + 1
                 && Total(after) == l.records[key].reservedResponseBytes + r.maxResponseBytes
            else after == Outstanding(l.reservations, key)
  {
    OutstandingAdded(l.reservations, r, key);
    if key == KeyOf(r) {
      var after := Outstanding(l.reservations[r.id := r], key);
      TotalWithout(after, r);
      assert after - {r} == Outstanding(l.reservations, key);
    }
  }

  lemma RemovedFromTotal(l: Ledger, r: Reservation, key: Key)
    requires Sound(l) && r.id in l.reservations && l.reservations[r.id] == r && key in l.records
    ensures var after := Outstanding(l.reservations - {r.id}, key);
            if key == KeyOf(r)
            then && |after| == l.records[key].reservedCalls - 1
                 && Total(after) == l.records[key].reservedResponseBytes - r.maxResponseBytes
                 && Total(after) >= |after|
            else after == Outstanding(l.reservations, key)
  {
    OutstandingRemoved(l.reservations, r.id, key);
    if key == KeyOf(r) {
      TotalWithout(Outstanding(l.reservations, key), r);
      TotalBounds(Outstanding(l.reservations - {r.id}, key));
    }
  }

  lemma SoundCommit(l: Ledger, r: Reservation, bytes: int, now: int)
    requires Sound(l)
    ensures Sound(AfterCommit(l, r, bytes, now).0)
  {
    hide Outstanding, Total;
    var (m, reply) := AfterCommit(l, r, bytes, now);
    if reply.Ok? {
      forall k | k in m.records
        ensures Balanced(m.records[k], Outstanding(m.reservations, k))
      {
        RemovedFromTotal(l, r, k);
      }
    }
  }

  lemma SoundRelease(l: Ledger, r: Reservation)
    requires Sound(l)
    ensures Sound(AfterRelease(l, r).0)
  {
    hide Outstanding, Total;
    var (m, reply) := AfterRelease(l, r);
    if reply.Ok? {
      forall k | k in m.records
        ensures Balanced(m.records[k], Outstanding(m.reservations, k))
      {
        RemovedFromTotal(l, l.reservations[r.id], k);
      }
    }
  }

  // What a reservation is worth.

  /**
   A reservation is a guarantee. While its grant is active and unexpired a genuine handle commits any response within
   its cap, whatever other reservations did meanwhile, and it fails otherwise.
   */
  lemma ReservationIsAGuarantee(l: Ledger, r: Reservation, bytes: int, now: int)
    requires Sound(l) && r.id in l.reservations && l.reservations[r.id] == r
    ensures KeyOf(r) in l.records
    ensures var g := l.records[KeyOf(r)];
            AfterCommit(l, r, bytes, now).1.Ok? <==>
            0 <= bytes <= r.maxResponseBytes && g.state == Active && now < g.terms.expiresAt
  {
    hide Outstanding, Total;
    RemovedFromTotal(l, r, KeyOf(r));
  }

  /** Releasing a genuine handle always succeeds, in every state of its grant, and gives back all it held. */
  lemma ReleaseAlwaysSucceeds(l: Ledger, r: Reservation)
    requires Sound(l) && r.id in l.reservations && l.reservations[r.id] == r
    ensures var (m, reply) := AfterRelease(l, r);
            && reply.Ok?
            && r.id !in m.reservations
            && KeyOf(r) in l.records
            && reply.value.callsUsed == l.records[KeyOf(r)].callsUsed
            && reply.value.responseBytesUsed == l.records[KeyOf(r)].responseBytesUsed
  {
    hide Outstanding, Total;
    RemovedFromTotal(l, r, KeyOf(r));
  }

  /** An exhausted grant has nothing outstanding. */
  lemma ExhaustedHasNothingOutstanding(l: Ledger, key: Key)
    requires Sound(l) && key in l.records && l.records[key].state == Exhausted
    ensures Outstanding(l.reservations, key) == {}
  {
    TotalBounds(Outstanding(l.reservations, key));
  }

  /** An active grant with nothing reserved has room for one more call. */
  lemma ActiveHasHeadroom(l: Ledger, key: Key, now: int, uuid: string)
    requires Sound(l) && key in l.records && l.records[key].state == Active
    requires Outstanding(l.reservations, key) == {} && now < l.records[key].terms.expiresAt
    requires SafeInteger(l.records[key].revision)
    ensures AfterReserve(l, key, l.records[key].revision, now, uuid).1.Ok?
  {
  }

  // Runs.

  ghost function Run(events: seq<LedgerEvent>): Ledger {
    if events == [] then Ledger(map[], map[]) else Step(Run(events[..|events| - 1]), events[|events| - 1]).0
  }

  ghost predicate FreshRun(events: seq<LedgerEvent>) {
    forall n :: 0 <= n < |events| ==> FreshId(Run(events[..n]), events[n])
  }

  /** Every reachable ledger is sound. */
  lemma {:induction false} ReachableIsSound(events: seq<LedgerEvent>)
    requires FreshRun(events)
    ensures Sound(Run(events))
    ensures forall key :: key in Run(events).records ==> Run(events).records[key].revision <= |events|
  {
    hide Step;
    if events == [] {
      assert Sound(Ledger(map[], map[]));
    } else {
      var before := events[..|events| - 1];
      assert FreshRun(before) by {
        forall n | 0 <= n < |before| ensures FreshId(Run(before[..n]), before[n]) {
          assert before[..n] == events[..n];
        }
      }
      ReachableIsSound(before);
      SoundStep(Run(before), events[|events| - 1]);
      StepAdvances(Run(before), events[|events| - 1]);
      NewRecordsStartAtZero(Run(before), events[|events| - 1]);
    }
  }

  lemma NewRecordsStartAtZero(l: Ledger, event: LedgerEvent)
    ensures var m := Step(l, event).0;
            forall key :: key in m.records && key !in l.records ==> m.records[key].revision == 0
  {
  }
}
