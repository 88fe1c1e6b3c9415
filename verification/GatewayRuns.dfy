/**
 Every interleaving of gateway calls, provider outcomes, aborts, kill and
 grant transitions: reservations are settled exactly once.
 */
module GatewayRuns {
  import opened Base
  import opened RunGrants
  import opened Gateway

  datatype World = World(s: GatewayState, finished: map<nat, CallResult>)

  datatype Event =
    | Begin(request: CallRequest, startedAt: int, uuid: string)
    | Settle(call: nat, race: Race)
    | Abort(call: nat, reason: AbortReason)
    | Kill
    | Resume(call: nat, completedAt: int, outputValid: bool, bytes: Option<int>)
    | Outside(event: LedgerEvent)

  const INITIAL := World(GatewayState(Ledger(map[], map[]), false, map[], 0, []), map[])

  /** What others may do to the grants: anything but reserve, commit and release. */
  predicate IsTransition(event: LedgerEvent) {
    event.Issue? || event.Revoke? || event.Consume? || event.Expire?
  }

  function Next(w: World, issuer: string, event: Event): World {
    match event
    case Begin(request, startedAt, uuid) =>
      var (t, ended) := AfterBegin(w.s, issuer, request, startedAt, uuid);
      World(t, if ended.Some? then w.finished[w.s.calls := ended.value] else w.finished)
    case Settle(call, race) =>
      if race.ProviderGave? || race.ProviderThrew? then w.(s := AfterSettle(w.s, call, race)) else w
    case Abort(call, reason) => w.(s := AfterAbort(w.s, call, reason))
    case Kill => w.(s := AfterKill(w.s))
    case Resume(call, completedAt, outputValid, bytes) =>
      if call in w.s.active && !w.s.active[call].race.Pending? then
        var (t, result) := AfterResume(w.s, issuer, call, completedAt, outputValid, bytes);
        World(t, w.finished[call := result])
      else w
    case Outside(e) => if IsTransition(e) then w.(s := w.s.(ledger := Step(w.s.ledger, e).0)) else w
  }

  ghost function After(issuer: string, events: seq<Event>): World {
    if events == [] then INITIAL else Next(After(issuer, events[..|events| - 1]), issuer, events[|events| - 1])
  }

  predicate Fresh(w: World, event: Event) {
    event.Begin? ==> event.uuid !in w.s.ledger.reservations
  }

  ghost predicate FreshEvents(issuer: string, events: seq<Event>) {
    forall n :: 0 <= n < |events| ==> Fresh(After(issuer, events[..n]), events[n])
  }

  // The total number of calls used.

  ghost function CallsUsed(records: map<Key, Grant>): int {
    if records == map[] then 0
    else
      var key :| key in records;
      records[key].callsUsed + CallsUsed(records - {key})
  }

  lemma {:induction false} CallsWithout(records: map<Key, Grant>, key: Key)
    requires key in records
    ensures CallsUsed(records) == records[key].callsUsed + CallsUsed(records - {key})
    decreases |records|
  {
    var k :| k in records && CallsUsed(records) == records[k].callsUsed + CallsUsed(records - {k});
    if k != key {
      CallsWithout(records - {k}, key);
      CallsWithout(records - {key}, k);
      assert records - {k} - {key} == records - {key} - {k};
    }
  }

  lemma CallsUpdated(records: map<Key, Grant>, key: Key, g: Grant)
    ensures CallsUsed(records[key := g])
         == CallsUsed(records) + g.callsUsed - if key in records then records[key].callsUsed else 0
  {
    CallsWithout(records[key := g], key);
    assert records[key := g] - {key} == records - {key};
    if key in records {
      CallsWithout(records, key);
    } else {
      assert records - {key} == records;
    }
  }

  ghost function ToolCalls(audit: seq<AuditEntry>): nat {
    if audit == [] then 0
    else ToolCalls(audit[..|audit| - 1]) + if audit[|audit| - 1].code.ToolCalled? then 1 else 0
  }

  lemma ToolCallsAdded(audit: seq<AuditEntry>, entry: AuditEntry)
    ensures ToolCalls(audit + [entry]) == ToolCalls(audit) + if entry.code.ToolCalled? then 1 else 0
  {
    assert (audit + [entry])[..|audit|] == audit;
  }

  // What every interleaving keeps.

  /** An active call holds a reservation of its grant; it was aborted if the gateway was killed. */
  ghost predicate Holding(s: GatewayState, issuer: string, c: ActiveCall) {
    && c.reservation.id in s.ledger.reservations && s.ledger.reservations[c.reservation.id] == c.reservation
    && KeyOf(c.reservation) == (issuer, c.grant.id)
    && Authenticated(s.ledger, issuer, c.grant).Some?
    && (c.race.Pending? ==> c.abortReason.None?)
    && (c.race.AbortWon? ==> c.abortReason == Some(c.race.reason))
    && (s.killed ==> c.abortReason.Some?)
  }

  ghost predicate AllHolding(s: GatewayState, issuer: string) {
    forall k :: k in s.active ==> Holding(s, issuer, s.active[k])
  }

  /** Outstanding reservations and active calls match one to one. */
  ghost predicate OneToOne(s: GatewayState) {
    && (forall k, l :: k in s.active && l in s.active && k != l ==>
          s.active[k].reservation.id != s.active[l].reservation.id)
    && (forall id :: id in s.ledger.reservations ==> exists k :: k in s.active && s.active[k].reservation.id == id)
  }

  /** Each event belongs to a finished call, no call has two, and an event says how its call ended. */
  ghost predicate Audited(w: World) {
    && (forall i :: 0 <= i < |w.s.audit| ==>
          w.s.audit[i].call in w.finished && Reports(w.s.audit[i].code, w.finished[w.s.audit[i].call]))
    && (forall i, j :: 0 <= i < j < |w.s.audit| ==> w.s.audit[i].call != w.s.audit[j].call)
    && (forall k :: k in w.finished && (w.finished[k].Returned? || w.finished[k].Aborted?) ==>
          exists i :: 0 <= i < |w.s.audit| && w.s.audit[i].call == k)
  }

  predicate Reports(code: Code, result: CallResult) {
    && (code.ToolCalled? <==> result.Returned?)
    && (code.AbortCode? <==> result.Aborted?)
    && (code.AbortCode? ==> result == Aborted(code.reason))
  }

  ghost predicate Numbered(w: World) {
    forall k: nat :: (k < w.s.calls <==> k in w.s.active || k in w.finished) && !(k in w.s.active && k in w.finished)
  }

  ghost predicate Counted(s: GatewayState) {
    ToolCalls(s.audit) == CallsUsed(s.ledger.records)
  }

  ghost predicate Good(w: World, issuer: string) {
    Sound(w.s.ledger) && AllHolding(w.s, issuer) && OneToOne(w.s) && Numbered(w) && Audited(w) && Counted(w.s)
  }

  // How the ledger changes under a call.

  ghost predicate KeepsTerms(l: Ledger, m: Ledger) {
    forall key :: key in l.records ==> key in m.records && m.records[key].terms == l.records[key].terms
  }

  /** r is gone, nothing else is; its grant has used this many calls more. */
  ghost predicate Settled(l: Ledger, m: Ledger, r: Reservation, calls: nat) {
    && Sound(m)
    && KeepsTerms(l, m)
    && m.reservations == l.reservations - {r.id}
    && CallsUsed(m.records) == CallsUsed(l.records) + calls
  }

  ghost predicate Genuine(l: Ledger, r: Reservation) {
    r.id in l.reservations && l.reservations[r.id] == r
  }

  lemma ReleaseSettles(l: Ledger, r: Reservation)
    requires Sound(l) && Genuine(l, r)
    ensures AfterRelease(l, r).1.Ok? && Settled(l, AfterRelease(l, r).0, r, 0)
  {
    hide Sound, CallsUsed;
    ReleaseAlwaysSucceeds(l, r);
    SoundRelease(l, r);
    var m := AfterRelease(l, r).0;
    CallsUpdated(l.records, KeyOf(r), m.records[KeyOf(r)]);
  }

  lemma CommitSettles(l: Ledger, r: Reservation, bytes: int, now: int)
    requires Sound(l) && AfterCommit(l, r, bytes, now).1.Ok?
    ensures Settled(l, AfterCommit(l, r, bytes, now).0, r, 1)
  {
    hide Sound, CallsUsed, CheckActive;
    SoundCommit(l, r, bytes, now);
    var m := AfterCommit(l, r, bytes, now).0;
    CallsUpdated(l.records, KeyOf(r), m.records[KeyOf(r)]);
  }

  /** r is new, nothing else is. */
  ghost predicate Taken(l: Ledger, m: Ledger, r: Reservation) {
    && Sound(m)
    && KeepsTerms(l, m)
    && m.reservations == l.reservations[r.id := r]
    && CallsUsed(m.records) == CallsUsed(l.records)
  }

  lemma ReserveTakes(l: Ledger, key: Key, expected: int, now: int, uuid: string)
    requires Sound(l) && uuid !in l.reservations
    ensures var (m, reply) := AfterReserve(l, key, expected, now, uuid);
            reply.Ok? ==> Taken(l, m, reply.value) && reply.value.id == uuid && KeyOf(reply.value) == key
  {
    hide Sound, CallsUsed, CheckActive, CheckRevision, Min;
    SoundReserve(l, key, expected, now, uuid);
    var (m, reply) := AfterReserve(l, key, expected, now, uuid);
    if reply.Ok? {
      CallsUpdated(l.records, key, m.records[key]);
    }
  }

  // The end of a call.

  lemma AuditedAdd(w: World, v: World, k: nat, result: CallResult, entry: AuditEntry)
    requires Audited(w) && k !in w.finished && entry.call == k && Reports(entry.code, result)
    requires v.s.audit == w.s.audit + [entry] && v.finished == w.finished[k := result]
    ensures Audited(v)
  {
    hide Reports;
    assert v.s.audit[|w.s.audit|] == entry;
    forall l | l in v.finished && (v.finished[l].Returned? || v.finished[l].Aborted?)
      ensures exists i :: 0 <= i < |v.s.audit| && v.s.audit[i].call == l
    {
      if l != k {
        var i :| 0 <= i < |w.s.audit| && w.s.audit[i].call == l;
        assert v.s.audit[i].call == l;
      }
    }
  }

  lemma AuditedSilent(w: World, v: World, k: nat)
    requires Audited(w) && k !in w.finished
    requires v.s.audit == w.s.audit && v.finished == w.finished[k := Failed(None)]
    ensures Audited(v)
  {
    hide Reports;
    forall l | l in v.finished && (v.finished[l].Returned? || v.finished[l].Aborted?)
      ensures exists i :: 0 <= i < |v.s.audit| && v.s.audit[i].call == l
    {
      assert l != k;
    }
  }

  lemma OneToOneRemoved(s: GatewayState, t: GatewayState, k: nat)
    requires OneToOne(s) && k in s.active
    requires t.active == s.active - {k}
    requires t.ledger.reservations == s.ledger.reservations - {s.active[k].reservation.id}
    ensures OneToOne(t)
  {
    forall id | id in t.ledger.reservations ensures exists l :: l in t.active && t.active[l].reservation.id == id {
      var l :| l in s.active && s.active[l].reservation.id == id;
      assert t.active[l] == s.active[l];
    }
  }

  /** The other calls keep their reservations when one is settled. */
  lemma StillHolding(s: GatewayState, t: GatewayState, issuer: string, k: nat)
    requires k in s.active && AllHolding(s, issuer) && OneToOne(s) && t.killed == s.killed
    requires t.active == s.active - {k}
    requires t.ledger.reservations == s.ledger.reservations - {s.active[k].reservation.id}
    requires KeepsTerms(s.ledger, t.ledger)
    ensures AllHolding(t, issuer)
  {
    forall l | l in t.active ensures Holding(t, issuer, t.active[l]) {
      assert Holding(s, issuer, s.active[l]);
    }
  }

  /** Any way of ending a call that settles its reservation and reports the result. */
  lemma CallEnds(w: World, issuer: string, k: nat, m: Ledger, result: CallResult, code: Option<Code>)
    requires Good(w, issuer) && k in w.s.active
    requires Settled(w.s.ledger, m, w.s.active[k].reservation, if result.Returned? then 1 else 0)
    requires if code.Some? then Reports(code.value, result) else result == Failed(None)
    ensures var audit := if code.Some? then w.s.audit + [AuditEntry(code.value, k)] else w.s.audit;
            Good(World(w.s.(ledger := m, active := w.s.active - {k}, audit := audit), w.finished[k := result]), issuer)
  {
    var audit := if code.Some? then w.s.audit + [AuditEntry(code.value, k)] else w.s.audit;
    var v := World(w.s.(ledger := m, active := w.s.active - {k}, audit := audit), w.finished[k := result]);
    hide Numbered, Sound, OneToOne, AllHolding, Audited, Reports, KeepsTerms, ToolCalls, CallsUsed, Counted, Holding;
    NumberedEnd(w, v, k);
    OneToOneRemoved(w.s, v.s, k);
    StillHolding(w.s, v.s, issuer, k);
    if code.Some? {
      AuditedAdd(w, v, k, result, AuditEntry(code.value, k));
      ToolCallsAdded(w.s.audit, AuditEntry(code.value, k));
    } else {
      AuditedSilent(w, v, k);
    }
    CountedEnd(w.s, v.s, if result.Returned? then 1 else 0);
  }

  lemma CountedEnd(s: GatewayState, t: GatewayState, calls: nat)
    requires Counted(s)
    requires CallsUsed(t.ledger.records) == CallsUsed(s.ledger.records) + calls
    requires ToolCalls(t.audit) == ToolCalls(s.audit) + calls
    ensures Counted(t)
  {
  }

  lemma NumberedEnd(w: World, v: World, k: nat)
    requires Numbered(w) && k in w.s.active
    requires v.s.active == w.s.active - {k} && v.s.calls == w.s.calls
    requires v.finished.Keys == w.finished.Keys + {k}
    ensures Numbered(v) && k !in w.finished
  {
  }

  lemma NumberedRefusal(w: World, v: World)
    requires Numbered(w)
    requires v.s.active == w.s.active && v.s.calls == w.s.calls + 1
    requires v.finished.Keys == w.finished.Keys + {w.s.calls}
    ensures Numbered(v) && w.s.calls !in w.finished
  {
  }

  lemma NumberedSame(w: World, v: World)
    requires Numbered(w)
    requires v.s.active.Keys == w.s.active.Keys && v.s.calls == w.s.calls && v.finished == w.finished
    ensures Numbered(v)
  {
  }

  lemma NumberedStart(w: World, v: World)
    requires Numbered(w)
    requires v.s.active.Keys == w.s.active.Keys + {w.s.calls} && v.s.calls == w.s.calls + 1
    requires v.finished == w.finished
    ensures Numbered(v) && w.s.calls !in w.s.active
  {
  }

  lemma SoundOf(w: World, issuer: string)
    requires Good(w, issuer)
    ensures Sound(w.s.ledger)
  {
    hide Sound;
  }

  lemma HoldingOf(w: World, issuer: string, k: nat)
    requires Good(w, issuer) && k in w.s.active
    ensures Holding(w.s, issuer, w.s.active[k]) && Genuine(w.s.ledger, w.s.active[k].reservation)
    ensures k < w.s.calls
  {
  }

  /** The catch block of a call in flight: its release cannot fail, and usage does not change. */
  lemma GiveUpKeeps(w: World, issuer: string, k: nat, result: CallResult, code: Option<Code>)
    requires Good(w, issuer) && k in w.s.active && !result.Returned?
    requires if code.Some? then Reports(code.value, result) else result == Failed(None)
    ensures var (t, ended) := GiveUp(w.s, issuer, k, result, code);
            && ended == result
            && Good(World(t, w.finished[k := result]), issuer)
            && Settled(w.s.ledger, t.ledger, w.s.active[k].reservation, 0)
            && t.active == w.s.active - {k}
            && t.killed == w.s.killed
  {
    hide Good, Settled, AfterRelease, Reports, Authenticated;
    HoldingOf(w, issuer, k);
    var c := w.s.active[k];
    assert c.reservation.(issuerId := issuer, grantId := c.grant.id) == c.reservation;
    SoundOf(w, issuer);
    ReleaseSettles(w.s.ledger, c.reservation);
    CallEnds(w, issuer, k, AfterRelease(w.s.ledger, c.reservation).0, result, code);
  }

  /** What the end of a call does: its reservation is settled once, with a call used iff output is returned. */
  ghost predicate Ends(w: World, v: World, issuer: string, k: nat)
    requires k in w.s.active
  {
    && Good(v, issuer)
    && k in v.finished
    && v.finished == w.finished[k := v.finished[k]]
    && v.s.active == w.s.active - {k}
    && v.s.killed == w.s.killed
    && Settled(w.s.ledger, v.s.ledger, w.s.active[k].reservation, if v.finished[k].Returned? then 1 else 0)
  }

  lemma GiveUpEnds(w: World, issuer: string, k: nat, result: CallResult, code: Option<Code>)
    requires Good(w, issuer) && k in w.s.active && !result.Returned?
    requires if code.Some? then Reports(code.value, result) else result == Failed(None)
    ensures var (t, ended) := GiveUp(w.s, issuer, k, result, code);
            ended == result && Ends(w, World(t, w.finished[k := ended]), issuer, k)
  {
    hide Good, Settled, GiveUp, Reports;
    GiveUpKeeps(w, issuer, k, result, code);
  }

  lemma CommitEnds(w: World, issuer: string, k: nat, bytes: int, now: int, output: Output)
    requires Good(w, issuer) && k in w.s.active
    requires AfterCommit(w.s.ledger, w.s.active[k].reservation, bytes, now).1.Ok?
    ensures var ledger := AfterCommit(w.s.ledger, w.s.active[k].reservation, bytes, now).0;
            var t := w.s.(ledger := ledger,
                          active := w.s.active - {k},
                          audit := w.s.audit + [AuditEntry(ToolCalled, k)]);
            Ends(w, World(t, w.finished[k := Returned(output)]), issuer, k)
  {
    hide Good, Settled, AfterCommit;
    SoundOf(w, issuer);
    CommitSettles(w.s.ledger, w.s.active[k].reservation, bytes, now);
    CallEnds(w, issuer, k, AfterCommit(w.s.ledger, w.s.active[k].reservation, bytes, now).0, Returned(output),
             Some(ToolCalled));
  }

  /** How a call must end, by what its race settled on and whether it was aborted. */
  predicate EndsAs(killed: bool, c: ActiveCall, result: CallResult) {
    if c.race.ProviderThrew? then result == Failed(Some(ProviderFailed))
    else if c.abortReason.Some? then result == Aborted(c.abortReason.value)
    else !killed && !result.Aborted? && (result.Returned? ==> c.race == ProviderGave(result.output))
  }

  /**
   The end of a call. Its reservation, outstanding until now, is gone: committed if and only if the call returns
   output, released otherwise; nothing else changes in the table of reservations. An aborted call ends with its abort
   reason, unless the provider had thrown before; no call of a killed gateway returns output.
   */
  lemma ResumeSettlesOnce(w: World, issuer: string, k: nat, completedAt: int, outputValid: bool, bytes: Option<int>)
    requires Good(w, issuer) && k in w.s.active && !w.s.active[k].race.Pending?
    ensures w.s.active[k].reservation.id in w.s.ledger.reservations
    ensures var v := Next(w, issuer, Resume(k, completedAt, outputValid, bytes));
            && Ends(w, v, issuer, k)
            && k in v.finished && EndsAs(w.s.killed, w.s.active[k], v.finished[k])
            && (v.finished[k].Returned? ==> !w.s.killed)
  {
    hide Good, Ends, GiveUp, AfterCommit, Authorize, Holding;
    HoldingOf(w, issuer, k);
    AbortsOf(w, issuer, k);
    var c := w.s.active[k];
    match c.race {
      case AbortWon(reason) => GiveUpEnds(w, issuer, k, Aborted(reason), Some(AbortCode(reason)));
      case ProviderThrew => GiveUpEnds(w, issuer, k, Failed(Some(ProviderFailed)), Some(ProviderFailed));
      case ProviderGave(output) =>
        if c.abortReason.Some? {
          GiveUpEnds(w, issuer, k, Aborted(c.abortReason.value), Some(AbortCode(c.abortReason.value)));
        } else {
          hide AfterResume;
          UnabortedSettlesOnce(w, issuer, k, completedAt, outputValid, bytes);
        }
    }
  }

  lemma AbortsOf(w: World, issuer: string, k: nat)
    requires Good(w, issuer) && k in w.s.active
    ensures var c := w.s.active[k];
            && (c.race.Pending? ==> c.abortReason.None?)
            && (c.race.AbortWon? ==> c.abortReason == Some(c.race.reason))
            && (w.s.killed ==> c.abortReason.Some?)
  {
    HoldingOf(w, issuer, k);
  }

  /** A call whose provider gave output before any abort. */
  lemma UnabortedSettlesOnce(w: World, issuer: string, k: nat, completedAt: int, outputValid: bool, bytes: Option<int>)
    requires Good(w, issuer) && k in w.s.active && !w.s.killed
    requires w.s.active[k].race.ProviderGave? && w.s.active[k].abortReason.None?
    ensures var (t, result) := AfterResume(w.s, issuer, k, completedAt, outputValid, bytes);
            Ends(w, World(t, w.finished[k := result]), issuer, k) && EndsAs(w.s.killed, w.s.active[k], result)
  {
    hide Good, Ends, GiveUp, AfterCommit, Authorize, Authenticated, GrantKey;
    GiveUpEnds(w, issuer, k, Failed(Some(AuthorizationChanged)), Some(AuthorizationChanged));
    GiveUpEnds(w, issuer, k, Failed(Some(OutputSchemaFailed)), Some(OutputSchemaFailed));
    GiveUpEnds(w, issuer, k, Failed(None), None);
    if bytes.Some? && AfterCommit(w.s.ledger, w.s.active[k].reservation, bytes.value, completedAt).1.Ok? {
      CommitEnds(w, issuer, k, bytes.value, completedAt, w.s.active[k].race.output);
    }
  }

  // The start of a call.

  lemma RefusalIsNoCall(s: GatewayState, issuer: string, request: CallRequest, startedAt: int)
    ensures var refusal := Refusal(s, issuer, request, startedAt);
            refusal.Some? ==> Reports(refusal.value, ResultOf(refusal.value))
  {
  }

  lemma RefusalChecks(s: GatewayState, issuer: string, request: CallRequest, startedAt: int)
    requires Refusal(s, issuer, request, startedAt).None?
    ensures !s.killed && Authorize(s.ledger, issuer, request.grant, startedAt).Some?
    ensures Authenticated(s.ledger, issuer, request.grant).Some?
  {
  }

  lemma OneToOneAdded(s: GatewayState, t: GatewayState, k: nat)
    requires OneToOne(s) && k !in s.active && k in t.active
    requires t.active == s.active[k := t.active[k]]
    requires forall l :: l in s.active ==> s.active[l].reservation.id in s.ledger.reservations
    requires t.active[k].reservation.id !in s.ledger.reservations
    requires t.ledger.reservations == s.ledger.reservations[t.active[k].reservation.id := t.active[k].reservation]
    ensures OneToOne(t)
  {
    forall id | id in t.ledger.reservations ensures exists l :: l in t.active && t.active[l].reservation.id == id {
      if id in s.ledger.reservations {
        var l :| l in s.active && s.active[l].reservation.id == id;
        assert t.active[l] == s.active[l];
      } else {
        assert t.active[k].reservation.id == id;
      }
    }
  }

  lemma CallRefused(w: World, v: World, issuer: string, result: CallResult)
    requires Good(w, issuer) && !result.Returned?
    requires v.s == w.s.(calls := w.s.calls + 1, audit := v.s.audit) && v.finished == w.finished[w.s.calls := result]
    requires (exists code :: Reports(code, result) && v.s.audit == w.s.audit + [AuditEntry(code, w.s.calls)])
          || (result == Failed(None) && v.s.audit == w.s.audit)
    ensures Good(v, issuer)
  {
    hide AllHolding, OneToOne, Numbered, Sound, Audited, ToolCalls, CallsUsed, Holding;
    NumberedRefusal(w, v);
    HoldingSame(w.s, v.s, issuer);
    OneToOneKept(w.s, v.s);
    if v.s.audit == w.s.audit {
      AuditedSilent(w, v, w.s.calls);
    } else {
      var code :| Reports(code, result) && v.s.audit == w.s.audit + [AuditEntry(code, w.s.calls)];
      AuditedAdd(w, v, w.s.calls, result, AuditEntry(code, w.s.calls));
      ToolCallsAdded(w.s.audit, AuditEntry(code, w.s.calls));
    }
    CountedEnd(w.s, v.s, 0);
  }

  lemma HoldingSame(s: GatewayState, t: GatewayState, issuer: string)
    requires AllHolding(s, issuer) && t.ledger == s.ledger && t.active == s.active && t.killed == s.killed
    ensures AllHolding(t, issuer)
  {
    forall k | k in t.active ensures Holding(t, issuer, t.active[k]) {
      assert Holding(s, issuer, s.active[k]);
    }
  }

  lemma HoldingStarts(s: GatewayState, t: GatewayState, issuer: string, k: nat, c: ActiveCall)
    requires AllHolding(s, issuer) && !s.killed && !t.killed && t.active == s.active[k := c]
    requires c.race.Pending? && c.abortReason.None?
    requires Taken(s.ledger, t.ledger, c.reservation) && c.reservation.id !in s.ledger.reservations
    requires Authenticated(s.ledger, issuer, c.grant).Some? && KeyOf(c.reservation) == (issuer, c.grant.id)
    ensures AllHolding(t, issuer)
    ensures forall l :: l in s.active ==> s.active[l].reservation.id in s.ledger.reservations
  {
    hide Sound, CallsUsed;
    forall l | l in s.active
      ensures Holding(t, issuer, s.active[l]) && s.active[l].reservation.id in s.ledger.reservations
    {
      assert Holding(s, issuer, s.active[l]);
    }
    assert Holding(t, issuer, c);
  }

  lemma CallStarts(w: World, issuer: string, h: Handle, m: Ledger, r: Reservation)
    requires Good(w, issuer) && !w.s.killed && r.id !in w.s.ledger.reservations && Taken(w.s.ledger, m, r)
    requires Authenticated(w.s.ledger, issuer, h).Some? && KeyOf(r) == (issuer, h.id)
    ensures var k := w.s.calls;
            Good(w.(s := w.s.(calls := k + 1, ledger := m, active := w.s.active[k := ActiveCall(h, r, None, Pending)])),
                 issuer)
  {
    var k := w.s.calls;
    var v := w.(s := w.s.(calls := k + 1, ledger := m, active := w.s.active[k := ActiveCall(h, r, None, Pending)]));
    hide Sound, Numbered, Audited, AllHolding, OneToOne, CallsUsed, ToolCalls, Authenticated, KeepsTerms, Counted,
      Holding;
    NumberedStart(w, v);
    AuditedSame(w, v);
    HoldingStarts(w.s, v.s, issuer, k, v.s.active[k]);
    OneToOneAdded(w.s, v.s, k);
    CountedEnd(w.s, v.s, 0);
  }

  lemma BeginKeeps(w: World, issuer: string, request: CallRequest, startedAt: int, uuid: string)
    requires Good(w, issuer) && uuid !in w.s.ledger.reservations
    ensures Good(Next(w, issuer, Begin(request, startedAt, uuid)), issuer)
  {
    hide Refusal, Good, AfterReserve, Taken, Reports, Sound;
    SoundOf(w, issuer);
    var refusal := Refusal(w.s, issuer, request, startedAt);
    if refusal.Some? {
      RefusalIsNoCall(w.s, issuer, request, startedAt);
      CallRefused(w, Next(w, issuer, Begin(request, startedAt, uuid)), issuer, ResultOf(refusal.value));
    } else {
      RefusalChecks(w.s, issuer, request, startedAt);
      var key := (issuer, request.grant.id);
      var g := Authorize(w.s.ledger, issuer, request.grant, startedAt).value;
      var (ledger, reply) := AfterReserve(w.s.ledger, key, g.revision, startedAt, uuid);
      ReserveTakes(w.s.ledger, key, g.revision, startedAt, uuid);
      if reply.Ok? {
        CallStarts(w, issuer, request.grant, ledger, reply.value);
      } else {
        CallRefused(w, Next(w, issuer, Begin(request, startedAt, uuid)), issuer, Failed(None));
      }
    }
  }

  // Signals and transitions.

  /** Settling, aborting and killing leave reservations alone. */
  ghost predicate Signalled(s: GatewayState, t: GatewayState) {
    && t == s.(active := t.active, killed := t.killed)
    && t.active.Keys == s.active.Keys
    && (forall k :: k in s.active ==> t.active[k].reservation == s.active[k].reservation
                                      && t.active[k].grant == s.active[k].grant)
  }

  lemma SignalOf(w: World, issuer: string, event: Event)
    requires AllHolding(w.s, issuer) && (event.Settle? || event.Abort? || event.Kill?)
    ensures var v := Next(w, issuer, event);
            v.finished == w.finished && Signalled(w.s, v.s) && AllHolding(v.s, issuer)
  {
    hide Authenticated, KeyOf;
    var v := Next(w, issuer, event);
    forall k | k in v.s.active ensures Holding(v.s, issuer, v.s.active[k]) {
      assert Holding(w.s, issuer, w.s.active[k]);
    }
  }

  lemma OneToOneKept(s: GatewayState, t: GatewayState)
    requires OneToOne(s) && t.ledger.reservations == s.ledger.reservations && t.active.Keys == s.active.Keys
    requires forall k :: k in s.active ==> t.active[k].reservation == s.active[k].reservation
    ensures OneToOne(t)
  {
    forall id | id in t.ledger.reservations ensures exists k :: k in t.active && t.active[k].reservation.id == id {
      var k :| k in s.active && s.active[k].reservation.id == id;
      assert t.active[k].reservation.id == id;
    }
  }

  lemma SignalsKeep(w: World, issuer: string, event: Event)
    requires Good(w, issuer) && (event.Settle? || event.Abort? || event.Kill?)
    ensures Good(Next(w, issuer, event), issuer)
  {
    var v := Next(w, issuer, event);
    hide Next, Sound, CallsUsed, ToolCalls, AllHolding, OneToOne, Numbered, Audited;
    SignalOf(w, issuer, event);
    OneToOneKept(w.s, v.s);
    NumberedSame(w, v);
    AuditedSame(w, v);
  }

  lemma AuditedSame(w: World, v: World)
    requires Audited(w) && v.s.audit == w.s.audit && v.finished == w.finished
    ensures Audited(v)
  {
  }

  lemma TransitionKeepsCalls(l: Ledger, event: LedgerEvent)
    requires IsTransition(event)
    ensures var m := Step(l, event).0;
            && m.reservations == l.reservations
            && CallsUsed(m.records) == CallsUsed(l.records)
            && KeepsTerms(l, m)
  {
    var m := Step(l, event).0;
    var key := if event.Issue? then GrantKey(event.request.terms) else event.key;
    if m != l {
      CallsUpdated(l.records, key, m.records[key]);
      assert m.records == l.records[key := m.records[key]];
    }
  }

  lemma OutsideKeeps(w: World, issuer: string, event: LedgerEvent)
    requires Good(w, issuer)
    ensures Good(Next(w, issuer, Outside(event)), issuer)
  {
    hide Sound, Audited, Step, CallsUsed, ToolCalls;
    if IsTransition(event) {
      var v := Next(w, issuer, Outside(event));
      SoundStep(w.s.ledger, event);
      TransitionKeepsCalls(w.s.ledger, event);
      forall k | k in v.s.active ensures Holding(v.s, issuer, v.s.active[k]) {
        assert Holding(w.s, issuer, w.s.active[k]);
      }
      OneToOneKept(w.s, v.s);
      AuditedSame(w, v);
    }
  }

  lemma NextKeeps(w: World, issuer: string, event: Event)
    requires Good(w, issuer) && Fresh(w, event)
    ensures Good(Next(w, issuer, event), issuer)
  {
    hide Good, AfterResume, AfterBegin, EndsAs;
    match event {
      case Begin(request, startedAt, uuid) => BeginKeeps(w, issuer, request, startedAt, uuid);
      case Resume(call, completedAt, outputValid, bytes) =>
        if call in w.s.active && !w.s.active[call].race.Pending? {
          ResumeSettlesOnce(w, issuer, call, completedAt, outputValid, bytes);
        }
      case Outside(e) => OutsideKeeps(w, issuer, e);
      case _ => SignalsKeep(w, issuer, event);
    }
  }

  lemma FreshPrefix(issuer: string, events: seq<Event>, n: nat)
    requires FreshEvents(issuer, events) && n <= |events|
    ensures FreshEvents(issuer, events[..n])
  {
    hide Next, Fresh;
    forall i | 0 <= i < n ensures Fresh(After(issuer, events[..n][..i]), events[..n][i]) {
      assert events[..n][..i] == events[..i];
    }
  }

  lemma {:induction false} AlwaysGood(issuer: string, events: seq<Event>)
    requires FreshEvents(issuer, events)
    ensures Good(After(issuer, events), issuer)
  {
    hide Good, Next, Fresh;
    if events == [] {
      assert Good(INITIAL, issuer) by { InitiallyGood(issuer); }
    } else {
      FreshPrefix(issuer, events, |events| - 1);
      AlwaysGood(issuer, events[..|events| - 1]);
      NextKeeps(After(issuer, events[..|events| - 1]), issuer, events[|events| - 1]);
    }
  }

  lemma InitiallyGood(issuer: string)
    ensures Good(INITIAL, issuer)
  {
  }

  /**
   In every interleaving: outstanding reservations and calls in flight match one to one, so there are none when no call
   is in flight; no call has two audit events, and an event says how its call ended; and the tool calls reported are
   the calls used.
   */
  lemma ReservationsMatchCallsInFlight(issuer: string, events: seq<Event>)
    requires FreshEvents(issuer, events)
    ensures var w := After(issuer, events);
            && (forall k :: k in w.s.active ==> Genuine(w.s.ledger, w.s.active[k].reservation))
            && OneToOne(w.s)
            && (w.s.active == map[] ==> w.s.ledger.reservations == map[])
            && (forall i, j :: 0 <= i < j < |w.s.audit| ==> w.s.audit[i].call != w.s.audit[j].call)
            && (forall i :: 0 <= i < |w.s.audit| ==>
                  w.s.audit[i].call in w.finished && Reports(w.s.audit[i].code, w.finished[w.s.audit[i].call]))
            && ToolCalls(w.s.audit) == CallsUsed(w.s.ledger.records)
  {
    AlwaysGood(issuer, events);
    hide After, CallsUsed, ToolCalls, Sound, Reports, Numbered;
    var w := After(issuer, events);
    forall k | k in w.s.active ensures Genuine(w.s.ledger, w.s.active[k].reservation) {
      HoldingOf(w, issuer, k);
    }
  }

  // Kill and abort.

  /** No call used and no output returned from w to v. */
  ghost predicate Quiet(w: World, v: World) {
    && v.s.killed
    && CallsUsed(v.s.ledger.records) == CallsUsed(w.s.ledger.records)
    && (forall k :: k in v.finished && v.finished[k].Returned? ==> k in w.finished && w.finished[k].Returned?)
  }

  /** A killed gateway stays killed; no step of it uses a call or returns output. */
  lemma KilledStep(w: World, issuer: string, event: Event)
    requires Good(w, issuer) && w.s.killed
    ensures Quiet(w, Next(w, issuer, event))
  {
    hide Good, CallsUsed, Step, AfterReserve;
    match event {
      case Resume(call, completedAt, outputValid, bytes) =>
        hide AfterResume;
        if call in w.s.active && !w.s.active[call].race.Pending? {
          ResumeSettlesOnce(w, issuer, call, completedAt, outputValid, bytes);
        }
      case Outside(e) =>
        if IsTransition(e) { TransitionKeepsCalls(w.s.ledger, e); }
      case _ =>
    }
  }

  /** After kill no call returns output or commits, whatever the rest of the interleaving. */
  lemma {:induction false} NothingAfterKill(issuer: string, events: seq<Event>, n: nat)
    requires FreshEvents(issuer, events) && n <= |events|
    requires After(issuer, events[..n]).s.killed
    ensures Quiet(After(issuer, events[..n]), After(issuer, events))
    decreases |events|
  {
    hide Next, CallsUsed, Fresh;
    if n == |events| {
      assert events[..n] == events;
    } else {
      var before := events[..|events| - 1];
      assert before[..n] == events[..n];
      FreshPrefix(issuer, events, |events| - 1);
      NothingAfterKill(issuer, before, n);
      AlwaysGood(issuer, before);
      KilledStep(After(issuer, before), issuer, events[|events| - 1]);
    }
  }

  /** How an aborted call stands: in flight with this reason, or ended with it, unless the provider had thrown. */
  ghost predicate StandsAborted(w: World, k: nat, reason: AbortReason, threw: bool) {
    && k < w.s.calls
    && if k in w.s.active
       then w.s.active[k].abortReason == Some(reason) && (w.s.active[k].race.ProviderThrew? <==> threw)
       else k in w.finished && w.finished[k] == if threw then Failed(Some(ProviderFailed)) else Aborted(reason)
  }

  lemma InFlightStandsAborted(w: World, issuer: string, event: Event, k: nat)
    requires Good(w, issuer)
    requires k in w.s.active && w.s.active[k].abortReason.Some?
    ensures StandsAborted(Next(w, issuer, event), k, w.s.active[k].abortReason.value,
                          w.s.active[k].race.ProviderThrew?)
  {
    hide Good, Step, Refusal, AfterReserve, Genuine, Authenticated;
    HoldingOf(w, issuer, k);
    assert !w.s.active[k].race.Pending? && k < w.s.calls;
    hide Holding;
    match event {
      case Resume(call, completedAt, outputValid, bytes) =>
        hide AfterResume, Settled, AfterBegin;
        if call in w.s.active && !w.s.active[call].race.Pending? {
          ResumeSettlesOnce(w, issuer, call, completedAt, outputValid, bytes);
        }
      case _ =>
    }
  }

  lemma EndedStaysEnded(w: World, issuer: string, event: Event, k: nat)
    requires Good(w, issuer)
    requires k < w.s.calls && k !in w.s.active && k in w.finished
    ensures var v := Next(w, issuer, event);
            k < v.s.calls && k !in v.s.active && k in v.finished && v.finished[k] == w.finished[k]
  {
    hide Good, Step, Refusal, AfterReserve, Genuine, Authenticated;
    match event {
      case Resume(call, completedAt, outputValid, bytes) =>
        hide AfterResume, AfterBegin;
        if call in w.s.active && !w.s.active[call].race.Pending? {
          ResumeSettlesOnce(w, issuer, call, completedAt, outputValid, bytes);
        }
      case _ =>
    }
  }

  /**
   The first abort reason of a call in flight stays through every continuation, and is the one the call ends with and
   stays ended with, unless the provider had thrown before.
   */
  lemma {:induction false} FirstAbortReasonStays(issuer: string, events: seq<Event>, n: nat, k: nat)
    requires FreshEvents(issuer, events) && n <= |events|
    requires var w := After(issuer, events[..n]); k in w.s.active && w.s.active[k].abortReason.Some?
    ensures var c := After(issuer, events[..n]).s.active[k];
            StandsAborted(After(issuer, events), k, c.abortReason.value, c.race.ProviderThrew?)
    decreases |events|
  {
    hide Next, Fresh, Good;
    var c := After(issuer, events[..n]).s.active[k];
    if n == |events| {
      assert events[..n] == events;
      AlwaysGood(issuer, events);
      InFlightIsNumbered(After(issuer, events), issuer, k);
    } else {
      var before := events[..|events| - 1];
      assert before[..n] == events[..n];
      FreshPrefix(issuer, events, |events| - 1);
      FirstAbortReasonStays(issuer, before, n, k);
      AlwaysGood(issuer, before);
      if k in After(issuer, before).s.active {
        InFlightStandsAborted(After(issuer, before), issuer, events[|events| - 1], k);
      } else {
        EndedStaysEnded(After(issuer, before), issuer, events[|events| - 1], k);
      }
    }
  }

  lemma InFlightIsNumbered(w: World, issuer: string, k: nat)
    requires Good(w, issuer) && k in w.s.active
    ensures k < w.s.calls
  {
    HoldingOf(w, issuer, k);
  }
}
