/**
 When the gateway lets a call begin and when it returns the output, said of the
 request, the stored grant and the moment alone, in every interleaving.
 */
module GatewayRules {
  import opened Base
  import opened RunGrants
  import opened RunGrantRules
  import opened Gateway
  import opened GatewayRuns

  /** The stored record has the token of the handle, and is active and unexpired at this time. */
  ghost predicate Valid(l: Ledger, issuer: string, h: Handle, now: int) {
    && (issuer, h.id) in l.records
    && var g := l.records[(issuer, h.id)];
    && g.terms.token == h.token && g.state == Active && now < g.terms.expiresAt
  }

  /** A read-only tool that the grant lists, of the very inventory it was given for, with the consent it needs. */
  ghost predicate Grants(terms: Terms, request: CallRequest) {
    var inventory := request.inventory;
    && inventory.valid && inventory.providerId == terms.providerId && inventory.digest == terms.inventoryDigest
    && request.toolId in terms.toolIds && request.toolId in inventory.tools
    && var tool := inventory.tools[request.toolId];
    && tool.readOnly && (tool.exposesProjectContent ==> request.consentGiven)
    && request.inputValid
  }

  /** A call and some bytes of the response quota are left. */
  ghost predicate HasRoom(g: Grant) {
    && g.callsUsed + g.reservedCalls < g.terms.maxCalls
    && 0 < g.terms.maxTotalResponseBytes - g.responseBytesUsed - g.reservedResponseBytes <= LIMIT
    && -LIMIT <= g.revision <= LIMIT
  }

  ghost predicate Admits(s: GatewayState, issuer: string, request: CallRequest, startedAt: int) {
    && !s.killed && !request.signalAborted
    && (request.deadline == NoDeadline || (request.deadline.At? && startedAt < request.deadline.time))
    && Valid(s.ledger, issuer, request.grant, startedAt)
    && Grants(s.ledger.records[(issuer, request.grant.id)].terms, request)
    && HasRoom(s.ledger.records[(issuer, request.grant.id)])
  }

  /** A call begins if and only if everything is in order, and then holds a reservation; else nothing changes. */
  lemma BeginsExactly(s: GatewayState, issuer: string, request: CallRequest, startedAt: int, uuid: string)
    ensures var (t, ended) := AfterBegin(s, issuer, request, startedAt, uuid);
            && (ended.None? <==> Admits(s, issuer, request, startedAt))
            && t.killed == s.killed && t.calls == s.calls + 1
            && (ended.Some? ==>
                  && t.ledger == s.ledger && t.active == s.active && !ended.value.Returned?
                  && (t.audit == s.audit || exists code :: t.audit == s.audit + [AuditEntry(code, s.calls)]))
            && (ended.None? ==>
                  && t.audit == s.audit
                  && t.active == s.active[s.calls := t.active[s.calls]]
                  && var c := t.active[s.calls];
                  && c.grant == request.grant && c.abortReason == None && c.race == Pending
                  && c.reservation.id == uuid && c.reservation.issuerId == issuer
                  && c.reservation.grantId == request.grant.id
                  && t.ledger.reservations == s.ledger.reservations[uuid := c.reservation])
  {
    var key := (issuer, request.grant.id);
    if key in s.ledger.records {
      var g := s.ledger.records[key];
      ReservesExactly(s.ledger, key, g.revision, startedAt, uuid);
      if Step(s.ledger, Reserve(key, g.revision, startedAt, uuid)).1 != Refused {
        ReservesWhat(s.ledger, key, g.revision, startedAt, uuid);
      }
    }
    hide AfterReserve;
  }

  /** The request of call k was in order at the moment it began. */
  ghost predicate BeganAt(issuer: string, events: seq<Event>, n: nat, k: nat) {
    && n < |events| && events[n].Begin?
    && var s := After(issuer, events[..n]).s;
    s.calls == k && Admits(s, issuer, events[n].request, events[n].startedAt)
  }

  ghost predicate InFlightOrReturned(w: World, k: nat) {
    k in w.s.active || (k in w.finished && w.finished[k].Returned?)
  }

  lemma GiveUpReturnsNothing(s: GatewayState, issuer: string, k: nat, result: CallResult, code: Option<Code>)
    requires k in s.active && !result.Returned?
    ensures !GiveUp(s, issuer, k, result, code).1.Returned?
    ensures GiveUp(s, issuer, k, result, code).0.active.Keys == s.active.Keys - {k}
  {
    hide AfterRelease;
  }

  lemma ResumeEnds(s: GatewayState, issuer: string, k: nat, completedAt: int, outputValid: bool, bytes: Option<int>)
    requires k in s.active && !s.active[k].race.Pending?
    ensures AfterResume(s, issuer, k, completedAt, outputValid, bytes).0.active.Keys == s.active.Keys - {k}
  {
    hide AfterRelease, AfterCommit, GiveUp;
    forall result: CallResult, code | !result.Returned?
      ensures GiveUp(s, issuer, k, result, code).0.active.Keys == s.active.Keys - {k}
    {
      GiveUpReturnsNothing(s, issuer, k, result, code);
    }
  }

  /** A call is new only by a request that is in order. */
  lemma NewCallIsAdmitted(w: World, issuer: string, event: Event, k: nat)
    requires InFlightOrReturned(Next(w, issuer, event), k) && !InFlightOrReturned(w, k)
    ensures event.Begin? && k == w.s.calls && Admits(w.s, issuer, event.request, event.startedAt)
  {
    hide AfterBegin, AfterResume, Admits, Step;
    match event {
      case Begin(request, startedAt, uuid) =>
        BeginsExactly(w.s, issuer, request, startedAt, uuid);
        var (t, ended) := AfterBegin(w.s, issuer, request, startedAt, uuid);
        assert Next(w, issuer, event).s == t;
      case Resume(call, completedAt, outputValid, bytes) =>
        if call in w.s.active && !w.s.active[call].race.Pending? {
          ResumeEnds(w.s, issuer, call, completedAt, outputValid, bytes);
        }
      case _ =>
    }
  }

  /** In every interleaving each call in flight, and each that has returned output, began with everything in order. */
  lemma {:induction false} EveryCallBeganSo(issuer: string, events: seq<Event>, k: nat) returns (n: nat)
    requires InFlightOrReturned(After(issuer, events), k)
    ensures BeganAt(issuer, events, n, k)
  {
    hide Next, Admits;
    var before, last := events[..|events| - 1], events[|events| - 1];
    if InFlightOrReturned(After(issuer, before), k) {
      n := EveryCallBeganSo(issuer, before, k);
      assert before[..n] == events[..n];
    } else {
      NewCallIsAdmitted(After(issuer, before), issuer, last, k);
      n := |before|;
    }
  }

  lemma ReturnsWhen(s: GatewayState, issuer: string, k: nat, completedAt: int, outputValid: bool, bytes: Option<int>)
    requires k in s.active && !s.active[k].race.Pending?
    ensures var c := s.active[k];
            var result := AfterResume(s, issuer, k, completedAt, outputValid, bytes).1;
            && (result.Returned? <==>
                  && c.race.ProviderGave? && c.abortReason == None && !s.killed
                  && Valid(s.ledger, issuer, c.grant, completedAt)
                  && outputValid && bytes.Some?
                  && Step(s.ledger, Commit(c.reservation, bytes.value, completedAt)).1 != Refused)
            && (result.Returned? ==> result.output == c.race.output)
  {
    var c := s.active[k];
    match c.race {
      case AbortWon(reason) =>
        GiveUpReturnsNothing(s, issuer, k, Aborted(reason), Some(AbortCode(reason)));
      case ProviderThrew =>
        GiveUpReturnsNothing(s, issuer, k, Failed(Some(ProviderFailed)), Some(ProviderFailed));
      case ProviderGave(_) =>
        var reason := if c.abortReason.Some? then c.abortReason.value else KillSwitch;
        GiveUpReturnsNothing(s, issuer, k, Aborted(reason), Some(AbortCode(reason)));
        GiveUpReturnsNothing(s, issuer, k, Failed(Some(AuthorizationChanged)), Some(AuthorizationChanged));
        GiveUpReturnsNothing(s, issuer, k, Failed(Some(OutputSchemaFailed)), Some(OutputSchemaFailed));
        GiveUpReturnsNothing(s, issuer, k, Failed(None), None);
    }
    hide AfterRelease, AfterCommit, GiveUp;
  }

  /**
   Output is returned if and only if the provider gave it, nobody aborted the call, the gateway was not killed, the
   grant is still valid, the output fits its schema, and its size fits the reservation.
   */
  lemma ReturnsExactly(w: World, issuer: string, k: nat, completedAt: int, outputValid: bool, bytes: Option<int>)
    requires Good(w, issuer) && k in w.s.active && !w.s.active[k].race.Pending?
    ensures var c := w.s.active[k];
            var result := AfterResume(w.s, issuer, k, completedAt, outputValid, bytes).1;
            && (result.Returned? <==>
                  && c.race.ProviderGave? && c.abortReason == None && !w.s.killed
                  && Valid(w.s.ledger, issuer, c.grant, completedAt)
                  && outputValid && bytes.Some? && 0 <= bytes.value <= c.reservation.maxResponseBytes)
            && (result.Returned? ==> result.output == c.race.output)
  {
    var s, c := w.s, w.s.active[k];
    hide Good, Sound, Step, AfterResume;
    HoldingOf(w, issuer, k);
    SoundOf(w, issuer);
    ReturnsWhen(s, issuer, k, completedAt, outputValid, bytes);
    if bytes.Some? { CommitsExactly(s.ledger, c.reservation, bytes.value, completedAt); }
  }

  /** t is s but for one call in flight. */
  ghost predicate OnlyCall(s: GatewayState, t: GatewayState, k: nat) {
    && t.killed == s.killed && t.ledger == s.ledger && t.audit == s.audit && t.calls == s.calls
    && t.active.Keys == s.active.Keys
    && forall j :: j in s.active && j != k ==> t.active[j] == s.active[j]
  }

  /** The call is aborted: its first reason stays, and its race is settled, by the abort if it was open. */
  ghost predicate AbortedOnce(c: ActiveCall, d: ActiveCall, reason: AbortReason) {
    && d.grant == c.grant && d.reservation == c.reservation
    && d.abortReason == Some(if c.abortReason == None then reason else c.abortReason.value)
    && (c.abortReason == None && c.race.Pending? ==> d.race == AbortWon(reason))
    && (c.abortReason != None || !c.race.Pending? ==> d.race == c.race)
  }

  lemma AbortsExactly(s: GatewayState, k: nat, reason: AbortReason)
    requires k in s.active
    ensures OnlyCall(s, AfterAbort(s, k, reason), k)
    ensures AbortedOnce(s.active[k], AfterAbort(s, k, reason).active[k], reason)
  {
  }

  /** Kill aborts every call in flight. */
  lemma KillsExactly(s: GatewayState)
    ensures var t := AfterKill(s);
            && t.killed && t.ledger == s.ledger && t.audit == s.audit && t.active.Keys == s.active.Keys
            && forall j :: j in s.active ==> AbortedOnce(s.active[j], t.active[j], KillSwitch)
  {
  }

  /** What the provider gives or throws counts only while the race is open. */
  lemma SettlesExactly(s: GatewayState, k: nat, race: Race)
    requires k in s.active
    ensures OnlyCall(s, AfterSettle(s, k, race), k)
    ensures AfterSettle(s, k, race).active[k]
         == s.active[k].(race := if s.active[k].race == Pending then race else s.active[k].race)
  {
  }
}
