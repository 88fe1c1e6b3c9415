/**
 The read-only tool gateway. A call runs without interruption up to its single
 await and from there to its end; between the two the provider settles, the
 caller or a deadline aborts, the gateway is killed, and the grant changes. A
 call holds one reservation of its grant from its start to its end.
 */
module Gateway {
  import opened Base
  import opened RunGrants

  datatype AbortReason = CallerCancelled | DeadlinePassed | KillSwitch

  datatype Code =
    | AbortCode(reason: AbortReason) | DeadlineInvalid | GrantDenied | InventoryInvalid | InventoryChanged | ToolDenied
    | ConsentDenied | InputSchemaFailed | OutputSchemaFailed | ToolCalled | AuthorizationChanged | ProviderFailed

  /** code was emitted by the call with this number, for this grant. */
  datatype AuditEntry = AuditEntry(code: Code, call: nat)

  datatype Handle = Handle(id: string, token: string)

  datatype Tool = Tool(readOnly: bool, exposesProjectContent: bool)

  datatype Inventory = Inventory(valid: bool, providerId: string, digest: nat, tools: map<string, Tool>)

  datatype Deadline = NoDeadline | Unreadable | At(time: int)

  /** The arguments of a call, with the answers of the consent store and of the input schema. */
  datatype CallRequest = CallRequest(
    grant: Handle,
    toolId: string,
    signalAborted: bool,
    deadline: Deadline,
    inventory: Inventory,
    consentGiven: bool,
    inputValid: bool)

  type Output = nat

  /** What the race between the provider and the abort has settled on. */
  datatype Race = Pending | ProviderGave(output: Output) | ProviderThrew | AbortWon(reason: AbortReason)

  datatype ActiveCall =
    ActiveCall(grant: Handle, reservation: Reservation, abortReason: Option<AbortReason>, race: Race)

  datatype GatewayState = GatewayState(
    ledger: Ledger,
    killed: bool,
    active: map<nat, ActiveCall>,
    calls: nat,
    audit: seq<AuditEntry>)

  /** How a call ends; an error without a code is one that no audit event reports. */
  datatype CallResult = Returned(output: Output) | Aborted(reason: AbortReason) | Failed(code: Option<Code>)

  // The grant store, for one issuer.

  function Authenticated(l: Ledger, issuer: string, h: Handle): Option<Grant> {
    var key := (issuer, h.id);
    if key in l.records && l.records[key].terms.token == h.token then Some(l.records[key]) else None
  }

  function Authorize(l: Ledger, issuer: string, h: Handle, now: int): Option<Grant> {
    var g := Authenticated(l, issuer, h);
    if g.Some? && CheckActive(g.value.state, g.value.terms.expiresAt, now).None? then g else None
  }

  /** The first refusal of a request before anything is reserved. */
  function Refusal(s: GatewayState, issuer: string, request: CallRequest, startedAt: int): Option<Code> {
    var g := Authorize(s.ledger, issuer, request.grant, startedAt);
    var inventory := request.inventory;
    if s.killed then Some(AbortCode(KillSwitch))
    else if request.signalAborted then Some(AbortCode(CallerCancelled))
    else if request.deadline.Unreadable? then Some(DeadlineInvalid)
    else if request.deadline.At? && request.deadline.time <= startedAt then Some(AbortCode(DeadlinePassed))
    else if g.None? then Some(GrantDenied)
    else if !inventory.valid then Some(InventoryInvalid)
    else if g.value.terms.providerId != inventory.providerId || g.value.terms.inventoryDigest != inventory.digest then
      Some(InventoryChanged)
    else if request.toolId !in inventory.tools || !inventory.tools[request.toolId].readOnly
            || request.toolId !in g.value.terms.toolIds then Some(ToolDenied)
    else if inventory.tools[request.toolId].exposesProjectContent && !request.consentGiven then Some(ConsentDenied)
    else if !request.inputValid then Some(InputSchemaFailed)
    else None
  }

  function ResultOf(code: Code): CallResult {
    if code.AbortCode? then Aborted(code.reason) else Failed(Some(code))
  }

  /** The synchronous start; None: the call is now waiting at its await. */
  function AfterBegin(s: GatewayState, issuer: string, request: CallRequest, startedAt: int, uuid: string):
    (GatewayState, Option<CallResult>)
  {
    var refusal := Refusal(s, issuer, request, startedAt);
    var t := s.(calls := s.calls + 1);
    if refusal.Some? then
      (t.(audit := s.audit + [AuditEntry(refusal.value, s.calls)]), Some(ResultOf(refusal.value)))
    else
      var g := Authorize(s.ledger, issuer, request.grant, startedAt).value;
      var (ledger, reply) := AfterReserve(s.ledger, (issuer, request.grant.id), g.revision, startedAt, uuid);
      if reply.Err? then (t, Some(Failed(None)))
      else
        (t.(ledger := ledger, active := s.active[s.calls := ActiveCall(request.grant, reply.value, None, Pending)]),
         None)
  }

  function AbortCall(c: ActiveCall, reason: AbortReason): ActiveCall {
    if c.abortReason.Some? then c
    else c.(abortReason := Some(reason), race := if c.race.Pending? then AbortWon(reason) else c.race)
  }

  function AfterKill(s: GatewayState): GatewayState {
    s.(killed := true, active := map k | k in s.active :: AbortCall(s.active[k], KillSwitch))
  }

  /** Once settled, the race stays settled. */
  function AfterSettle(s: GatewayState, k: nat, race: Race): GatewayState {
    if k in s.active && s.active[k].race.Pending? then s.(active := s.active[k := s.active[k].(race := race)]) else s
  }

  function AfterAbort(s: GatewayState, k: nat, reason: AbortReason): GatewayState {
    if k in s.active then s.(active := s.active[k := AbortCall(s.active[k], reason)]) else s
  }

  /** Gives the reservation of a call back, ends the call and reports the code, if there is one. */
  function GiveUp(s: GatewayState, issuer: string, k: nat, result: CallResult, code: Option<Code>):
    (GatewayState, CallResult)
    requires k in s.active
  {
    var c := s.active[k];
    var ended := s.(active := s.active - {k});
    if Authenticated(s.ledger, issuer, c.grant).None? then (ended, Failed(None))
    else
      var (ledger, reply) := AfterRelease(s.ledger, c.reservation.(issuerId := issuer, grantId := c.grant.id));
      if reply.Err? then (ended, Failed(None))
      else
        (ended.(ledger := ledger,
                audit := if code.Some? then s.audit + [AuditEntry(code.value, k)] else s.audit), result)
  }

  /**
   The continuation after the await. bytes is the size of the canonical output, None if it has no canonical form;
   outputValid is the answer of the output schema.
   */
  function AfterResume(s: GatewayState, issuer: string, k: nat, completedAt: int, outputValid: bool,
                       bytes: Option<int>):
    (GatewayState, CallResult)
    requires k in s.active && !s.active[k].race.Pending?
  {
    var c := s.active[k];
    match c.race
    case AbortWon(reason) => GiveUp(s, issuer, k, Aborted(reason), Some(AbortCode(reason)))
    case ProviderThrew => GiveUp(s, issuer, k, Failed(Some(ProviderFailed)), Some(ProviderFailed))
    case ProviderGave(output) =>
      if c.abortReason.Some? || s.killed then
        var reason := if c.abortReason.Some? then c.abortReason.value else KillSwitch;
        GiveUp(s, issuer, k, Aborted(reason), Some(AbortCode(reason)))
      else if Authorize(s.ledger, issuer, c.grant, completedAt).None? then
        GiveUp(s, issuer, k, Failed(Some(AuthorizationChanged)), Some(AuthorizationChanged))
      else if !outputValid then GiveUp(s, issuer, k, Failed(Some(OutputSchemaFailed)), Some(OutputSchemaFailed))
      else if bytes.None? then GiveUp(s, issuer, k, Failed(None), None)
      else
        var (ledger, reply) := AfterCommit(s.ledger, c.reservation, bytes.value, completedAt);
        if reply.Err? then GiveUp(s, issuer, k, Failed(None), None)
        else
          (s.(ledger := ledger, active := s.active - {k}, audit := s.audit + [AuditEntry(ToolCalled, k)]),
           Returned(output))
  }

  class ReadOnlyToolGateway {
    const issuer: string
    const grants: InMemoryRunGrantRepository
    var killed: bool
    var activeCalls: map<nat, ActiveCall>
    var calls: nat
    var auditEvents: seq<AuditEntry>

    function State(): GatewayState
      reads this, grants
    {
      GatewayState(grants.State(), killed, activeCalls, calls, auditEvents)
    }

    constructor (issuer: string, grants: InMemoryRunGrantRepository)
      ensures this.issuer == issuer && this.grants == grants
      ensures State() == GatewayState(grants.State(), false, map[], 0, [])
    {
      this.issuer, this.grants := issuer, grants;
      killed, activeCalls, calls, auditEvents := false, map[], 0, [];
    }

    method Event(code: Code, call: nat)
      modifies this`auditEvents
      ensures auditEvents == old(auditEvents) + [AuditEntry(code, call)]
    {
      auditEvents := auditEvents + [AuditEntry(code, call)];
    }

    /** Reports why a call is refused before anything is reserved. */
    method Refuse(code: Code, call: nat) returns (ended: Option<CallResult>)
      modifies this`auditEvents
      ensures auditEvents == old(auditEvents) + [AuditEntry(code, call)]
      ensures ended == Some(if code.AbortCode? then Aborted(code.reason) else Failed(Some(code)))
    {
      Event(code, call);
      ended := Some(if code.AbortCode? then Aborted(code.reason) else Failed(Some(code)));
    }

    method Begin(request: CallRequest, startedAt: int, uuid: string) returns (ended: Option<CallResult>)
      modifies this, grants
      ensures (State(), ended) == AfterBegin(old(State()), issuer, request, startedAt, uuid)
    {
      var call := calls;
      calls := calls + 1;
      if killed {
        ended := Refuse(AbortCode(KillSwitch), call);
        return;
      }
      if request.signalAborted {
        ended := Refuse(AbortCode(CallerCancelled), call);
        return;
      }
      if request.deadline.Unreadable? {
        ended := Refuse(DeadlineInvalid, call);
        return;
      }
      if request.deadline.At? && startedAt >= request.deadline.time {
        ended := Refuse(AbortCode(DeadlinePassed), call);
        return;
      }
      var key := (issuer, request.grant.id);
      if key !in grants.records || grants.records[key].terms.token != request.grant.token
         || !grants.records[key].state.Active? || startedAt >= grants.records[key].terms.expiresAt {
        ended := Refuse(GrantDenied, call);
        return;
      }
      var record := grants.records[key];
      var inventory := request.inventory;
      if !inventory.valid {
        ended := Refuse(InventoryInvalid, call);
        return;
      }
      if inventory.providerId != record.terms.providerId || inventory.digest != record.terms.inventoryDigest {
        ended := Refuse(InventoryChanged, call);
        return;
      }
      if request.toolId !in inventory.tools {
        ended := Refuse(ToolDenied, call);
        return;
      }
      var tool := inventory.tools[request.toolId];
      if !tool.readOnly || request.toolId !in record.terms.toolIds {
        ended := Refuse(ToolDenied, call);
        return;
      }
      if tool.exposesProjectContent && !request.consentGiven {
        ended := Refuse(ConsentDenied, call);
        return;
      }
      if !request.inputValid {
        ended := Refuse(InputSchemaFailed, call);
        return;
      }
      var reply := grants.ReserveCall(key, record.revision, startedAt, uuid);
      if reply.Err? {
        return Some(Failed(None));
      }
      activeCalls := activeCalls[call := ActiveCall(request.grant, reply.value, None, Pending)];
      ended := None;
    }

    /** Aborts every call in flight; a call that was aborted before keeps its reason. */
    method Kill()
      modifies this`killed, this`activeCalls
      ensures State() == AfterKill(old(State()))
    {
      killed := true;
      var rest := activeCalls.Keys;
      ghost var was := activeCalls;
      while rest != {}
        invariant killed && rest <= activeCalls.Keys == was.Keys
        invariant forall k :: k in was ==>
                    activeCalls[k] == if k in rest then was[k] else AbortCall(was[k], KillSwitch)
        decreases rest
      {
        var k :| k in rest;
        rest := rest - {k};
        activeCalls := activeCalls[k := AbortCall(activeCalls[k], KillSwitch)];
      }
      assert activeCalls == AfterKill(old(State())).active;
    }

    method Abort(k: nat, reason: AbortReason)
      modifies this
      ensures State() == AfterAbort(old(State()), k, reason)
    {
      if k in activeCalls {
        activeCalls := activeCalls[k := AbortCall(activeCalls[k], reason)];
      }
    }

    method Settle(k: nat, race: Race)
      modifies this
      ensures State() == AfterSettle(old(State()), k, race)
    {
      if k in activeCalls && activeCalls[k].race.Pending? {
        activeCalls := activeCalls[k := activeCalls[k].(race := race)];
      }
    }

    /** The catch and finally blocks of a call that did not commit. */
    method Release(k: nat, result: CallResult, code: Option<Code>) returns (ended: CallResult)
      requires k in activeCalls
      modifies this, grants
      ensures (State(), ended) == GiveUp(old(State()), issuer, k, result, code)
    {
      var c := activeCalls[k];
      activeCalls := activeCalls - {k};
      if Authenticated(grants.State(), issuer, c.grant).None? {
        return Failed(None);
      }
      var reply := grants.ReleaseCall(c.reservation.(issuerId := issuer, grantId := c.grant.id));
      if reply.Err? {
        return Failed(None);
      }
      if code.Some? {
        Event(code.value, k);
      }
      ended := result;
    }

    method Resume(k: nat, completedAt: int, outputValid: bool, bytes: Option<int>) returns (result: CallResult)
      requires k in activeCalls && !activeCalls[k].race.Pending?
      modifies this, grants
      ensures (State(), result) == AfterResume(old(State()), issuer, k, completedAt, outputValid, bytes)
    {
      var c := activeCalls[k];
      if c.race.AbortWon? {
        result := Release(k, Aborted(c.race.reason), Some(AbortCode(c.race.reason)));
        return;
      }
      if c.race.ProviderThrew? {
        result := Release(k, Failed(Some(ProviderFailed)), Some(ProviderFailed));
        return;
      }
      if c.abortReason.Some? || killed {
        var reason := if c.abortReason.Some? then c.abortReason.value else KillSwitch;
        result := Release(k, Aborted(reason), Some(AbortCode(reason)));
        return;
      }
      if Authorize(grants.State(), issuer, c.grant, completedAt).None? {
        result := Release(k, Failed(Some(AuthorizationChanged)), Some(AuthorizationChanged));
        return;
      }
      if !outputValid {
        result := Release(k, Failed(Some(OutputSchemaFailed)), Some(OutputSchemaFailed));
        return;
      }
      if bytes.None? {
        result := Release(k, Failed(None), None);
        return;
      }
      var reply := grants.CommitCall(c.reservation, bytes.value, completedAt);
      if reply.Err? {
        result := Release(k, Failed(None), None);
        return;
      }
      activeCalls := activeCalls - {k};
      Event(ToolCalled, k);
      result := Returned(c.race.output);
    }
  }
}
