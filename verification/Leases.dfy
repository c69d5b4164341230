/**
  * Leases between a caller and a receiver that share one clock. A run is any list of steps: time passes, messages are
  * sent, delivered late, more than once or never, and either side expires what its own clock says has run out.
  */
module Leases {
  type Id = nat

  /** The caller's view of a binding. `arrived` is when the bind reply came, `confirmed` whether `Bind` has returned. */
  datatype Outbound = Outbound(expires: nat, arrived: nat, confirmed: bool)

  datatype Operation = Operation(binding: Id, sentAt: nat)

  /** A renewal and its acknowledgement both carry the time the renewal was sent. */
  datatype Renewal = Renewal(bindings: set<Id>, operations: set<Id>, sentAt: nat)

  datatype State = State(
    now: nat,
    // caller
    outbound: map<Id, Outbound>, outOps: map<Id, nat>,
    // receiver
    inbound: map<Id, nat>, inOps: map<Id, nat>,
    // messages on their way, and every request that was ever sent
    offered: set<Id>, renewals: set<Renewal>, acks: set<Renewal>, requests: map<Id, Operation>,
    // what the receiver has let go: by request, by time, and operations because their binding went by time
    closed: set<Id>, expired: set<Id>, received: set<Id>, finished: set<Id>, lapsed: set<Id>, orphaned: set<Id>)

  datatype Step =
    | Tick(time: nat)
    | GrantBinding(id: Id)
    | TakeBinding(id: Id)
    | SendRenewal(bindings: set<Id>, operations: set<Id>)
    | ReceiveRenewal(m: Renewal)
    | ReceiveAck(m: Renewal)
    | ConfirmBinding(id: Id, m: Renewal)
    | SendRequest(id: Id, binding: Id)
    | CompleteWrite(id: Id)
    | ReceiveRequest(id: Id)
    | FinishOperation(id: Id)
    | CloseBinding(id: Id)
    | ExpireBinding(id: Id)
    | ExpireOperation(id: Id)
    | ForgetBinding(id: Id)
    | ForgetOperation(id: Id)

  function Initial(): State {
    State(0, map[], map[], map[], map[], {}, {}, {}, map[], {}, {}, {}, {}, {}, {})
  }

  predicate BindingLive(s: State, id: Id) {
    id in s.outbound && s.now < s.outbound[id].expires
  }

  predicate OperationLive(s: State, id: Id) {
    id in s.outOps && s.now < s.outOps[id]
  }

  /** `collectLeaseTargets`: only what the caller still considers live is renewed. */
  function LiveBindings(s: State, ids: set<Id>): set<Id> {
    set id | id in ids && BindingLive(s, id)
  }

  function LiveOperations(s: State, ids: set<Id>): set<Id> {
    set id | id in ids && OperationLive(s, id)
  }

  function Later(a: nat, b: nat): nat {
    if a < b then b else a
  }

  /** The receiver's answer to a renewal: what is still held there is extended from now. */
  function Held(s: State, ids: set<Id>, leases: map<Id, nat>): set<Id> {
    set id | id in ids && id in leases && s.now < leases[id]
  }

  function Extended(s: State, ids: set<Id>, leases: map<Id, nat>, ttl: nat): map<Id, nat> {
    map id | id in leases :: if id in ids && s.now < leases[id] then s.now + ttl else leases[id]
  }

  /** The caller extends what it still considers live, and never backwards. */
  function Renewed(s: State, ids: set<Id>, sentAt: nat, ttl: nat): map<Id, Outbound> {
    map id | id in s.outbound ::
      if id in ids && s.now < s.outbound[id].expires then s.outbound[id].(expires :=
        Later(s.outbound[id].expires, sentAt + ttl))
      else s.outbound[id]
  }

  function RenewedOps(s: State, ids: set<Id>, sentAt: nat, ttl: nat): map<Id, nat> {
    map id | id in s.outOps ::
      if id in ids && s.now < s.outOps[id] then Later(s.outOps[id], sentAt + ttl) else s.outOps[id]
  }

  /** Operations of a binding that the receiver cancels with it. */
  function OrphansOf(s: State, binding: Id): set<Id> {
    set id | id in s.inOps && id in s.requests && s.requests[id].binding == binding
  }

  /** One step; a step that is not possible changes nothing. */
  function Apply(s: State, step: Step, ttl: nat): State {
    match step
    case Tick(time) => if time < s.now then s else s.(now := time)
    case GrantBinding(id) =>
      if id in s.inbound || id in s.offered || id in s.closed || id in s.expired then s
      else s.(inbound := s.inbound[id := s.now + ttl], offered := s.offered + {id})
    case TakeBinding(id) =>
      if id !in s.offered || id in s.outbound then s
      else s.(outbound := s.outbound[id := Outbound(s.now + ttl, s.now, false)])
    case SendRenewal(bindings, operations) =>
      s.(renewals := s.renewals + {Renewal(LiveBindings(s, bindings), LiveOperations(s, operations), s.now)})
    case ReceiveRenewal(m) =>
      if m !in s.renewals then s
      else
        s.(inbound := Extended(s, m.bindings, s.inbound, ttl), inOps := Extended(s, m.operations, s.inOps, ttl),
           acks := s.acks + {Renewal(Held(s, m.bindings, s.inbound), Held(s, m.operations, s.inOps), m.sentAt)})
    case ReceiveAck(m) =>
      if m !in s.acks || m.sentAt + ttl <= s.now then s
      else s.(outbound := Renewed(s, m.bindings, m.sentAt, ttl), outOps := RenewedOps(s, m.operations, m.sentAt, ttl))
    case ConfirmBinding(id, m) =>
      if m !in s.acks || m.sentAt + ttl <= s.now || id !in m.bindings || !BindingLive(s, id)
        || m.sentAt < s.outbound[id].arrived then s
      else
        var after := Renewed(s, m.bindings, m.sentAt, ttl);
        s.(outbound := after[id := after[id].(confirmed := true)], outOps := RenewedOps(s, m.operations, m.sentAt, ttl))
    case SendRequest(id, binding) =>
      if id in s.requests then s else s.(requests := s.requests[id := Operation(binding, s.now)])
    case CompleteWrite(id) =>
      if id !in s.requests || id in s.outOps then s else s.(outOps := s.outOps[id := s.requests[id].sentAt + ttl])
    case ReceiveRequest(id) =>
      if id !in s.requests || id in s.received then s
      else s.(received := s.received + {id}, inOps := s.inOps[id := s.now + ttl])
    case FinishOperation(id) =>
      if id !in s.inOps then s else s.(inOps := s.inOps - {id}, finished := s.finished + {id})
    case CloseBinding(id) =>
      if id !in s.inbound then s else s.(inbound := s.inbound - {id}, closed := s.closed + {id})
    case ExpireBinding(id) =>
      if id !in s.inbound || s.now < s.inbound[id] then s
      else s.(inbound := s.inbound - {id}, expired := s.expired + {id}, inOps := s.inOps - OrphansOf(s, id), orphaned :=
        s.orphaned + OrphansOf(s, id))
    case ExpireOperation(id) =>
      if id !in s.inOps || s.now < s.inOps[id] then s
      else s.(inOps := s.inOps - {id}, lapsed := s.lapsed + {id})
    case ForgetBinding(id) =>
      if id !in s.outbound || s.now < s.outbound[id].expires then s else s.(outbound := s.outbound - {id})
    case ForgetOperation(id) =>
      if id !in s.outOps || s.now < s.outOps[id] then s else s.(outOps := s.outOps - {id})
  }

  function Run(steps: seq<Step>, ttl: nat): State {
    if steps == [] then Initial() else Apply(Run(steps[..|steps| - 1], ttl), steps[|steps| - 1], ttl)
  }

  // ----- what every step keeps -----

  /**
    * The receiver still holds the binding for as long as the caller counts on, or has been asked to close it, or the
    * time is over.
    */
  predicate Backed(s: State, id: Id, x: nat) {
    (id in s.inbound && x <= s.inbound[id]) || id in s.closed || x <= s.now
  }

  /** The same for an operation; a request still on its way is backed by its send time. */
  predicate BackedOp(s: State, id: Id, x: nat, ttl: nat) {
    || (id !in s.received && id in s.requests && x <= s.requests[id].sentAt + ttl)
    || (id in s.inOps && x <= s.inOps[id])
    || id in s.finished || id in s.orphaned || x <= s.now
  }

  /** No lease ends later than a full term from now, and no message is from the future. */
  ghost predicate Timely(s: State, ttl: nat) {
    && (forall id | id in s.inbound :: s.inbound[id] <= s.now + ttl)
    && (forall id | id in s.inOps :: s.inOps[id] <= s.now + ttl)
    && (forall id | id in s.requests :: s.requests[id].sentAt <= s.now)
    && (forall m | m in s.renewals :: m.sentAt <= s.now)
    && (forall m | m in s.acks :: m.sentAt <= s.now)
    && (forall id | id in s.outbound :: s.outbound[id].arrived <= s.now)
  }

  /** How the receiver let go of things. */
  ghost predicate Recorded(s: State) {
    && s.closed !! s.expired && s.closed !! s.inbound.Keys && s.expired !! s.inbound.Keys
    && s.finished !! s.lapsed && s.finished !! s.orphaned && s.lapsed !! s.orphaned
    && s.inOps.Keys !! s.finished && s.inOps.Keys !! s.lapsed && s.inOps.Keys !! s.orphaned
    && s.inOps.Keys + s.finished + s.lapsed + s.orphaned == s.received <= s.requests.Keys
    && s.inbound.Keys + s.closed + s.expired <= s.offered
    && (forall id | id in s.orphaned :: id in s.requests && s.requests[id].binding in s.expired)
  }

  ghost predicate AcksBacked(s: State, ttl: nat) {
    && (forall m, id | m in s.acks && id in m.bindings :: Backed(s, id, m.sentAt + ttl))
    && (forall m, id | m in s.acks && id in m.operations :: BackedOp(s, id, m.sentAt + ttl, ttl))
  }

  ghost predicate CallerBacked(s: State, ttl: nat) {
    && (forall id | id in s.outbound ::
          Backed(s, id, s.outbound[id].expires)
            || (!s.outbound[id].confirmed && s.outbound[id].expires <= s.outbound[id].arrived + ttl))
    && (forall id | id in s.outOps :: BackedOp(s, id, s.outOps[id], ttl))
  }

  /** Every request is backed for a full term from the moment it was sent. */
  ghost predicate RequestsBacked(s: State, ttl: nat) {
    forall id | id in s.requests :: BackedOp(s, id, s.requests[id].sentAt + ttl, ttl)
  }

  ghost predicate Inv(s: State, ttl: nat) {
    Timely(s, ttl) && Recorded(s) && AcksBacked(s, ttl) && CallerBacked(s, ttl) && RequestsBacked(s, ttl)
  }

  /** Nothing the receiver holds gets shorter except by time, by request or with its binding. */
  ghost predicate Grows(s: State, t: State, ttl: nat) {
    && s.now <= t.now && s.closed <= t.closed && s.finished <= t.finished && s.orphaned <= t.orphaned
    && (forall id | id in s.inbound :: Backed(t, id, s.inbound[id]))
    && (forall id | id in s.inOps :: BackedOp(t, id, s.inOps[id], ttl))
    && (forall id | id in s.requests :: id in t.requests && t.requests[id] == s.requests[id])
    && (forall id | id in s.requests && id !in s.received :: BackedOp(t, id, s.requests[id].sentAt + ttl, ttl))
  }

  lemma BackedGrows(s: State, t: State, id: Id, x: nat, ttl: nat)
    requires Grows(s, t, ttl)
    ensures Backed(s, id, x) ==> Backed(t, id, x)
  {
  }

  lemma BackedOpGrows(s: State, t: State, id: Id, x: nat, ttl: nat)
    requires Grows(s, t, ttl)
    ensures BackedOp(s, id, x, ttl) ==> BackedOp(t, id, x, ttl)
  {
  }

  lemma StepGrowsHistory(s: State, step: Step, ttl: nat)
    ensures var t := Apply(s, step, ttl);
            && s.now <= t.now && s.closed <= t.closed && s.finished <= t.finished && s.orphaned <= t.orphaned
            && (forall id | id in s.requests :: id in t.requests && t.requests[id] == s.requests[id])
  {
    hide Renewed, RenewedOps, Held, Extended, OrphansOf, LiveBindings, LiveOperations, BindingLive;
  }

  lemma StepGrowsBindings(s: State, step: Step, ttl: nat)
    requires Timely(s, ttl)
    ensures var t := Apply(s, step, ttl); forall id | id in s.inbound :: Backed(t, id, s.inbound[id])
  {
    hide Renewed, RenewedOps, Held, OrphansOf, LiveBindings, LiveOperations, BindingLive;
  }

  lemma StepGrowsOps(s: State, step: Step, ttl: nat)
    requires Timely(s, ttl)
    ensures var t := Apply(s, step, ttl);
            && (forall id | id in s.inOps :: BackedOp(t, id, s.inOps[id], ttl))
            && (forall id | id in s.requests && id !in s.received :: BackedOp(t, id, s.requests[id].sentAt + ttl, ttl))
  {
    hide Renewed, RenewedOps, Held;
  }

  lemma StepGrows(s: State, step: Step, ttl: nat)
    requires Timely(s, ttl)
    ensures Grows(s, Apply(s, step, ttl), ttl)
  {
    StepGrowsHistory(s, step, ttl);
    StepGrowsBindings(s, step, ttl);
    StepGrowsOps(s, step, ttl);
    hide Apply;
  }

  lemma StepTimely(s: State, step: Step, ttl: nat)
    requires Timely(s, ttl)
    ensures Timely(Apply(s, step, ttl), ttl)
  {
  }

  lemma StepRecorded(s: State, step: Step, ttl: nat)
    requires Recorded(s)
    ensures Recorded(Apply(s, step, ttl))
  {
  }

  /** Only a delivered renewal makes a new acknowledgement, and what it lists has just been extended. */
  lemma StepAcksBacked(s: State, step: Step, ttl: nat)
    requires Inv(s, ttl)
    ensures AcksBacked(Apply(s, step, ttl), ttl)
  {
    var t := Apply(s, step, ttl);
    StepGrows(s, step, ttl);
    hide Apply, Grows;
    forall m, id | m in t.acks && id in m.bindings
      ensures Backed(t, id, m.sentAt + ttl)
    {
      BackedGrows(s, t, id, m.sentAt + ttl, ttl);
      if m !in s.acks {
        NewAck(s, step, ttl, m);
      }
    }
    forall m, id | m in t.acks && id in m.operations
      ensures BackedOp(t, id, m.sentAt + ttl, ttl)
    {
      BackedOpGrows(s, t, id, m.sentAt + ttl, ttl);
      if m !in s.acks {
        NewAck(s, step, ttl, m);
      }
    }
  }

  lemma NewAck(s: State, step: Step, ttl: nat, m: Renewal)
    requires Timely(s, ttl) && m in Apply(s, step, ttl).acks && m !in s.acks
    ensures var t := Apply(s, step, ttl);
            && (forall id | id in m.bindings :: id in t.inbound && m.sentAt + ttl <= t.inbound[id])
            && (forall id | id in m.operations :: id in t.inOps && m.sentAt + ttl <= t.inOps[id])
  {
    hide Renewed, RenewedOps, OrphansOf;
  }

  predicate OutboundOk(s: State, id: Id, o: Outbound, ttl: nat) {
    Backed(s, id, o.expires) || (!o.confirmed && o.expires <= o.arrived + ttl)
  }

  /** A renewed binding is backed by the acknowledgement, a confirmed one even if its reply was late. */
  lemma RenewedBacked(s: State, ttl: nat, id: Id, m: Renewal)
    requires Inv(s, ttl) && id in s.outbound && m in s.acks && id in m.bindings && s.now < m.sentAt + ttl
    ensures var e := Later(s.outbound[id].expires, m.sentAt + ttl);
            && OutboundOk(s, id, s.outbound[id].(expires := e), ttl)
            && (s.outbound[id].arrived <= m.sentAt ==> Backed(s, id, e))
  {
    assert Backed(s, id, m.sentAt + ttl);
  }

  /** Where a changed binding of the caller comes from. */
  lemma ChangedBinding(s: State, step: Step, ttl: nat, id: Id)
    requires id in Apply(s, step, ttl).outbound
    requires id !in s.outbound || Apply(s, step, ttl).outbound[id] != s.outbound[id]
    ensures var o := Apply(s, step, ttl).outbound[id];
            || (step == TakeBinding(id) && o == Outbound(s.now + ttl, s.now, false))
            || ((step.ReceiveAck? || step.ConfirmBinding?) && id in s.outbound && step.m in s.acks
              && s.now < step.m.sentAt + ttl && id in step.m.bindings
                && o.expires == Later(s.outbound[id].expires, step.m.sentAt + ttl)
                && o.arrived == s.outbound[id].arrived
                && (o.confirmed ==> s.outbound[id].confirmed || s.outbound[id].arrived <= step.m.sentAt))
  {
    hide Extended, Held, OrphansOf, RenewedOps;
  }

  lemma StepBindingsBacked(s: State, step: Step, ttl: nat, id: Id)
    requires Inv(s, ttl) && id in Apply(s, step, ttl).outbound
    ensures OutboundOk(Apply(s, step, ttl), id, Apply(s, step, ttl).outbound[id], ttl)
  {
    var t := Apply(s, step, ttl);
    StepGrows(s, step, ttl);
    BackedGrows(s, t, id, t.outbound[id].expires, ttl);
    if id !in s.outbound || t.outbound[id] != s.outbound[id] {
      ChangedBinding(s, step, ttl, id);
      if step.ReceiveAck? || step.ConfirmBinding? {
        RenewedBacked(s, ttl, id, step.m);
        if s.outbound[id].confirmed {
          AckBackedExactly(s, ttl, id, step.m);
        }
      }
    }
    hide Apply;
  }

  /** A binding confirmed before stays backed when it is renewed. */
  lemma AckBackedExactly(s: State, ttl: nat, id: Id, m: Renewal)
    requires Inv(s, ttl) && id in s.outbound && s.outbound[id].confirmed && m in s.acks && id in m.bindings
    ensures Backed(s, id, Later(s.outbound[id].expires, m.sentAt + ttl))
  {
    assert Backed(s, id, m.sentAt + ttl) && Backed(s, id, s.outbound[id].expires);
  }

  lemma ChangedOperation(s: State, step: Step, ttl: nat, id: Id)
    requires id in Apply(s, step, ttl).outOps && (id !in s.outOps || Apply(s, step, ttl).outOps[id] != s.outOps[id])
    ensures var x := Apply(s, step, ttl).outOps[id];
            || (step == CompleteWrite(id) && id in s.requests && x == s.requests[id].sentAt + ttl)
            || ((step.ReceiveAck? || step.ConfirmBinding?) && id in s.outOps && step.m in s.acks
              && id in step.m.operations
                && x == Later(s.outOps[id], step.m.sentAt + ttl))
  {
    hide Extended, Held, OrphansOf, Renewed;
  }

  lemma StepOperationsBacked(s: State, step: Step, ttl: nat, id: Id)
    requires Inv(s, ttl) && id in Apply(s, step, ttl).outOps
    ensures BackedOp(Apply(s, step, ttl), id, Apply(s, step, ttl).outOps[id], ttl)
  {
    var t := Apply(s, step, ttl);
    StepGrows(s, step, ttl);
    BackedOpGrows(s, t, id, t.outOps[id], ttl);
    if id !in s.outOps || t.outOps[id] != s.outOps[id] {
      ChangedOperation(s, step, ttl, id);
    }
    hide Apply;
  }

  lemma StepRequestsBacked(s: State, step: Step, ttl: nat, id: Id)
    requires Inv(s, ttl) && id in Apply(s, step, ttl).requests
    ensures BackedOp(Apply(s, step, ttl), id, Apply(s, step, ttl).requests[id].sentAt + ttl, ttl)
  {
    var t := Apply(s, step, ttl);
    StepGrows(s, step, ttl);
    if id in s.requests {
      BackedOpGrows(s, t, id, s.requests[id].sentAt + ttl, ttl);
      hide Apply;
    }
  }

  lemma StepInv(s: State, step: Step, ttl: nat)
    requires Inv(s, ttl)
    ensures Inv(Apply(s, step, ttl), ttl)
  {
    var t := Apply(s, step, ttl);
    StepTimely(s, step, ttl);
    StepRecorded(s, step, ttl);
    StepAcksBacked(s, step, ttl);
    hide Apply, Timely, Recorded, AcksBacked;
    forall id | id in t.outbound
      ensures OutboundOk(t, id, t.outbound[id], ttl)
    {
      StepBindingsBacked(s, step, ttl, id);
    }
    forall id | id in t.outOps
      ensures BackedOp(t, id, t.outOps[id], ttl)
    {
      StepOperationsBacked(s, step, ttl, id);
    }
    forall id | id in t.requests
      ensures BackedOp(t, id, t.requests[id].sentAt + ttl, ttl)
    {
      StepRequestsBacked(s, step, ttl, id);
    }
  }

  lemma {:induction false} RunInv(steps: seq<Step>, ttl: nat)
    ensures Inv(Run(steps, ttl), ttl)
  {
    if steps != [] {
      RunInv(steps[..|steps| - 1], ttl);
      StepInv(Run(steps[..|steps| - 1], ttl), steps[|steps| - 1], ttl);
    }
  }

  /**
    * Over every run: a binding the receiver has expired by time is no longer live at a caller whose `Bind` has
    * returned.
    */
  lemma BindingLeaseSafe(steps: seq<Step>, ttl: nat, id: Id)
    requires var s := Run(steps, ttl); id in s.expired && id in s.outbound && s.outbound[id].confirmed
    ensures !BindingLive(Run(steps, ttl), id)
  {
    RunInv(steps, ttl);
    hide Run;
  }

  /** Over every run: an operation whose own lease ran out at the receiver is no longer live at the caller. */
  lemma OperationLeaseSafe(steps: seq<Step>, ttl: nat, id: Id)
    requires id in Run(steps, ttl).lapsed
    ensures !OperationLive(Run(steps, ttl), id)
  {
    RunInv(steps, ttl);
    hide Run;
  }

  /** An operation the receiver cancels with its binding: the binding is not live at a caller that has confirmed it. */
  lemma OrphanedOperation(steps: seq<Step>, ttl: nat, id: Id)
    requires id in Run(steps, ttl).orphaned
    ensures var s := Run(steps, ttl); id in s.requests && s.requests[id].binding in s.expired
    ensures var s := Run(steps, ttl); var b := s.requests[id].binding;
      b in s.outbound && s.outbound[b].confirmed ==> !BindingLive(s, b)
  {
    RunInv(steps, ttl);
    hide Run;
  }

  /** So while operation and confirmed binding are both live at the caller, time alone takes neither from it. */
  lemma LiveNotExpired(steps: seq<Step>, ttl: nat, id: Id)
    requires var s := Run(steps, ttl);
      OperationLive(s, id) && id in s.requests && BindingLive(s, s.requests[id].binding)
        && s.outbound[s.requests[id].binding].confirmed
    ensures var s := Run(steps, ttl); id !in s.lapsed && id !in s.orphaned && s.requests[id].binding !in s.expired
  {
    RunInv(steps, ttl);
    hide Run;
  }

  /** A live operation that has arrived is taken by time if and only if it was cancelled with its binding. */
  lemma TakenIffOrphaned(steps: seq<Step>, ttl: nat, id: Id)
    requires OperationLive(Run(steps, ttl), id) && id in Run(steps, ttl).received
    ensures var s := Run(steps, ttl); id !in s.inOps && id !in s.finished <==> id in s.orphaned
  {
    RunInv(steps, ttl);
    hide Run;
  }

  /** The binding of the operation has run out at the receiver and has not been swept yet. */
  predicate ParentDue(s: State, id: Id) {
    id in s.requests && s.requests[id].binding in s.inbound && s.inbound[s.requests[id].binding] <= s.now
  }

  lemma SweepTakes(s: State, step: Step, ttl: nat, id: Id)
    requires id in s.inOps && id in s.requests && s.now < s.inOps[id]
    ensures var t := Apply(s, step, ttl);
            id !in t.inOps && id !in t.finished && id !in s.finished <==>
            step == ExpireBinding(s.requests[id].binding) && ParentDue(s, id) && id !in s.finished
  {
    hide Renewed, RenewedOps, Held, LiveBindings, LiveOperations, BindingLive;
  }

  /**
    * Over every run, the next step takes a live operation from the receiver by time if and only if it is the sweep of
    * the operation's own binding and that binding has run out: then the operation is cancelled while it is still
    * live.
    */
  lemma LiveTakenIff(steps: seq<Step>, step: Step, ttl: nat, id: Id)
    requires OperationLive(Run(steps, ttl), id) && id in Run(steps, ttl).inOps
    ensures var s, t := Run(steps, ttl), Run(steps + [step], ttl);
            && id in s.requests
            && (id !in t.inOps && id !in t.finished <==>
              step == ExpireBinding(s.requests[id].binding) && ParentDue(s, id))
            && (step == ExpireBinding(s.requests[id].binding) && ParentDue(s, id) ==>
              OperationLive(t, id) && id in t.orphaned)
  {
    RunInv(steps, ttl);
    Extend(steps, step, ttl);
    var s := Run(steps, ttl);
    hide Run;
    LiveHeld(s, ttl, id);
    SweepTakes(s, step, ttl, id);
    SweepOrphans(s, ttl, id);
    hide Apply;
  }

  /** The receiver holds an operation at least as long as the caller counts on it. */
  lemma LiveHeld(s: State, ttl: nat, id: Id)
    requires Inv(s, ttl) && OperationLive(s, id) && id in s.inOps
    ensures id in s.requests && s.now < s.inOps[id] && id !in s.finished
  {
  }

  lemma SweepOrphans(s: State, ttl: nat, id: Id)
    requires id in s.inOps && id in s.requests
    ensures var t := Apply(s, ExpireBinding(s.requests[id].binding), ttl);
            ParentDue(s, id) ==> id in t.orphaned && OperationLive(t, id) == OperationLive(s, id)
  {
  }

  // ----- an operation that outlives its binding -----

  lemma Extend(steps: seq<Step>, step: Step, ttl: nat)
    ensures Run(steps + [step], ttl) == Apply(Run(steps, ttl), step, ttl)
  {
    assert (steps + [step])[..|steps|] == steps;
  }

  function BindSteps(): seq<Step> {
    [GrantBinding(1), TakeBinding(1), SendRenewal({1}, {}), ReceiveRenewal(Renewal({1}, {}, 0)),
      ConfirmBinding(1, Renewal({1}, {}, 0))]
  }

  /** A binding granted, taken, renewed and confirmed, all at time zero with a term of ten. */
  function Bound(): State {
    Initial().(inbound := map[1 := 10], offered := {1}, outbound := map[1 := Outbound(10, 0, true)],
               renewals := {Renewal({1}, {}, 0)}, acks := {Renewal({1}, {}, 0)})
  }

  lemma TakenState()
    ensures var s := Initial().(inbound := map[1 := 10], offered := {1}, outbound := map[1 := Outbound(10, 0, false)]);
            Apply(Apply(Initial(), GrantBinding(1), 10), TakeBinding(1), 10) == s
  {
  }

  lemma RenewedState(s: State)
    requires s == Initial().(inbound := map[1 := 10], offered := {1}, outbound := map[1 := Outbound(10, 0, false)])
    ensures Apply(s, SendRenewal({1}, {}), 10) == s.(renewals := {Renewal({1}, {}, 0)})
  {
    assert LiveBindings(s, {1}) == {1} && LiveOperations(s, {}) == {};
  }

  lemma AckedState(s: State)
    requires s == Initial().(inbound := map[1 := 10], offered := {1}, outbound :=
      map[1 := Outbound(10, 0, false)], renewals := {Renewal({1}, {}, 0)})
    ensures Apply(s, ReceiveRenewal(Renewal({1}, {}, 0)), 10) == s.(acks := {Renewal({1}, {}, 0)})
  {
    assert Held(s, {1}, s.inbound) == {1} && Held(s, {}, s.inOps) == {};
    assert Extended(s, {1}, s.inbound, 10) == s.inbound && Extended(s, {}, s.inOps, 10) == s.inOps;
  }

  lemma ConfirmedState(s: State)
    requires s == Bound().(outbound := map[1 := Outbound(10, 0, false)])
    ensures Apply(s, ConfirmBinding(1, Renewal({1}, {}, 0)), 10) == Bound()
  {
    assert Renewed(s, {1}, 0, 10) == s.outbound && RenewedOps(s, {}, 0, 10) == s.outOps;
    assert s.outbound[1 := Outbound(10, 0, true)] == map[1 := Outbound(10, 0, true)];
  }

  lemma BindRun()
    ensures Run(BindSteps(), 10) == Bound()
  {
    var m := Renewal({1}, {}, 0);
    var a := [GrantBinding(1)];
    var b := a + [TakeBinding(1)];
    var c := b + [SendRenewal({1}, {})];
    var d := c + [ReceiveRenewal(m)];
    Extend([], GrantBinding(1), 10);
    assert [] + [GrantBinding(1)] == a;
    Extend(a, TakeBinding(1), 10);
    Extend(b, SendRenewal({1}, {}), 10);
    Extend(c, ReceiveRenewal(m), 10);
    Extend(d, ConfirmBinding(1, m), 10);
    assert BindSteps() == d + [ConfirmBinding(1, m)];
    assert Run([], 10) == Initial();
    hide Run, Apply;
    TakenState();
    RenewedState(Run(b, 10));
    AckedState(Run(c, 10));
    ConfirmedState(Run(d, 10));
  }

  function OutlivingSteps(): seq<Step> {
    BindSteps() + [Tick(5)] + [SendRequest(7, 1)] + [CompleteWrite(7)] + [ReceiveRequest(7)] + [Tick(10)] +
      [ExpireBinding(1)]
  }

  lemma OperationState()
    ensures Apply(Apply(Apply(Apply(Apply(Bound(), Tick(5), 10), SendRequest(7, 1), 10), CompleteWrite(7), 10),
      ReceiveRequest(7), 10), Tick(10), 10)
         == Bound().(now := 10, requests := map[7 := Operation(1, 5)], outOps := map[7 := 15], inOps :=
           map[7 := 15], received := {7})
  {
    assert Apply(Apply(Bound(), Tick(5), 10), SendRequest(7, 1), 10) ==
      Bound().(now := 5, requests := map[7 := Operation(1, 5)]);
  }

  lemma OrphanedState(s: State)
    requires s == Bound().(now := 10, requests := map[7 := Operation(1, 5)], outOps := map[7 := 15], inOps :=
      map[7 := 15], received := {7})
    ensures var t := Apply(s, ExpireBinding(1), 10);
            OperationLive(t, 7) && 7 in t.orphaned && 1 in t.outbound && t.outbound[1].confirmed
  {
    assert 7 in OrphansOf(s, 1);
  }

  /**
    * The own lease of an operation is not enough: here its binding runs out at both ends and takes the live operation
    * with it.
    */
  lemma OperationOutlivesBinding()
    ensures var s := Run(OutlivingSteps(), 10);
      OperationLive(s, 7) && 7 in s.orphaned && 1 in s.outbound && s.outbound[1].confirmed
  {
    BindRun();
    var a := BindSteps() + [Tick(5)];
    var b := a + [SendRequest(7, 1)];
    var c := b + [CompleteWrite(7)];
    var d := c + [ReceiveRequest(7)];
    var e := d + [Tick(10)];
    Extend(BindSteps(), Tick(5), 10);
    Extend(a, SendRequest(7, 1), 10);
    Extend(b, CompleteWrite(7), 10);
    Extend(c, ReceiveRequest(7), 10);
    Extend(d, Tick(10), 10);
    Extend(e, ExpireBinding(1), 10);
    hide Run, Apply;
    OperationState();
    OrphanedState(Run(e, 10));
  }
}
