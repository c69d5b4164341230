/**
  * What renewing is for: over every run of `Leases`, how long the caller and the receiver count on a binding or an
  * operation, by the steps that extended it, and that a caller whose renewals come back in time loses nothing.
  */
module LeaseRenewal {
  import opened Leases

  // ----- runs by their prefixes -----

  /** The state before step number `n`. */
  function Before(steps: seq<Step>, n: nat, ttl: nat): State
    requires n <= |steps|
  {
    Run(steps[..n], ttl)
  }

  lemma Whole(steps: seq<Step>, ttl: nat)
    ensures Before(steps, |steps|, ttl) == Run(steps, ttl)
  {
    assert steps[..|steps|] == steps;
  }

  lemma Next(steps: seq<Step>, n: nat, ttl: nat)
    requires n < |steps|
    ensures Before(steps, n + 1, ttl) == Apply(Before(steps, n, ttl), steps[n], ttl)
  {
    assert steps[..n + 1][..n] == steps[..n];
  }

  lemma {:induction false} TimePasses(steps: seq<Step>, n: nat, k: nat, ttl: nat)
    requires n <= k <= |steps|
    ensures Before(steps, n, ttl).now <= Before(steps, k, ttl).now
    decreases k
  {
    if n < k {
      TimePasses(steps, n, k - 1, ttl);
      Next(steps, k - 1, ttl);
      StepGrowsHistory(Before(steps, k - 1, ttl), steps[k - 1], ttl);
      hide Before, Apply;
    }
  }

  // ----- the caller -----

  /** The caller counts on the binding until `x` at least, and as long as that keeps it. */
  predicate Counts(s: State, id: Id, x: nat) {
    id in s.outbound && x <= s.outbound[id].expires
  }

  predicate CountsOp(s: State, id: Id, x: nat) {
    id in s.outOps && x <= s.outOps[id]
  }

  lemma StepCounts(s: State, step: Step, ttl: nat, id: Id, x: nat)
    ensures Counts(s, id, x) && s.now < x ==>
      Counts(Apply(s, step, ttl), id, x) && (s.outbound[id].confirmed ==> Apply(s, step, ttl).outbound[id].confirmed)
    ensures CountsOp(s, id, x) && s.now < x ==> CountsOp(Apply(s, step, ttl), id, x)
  {
    hide Held, Extended, OrphansOf, LiveBindings, LiveOperations;
  }

  lemma {:induction false} KeepsCounting(steps: seq<Step>, n: nat, k: nat, ttl: nat, id: Id, x: nat)
    requires n <= k <= |steps| && Before(steps, k, ttl).now < x
    ensures Counts(Before(steps, n, ttl), id, x) ==> Counts(Before(steps, k, ttl), id, x)
    ensures Counts(Before(steps, n, ttl), id, x) && Before(steps, n, ttl).outbound[id].confirmed ==>
      Before(steps, k, ttl).outbound[id].confirmed
    ensures CountsOp(Before(steps, n, ttl), id, x) ==> CountsOp(Before(steps, k, ttl), id, x)
    decreases k
  {
    if n < k {
      TimePasses(steps, k - 1, k, ttl);
      KeepsCounting(steps, n, k - 1, ttl, id, x);
      Next(steps, k - 1, ttl);
      StepCounts(Before(steps, k - 1, ttl), steps[k - 1], ttl, id, x);
      hide Before, Apply;
    }
  }

  /** The caller takes this acknowledgement: it was sent, and its term from the sending of the renewal is not over. */
  predicate Takes(s: State, step: Step, m: Renewal, ttl: nat) {
    && m in s.acks && s.now < m.sentAt + ttl
    && (step == ReceiveAck(m)
      || (step.ConfirmBinding? && step.m == m && step.id in m.bindings && BindingLive(s, step.id)
        && s.outbound[step.id].arrived <= m.sentAt))
  }

  /** The step gives the caller the binding until `x`: a bind reply, or an acknowledgement while it is still live. */
  ghost predicate Credits(s: State, step: Step, id: Id, x: nat, ttl: nat) {
    || (step == TakeBinding(id) && id in s.offered && id !in s.outbound && x == s.now + ttl)
    || (exists m :: Takes(s, step, m, ttl) && id in m.bindings && BindingLive(s, id) && x == m.sentAt + ttl)
  }

  ghost predicate CreditsOp(s: State, step: Step, id: Id, x: nat, ttl: nat) {
    || (step == CompleteWrite(id) && id in s.requests && id !in s.outOps && x == s.requests[id].sentAt + ttl)
    || (exists m :: Takes(s, step, m, ttl) && id in m.operations && OperationLive(s, id) && x == m.sentAt + ttl)
  }

  lemma CreditCounts(s: State, step: Step, ttl: nat, id: Id, x: nat)
    ensures Credits(s, step, id, x, ttl) ==> Counts(Apply(s, step, ttl), id, x)
    ensures CreditsOp(s, step, id, x, ttl) ==> CountsOp(Apply(s, step, ttl), id, x)
  {
    hide Held, Extended, OrphansOf, LiveBindings, LiveOperations;
  }

  /** What the caller counts on after a step it counted on before, or the step gave it. */
  lemma CountsFrom(s: State, step: Step, ttl: nat, id: Id)
    ensures var t := Apply(s, step, ttl);
      id in t.outbound ==>
        (id in s.outbound && s.outbound[id].expires == t.outbound[id].expires)
        || Credits(s, step, id, t.outbound[id].expires, ttl)
  {
    var t := Apply(s, step, ttl);
    if id in t.outbound && (id !in s.outbound || t.outbound[id] != s.outbound[id]) {
      ChangedBinding(s, step, ttl, id);
      if (step.ReceiveAck? || step.ConfirmBinding?) && t.outbound[id].expires != s.outbound[id].expires {
        assert Takes(s, step, step.m, ttl);
      }
    }
  }

  lemma CountsOpFrom(s: State, step: Step, ttl: nat, id: Id)
    ensures var t := Apply(s, step, ttl);
      id in t.outOps ==>
        (id in s.outOps && s.outOps[id] == t.outOps[id]) || CreditsOp(s, step, id, t.outOps[id], ttl)
  {
    var t := Apply(s, step, ttl);
    if id in t.outOps && (id !in s.outOps || t.outOps[id] != s.outOps[id]) {
      ChangedOperation(s, step, ttl, id);
      if step.ReceiveAck? || step.ConfirmBinding? {
        assert Takes(s, step, step.m, ttl);
      }
    }
  }

  /** Some step gave the caller the binding until after now. */
  ghost predicate Credited(steps: seq<Step>, ttl: nat, id: Id) {
    exists n: nat, x: nat ::
      n < |steps| && Credits(Before(steps, n, ttl), steps[n], id, x, ttl) && Run(steps, ttl).now < x
  }

  ghost predicate CreditedOp(steps: seq<Step>, ttl: nat, id: Id) {
    exists n: nat, x: nat ::
      n < |steps| && CreditsOp(Before(steps, n, ttl), steps[n], id, x, ttl) && Run(steps, ttl).now < x
  }

  lemma {:induction false} ExpiryCredited(steps: seq<Step>, ttl: nat, id: Id) returns (n: nat)
    requires id in Run(steps, ttl).outbound
    ensures n < |steps| && Credits(Before(steps, n, ttl), steps[n], id, Run(steps, ttl).outbound[id].expires, ttl)
    decreases |steps|
  {
    n := |steps| - 1;
    var last := steps[..n];
    assert Before(steps, n, ttl) == Run(last, ttl);
    hide Apply;
    CountsFrom(Run(last, ttl), steps[n], ttl, id);
    hide Credits;
    if !Credits(Run(last, ttl), steps[n], id, Run(steps, ttl).outbound[id].expires, ttl) {
      var k := ExpiryCredited(last, ttl, id);
      assert last[..k] == steps[..k] && last[k] == steps[k];
      n := k;
    }
  }

  lemma {:induction false} OpExpiryCredited(steps: seq<Step>, ttl: nat, id: Id) returns (n: nat)
    requires id in Run(steps, ttl).outOps
    ensures n < |steps| && CreditsOp(Before(steps, n, ttl), steps[n], id, Run(steps, ttl).outOps[id], ttl)
    decreases |steps|
  {
    n := |steps| - 1;
    var last := steps[..n];
    assert Before(steps, n, ttl) == Run(last, ttl);
    hide Apply;
    CountsOpFrom(Run(last, ttl), steps[n], ttl, id);
    hide CreditsOp;
    if !CreditsOp(Run(last, ttl), steps[n], id, Run(steps, ttl).outOps[id], ttl) {
      var k := OpExpiryCredited(last, ttl, id);
      assert last[..k] == steps[..k] && last[k] == steps[k];
      n := k;
    }
  }

  /**
    * Over every run: a binding is live at the caller if and only if a bind reply, or an acknowledgement taken while
    * it was live, gave it until after now. The term of an acknowledgement runs from the sending of its renewal.
    */
  lemma LiveExactly(steps: seq<Step>, ttl: nat, id: Id)
    ensures BindingLive(Run(steps, ttl), id) <==> Credited(steps, ttl, id)
  {
    Whole(steps, ttl);
    hide Run, Apply, Credits, Before;
    if BindingLive(Run(steps, ttl), id) {
      var n := ExpiryCredited(steps, ttl, id);
    }
    if n: nat, x: nat :|
      n < |steps| && Credits(Before(steps, n, ttl), steps[n], id, x, ttl) && Run(steps, ttl).now < x
    {
      CreditCounts(Before(steps, n, ttl), steps[n], ttl, id, x);
      Next(steps, n, ttl);
      KeepsCounting(steps, n + 1, |steps|, ttl, id, x);
    }
  }

  /** The same for an operation; its first term runs from the sending of its request. */
  lemma OperationLiveExactly(steps: seq<Step>, ttl: nat, id: Id)
    ensures OperationLive(Run(steps, ttl), id) <==> CreditedOp(steps, ttl, id)
  {
    Whole(steps, ttl);
    hide Run, Apply, CreditsOp, Before;
    if OperationLive(Run(steps, ttl), id) {
      var n := OpExpiryCredited(steps, ttl, id);
    }
    if n: nat, x: nat :|
      n < |steps| && CreditsOp(Before(steps, n, ttl), steps[n], id, x, ttl) && Run(steps, ttl).now < x
    {
      CreditCounts(Before(steps, n, ttl), steps[n], ttl, id, x);
      Next(steps, n, ttl);
      KeepsCounting(steps, n + 1, |steps|, ttl, id, x);
    }
  }

  lemma Continued(steps: seq<Step>, step: Step, rest: seq<Step>, ttl: nat)
    ensures var all := steps + [step] + rest;
      Before(all, |steps|, ttl) == Run(steps, ttl) && all[|steps|] == step
  {
    assert (steps + [step] + rest)[..|steps|] == steps;
  }

  /**
    * An acknowledgement that arrives before its term is over: each binding and operation it lists that is live at the
    * caller stays live until the end of that term, whatever happens.
    */
  lemma AcknowledgedStaysLive(steps: seq<Step>, m: Renewal, rest: seq<Step>, ttl: nat, id: Id)
    requires m in Run(steps, ttl).acks && Run(steps, ttl).now < m.sentAt + ttl
    requires Run(steps + [ReceiveAck(m)] + rest, ttl).now < m.sentAt + ttl
    ensures id in m.bindings && BindingLive(Run(steps, ttl), id) ==>
      BindingLive(Run(steps + [ReceiveAck(m)] + rest, ttl), id)
    ensures id in m.operations && OperationLive(Run(steps, ttl), id) ==>
      OperationLive(Run(steps + [ReceiveAck(m)] + rest, ttl), id)
  {
    var all, n := steps + [ReceiveAck(m)] + rest, |steps|;
    Continued(steps, ReceiveAck(m), rest, ttl);
    LiveExactly(all, ttl, id);
    OperationLiveExactly(all, ttl, id);
    hide Run, Before;
    assert Takes(Before(all, n, ttl), all[n], m, ttl);
    if id in m.bindings && BindingLive(Run(steps, ttl), id) {
      assert Credits(Before(all, n, ttl), all[n], id, m.sentAt + ttl, ttl);
    }
    if id in m.operations && OperationLive(Run(steps, ttl), id) {
      assert CreditsOp(Before(all, n, ttl), all[n], id, m.sentAt + ttl, ttl);
    }
  }

  // ----- the receiver -----

  /** The step makes the receiver hold the binding until `x`. */
  predicate Grants(s: State, step: Step, id: Id, x: nat, ttl: nat) {
    && x == s.now + ttl
    && (|| (step == GrantBinding(id) && id !in s.inbound && id !in s.offered && id !in s.closed && id !in s.expired)
        || (step.ReceiveRenewal? && step.m in s.renewals && id in step.m.bindings && id in s.inbound
          && s.now < s.inbound[id]))
  }

  predicate GrantsOp(s: State, step: Step, id: Id, x: nat, ttl: nat) {
    && x == s.now + ttl
    && (|| (step == ReceiveRequest(id) && id in s.requests && id !in s.received)
        || (step.ReceiveRenewal? && step.m in s.renewals && id in step.m.operations && id in s.inOps
          && s.now < s.inOps[id]))
  }

  predicate BindingHeld(s: State, id: Id) {
    id in s.inbound && s.now < s.inbound[id]
  }

  predicate OperationHeld(s: State, id: Id) {
    id in s.inOps && s.now < s.inOps[id]
  }

  ghost predicate Granted(steps: seq<Step>, ttl: nat, id: Id) {
    exists n: nat, x: nat ::
      n < |steps| && Grants(Before(steps, n, ttl), steps[n], id, x, ttl) && Run(steps, ttl).now < x
  }

  ghost predicate GrantedOp(steps: seq<Step>, ttl: nat, id: Id) {
    exists n: nat, x: nat ::
      n < |steps| && GrantsOp(Before(steps, n, ttl), steps[n], id, x, ttl) && Run(steps, ttl).now < x
  }

  lemma GrantHolds(s: State, step: Step, ttl: nat, id: Id, x: nat)
    requires Recorded(s)
    ensures Grants(s, step, id, x, ttl) ==> Backed(Apply(s, step, ttl), id, x)
    ensures GrantsOp(s, step, id, x, ttl) ==>
      id in Apply(s, step, ttl).received && BackedOp(Apply(s, step, ttl), id, x, ttl)
  {
    hide Held, OrphansOf, Renewed, RenewedOps, LiveBindings, LiveOperations;
  }

  lemma HeldFrom(s: State, step: Step, ttl: nat, id: Id)
    ensures var t := Apply(s, step, ttl);
      id in t.inbound ==>
        (id in s.inbound && s.inbound[id] == t.inbound[id]) || Grants(s, step, id, t.inbound[id], ttl)
  {
    hide Held, OrphansOf, Renewed, RenewedOps, LiveBindings, LiveOperations;
  }

  lemma HeldOpFrom(s: State, step: Step, ttl: nat, id: Id)
    ensures var t := Apply(s, step, ttl);
      id in t.inOps ==> (id in s.inOps && s.inOps[id] == t.inOps[id]) || GrantsOp(s, step, id, t.inOps[id], ttl)
  {
    hide Held, OrphansOf, Renewed, RenewedOps, LiveBindings, LiveOperations;
  }

  lemma ReceivedStays(s: State, step: Step, ttl: nat)
    ensures s.received <= Apply(s, step, ttl).received
  {
    hide Held, Extended, OrphansOf, Renewed, RenewedOps, LiveBindings, LiveOperations;
  }

  lemma {:induction false} BackingStays(steps: seq<Step>, n: nat, k: nat, ttl: nat, id: Id, x: nat)
    requires n <= k <= |steps|
    ensures Backed(Before(steps, n, ttl), id, x) ==> Backed(Before(steps, k, ttl), id, x)
    ensures BackedOp(Before(steps, n, ttl), id, x, ttl) ==> BackedOp(Before(steps, k, ttl), id, x, ttl)
    ensures Before(steps, n, ttl).received <= Before(steps, k, ttl).received
    ensures Before(steps, n, ttl).closed <= Before(steps, k, ttl).closed
    ensures Before(steps, n, ttl).finished <= Before(steps, k, ttl).finished
    ensures Before(steps, n, ttl).orphaned <= Before(steps, k, ttl).orphaned
    decreases k
  {
    if n < k {
      BackingStays(steps, n, k - 1, ttl, id, x);
      Next(steps, k - 1, ttl);
      var s := Before(steps, k - 1, ttl);
      RunInv(steps[..k - 1], ttl);
      StepGrows(s, steps[k - 1], ttl);
      ReceivedStays(s, steps[k - 1], ttl);
      hide Before, Apply, Run, Backed, BackedOp;
      BackedGrows(s, Before(steps, k, ttl), id, x, ttl);
      BackedOpGrows(s, Before(steps, k, ttl), id, x, ttl);
    }
  }

  lemma {:induction false} HoldGranted(steps: seq<Step>, ttl: nat, id: Id) returns (n: nat)
    requires id in Run(steps, ttl).inbound
    ensures n < |steps| && Grants(Before(steps, n, ttl), steps[n], id, Run(steps, ttl).inbound[id], ttl)
    decreases |steps|
  {
    n := |steps| - 1;
    var last := steps[..n];
    assert Before(steps, n, ttl) == Run(last, ttl);
    hide Apply, Grants;
    HeldFrom(Run(last, ttl), steps[n], ttl, id);
    if !Grants(Run(last, ttl), steps[n], id, Run(steps, ttl).inbound[id], ttl) {
      var k := HoldGranted(last, ttl, id);
      assert last[..k] == steps[..k] && last[k] == steps[k];
      n := k;
    }
  }

  lemma {:induction false} OpHoldGranted(steps: seq<Step>, ttl: nat, id: Id) returns (n: nat)
    requires id in Run(steps, ttl).inOps
    ensures n < |steps| && GrantsOp(Before(steps, n, ttl), steps[n], id, Run(steps, ttl).inOps[id], ttl)
    decreases |steps|
  {
    n := |steps| - 1;
    var last := steps[..n];
    assert Before(steps, n, ttl) == Run(last, ttl);
    hide Apply, GrantsOp;
    HeldOpFrom(Run(last, ttl), steps[n], ttl, id);
    if !GrantsOp(Run(last, ttl), steps[n], id, Run(steps, ttl).inOps[id], ttl) {
      var k := OpHoldGranted(last, ttl, id);
      assert last[..k] == steps[..k] && last[k] == steps[k];
      n := k;
    }
  }

  /**
    * Over every run: the receiver holds a binding if and only if it was not asked to close it and granted or renewed
    * it less than a term ago.
    */
  lemma HeldExactly(steps: seq<Step>, ttl: nat, id: Id)
    ensures BindingHeld(Run(steps, ttl), id) <==> id !in Run(steps, ttl).closed && Granted(steps, ttl, id)
  {
    Whole(steps, ttl);
    RunInv(steps, ttl);
    hide Run, Apply, Grants, Before;
    if BindingHeld(Run(steps, ttl), id) {
      var n := HoldGranted(steps, ttl, id);
    }
    if n: nat, x: nat :|
      n < |steps| && Grants(Before(steps, n, ttl), steps[n], id, x, ttl) && Run(steps, ttl).now < x
    {
      PrefixInv(steps, n, ttl);
      GrantHolds(Before(steps, n, ttl), steps[n], ttl, id, x);
      Next(steps, n, ttl);
      BackingStays(steps, n + 1, |steps|, ttl, id, x);
    }
  }

  lemma PrefixInv(steps: seq<Step>, n: nat, ttl: nat)
    requires n <= |steps|
    ensures Inv(Before(steps, n, ttl), ttl)
  {
    RunInv(steps[..n], ttl);
  }

  /** An operation likewise, unless it has finished or went with its binding. */
  lemma OperationHeldExactly(steps: seq<Step>, ttl: nat, id: Id)
    ensures OperationHeld(Run(steps, ttl), id) <==>
      id !in Run(steps, ttl).finished && id !in Run(steps, ttl).orphaned && GrantedOp(steps, ttl, id)
  {
    Whole(steps, ttl);
    RunInv(steps, ttl);
    hide Run, Apply, GrantsOp, Before;
    if OperationHeld(Run(steps, ttl), id) {
      var n := OpHoldGranted(steps, ttl, id);
    }
    if n: nat, x: nat :|
      n < |steps| && GrantsOp(Before(steps, n, ttl), steps[n], id, x, ttl) && Run(steps, ttl).now < x
    {
      PrefixInv(steps, n, ttl);
      GrantHolds(Before(steps, n, ttl), steps[n], ttl, id, x);
      Next(steps, n, ttl);
      BackingStays(steps, n + 1, |steps|, ttl, id, x);
    }
  }

  /** The receiver lets go of a binding when it is asked to or when the lease is over, and at no other step. */
  lemma LetGoIff(s: State, step: Step, ttl: nat, id: Id)
    requires id in s.inbound
    ensures var t := Apply(s, step, ttl);
      id !in t.inbound <==> step == CloseBinding(id) || (step == ExpireBinding(id) && s.inbound[id] <= s.now)
  {
    hide Held, OrphansOf, Renewed, RenewedOps, LiveBindings, LiveOperations;
  }

  /** An operation goes when it is finished, when its own lease is over, or with its binding. */
  lemma OperationLetGoIff(s: State, step: Step, ttl: nat, id: Id)
    requires id in s.inOps && id in s.requests
    ensures var t, b := Apply(s, step, ttl), s.requests[id].binding;
      id !in t.inOps <==>
        || step == FinishOperation(id)
        || (step == ExpireOperation(id) && s.inOps[id] <= s.now)
        || (step == ExpireBinding(b) && b in s.inbound && s.inbound[b] <= s.now)
  {
    hide Held, Renewed, RenewedOps, LiveBindings, LiveOperations;
  }

  /** The caller forgets exactly what it sweeps after the lease is over; nothing else is ever taken from it. */
  lemma ForgottenIff(s: State, step: Step, ttl: nat, id: Id)
    ensures id in s.outbound ==>
      (id !in Apply(s, step, ttl).outbound <==> step == ForgetBinding(id) && !BindingLive(s, id))
    ensures id in s.outOps ==>
      (id !in Apply(s, step, ttl).outOps <==> step == ForgetOperation(id) && !OperationLive(s, id))
  {
    hide Held, Extended, OrphansOf, LiveBindings, LiveOperations;
  }

  // ----- round trips -----

  /** Step `i` sends this renewal: of what it was asked to renew, exactly what is live at the caller. */
  ghost predicate Sends(steps: seq<Step>, i: nat, m: Renewal, ttl: nat)
    requires i < |steps|
  {
    var s := Before(steps, i, ttl);
    && steps[i].SendRenewal? && m in Before(steps, i + 1, ttl).renewals && m.sentAt == s.now
    && (forall id :: id in m.bindings <==> id in steps[i].bindings && BindingLive(s, id))
    && (forall id :: id in m.operations <==> id in steps[i].operations && OperationLive(s, id))
  }

  /** Step `j` delivers a renewal, and this is its acknowledgement: exactly what the receiver holds of it. */
  ghost predicate Answers(steps: seq<Step>, j: nat, m: Renewal, ack: Renewal, ttl: nat)
    requires j < |steps|
  {
    var s := Before(steps, j, ttl);
    && steps[j] == ReceiveRenewal(m) && m in s.renewals && ack in Before(steps, j + 1, ttl).acks
    && ack.sentAt == m.sentAt
    && (forall id :: id in ack.bindings <==> id in m.bindings && BindingHeld(s, id))
    && (forall id :: id in ack.operations <==> id in m.operations && OperationHeld(s, id))
  }

  /** Asking for a renewal sends one. */
  lemma RenewalSent(steps: seq<Step>, i: nat, ttl: nat) returns (m: Renewal)
    requires i < |steps| && steps[i].SendRenewal?
    ensures Sends(steps, i, m, ttl)
  {
    Next(steps, i, ttl);
    var s := Before(steps, i, ttl);
    hide Before;
    m := Renewal(LiveBindings(s, steps[i].bindings), LiveOperations(s, steps[i].operations), s.now);
  }

  /** A renewal that is delivered while the receiver holds a target lists it in its acknowledgement. */
  lemma RenewalAnswered(steps: seq<Step>, j: nat, m: Renewal, ttl: nat) returns (ack: Renewal)
    requires j < |steps| && steps[j] == ReceiveRenewal(m) && m in Before(steps, j, ttl).renewals
    ensures Answers(steps, j, m, ack, ttl)
  {
    Next(steps, j, ttl);
    var s := Before(steps, j, ttl);
    hide Before;
    ack := Renewal(Held(s, m.bindings, s.inbound), Held(s, m.operations, s.inOps), m.sentAt);
  }

  lemma AcksGrow(s: State, step: Step, ttl: nat)
    ensures s.acks <= Apply(s, step, ttl).acks
  {
    hide Held, Extended, OrphansOf, Renewed, RenewedOps, LiveBindings, LiveOperations;
  }

  lemma {:induction false} AckStays(steps: seq<Step>, n: nat, k: nat, ttl: nat)
    requires n <= k <= |steps|
    ensures Before(steps, n, ttl).acks <= Before(steps, k, ttl).acks
    decreases k
  {
    if n < k {
      AckStays(steps, n, k - 1, ttl);
      Next(steps, k - 1, ttl);
      hide Before, Apply;
      AcksGrow(Before(steps, k - 1, ttl), steps[k - 1], ttl);
    }
  }

  /** What a step asks to renew. */
  function Bindings(step: Step): set<Id> {
    if step.SendRenewal? then step.bindings else {}
  }

  function Operations(step: Step): set<Id> {
    if step.SendRenewal? then step.operations else {}
  }

  /** A renewal sent at step `i` is delivered at `j`, and its acknowledgement arrives at `k`. */
  ghost predicate RoundTrip(steps: seq<Step>, i: nat, j: nat, k: nat, ttl: nat) {
    && i < j < k < |steps|
    && exists m, ack :: Sends(steps, i, m, ttl) && Answers(steps, j, m, ack, ttl) && steps[k] == ReceiveAck(ack)
  }

  /** A round trip that began at `c` or later and, before step `n`, less than a term ago. */
  ghost predicate Fresh(steps: seq<Step>, c: nat, n: nat, i: nat, j: nat, k: nat, ttl: nat)
    requires n <= |steps|
  {
    c <= i && k < n && RoundTrip(steps, i, j, k, ttl) && Before(steps, n, ttl).now < Before(steps, i, ttl).now + ttl
  }

  /** Before step `n` the lease the caller had at `c` is not over, or a renewal has come back in time. */
  ghost predicate Covered(steps: seq<Step>, c: nat, n: nat, ttl: nat, id: Id)
    requires c <= n <= |steps|
  {
    || Counts(Before(steps, c, ttl), id, Before(steps, n, ttl).now + 1)
    || (exists i: nat, j: nat, k: nat :: Fresh(steps, c, n, i, j, k, ttl) && i < |steps| && id in Bindings(steps[i]))
  }

  ghost predicate CoveredOp(steps: seq<Step>, c: nat, n: nat, ttl: nat, id: Id)
    requires c <= n <= |steps|
  {
    || CountsOp(Before(steps, c, ttl), id, Before(steps, n, ttl).now + 1)
    || (exists i: nat, j: nat, k: nat :: Fresh(steps, c, n, i, j, k, ttl) && i < |steps| && id in Operations(steps[i]))
  }

  /** A round trip renews what is live at its three steps and held when it is delivered. */
  lemma TripRenews(steps: seq<Step>, i: nat, j: nat, k: nat, n: nat, ttl: nat, id: Id)
    requires RoundTrip(steps, i, j, k, ttl) && k < n <= |steps|
    requires Before(steps, n, ttl).now < Before(steps, i, ttl).now + ttl
    ensures id in Bindings(steps[i]) && BindingLive(Before(steps, i, ttl), id)
            && BindingHeld(Before(steps, j, ttl), id) && BindingLive(Before(steps, k, ttl), id)
            ==> BindingLive(Before(steps, n, ttl), id)
    ensures id in Operations(steps[i]) && OperationLive(Before(steps, i, ttl), id)
            && OperationHeld(Before(steps, j, ttl), id) && OperationLive(Before(steps, k, ttl), id)
            ==> OperationLive(Before(steps, n, ttl), id)
  {
    hide Before, Apply;
    var m, ack :| Sends(steps, i, m, ttl) && Answers(steps, j, m, ack, ttl) && steps[k] == ReceiveAck(ack);
    var x := Before(steps, i, ttl).now + ttl;
    AckStays(steps, j + 1, k, ttl);
    TimePasses(steps, k, n, ttl);
    assert Takes(Before(steps, k, ttl), steps[k], ack, ttl);
    CreditCounts(Before(steps, k, ttl), steps[k], ttl, id, x);
    Next(steps, k, ttl);
    KeepsCounting(steps, k + 1, n, ttl, id, x);
  }

  /** The receiver holds a confirmed binding that is live at the caller, unless it was asked to close it. */
  lemma LiveIsHeld(s: State, ttl: nat, id: Id)
    requires Inv(s, ttl) && BindingLive(s, id) && s.outbound[id].confirmed && id !in s.closed
    ensures BindingHeld(s, id)
  {
  }

  lemma LiveOpIsHeld(s: State, ttl: nat, id: Id)
    requires Inv(s, ttl) && OperationLive(s, id) && id in s.received && id !in s.finished && id !in s.orphaned
    ensures OperationHeld(s, id)
  {
  }

  /**
    * A caller whose renewals come back in time never loses a binding: from a moment `c` at which the binding is
    * confirmed and live, if its lease or a round trip covers every moment, it is live at each of them, unless the
    * receiver was asked to close it.
    */
  lemma {:induction false} NeverLost(steps: seq<Step>, c: nat, n: nat, ttl: nat, id: Id)
    requires c <= n <= |steps| && BindingLive(Before(steps, c, ttl), id) && Before(steps, c, ttl).outbound[id].confirmed
    requires id !in Before(steps, n, ttl).closed
    requires forall p | c <= p <= n :: Covered(steps, c, p, ttl, id)
    ensures BindingLive(Before(steps, n, ttl), id) && Before(steps, n, ttl).outbound[id].confirmed
    decreases n
  {
    hide Before, Apply, Fresh;
    if Counts(Before(steps, c, ttl), id, Before(steps, n, ttl).now + 1) {
      KeepsCounting(steps, c, n, ttl, id, Before(steps, n, ttl).now + 1);
    } else {
      assert Covered(steps, c, n, ttl, id);
      var i: nat, j: nat, k: nat :|
        Fresh(steps, c, n, i, j, k, ttl) && i < |steps| && id in Bindings(steps[i]);
      FreshTrip(steps, c, n, i, j, k, ttl);
      BackingStays(steps, i, n, ttl, id, 0);
      BackingStays(steps, j, n, ttl, id, 0);
      BackingStays(steps, k, n, ttl, id, 0);
      BackingStays(steps, n - 1, n, ttl, id, 0);
      NeverLost(steps, c, i, ttl, id);
      NeverLost(steps, c, j, ttl, id);
      NeverLost(steps, c, k, ttl, id);
      NeverLost(steps, c, n - 1, ttl, id);
      PrefixInv(steps, j, ttl);
      LiveIsHeld(Before(steps, j, ttl), ttl, id);
      TripRenews(steps, i, j, k, n, ttl, id);
      StillConfirmed(steps, n - 1, ttl, id);
    }
  }

  lemma FreshTrip(steps: seq<Step>, c: nat, n: nat, i: nat, j: nat, k: nat, ttl: nat)
    requires n <= |steps| && Fresh(steps, c, n, i, j, k, ttl)
    ensures c <= i < j < k < n && RoundTrip(steps, i, j, k, ttl)
    ensures Before(steps, n, ttl).now < Before(steps, i, ttl).now + ttl
  {
  }

  /** A step does not take a confirmation back from a binding that stays. */
  lemma StillConfirmed(steps: seq<Step>, n: nat, ttl: nat, id: Id)
    requires n < |steps| && BindingLive(Before(steps, n, ttl), id) && Before(steps, n, ttl).outbound[id].confirmed
    requires id in Before(steps, n + 1, ttl).outbound
    ensures Before(steps, n + 1, ttl).outbound[id].confirmed
  {
    Next(steps, n, ttl);
    hide Before;
    StepCounts(Before(steps, n, ttl), steps[n], ttl, id, Before(steps, n, ttl).now + 1);
  }

  /** An operation that has arrived likewise, unless it has finished or went with its binding. */
  lemma {:induction false} OperationNeverLost(steps: seq<Step>, c: nat, n: nat, ttl: nat, id: Id)
    requires c <= n <= |steps| && OperationLive(Before(steps, c, ttl), id) && id in Before(steps, c, ttl).received
    requires id !in Before(steps, n, ttl).finished && id !in Before(steps, n, ttl).orphaned
    requires forall p | c <= p <= n :: CoveredOp(steps, c, p, ttl, id)
    ensures OperationLive(Before(steps, n, ttl), id)
    decreases n
  {
    hide Before, Apply, Fresh;
    if CountsOp(Before(steps, c, ttl), id, Before(steps, n, ttl).now + 1) {
      KeepsCounting(steps, c, n, ttl, id, Before(steps, n, ttl).now + 1);
    } else {
      assert CoveredOp(steps, c, n, ttl, id);
      var i: nat, j: nat, k: nat :|
        Fresh(steps, c, n, i, j, k, ttl) && i < |steps| && id in Operations(steps[i]);
      FreshTrip(steps, c, n, i, j, k, ttl);
      BackingStays(steps, c, j, ttl, id, 0);
      BackingStays(steps, i, n, ttl, id, 0);
      BackingStays(steps, j, n, ttl, id, 0);
      BackingStays(steps, k, n, ttl, id, 0);
      OperationNeverLost(steps, c, i, ttl, id);
      OperationNeverLost(steps, c, j, ttl, id);
      OperationNeverLost(steps, c, k, ttl, id);
      PrefixInv(steps, j, ttl);
      LiveOpIsHeld(Before(steps, j, ttl), ttl, id);
      TripRenews(steps, i, j, k, n, ttl, id);
    }
  }
}
