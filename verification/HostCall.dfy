/**
  * Pending host calls: replies, cancellation and consumption in any order, and the boundary accounting of the
  * machine.
  */
module HostCall {
  import opened Prelude

  datatype Phase = Waiting | Ready | Consumed | Canceled

  /**
    * One pending call. `held` is the reply whose payload its result carries. After a settlement the call still has to
    * give back its event and its bytes (`releasing`, `owed`), to leave its relay (`attached`) and to cancel the
    * host's handle.
    */
  datatype Call = Call(
    phase: Phase, starting: bool, held: Option<nat>, boundary: int, attached: bool, releasing: bool, owed: int,
    host: Handle)

  /**
    * The host's side of a call: whether the call keeps a handle, how often it is about to be and has been canceled,
    * whether the host gave one, and whether the start failed.
    */
  datatype Handle = Handle(kept: bool, canceling: nat, cancels: nat, given: bool, broken: bool)

  /** Where a reply is: between relay and call, in the result of a call, about to be discarded, or done with. */
  datatype Place = Arriving(c: nat) | HeldBy(c: nat) | Discarding | Gone

  /** A reply of the host; a disposable one has to be discarded if nobody gets it. */
  datatype Reply = Reply(bytes: nat, failed: bool, disposable: bool, place: Place, discards: nat, delivered: bool)

  /** What `startFFICall` has reserved for the call it is about to create. */
  datatype Admission = Nothing | Event | Request(bytes: nat)

  datatype Limits = Limits(events: nat, bytes: nat)

  datatype State = State(calls: seq<Call>, replies: seq<Reply>, admission: Admission, events: int, bytes: int)

  const START := State([], [], Nothing, 0, 0)

  const NO_HANDLE := Handle(false, 0, 0, false, false)

  datatype Step =
    | ReserveEvent
    | ReserveRequest(bytes: nat)
    | Create
    | Receive(c: nat, bytes: nat, failed: bool, disposable: bool)
    | Complete(r: nat)
    | FinishStart(c: nat, handle: bool, failed: bool)
    | Consume(c: nat)
    | Cancel(c: nat)
    | Detach(c: nat)
    | ReleaseEvent(c: nat)
    | CancelHandle(c: nat)
    | Discard(r: nat)

  // ----- the steps -----

  /** `reserveBoundaryBytes` succeeds. */
  predicate Affordable(s: State, l: Limits, n: nat) {
    n == 0 || s.bytes + n <= l.bytes
  }

  predicate Open(call: Call) {
    call.phase.Waiting? || call.phase.Ready?
  }

  function NewCall(request: nat): Call {
    Call(Waiting, true, None, request, true, false, 0, NO_HANDLE)
  }

  function With(s: State, c: nat, call: Call): State
    requires c < |s.calls|
  {
    s.(calls := s.calls[c := call])
  }

  /** A reply nobody will get: it is discarded, if it has to be. */
  function Unwanted(s: State, r: nat): State
    requires r < |s.replies|
  {
    s.(replies := s.replies[r := s.replies[r].(place := if s.replies[r].disposable then Discarding else Gone)])
  }

  /** The relay takes a reply: to its call, or nowhere when the call has left it. */
  function Received(s: State, c: nat, bytes: nat, failed: bool, disposable: bool): State
    requires c < |s.calls|
  {
    var place := if s.calls[c].attached then Arriving(c) else if disposable then Discarding else Gone;
    s.(replies := s.replies + [Reply(bytes, failed, disposable, place, 0, false)])
  }

  /** `complete`: the first reply of a waiting call makes it ready, with the payload if it can be paid for. */
  function Completed(s: State, l: Limits, r: nat): State
    requires r < |s.replies| && s.replies[r].place.Arriving? && s.replies[r].place.c < |s.calls|
  {
    var reply, c := s.replies[r], s.replies[r].place.c;
    var call := s.calls[c];
    if !call.phase.Waiting? then Unwanted(s, r)
    else if reply.failed || reply.bytes > l.bytes
      || !Affordable(s, l, reply.bytes) then With(Unwanted(s, r), c, call.(phase := Ready))
    else
      With(s, c, call.(phase := Ready, held := Some(r), boundary := call.boundary + reply.bytes)).(
      replies := s.replies[r := reply.(place := HeldBy(c))], bytes := s.bytes + reply.bytes)
  }

  /** The held reply, if any, will be discarded. */
  function Dropped(s: State, call: Call): State {
    if call.held.Some? && call.held.value < |s.replies| then Unwanted(s, call.held.value) else s
  }

  function HeldBytes(s: State, call: Call): nat {
    if call.held.Some? && call.held.value < |s.replies| then s.replies[call.held.value].bytes else 0
  }

  /**
    * `finishStart`: a failed start replaces whatever reply has come; a call settled in the meantime cancels the
    * handle.
    */
  function Started(s: State, c: nat, handle: bool, failed: bool): State
    requires c < |s.calls|
  {
    var open := Open(s.calls[c]);
    var call := s.calls[c].(starting := false, host := HandleStarted(s.calls[c].host, handle, failed, open));
    if !open || !failed then With(s, c, call)
    else
      var n := HeldBytes(s, call);
      With(Dropped(s, call), c, call.(phase := Ready, held := None, boundary := call.boundary - n)).(
      bytes := s.bytes - n)
  }

  /** A handle is kept after a good start of an open call, and canceled otherwise. */
  function HandleStarted(h: Handle, handle: bool, failed: bool, open: bool): Handle {
    if !open || failed
    then h.(given := handle, broken := failed, canceling := h.canceling + (if handle then 1 else 0))
    else h.(given := handle, broken := failed, kept := handle)
  }

  /** A settlement gives the handle up; a cancellation cancels it. */
  function HandleSettled(h: Handle, canceled: bool): Handle {
    h.(kept := false, canceling := h.canceling + (if canceled && h.kept then 1 else 0))
  }

  function HandleCanceled(h: Handle): Handle
    requires h.canceling > 0
  {
    h.(canceling := h.canceling - 1, cancels := h.cancels + 1)
  }

  /** The call is settled; event and bytes are given back later. */
  function Settled(call: Call, phase: Phase): Call {
    call.(phase := phase, held := None, boundary := 0, releasing := true, owed := call.boundary, host :=
      HandleSettled(call.host, phase.Canceled?))
  }

  /** `materializeForFrame`: the guest gets the payload. */
  function Delivered(s: State, c: nat): State
    requires c < |s.calls|
  {
    var call := s.calls[c];
    var t := if call.held.Some? && call.held.value < |s.replies|
             then s.(replies := s.replies[call.held.value :=
               s.replies[call.held.value].(place := Gone, delivered := true)]) else s;
    With(t, c, Settled(call, Consumed))
  }

  /** `releasePendingEvent`. */
  function Released(s: State, c: nat): State
    requires c < |s.calls|
  {
    var call := s.calls[c];
    With(s, c, call.(releasing := false, owed := 0)).(
    events := s.events - 1, bytes := s.bytes - call.owed)
  }

  /** One step; one that is not possible at its turn changes nothing. */
  function Apply(s: State, l: Limits, step: Step): State {
    match step
    case ReserveEvent =>
      if !s.admission.Nothing? || (l.events > 0 && s.events >= l.events) then s
        else s.(admission := Event, events := s.events + 1)
    case ReserveRequest(n) =>
      if !s.admission.Event? then s
      else if n > l.bytes || !Affordable(s, l, n) then s.(admission := Nothing, events := s.events - 1)
      else s.(admission := Request(n), bytes := s.bytes + n)
    case Create => if !s.admission.Request? then s
      else s.(admission := Nothing, calls := s.calls + [NewCall(s.admission.bytes)])
    case Receive(c, bytes, failed, disposable) => if c >= |s.calls| then s
      else Received(s, c, bytes, failed, disposable)
    case Complete(r) =>
      if r >= |s.replies| || !s.replies[r].place.Arriving? || s.replies[r].place.c >= |s.calls| then s
        else Completed(s, l, r)
    case FinishStart(c, handle, failed) => if c >= |s.calls| || !s.calls[c].starting then s
      else Started(s, c, handle, failed)
    case Consume(c) => if c >= |s.calls| || !s.calls[c].phase.Ready? || s.calls[c].starting then s else Delivered(s, c)
    case Cancel(c) => if c >= |s.calls| || !Open(s.calls[c]) then s
      else With(Dropped(s, s.calls[c]), c, Settled(s.calls[c], Canceled))
    case Detach(c) => if c >= |s.calls| || Open(s.calls[c]) then s else With(s, c, s.calls[c].(attached := false))
    case ReleaseEvent(c) => if c >= |s.calls| || !s.calls[c].releasing then s else Released(s, c)
    case CancelHandle(c) =>
      if c >= |s.calls| || s.calls[c].host.canceling == 0 then s
      else With(s, c, s.calls[c].(host := HandleCanceled(s.calls[c].host)))
    case Discard(r) =>
      if r >= |s.replies| || !s.replies[r].place.Discarding? then s
      else s.(replies := s.replies[r := s.replies[r].(place := Gone, discards := s.replies[r].discards + 1)])
  }

  ghost function Run(steps: seq<Step>, l: Limits): State {
    if steps == [] then START else Apply(Run(steps[..|steps| - 1], l), l, steps[|steps| - 1])
  }

  // ----- sums over the calls -----

  /** An event is counted for a call that is open or still has to give it back. */
  function EventsOf(calls: seq<Call>): nat {
    if calls == [] then 0 else EventsOf(calls[..|calls| - 1]) + EventOf(calls[|calls| - 1])
  }

  function EventOf(call: Call): nat {
    if Open(call) || call.releasing then 1 else 0
  }

  function BytesOf(calls: seq<Call>): int {
    if calls == [] then 0 else BytesOf(calls[..|calls| - 1]) + calls[|calls| - 1].boundary + calls[|calls| - 1].owed
  }

  lemma {:induction false} SumsUpdate(calls: seq<Call>, c: nat, call: Call)
    requires c < |calls|
    ensures EventsOf(calls[c := call]) + EventOf(calls[c]) == EventsOf(calls) + EventOf(call)
    ensures BytesOf(calls[c := call]) + calls[c].boundary + calls[c].owed == BytesOf(calls) + call.boundary + call.owed
  {
    var n := |calls| - 1;
    if c == n {
      assert calls[c := call][..n] == calls[..n];
    } else {
      assert calls[c := call][..n] == calls[..n][c := call];
      SumsUpdate(calls[..n], c, call);
    }
  }

  lemma SumsAdd(calls: seq<Call>, call: Call)
    ensures EventsOf(calls + [call]) == EventsOf(calls) + EventOf(call)
    ensures BytesOf(calls + [call]) == BytesOf(calls) + call.boundary + call.owed
  {
    assert (calls + [call])[..|calls|] == calls;
  }

  // ----- what every step keeps -----

  function AdmittedEvents(a: Admission): nat {
    if a.Nothing? then 0 else 1
  }

  function AdmittedBytes(a: Admission): nat {
    if a.Request? then a.bytes else 0
  }

  /**
    * The counters are the sums over unsettled calls, calls that still have to give back, and the call being admitted.
    */
  ghost predicate Counted(s: State, l: Limits) {
    && s.events == EventsOf(s.calls) + AdmittedEvents(s.admission)
    && s.bytes == BytesOf(s.calls) + AdmittedBytes(s.admission)
    && 0 <= s.events && 0 <= s.bytes <= l.bytes && (l.events > 0 ==> s.events <= l.events)
  }

  /** Held replies and the calls that hold them agree, and a call holds at least the bytes of its reply. */
  ghost predicate Linked(s: State) {
    && (forall c: nat | c < |s.calls| && s.calls[c].held.Some? ::
          && s.calls[c].held.value < |s.replies| && s.replies[s.calls[c].held.value].place == HeldBy(c)
          && s.calls[c].phase.Ready?
          && s.replies[s.calls[c].held.value].bytes <= s.calls[c].boundary)
    && (forall r: nat | r < |s.replies| && s.replies[r].place.HeldBy? ::
      s.replies[r].place.c < |s.calls| && s.calls[s.replies[r].place.c].held == Some(r))
    && (forall r: nat | r < |s.replies| && s.replies[r].place.Arriving? :: s.replies[r].place.c < |s.calls|)
    && (forall c: nat | c < |s.calls| :: PaidOk(s.calls[c]))
  }

  /** An open call holds its bytes, a settled one only owes them. */
  predicate PaidOk(call: Call) {
    && 0 <= call.boundary && 0 <= call.owed && (!call.releasing ==> call.owed == 0)
    && if Open(call) then !call.releasing else call.boundary == 0
  }

  /** A reply has been discarded or delivered exactly when it is done with. */
  predicate ReplyOk(reply: Reply) {
    && reply.discards == (if reply.place.Gone? && reply.disposable && !reply.delivered then 1 else 0)
    && (reply.delivered ==> reply.place.Gone?) && (reply.place.Discarding? ==> reply.disposable)
  }

  ghost predicate RepliesOk(s: State) {
    forall r: nat | r < |s.replies| :: ReplyOk(s.replies[r])
  }

  /** The host's handle is to be canceled: there is one, and the call was canceled or its start failed. */
  predicate CancelDue(call: Call) {
    call.host.given && (call.phase.Canceled? || call.host.broken)
  }

  /** A handle is canceled once if that is due, and not at all otherwise; an open call that started well keeps it. */
  predicate HandleOk(call: Call) {
    && (call.starting ==> !call.host.given && !call.host.broken && !call.phase.Consumed?)
    && (call.host.kept <==> call.host.given && !call.host.broken && Open(call))
    && call.host.canceling + call.host.cancels == (if CancelDue(call) then 1 else 0)
  }

  ghost predicate HandlesOk(s: State) {
    forall c: nat | c < |s.calls| :: HandleOk(s.calls[c])
  }

  ghost predicate Inv(s: State, l: Limits) {
    Counted(s, l) && Linked(s) && RepliesOk(s) && HandlesOk(s)
  }

  // ----- one step -----

  lemma StepHandles(s: State, l: Limits, step: Step)
    requires HandlesOk(s)
    ensures HandlesOk(Apply(s, l, step))
  {
    hide ReplyOk;
  }

  lemma StepReplies(s: State, l: Limits, step: Step)
    requires Linked(s) && RepliesOk(s)
    ensures RepliesOk(Apply(s, l, step))
  {
  }

  /** Call and reply hold each other, with enough bytes. */
  predicate Holds(s: State, c: nat, r: nat) {
    && c < |s.calls| && r < |s.replies| && s.calls[c].held == Some(r) && s.replies[r].place == HeldBy(c)
    && s.calls[c].phase.Ready?
    && s.replies[r].bytes <= s.calls[c].boundary
  }

  /** A change of one call that keeps what it holds. */
  lemma LinkSame(s: State, t: State, c: nat)
    requires Linked(s) && c < |s.calls| == |t.calls| && t.replies == s.replies && t.calls == s.calls[c := t.calls[c]]
    requires t.calls[c].held == s.calls[c].held
    requires (t.calls[c].held.Some? ==>
      t.calls[c].phase == s.calls[c].phase && t.calls[c].boundary == s.calls[c].boundary)
    requires PaidOk(t.calls[c])
    ensures Linked(t)
  {
    hide PaidOk;
  }

  /** A call that holds nothing any more, and its reply that is not held any more. */
  lemma LinkDropped(s: State, t: State, c: nat)
    requires Linked(s) && c < |s.calls| == |t.calls| && |t.replies| == |s.replies|
    requires t.calls == s.calls[c := t.calls[c]]
    requires t.calls[c].held.None? && PaidOk(t.calls[c])
    requires forall r | 0 <= r < |s.replies| && s.calls[c].held != Some(r) :: t.replies[r] == s.replies[r]
    requires s.calls[c].held.Some? ==>
      !t.replies[s.calls[c].held.value].place.HeldBy? && !t.replies[s.calls[c].held.value].place.Arriving?
    ensures Linked(t)
  {
    hide PaidOk;
  }

  /** A reply that is held by nobody before and after. */
  lemma LinkReply(s: State, t: State, r: nat)
    requires Linked(s) && t.calls == s.calls && r < |s.replies| == |t.replies|
    requires t.replies == s.replies[r := t.replies[r]]
    requires !s.replies[r].place.HeldBy? && !t.replies[r].place.HeldBy? && !t.replies[r].place.Arriving?
    ensures Linked(t)
  {
    hide PaidOk;
  }

  lemma CompletedLinked(s: State, l: Limits, r: nat)
    requires Linked(s) && r < |s.replies| && s.replies[r].place.Arriving? && s.replies[r].place.c < |s.calls|
    ensures Linked(Completed(s, l, r))
  {
    var t, c := Completed(s, l, r), s.replies[r].place.c;
    if !s.calls[c].phase.Waiting? {
      LinkReply(s, t, r);
    } else if t.calls[c].held.None? {
      LinkReply(s, Unwanted(s, r), r);
      LinkSame(Unwanted(s, r), t, c);
    } else {
      assert Holds(t, c, r);
      assert PaidOk(t.calls[c]);
      hide PaidOk;
    }
  }

  lemma StartedLinked(s: State, c: nat, handle: bool, failed: bool)
    requires Linked(s) && c < |s.calls|
    ensures Linked(Started(s, c, handle, failed))
  {
    var t := Started(s, c, handle, failed);
    if Open(s.calls[c]) && failed {
      LinkDropped(s, t, c);
    } else {
      LinkSame(s, t, c);
    }
  }

  lemma SettledLinked(s: State, c: nat)
    requires Linked(s) && c < |s.calls| && Open(s.calls[c])
    ensures Linked(Delivered(s, c)) && Linked(With(Dropped(s, s.calls[c]), c, Settled(s.calls[c], Canceled)))
  {
    LinkDropped(s, Delivered(s, c), c);
    LinkDropped(s, With(Dropped(s, s.calls[c]), c, Settled(s.calls[c], Canceled)), c);
  }

  lemma AddedLinked(s: State, call: Call, reply: Reply)
    requires Linked(s) && call.held.None? && PaidOk(call) && !reply.place.HeldBy?
    requires (reply.place.Arriving? ==> reply.place.c < |s.calls|)
    ensures Linked(s.(calls := s.calls + [call])) && Linked(s.(replies := s.replies + [reply]))
  {
    hide PaidOk;
  }

  lemma CountersLinked(s: State, admission: Admission, events: int, bytes: int)
    requires Linked(s)
    ensures Linked(s.(admission := admission, events := events, bytes := bytes))
  {
    hide PaidOk;
  }

  lemma StepLinked(s: State, l: Limits, step: Step)
    requires Linked(s) && s.bytes >= 0 && AdmittedBytes(s.admission) >= 0
    ensures Linked(Apply(s, l, step))
  {
    var t := Apply(s, l, step);
    match step
    case ReserveEvent => CountersLinked(s, t.admission, t.events, t.bytes);
    case ReserveRequest(n) => CountersLinked(s, t.admission, t.events, t.bytes);
    case Create =>
      if s.admission.Request? {
        AddedLinked(s, NewCall(s.admission.bytes), Reply(0, false, false, Gone, 0, false));
        CountersLinked(s.(calls := t.calls), Nothing, s.events, s.bytes);
      }
    case Receive(c, bytes, failed, disposable) =>
      if c < |s.calls| {
        AddedLinked(s, NewCall(0), t.replies[|s.replies|]);
      }
    case Complete(r) =>
      if r < |s.replies| && s.replies[r].place.Arriving? {
        CompletedLinked(s, l, r);
      }
    case FinishStart(c, handle, failed) =>
      if c < |s.calls| {
        StartedLinked(s, c, handle, failed);
      }
    case Consume(c) =>
      if c < |s.calls| && Open(s.calls[c]) {
        SettledLinked(s, c);
      }
    case Cancel(c) =>
      if c < |s.calls| && Open(s.calls[c]) {
        SettledLinked(s, c);
      }
    case Discard(r) =>
      if r < |s.replies| && s.replies[r].place.Discarding? {
        LinkReply(s, t, r);
      }
    case _ =>
      if step.c < |s.calls| {
        LinkSame(s, t, step.c);
      }
  }

  lemma {:induction false} BytesNotNegative(calls: seq<Call>)
    requires forall c: nat | c < |calls| :: PaidOk(calls[c])
    ensures 0 <= BytesOf(calls)
  {
    if calls != [] {
      BytesNotNegative(calls[..|calls| - 1]);
      assert PaidOk(calls[|calls| - 1]);
    }
  }

  /** A step that changes one call and the counters by the same amounts. */
  lemma CountOne(s: State, t: State, l: Limits, c: nat)
    requires Counted(s, l) && Linked(t) && c < |s.calls| == |t.calls| && t.calls == s.calls[c := t.calls[c]]
    requires t.admission == s.admission
    requires t.events == s.events - EventOf(s.calls[c]) + EventOf(t.calls[c])
    requires EventOf(t.calls[c]) <= EventOf(s.calls[c])
    requires t.bytes == s.bytes - s.calls[c].boundary - s.calls[c].owed + t.calls[c].boundary + t.calls[c].owed
    requires t.bytes <= s.bytes || t.bytes <= l.bytes
    requires AdmittedBytes(s.admission) >= 0
    ensures Counted(t, l)
  {
    SumsUpdate(s.calls, c, t.calls[c]);
    BytesNotNegative(t.calls);
    hide Linked, BytesOf, EventsOf;
  }

  lemma CallStepCounted(s: State, l: Limits, step: Step, c: nat)
    requires Counted(s, l) && Linked(s) && Linked(Apply(s, l, step)) && c < |s.calls|
    requires step == FinishStart(c, step.FinishStart? && step.handle, step.FinishStart? && step.failed)
      || step == Consume(c) || step == Cancel(c)
          || step == Detach(c) || step == ReleaseEvent(c) || step == CancelHandle(c)
    ensures Counted(Apply(s, l, step), l)
  {
    var t := Apply(s, l, step);
    assert PaidOk(s.calls[c]) && AdmittedBytes(s.admission) >= 0;
    assert s.calls[c].held.Some? ==> Holds(s, c, s.calls[c].held.value);
    hide Linked, Counted, ReplyOk;
    if t != s {
      CountOne(s, t, l, c);
    }
  }

  lemma CompleteCounted(s: State, l: Limits, r: nat)
    requires Counted(s, l) && Linked(s) && Linked(Apply(s, l, Complete(r)))
    ensures Counted(Apply(s, l, Complete(r)), l)
  {
    var t := Apply(s, l, Complete(r));
    if r < |s.replies| && s.replies[r].place.Arriving? {
      var c := s.replies[r].place.c;
      assert s.calls[c := s.calls[c]] == s.calls;
      assert PaidOk(s.calls[c]) && AdmittedBytes(s.admission) >= 0 && s.bytes <= l.bytes;
      hide Linked, Counted, PaidOk;
      CountOne(s, t, l, c);
    }
  }

  lemma StepCounted(s: State, l: Limits, step: Step)
    requires Counted(s, l) && Linked(s) && Linked(Apply(s, l, step))
    ensures Counted(Apply(s, l, step), l)
  {
    hide Linked;
    match step
    case ReserveEvent =>
    case ReserveRequest(n) =>
    case Create =>
      if s.admission.Request? {
        SumsAdd(s.calls, NewCall(s.admission.bytes));
      }
    case Receive(c, bytes, failed, disposable) =>
    case Complete(r) => CompleteCounted(s, l, r);
    case Discard(r) =>
    case _ =>
      if step.c < |s.calls| {
        CallStepCounted(s, l, step, step.c);
      }
  }

  lemma StepInv(s: State, l: Limits, step: Step)
    requires Inv(s, l)
    ensures Inv(Apply(s, l, step), l)
  {
    StepLinked(s, l, step);
    StepCounted(s, l, step);
    StepReplies(s, l, step);
    StepHandles(s, l, step);
    hide Apply, Linked, Counted, RepliesOk, HandlesOk;
  }

  lemma {:induction false} RunInv(steps: seq<Step>, l: Limits)
    ensures Inv(Run(steps, l), l)
    decreases |steps|
  {
    hide Apply;
    if steps != [] {
      RunInv(steps[..|steps| - 1], l);
      StepInv(Run(steps[..|steps| - 1], l), l, steps[|steps| - 1]);
    }
  }

  // ----- over every ordering -----

  /**
    * A reply is discarded at most once and never when the guest got it; once it is done with, it was one or the
    * other.
    */
  lemma DiscardedOnce(steps: seq<Step>, l: Limits, r: nat)
    requires r < |Run(steps, l).replies|
    ensures var reply := Run(steps, l).replies[r];
            && reply.discards <= 1 && !(reply.delivered && reply.discards > 0)
            && (reply.place.Gone? && reply.disposable ==> (reply.discards == 1 <==> !reply.delivered))
            && (!reply.place.Gone? ==> reply.discards == 0 && !reply.delivered)
  {
    RunInv(steps, l);
    hide Run;
    assert ReplyOk(Run(steps, l).replies[r]);
  }

  /** Bytes and events are the sums over unsettled calls and what is on its way back, and never exceed their limits. */
  lemma CountersExact(steps: seq<Step>, l: Limits)
    ensures var s := Run(steps, l);
            && s.events == EventsOf(s.calls) + AdmittedEvents(s.admission)
            && s.bytes == BytesOf(s.calls) + AdmittedBytes(s.admission)
            && 0 <= s.bytes <= l.bytes && 0 <= s.events && (l.events > 0 ==> s.events <= l.events)
  {
    RunInv(steps, l);
    hide Run;
  }

  /** The guest has the payload: the reply is done with and has not been discarded. */
  predicate GivenAway(reply: Reply) {
    reply.place.Gone? && reply.delivered && reply.discards == 0
  }

  /** Nothing is under way: every call is settled and has given back, and every reply is done with. */
  predicate Quiet(s: State) {
    && s.admission.Nothing? && (forall c | 0 <= c < |s.calls| :: !Open(s.calls[c]) && !s.calls[c].releasing)
    && (forall r | 0 <= r < |s.replies| :: s.replies[r].place.Gone?)
  }

  lemma {:induction false} QuietSums(calls: seq<Call>)
    requires forall c: nat | c < |calls| :: PaidOk(calls[c]) && !Open(calls[c]) && !calls[c].releasing
    ensures EventsOf(calls) == 0 && BytesOf(calls) == 0
  {
    if calls != [] {
      QuietSums(calls[..|calls| - 1]);
      assert PaidOk(calls[|calls| - 1]);
    }
  }

  /** Then the counters are zero and each disposable reply was discarded once or delivered. */
  lemma QuietBalance(steps: seq<Step>, l: Limits)
    requires Quiet(Run(steps, l))
    ensures var s := Run(steps, l);
            s.events == 0 && s.bytes == 0 && forall r | 0 <= r < |s.replies| && s.replies[r].disposable ::
              s.replies[r].discards == (if s.replies[r].delivered then 0 else 1)
  {
    RunInv(steps, l);
    hide Run;
    QuietSums(Run(steps, l).calls);
    forall r | 0 <= r < |Run(steps, l).replies|
      ensures ReplyOk(Run(steps, l).replies[r])
    {
    }
  }

  /**
    * Over every run the host's handle of a call is canceled, or about to be, exactly when there is one and the call
    * was canceled or its start failed: once then, and never for a consumed call that started well.
    */
  lemma HandleCanceledExactly(steps: seq<Step>, l: Limits, c: nat)
    requires c < |Run(steps, l).calls|
    ensures var call := Run(steps, l).calls[c];
            && call.host.canceling + call.host.cancels == (if CancelDue(call) then 1 else 0)
            && (call.phase.Consumed? && !call.host.broken ==> call.host.cancels == 0)
  {
    RunInv(steps, l);
    hide Run;
    assert HandleOk(Run(steps, l).calls[c]);
  }

  // ----- the machine -----

  /** The counters of a machine, its pending calls and the replies of the host, changed in place. */
  class Machine {
    const limits: Limits
    var calls: seq<Call>
    var replies: seq<Reply>
    var admission: Admission
    var events: int
    var bytes: int

    ghost function Now(): State
      reads this
    {
      State(calls, replies, admission, events, bytes)
    }

    constructor (limits: Limits)
      ensures this.limits == limits && Now() == START && Inv(Now(), limits)
    {
      this.limits, calls, replies, admission, events, bytes := limits, [], [], Nothing, 0, 0;
    }

    /** `reservePendingEvent`, the first reservation of `startFFICall`. */
    method ReservePendingEvent() returns (ok: bool)
      requires Inv(Now(), limits) && admission.Nothing?
      modifies this`admission, this`events
      ensures Inv(Now(), limits) && Now() == Apply(old(Now()), limits, ReserveEvent)
      ensures ok <==> limits.events == 0 || old(events) < limits.events
    {
      StepInv(Now(), limits, ReserveEvent);
      hide Inv;
      if limits.events > 0 && events >= limits.events {
        return false;
      }
      admission, events := Event, events + 1;
      ok := true;
    }

    /** The bytes of the request; without them the event is given back. */
    method ReserveRequestBytes(n: nat) returns (ok: bool)
      requires Inv(Now(), limits) && admission.Event?
      modifies this`admission, this`events, this`bytes
      ensures Inv(Now(), limits) && Now() == Apply(old(Now()), limits, ReserveRequest(n))
      ensures ok <==> n <= limits.bytes && (n == 0 || old(bytes) + n <= limits.bytes)
    {
      StepInv(Now(), limits, ReserveRequest(n));
      hide Inv;
      ok := n <= limits.bytes && (n == 0 || bytes + n <= limits.bytes);
      if ok {
        admission, bytes := Request(n), bytes + n;
      } else {
        admission, events := Nothing, events - 1;
      }
    }

    /** The pending call itself. */
    method CreateCall() returns (c: nat)
      requires Inv(Now(), limits) && admission.Request?
      modifies this`admission, this`calls
      ensures Inv(Now(), limits) && Now() == Apply(old(Now()), limits, Create) && c == |old(calls)|
    {
      StepInv(Now(), limits, Create);
      hide Inv;
      c := |calls|;
      calls := calls + [Call(Waiting, true, None, admission.bytes, true, false, 0, NO_HANDLE)];
      admission := Nothing;
    }

    /** `pendingFFICall.complete` for a reply that came through the relay. */
    method CompleteReply(r: nat)
      requires Inv(Now(), limits) && r < |replies| && replies[r].place.Arriving?
      modifies this`calls, this`replies, this`bytes
      ensures Inv(Now(), limits) && Now() == Apply(old(Now()), limits, Complete(r))
      ensures replies[r].place.HeldBy? <==>
        old(calls[replies[r].place.c].phase.Waiting? && !replies[r].failed && replies[r].bytes <= limits.bytes
          && (replies[r].bytes == 0 || bytes + replies[r].bytes <= limits.bytes))
    {
      hide Inv, Apply;
      CompleteStep(Now(), limits, r);
      var reply, c := replies[r], replies[r].place.c;
      if !calls[c].phase.Waiting? {
        replies := replies[r := reply.(place := if reply.disposable then Discarding else Gone)];
        return;
      }
      if reply.failed || reply.bytes > limits.bytes || !(reply.bytes == 0 || bytes + reply.bytes <= limits.bytes) {
        calls := calls[c := calls[c].(phase := Ready)];
        replies := replies[r := reply.(place := if reply.disposable then Discarding else Gone)];
        return;
      }
      bytes := bytes + reply.bytes;
      calls := calls[c := calls[c].(phase := Ready, held := Some(r), boundary := calls[c].boundary + reply.bytes)];
      replies := replies[r := reply.(place := HeldBy(c))];
    }

    lemma CompleteStep(s: State, l: Limits, r: nat)
      requires Inv(s, l) && r < |s.replies| && s.replies[r].place.Arriving?
      ensures s.replies[r].place.c < |s.calls| && Apply(s, l, Complete(r)) == Completed(s, l, r)
      ensures Inv(Apply(s, l, Complete(r)), l)
    {
      StepInv(s, l, Complete(r));
    }

    /** `finishStart`. */
    method FinishStarting(c: nat, handle: bool, failed: bool)
      requires Inv(Now(), limits) && c < |calls| && calls[c].starting
      modifies this`calls, this`replies, this`bytes
      ensures Inv(Now(), limits) && Now() == Apply(old(Now()), limits, FinishStart(c, handle, failed))
      ensures !calls[c].starting && (old(Open(calls[c])) && failed ==> calls[c].phase.Ready? && calls[c].held.None?)
      ensures !(old(Open(calls[c])) && failed) ==>
        calls[c].phase == old(calls[c].phase) && calls[c].held == old(calls[c].held)
    {
      hide Inv, Apply;
      StartStep(Now(), limits, c, handle, failed);
      var call := calls[c];
      var host := call.host.(given := handle, broken := failed);
      if call.phase.Canceled? || call.phase.Consumed? || failed {
        host := host.(canceling := host.canceling + (if handle then 1 else 0));
      } else {
        host := host.(kept := handle);
      }
      assert host == HandleStarted(call.host, handle, failed, Open(call));
      hide HandleStarted;
      call := call.(starting := false, host := host);
      if Open(call) && failed {
        var n := 0;
        if call.held.Some? {
          var reply := replies[call.held.value];
          n := reply.bytes;
          replies := replies[call.held.value := reply.(place := if reply.disposable then Discarding else Gone)];
        }
        bytes := bytes - n;
        call := call.(phase := Ready, held := None, boundary := call.boundary - n);
      }
      calls := calls[c := call];
    }

    lemma StartStep(s: State, l: Limits, c: nat, handle: bool, failed: bool)
      requires Inv(s, l) && c < |s.calls| && s.calls[c].starting
      ensures s.calls[c].held.Some? ==> s.calls[c].held.value < |s.replies|
      ensures Apply(s, l, FinishStart(c, handle, failed)) == Started(s, c, handle, failed)
      ensures Inv(Apply(s, l, FinishStart(c, handle, failed)), l)
    {
      StepInv(s, l, FinishStart(c, handle, failed));
      HeldExists(s, l, c);
    }

    lemma HeldExists(s: State, l: Limits, c: nat)
      requires Inv(s, l) && c < |s.calls|
      ensures s.calls[c].held.Some? ==> s.calls[c].held.value < |s.replies|
    {
    }

    /**
      * `materializeForFrame`; `publishes` says whether the values can be published. Until then the call stays ready.
      */
    method Materialize(c: nat, publishes: bool) returns (taken: bool, payload: Option<nat>)
      requires Inv(Now(), limits) && c < |calls|
      modifies this`calls, this`replies
      ensures Inv(Now(), limits) && Now() == if publishes then Apply(old(Now()), limits, Consume(c)) else old(Now())
      ensures taken <==> publishes && old(calls[c].phase.Ready? && !calls[c].starting)
      ensures taken ==> payload == old(calls[c].held) && calls[c].owed == old(calls[c].boundary)
      ensures taken ==> calls[c].phase.Consumed? && calls[c].held.None?
      ensures taken && payload.Some? ==> payload.value < |replies| && GivenAway(replies[payload.value])
    {
      StepInv(Now(), limits, Consume(c));
      HeldExists(Now(), limits, c);
      hide Inv;
      var call := calls[c];
      if !call.phase.Ready? || call.starting || !publishes {
        return false, None;
      }
      payload := call.held;
      if call.held.Some? {
        replies := replies[call.held.value := replies[call.held.value].(place := Gone, delivered := true)];
      }
      calls := calls[c := call.(phase := Consumed, held := None, boundary := 0, releasing := true, owed :=
        call.boundary, host := call.host.(kept := false))];
      taken := true;
    }

    /** `stop`. */
    method Stop(c: nat) returns (stopped: bool)
      requires Inv(Now(), limits) && c < |calls|
      modifies this`calls, this`replies
      ensures Inv(Now(), limits) && Now() == Apply(old(Now()), limits, Cancel(c)) && (stopped <==> old(Open(calls[c])))
      ensures stopped ==> calls[c].phase.Canceled? && calls[c].held.None?
      ensures stopped && old(calls[c].host.kept) ==> calls[c].host.canceling == old(calls[c].host.canceling) + 1
      ensures stopped && old(calls[c].held.Some?) ==>
        var r := old(calls[c].held.value); r < |replies| && !replies[r].place.HeldBy? && !replies[r].delivered
    {
      StepInv(Now(), limits, Cancel(c));
      HeldExists(Now(), limits, c);
      hide Inv;
      var call := calls[c];
      if call.phase.Consumed? || call.phase.Canceled? {
        return false;
      }
      if call.held.Some? {
        var reply := replies[call.held.value];
        replies := replies[call.held.value := reply.(place := if reply.disposable then Discarding else Gone)];
      }
      calls := calls[c := call.(phase := Canceled, held := None, boundary := 0, releasing := true, owed :=
        call.boundary, host := HandleSettled(call.host, true))];
      stopped := true;
    }

    /** `releasePendingEvent` of a settled call. */
    method ReleasePendingEvent(c: nat)
      requires Inv(Now(), limits) && c < |calls| && calls[c].releasing
      modifies this`calls, this`events, this`bytes
      ensures Inv(Now(), limits) && Now() == Apply(old(Now()), limits, ReleaseEvent(c))
    {
      StepInv(Now(), limits, ReleaseEvent(c));
      hide Inv;
      events, bytes := events - 1, bytes - calls[c].owed;
      calls := calls[c := calls[c].(releasing := false, owed := 0)];
    }
  }
}
