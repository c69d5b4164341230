/**
  * Host calls by their steps: which step settled a call, which one gave a reply to the guest, and that from every
  * state everything that is under way can be brought to an end.
  */
module HostCallRuns {
  import opened Prelude
  import opened HostCall

  /** The state before step number `n`. */
  ghost function Before(steps: seq<Step>, n: nat, l: Limits): State
    requires n <= |steps|
  {
    Run(steps[..n], l)
  }

  lemma PrefixOf(steps: seq<Step>, n: nat, k: nat, l: Limits)
    requires n <= k <= |steps|
    ensures Before(steps[..k], n, l) == Before(steps, n, l)
  {
    assert steps[..k][..n] == steps[..n];
  }

  lemma Last(steps: seq<Step>, l: Limits)
    requires steps != []
    ensures Run(steps, l) == Apply(Before(steps, |steps| - 1, l), l, steps[|steps| - 1])
    ensures Before(steps, |steps| - 1, l) == Run(steps[..|steps| - 1], l)
  {
  }

  // ----- what a step does -----

  /** What happens to a reply or a call: each of these happens at one step. */
  datatype Event =
    | Took(r: nat)
    | Consumes(c: nat)
    | Cancels(c: nat)
    | Starts(c: nat)
    | GivesHandle(c: nat)
    | FailsToStart(c: nat)
    | Answers(c: nat)
    | CancelsHandle(c: nat)
    | Discards(r: nat)

  /** The start of call `c` returns with this step. */
  predicate StartReturns(s: State, step: Step, c: nat) {
    step.FinishStart? && step.c == c && c < |s.calls| && s.calls[c].starting
  }

  /** The guest takes the outcome of call `c` with this step. */
  predicate GuestTakes(s: State, step: Step, c: nat) {
    step == Consume(c) && c < |s.calls| && s.calls[c].phase.Ready? && !s.calls[c].starting
  }

  predicate Does(s: State, step: Step, e: Event) {
    match e
    case Took(r) => step.Consume? && GuestTakes(s, step, step.c) && s.calls[step.c].held == Some(r)
    case Consumes(c) => GuestTakes(s, step, c)
    case Cancels(c) => step == Cancel(c) && c < |s.calls| && Open(s.calls[c])
    case Starts(c) => StartReturns(s, step, c)
    case GivesHandle(c) => StartReturns(s, step, c) && step.handle
    case FailsToStart(c) => StartReturns(s, step, c) && step.failed
    case Answers(c) =>
      && c < |s.calls|
      && (|| (step.Complete? && step.r < |s.replies| && s.replies[step.r].place == Arriving(c)
            && s.calls[c].phase.Waiting?)
          || (StartReturns(s, step, c) && step.failed && Open(s.calls[c])))
    case CancelsHandle(c) => step == CancelHandle(c) && c < |s.calls| && s.calls[c].host.canceling > 0
    case Discards(r) => step == Discard(r) && r < |s.replies| && s.replies[r].place.Discarding?
  }

  ghost predicate HappensAt(steps: seq<Step>, l: Limits, n: nat, e: Event) {
    n < |steps| && Does(Before(steps, n, l), steps[n], e)
  }

  ghost predicate Happened(steps: seq<Step>, l: Limits, e: Event) {
    exists n: nat :: HappensAt(steps, l, n, e)
  }

  lemma SameBefore(steps: seq<Step>, l: Limits, k: nat, e: Event)
    requires k < |steps| - 1
    ensures HappensAt(steps[..|steps| - 1], l, k, e) == HappensAt(steps, l, k, e)
  {
    PrefixOf(steps, k, |steps| - 1, l);
    hide Does, Before;
  }

  /** It happened before, or at the last step. */
  lemma HappenedLater(steps: seq<Step>, l: Limits, e: Event)
    requires steps != []
    ensures var n := |steps| - 1;
      Happened(steps, l, e) <==> Happened(steps[..n], l, e) || Does(Run(steps[..n], l), steps[n], e)
  {
    var n := |steps| - 1;
    assert HappensAt(steps, l, n, e) == Does(Run(steps[..n], l), steps[n], e);
    assert forall k: nat | k >= n :: !HappensAt(steps[..n], l, k, e);
    assert forall k: nat | k > n :: !HappensAt(steps, l, k, e);
    hide HappensAt, Does, Run;
    forall k: nat | k < n
      ensures HappensAt(steps[..n], l, k, e) == HappensAt(steps, l, k, e)
    {
      SameBefore(steps, l, k, e);
    }
  }

  lemma StepStays(s: State, l: Limits, step: Step)
    ensures |s.replies| <= |Apply(s, l, step).replies| && |s.calls| <= |Apply(s, l, step).calls|
  {
  }

  // ----- replies -----

  lemma StepReply(s: State, l: Limits, step: Step, r: nat)
    requires Inv(s, l) && r < |s.replies|
    ensures var t := Apply(s, l, step);
      && r < |t.replies|
      && (t.replies[r].delivered <==> s.replies[r].delivered || Does(s, step, Took(r)))
      && t.replies[r].discards == s.replies[r].discards + (if Does(s, step, Discards(r)) then 1 else 0)
  {
    hide Counted, RepliesOk, HandlesOk, PaidOk;
  }

  /** Nobody takes or discards a reply before it has come. */
  lemma NoReplyYet(s: State, l: Limits, step: Step, r: nat)
    requires Inv(s, l) && r >= |s.replies|
    ensures !Does(s, step, Took(r)) && !Does(s, step, Discards(r))
    ensures r < |Apply(s, l, step).replies| ==>
      !Apply(s, l, step).replies[r].delivered && Apply(s, l, step).replies[r].discards == 0
  {
    hide Counted, RepliesOk, HandlesOk, PaidOk;
  }

  /** The history kept with a reply is what happened to it. */
  ghost predicate ReplyTold(steps: seq<Step>, l: Limits, r: nat) {
    if r < |Run(steps, l).replies| then
      && (Run(steps, l).replies[r].delivered <==> Happened(steps, l, Took(r)))
      && (Run(steps, l).replies[r].discards > 0 <==> Happened(steps, l, Discards(r)))
    else !Happened(steps, l, Took(r)) && !Happened(steps, l, Discards(r))
  }

  lemma {:induction false} ReplyHistory(steps: seq<Step>, l: Limits, r: nat)
    ensures ReplyTold(steps, l, r)
    decreases |steps|
  {
    if steps != [] {
      var n := |steps| - 1;
      var before := steps[..n];
      ReplyHistory(before, l, r);
      RunInv(before, l);
      HappenedLater(steps, l, Took(r));
      HappenedLater(steps, l, Discards(r));
      if r < |Run(before, l).replies| {
        StepReply(Run(before, l), l, steps[n], r);
      } else {
        NoReplyYet(Run(before, l), l, steps[n], r);
      }
      hide Apply, Inv, Does, Happened;
    }
  }

  /**
    * Over every run: a reply that a step handed to the guest is done with and is never discarded; any other
    * disposable reply that is done with was discarded at one step, and a reply that need not be is not.
    */
  lemma ReplyFate(steps: seq<Step>, l: Limits, r: nat)
    requires r < |Run(steps, l).replies|
    ensures var reply := Run(steps, l).replies[r];
      && (Happened(steps, l, Took(r)) ==> reply.place.Gone? && !Happened(steps, l, Discards(r)))
      && (reply.place.Gone? && reply.disposable && !Happened(steps, l, Took(r)) ==> Happened(steps, l, Discards(r)))
      && (Happened(steps, l, Discards(r)) ==> reply.place.Gone? && reply.disposable)
      && reply.discards == (if Happened(steps, l, Discards(r)) then 1 else 0)
  {
    ReplyHistory(steps, l, r);
    RunInv(steps, l);
    hide Run, Happened;
    assert ReplyOk(Run(steps, l).replies[r]);
  }

  // ----- calls -----

  lemma StepSettles(s: State, l: Limits, step: Step, c: nat)
    requires c < |s.calls|
    ensures var call, next := s.calls[c], Apply(s, l, step).calls[c];
      && (next.phase.Consumed? <==> call.phase.Consumed? || Does(s, step, Consumes(c)))
      && (next.phase.Canceled? <==> call.phase.Canceled? || Does(s, step, Cancels(c)))
  {
    hide HandleStarted, HandleSettled, HeldBytes;
  }

  lemma StepAnswers(s: State, l: Limits, step: Step, c: nat)
    requires c < |s.calls|
    ensures var call, next := s.calls[c], Apply(s, l, step).calls[c];
      Open(next) ==> (next.phase.Ready? <==> call.phase.Ready? || Does(s, step, Answers(c)))
  {
    hide HandleStarted, HandleSettled, HeldBytes;
  }

  lemma StepStarts(s: State, l: Limits, step: Step, c: nat)
    requires c < |s.calls|
    ensures Apply(s, l, step).calls[c].starting <==> s.calls[c].starting && !Does(s, step, Starts(c))
  {
    hide HeldBytes, Open, HandleStarted, HandleSettled;
  }

  lemma StepGives(s: State, l: Limits, step: Step, c: nat)
    requires c < |s.calls| && HandleOk(s.calls[c])
    ensures Apply(s, l, step).calls[c].host.given <==> s.calls[c].host.given || Does(s, step, GivesHandle(c))
    ensures Apply(s, l, step).calls[c].host.broken <==> s.calls[c].host.broken || Does(s, step, FailsToStart(c))
  {
    hide HeldBytes, Open;
  }

  lemma StepCancelsHandle(s: State, l: Limits, step: Step, c: nat)
    requires c < |s.calls|
    ensures var call, next := s.calls[c], Apply(s, l, step).calls[c];
      next.host.cancels == call.host.cancels + (if Does(s, step, CancelsHandle(c)) then 1 else 0)
  {
    hide HeldBytes, Open;
  }

  /** A call that has just been created has no history. */
  lemma NoCallYet(s: State, l: Limits, step: Step, c: nat, e: Event)
    requires c >= |s.calls| && !e.Took? && !e.Discards? && e.c == c
    ensures !Does(s, step, e)
    ensures c < |Apply(s, l, step).calls| ==> Apply(s, l, step).calls[c] == NewCall(Apply(s, l, step).calls[c].boundary)
  {
  }

  /** What a call remembers is what happened to it. */
  ghost predicate PhaseTold(steps: seq<Step>, l: Limits, c: nat)
    requires c < |Run(steps, l).calls|
  {
    var call := Run(steps, l).calls[c];
    && (call.phase.Consumed? <==> Happened(steps, l, Consumes(c)))
    && (call.phase.Canceled? <==> Happened(steps, l, Cancels(c)))
    && (Open(call) ==> (call.phase.Ready? <==> Happened(steps, l, Answers(c))))
  }

  ghost predicate HostTold(steps: seq<Step>, l: Limits, c: nat)
    requires c < |Run(steps, l).calls|
  {
    var call := Run(steps, l).calls[c];
    && (call.starting <==> !Happened(steps, l, Starts(c)))
    && (call.host.given <==> Happened(steps, l, GivesHandle(c)))
    && (call.host.broken <==> Happened(steps, l, FailsToStart(c)))
    && (call.host.cancels > 0 <==> Happened(steps, l, CancelsHandle(c)))
  }

  lemma {:induction false} NothingYet(steps: seq<Step>, l: Limits, e: Event)
    requires !e.Took? && !e.Discards? && e.c >= |Run(steps, l).calls|
    ensures !Happened(steps, l, e)
    decreases |steps|
  {
    if steps != [] {
      var n := |steps| - 1;
      StepStays(Run(steps[..n], l), l, steps[n]);
      NothingYet(steps[..n], l, e);
      HappenedLater(steps, l, e);
      NoCallYet(Run(steps[..n], l), l, steps[n], e.c, e);
      hide Apply, Does, Happened;
    }
  }

  lemma {:induction false} PhaseHistory(steps: seq<Step>, l: Limits, c: nat)
    requires c < |Run(steps, l).calls|
    ensures PhaseTold(steps, l, c)
    decreases |steps|
  {
    if steps != [] {
      var n := |steps| - 1;
      var before := steps[..n];
      HappenedLater(steps, l, Consumes(c));
      HappenedLater(steps, l, Cancels(c));
      HappenedLater(steps, l, Answers(c));
      if c < |Run(before, l).calls| {
        PhaseHistory(before, l, c);
        StepSettles(Run(before, l), l, steps[n], c);
        StepAnswers(Run(before, l), l, steps[n], c);
      } else {
        NothingYet(before, l, Consumes(c));
        NothingYet(before, l, Cancels(c));
        NothingYet(before, l, Answers(c));
        NoCallYet(Run(before, l), l, steps[n], c, Consumes(c));
        NoCallYet(Run(before, l), l, steps[n], c, Cancels(c));
        NoCallYet(Run(before, l), l, steps[n], c, Answers(c));
      }
      hide Apply, Does, Happened;
    }
  }

  lemma {:induction false} HostHistory(steps: seq<Step>, l: Limits, c: nat)
    requires c < |Run(steps, l).calls|
    ensures HostTold(steps, l, c)
    decreases |steps|
  {
    if steps != [] {
      var n := |steps| - 1;
      var before := steps[..n];
      HappenedLater(steps, l, Starts(c));
      HappenedLater(steps, l, GivesHandle(c));
      HappenedLater(steps, l, FailsToStart(c));
      HappenedLater(steps, l, CancelsHandle(c));
      if c < |Run(before, l).calls| {
        HostHistory(before, l, c);
        RunInv(before, l);
        assert HandleOk(Run(before, l).calls[c]);
        StepStarts(Run(before, l), l, steps[n], c);
        StepGives(Run(before, l), l, steps[n], c);
        StepCancelsHandle(Run(before, l), l, steps[n], c);
      } else {
        NothingYet(before, l, Starts(c));
        NothingYet(before, l, GivesHandle(c));
        NothingYet(before, l, FailsToStart(c));
        NothingYet(before, l, CancelsHandle(c));
        NoCallYet(Run(before, l), l, steps[n], c, Starts(c));
        NoCallYet(Run(before, l), l, steps[n], c, GivesHandle(c));
        NoCallYet(Run(before, l), l, steps[n], c, FailsToStart(c));
        NoCallYet(Run(before, l), l, steps[n], c, CancelsHandle(c));
      }
      hide Apply, Does, Happened, HandlesOk;
    }
  }

  /**
    * The guest's next attempt takes the outcome of a call if and only if its start has returned, a reply has come or
    * the start has failed, and the call is not settled: a failed start leaves an error to be taken.
    */
  lemma GuestCanTakeIff(steps: seq<Step>, l: Limits, c: nat)
    requires c < |Run(steps, l).calls|
    ensures Does(Run(steps, l), Consume(c), Consumes(c)) <==>
      Happened(steps, l, Starts(c)) && Happened(steps, l, Answers(c))
      && !Happened(steps, l, Consumes(c)) && !Happened(steps, l, Cancels(c))
  {
    PhaseHistory(steps, l, c);
    HostHistory(steps, l, c);
    hide Run, Happened;
  }

  /** Settled once: a call is never both consumed and canceled. */
  lemma SettledOneWay(steps: seq<Step>, l: Limits, c: nat)
    requires c < |Run(steps, l).calls|
    ensures !(Happened(steps, l, Consumes(c)) && Happened(steps, l, Cancels(c)))
  {
    PhaseHistory(steps, l, c);
    hide Run, Happened;
  }

  /**
    * The host's handle of a call is canceled, or about to be, if and only if the host gave one and the call was
    * canceled or failed to start; it is canceled at most once.
    */
  lemma HandleFate(steps: seq<Step>, l: Limits, c: nat)
    requires c < |Run(steps, l).calls|
    ensures var host, due := Run(steps, l).calls[c].host,
        Happened(steps, l, GivesHandle(c)) && (Happened(steps, l, Cancels(c)) || Happened(steps, l, FailsToStart(c)));
      && host.canceling + host.cancels == (if due then 1 else 0)
      && (Happened(steps, l, CancelsHandle(c)) <==> due && host.canceling == 0)
  {
    PhaseHistory(steps, l, c);
    HostHistory(steps, l, c);
    RunInv(steps, l);
    hide Run, Happened;
    assert HandleOk(Run(steps, l).calls[c]);
  }

  // ----- a reply on its way to the guest -----

  /** A call stays with its relay as long as it is open. */
  ghost predicate OpenAttached(s: State) {
    forall c: nat | c < |s.calls| && Open(s.calls[c]) :: s.calls[c].attached
  }

  lemma StepAttached(s: State, l: Limits, step: Step)
    requires OpenAttached(s)
    ensures OpenAttached(Apply(s, l, step))
  {
    hide HandleStarted, HandleSettled, HeldBytes;
  }

  lemma {:induction false} RunAttached(steps: seq<Step>, l: Limits)
    ensures OpenAttached(Run(steps, l))
    decreases |steps|
  {
    if steps != [] {
      RunAttached(steps[..|steps| - 1], l);
      hide Apply;
      StepAttached(Run(steps[..|steps| - 1], l), l, steps[|steps| - 1]);
    }
  }

  /** A good reply that can be paid for, to a call that waits. */
  lemma ReplyHeld(s: State, l: Limits, c: nat, bytes: nat, disposable: bool)
    requires c < |s.calls| && s.calls[c].phase.Waiting? && s.calls[c].attached
    requires bytes <= l.bytes && (bytes == 0 || s.bytes + bytes <= l.bytes)
    ensures var t := Apply(Apply(s, l, Receive(c, bytes, false, disposable)), l, Complete(|s.replies|));
      c < |t.calls| && t.calls[c].phase.Ready? && t.calls[c].held == Some(|s.replies|)
  {
  }

  /** What a call holds it keeps until it is settled or its start fails. */
  lemma StepKeepsHeld(s: State, l: Limits, step: Step, c: nat)
    requires c < |s.calls| && s.calls[c].held.Some? && s.calls[c].phase.Ready?
    requires !Does(s, step, Consumes(c)) && !Does(s, step, Cancels(c)) && !Does(s, step, FailsToStart(c))
    ensures var t := Apply(s, l, step);
      c < |t.calls| && t.calls[c].held == s.calls[c].held && t.calls[c].phase.Ready?
  {
    hide HandleStarted, HandleSettled, HeldBytes;
  }

  lemma {:induction false} KeepsHeld(steps: seq<Step>, rest: seq<Step>, l: Limits, c: nat)
    requires var s := Run(steps, l); c < |s.calls| && s.calls[c].held.Some? && s.calls[c].phase.Ready?
    requires var all := steps + rest;
      !Happened(all, l, Consumes(c)) && !Happened(all, l, Cancels(c)) && !Happened(all, l, FailsToStart(c))
    ensures var t := Run(steps + rest, l);
      c < |t.calls| && t.calls[c].held == Run(steps, l).calls[c].held && t.calls[c].phase.Ready?
    decreases |rest|
  {
    if rest == [] {
      assert steps + rest == steps;
    } else {
      var n := |rest| - 1;
      var all := steps + rest;
      assert all[..|all| - 1] == steps + rest[..n] && all[|all| - 1] == rest[n];
      HappenedLater(all, l, Consumes(c));
      HappenedLater(all, l, Cancels(c));
      HappenedLater(all, l, FailsToStart(c));
      Last(all, l);
      hide Run, Apply, Does, Happened;
      KeepsHeld(steps, rest[..n], l, c);
      StepKeepsHeld(Run(steps + rest[..n], l), l, rest[n], c);
    }
  }

  /**
    * A good reply that arrives at a waiting call and can be paid for is what the guest takes, whatever happens in
    * between, once the start has returned well and unless the call was settled first.
    */
  lemma ReplyReachesGuest(steps: seq<Step>, l: Limits, c: nat, bytes: nat, disposable: bool, rest: seq<Step>)
    requires var s := Run(steps, l);
      c < |s.calls| && s.calls[c].phase.Waiting? && bytes <= l.bytes && (bytes == 0 || s.bytes + bytes <= l.bytes)
    requires var all := steps + [Receive(c, bytes, false, disposable), Complete(|Run(steps, l).replies|)] + rest;
      && !Happened(all, l, Consumes(c)) && !Happened(all, l, Cancels(c)) && !Happened(all, l, FailsToStart(c))
      && Happened(all, l, Starts(c))
    ensures var r := |Run(steps, l).replies|;
      var all := steps + [Receive(c, bytes, false, disposable), Complete(r)] + rest;
      Does(Run(all, l), Consume(c), Took(r))
  {
    var s, r := Run(steps, l), |Run(steps, l).replies|;
    var more := steps + [Receive(c, bytes, false, disposable), Complete(r)];
    RunAttached(steps, l);
    RunOnward(steps, [Receive(c, bytes, false, disposable), Complete(r)], l);
    OnwardTwo(s, l, Receive(c, bytes, false, disposable), Complete(r));
    ReplyHeld(s, l, c, bytes, disposable);
    hide Run, Apply, Onward, Happened;
    KeepsHeld(more, rest, l, c);
    HostHistory(more + rest, l, c);
  }

  lemma OnwardTwo(s: State, l: Limits, a: Step, b: Step)
    ensures Onward(s, l, [a, b]) == Apply(Apply(s, l, a), l, b)
  {
    hide Apply;
    assert [a, b][1..] == [b] && [b][1..] == [];
    assert Onward(s, l, [a, b]) == Onward(Apply(s, l, a), l, [b]);
    assert Onward(Apply(s, l, a), l, [b]) == Onward(Apply(Apply(s, l, a), l, b), l, []);
  }

  // ----- nothing gets stuck -----

  /** The state after more steps. */
  function Onward(s: State, l: Limits, steps: seq<Step>): State
    decreases |steps|
  {
    if steps == [] then s else Onward(Apply(s, l, steps[0]), l, steps[1..])
  }

  lemma {:induction false} RunOnward(steps: seq<Step>, rest: seq<Step>, l: Limits)
    ensures Run(steps + rest, l) == Onward(Run(steps, l), l, rest)
    decreases |rest|
  {
    if rest == [] {
      assert steps + rest == steps;
    } else {
      var more := steps + [rest[0]];
      assert more[..|steps|] == steps && more + rest[1..] == steps + rest;
      RunOnward(more, rest[1..], l);
      hide Apply;
    }
  }

  /** Quiet, with every start returned and every handle that had to be canceled. */
  predicate Idle(s: State) {
    Quiet(s) && forall c | 0 <= c < |s.calls| :: !s.calls[c].starting && s.calls[c].host.canceling == 0
  }

  function CallWork(call: Call): nat {
    (if call.starting then 1 else 0) + (if Open(call) then 4 else 0) + (if call.releasing then 1 else 0)
      + call.host.canceling
  }

  function ReplyWork(reply: Reply): nat {
    if reply.place.Gone? then 0 else if reply.place.Discarding? then 1 else 2
  }

  function CallsWork(calls: seq<Call>): nat {
    if calls == [] then 0 else CallsWork(calls[..|calls| - 1]) + CallWork(calls[|calls| - 1])
  }

  function RepliesWork(replies: seq<Reply>): nat {
    if replies == [] then 0 else RepliesWork(replies[..|replies| - 1]) + ReplyWork(replies[|replies| - 1])
  }

  function AdmissionWork(a: Admission): nat {
    match a
    case Nothing => 0
    case Event => 7
    case Request(_) => 6
  }

  /** What is left to do. */
  function Work(s: State): nat {
    AdmissionWork(s.admission) + CallsWork(s.calls) + RepliesWork(s.replies)
  }

  lemma {:induction false} CallsWorkUpdate(calls: seq<Call>, c: nat, call: Call)
    requires c < |calls|
    ensures CallsWork(calls[c := call]) + CallWork(calls[c]) == CallsWork(calls) + CallWork(call)
  {
    var n := |calls| - 1;
    if c == n {
      assert calls[c := call][..n] == calls[..n];
    } else {
      assert calls[c := call][..n] == calls[..n][c := call];
      CallsWorkUpdate(calls[..n], c, call);
    }
  }

  lemma {:induction false} RepliesWorkUpdate(replies: seq<Reply>, r: nat, reply: Reply)
    requires r < |replies|
    ensures RepliesWork(replies[r := reply]) + ReplyWork(replies[r]) == RepliesWork(replies) + ReplyWork(reply)
  {
    var n := |replies| - 1;
    if r == n {
      assert replies[r := reply][..n] == replies[..n];
    } else {
      assert replies[r := reply][..n] == replies[..n][r := reply];
      RepliesWorkUpdate(replies[..n], r, reply);
    }
  }

  lemma CancelWorks(s: State, l: Limits, c: nat)
    requires Inv(s, l) && c < |s.calls| && Open(s.calls[c])
    ensures Work(Apply(s, l, Cancel(c))) < Work(s)
  {
    var t := Apply(s, l, Cancel(c));
    CallsWorkUpdate(s.calls, c, t.calls[c]);
    assert PaidOk(s.calls[c]);
    if s.calls[c].held.Some? {
      var r := s.calls[c].held.value;
      assert Holds(s, c, r);
      RepliesWorkUpdate(s.replies, r, t.replies[r]);
    }
    hide Inv, CallsWork, RepliesWork;
  }

  lemma CallWorks(s: State, l: Limits, c: nat, step: Step)
    requires c < |s.calls|
    requires || (step == FinishStart(c, false, false) && s.calls[c].starting && !Open(s.calls[c]))
             || (step == ReleaseEvent(c) && s.calls[c].releasing && !Open(s.calls[c]))
             || (step == CancelHandle(c) && s.calls[c].host.canceling > 0)
    ensures Work(Apply(s, l, step)) < Work(s)
  {
    CallsWorkUpdate(s.calls, c, Apply(s, l, step).calls[c]);
    hide CallsWork, RepliesWork;
  }

  lemma ReplyWorks(s: State, l: Limits, r: nat, step: Step)
    requires r < |s.replies|
    requires || (step == Discard(r) && s.replies[r].place.Discarding?)
             || (step == Complete(r) && s.replies[r].place.Arriving? && s.replies[r].place.c < |s.calls|
               && !s.calls[s.replies[r].place.c].phase.Waiting?)
    ensures Work(Apply(s, l, step)) < Work(s)
  {
    RepliesWorkUpdate(s.replies, r, Apply(s, l, step).replies[r]);
    hide CallsWork, RepliesWork;
  }

  lemma AdmissionWorks(s: State, l: Limits, step: Step)
    requires || (step == ReserveRequest(0) && s.admission.Event?)
             || (step == Create && s.admission.Request?)
    ensures Work(Apply(s, l, step)) < Work(s)
  {
    if s.admission.Request? {
      assert (s.calls + [NewCall(s.admission.bytes)])[..|s.calls|] == s.calls;
    }
  }

  /** Where not everything is done, some step does some of it. */
  lemma SomethingToDo(s: State, l: Limits) returns (step: Step)
    requires Inv(s, l) && !Idle(s)
    ensures Work(Apply(s, l, step)) < Work(s)
  {
    hide Work;
    if c: nat :| c < |s.calls| && Open(s.calls[c]) {
      step := Cancel(c);
      CancelWorks(s, l, c);
    } else if c: nat :| c < |s.calls| && CallWork(s.calls[c]) > 0 {
      step := if s.calls[c].starting then FinishStart(c, false, false)
        else if s.calls[c].releasing then ReleaseEvent(c) else CancelHandle(c);
      CallWorks(s, l, c, step);
    } else if r: nat :| r < |s.replies| && !s.replies[r].place.Gone? {
      assert !s.replies[r].place.HeldBy?;
      step := if s.replies[r].place.Discarding? then Discard(r) else Complete(r);
      ReplyWorks(s, l, r, step);
    } else {
      step := if s.admission.Event? then ReserveRequest(0) else Create;
      AdmissionWorks(s, l, step);
    }
  }

  lemma {:induction false} FinishAll(s: State, l: Limits) returns (rest: seq<Step>)
    requires Inv(s, l)
    ensures Idle(Onward(s, l, rest))
    decreases Work(s)
  {
    hide Apply, Inv, Work, Idle;
    if Idle(s) {
      rest := [];
    } else {
      var step := SomethingToDo(s, l);
      StepInv(s, l, step);
      var more := FinishAll(Apply(s, l, step), l);
      rest := [step] + more;
      assert rest[1..] == more;
    }
  }

  /**
    * From every run the machine can be brought to rest: every call settled and every reply done with, so that the
    * counters are zero and every disposable reply was discarded unless a step had handed it to the guest.
    */
  lemma CanComeToRest(steps: seq<Step>, l: Limits) returns (rest: seq<Step>)
    ensures var s := Run(steps + rest, l);
      && Idle(s) && s.events == 0 && s.bytes == 0
      && (forall r: nat | r < |s.replies| && s.replies[r].disposable ::
        Happened(steps + rest, l, Discards(r)) <==> !Happened(steps + rest, l, Took(r)))
  {
    RunInv(steps, l);
    rest := FinishAll(Run(steps, l), l);
    RunOnward(steps, rest, l);
    QuietBalance(steps + rest, l);
    hide Run, Onward, Happened;
    forall r: nat | r < |Run(steps + rest, l).replies| && Run(steps + rest, l).replies[r].disposable
      ensures Happened(steps + rest, l, Discards(r)) <==> !Happened(steps + rest, l, Took(r))
    {
      ReplyFate(steps + rest, l, r);
      assert Run(steps + rest, l).replies[r].place.Gone?;
    }
  }
}
