/**
  * Provisional results by their steps: who decided, who was told, when the result counts as given up, when it is
  * released, and that no run gets stuck.
  */
module TwoPhaseRuns {
  import opened TwoPhase

  ghost function Before(steps: seq<Step>, n: nat): State
    requires n <= |steps|
  {
    Run(steps[..n])
  }

  // ----- what a step does -----

  /** What happens to a result: each of these happens at one step. */
  datatype Event =
    | Decides(accept: bool)
    | AppliesIt
    | Ends(error: bool)
    | Tells(w: Waiter)
    | GivesUp
    | ReleaseFails

  predicate Comes(s: State, step: Step) {
    step.Enter? && step.w !in s.waiting && step.w !in s.told
  }

  predicate Goes(s: State, step: Step) {
    step.Leave? && Awake(s, step.w, step.canceled)
  }

  predicate Does(s: State, step: Step, e: Event) {
    match e
    // the first caller decides, for a discard if its context has ended; so does a shutdown
    case Decides(accept) =>
      && !s.d.decided
      && ((Comes(s, step) && accept == (step.wish.accept && !step.wish.canceled)) || (step.Shutdown? && !accept))
    case AppliesIt => step.ApplyDecision? && s.d.pending > 0
    case Ends(error) => step == FinishDecision(error) && s.d.applying > 0
    case Tells(w) => Goes(s, step) && step.w == w && !step.canceled && !s.failed
    // the last waiter leaves because its context has ended, and nobody was told that the result is its
    case GivesUp => Goes(s, step) && step.canceled && s.waiting.Keys == {step.w} && s.told == map[]
    case ReleaseFails => step == FinishRelease(true) && s.releasing > 0
  }

  ghost predicate HappensAt(steps: seq<Step>, n: nat, e: Event) {
    n < |steps| && Does(Before(steps, n), steps[n], e)
  }

  ghost predicate Happened(steps: seq<Step>, e: Event) {
    exists n: nat :: HappensAt(steps, n, e)
  }

  lemma SameBefore(steps: seq<Step>, k: nat, e: Event)
    requires k < |steps| - 1
    ensures HappensAt(steps[..|steps| - 1], k, e) == HappensAt(steps, k, e)
  {
    assert steps[..|steps| - 1][..k] == steps[..k];
    hide Does;
  }

  /** It happened before, or at the last step. */
  lemma HappenedLater(steps: seq<Step>, e: Event)
    requires steps != []
    ensures var n := |steps| - 1; Happened(steps, e) <==> Happened(steps[..n], e) || Does(Run(steps[..n]), steps[n], e)
  {
    var n := |steps| - 1;
    assert HappensAt(steps, n, e) == Does(Run(steps[..n]), steps[n], e);
    assert forall k: nat | k >= n :: !HappensAt(steps[..n], k, e);
    assert forall k: nat | k > n :: !HappensAt(steps, k, e);
    hide HappensAt, Does, Run;
    forall k: nat | k < n
      ensures HappensAt(steps[..n], k, e) == HappensAt(steps, k, e)
    {
      SameBefore(steps, k, e);
    }
  }

  // ----- one step -----

  /** Claiming the release changes nothing else. */
  lemma CleanedSame(s: State)
    ensures var t := Cleaned(s);
      t.d == s.d && t.told == s.told && t.waiting == s.waiting && t.abandoned == s.abandoned
        && t.delivered == s.delivered && t.failed == s.failed
  {
  }

  lemma LeftSame(s: State, w: Waiter, canceled: bool)
    requires w in s.waiting && s.waiters > 0
    ensures Left(s, w, canceled).d == s.d
  {
  }

  /** The decision after a step. */
  lemma StepDecision(s: State, step: Step)
    ensures Apply(s, step).d ==
      (if Comes(s, step) then Claimed(s.d, step.wish.accept && !step.wish.canceled)
       else if step.Shutdown? then Claimed(s.d, false)
       else if step.ApplyDecision? && s.d.pending > 0 then Applied(s.d)
       else if step.FinishDecision? && s.d.applying > 0 then Ended(s.d)
       else s.d)
  {
    if step.FinishDecision? && s.d.applying > 0 {
      CleanedSame(s.(d := Ended(s.d), failed := step.error));
    }
    if Goes(s, step) {
      LeftSame(s, step.w, step.canceled);
    }
    hide Cleaned, Left, Applied, Ended, Claimed;
  }

  lemma StepDecides(s: State, step: Step, accept: bool)
    ensures Apply(s, step).d.decided && Apply(s, step).d.accepted == accept <==>
      (s.d.decided && s.d.accepted == accept) || Does(s, step, Decides(accept))
  {
    StepDecision(s, step);
    hide Apply;
  }

  lemma StepApplies(s: State, step: Step)
    ensures |Apply(s, step).d.applied| > 0 <==> |s.d.applied| > 0 || Does(s, step, AppliesIt)
  {
    StepDecision(s, step);
    hide Apply;
  }

  lemma StepEnds(s: State, step: Step)
    ensures Apply(s, step).d.done <==> s.d.done || Does(s, step, Ends(true)) || Does(s, step, Ends(false))
  {
    StepDecision(s, step);
    hide Apply;
  }

  lemma StepTells(s: State, step: Step, w: Waiter)
    ensures w in Apply(s, step).told <==> w in s.told || Does(s, step, Tells(w))
  {
    if step.FinishDecision? && s.d.applying > 0 {
      CleanedSame(s.(d := Ended(s.d), failed := step.error));
      hide Cleaned, Left;
    } else {
      hide Claimed, Applied;
    }
  }

  lemma StepDelivers(s: State, step: Step)
    requires s.delivered <==> s.told != map[]
    ensures Apply(s, step).delivered <==> Apply(s, step).told != map[]
  {
    if step.FinishDecision? && s.d.applying > 0 {
      CleanedSame(s.(d := Ended(s.d), failed := step.error));
      hide Cleaned, Left;
    } else if Goes(s, step) {
      assert step.w in Apply(s, step).told || Apply(s, step).told == s.told;
    } else {
      hide Left, Cleaned;
    }
  }

  lemma StepGivesUp(s: State, step: Step)
    requires WaitersMatch(s) && (s.delivered <==> s.told != map[])
    ensures Apply(s, step).abandoned <==> s.abandoned || Does(s, step, GivesUp)
  {
    if Goes(s, step) {
      Removed(s.waiting, step.w);
      assert s.waiters == 1 <==> s.waiting.Keys == {step.w} by {
        assert |s.waiting.Keys| == |s.waiting|;
        if s.waiters == 1 {
          assert (s.waiting - {step.w}).Keys == s.waiting.Keys - {step.w};
        }
      }
    }
  }

  lemma StepFails(s: State, step: Step)
    requires Inv(s) && (s.failed ==> s.d.done)
    ensures Apply(s, step).failed <==> s.failed || Does(s, step, Ends(true)) || Does(s, step, ReleaseFails)
    ensures Apply(s, step).failed ==> Apply(s, step).d.done
  {
    hide Awake, WaitersMatch;
  }

  /** What the fields say is what happened. */
  ghost predicate DecisionTold(steps: seq<Step>) {
    var s := Run(steps);
    && (forall accept :: s.d.decided && s.d.accepted == accept <==> Happened(steps, Decides(accept)))
    && (|s.d.applied| > 0 <==> Happened(steps, AppliesIt))
    && (s.d.done <==> Happened(steps, Ends(true)) || Happened(steps, Ends(false)))
  }

  ghost predicate WaitersTold(steps: seq<Step>) {
    var s := Run(steps);
    && (forall w :: w in s.told <==> Happened(steps, Tells(w)))
    && (s.delivered <==> s.told != map[])
    && (s.abandoned <==> Happened(steps, GivesUp))
  }

  ghost predicate FailureTold(steps: seq<Step>) {
    var s := Run(steps);
    (s.failed <==> Happened(steps, Ends(true)) || Happened(steps, ReleaseFails)) && (s.failed ==> s.d.done)
  }

  lemma {:induction false} DecisionHistory(steps: seq<Step>)
    ensures DecisionTold(steps)
    decreases |steps|
  {
    if steps != [] {
      var n := |steps| - 1;
      DecisionHistory(steps[..n]);
      hide Apply, Does, Happened;
      forall accept
        ensures Run(steps).d.decided && Run(steps).d.accepted == accept <==> Happened(steps, Decides(accept))
      {
        HappenedLater(steps, Decides(accept));
        StepDecides(Run(steps[..n]), steps[n], accept);
      }
      HappenedLater(steps, AppliesIt);
      HappenedLater(steps, Ends(true));
      HappenedLater(steps, Ends(false));
      StepApplies(Run(steps[..n]), steps[n]);
      StepEnds(Run(steps[..n]), steps[n]);
    }
  }

  lemma {:induction false} WaiterHistory(steps: seq<Step>)
    ensures WaitersTold(steps)
    decreases |steps|
  {
    if steps != [] {
      var n := |steps| - 1;
      WaiterHistory(steps[..n]);
      RunInv(steps[..n]);
      hide Apply, Does, Happened;
      forall w
        ensures w in Run(steps).told <==> Happened(steps, Tells(w))
      {
        HappenedLater(steps, Tells(w));
        StepTells(Run(steps[..n]), steps[n], w);
      }
      StepDelivers(Run(steps[..n]), steps[n]);
      HappenedLater(steps, GivesUp);
      StepGivesUp(Run(steps[..n]), steps[n]);
    }
  }

  lemma {:induction false} FailureHistory(steps: seq<Step>)
    ensures FailureTold(steps)
    decreases |steps|
  {
    if steps != [] {
      var n := |steps| - 1;
      FailureHistory(steps[..n]);
      RunInv(steps[..n]);
      hide Apply, Does, Happened, Inv;
      HappenedLater(steps, Ends(true));
      HappenedLater(steps, ReleaseFails);
      StepFails(Run(steps[..n]), steps[n]);
    }
  }

  // ----- over every interleaving -----

  /** A result is decided as its first caller, or a shutdown before any, wanted it, and not otherwise. */
  lemma DecidedAsFirst(steps: seq<Step>, accept: bool)
    ensures Run(steps).d.decided && Run(steps).d.accepted == accept <==> Happened(steps, Decides(accept))
    ensures !(Happened(steps, Decides(true)) && Happened(steps, Decides(false)))
  {
    DecisionHistory(steps);
    hide Run, Happened;
  }

  /**
    * A caller waits for the outcome if and only if the result was not decided the other way and, for an accept, was
    * not given up before.
    */
  lemma EntryIff(steps: seq<Step>, w: Waiter, wish: Wish)
    requires w !in Run(steps).waiting && w !in Run(steps).told
    ensures EntryOf(Run(steps), wish) == (if Happened(steps, Decides(!wish.accept)) then Conflict
      else if wish.accept && Happened(steps, GivesUp) then Abandoned else Waits)
    ensures w in Run(steps + [Enter(w, wish)]).waiting <==> EntryOf(Run(steps), wish) == Waits
  {
    DecisionHistory(steps);
    WaiterHistory(steps);
    assert (steps + [Enter(w, wish)])[..|steps|] == steps;
    hide Happened;
  }

  /**
    * The release runs, once, if and only if the result was decided to be accepted, its owner took that decision
    * without an error, and the last waiter left with its context ended when nobody had been told.
    */
  lemma ReleasedIff(steps: seq<Step>)
    ensures Run(steps).releases == (if Happened(steps, Decides(true)) && Happened(steps, Ends(false))
      && Happened(steps, GivesUp) then 1 else 0)
  {
    DecisionHistory(steps);
    WaiterHistory(steps);
    ReleaseHistory(steps);
    RunInv(steps);
    hide Run, Happened;
  }

  /** When the release has been claimed, by what happened before. */
  ghost predicate ReleaseTold(steps: seq<Step>) {
    var s := Run(steps);
    && (s.cleaned <==> s.d.accepted && s.abandoned && Happened(steps, Ends(false)))
    && (Happened(steps, ReleaseFails) ==> s.cleaned)
    && !(Happened(steps, Ends(true)) && Happened(steps, Ends(false)))
  }

  lemma StepCleans(s: State, step: Step, well: bool)
    requires Inv(s) && (s.cleaned <==> s.d.accepted && s.abandoned && well)
    requires (well ==> s.d.done && (s.failed ==> s.cleaned)) && (s.d.done && !s.failed ==> well)
    ensures var t := Apply(s, step);
      t.cleaned <==> t.d.accepted && t.abandoned && (well || Does(s, step, Ends(false)))
  {
    hide WaitersMatch;
  }

  lemma {:induction false} ReleaseHistory(steps: seq<Step>)
    ensures ReleaseTold(steps)
    decreases |steps|
  {
    if steps != [] {
      var n := |steps| - 1;
      var s, step := Run(steps[..n]), steps[n];
      ReleaseHistory(steps[..n]);
      RunInv(steps[..n]);
      FailureHistory(steps[..n]);
      DecisionHistory(steps[..n]);
      HappenedLater(steps, Ends(false));
      HappenedLater(steps, Ends(true));
      HappenedLater(steps, ReleaseFails);
      StepCleans(s, step, Happened(steps[..n], Ends(false)));
      NotAgain(s, step);
      hide Happened, Apply, Does, OneDecision, WaitersMatch;
    }
  }

  /** A decision ends once, and only a claimed release can fail. */
  lemma NotAgain(s: State, step: Step)
    requires Inv(s)
    ensures s.d.done ==> !Does(s, step, Ends(true)) && !Does(s, step, Ends(false))
    ensures Does(s, step, ReleaseFails) ==> s.cleaned
    ensures s.cleaned ==> Apply(s, step).cleaned
  {
    hide WaitersMatch;
  }

  // ----- nothing gets stuck -----

  function Onward(s: State, steps: seq<Step>): State
    decreases |steps|
  {
    if steps == [] then s else Onward(Apply(s, steps[0]), steps[1..])
  }

  lemma {:induction false} RunOnward(steps: seq<Step>, rest: seq<Step>)
    ensures Run(steps + rest) == Onward(Run(steps), rest)
    decreases |rest|
  {
    if rest == [] {
      assert steps + rest == steps;
    } else {
      var more := steps + [rest[0]];
      assert more[..|steps|] == steps && more + rest[1..] == steps + rest;
      RunOnward(more, rest[1..]);
      hide Apply;
    }
  }

  /** Nobody waits, and no decision and no release is under way. */
  predicate Resting(s: State) {
    s.waiting == map[] && s.d.pending == 0 && s.d.applying == 0 && s.releasing == 0
  }

  function Work(s: State): nat {
    3 * s.d.pending + 2 * s.d.applying + s.releasing + 2 * s.waiters
  }

  /** A waiter whose context has not ended is told, or waits on, or the result has failed. */
  predicate Served(s: State, w: Waiter, wish: Wish) {
    w in s.told || (w in s.waiting && s.waiting[w] == wish) || (s.failed && s.d.done)
  }

  /** Where something is under way, a decision thread, a release or a waiter can go on. */
  lemma NextMove(s: State) returns (step: Step)
    requires Inv(s) && !Resting(s)
    ensures Work(Apply(s, step)) < Work(s)
    ensures forall w: Waiter, wish: Wish | !wish.canceled && Served(s, w, wish) :: Served(Apply(s, step), w, wish)
  {
    if s.d.pending > 0 {
      step := ApplyDecision;
    } else if s.d.applying > 0 {
      step := FinishDecision(false);
    } else if s.releasing > 0 {
      step := FinishRelease(false);
    } else {
      var w :| w in s.waiting;
      step := Leave(w, s.waiting[w].canceled);
      LeaveMoves(s, w);
    }
  }

  lemma LeaveMoves(s: State, w: Waiter)
    requires Inv(s) && s.d.pending == 0 && s.d.applying == 0 && s.releasing == 0 && w in s.waiting
    ensures Work(Apply(s, Leave(w, s.waiting[w].canceled))) < Work(s)
    ensures forall v: Waiter, wish: Wish | !wish.canceled && Served(s, v, wish) ::
      Served(Apply(s, Leave(w, s.waiting[w].canceled)), v, wish)
  {
    Removed(s.waiting, w);
    assert s.waiters > 0 && s.d.done;
    hide OneDecision, WaitersMatch, ReleaseMatches;
  }

  lemma {:induction false} FinishAll(s: State) returns (rest: seq<Step>)
    requires Inv(s)
    ensures Resting(Onward(s, rest))
    ensures forall w: Waiter, wish: Wish | !wish.canceled && Served(s, w, wish) :: Served(Onward(s, rest), w, wish)
    decreases Work(s)
  {
    hide Apply, Inv, Work, Resting, Served;
    if Resting(s) {
      rest := [];
    } else {
      var step := NextMove(s);
      StepInv(s, step);
      var more := FinishAll(Apply(s, step));
      rest := [step] + more;
      assert rest[1..] == more;
    }
  }

  /**
    * From every run a result can be brought to rest: a decision that was taken has been applied, nobody waits any
    * more, and whoever was waiting with a live context has been told, unless owner or release reported an error.
    */
  lemma CanComeToRest(steps: seq<Step>) returns (rest: seq<Step>)
    ensures var s := Run(steps + rest);
      && Resting(s) && (s.d.decided ==> s.d.done && s.d.applied == [s.d.accepted])
      && (forall w | w in Run(steps).waiting && !Run(steps).waiting[w].canceled :: w in s.told || s.failed)
  {
    RunInv(steps);
    rest := FinishAll(Run(steps));
    RunOnward(steps, rest);
    RunInv(steps + rest);
    hide Run, Onward;
    forall w | w in Run(steps).waiting && !Run(steps).waiting[w].canceled
      ensures w in Run(steps + rest).told || Run(steps + rest).failed
    {
      assert Served(Run(steps), w, Run(steps).waiting[w]);
    }
  }
}
