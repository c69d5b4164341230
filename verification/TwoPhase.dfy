/** Provisional results: one decision, many waiters, and the release of a result nobody received. */
module TwoPhase {
  type Waiter = nat

  /** What a caller of `Accept` or `Discard` is told at once, or that it has to wait. */
  datatype Entry = Waits | Conflict | Abandoned

  /** How a waiter leaves. */
  datatype Exit = Canceled | Failed | Delivered

  /** What a waiter asked for, and whether its context had ended when it came. */
  datatype Wish = Wish(accept: bool, canceled: bool)

  /**
    * The decision: the locked fields, the decision threads that have not applied it yet, those that have and are on
    * their way to the lock, and as history the decisions applied.
    */
  datatype Decision = Decision(decided: bool, accepted: bool, done: bool, pending: nat, applying: nat,
    applied: seq<bool>)

  /**
    * The other locked fields, who waits, the releases that have not reported back, and as history the releases
    * started and who was told that its decision holds.
    */
  datatype State = State(
    d: Decision, waiters: nat, delivered: bool, abandoned: bool, cleaned: bool, failed: bool,
    waiting: map<Waiter, Wish>, releasing: nat, releases: nat, told: map<Waiter, Wish>)

  const START := State(Decision(false, false, false, 0, 0, []), 0, false, false, false, false, map[], 0, 0, map[])

  /** One locked region of a caller, of a decision thread, of a release or of a shutdown. */
  datatype Step =
    | Enter(w: Waiter, wish: Wish)
    | ApplyDecision
    | FinishDecision(error: bool)
    | Leave(w: Waiter, canceled: bool)
    | FinishRelease(error: bool)
    | Shutdown

  // ----- the steps -----

  /** The decision of the first caller; an accept that comes with an ended context discards. */
  function Claimed(d: Decision, accept: bool): Decision {
    if d.decided then d else d.(decided := true, accepted := accept, pending := d.pending + 1)
  }

  function EntryOf(s: State, wish: Wish): Entry {
    if s.d.decided && s.d.accepted != wish.accept then Conflict else if s.abandoned && wish.accept then Abandoned
      else Waits
  }

  function Entered(s: State, w: Waiter, wish: Wish): State {
    var d := Claimed(s.d, wish.accept && !wish.canceled);
    if EntryOf(s, wish) == Waits then s.(d := d, waiters := s.waiters + 1, waiting := s.waiting[w := wish])
      else s.(d := d)
  }

  /** The decision thread calls the owner with the decision. */
  function Applied(d: Decision): Decision
    requires d.pending > 0
  {
    d.(pending := d.pending - 1, applying := d.applying + 1, applied := d.applied + [d.accepted])
  }

  /** A decision thread reports back. */
  function Ended(d: Decision): Decision
    requires d.applying > 0
  {
    d.(applying := d.applying - 1, done := true)
  }

  /** The release of a result that was accepted for nobody starts, unless it has been started. */
  function Cleaned(s: State): State {
    if s.d.done && s.d.accepted && s.abandoned && !s.cleaned && !s.failed
    then s.(cleaned := true, releases := s.releases + 1, releasing := s.releasing + 1) else s
  }

  function Left(s: State, w: Waiter, canceled: bool): State
    requires w in s.waiting && s.waiters > 0
  {
    var t := s.(waiters := s.waiters - 1, waiting := s.waiting - {w});
    if canceled then Cleaned(t.(abandoned := t.abandoned || (t.waiters == 0 && !t.delivered)))
    else if t.failed then t
    else t.(delivered := true, told := t.told[w := s.waiting[w]])
  }

  /** A waiter wakes when the decision is done or its context has ended. */
  predicate Awake(s: State, w: Waiter, canceled: bool) {
    w in s.waiting && s.waiters > 0 && (s.d.done || canceled) && (s.waiting[w].canceled ==> canceled)
  }

  /** One step; one that is not possible at its turn changes nothing. */
  function Apply(s: State, step: Step): State {
    match step
    case Enter(w, wish) => if w in s.waiting || w in s.told then s else Entered(s, w, wish)
    case ApplyDecision => if s.d.pending == 0 then s else s.(d := Applied(s.d))
    case FinishDecision(error) => if s.d.applying == 0 then s else Cleaned(s.(d := Ended(s.d), failed := error))
    case Leave(w, canceled) => if Awake(s, w, canceled) then Left(s, w, canceled) else s
    case FinishRelease(error) => if s.releasing == 0 then s
      else s.(releasing := s.releasing - 1, failed := s.failed || error)
    case Shutdown => s.(d := Claimed(s.d, false))
  }

  ghost function Run(steps: seq<Step>): State {
    if steps == [] then START else Apply(Run(steps[..|steps| - 1]), steps[|steps| - 1])
  }

  // ----- what every step keeps -----

  /** One decision thread is started by whoever decides, and it applies what was decided. */
  ghost predicate OneDecision(d: Decision) {
    && d.pending + d.applying + (if d.done then 1 else 0) == (if d.decided then 1 else 0)
    && d.applied == (if d.decided && d.pending == 0 then [d.accepted] else [])
    && (!d.decided ==> !d.accepted)
  }

  ghost predicate WaitersMatch(s: State) {
    && s.waiters == |s.waiting| && (!s.d.decided ==> s.waiting == map[] && s.told == map[])
    // a waiter that stays wants what was decided, or came with an ended context
    && (forall w | w in s.waiting && !s.waiting[w].canceled :: s.waiting[w].accept == s.d.accepted)
    && (forall w | w in s.told :: s.delivered && s.told[w].accept == s.d.accepted)
  }

  ghost predicate ReleaseMatches(s: State) {
    && s.releases == (if s.cleaned then 1 else 0) && s.releasing <= s.releases
    && (s.cleaned ==> s.d.done && s.d.accepted && s.abandoned) && (s.delivered ==> s.d.done)
    && (s.abandoned ==> s.d.decided)
    // an accepted result that was given up has nobody left to receive it, and nobody comes any more
    && (s.d.accepted && s.abandoned ==> s.waiters == 0 && !s.delivered)
  }

  ghost predicate Inv(s: State) {
    OneDecision(s.d) && WaitersMatch(s) && ReleaseMatches(s)
  }

  lemma Removed(m: map<Waiter, Wish>, w: Waiter)
    requires w in m
    ensures |m - {w}| == |m| - 1 && (|m| == 1 ==> m - {w} == map[])
  {
    assert (m - {w}).Keys == m.Keys - {w};
    assert |m| == |m.Keys| && |m - {w}| == |(m - {w}).Keys|;
  }

  lemma StepDecision(s: State, step: Step)
    requires OneDecision(s.d)
    ensures OneDecision(Apply(s, step).d)
  {
    assert [] + [s.d.accepted] == [s.d.accepted];
  }

  lemma StepStays(s: State, step: Step)
    requires s.d.decided
    ensures Apply(s, step).d.decided && Apply(s, step).d.accepted == s.d.accepted
  {
  }

  lemma StepWaiters(s: State, step: Step)
    requires Inv(s)
    ensures WaitersMatch(Apply(s, step))
  {
    if step.Leave? && step.w in s.waiting {
      Removed(s.waiting, step.w);
    }
  }

  lemma StepRelease(s: State, step: Step)
    requires Inv(s)
    ensures ReleaseMatches(Apply(s, step))
  {
    if step.Leave? && step.w in s.waiting {
      Removed(s.waiting, step.w);
    }
  }

  lemma StepInv(s: State, step: Step)
    requires Inv(s)
    ensures Inv(Apply(s, step))
  {
    StepDecision(s, step);
    StepWaiters(s, step);
    StepRelease(s, step);
    hide Apply, OneDecision, WaitersMatch, ReleaseMatches;
  }

  lemma StartInv()
    ensures Inv(START)
  {
  }

  lemma {:induction false} RunInv(steps: seq<Step>)
    ensures Inv(Run(steps))
    decreases |steps|
  {
    hide Apply, Inv;
    if steps == [] {
      StartInv();
    } else {
      RunInv(steps[..|steps| - 1]);
      StepInv(Run(steps[..|steps| - 1]), steps[|steps| - 1]);
    }
  }

  // ----- over every interleaving -----

  /**
    * At most one decision is applied, it is the one that was taken, and it has been applied once no decision thread
    * is due.
    */
  lemma DecisionAppliedOnce(steps: seq<Step>)
    ensures var s := Run(steps);
      |s.d.applied| <= 1 && (s.d.decided && s.d.pending == 0 ==> s.d.applied == [s.d.accepted])
        && (s.d.done ==> s.d.applied == [s.d.accepted])
  {
    RunInv(steps);
    hide Run;
  }

  lemma {:induction false} DecisionStays(steps: seq<Step>, n: nat)
    requires n <= |steps| && Run(steps[..n]).d.decided
    ensures Run(steps).d.decided && Run(steps).d.accepted == Run(steps[..n]).d.accepted
    decreases |steps|
  {
    hide Apply;
    if n < |steps| {
      var before := steps[..|steps| - 1];
      assert before[..n] == steps[..n];
      DecisionStays(before, n);
      StepStays(Run(before), steps[|steps| - 1]);
    } else {
      assert steps[..n] == steps;
    }
  }

  /** The release runs at most once, and never when an accepting waiter was told that the result is its. */
  lemma ReleaseOnce(steps: seq<Step>, w: Waiter)
    ensures var s := Run(steps); s.releases <= 1 && (w in s.told && s.told[w].accept ==> s.releases == 0)
  {
    RunInv(steps);
    hide Run;
  }

  /** Whoever is told that its decision holds asked for the decision that was applied. */
  lemma ToldTheTruth(steps: seq<Step>, w: Waiter)
    requires w in Run(steps).told
    ensures var s := Run(steps); s.d.applied == [s.told[w].accept]
  {
    RunInv(steps);
    hide Run;
  }

  /** An accepted result that everybody has given up is released, unless the decision failed. */
  lemma AbandonedIsReleased(steps: seq<Step>)
    ensures var s := Run(steps); s.d.done && s.d.accepted && s.abandoned && !s.failed ==> s.releases == 1
  {
    RunReleases(steps);
    RunInv(steps);
    hide Run;
  }

  lemma StepReleases(s: State, step: Step)
    requires Inv(s) && (s.d.done && s.d.accepted && s.abandoned && !s.failed ==> s.cleaned)
    ensures var t := Apply(s, step); t.d.done && t.d.accepted && t.abandoned && !t.failed ==> t.cleaned
  {
  }

  lemma {:induction false} RunReleases(steps: seq<Step>)
    ensures var s := Run(steps); s.d.done && s.d.accepted && s.abandoned && !s.failed ==> s.cleaned
    decreases |steps|
  {
    hide Apply, Inv;
    if steps != [] {
      var before := steps[..|steps| - 1];
      RunReleases(before);
      RunInv(before);
      StepReleases(Run(before), steps[|steps| - 1]);
    }
  }

  // ----- the result itself -----

  class Result {
    var decided: bool
    var accepted: bool
    var done: bool
    var waiters: nat
    var delivered: bool
    var abandoned: bool
    var cleaned: bool
    var failed: bool
    // what runs beside the fields, and the history
    ghost var waiting: map<Waiter, Wish>
    ghost var pending: nat
    ghost var applying: nat
    ghost var releasing: nat
    ghost var applied: seq<bool>
    ghost var releases: nat
    ghost var told: map<Waiter, Wish>

    ghost function Now(): State
      reads this
    {
      State(Decision(decided, accepted, done, pending, applying, applied), waiters, delivered, abandoned, cleaned,
        failed, waiting, releasing, releases, told)
    }

    constructor ()
      ensures Now() == START
    {
      decided, accepted, done, waiters, delivered, abandoned, cleaned, failed :=
        false, false, false, 0, false, false, false, false;
      waiting, pending, applying, releasing, applied, releases, told := map[], 0, 0, 0, [], 0, map[];
    }

    /** First locked region of `decide`; the first caller starts the decision. */
    method Enter(w: Waiter, wish: Wish) returns (entry: Entry)
      modifies this
      ensures Now() == Entered(old(Now()), w, wish) && entry == EntryOf(old(Now()), wish)
    {
      if !decided {
        accepted, decided := wish.accept && !wish.canceled, true;
        pending := pending + 1;
      } else if accepted != wish.accept {
        return Conflict;
      }
      if abandoned && wish.accept {
        return Abandoned;
      }
      waiters := waiters + 1;
      waiting := waiting[w := wish];
      entry := Waits;
    }

    /** `claimAbandonedReleaseLocked`. */
    method Claim() returns (release: bool)
      modifies this`cleaned, this`releases, this`releasing
      ensures Now() == Cleaned(old(Now())) && release == (Now() != old(Now()))
    {
      release := done && accepted && abandoned && !cleaned && !failed;
      if release {
        cleaned := true;
        releases, releasing := releases + 1, releasing + 1;
      }
    }

    /** The decision thread calls the owner with the decision. */
    method ApplyNow() returns (accept: bool)
      requires pending > 0
      modifies this`pending, this`applying, this`applied
      ensures Now() == Apply(old(Now()), ApplyDecision) && accept == accepted
    {
      accept := accepted;
      pending, applying, applied := pending - 1, applying + 1, applied + [accepted];
    }

    /** The locked end of `finishDecision`; closing `done` twice would stop the program. */
    method Finish(error: bool) returns (release: bool)
      requires Inv(Now()) && applying > 0
      modifies this
      ensures Now() == Apply(old(Now()), FinishDecision(error)) && !old(done)
    {
      applying := applying - 1;
      failed := error;
      done := true;
      release := Claim();
    }

    /** Second locked region of `decide`: a waiter wakes because the decision is done or its context ended. */
    method Depart(w: Waiter, canceled: bool) returns (exit: Exit, release: bool)
      requires Awake(Now(), w, canceled)
      modifies this
      ensures Now() == Left(old(Now()), w, canceled)
      ensures exit == (if canceled then Canceled else if old(failed) then Failed else Delivered)
    {
      ghost var wish := waiting[w];
      waiters := waiters - 1;
      waiting := waiting - {w};
      release := false;
      if canceled {
        if waiters == 0 && !delivered {
          abandoned := true;
        }
        release := Claim();
        return Canceled, release;
      }
      if failed {
        return Failed, false;
      }
      delivered := true;
      told := told[w := wish];
      exit := Delivered;
    }

    /** The end of `releaseAbandoned`: an error of the release is remembered. */
    method ReleaseDone(error: bool)
      requires releasing > 0
      modifies this`failed, this`releasing
      ensures Now() == Apply(old(Now()), FinishRelease(error))
    {
      failed := failed || error;
      releasing := releasing - 1;
    }

    /** `finishForShutdown`: joins a decision, or starts the one to discard. */
    method JoinForShutdown()
      requires Inv(Now())
      modifies this`decided, this`pending
      ensures Now() == old(Now()).(d := Claimed(old(Now().d), false))
    {
      if !decided {
        decided, pending := true, pending + 1;
      }
    }
  }
}
