/**
  * Exported resources by their steps: when a resource can be borrowed and dropped, when it is attempted and closed,
  * and that a route set can always be closed.
  */
module ResourceRuns {
  import opened Prelude
  import opened Resources

  ghost function Before(steps: seq<Step>, n: nat): State
    requires n <= |steps|
  {
    Run(steps[..n])
  }

  // ----- what a step does -----

  /** What happens to a resource: each of these happens at one step. */
  datatype Event =
    | Accepts(id: Id)
    | Claims(id: Id)
    | Attempts(id: Id)
    | Closes(id: Id)

  /** A result that was published and is not decided is accepted while the route set accepts. */
  predicate AcceptsResult(s: State, step: Step) {
    && step.Decide? && step.accept && step.call in s.owners && step.call in s.objects && step.call !in s.decided
    && step.w !in s.used && Accepting(s.mode)
  }

  /** A drop or a release registers the first close attempt of the resource. */
  predicate ClaimsResource(s: State, step: Step, id: Id) {
    && id in s.resources && id !in s.attempts
    && (|| (step.Drop? && step.id == id && step.w !in s.used && Accepting(s.mode) && s.resources[id].active)
        || (step.BeginAttempt? && Ready(s, step.who, Idle) && Head(s, step.who) == id
          && (step.who.Cleaner? ==> Quiet(s))))
  }

  predicate Does(s: State, step: Step, e: Event) {
    match e
    case Accepts(id) => AcceptsResult(s, step) && id in s.objects[step.call]
    case Claims(id) => ClaimsResource(s, step, id)
    case Attempts(id) =>
      && step.StartClose? && Ready(s, step.who, Claimed) && Head(s, step.who) == id
      && id in s.resources && s.resources[id].borrowers == {}
    case Closes(id) => step.EndClose? && step.ok && Ready(s, step.who, Closing) && Head(s, step.who) == id
  }

  ghost predicate HappensAt(steps: seq<Step>, n: nat, e: Event) {
    n < |steps| && Does(Before(steps, n), steps[n], e)
  }

  ghost predicate Happened(steps: seq<Step>, e: Event) {
    exists n: nat :: HappensAt(steps, n, e)
  }

  lemma SameBefore(steps: seq<Step>, k: nat, e: Event)
    requires k < |steps| - 1
    ensures HappensAt(steps[..|steps| - 1], k, e) == HappensAt(steps, k, e)
  {
    assert steps[..|steps| - 1][..k] == steps[..k];
    hide Does, Run;
  }

  /** It happened before, or at the last step. */
  lemma HappenedLater(steps: seq<Step>, e: Event)
    requires steps != []
    ensures var n := |steps| - 1; Happened(steps, e) <==> Happened(steps[..n], e) || Does(Run(steps[..n]), steps[n], e)
  {
    var n := |steps| - 1;
    hide Does, Run;
    assert HappensAt(steps, n, e) == Does(Run(steps[..n]), steps[n], e);
    assert forall k: nat | k >= n :: !HappensAt(steps[..n], k, e);
    assert forall k: nat | k > n :: !HappensAt(steps, k, e);
    hide HappensAt;
    forall k: nat | k < n
      ensures HappensAt(steps[..n], k, e) == HappensAt(steps, k, e)
    {
      SameBefore(steps, k, e);
    }
  }

  // ----- results and provisional lists -----

  /** Until its decision the provisional list of a call names everything its result carries. */
  ghost predicate ResultsListed(s: State) {
    Accepting(s.mode) ==>
      forall c, id | c in s.objects && c !in s.decided && id in s.objects[c] :: id in Provisional(s, c)
  }

  lemma CallListed(s: State, step: Step)
    requires ResultsListed(s) && Staged(s) && CallStep(step)
    ensures ResultsListed(Apply(s, step))
  {
    hide Present, Activated, Borrowable, Borrowed, Given, Without, Dropped;
  }

  lemma StepListed(s: State, step: Step)
    requires ResultsListed(s) && Staged(s)
    ensures ResultsListed(Apply(s, step))
  {
    if CallStep(step) {
      CallListed(s, step);
    } else {
      CloseSame(s, step);
      hide Apply;
    }
  }

  lemma {:induction false} RunListed(steps: seq<Step>)
    ensures ResultsListed(Run(steps))
    decreases |steps|
  {
    if steps != [] {
      var n := |steps| - 1;
      RunListed(steps[..n]);
      RunInv(steps[..n]);
      hide Apply;
      StepListed(Run(steps[..n]), steps[n]);
    }
  }

  // ----- one resource through one step -----

  /** What a step does to a resource that was there. */
  ghost predicate Moved(s: State, t: State, id: Id, accepted: bool, claimed: bool) {
    if id in t.resources && id in s.resources then
      && (t.resources[id].active <==> s.resources[id].active || accepted)
      && (id in t.attempts <==> id in s.attempts || claimed)
    else
      id in s.resources ==> t.mode == Closed || id in s.attempts
  }

  lemma CallMoves(s: State, step: Step, id: Id)
    requires CallStep(step) && Inv(s) && ResultsListed(s) && id in s.resources
    ensures Moved(s, Apply(s, step), id, Does(s, step, Accepts(id)), false) && id in Apply(s, step).resources
    ensures !Does(s, step, Claims(id))
  {
    hide Present, Borrowable, Without, Dropped, Attempting, LostApart, ObjectsNamed, LateOnly, Accounted;
    hide ProvisionalApart, BorrowsMatch;
  }

  /** A step that exports nothing: resources may go, none comes. */
  predicate Shrinks(s: State, t: State) {
    t.resources.Keys <= s.resources.Keys && t.nextResource == s.nextResource
  }

  lemma WithReleaserKeeps(s: State, who: Closer, r: Releaser)
    requires ReleaserOf(s, who).Some?
    ensures WithReleaser(s, who, r).resources == s.resources && WithReleaser(s, who, r).attempts == s.attempts
    ensures WithReleaser(s, who, r).attempted == s.attempted && WithReleaser(s, who, r).closed == s.closed
    ensures WithReleaser(s, who, r).mode == s.mode && WithReleaser(s, who, r).nextResource == s.nextResource
  {
  }

  lemma BeginMoves(s: State, who: Closer, id: Id)
    ensures Moved(s, Begin(s, who), id, false, ClaimsResource(s, BeginAttempt(who), id)) && Shrinks(s, Begin(s, who))
  {
    if Ready(s, who, Idle) {
      WithReleaserKeeps(s, who, ReleaserOf(s, who).value.(phase := Claimed));
      WithReleaserKeeps(s, who, Releaser(ReleaserOf(s, who).value.todo[1..], Idle));
    }
    hide WithReleaser, Quiet;
  }

  lemma EnterMoves(s: State, who: Closer, id: Id)
    ensures Moved(s, Enter(s, who), id, false, false) && Shrinks(s, Enter(s, who))
  {
    if Ready(s, who, Claimed) {
      WithReleaserKeeps(s, who, ReleaserOf(s, who).value.(phase := Closing));
    }
    hide WithReleaser;
  }

  /** The thread that closes a resource has claimed it. */
  lemma ClosingClaimed(s: State, who: Closer)
    requires AttemptsMatch(s) && Ready(s, who, Closing)
    ensures Head(s, who) in s.attempts
  {
    assert PhaseOf(s, who) != Idle && Current(s, who) == Head(s, who);
  }

  lemma EndMoves(s: State, who: Closer, ok: bool, id: Id)
    requires AttemptsMatch(s)
    ensures Moved(s, End(s, who, ok), id, false, false) && Shrinks(s, End(s, who, ok))
  {
    if Ready(s, who, Closing) {
      ClosingClaimed(s, who);
      WithReleaserKeeps(s, who, Releaser(ReleaserOf(s, who).value.todo[1..], Idle));
    }
    hide WithReleaser, AttemptsMatch, Without;
  }

  lemma WorkMoves(s: State, w: WorkId, c: Call, d: Id, id: Id)
    requires AttemptsMatch(s)
    ensures Moved(s, Abandon(s, w, c), id, false, false) && Shrinks(s, Abandon(s, w, c))
    ensures Moved(s, Settle(s, d), id, false, false) && Shrinks(s, Settle(s, d))
    ensures Moved(s, Finish(s, w), id, false, false) && Shrinks(s, Finish(s, w))
  {
  }

  lemma DropMoves(s: State, w: WorkId, d: Id, id: Id)
    ensures Moved(s, BeginDrop(s, w, d), id, false, ClaimsResource(s, Drop(w, d), id)) && Shrinks(s, BeginDrop(s, w, d))
  {
  }

  lemma SetMoves(s: State, force: bool, list: seq<Id>, id: Id)
    ensures Moved(s, Clean(s, force, list), id, false, false) && Moved(s, EndClean(s), id, false, false)
    ensures Shrinks(s, Clean(s, force, list)) && Shrinks(s, EndClean(s))
  {
    hide Snapshot, Quiet;
  }

  lemma CloseMoves(s: State, step: Step, id: Id)
    requires !CallStep(step) && AttemptsMatch(s)
    ensures Moved(s, Apply(s, step), id, false, Does(s, step, Claims(id))) && !Does(s, step, Accepts(id))
    ensures Shrinks(s, Apply(s, step))
  {
    hide Moved, Shrinks, AttemptsMatch;
    match step
    case BeginAttempt(who) => BeginMoves(s, who, id);
    case StartClose(who) => EnterMoves(s, who, id);
    case EndClose(who, ok) => EndMoves(s, who, ok, id);
    case ReleaseAbandoned(w, c) => WorkMoves(s, w, c, 0, id);
    case Drop(w, d) => DropMoves(s, w, d, id);
    case SettleDrop(d) => WorkMoves(s, 0, 0, d, id);
    case FinishWork(w) => WorkMoves(s, w, 0, 0, id);
    case BeginCleanup(force, list) => SetMoves(s, force, list, id);
    case EndCleanup => SetMoves(s, false, [], id);
    case CloseSet => ModeMoves(s, id);
  }

  lemma ModeMoves(s: State, id: Id)
    ensures Moved(s, Apply(s, CloseSet), id, false, false) && Shrinks(s, Apply(s, CloseSet))
  {
  }

  lemma StepMoves(s: State, step: Step, id: Id)
    requires Inv(s) && ResultsListed(s) && id in s.resources
    ensures Moved(s, Apply(s, step), id, Does(s, step, Accepts(id)), Does(s, step, Claims(id)))
  {
    if CallStep(step) {
      CallMoves(s, step, id);
    } else {
      CloseMoves(s, step, id);
    }
    hide *;
  }

  /** A new resource is neither active nor claimed, and nothing happens to one that is not there. */
  ghost predicate Fresh(s: State, step: Step, id: Id) {
    var t := Apply(s, step);
    && s.nextResource <= t.nextResource
    && (s.nextResource < id <= t.nextResource ==> id in t.resources)
    && (id in t.resources && id !in s.resources ==>
      id > s.nextResource && !t.resources[id].active && id !in t.attempts)
    && (id == 0 || id > s.nextResource ==> !Does(s, step, Accepts(id)) && !Does(s, step, Claims(id)))
  }

  lemma ExportFresh(s: State, c: Call, id: Id)
    requires Named(s)
    ensures Fresh(s, Export(c), id)
  {
    hide Provisional;
  }

  lemma CallKeepsKeys(s: State, step: Step)
    requires CallStep(step) && !step.Export?
    ensures Apply(s, step).resources.Keys == s.resources.Keys && Apply(s, step).nextResource == s.nextResource
  {
    hide Present, Borrowable, Without, Dropped, Provisional;
  }

  lemma NothingFresh(s: State, step: Step, id: Id)
    requires ObjectsNamed(s) && Named(s) && (id == 0 || id > s.nextResource)
    ensures !Does(s, step, Accepts(id)) && !Does(s, step, Claims(id))
  {
  }

  lemma StepFresh(s: State, step: Step, id: Id)
    requires Inv(s)
    ensures Fresh(s, step, id)
  {
    if step.Export? {
      ExportFresh(s, step.call, id);
    } else {
      if CallStep(step) {
        CallKeepsKeys(s, step);
      } else {
        CloseMoves(s, step, id);
      }
      if id == 0 || id > s.nextResource {
        NothingFresh(s, step, id);
      }
      hide Apply, Does, Inv, Moved;
    }
  }

  lemma ClosedStays(s: State, step: Step)
    requires s.mode == Closed
    ensures Apply(s, step).mode == Closed
  {
    if CallStep(step) {
      CallMonotone(s, step);
      hide Apply;
    } else {
      match step
      case BeginAttempt(who) => BeginSame(s, who);
      case StartClose(who) => EnterSame(s, who);
      case EndClose(who, ok) => EndSame(s, who, ok);
      case _ =>
    }
  }

  // ----- the history of a resource -----

  /** What the tables say of a resource is what happened to it. */
  ghost predicate ResourceTold(steps: seq<Step>, id: Id) {
    var s := Run(steps);
    && (id in s.resources ==> (s.resources[id].active <==> Happened(steps, Accepts(id))))
    && (id in s.resources ==> (id in s.attempts <==> Happened(steps, Claims(id))))
    && (0 < id <= s.nextResource && id !in s.resources && s.mode != Closed ==> Happened(steps, Claims(id)))
    && (Happened(steps, Accepts(id)) || Happened(steps, Claims(id)) ==> 0 < id <= s.nextResource)
  }

  lemma {:induction false} ResourceHistory(steps: seq<Step>, id: Id)
    ensures ResourceTold(steps, id)
    decreases |steps|
  {
    if steps != [] {
      var n := |steps| - 1;
      hide Apply, Does, Inv, Happened, ResultsListed;
      var s, step := Run(steps[..n]), steps[n];
      ResourceHistory(steps[..n], id);
      RunInv(steps[..n]);
      RunListed(steps[..n]);
      HappenedLater(steps, Accepts(id));
      HappenedLater(steps, Claims(id));
      StepFresh(s, step, id);
      if id in s.resources {
        StepMoves(s, step, id);
      }
      if s.mode == Closed {
        ClosedStays(s, step);
      }
    }
  }

  // ----- when a resource can be used -----

  /** A new call that borrows these resources gets under way. */
  ghost predicate CallStarts(s: State, w: WorkId, c: Call, borrows: set<Id>, service: bool) {
    w !in s.works && w in Apply(s, StartCall(w, c, borrows, service)).works
  }

  /** A new drop of the resource gets under way. */
  ghost predicate DropStarts(s: State, w: WorkId, id: Id) {
    w !in s.works && w in Apply(s, Drop(w, id)).works
  }

  /** The resource came with an accepted result, and no close attempt has been registered for it since. */
  ghost predicate Usable(steps: seq<Step>, id: Id) {
    Happened(steps, Accepts(id)) && !Happened(steps, Claims(id))
  }

  /**
    * Over every run: a new call gets under way if and only if the route set takes calls of its kind and everything it
    * borrows came with an accepted result and has not been claimed by a close attempt.
    */
  lemma BorrowIff(steps: seq<Step>, w: WorkId, c: Call, borrows: set<Id>, service: bool)
    requires w !in Run(steps).used && c !in Run(steps).calls
    ensures CallStarts(Run(steps), w, c, borrows, service) <==>
            && (if service then Run(steps).mode == Open else Accepting(Run(steps).mode))
            && (forall id | id in borrows :: Usable(steps, id))
  {
    var s := Run(steps);
    RunInv(steps);
    assert w !in s.works;
    hide Run, Happened, Inv;
    if s.mode != Closed {
      forall id | id in borrows
        ensures (id in s.resources && s.resources[id].active && id !in s.attempts) <==> Usable(steps, id)
      {
        ResourceHistory(steps, id);
      }
    }
    hide Usable;
  }

  /**
    * A drop gets under way if and only if the route set accepts, the resource came with an accepted result and is
    * still there, and no close attempt of it is under way.
    */
  lemma DropIff(steps: seq<Step>, w: WorkId, id: Id)
    requires w !in Run(steps).used
    ensures var s := Run(steps);
      DropStarts(s, w, id) <==>
        Accepting(s.mode) && Happened(steps, Accepts(id)) && id in s.resources && (id in s.attempts ==> s.attempts[id])
  {
    RunInv(steps);
    ResourceHistory(steps, id);
    assert w !in Run(steps).works;
    hide Run, Happened, Inv;
  }

  lemma {:induction false} HappenedStays(steps: seq<Step>, rest: seq<Step>, e: Event)
    requires Happened(steps, e)
    ensures Happened(steps + rest, e)
  {
    var n: nat :| HappensAt(steps, n, e);
    assert (steps + rest)[..n] == steps[..n];
    hide Does, Run;
    assert HappensAt(steps + rest, n, e);
  }

  lemma HappensNow(steps: seq<Step>, step: Step, rest: seq<Step>, e: Event)
    requires Does(Run(steps), step, e)
    ensures Happened(steps + [step] + rest, e)
  {
    assert (steps + [step] + rest)[..|steps|] == steps;
    hide Does, Run;
    assert HappensAt(steps + [step] + rest, |steps|, e);
  }

  /**
    * Accepting makes the resources of a result usable. Whatever happens after the accept, as long as the route set
    * accepts and no close attempt has been registered for the resource, a call can borrow it and a drop can start;
    * before the accept neither could.
    */
  lemma AcceptedUsable(steps: seq<Step>, step: Step, rest: seq<Step>, w: WorkId, c: Call, id: Id)
    requires AcceptsResult(Run(steps), step) && id in Run(steps).objects[step.call]
    requires w !in Run(steps + [step] + rest).used && c !in Run(steps + [step] + rest).calls
    requires Accepting(Run(steps + [step] + rest).mode) && !Happened(steps + [step] + rest, Claims(id))
    ensures CallStarts(Run(steps + [step] + rest), w, c, {id}, false) && DropStarts(Run(steps + [step] + rest), w, id)
  {
    var all := steps + [step] + rest;
    HappensNow(steps, step, rest, Accepts(id));
    BorrowIff(all, w, c, {id}, false);
    DropIff(all, w, id);
    ResourceHistory(all, id);
    hide Run, Happened, CallStarts, DropStarts, AcceptsResult;
    assert Usable(all, id);
  }

  lemma UnusableBefore(steps: seq<Step>, step: Step, n: nat, w: WorkId, c: Call, id: Id)
    requires AcceptsResult(Run(steps), step) && id in Run(steps).objects[step.call]
    requires n <= |steps| && w !in Run(steps[..n]).used && c !in Run(steps[..n]).calls
    ensures !CallStarts(Run(steps[..n]), w, c, {id}, false) && !DropStarts(Run(steps[..n]), w, id)
  {
    RunInv(steps);
    RunListed(steps);
    assert Apart(Run(steps), step.call, id);
    ResourceHistory(steps, id);
    assert !Happened(steps, Accepts(id));
    assert steps[..n] + steps[n..] == steps;
    if Happened(steps[..n], Accepts(id)) {
      HappenedStays(steps[..n], steps[n..], Accepts(id));
      assert false;
    }
    BorrowIff(steps[..n], w, c, {id}, false);
    DropIff(steps[..n], w, id);
    hide Run, Happened, CallStarts, DropStarts, AcceptsResult;
    assert !Usable(steps[..n], id) && id in {id};
  }

  /** A decided result can be released again, all of it, as long as the route set accepts. */
  lemma AbandonedReleased(steps: seq<Step>, w: WorkId, c: Call)
    requires w !in Run(steps).used
    ensures var s, t := Run(steps), Apply(Run(steps), ReleaseAbandoned(w, c));
      if Accepting(s.mode) && c in s.objects && c in s.decided then
        w in t.works && t.works[w] == Releasing(Releaser(s.objects[c], Idle), None)
      else w !in t.works
  {
    RunInv(steps);
    hide Run;
  }

  // ----- attempts and closes -----

  lemma CallAttempts(s: State, step: Step)
    requires CallStep(step)
    ensures Apply(s, step).attempted == s.attempted && Apply(s, step).closed == s.closed
  {
    hide Present, Borrowable, Without, Dropped, Provisional;
  }

  lemma StepAttempts(s: State, step: Step, id: Id)
    ensures id in Apply(s, step).attempted <==> id in s.attempted || Does(s, step, Attempts(id))
    ensures id in Apply(s, step).closed <==> id in s.closed || Does(s, step, Closes(id))
  {
    if CallStep(step) {
      CallAttempts(s, step);
    } else {
      if step.BeginAttempt? && Ready(s, step.who, Idle) {
        WithReleaserKeeps(s, step.who, ReleaserOf(s, step.who).value.(phase := Claimed));
        WithReleaserKeeps(s, step.who, Releaser(ReleaserOf(s, step.who).value.todo[1..], Idle));
      }
      if step.StartClose? && Ready(s, step.who, Claimed) {
        WithReleaserKeeps(s, step.who, ReleaserOf(s, step.who).value.(phase := Closing));
      }
      if step.EndClose? && Ready(s, step.who, Closing) {
        WithReleaserKeeps(s, step.who, Releaser(ReleaserOf(s, step.who).value.todo[1..], Idle));
      }
      hide WithReleaser, Quiet, Snapshot, Without;
    }
  }

  /** Close attempts and successful closes are exactly those that steps made. */
  lemma {:induction false} AttemptHistory(steps: seq<Step>, id: Id)
    ensures id in Run(steps).attempted <==> Happened(steps, Attempts(id))
    ensures id in Run(steps).closed <==> Happened(steps, Closes(id))
    decreases |steps|
  {
    if steps != [] {
      var n := |steps| - 1;
      hide Apply, Does, Happened;
      AttemptHistory(steps[..n], id);
      HappenedLater(steps, Attempts(id));
      HappenedLater(steps, Closes(id));
      StepAttempts(Run(steps[..n]), steps[n], id);
    }
  }
}
