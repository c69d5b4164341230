/**
  * A route set can always be closed: from every run of `Resources` there are further steps after which every handler
  * has returned, every result is decided, every close has been made and the set is closed.
  */
module ResourceClosing {
  import opened Prelude
  import opened Resources
  import opened ResourceRuns

  // ----- two more facts about every run -----

  /** Somebody is at work on the attempt, or a failed drop has still to report it. */
  ghost predicate Owned(s: State, id: Id) {
    id in s.settling || exists who :: PhaseOf(s, who) != Idle && Current(s, who) == id
  }

  predicate UnderWay(s: State, id: Id) {
    id in s.attempts && !s.attempts[id]
  }

  ghost predicate AttemptsOwned(s: State) {
    forall id | UnderWay(s, id) :: Owned(s, id)
  }

  /** The result has been decided against and is being released. */
  ghost predicate Held(s: State, c: Call) {
    exists w :: w in s.works && s.works[w].Releasing? && s.works[w].owner == Some(c)
  }

  ghost predicate OwnersHeld(s: State) {
    forall c | c in s.owners && c in s.decided :: Held(s, c)
  }

  /** Whoever was at work on an attempt still is. */
  ghost predicate BusyKept(s: State, t: State) {
    forall who | PhaseOf(s, who) != Idle :: PhaseOf(t, who) != Idle && Current(t, who) == Current(s, who)
  }

  lemma OwnedCarry(s: State, t: State)
    requires AttemptsOwned(s) && BusyKept(s, t) && s.settling <= t.settling
    requires forall id | UnderWay(t, id) :: UnderWay(s, id)
    ensures AttemptsOwned(t)
  {
    hide PhaseOf, Current, UnderWay;
    forall id | UnderWay(t, id)
      ensures Owned(t, id)
    {
      assert Owned(s, id);
    }
  }

  /** Nothing changes about the threads that release or drop something. */
  ghost predicate SameWorkers(s: State, t: State) {
    t.cleanup == s.cleanup && forall w | w in s.works && !InCall(s.works[w]) :: w in t.works && t.works[w] == s.works[w]
  }

  lemma SameWorkersKeep(s: State, t: State)
    requires SameWorkers(s, t)
    ensures BusyKept(s, t) && forall c: Call | Held(s, c) :: Held(t, c)
  {
  }

  lemma CallWorkers(s: State, step: Step)
    requires CallStep(step) && Named(s)
    ensures SameWorkers(s, Apply(s, step))
  {
    hide Present, Activated, Borrowable, Borrowed, Given, Without, Dropped, Provisional, Accepting;
  }

  lemma CallClaims(s: State, step: Step)
    requires CallStep(step)
    ensures Apply(s, step).attempts == s.attempts && Apply(s, step).settling == s.settling
  {
    hide Present, Activated, Borrowable, Borrowed, Given, Without, Dropped, Provisional, Accepting;
  }

  /** A call gets decided before its result is published, or with a thread that releases the result. */
  lemma DecideHeld(s: State, d: Call, w: WorkId, accept: bool, c: Call)
    requires c in DecideResult(s, d, w, accept).owners && c in DecideResult(s, d, w, accept).decided
    ensures (c in s.owners && c in s.decided) || Held(DecideResult(s, d, w, accept), c)
  {
    hide Present, Activated, Dropped, Accepting;
    if c !in s.decided {
      assert w in DecideResult(s, d, w, accept).works;
    }
  }

  lemma CallDecides(s: State, step: Step, c: Call)
    requires CallStep(step) && Named(s) && Staged(s) && c in Apply(s, step).owners && c in Apply(s, step).decided
    ensures (c in s.owners && c in s.decided) || Held(Apply(s, step), c)
  {
    hide Present, Activated, Borrowable, Borrowed, Given, Without, Dropped, Provisional, Accepting;
    if step.Decide? {
      DecideHeld(s, step.call, step.w, step.accept, c);
    } else {
      hide Held;
    }
  }

  lemma CallFacts(s: State, step: Step)
    requires CallStep(step) && Named(s) && Staged(s) && AttemptsOwned(s) && OwnersHeld(s)
    ensures AttemptsOwned(Apply(s, step)) && OwnersHeld(Apply(s, step))
  {
    CallWorkers(s, step);
    CallClaims(s, step);
    SameWorkersKeep(s, Apply(s, step));
    OwnedCarry(s, Apply(s, step));
    hide SameWorkers, AttemptsOwned, Held, Named, Staged;
    forall c | c in Apply(s, step).owners && c in Apply(s, step).decided
      ensures Held(Apply(s, step), c)
    {
      CallDecides(s, step, c);
    }
    hide Apply;
  }

  // ----- the threads that release something -----

  /** Only this thread's releaser changes, to `r`; its place is kept. */
  predicate Replaced(s: State, t: State, who: Closer, r: Releaser) {
    match who
    case Cleaner => t.cleanup == Some(r) && t.works == s.works
    case Worker(w) =>
      && w in s.works && (s.works[w].Releasing? || s.works[w].Dropping?) && t.cleanup == s.cleanup
      && t.works == s.works[w := s.works[w].(r := r)]
  }

  lemma ReplacedKeeps(s: State, t: State, who: Closer, r: Releaser)
    requires Replaced(s, t, who, r) && ReleaserOf(s, who).Some?
    ensures ReleaserOf(t, who) == Some(r)
    ensures forall other | other != who :: ReleaserOf(t, other) == ReleaserOf(s, other)
    ensures forall c: Call | Held(s, c) :: Held(t, c)
  {
    forall c: Call | Held(s, c)
      ensures Held(t, c)
    {
      var w: WorkId :| w in s.works && s.works[w].Releasing? && s.works[w].owner == Some(c);
      assert w in t.works && t.works[w].Releasing? && t.works[w].owner == Some(c);
    }
  }

  lemma BeginShape(s: State, who: Closer)
    requires Ready(s, who, Idle) && (who.Cleaner? ==> Quiet(s)) && !UnderWay(s, Head(s, who))
    ensures var t, id, todo := Begin(s, who), Head(s, who), ReleaserOf(s, who).value.todo;
      if id in s.resources then
        && Replaced(s, t, who, Releaser(todo, Claimed))
        && t == s.(works := t.works, cleanup := t.cleanup, attempts := s.attempts[id := false])
      else
        Replaced(s, t, who, Releaser(todo[1..], Idle)) && t == s.(works := t.works, cleanup := t.cleanup)
  {
    hide Quiet;
  }

  lemma EnterShape(s: State, who: Closer)
    requires Ready(s, who, Claimed) && Head(s, who) in s.resources && s.resources[Head(s, who)].borrowers == {}
    ensures var t, todo := Enter(s, who), ReleaserOf(s, who).value.todo;
      && Replaced(s, t, who, Releaser(todo, Closing))
      && t == s.(works := t.works, cleanup := t.cleanup, attempted := t.attempted)
  {
  }

  /** A successful close of a thread that goes on, and of a drop. */
  lemma EndShape(s: State, who: Closer)
    requires Ready(s, who, Closing)
    ensures var t, id, todo := End(s, who, true), Head(s, who), ReleaserOf(s, who).value.todo;
      && t == s.(works := t.works, cleanup := t.cleanup, resources := s.resources - {id}, attempts := s.attempts - {id},
        order := t.order, closed := t.closed)
      && if IsDrop(s, who) then t.works == s.works - {who.w} && t.cleanup == s.cleanup
         else Replaced(s, t, who, Releaser(todo[1..], Idle))
  {
    hide Without;
  }

  /** A failed close: during cleanup the resource goes, a drop reports later, and a release may be repeated. */
  lemma EndFailShape(s: State, who: Closer)
    requires Ready(s, who, Closing)
    ensures var t, id, todo := End(s, who, false), Head(s, who), ReleaserOf(s, who).value.todo;
      if IsDrop(s, who) then
        t == s.(works := s.works - {who.w}, settling := s.settling + {id})
      else
        && Replaced(s, t, who, Releaser(todo[1..], Idle)) && t.owners == s.owners && t.decided == s.decided
        && t.settling == s.settling
        && (t.attempts == s.attempts - {id} || t.attempts == s.attempts[id := true])
  {
    hide Without;
  }

  ghost predicate Facts(s: State) {
    AttemptsOwned(s) && OwnersHeld(s)
  }

  /** Threads that are at work, apart from one, go on as before. */
  ghost predicate OthersBusy(s: State, t: State, who: Closer) {
    forall other | other != who && PhaseOf(s, other) != Idle ::
      PhaseOf(t, other) != Idle && Current(t, other) == Current(s, other)
  }

  lemma OwnedByOthers(s: State, t: State, who: Closer)
    requires AttemptsOwned(s) && OthersBusy(s, t, who) && s.settling <= t.settling
    requires forall id | UnderWay(t, id) ::
      (UnderWay(s, id) && (PhaseOf(s, who) == Idle || Current(s, who) != id)) || Owned(t, id)
    ensures AttemptsOwned(t)
  {
    hide PhaseOf, Current, UnderWay;
    forall id | UnderWay(t, id)
      ensures Owned(t, id)
    {
      if UnderWay(s, id) && (PhaseOf(s, who) == Idle || Current(s, who) != id) {
        assert Owned(s, id);
      }
    }
  }

  lemma SamePhase(s: State, t: State, who: Closer)
    ensures ReleaserOf(t, who) == ReleaserOf(s, who) ==>
      PhaseOf(t, who) == PhaseOf(s, who) && Current(t, who) == Current(s, who)
  {
  }

  lemma BeginFacts(s: State, who: Closer)
    requires Facts(s)
    ensures Facts(Begin(s, who))
  {
    var t := Begin(s, who);
    if t != s {
      BeginShape(s, who);
      var id, todo := Head(s, who), ReleaserOf(s, who).value.todo;
      var r := if id in s.resources then Releaser(todo, Claimed) else Releaser(todo[1..], Idle);
      ReplacedKeeps(s, t, who, r);
      assert id in s.resources ==> PhaseOf(t, who) != Idle && Current(t, who) == id;
      hide Begin, Replaced, ReleaserOf, Held;
      forall other | other != who && PhaseOf(s, other) != Idle
        ensures PhaseOf(t, other) != Idle && Current(t, other) == Current(s, other)
      {
        SamePhase(s, t, other);
      }
      OwnedByOthers(s, t, who);
    }
  }

  lemma OthersKept(s: State, t: State, who: Closer)
    requires forall other | other != who :: ReleaserOf(t, other) == ReleaserOf(s, other)
    ensures OthersBusy(s, t, who)
  {
    hide ReleaserOf;
    forall other | other != who && PhaseOf(s, other) != Idle
      ensures PhaseOf(t, other) != Idle && Current(t, other) == Current(s, other)
    {
      SamePhase(s, t, other);
    }
  }

  lemma EnterFacts(s: State, who: Closer)
    requires Facts(s)
    ensures Facts(Enter(s, who))
  {
    var t := Enter(s, who);
    if t != s {
      EnterShape(s, who);
      var id, todo := Head(s, who), ReleaserOf(s, who).value.todo;
      ReplacedKeeps(s, t, who, Releaser(todo, Closing));
      assert PhaseOf(t, who) != Idle && Current(t, who) == id && Current(s, who) == id;
      hide Enter, Replaced, ReleaserOf, Held;
      OthersKept(s, t, who);
      OwnedByOthers(s, t, who);
    }
  }

  /** Without a dropping thread its threads are the same. */
  lemma DropGone(s: State, t: State, w: WorkId)
    requires w in s.works && s.works[w].Dropping? && t.works == s.works - {w} && t.cleanup == s.cleanup
    ensures forall other | other != Worker(w) :: ReleaserOf(t, other) == ReleaserOf(s, other)
    ensures forall c: Call | Held(s, c) :: Held(t, c)
  {
    forall c: Call | Held(s, c)
      ensures Held(t, c)
    {
      var v: WorkId :| v in s.works && s.works[v].Releasing? && s.works[v].owner == Some(c);
      assert v in t.works && t.works[v] == s.works[v];
    }
  }

  lemma EndFacts(s: State, who: Closer, ok: bool)
    requires Facts(s)
    ensures Facts(End(s, who, ok))
  {
    var t := End(s, who, ok);
    if Ready(s, who, Closing) {
      var id, todo := Head(s, who), ReleaserOf(s, who).value.todo;
      if ok {
        EndShape(s, who);
      } else {
        EndFailShape(s, who);
      }
      if IsDrop(s, who) {
        DropGone(s, t, who.w);
      } else {
        ReplacedKeeps(s, t, who, Releaser(todo[1..], Idle));
      }
      assert Current(s, who) == id;
      hide End, Replaced, ReleaserOf, Held, IsDrop;
      OthersKept(s, t, who);
      OwnedByOthers(s, t, who);
    }
  }

  lemma DropFacts(s: State, w: WorkId, id: Id)
    requires Facts(s) && Named(s)
    ensures Facts(BeginDrop(s, w, id))
  {
    var t := BeginDrop(s, w, id);
    if t != s {
      assert PhaseOf(t, Worker(w)) == Claimed && Current(t, Worker(w)) == id;
      assert SameWorkers(s, t);
      SameWorkersKeep(s, t);
      assert PhaseOf(s, Worker(w)) == Idle;
      hide PhaseOf, Current, Held, BeginDrop;
      OwnedByOthers(s, t, Worker(w));
    }
  }

  lemma SettleFacts(s: State, id: Id)
    requires Facts(s)
    ensures Facts(Settle(s, id))
  {
    var t := Settle(s, id);
    if id in s.settling {
      assert t.works == s.works && t.cleanup == s.cleanup;
      forall x | UnderWay(t, x)
        ensures Owned(t, x)
      {
        assert Owned(s, x);
        if x !in s.settling {
          var who :| PhaseOf(s, who) != Idle && Current(s, who) == x;
          assert PhaseOf(t, who) != Idle && Current(t, who) == x;
        }
      }
      forall c: Call | c in t.owners && c in t.decided
        ensures Held(t, c)
      {
        assert Held(s, c);
      }
    }
  }

  lemma AbandonFacts(s: State, w: WorkId, c: Call)
    requires Facts(s) && Named(s)
    ensures Facts(Abandon(s, w, c))
  {
    var t := Abandon(s, w, c);
    if t != s {
      assert SameWorkers(s, t);
      SameWorkersKeep(s, t);
      hide Held;
      OwnedCarry(s, t);
    }
  }

  lemma FinishFacts(s: State, w: WorkId)
    requires Facts(s)
    ensures Facts(Finish(s, w))
  {
    var t := Finish(s, w);
    if t != s {
      forall who | PhaseOf(s, who) != Idle
        ensures PhaseOf(t, who) != Idle && Current(t, who) == Current(s, who)
      {
        assert who != Worker(w);
      }
      OwnedCarry(s, t);
      forall c: Call | c in t.owners && c in t.decided
        ensures Held(t, c)
      {
        assert Held(s, c);
        var v: WorkId :| v in s.works && s.works[v].Releasing? && s.works[v].owner == Some(c);
        assert v != w && v in t.works;
      }
    }
  }

  lemma SetFacts(s: State, force: bool, list: seq<Id>)
    requires Facts(s) && Named(s)
    ensures Facts(Clean(s, force, list)) && Facts(EndClean(s)) && Facts(s.(mode := Draining))
  {
    hide Snapshot;
    var t := Clean(s, force, list);
    forall who | PhaseOf(s, who) != Idle
      ensures PhaseOf(t, who) != Idle && Current(t, who) == Current(s, who)
    {
    }
    OwnedCarry(s, t);
    OwnedCarry(s, s.(mode := Draining));
    forall c: Call | c in s.owners && c in s.decided
      ensures Held(t, c) && Held(EndClean(s), c) && Held(s.(mode := Draining), c)
    {
      assert Held(s, c);
    }
    assert EndClean(s) != s ==> forall id :: !UnderWay(EndClean(s), id);
  }

  lemma StepFacts(s: State, step: Step)
    requires Facts(s) && Inv(s)
    ensures Facts(Apply(s, step))
  {
    hide AttemptsOwned, OwnersHeld;
    match step
    case BeginAttempt(who) => BeginFacts(s, who);
    case StartClose(who) => EnterFacts(s, who);
    case EndClose(who, ok) => EndFacts(s, who, ok);
    case ReleaseAbandoned(w, c) => AbandonFacts(s, w, c);
    case Drop(w, id) => DropFacts(s, w, id);
    case SettleDrop(id) => SettleFacts(s, id);
    case FinishWork(w) => FinishFacts(s, w);
    case BeginCleanup(force, list) => SetFacts(s, force, list);
    case EndCleanup => SetFacts(s, false, []);
    case CloseSet => SetFacts(s, false, []);
    case _ => CallFacts(s, step);
  }

  lemma {:induction false} RunFacts(steps: seq<Step>)
    ensures Facts(Run(steps))
    decreases |steps|
  {
    if steps != [] {
      var n := |steps| - 1;
      RunFacts(steps[..n]);
      RunInv(steps[..n]);
      hide Apply, Facts, Inv;
      StepFacts(Run(steps[..n]), steps[n]);
    }
  }

  // ----- going on from a state -----

  ghost function Onward(s: State, steps: seq<Step>): State
    decreases |steps|
  {
    if steps == [] then s else Onward(Apply(s, steps[0]), steps[1..])
  }

  lemma {:induction false} RunOnward(steps: seq<Step>, rest: seq<Step>)
    ensures Run(steps + rest) == Onward(Run(steps), rest)
    decreases |rest|
  {
    if rest == [] {
      assert steps + rest == steps;
    } else {
      var more := steps + [rest[0]];
      assert more[..|steps|] == steps && more + rest[1..] == steps + rest;
      RunOnward(more, rest[1..]);
      hide Apply;
    }
  }

  lemma {:induction false} OnwardTwice(s: State, a: seq<Step>, b: seq<Step>)
    ensures Onward(s, a + b) == Onward(Onward(s, a), b)
    decreases |a|
  {
    if a == [] {
      assert a + b == b;
    } else {
      assert (a + b)[1..] == a[1..] + b;
      hide Apply;
      OnwardTwice(Apply(s, a[0]), a[1..], b);
    }
  }

  lemma OnwardFirst(s: State, step: Step, rest: seq<Step>)
    ensures Onward(s, [step] + rest) == Onward(Apply(s, step), rest)
  {
    assert ([step] + rest)[1..] == rest;
  }

  ghost predicate Full(s: State) {
    Inv(s) && Facts(s)
  }

  lemma StepFull(s: State, step: Step)
    requires Full(s)
    ensures Full(Apply(s, step))
  {
    StepInv(s, step);
    StepFacts(s, step);
    hide Apply, Inv, Facts;
  }

  // ----- handlers return -----

  ghost function RunningOf(s: State): set<WorkId> {
    set w | w in s.works && s.works[w].Running?
  }

  ghost function ReturnedOf(s: State): set<WorkId> {
    set w | w in s.works && (s.works[w].Running? || s.works[w].Returned?)
  }

  ghost function InCallOf(s: State): set<WorkId> {
    set w | w in s.works && InCall(s.works[w])
  }

  /** The handlers and results still on their way, each counted until it is over. */
  ghost function CallsLeft(s: State): nat {
    |RunningOf(s)| + |ReturnedOf(s)| + |InCallOf(s)|
  }

  lemma HandlerReturns(s: State, t: State, w: WorkId)
    requires w in s.works && w in t.works && t.works == s.works[w := t.works[w]]
    requires s.works[w].Running? && t.works[w].Returned?
    ensures CallsLeft(t) < CallsLeft(s)
  {
    assert w in RunningOf(s) && RunningOf(t) == RunningOf(s) - {w};
    assert ReturnedOf(t) == ReturnedOf(s) && InCallOf(t) == InCallOf(s);
  }

  lemma CallEnds(s: State, t: State, w: WorkId)
    requires w in s.works && w in t.works && t.works == s.works[w := t.works[w]]
    requires (s.works[w].Returned? || s.works[w].Snapped?) && t.works[w].Releasing?
    ensures CallsLeft(t) < CallsLeft(s)
  {
    assert w in InCallOf(s) && InCallOf(t) == InCallOf(s) - {w};
    assert RunningOf(t) == RunningOf(s);
    assert ReturnedOf(t) == ReturnedOf(s) - {w};
    assert |ReturnedOf(s) - {w}| <= |ReturnedOf(s)|;
  }

  lemma CallMove(s: State) returns (step: Step)
    requires Full(s) && s.mode == Cleaning && InCallOf(s) != {}
    ensures CallsLeft(Apply(s, step)) < CallsLeft(s) && Apply(s, step).mode == Cleaning
  {
    var w :| w in InCallOf(s);
    assert s.works[w].Snapped? ==> s.works[w].call in s.objects;
    step := if s.works[w].Running? then ReturnBorrows(w) else if s.works[w].Returned? then TakeResult(w, true)
      else RejectResult(w);
    hide CallsLeft, Dropped, Given, Provisional, Full;
    if s.works[w].Running? {
      HandlerReturns(s, Apply(s, step), w);
    } else {
      CallEnds(s, Apply(s, step), w);
    }
  }

  lemma {:induction false} ReturnAll(s: State) returns (rest: seq<Step>)
    requires Full(s) && s.mode == Cleaning
    ensures Full(Onward(s, rest)) && Onward(s, rest).mode == Cleaning && InCallOf(Onward(s, rest)) == {}
    decreases CallsLeft(s)
  {
    hide Apply, Full, CallsLeft, InCallOf;
    rest := [];
    if InCallOf(s) != {} {
      var step := CallMove(s);
      StepFull(s, step);
      var more := ReturnAll(Apply(s, step));
      rest := [step] + more;
      OnwardFirst(s, step, more);
    }
  }

  // ----- results are decided -----

  ghost function Undecided(s: State): set<Call> {
    set c | c in s.owners && c !in s.decided
  }

  lemma {:induction false} FreshNumber(used: set<nat>) returns (n: nat)
    ensures n !in used && forall x | x in used :: x < n
    decreases |used|
  {
    n := 0;
    if used != {} {
      var x :| x in used;
      var m := FreshNumber(used - {x});
      n := if m <= x then x + 1 else m;
      assert forall y | y in used :: y == x || y in used - {x};
    }
  }

  lemma OwnersKnown(s: State)
    requires Full(s)
    ensures s.owners <= s.objects.Keys && s.works.Keys <= s.used
  {
  }

  lemma DecideMove(s: State) returns (step: Step)
    requires Full(s) && s.mode == Cleaning && InCallOf(s) == {} && Undecided(s) != {}
    ensures var t := Apply(s, step); |Undecided(t)| < |Undecided(s)| && t.mode == Cleaning && InCallOf(t) == {}
  {
    hide Full, Dropped, Activated, Present;
    OwnersKnown(s);
    var c :| c in Undecided(s);
    var w := FreshNumber(s.used);
    step := Decide(c, w, false);
    var t := Apply(s, step);
    assert c in s.objects;
    assert Undecided(t) == Undecided(s) - {c};
    assert InCallOf(t) == {} by {
      assert forall v | v in t.works && v != w :: v in s.works && t.works[v] == s.works[v];
      assert forall v | v in s.works :: v !in InCallOf(s);
    }
  }

  lemma {:induction false} DecideAll(s: State) returns (rest: seq<Step>)
    requires Full(s) && s.mode == Cleaning && InCallOf(s) == {}
    ensures var t := Onward(s, rest); Full(t) && t.mode == Cleaning && InCallOf(t) == {} && Undecided(t) == {}
    decreases |Undecided(s)|
  {
    hide Apply, Full, InCallOf, Undecided;
    rest := [];
    if Undecided(s) != {} {
      var step := DecideMove(s);
      StepFull(s, step);
      var more := DecideAll(Apply(s, step));
      rest := [step] + more;
      OnwardFirst(s, step, more);
    }
  }

  // ----- closes that are under way come to an end -----

  ghost function Threads(s: State): set<Closer> {
    {Cleaner} + set w | w in s.works :: Worker(w)
  }

  ghost function BusyOf(s: State): set<Closer> {
    set who | who in Threads(s) && PhaseOf(s, who) != Idle
  }

  ghost function ClaimedOf(s: State): set<Closer> {
    set who | who in Threads(s) && PhaseOf(s, who) == Claimed
  }

  lemma InBusy(s: State, who: Closer)
    ensures who in BusyOf(s) <==> PhaseOf(s, who) != Idle
    ensures who in ClaimedOf(s) <==> PhaseOf(s, who) == Claimed
  {
    if PhaseOf(s, who) != Idle && who.Worker? {
      assert who.w in s.works;
    }
  }

  /** One thread's phase has changed, and no other's. */
  lemma BusyChanges(s: State, t: State, who: Closer)
    requires forall other | other != who :: ReleaserOf(t, other) == ReleaserOf(s, other)
    ensures BusyOf(t) == if PhaseOf(t, who) != Idle then BusyOf(s) + {who} else BusyOf(s) - {who}
    ensures ClaimedOf(t) == if PhaseOf(t, who) == Claimed then ClaimedOf(s) + {who} else ClaimedOf(s) - {who}
  {
    hide BusyOf, ClaimedOf, PhaseOf, Current, ReleaserOf;
    forall other
      ensures other in BusyOf(t) <==> if other == who then PhaseOf(t, who) != Idle else other in BusyOf(s)
      ensures other in ClaimedOf(t) <==> if other == who then PhaseOf(t, who) == Claimed else other in ClaimedOf(s)
    {
      InBusy(s, other);
      InBusy(t, other);
      SamePhase(s, t, other);
    }
  }

  /** Nothing but works, cleanup, resources, attempts and their history differs, and the works keep their kinds. */
  ghost predicate SettledCalls(s: State, t: State) {
    && t.mode == s.mode && t.owners == s.owners && t.decided == s.decided && t.settling == s.settling
    && (forall w | w in t.works :: w in s.works && InCall(t.works[w]) == InCall(s.works[w]))
  }

  lemma SameCallsKeep(s: State, t: State)
    requires SettledCalls(s, t) && InCallOf(s) == {} && Undecided(s) == {}
    ensures InCallOf(t) == {} && Undecided(t) == {}
  {
    assert forall w | w in s.works :: w !in InCallOf(s);
  }

  /** The set is being cleaned up, no handler is left and every result is decided. */
  ghost predicate CallsOver(s: State) {
    Full(s) && s.mode == Cleaning && InCallOf(s) == {} && Undecided(s) == {}
  }

  /** A thread that may go on: a release, or the cleanup when nothing else is left. */
  ghost predicate MayGoOn(s: State, who: Closer) {
    ReleaserOf(s, who).Some? && !IsDrop(s, who) && (who.Cleaner? ==> Quiet(s))
  }

  lemma Unborrowed(s: State, who: Closer)
    requires CallsOver(s) && PhaseOf(s, who) == Claimed
    ensures Ready(s, who, Claimed) && Head(s, who) in s.resources && s.resources[Head(s, who)].borrowers == {}
  {
    var id := Head(s, who);
    assert id == Current(s, who) && id in s.attempts;
    if w :| w in s.resources[id].borrowers {
      BorrowerRuns(s, id, w);
      assert false;
    }
  }

  lemma BorrowerRuns(s: State, id: Id, w: WorkId)
    requires BorrowsMatch(s) && id in s.resources && w in s.resources[id].borrowers
    ensures w in InCallOf(s)
  {
  }

  lemma EnterMoves(s: State, who: Closer)
    requires CallsOver(s) && PhaseOf(s, who) == Claimed
    ensures var t := Apply(s, StartClose(who));
      && CallsOver(t) && BusyOf(t) == BusyOf(s) && ClaimedOf(t) == ClaimedOf(s) - {who} && PhaseOf(t, who) == Closing
      && Todo(t, who) == Todo(s, who) && t.settling == s.settling && t.works.Keys == s.works.Keys
      && (MayGoOn(s, who) ==> MayGoOn(t, who))
  {
    hide Full, Enter, BusyOf, ClaimedOf, Held, InCallOf, Undecided;
    var t := Apply(s, StartClose(who));
    Unborrowed(s, who);
    EnterShape(s, who);
    ReplacedKeeps(s, t, who, Releaser(Todo(s, who), Closing));
    StepFull(s, StartClose(who));
    BusyChanges(s, t, who);
    InBusy(s, who);
    assert SettledCalls(s, t);
    SameCallsKeep(s, t);
  }

  lemma EndMoves(s: State, who: Closer)
    requires CallsOver(s) && PhaseOf(s, who) == Closing
    ensures var t := Apply(s, EndClose(who, true));
      && CallsOver(t) && BusyOf(t) == BusyOf(s) - {who} && ClaimedOf(t) == ClaimedOf(s) && PhaseOf(t, who) == Idle
      && t.settling == s.settling && (MayGoOn(s, who) ==> MayGoOn(t, who))
      && (!IsDrop(s, who) ==> Todo(t, who) == Todo(s, who)[1..] && t.works.Keys == s.works.Keys)
  {
    hide Full, End, BusyOf, ClaimedOf, Held, InCallOf, Undecided;
    var t := Apply(s, EndClose(who, true));
    EndShape(s, who);
    if IsDrop(s, who) {
      DropGone(s, t, who.w);
    } else {
      ReplacedKeeps(s, t, who, Releaser(Todo(s, who)[1..], Idle));
    }
    StepFull(s, EndClose(who, true));
    BusyChanges(s, t, who);
    InBusy(s, who);
    assert SettledCalls(s, t);
    SameCallsKeep(s, t);
  }

  lemma {:induction false} EndAll(s: State) returns (rest: seq<Step>)
    requires CallsOver(s)
    ensures CallsOver(Onward(s, rest)) && BusyOf(Onward(s, rest)) == {}
    decreases |BusyOf(s)|, |ClaimedOf(s)|
  {
    hide Apply, CallsOver, BusyOf, ClaimedOf;
    rest := [];
    if BusyOf(s) != {} {
      var who :| who in BusyOf(s);
      InBusy(s, who);
      var step := if PhaseOf(s, who) == Claimed then StartClose(who) else EndClose(who, true);
      if PhaseOf(s, who) == Claimed {
        EnterMoves(s, who);
      } else {
        EndMoves(s, who);
      }
      var more := EndAll(Apply(s, step));
      rest := [step] + more;
      OnwardFirst(s, step, more);
    }
  }

  lemma SettleMoves(s: State, id: Id)
    requires CallsOver(s) && BusyOf(s) == {} && id in s.settling
    ensures var t := Apply(s, SettleDrop(id)); CallsOver(t) && BusyOf(t) == {} && t.settling == s.settling - {id}
  {
    var t := Apply(s, SettleDrop(id));
    StepFull(s, SettleDrop(id));
    assert t.works == s.works && t.cleanup == s.cleanup;
    BusyChanges(s, t, Cleaner);
    InBusy(s, Cleaner);
    SamePhase(s, t, Cleaner);
    assert InCallOf(t) == InCallOf(s) && Undecided(t) == Undecided(s);
    hide Full, BusyOf, ClaimedOf;
  }

  lemma {:induction false} SettleAll(s: State) returns (rest: seq<Step>)
    requires CallsOver(s) && BusyOf(s) == {}
    ensures CallsOver(Onward(s, rest)) && BusyOf(Onward(s, rest)) == {} && Onward(s, rest).settling == {}
    decreases |s.settling|
  {
    hide Apply, CallsOver, BusyOf;
    rest := [];
    if s.settling != {} {
      var id :| id in s.settling;
      SettleMoves(s, id);
      var more := SettleAll(Apply(s, SettleDrop(id)));
      rest := [SettleDrop(id)] + more;
      OnwardFirst(s, SettleDrop(id), more);
    }
  }

  // ----- lists are released -----

  /** No close is under way. */
  ghost predicate Calm(s: State) {
    CallsOver(s) && BusyOf(s) == {} && s.settling == {}
  }

  lemma CalmFree(s: State, id: Id)
    requires Calm(s)
    ensures !UnderWay(s, id)
  {
    if UnderWay(s, id) {
      assert Owned(s, id);
      var who :| PhaseOf(s, who) != Idle && Current(s, who) == id;
      InBusy(s, who);
      assert false;
    }
  }

  lemma BeginGoes(s: State, who: Closer)
    requires Calm(s) && MayGoOn(s, who) && Todo(s, who) != []
    ensures var t, id := Apply(s, BeginAttempt(who)), Head(s, who);
      && CallsOver(t) && t.settling == {} && MayGoOn(t, who) && t.works.Keys == s.works.Keys
      && if id in s.resources then PhaseOf(t, who) == Claimed && BusyOf(t) == {who} && Todo(t, who) == Todo(s, who)
         else BusyOf(t) == {} && Todo(t, who) == Todo(s, who)[1..]
  {
    hide Full, Begin, BusyOf, ClaimedOf, Held, InCallOf, Undecided;
    var t, id := Apply(s, BeginAttempt(who)), Head(s, who);
    InBusy(s, who);
    CalmFree(s, id);
    BeginShape(s, who);
    var r := if id in s.resources then Releaser(Todo(s, who), Claimed) else Releaser(Todo(s, who)[1..], Idle);
    ReplacedKeeps(s, t, who, r);
    StepFull(s, BeginAttempt(who));
    BusyChanges(s, t, who);
    assert SettledCalls(s, t);
    SameCallsKeep(s, t);
  }

  /** One resource of the list is closed, or passed over if it is gone. */
  lemma ReleaseOne(s: State, who: Closer) returns (rest: seq<Step>)
    requires Calm(s) && MayGoOn(s, who) && Todo(s, who) != []
    ensures var t := Onward(s, rest);
      && Calm(t) && MayGoOn(t, who) && Todo(t, who) == Todo(s, who)[1..] && t.works.Keys == s.works.Keys
  {
    hide Apply, CallsOver, BusyOf, ClaimedOf, IsDrop;
    BeginGoes(s, who);
    var t := Apply(s, BeginAttempt(who));
    if Head(s, who) in s.resources {
      EnterMoves(t, who);
      var u := Apply(t, StartClose(who));
      EndMoves(u, who);
      rest := [BeginAttempt(who), StartClose(who), EndClose(who, true)];
      OnwardThree(s, BeginAttempt(who), StartClose(who), EndClose(who, true));
    } else {
      rest := [BeginAttempt(who)];
      OnwardFirst(s, BeginAttempt(who), []);
      assert [BeginAttempt(who)] + [] == rest;
    }
  }

  lemma OnwardThree(s: State, a: Step, b: Step, c: Step)
    ensures Onward(s, [a, b, c]) == Apply(Apply(Apply(s, a), b), c)
  {
    hide Apply;
    OnwardFirst(s, a, [b, c]);
    OnwardFirst(Apply(s, a), b, [c]);
    OnwardFirst(Apply(Apply(s, a), b), c, []);
    assert [a] + [b, c] == [a, b, c] && [b] + [c] == [b, c] && [c] + [] == [c];
  }

  lemma {:induction false} ReleaseAll(s: State, who: Closer) returns (rest: seq<Step>)
    requires Calm(s) && MayGoOn(s, who)
    ensures var t := Onward(s, rest); Calm(t) && MayGoOn(t, who) && Todo(t, who) == [] && t.works.Keys == s.works.Keys
    decreases |Todo(s, who)|
  {
    hide Calm, MayGoOn, Todo;
    rest := [];
    if Todo(s, who) != [] {
      var first := ReleaseOne(s, who);
      var more := ReleaseAll(Onward(s, first), who);
      rest := first + more;
      OnwardTwice(s, first, more);
    }
  }

  /** In a calm state every thread releases something. */
  lemma CalmWorks(s: State, w: WorkId)
    requires Calm(s) && w in s.works
    ensures s.works[w].Releasing? && MayGoOn(s, Worker(w))
  {
    assert w !in InCallOf(s);
    InBusy(s, Worker(w));
    assert s.works[w].Dropping? ==> PhaseOf(s, Worker(w)) != Idle;
  }

  lemma FinishMoves(s: State, w: WorkId)
    requires Calm(s) && w in s.works && Todo(s, Worker(w)) == []
    ensures Calm(Apply(s, FinishWork(w))) && Apply(s, FinishWork(w)).works.Keys == s.works.Keys - {w}
  {
    CalmWorks(s, w);
    hide Full, BusyOf, ClaimedOf;
    var t := Apply(s, FinishWork(w));
    StepFull(s, FinishWork(w));
    assert PhaseOf(t, Worker(w)) == Idle;
    assert forall other | other != Worker(w) :: ReleaserOf(t, other) == ReleaserOf(s, other);
    BusyChanges(s, t, Worker(w));
    assert forall v | v in t.works :: v in s.works && t.works[v] == s.works[v] && v !in InCallOf(s);
    assert InCallOf(t) == {} && Undecided(t) <= Undecided(s);
  }

  lemma {:induction false} FinishAllWorks(s: State) returns (rest: seq<Step>)
    requires Calm(s)
    ensures Calm(Onward(s, rest)) && Onward(s, rest).works == map[]
    decreases |s.works.Keys|
  {
    hide Apply, Calm, MayGoOn, Todo;
    rest := [];
    if s.works != map[] {
      var w :| w in s.works;
      CalmWorks(s, w);
      var first := ReleaseAll(s, Worker(w));
      var t := Onward(s, first);
      FinishMoves(t, w);
      var more := FinishAllWorks(Apply(t, FinishWork(w)));
      OnwardFirst(t, FinishWork(w), more);
      OnwardTwice(s, first, [FinishWork(w)] + more);
      rest := first + ([FinishWork(w)] + more);
    }
  }

  /** Then no result is open either, and the cleanup can go through its list. */
  lemma CalmQuiet(s: State)
    requires Calm(s) && s.works == map[]
    ensures MayGoOn(s, Cleaner)
  {
    assert forall c | c in s.owners :: c !in Undecided(s);
    assert forall c | c in s.owners :: Held(s, c);
    assert s.owners == {};
  }

  lemma EndCloses(s: State)
    requires Calm(s) && MayGoOn(s, Cleaner) && Todo(s, Cleaner) == []
    ensures Apply(s, EndCleanup).mode == Closed
  {
  }

  // ----- the cleanup begins -----

  ghost predicate OnSomeList(s: State, id: Id) {
    id in s.order || exists c :: c in s.provisional && id in s.provisional[c]
  }

  ghost function ListUpTo(s: State, n: nat): (list: seq<Id>)
    ensures forall id :: id in list <==> 0 < id <= n && OnSomeList(s, id)
  {
    if n == 0 then [] else ListUpTo(s, n - 1) + (if OnSomeList(s, n) then [n] else [])
  }

  lemma CleanupBegins(s: State) returns (step: Step)
    requires Full(s) && Accepting(s.mode)
    ensures Apply(s, step).mode == Cleaning
  {
    var list := ListUpTo(s, s.nextResource);
    assert Snapshot(s, list);
    step := BeginCleanup(true, list);
  }

  /** From a state in which the cleanup runs to the closed one. */
  lemma FinishCleanup(s: State) returns (rest: seq<Step>)
    requires Full(s) && s.mode == Cleaning
    ensures Onward(s, rest).mode == Closed
  {
    hide Apply, Full, Onward, Calm, MayGoOn, Todo, InCallOf, Undecided, BusyOf;
    var a := ReturnAll(s);
    var b := DecideAll(Onward(s, a));
    OnwardTwice(s, a, b);
    var s1 := Onward(s, a + b);
    var c := EndAll(s1);
    var d := SettleAll(Onward(s1, c));
    OnwardTwice(s1, c, d);
    var s2 := Onward(s1, c + d);
    assert Calm(s2) by { CalmNow(s2); }
    var e := FinishAllWorks(s2);
    var s3 := Onward(s2, e);
    CalmQuiet(s3);
    var f := ReleaseAll(s3, Cleaner);
    var s4 := Onward(s3, f);
    EndCloses(s4);
    OnwardLast(s4, EndCleanup);
    OnwardTwice(s3, f, [EndCleanup]);
    OnwardTwice(s2, e, f + [EndCleanup]);
    OnwardTwice(s1, c + d, e + (f + [EndCleanup]));
    OnwardTwice(s, a + b, c + d + (e + (f + [EndCleanup])));
    rest := a + b + (c + d + (e + (f + [EndCleanup])));
  }

  lemma CalmNow(s: State)
    requires CallsOver(s) && BusyOf(s) == {} && s.settling == {}
    ensures Calm(s)
  {
  }

  lemma OnwardLast(s: State, step: Step)
    ensures Onward(s, [step]) == Apply(s, step)
  {
    OnwardFirst(s, step, []);
    assert [step] + [] == [step];
  }

  /**
    * From every run there are further steps after which the route set is closed. Then every resource it ever exported
    * has had a close attempt, except those exported late and lost by the decision on their result.
    */
  lemma CanAlwaysClose(steps: seq<Step>) returns (rest: seq<Step>)
    ensures Run(steps + rest).mode == Closed
    ensures forall id | 0 < id <= Run(steps + rest).nextResource && id !in Run(steps + rest).lost ::
      Happened(steps + rest, Attempts(id))
  {
    RunInv(steps);
    RunFacts(steps);
    hide Apply, Run, Happened;
    var s := Run(steps);
    rest := [];
    if s.mode == Cleaning {
      rest := FinishCleanup(s);
    } else if s.mode != Closed {
      var step := CleanupBegins(s);
      StepFull(s, step);
      var more := FinishCleanup(Apply(s, step));
      OnwardFirst(s, step, more);
      rest := [step] + more;
    }
    RunOnward(steps, rest);
    forall id | 0 < id <= Run(steps + rest).nextResource && id !in Run(steps + rest).lost
      ensures Happened(steps + rest, Attempts(id))
    {
      ClosedExactly(steps + rest, id);
      AttemptHistory(steps + rest, id);
    }
  }

  // ----- without force -----

  /** Until a cleanup begins, a resource goes away only when its close has succeeded. */
  ghost predicate KeptOrClosed(s: State) {
    Accepting(s.mode) ==> forall id | 0 < id <= s.nextResource :: id in s.resources || id in s.closed
  }

  lemma CallKeeps(s: State, step: Step)
    requires KeptOrClosed(s) && CallStep(step)
    ensures KeptOrClosed(Apply(s, step))
  {
    CallHistory(s, step);
    hide Dropped, Present, Borrowable, Provisional, Without;
  }

  lemma CloseKeeps(s: State, step: Step)
    requires KeptOrClosed(s) && !CallStep(step)
    ensures KeptOrClosed(Apply(s, step))
  {
    if step.BeginAttempt? && Ready(s, step.who, Idle) {
      WithReleaserKeeps(s, step.who, ReleaserOf(s, step.who).value.(phase := Claimed));
      WithReleaserKeeps(s, step.who, Releaser(ReleaserOf(s, step.who).value.todo[1..], Idle));
    }
    if step.StartClose? && Ready(s, step.who, Claimed) {
      WithReleaserKeeps(s, step.who, ReleaserOf(s, step.who).value.(phase := Closing));
    }
    if step.EndClose? && Ready(s, step.who, Closing) {
      WithReleaserKeeps(s, step.who, Releaser(ReleaserOf(s, step.who).value.todo[1..], Idle));
    }
    hide WithReleaser, Quiet, Snapshot, Without;
  }

  lemma {:induction false} RunKept(steps: seq<Step>)
    ensures KeptOrClosed(Run(steps))
  {
    if steps != [] {
      var n := |steps| - 1;
      RunKept(steps[..n]);
      hide KeptOrClosed, Apply;
      if CallStep(steps[n]) {
        CallKeeps(Run(steps[..n]), steps[n]);
      } else {
        CloseKeeps(Run(steps[..n]), steps[n]);
      }
    }
  }

  lemma UnforcedIff(s: State)
    requires s.mode == Draining
    ensures Apply(Apply(s, BeginCleanup(false, [])), EndCleanup).mode == Closed <==> Quiet(s) && s.resources == map[]
  {
  }

  lemma NoneLeftIff(s: State)
    requires Named(s) && KeptOrClosed(s) && s.mode == Draining
    ensures s.resources == map[] <==> forall id | 0 < id <= s.nextResource :: id in s.closed
  {
    if forall id | 0 < id <= s.nextResource :: id in s.closed {
      assert forall id :: id !in s.resources;
    }
  }

  lemma OnwardBoth(s: State, a: Step, b: Step)
    ensures Onward(s, [a, b]) == Apply(Apply(s, a), b)
  {
    hide Apply, Onward;
    OnwardFirst(s, a, [b]);
    assert [a] + [b] == [a, b];
    OnwardLast(Apply(s, a), b);
  }

  /**
    * A route set that has been told to close ends without force if and only if no call and no result is left and
    * every resource it ever exported has been closed with success.
    */
  lemma DrainedCloses(steps: seq<Step>)
    requires Run(steps).mode == Draining
    ensures Run(steps + [BeginCleanup(false, []), EndCleanup]).mode == Closed <==>
      Quiet(Run(steps))
      && forall id | 0 < id <= Run(steps).nextResource :: Happened(steps, Closes(id))
  {
    var s := Run(steps);
    RunInv(steps);
    RunKept(steps);
    hide Run, Apply, Onward, Happened, KeptOrClosed, Named, Quiet;
    RunOnward(steps, [BeginCleanup(false, []), EndCleanup]);
    OnwardBoth(s, BeginCleanup(false, []), EndCleanup);
    UnforcedIff(s);
    NoneLeftIff(s);
    forall id
      ensures id in s.closed <==> Happened(steps, Closes(id))
    {
      AttemptHistory(steps, id);
    }
  }
}
