/**
  * Marking by several workers. A state is what the workers share plus where each of them stands; a schedule says
  * which worker makes the next atomic step, so every interleaving is a schedule.
  */
module ParallelMark {
  import opened Prelude
  import opened HeapWords
  import opened CardScan
  import opened HeapModel
  import opened Marking

  /** Where a worker stands between two atomic steps. */
  datatype Worker =
    | Looping
    | Deciding(sawError: bool)
    | Checking(slot: nat)
    | Tracing(slot: nat, at: nat)
    | Enqueueing(slot: nat, at: nat, child: nat)
    | Leaving
    | Gone

  datatype State = State(
    marks: seq<nat>, queue: seq<nat>, cursor: nat, failed: bool, workers: seq<Worker>, locals: seq<nat>, total: nat)

  /** What does not change while the owner holds the heap. */
  datatype Config = Config(m: Store, epoch: nat, occupied: seq<nat>, capacity: nat)

  /** The references of an entry, in payload order. */
  ghost function Kids(m: Store, s: nat): seq<Ref> {
    if Live(m, s) && Placed(m, m.objects[s]) then Children(m, m.objects[s], Words(m, m.objects[s])) else []
  }

  function At(s: State, i: nat, w: Worker): State
    requires i < |s.workers|
  {
    s.(workers := s.workers[i := w])
  }

  function Fail(s: State, i: nat): State
    requires i < |s.workers|
  {
    At(s, i, Leaving).(failed := true)
  }

  /** A worker takes the next slot or leaves. */
  function Decide(s: State, i: nat, sawError: bool): State
    requires i < |s.workers|
  {
    if sawError || s.cursor >= |s.queue| then At(s, i, Leaving)
    else At(s, i, Checking(s.queue[s.cursor])).(cursor := s.cursor + 1)
  }

  function Check(c: Config, s: State, i: nat, slot: nat): State
    requires i < |s.workers|
  {
    if Live(c.m, slot) && slot < |s.marks| && s.marks[slot] == c.epoch then At(s, i, Tracing(slot, 0)) else Fail(s, i)
  }

  /** `markReferenceParallel` up to the end of the striped section. */
  function Mark(c: Config, s: State, i: nat, slot: nat, at: nat, ref: Ref): State
    requires i < |s.workers| == |s.locals| && |s.marks| == |c.m.objects|
  {
    if ref.Null() then At(s, i, Tracing(slot, at + 1))
    else if !Resolves(c.m, ref) then Fail(s, i)
    else if s.marks[ref.slot] == c.epoch then At(s, i, Tracing(slot, at + 1))
    else
      At(s, i, Enqueueing(slot, at, ref.slot)).(
        marks := s.marks[ref.slot := c.epoch], locals := s.locals[i := s.locals[i] + c.m.objects[ref.slot].logical])
  }

  function Enqueue(c: Config, s: State, i: nat, slot: nat, at: nat, child: nat): State
    requires i < |s.workers|
  {
    if |s.queue| == c.capacity then Fail(s, i)
    else At(s, i, Tracing(slot, at + 1)).(queue := s.queue + [child])
  }

  /** The next atomic step of worker `i`. */
  ghost function Step(c: Config, s: State, i: nat): State
    requires |s.workers| == |s.locals| && |s.marks| == |c.m.objects|
  {
    if i >= |s.workers| then s
    else match s.workers[i]
         case Looping => At(s, i, Deciding(s.failed))
         case Deciding(sawError) => Decide(s, i, sawError)
         case Checking(slot) => Check(c, s, i, slot)
         case Tracing(slot, at) =>
           if at >= |Kids(c.m, slot)| then At(s, i, Looping) else Mark(c, s, i, slot, at, Kids(c.m, slot)[at])
         case Enqueueing(slot, at, child) => Enqueue(c, s, i, slot, at, child)
         case Leaving => At(s, i, Gone).(total := s.total + s.locals[i], locals := s.locals[i := 0])
         case Gone => s
  }

  lemma StepShape(c: Config, s: State, i: nat)
    requires |s.workers| == |s.locals| && |s.marks| == |c.m.objects|
    ensures var t := Step(c, s, i); |t.workers| == |t.locals| == |s.workers| && |t.marks| == |c.m.objects|
  {
  }

  /** The state after a schedule. */
  ghost function Run(c: Config, s: State, schedule: seq<nat>): (t: State)
    requires |s.workers| == |s.locals| && |s.marks| == |c.m.objects|
    ensures |t.workers| == |t.locals| == |s.workers| && |t.marks| == |c.m.objects|
  {
    if schedule == [] then s
    else
      var before := Run(c, s, schedule[..|schedule| - 1]);
      StepShape(c, before, schedule[|schedule| - 1]);
      Step(c, before, schedule[|schedule| - 1])
  }

  // ----- what every step keeps -----

  predicate Working(w: Worker) {
    !w.Leaving? && !w.Gone?
  }

  /** The slot a worker is following, if any. */
  predicate Holds(w: Worker, slot: nat) {
    (w.Checking? || w.Tracing? || w.Enqueueing?) && w.slot == slot
  }

  /** Marked entries are queued once or about to be queued by one worker. */
  ghost predicate MarkedOnce(c: Config, s: State) {
    && |s.marks| == |c.m.objects|
    && Distinct(s.queue)
    && (forall k | 0 <= k < |s.queue| :: Live(c.m, s.queue[k]) && s.marks[s.queue[k]] == c.epoch)
    && (forall i | 0 <= i < |s.workers| && s.workers[i].Enqueueing? ::
          var child := s.workers[i].child; Live(c.m, child) && s.marks[child] == c.epoch && child !in s.queue)
    && (forall i, j | 0 <= i < j < |s.workers| && s.workers[i].Enqueueing? && s.workers[j].Enqueueing? ::
          s.workers[i].child != s.workers[j].child)
    && (forall k: nat | Live(c.m, k) && s.marks[k] == c.epoch ::
          k in s.queue || exists i :: 0 <= i < |s.workers| && s.workers[i].Enqueueing? && s.workers[i].child == k)
  }

  /** A reference that needs no more work: null, or current and marked. */
  predicate Passed(c: Config, marks: seq<nat>, r: Ref)
    requires |marks| == |c.m.objects|
  {
    r.Null() || (Resolves(c.m, r) && marks[r.slot] == c.epoch)
  }

  ghost predicate AllPassed(c: Config, marks: seq<nat>, refs: seq<Ref>)
    requires |marks| == |c.m.objects|
  {
    forall k | 0 <= k < |refs| :: Passed(c, marks, refs[k])
  }

  lemma AllPassedStay(c: Config, before: seq<nat>, after: seq<nat>, refs: seq<Ref>)
    requires |before| == |c.m.objects| && MarksGrow(before, after, c.epoch) && AllPassed(c, before, refs)
    ensures AllPassed(c, after, refs)
  {
    forall k | 0 <= k < |refs|
      ensures Passed(c, after, refs[k])
    {
      assert Passed(c, before, refs[k]);
    }
  }

  /** How far a worker has come with the slot it took from the queue. */
  ghost predicate WorkerOk(c: Config, s: State, w: Worker)
    requires |s.marks| == |c.m.objects|
  {
    match w
    case Deciding(sawError) => sawError ==> s.failed
    case Checking(slot) => slot in s.queue
    case Tracing(slot, at) =>
      slot in s.queue && at <= |Kids(c.m, slot)| && AllPassed(c, s.marks, Kids(c.m, slot)[..at])
    case Enqueueing(slot, at, child) =>
      slot in s.queue && at < |Kids(c.m, slot)| && Kids(c.m, slot)[at].slot == child
      && AllPassed(c, s.marks, Kids(c.m, slot)[..at + 1])
    case _ => true
  }

  /** Unless there was an error, every slot taken from the queue is followed to its end or still held. */
  ghost predicate TakenFollowed(c: Config, s: State)
    requires |s.marks| == |c.m.objects|
  {
    && s.cursor <= |s.queue|
    && (!s.failed ==> forall k | 0 <= k < s.cursor ::
          || AllPassed(c, s.marks, Kids(c.m, s.queue[k]))
          || exists i :: 0 <= i < |s.workers| && Holds(s.workers[i], s.queue[k]))
  }

  /** Everything marked is reachable, and an error comes from a bad reference of a reachable entry. */
  ghost predicate Reached(c: Config, s: State, roots: set<nat>)
    requires AllPlaced(c.m) && |s.marks| == |c.m.objects|
  {
    && (forall k: nat | Live(c.m, k) && s.marks[k] == c.epoch :: Reachable(c.m, roots, k))
    && (s.failed ==> BadReference(c.m, roots))
  }

  /** Some reachable entry holds a reference that is neither null nor current. */
  ghost predicate BadReference(m: Store, roots: set<nat>)
    requires AllPlaced(m)
  {
    exists s: nat, k: nat :: Live(m, s) && Reachable(m, roots, s) && k < |Kids(m, s)| && !Kids(m, s)[k].Null()
      && !Resolves(m, Kids(m, s)[k])
  }

  /** Workers may leave early, but some worker stays while the queue has unread slots. */
  ghost predicate SomeoneStays(s: State) {
    s.failed || s.cursor == |s.queue| || exists i :: 0 <= i < |s.workers| && Working(s.workers[i])
  }

  function Sum(xs: seq<nat>): nat {
    if xs == [] then 0 else Sum(xs[..|xs| - 1]) + xs[|xs| - 1]
  }

  ghost predicate Counted(c: Config, s: State, base: nat)
    requires |s.marks| == |c.m.objects|
  {
    && s.total + Sum(s.locals) == base + MarkedBytes(c.m.objects, s.marks, c.epoch)
    && (forall i | 0 <= i < |s.workers| && s.workers[i].Gone? :: i < |s.locals| && s.locals[i] == 0)
  }

  ghost predicate Inv(c: Config, s: State, roots: set<nat>, base: nat)
    requires AllPlaced(c.m)
  {
    && |s.workers| == |s.locals| && |s.marks| == |c.m.objects|
    && MarkedOnce(c, s) && TakenFollowed(c, s) && Reached(c, s, roots) && SomeoneStays(s) && Counted(c, s, base)
    && (forall i | 0 <= i < |s.workers| :: WorkerOk(c, s, s.workers[i]))
  }

  /** The queue was sized for every occupied slot. */
  ghost predicate Admitted(c: Config) {
    && AllPlaced(c.m) && Distinct(c.occupied) && |c.occupied| <= c.capacity
    && forall k: nat | Live(c.m, k) :: k in c.occupied
  }

  // ----- one lemma per kind of step -----

  /** A change of phase that touches nothing shared. */
  lemma PhaseKeeps(c: Config, s: State, i: nat, w: Worker, roots: set<nat>, base: nat)
    requires Admitted(c) && Inv(c, s, roots, base) && i < |s.workers|
    requires !s.workers[i].Enqueueing? && !w.Enqueueing? && !w.Gone? && WorkerOk(c, s, w)
    requires Working(w) || s.failed || s.cursor == |s.queue|
    requires forall slot: nat :: Holds(s.workers[i], slot) && !Holds(w, slot) ==> AllPassed(c, s.marks, Kids(c.m, slot))
    ensures Inv(c, At(s, i, w), roots, base)
  {
    hide Kids, Reachable, BadReference, MarkedBytes, Sum, Passed, AllPassed, Live;
    var t := At(s, i, w);
    PhaseKeepsMarks(c, s, i, w);
    assert TakenFollowed(c, t) by {
      forall k | 0 <= k < t.cursor && !t.failed
        ensures AllPassed(c, t.marks, Kids(c.m, t.queue[k]))
             || exists j :: 0 <= j < |t.workers| && Holds(t.workers[j], t.queue[k])
      {
        if !AllPassed(c, t.marks, Kids(c.m, t.queue[k])) {
          var j :| 0 <= j < |s.workers| && Holds(s.workers[j], s.queue[k]);
          assert Holds(t.workers[j], t.queue[k]);
        }
      }
    }
    StaysHere(s, i, w);
    WorkerStays(c, s, t, w);
    OthersStay(c, s, t, i);
  }

  lemma PhaseKeepsMarks(c: Config, s: State, i: nat, w: Worker)
    requires MarkedOnce(c, s) && i < |s.workers| && !s.workers[i].Enqueueing? && !w.Enqueueing?
    ensures MarkedOnce(c, At(s, i, w))
  {
    var t := At(s, i, w);
    forall k: nat | Live(c.m, k) && t.marks[k] == c.epoch
      ensures k in t.queue || exists j :: 0 <= j < |t.workers| && t.workers[j].Enqueueing? && t.workers[j].child == k
    {
      if k !in s.queue {
        var j :| 0 <= j < |s.workers| && s.workers[j].Enqueueing? && s.workers[j].child == k;
        assert t.workers[j].child == k;
      }
    }
  }

  lemma StaysHere(s: State, i: nat, w: Worker)
    requires SomeoneStays(s) && i < |s.workers| && (Working(w) || s.failed || s.cursor == |s.queue|)
    ensures SomeoneStays(At(s, i, w))
  {
    if Working(w) {
      assert Working(At(s, i, w).workers[i]);
    }
  }

  /** A worker's own progress depends on the shared state only through marks, queue and error flag, which only grow. */
  lemma WorkerStays(c: Config, s: State, t: State, w: Worker)
    requires |s.marks| == |c.m.objects| && MarksGrow(s.marks, t.marks, c.epoch)
    requires (forall k | k in s.queue :: k in t.queue) && (s.failed ==> t.failed)
    requires WorkerOk(c, s, w)
    ensures WorkerOk(c, t, w)
  {
    match w {
      case Tracing(slot, at) =>
        AllPassedStay(c, s.marks, t.marks, Kids(c.m, slot)[..at]);
      case Enqueueing(slot, at, child) =>
        AllPassedStay(c, s.marks, t.marks, Kids(c.m, slot)[..at + 1]);
      case _ =>
    }
  }

  lemma OthersStay(c: Config, s: State, t: State, i: nat)
    requires |s.marks| == |c.m.objects| && MarksGrow(s.marks, t.marks, c.epoch)
    requires (forall k | k in s.queue :: k in t.queue) && (s.failed ==> t.failed) && |t.workers| == |s.workers|
    requires forall j | 0 <= j < |s.workers| && j != i :: t.workers[j] == s.workers[j]
    requires forall j | 0 <= j < |s.workers| :: WorkerOk(c, s, s.workers[j])
    ensures forall j | 0 <= j < |t.workers| && j != i :: WorkerOk(c, t, t.workers[j])
  {
    forall j | 0 <= j < |t.workers| && j != i
      ensures WorkerOk(c, t, t.workers[j])
    {
      WorkerStays(c, s, t, s.workers[j]);
    }
  }

  /** Taking the next slot: the worker holds it from now on. */
  lemma TakeKeeps(c: Config, s: State, i: nat, roots: set<nat>, base: nat)
    requires Admitted(c) && Inv(c, s, roots, base) && i < |s.workers| && s.workers[i].Deciding? && s.cursor < |s.queue|
    ensures Inv(c, At(s, i, Checking(s.queue[s.cursor])).(cursor := s.cursor + 1), roots, base)
  {
    hide Kids, Reachable, MarkedOnce, TakenFollowed, Reached, Counted, SomeoneStays, AllPassed, Placed;
    var slot := s.queue[s.cursor];
    PhaseKeeps(c, s, i, Checking(slot), roots, base);
    CursorKeeps(c, At(s, i, Checking(slot)), i, roots, base);
  }

  lemma CursorKeeps(c: Config, s: State, i: nat, roots: set<nat>, base: nat)
    requires Admitted(c) && Inv(c, s, roots, base) && i < |s.workers| && s.cursor < |s.queue|
    requires s.workers[i] == Checking(s.queue[s.cursor])
    ensures Inv(c, s.(cursor := s.cursor + 1), roots, base)
  {
    hide Kids, Reachable, BadReference, MarkedBytes, Sum, AllPassed, Live;
    var t := s.(cursor := s.cursor + 1);
    assert Holds(t.workers[i], t.queue[s.cursor]) && Working(t.workers[i]);
  }

  /** An error: the flag is all that changes, and it is justified. */
  lemma FailKeeps(c: Config, s: State, i: nat, roots: set<nat>, base: nat)
    requires Admitted(c) && Inv(c, s, roots, base) && i < |s.workers| && !s.workers[i].Enqueueing?
    requires BadReference(c.m, roots)
    ensures Inv(c, Fail(s, i), roots, base)
  {
    hide Kids, BadReference, Passed, AllPassed, Live, Reachable;
    PhaseKeepsMarks(c, s, i, Leaving);
    OthersStay(c, s, Fail(s, i), i);
  }

  /** A marked or null reference is passed over. */
  lemma PassKeeps(c: Config, s: State, i: nat, roots: set<nat>, base: nat)
    requires Admitted(c) && Inv(c, s, roots, base) && i < |s.workers| && s.workers[i].Tracing?
    requires s.workers[i].at < |Kids(c.m, s.workers[i].slot)|
    requires Passed(c, s.marks, Kids(c.m, s.workers[i].slot)[s.workers[i].at])
    ensures Inv(c, At(s, i, Tracing(s.workers[i].slot, s.workers[i].at + 1)), roots, base)
  {
    hide Kids, Passed, Live;
    var slot, at := s.workers[i].slot, s.workers[i].at;
    var kids := Kids(c.m, slot);
    assert WorkerOk(c, s, s.workers[i]);
    assert kids[..at + 1] == kids[..at] + [kids[at]];
    PhaseKeeps(c, s, i, Tracing(slot, at + 1), roots, base);
  }

  /** A reference of a reachable entry leads to a reachable entry. */
  lemma KidReachable(m: Store, roots: set<nat>, s: nat, k: nat)
    requires AllPlaced(m) && Live(m, s) && Reachable(m, roots, s) && k < |Kids(m, s)| && Resolves(m, Kids(m, s)[k])
    ensures Reachable(m, roots, Kids(m, s)[k].slot)
  {
    var w := Words(m, m.objects[s])[k];
    var t := Kids(m, s)[k].slot;
    assert Child(m, m.objects[s], w) == Kids(m, s)[k];
    assert PointsBy(m, s, w, t) && Points(m, s, t);
    ReachableStep(m, roots, s, t);
  }

  /** The state after a first mark, before the slot is queued. */
  ghost function Marked(c: Config, s: State, i: nat, child: nat): State
    requires i < |s.workers| == |s.locals| && s.workers[i].Tracing? && child < |s.marks| == |c.m.objects|
  {
    At(s, i, Enqueueing(s.workers[i].slot, s.workers[i].at, child)).(
      marks := s.marks[child := c.epoch], locals := s.locals[i := s.locals[i] + c.m.objects[child].logical])
  }

  lemma MarkKeepsOnce(c: Config, s: State, i: nat, child: nat)
    requires MarkedOnce(c, s) && i < |s.workers| == |s.locals| && s.workers[i].Tracing?
    requires Live(c.m, child) && s.marks[child] != c.epoch
    ensures MarkedOnce(c, Marked(c, s, i, child))
  {
    var t := Marked(c, s, i, child);
    forall k: nat | Live(c.m, k) && t.marks[k] == c.epoch
      ensures k in t.queue || exists j :: 0 <= j < |t.workers| && t.workers[j].Enqueueing? && t.workers[j].child == k
    {
      if k == child {
        assert t.workers[i].child == k;
      } else if k !in s.queue {
        var j :| 0 <= j < |s.workers| && s.workers[j].Enqueueing? && s.workers[j].child == k;
        assert t.workers[j].child == k;
      }
    }
  }

  lemma MarkKeepsTaken(c: Config, s: State, t: State, i: nat)
    requires |s.marks| == |c.m.objects| && MarksGrow(s.marks, t.marks, c.epoch) && TakenFollowed(c, s)
    requires s.queue <= t.queue && t.cursor == s.cursor && t.failed == s.failed && |t.workers| == |s.workers|
    requires i < |s.workers|
    requires forall j | 0 <= j < |s.workers| && j != i :: t.workers[j] == s.workers[j]
    requires forall slot: nat :: Holds(s.workers[i], slot) ==> Holds(t.workers[i], slot)
    ensures TakenFollowed(c, t)
  {
    hide Kids, AllPassed;
    forall k | 0 <= k < t.cursor && !t.failed
      ensures AllPassed(c, t.marks, Kids(c.m, t.queue[k]))
           || exists j :: 0 <= j < |t.workers| && Holds(t.workers[j], t.queue[k])
    {
      if AllPassed(c, s.marks, Kids(c.m, s.queue[k])) {
        AllPassedStay(c, s.marks, t.marks, Kids(c.m, s.queue[k]));
      } else {
        var j :| 0 <= j < |s.workers| && Holds(s.workers[j], s.queue[k]);
        assert Holds(t.workers[j], t.queue[k]);
      }
    }
  }

  lemma {:induction false} SumUpdate(xs: seq<nat>, i: nat, x: nat)
    requires i < |xs|
    ensures Sum(xs[i := x]) + xs[i] == Sum(xs) + x
  {
    var n := |xs| - 1;
    if i == n {
      assert xs[i := x][..n] == xs[..n];
    } else {
      assert xs[i := x][..n] == xs[..n][i := x];
      SumUpdate(xs[..n], i, x);
    }
  }

  lemma MarkReached(c: Config, s: State, i: nat, child: nat, roots: set<nat>)
    requires AllPlaced(c.m) && |s.marks| == |c.m.objects| && i < |s.workers| == |s.locals| && s.workers[i].Tracing?
    requires child < |s.marks| && Reached(c, s, roots) && Reachable(c.m, roots, child)
    ensures Reached(c, Marked(c, s, i, child), roots)
  {
    hide Reachable, BadReference;
  }

  /** The first worker to meet an entry marks it. */
  lemma MarkKeeps(c: Config, s: State, i: nat, roots: set<nat>, base: nat)
    requires Admitted(c) && Inv(c, s, roots, base) && i < |s.workers| && s.workers[i].Tracing?
    requires s.workers[i].at < |Kids(c.m, s.workers[i].slot)|
    requires var r := Kids(c.m, s.workers[i].slot)[s.workers[i].at];
      !r.Null() && Resolves(c.m, r) && s.marks[r.slot] != c.epoch
    ensures Inv(c, Marked(c, s, i, Kids(c.m, s.workers[i].slot)[s.workers[i].at].slot), roots, base)
  {
    hide Kids, Reachable, BadReference, MarkedBytes, Sum, AllPassed, Passed;
    var slot, at := s.workers[i].slot, s.workers[i].at;
    var child := Kids(c.m, slot)[at].slot;
    var t := Marked(c, s, i, child);
    assert WorkerOk(c, s, s.workers[i]);
    assert Live(c.m, slot) && s.marks[slot] == c.epoch;
    KidReachable(c.m, roots, slot, at);
    MarkReached(c, s, i, child, roots);
    MarkKeepsOnce(c, s, i, child);
    hide MarkedOnce, Reached, TakenFollowed, WorkerOk, Placed;
    MarkedBytesAdd(c.m.objects, s.marks, c.epoch, child);
    SumUpdate(s.locals, i, s.locals[i] + c.m.objects[child].logical);
    MarkedWorkerOk(c, s, i, child);
    assert Working(t.workers[i]);
    MarkKeepsTaken(c, s, t, i);
    OthersStay(c, s, t, i);
  }

  lemma MarkedWorkerOk(c: Config, s: State, i: nat, child: nat)
    requires |s.workers| == |s.locals| && |s.marks| == |c.m.objects| && i < |s.workers| && s.workers[i].Tracing?
    requires WorkerOk(c, s, s.workers[i]) && s.workers[i].at < |Kids(c.m, s.workers[i].slot)|
    requires Resolves(c.m, Kids(c.m, s.workers[i].slot)[s.workers[i].at])
    requires Kids(c.m, s.workers[i].slot)[s.workers[i].at].slot == child
    ensures WorkerOk(c, Marked(c, s, i, child), Marked(c, s, i, child).workers[i])
  {
    hide Kids;
    var slot, at, t := s.workers[i].slot, s.workers[i].at, Marked(c, s, i, child);
    var kids := Kids(c.m, slot);
    AllPassedStay(c, s.marks, t.marks, kids[..at]);
    assert kids[..at + 1] == kids[..at] + [kids[at]];
  }

  /** There is always room: queue and pending children are distinct live entries. */
  lemma RoomLeft(c: Config, s: State, i: nat)
    requires Admitted(c) && MarkedOnce(c, s) && i < |s.workers| && s.workers[i].Enqueueing?
    ensures |s.queue| < c.capacity
  {
    DistinctFits(s.queue + [s.workers[i].child], c.occupied);
  }

  lemma EnqueueKeepsOnce(c: Config, s: State, i: nat)
    requires MarkedOnce(c, s) && i < |s.workers| && s.workers[i].Enqueueing?
    ensures MarkedOnce(c, Queued(s, i))
  {
    var t, child := Queued(s, i), s.workers[i].child;
    forall k: nat | Live(c.m, k) && t.marks[k] == c.epoch
      ensures k in t.queue || exists j :: 0 <= j < |t.workers| && t.workers[j].Enqueueing? && t.workers[j].child == k
    {
      if k !in t.queue {
        var j :| 0 <= j < |s.workers| && s.workers[j].Enqueueing? && s.workers[j].child == k;
        assert j != i;
        assert t.workers[j].child == k;
      }
    }
  }

  ghost function Queued(s: State, i: nat): State
    requires i < |s.workers| && s.workers[i].Enqueueing?
  {
    At(s, i, Tracing(s.workers[i].slot, s.workers[i].at + 1)).(queue := s.queue + [s.workers[i].child])
  }

  lemma EnqueueKeeps(c: Config, s: State, i: nat, roots: set<nat>, base: nat)
    requires Admitted(c) && Inv(c, s, roots, base) && i < |s.workers| && s.workers[i].Enqueueing?
    ensures Inv(c, Queued(s, i), roots, base)
  {
    hide Kids, Reachable, BadReference, MarkedBytes, Sum, AllPassed, MarkedOnce;
    var t := Queued(s, i);
    EnqueueKeepsOnce(c, s, i);
    assert Working(t.workers[i]);
    MarkKeepsTaken(c, s, t, i);
    assert WorkerOk(c, s, s.workers[i]) && WorkerOk(c, t, t.workers[i]);
    OthersStay(c, s, t, i);
  }

  lemma LeaveKeeps(c: Config, s: State, i: nat, roots: set<nat>, base: nat)
    requires Admitted(c) && Inv(c, s, roots, base) && i < |s.workers| && s.workers[i].Leaving?
    ensures Inv(c, At(s, i, Gone).(total := s.total + s.locals[i], locals := s.locals[i := 0]), roots, base)
  {
    hide Kids, Reachable, BadReference, MarkedBytes, Sum, AllPassed, Live;
    var t := At(s, i, Gone).(total := s.total + s.locals[i], locals := s.locals[i := 0]);
    PhaseKeepsMarks(c, s, i, Gone);
    SumUpdate(s.locals, i, 0);
    MarkKeepsTaken(c, s, t, i);
    OthersStay(c, s, t, i);
    if !s.failed && s.cursor != |s.queue| {
      var j :| 0 <= j < |s.workers| && Working(s.workers[j]);
      assert Working(t.workers[j]);
    }
  }

  lemma DecideKeeps(c: Config, s: State, i: nat, roots: set<nat>, base: nat)
    requires Admitted(c) && Inv(c, s, roots, base) && i < |s.workers| && s.workers[i].Deciding?
    ensures Inv(c, Decide(s, i, s.workers[i].sawError), roots, base)
  {
    hide Kids, Reachable, MarkedOnce, Reached, Counted, AllPassed, Placed;
    assert WorkerOk(c, s, s.workers[i]);
    if s.workers[i].sawError || s.cursor >= |s.queue| {
      PhaseKeeps(c, s, i, Leaving, roots, base);
    } else {
      TakeKeeps(c, s, i, roots, base);
    }
  }

  lemma LoopKeeps(c: Config, s: State, i: nat, roots: set<nat>, base: nat)
    requires Admitted(c) && Inv(c, s, roots, base) && i < |s.workers| && s.workers[i].Looping?
    ensures Inv(c, At(s, i, Deciding(s.failed)), roots, base)
  {
    hide Kids, Reachable, MarkedOnce, TakenFollowed, Reached, Counted, AllPassed, Placed;
    PhaseKeeps(c, s, i, Deciding(s.failed), roots, base);
  }

  lemma EnqueueRoom(c: Config, s: State, i: nat, roots: set<nat>, base: nat)
    requires Admitted(c) && Inv(c, s, roots, base) && i < |s.workers| && s.workers[i].Enqueueing?
    ensures |s.queue| < c.capacity
  {
    RoomLeft(c, s, i);
  }

  /** Every step of every worker keeps the invariant. */
  lemma StepKeeps(c: Config, s: State, i: nat, roots: set<nat>, base: nat)
    requires Admitted(c) && Inv(c, s, roots, base)
    ensures Inv(c, Step(c, s, i), roots, base)
  {
    hide Inv, Kids, Mark, Check, Decide, AllPlaced;
    InvShape(c, s, roots, base);
    if i < |s.workers| {
      match s.workers[i] {
        case Looping =>
          LoopKeeps(c, s, i, roots, base);
        case Deciding(sawError) =>
          DecideKeeps(c, s, i, roots, base);
        case Checking(slot) =>
          CheckKeeps(c, s, i, roots, base);
        case Tracing(slot, at) =>
          TraceKeeps(c, s, i, roots, base);
        case Enqueueing(slot, at, child) =>
          EnqueueRoom(c, s, i, roots, base);
          EnqueueKeeps(c, s, i, roots, base);
        case Leaving =>
          LeaveKeeps(c, s, i, roots, base);
        case Gone =>
      }
    }
  }

  lemma CheckKeeps(c: Config, s: State, i: nat, roots: set<nat>, base: nat)
    requires Admitted(c) && Inv(c, s, roots, base) && i < |s.workers| && s.workers[i].Checking?
    ensures Inv(c, Check(c, s, i, s.workers[i].slot), roots, base)
  {
    hide Kids, Reachable, MarkedBytes, Sum, BadReference, Passed, Placed;
    assert WorkerOk(c, s, s.workers[i]);
    PhaseKeeps(c, s, i, Tracing(s.workers[i].slot, 0), roots, base);
  }

  lemma TraceKeeps(c: Config, s: State, i: nat, roots: set<nat>, base: nat)
    requires Admitted(c) && Inv(c, s, roots, base) && i < |s.workers| && s.workers[i].Tracing?
    ensures Inv(c, Step(c, s, i), roots, base)
  {
    hide Kids, Reachable, MarkedBytes, Sum, BadReference;
    var slot, at := s.workers[i].slot, s.workers[i].at;
    var kids := Kids(c.m, slot);
    assert WorkerOk(c, s, s.workers[i]);
    if at >= |kids| {
      assert kids[..at] == kids;
      PhaseKeeps(c, s, i, Looping, roots, base);
    } else if kids[at].Null() || (Resolves(c.m, kids[at]) && s.marks[kids[at].slot] == c.epoch) {
      PassKeeps(c, s, i, roots, base);
    } else if !Resolves(c.m, kids[at]) {
      BadHere(c, s, slot, at, roots);
      FailKeeps(c, s, i, roots, base);
    } else {
      MarkKeeps(c, s, i, roots, base);
    }
  }

  lemma BadHere(c: Config, s: State, slot: nat, at: nat, roots: set<nat>)
    requires AllPlaced(c.m) && MarkedOnce(c, s) && Reached(c, s, roots) && slot in s.queue && at < |Kids(c.m, slot)|
    requires !Kids(c.m, slot)[at].Null() && !Resolves(c.m, Kids(c.m, slot)[at])
    ensures BadReference(c.m, roots)
  {
    hide Kids, Reachable;
  }

  lemma {:induction false} RunKeeps(c: Config, s: State, schedule: seq<nat>, roots: set<nat>, base: nat)
    requires Admitted(c) && Inv(c, s, roots, base)
    ensures Inv(c, Run(c, s, schedule), roots, base)
  {
    hide Inv, Step;
    if schedule != [] {
      var n := |schedule| - 1;
      RunKeeps(c, s, schedule[..n], roots, base);
      InvShape(c, s, roots, base);
      StepKeeps(c, Run(c, s, schedule[..n]), schedule[n], roots, base);
    }
  }

  lemma InvShape(c: Config, s: State, roots: set<nat>, base: nat)
    requires AllPlaced(c.m) && Inv(c, s, roots, base)
    ensures |s.workers| == |s.locals| && |s.marks| == |c.m.objects|
  {
  }

  // ----- a whole run -----

  /** The state in which `drainQueueParallel` starts its workers. */
  ghost function Start(marks: seq<nat>, queue: seq<nat>, workers: nat, total: nat): State {
    State(marks, queue, 0, false, seq(workers, i => Looping), seq(workers, i => 0), total)
  }

  /** The roots are marked and queued, and some worker runs. */
  ghost predicate Started(c: Config, marks: seq<nat>, queue: seq<nat>, workers: nat, roots: set<nat>)
    requires AllPlaced(c.m)
  {
    && QueueHoldsMarked(c.m, marks, queue, c.epoch, true) && 0 < workers
    && (forall k | 0 <= k < |queue| :: queue[k] in roots)
    && (forall r | r in roots :: Live(c.m, r) && marks[r] == c.epoch)
  }

  lemma StartInv(c: Config, marks: seq<nat>, queue: seq<nat>, workers: nat, roots: set<nat>, base: nat, total: nat)
    requires Admitted(c) && Started(c, marks, queue, workers, roots)
    requires total == base + MarkedBytes(c.m.objects, marks, c.epoch)
    ensures Inv(c, Start(marks, queue, workers, total), roots, base)
  {
    hide MarkedBytes, Kids, Sum;
    var s := Start(marks, queue, workers, total);
    SumOfZeros(s.locals);
    assert Working(s.workers[0]);
    forall k: nat | Live(c.m, k) && marks[k] == c.epoch
      ensures Reachable(c.m, roots, k)
    {
      RootReachable(c.m, roots, k);
    }
  }

  /** Once every worker is gone without an error, the whole queue has been followed. */
  lemma GoneFollowed(c: Config, s: State, roots: set<nat>, base: nat)
    requires Admitted(c) && Inv(c, s, roots, base) && !s.failed && forall i | 0 <= i < |s.workers| :: s.workers[i].Gone?
    ensures s.cursor == |s.queue| && QueueHoldsMarked(c.m, s.marks, s.queue, c.epoch, true)
    ensures forall k | 0 <= k < |s.queue| :: AllPassed(c, s.marks, Kids(c.m, s.queue[k]))
  {
    hide Kids, AllPassed, Reached, Counted;
  }

  lemma {:induction false} SumOfZeros(xs: seq<nat>)
    requires forall i | 0 <= i < |xs| :: xs[i] == 0
    ensures Sum(xs) == 0
  {
    if xs != [] {
      SumOfZeros(xs[..|xs| - 1]);
    }
  }

  lemma FollowedTraced(c: Config, s: State, roots: set<nat>)
    requires Admitted(c) && QueueHoldsMarked(c.m, s.marks, s.queue, c.epoch, true) && Reached(c, s, roots)
    requires forall r | r in roots :: Live(c.m, r) && s.marks[r] == c.epoch
    requires forall k | 0 <= k < |s.queue| :: AllPassed(c, s.marks, Kids(c.m, s.queue[k]))
    ensures forall k: nat | Live(c.m, k) :: s.marks[k] == c.epoch <==> Reachable(c.m, roots, k)
    ensures !BadReference(c.m, roots)
  {
    forall k | 0 <= k < |s.queue|
      ensures Traced(c.m, s.marks, c.epoch, true, s.queue[k]) && s.queue[k] in ReachableSet(c.m, roots)
    {
      PassedTraced(c, s.marks, s.queue[k]);
    }
    MajorMarksReachable(c.m, s.marks, s.queue, c.epoch, roots);
    forall a: nat, k: nat | Live(c.m, a) && Reachable(c.m, roots, a) && k < |Kids(c.m, a)|
      ensures Kids(c.m, a)[k].Null() || Resolves(c.m, Kids(c.m, a)[k])
    {
      var at :| 0 <= at < |s.queue| && s.queue[at] == a;
      assert Passed(c, s.marks, Kids(c.m, s.queue[at])[k]);
    }
  }

  lemma PassedTraced(c: Config, marks: seq<nat>, slot: nat)
    requires |marks| == |c.m.objects| && Live(c.m, slot) && Placed(c.m, c.m.objects[slot])
    requires AllPassed(c, marks, Kids(c.m, slot))
    ensures Traced(c.m, marks, c.epoch, true, slot)
  {
    var refs := Children(c.m, c.m.objects[slot], Words(c.m, c.m.objects[slot]));
    forall k | 0 <= k < |refs|
      ensures Settled(c.m, marks, c.epoch, true, refs[k])
    {
      assert Passed(c, marks, Kids(c.m, slot)[k]);
    }
    TracedWhenSettled(c.m, marks, c.epoch, true, slot);
  }

  lemma {:induction false} RunMarksGrow(c: Config, s: State, schedule: seq<nat>)
    requires |s.workers| == |s.locals| && |s.marks| == |c.m.objects|
    ensures MarksGrow(s.marks, Run(c, s, schedule).marks, c.epoch)
  {
    if schedule != [] {
      var n := |schedule| - 1;
      RunMarksGrow(c, s, schedule[..n]);
      StepMarksGrow(c, Run(c, s, schedule[..n]), schedule[n]);
    }
  }

  lemma StepMarksGrow(c: Config, s: State, i: nat)
    requires |s.workers| == |s.locals| && |s.marks| == |c.m.objects|
    ensures MarksGrow(s.marks, Step(c, s, i).marks, c.epoch)
  {
    hide Kids;
  }

  /**
    * Marking with any number of workers, for every interleaving. The queue never outgrows its capacity. When all
    * workers are gone, there was an error exactly if some reachable entry holds a bad reference; and without an error
    * the cursor is at the end of the queue, each reachable entry is queued once, exactly the reachable entries are
    * marked, and their bytes are counted once: what sequential marking gives.
    */
  lemma ParallelMarksReachable(c: Config, marks: seq<nat>, queue: seq<nat>, workers: nat, roots: set<nat>, base: nat,
      total: nat, schedule: seq<nat>)
    requires Admitted(c) && Started(c, marks, queue, workers, roots)
    requires total == base + MarkedBytes(c.m.objects, marks, c.epoch)
    ensures var t := Run(c, Start(marks, queue, workers, total), schedule);
            && |t.queue| <= c.capacity
            && ((forall i | 0 <= i < |t.workers| :: t.workers[i].Gone?) ==>
                  && (t.failed <==> BadReference(c.m, roots))
                  && (!t.failed ==>
                        && t.cursor == |t.queue| && QueueHoldsMarked(c.m, t.marks, t.queue, c.epoch, true)
                        && (forall k: nat | Live(c.m, k) :: t.marks[k] == c.epoch <==> Reachable(c.m, roots, k))
                        && t.total == base + MarkedBytes(c.m.objects, t.marks, c.epoch)))
  {
    hide Kids, Reachable, BadReference, MarkedBytes, Step;
    var s := Start(marks, queue, workers, total);
    StartInv(c, marks, queue, workers, roots, base, total);
    RunKeeps(c, s, schedule, roots, base);
    RunMarksGrow(c, s, schedule);
    var t := Run(c, s, schedule);
    DistinctFits(t.queue, c.occupied);
    if !t.failed && forall i | 0 <= i < |t.workers| :: t.workers[i].Gone? {
      GoneFollowed(c, t, roots, base);
      FollowedTraced(c, t, roots);
      SumOfZeros(t.locals);
    }
  }
}
