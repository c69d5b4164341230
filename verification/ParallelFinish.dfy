/** Parallel marking comes to an end: every step of a worker that is not gone brings it nearer, in any schedule. */
module ParallelFinish {
  import opened Prelude
  import opened HeapModel
  import opened Marking
  import opened ParallelMark

  /** The live entries that are not marked. */
  ghost function Unmarked(c: Config, marks: seq<nat>): set<nat>
    requires |marks| == |c.m.objects|
  {
    set k: nat | k < |c.m.objects| && Live(c.m, k) && marks[k] != c.epoch
  }

  /** How far a worker is from being gone, if it takes no other slot. */
  ghost function Rank(c: Config, w: Worker): nat {
    match w
    case Gone => 0
    case Leaving => 1
    case Deciding(_) => 2
    case Looping => 3
    case Tracing(slot, at) => 4 + 2 * (if at < |Kids(c.m, slot)| then |Kids(c.m, slot)| - at else 0)
    case Enqueueing(slot, at, _) => 3 + 2 * (if at < |Kids(c.m, slot)| then |Kids(c.m, slot)| - at else 0)
    case Checking(slot) => 5 + 2 * |Kids(c.m, slot)|
  }

  ghost function Ranks(c: Config, ws: seq<Worker>): nat {
    if ws == [] then 0 else Ranks(c, ws[..|ws| - 1]) + Rank(c, ws[|ws| - 1])
  }

  /** Marked entries that a worker has still to queue. */
  function Pending(ws: seq<Worker>): nat {
    if ws == [] then 0 else Pending(ws[..|ws| - 1]) + (if ws[|ws| - 1].Enqueueing? then 1 else 0)
  }

  lemma {:induction false} SumsUpdate(c: Config, ws: seq<Worker>, i: nat, w: Worker)
    requires i < |ws|
    ensures Ranks(c, ws[i := w]) + Rank(c, ws[i]) == Ranks(c, ws) + Rank(c, w)
    ensures Pending(ws[i := w]) + (if ws[i].Enqueueing? then 1 else 0) ==
      Pending(ws) + (if w.Enqueueing? then 1 else 0)
  {
    hide Rank;
    var n := |ws| - 1;
    if i == n {
      assert ws[i := w][..n] == ws[..n];
    } else {
      assert ws[i := w][..n] == ws[..n][i := w];
      SumsUpdate(c, ws[..n], i, w);
    }
  }

  /** Entries to find, slots to take, and what the workers have in hand. */
  ghost predicate Nearer(c: Config, s: State, t: State)
    requires |s.marks| == |t.marks| == |c.m.objects| && s.cursor <= |s.queue| && t.cursor <= |t.queue|
  {
    var a, b := |Unmarked(c, t.marks)| + Pending(t.workers), |Unmarked(c, s.marks)| + Pending(s.workers);
    || a < b
    || (a == b && |t.queue| - t.cursor < |s.queue| - s.cursor)
    || (a == b && |t.queue| - t.cursor == |s.queue| - s.cursor && Ranks(c, t.workers) < Ranks(c, s.workers))
  }

  /** A worker that only changes its phase, and perhaps takes a slot, an error or a total with it. */
  lemma PhaseNearer(c: Config, s: State, t: State, i: nat, w: Worker)
    requires |s.marks| == |c.m.objects| && i < |s.workers| && s.cursor <= |s.queue|
    requires t.marks == s.marks && t.queue == s.queue && t.workers == s.workers[i := w] && !w.Enqueueing?
    requires s.workers[i].Enqueueing? || t.cursor == s.cursor + 1 <= |s.queue|
      || (t.cursor == s.cursor && Rank(c, w) < Rank(c, s.workers[i]))
    requires t.cursor >= s.cursor && t.cursor <= |t.queue|
    ensures Nearer(c, s, t)
  {
    SumsUpdate(c, s.workers, i, w);
    hide Rank, Ranks, Pending, Unmarked;
  }

  lemma MarkNearer(c: Config, s: State, t: State, i: nat, w: Worker, child: nat)
    requires |s.marks| == |c.m.objects| && i < |s.workers| && s.cursor <= |s.queue| && !s.workers[i].Enqueueing?
    requires Live(c.m, child) && s.marks[child] != c.epoch && t.marks == s.marks[child := c.epoch]
    requires t.queue == s.queue && t.cursor == s.cursor && t.workers == s.workers[i := w] && w.Enqueueing?
    requires Rank(c, w) < Rank(c, s.workers[i])
    ensures Nearer(c, s, t)
  {
    SumsUpdate(c, s.workers, i, w);
    assert child in Unmarked(c, s.marks) && Unmarked(c, t.marks) == Unmarked(c, s.marks) - {child};
    hide Rank, Ranks, Pending, Unmarked;
  }

  lemma EnqueueNearer(c: Config, s: State, t: State, i: nat, w: Worker)
    requires |s.marks| == |c.m.objects| && i < |s.workers| && s.workers[i].Enqueueing? && !w.Enqueueing?
    requires t.marks == s.marks && t.workers == s.workers[i := w] && s.cursor <= |s.queue| && t.cursor <= |t.queue|
    ensures Nearer(c, s, t)
  {
    SumsUpdate(c, s.workers, i, w);
    hide Rank, Ranks, Pending, Unmarked;
  }

  lemma TraceNearer(c: Config, s: State, i: nat)
    requires |s.workers| == |s.locals| && |s.marks| == |c.m.objects| && s.cursor <= |s.queue| && i < |s.workers|
    requires s.workers[i].Tracing?
    ensures var t := Step(c, s, i); |t.marks| == |c.m.objects| && t.cursor <= |t.queue| && Nearer(c, s, t)
  {
    hide Nearer, Kids;
    var t := Step(c, s, i);
    if t.workers[i].Enqueueing? {
      MarkNearer(c, s, t, i, t.workers[i], t.workers[i].child);
    } else {
      PhaseNearer(c, s, t, i, t.workers[i]);
    }
  }

  lemma LoopNearer(c: Config, s: State, i: nat)
    requires |s.workers| == |s.locals| && |s.marks| == |c.m.objects| && s.cursor <= |s.queue| && i < |s.workers|
    requires s.workers[i].Looping? || s.workers[i].Deciding? || s.workers[i].Checking? || s.workers[i].Leaving?
    ensures var t := Step(c, s, i); |t.marks| == |c.m.objects| && t.cursor <= |t.queue| && Nearer(c, s, t)
  {
    hide Nearer, Kids, Live;
    PhaseNearer(c, s, Step(c, s, i), i, Step(c, s, i).workers[i]);
  }

  /** Every step of a worker that is not gone brings the end nearer. */
  lemma StepNearer(c: Config, s: State, i: nat)
    requires |s.workers| == |s.locals| && |s.marks| == |c.m.objects| && s.cursor <= |s.queue| && i < |s.workers|
    requires !s.workers[i].Gone?
    ensures var t := Step(c, s, i); |t.marks| == |c.m.objects| && t.cursor <= |t.queue| && Nearer(c, s, t)
  {
    if s.workers[i].Enqueueing? {
      hide Nearer;
      EnqueueNearer(c, s, Step(c, s, i), i, Step(c, s, i).workers[i]);
    } else if s.workers[i].Tracing? {
      TraceNearer(c, s, i);
      hide Step, Nearer;
    } else {
      LoopNearer(c, s, i);
      hide Step, Nearer;
    }
  }

  ghost predicate AllGone(s: State) {
    forall i | 0 <= i < |s.workers| :: s.workers[i].Gone?
  }

  lemma {:induction false} Finishes(c: Config, s: State, roots: set<nat>, base: nat) returns (schedule: seq<nat>)
    requires Admitted(c) && Inv(c, s, roots, base)
    ensures |s.workers| == |s.locals| && |s.marks| == |c.m.objects| && AllGone(Run(c, s, schedule))
    decreases |Unmarked(c, s.marks)| + Pending(s.workers), |s.queue| - s.cursor, Ranks(c, s.workers)
  {
    hide Step, Unmarked, Pending, Ranks;
    InvShape(c, s, roots, base);
    assert s.cursor <= |s.queue|;
    hide Inv;
    schedule := [];
    if !AllGone(s) {
      var i :| 0 <= i < |s.workers| && !s.workers[i].Gone?;
      StepNearer(c, s, i);
      StepKeeps(c, s, i, roots, base);
      StepShape(c, s, i);
      var more := Finishes(c, Step(c, s, i), roots, base);
      RunFirst(c, s, i, more);
      schedule := [i] + more;
    }
  }

  lemma {:induction false} RunFirst(c: Config, s: State, i: nat, rest: seq<nat>)
    requires |s.workers| == |s.locals| && |s.marks| == |c.m.objects|
    ensures |Step(c, s, i).workers| == |Step(c, s, i).locals| && |Step(c, s, i).marks| == |c.m.objects|
    ensures Run(c, s, [i] + rest) == Run(c, Step(c, s, i), rest)
    decreases |rest|
  {
    hide Step;
    StepShape(c, s, i);
    if rest == [] {
      assert [i] + rest == [i] && [i][..0] == [];
      assert Run(c, s, [i]) == Step(c, Run(c, s, []), i);
    } else {
      var n := |rest| - 1;
      assert ([i] + rest)[..n + 1] == [i] + rest[..n];
      RunFirst(c, s, i, rest[..n]);
    }
  }

  lemma {:induction false} RunTwice(c: Config, s: State, a: seq<nat>, b: seq<nat>)
    requires |s.workers| == |s.locals| && |s.marks| == |c.m.objects|
    ensures Run(c, s, a + b) == Run(c, Run(c, s, a), b)
    decreases |b|
  {
    hide Step;
    if b == [] {
      assert a + b == a;
    } else {
      var n := |b| - 1;
      assert (a + b)[..|a| + n] == a + b[..n];
      RunTwice(c, s, a, b[..n]);
    }
  }

  /**
    * Whatever the workers have done so far, they can go on until all of them are gone; and every schedule that picks
    * workers which are not gone gets there, since each such step brings the end nearer.
    */
  lemma CanFinish(c: Config, marks: seq<nat>, queue: seq<nat>, workers: nat, roots: set<nat>, base: nat, total: nat,
      schedule: seq<nat>) returns (rest: seq<nat>)
    requires Admitted(c) && Started(c, marks, queue, workers, roots)
    requires total == base + MarkedBytes(c.m.objects, marks, c.epoch)
    ensures AllGone(Run(c, Start(marks, queue, workers, total), schedule + rest))
  {
    var s := Start(marks, queue, workers, total);
    StartInv(c, marks, queue, workers, roots, base, total);
    RunKeeps(c, s, schedule, roots, base);
    hide Step, Start, Inv;
    rest := Finishes(c, Run(c, s, schedule), roots, base);
    StartShape(c, marks, queue, workers, total, roots);
    RunTwice(c, s, schedule, rest);
  }

  lemma StartShape(c: Config, marks: seq<nat>, queue: seq<nat>, workers: nat, total: nat, roots: set<nat>)
    requires Admitted(c) && Started(c, marks, queue, workers, roots)
    ensures var s := Start(marks, queue, workers, total); |s.workers| == |s.locals| && |s.marks| == |c.m.objects|
  {
  }
}
