/** Whole runs of the managed heap: allocations, writes, batches and collections in any order. */
module Session {
  import opened Prelude
  import opened HeapWords
  import opened CardScan
  import opened HeapModel
  import opened Cards
  import opened Marking
  import opened Evacuation
  import opened Collection
  import opened HeldHandles
  import opened Barrier
  import opened LargeEntries
  import opened Collector

  /** What the guest, a worker or the collector does next. */
  datatype Op =
    | OpenBatch(room: nat)
    | OwnerStore(ref: Ref, offset: nat, data: seq<byte>)
    | WorkerStore(b: nat, ref: Ref, offset: nat, data: seq<byte>)
    | FlushBatch(b: nat)
    | Allocate(slot: nat, layout: nat, count: nat, size: nat, logical: nat, page: nat)
    | AllocateLarge(slot: nat, layout: nat, count: nat, size: nat, logical: nat, page: nat)
    | CollectFrom(roots: seq<Ref>, major: bool)

  datatype Answer = Opened | Flushed | Written(outcome: WriteOutcome) | Allocated | Collected(ending: Outcome) | Refused

  /**
    * What can be seen of the heap between two operations: its entries and pages; which batches are out, how many cards
    * they have logged and how many they may; the nursery; how many entries are occupied and how many a collection can
    * queue; and what keeps collections away.
    */
  datatype Moment = Moment(m: Store, open: seq<bool>, logged: seq<nat>, room: seq<nat>, nursery: seq<nat>,
                           occupied: nat, scratch: nat, closed: bool, unpublished: nat)

  ghost predicate AnyBatchOpen(open: seq<bool>) {
    exists b :: 0 <= b < |open| && open[b]
  }

  /** The write is to a live entry and inside it. */
  predicate Fits(m: Store, ref: Ref, offset: nat, data: seq<byte>) {
    Resolves(m, ref) && offset + |data| <= m.objects[ref.slot].size
  }

  /** What becomes of a write that holds no bad reference. */
  function WriteAnswer(m: Store, ref: Ref, offset: nat, data: seq<byte>): WriteOutcome {
    if !Resolves(m, ref) then StaleReference else if !Fits(m, ref, offset, data) then OutsidePayload else WriteDone
  }

  /** The same through batch `k`, which must be out and have room for the cards the write makes dirty. */
  ghost predicate BatchAnswer(a: Moment, k: nat, ref: Ref, offset: nat, data: seq<byte>, outcome: WriteOutcome) {
    k < |a.open| == |a.logged| == |a.room| &&
    if !a.open[k] then outcome == BatchReturned
    else if !Fits(a.m, ref, offset, data) then outcome == WriteAnswer(a.m, ref, offset, data)
    else
      Arranged(a.m) && outcome ==
        if a.logged[k] + Needed(a.m, ref.slot, offset, |data|) > a.room[k] then LogFull else WriteDone
  }

  /** The slot is free, the layout is registered and the elements fit the size. */
  predicate Admissible(m: Store, slot: nat, layout: nat, count: nat, size: nat) {
    && 0 < slot < |m.objects| && !m.objects[slot].state.Published? && 0 < layout < |m.layouts|
    && ElementBase(m.layouts[layout].stride, count) <= size && 8 <= size && size % 8 == 0
  }

  /** A page of the nursery has room for the entry. */
  predicate NurseryRoom(a: Moment, page: nat, size: nat) {
    page in a.nursery && page < |a.m.pages| && a.m.pages[page].used + size <= |a.m.pages[page].data|
  }

  /** The page is the next one or is free. */
  predicate PageFree(m: Store, page: nat) {
    page <= |m.pages| && (page == |m.pages| || m.pages[page].kind.FreePage?)
  }

  ghost function Ending(a: Moment, roots: seq<Ref>): Outcome {
    if a.closed then HeapClosed else if a.unpublished != 0 || AnyBatchOpen(a.open) then Busy
    else if a.scratch < a.occupied then NoScratch else if !RootsResolve(a.m, roots) then BadReference else Done
  }

  /** The answer to an operation. */
  ghost predicate Answered(op: Op, a: Moment, answer: Answer) {
    match op
    case OpenBatch(_) => answer == Opened
    case FlushBatch(k) => answer == if k < |a.open| then Flushed else Refused
    case OwnerStore(ref, offset, data) =>
      if Fits(a.m, ref, offset, data) && !Held(a.m, ref.slot, offset, data) then answer == Refused
      else answer == Written(WriteAnswer(a.m, ref, offset, data))
    case WorkerStore(k, ref, offset, data) =>
      if k >= |a.open| || (Fits(a.m, ref, offset, data) && !Held(a.m, ref.slot, offset, data)) then answer == Refused
      else answer.Written? && BatchAnswer(a, k, ref, offset, data, answer.outcome)
    case Allocate(slot, layout, count, size, _, page) =>
      answer == if Admissible(a.m, slot, layout, count, size) && NurseryRoom(a, page, size) then Allocated else Refused
    case AllocateLarge(slot, layout, count, size, _, page) =>
      answer == if Admissible(a.m, slot, layout, count, size) && PageFree(a.m, page) then Allocated else Refused
    case CollectFrom(roots, _) => answer == Collected(Ending(a, roots))
  }

  /** The batches after an operation. */
  ghost predicate BatchesAfter(op: Op, a: Moment, b: Moment) {
    match op
    case OpenBatch(room) => b.open == a.open + [true] && b.logged == a.logged + [0] && b.room == a.room + [room]
    case FlushBatch(k) =>
      && b.room == a.room
      && if k < |a.open| == |a.logged| then
           b.open == a.open[k := false] && b.logged == if a.open[k] then a.logged[k := 0] else a.logged
         else b.open == a.open && b.logged == a.logged
    case _ => b.open == a.open && b.room == a.room && |b.logged| == |a.logged|
  }

  /** The entries after an operation that got this answer. */
  ghost predicate StoreAfter(op: Op, a: Store, b: Store, answer: Answer) {
    match op
    case OwnerStore(ref, offset, data) =>
      if answer.Written? then Stored(a, b, ref.slot, offset, data, answer.outcome) else b == a
    case WorkerStore(_, ref, offset, data) =>
      if answer.Written? then Stored(a, b, ref.slot, offset, data, answer.outcome) else b == a
    case Allocate(slot, _, _, size, _, _) =>
      if answer == Allocated then Born(a, b, slot, size) && b.objects[slot].young else b == a
    case AllocateLarge(slot, _, _, size, _, _) =>
      if answer == Allocated then Born(a, b, slot, size) && !b.objects[slot].young else b == a
    case CollectFrom(roots, major) =>
      if answer == Collected(Done) then (if major then KeptByMajor(a, b, roots) else KeptByMinor(a, b, roots))
      else b == a
    case _ => b == a
  }

  /** One operation, from what could be seen before to what can be seen after. */
  ghost predicate Performed(op: Op, a: Moment, b: Moment, answer: Answer) {
    && Answered(op, a, answer) && BatchesAfter(op, a, b) && StoreAfter(op, a.m, b.m, answer)
    && b.scratch == a.scratch && b.closed == a.closed && b.unpublished == a.unpublished
    && (answer == Refused ==> b == a)
  }

  /** Registered layouts are well formed; the first is none. */
  ghost predicate Registered(layouts: seq<Layout>) {
    forall l: nat | 0 < l < |layouts| :: ValidLayout(layouts[l])
  }

  function Sizes(logs: seq<seq<Card>>): seq<nat> {
    seq(|logs|, i requires 0 <= i < |logs| => |logs[i]|)
  }

  /** The moment the heap is in. */
  ghost function See(h: ManagedHeap): Moment
    reads h
  {
    Moment(h.Mem(), h.batchOpen, Sizes(h.batchLogs), h.batchRoom, h.nurseryPages, |h.occupied|, h.queueCapacity,
           h.closed, h.unpublished)
  }

  ghost predicate Running(h: ManagedHeap)
    reads h
  {
    h.Between() && Arranged(h.Mem()) && CardsAddressable(h.Mem()) && Registered(h.layouts)
  }

  /** Executable form of `Held`: every word of the new payload is null or names a live entry. */
  method StoresHeld(h: ManagedHeap, ref: Ref, offset: nat, data: seq<byte>) returns (held: bool)
    requires Running(h) && Fits(h.Mem(), ref, offset, data)
    ensures held <==> Held(h.Mem(), ref.slot, offset, data)
  {
    hide Edge, Write, ManagedHeap.Between, CardsAddressable, Registered;
    ArrangedPlaced(h.Mem(), ref.slot);
    var o := h.objects[ref.slot];
    var payload := Write(h.pages[o.page].data[o.offset..o.offset + o.size], offset, data);
    var words := AllWords(h.layouts[o.layout], o.count);
    var k := 0;
    while k < |words|
      invariant 0 <= k <= |words|
      invariant forall i | 0 <= i < k :: Edge(payload, words[i]).Null() || Resolves(h.Mem(), Edge(payload, words[i]))
    {
      var r := Edge(payload, words[k]);
      if !(r.Null() || (0 < r.slot < |h.objects| && h.objects[r.slot].state.Published?
        && h.objects[r.slot].generation == r.generation)) {
        assert words[k] in Words(h.Mem(), o);
        return false;
      }
      k := k + 1;
    }
    held := true;
  }

  method StoreStep(h: ManagedHeap, op: Op) returns (answer: Answer)
    requires Running(h) && (op.OwnerStore? || op.WorkerStore?)
    modifies h
    ensures Running(h) && h.layouts == old(h.layouts) && Performed(op, old(See(h)), See(h), answer)
  {
    hide Edge, Write, Held, Payload, ManagedHeap.Between, CardsAddressable, Registered, Arranged, BytesOnly;
    h.LanesRoom();
    if op.WorkerStore? && op.b >= |h.batchOpen| {
      return Refused;
    }
    if op.ref.slot < |h.objects| && 0 < op.ref.slot && h.objects[op.ref.slot].state.Published?
      && h.objects[op.ref.slot].generation == op.ref.generation
       && op.offset + |op.data| <= h.objects[op.ref.slot].size
    {
      var held := StoresHeld(h, op.ref, op.offset, op.data);
      if !held {
        return Refused;
      }
    }
    var outcome;
    if op.OwnerStore? {
      outcome := h.GuestWrite(op.ref, op.offset, op.data);
    } else {
      outcome := h.WorkerWrite(op.b, op.ref, op.offset, op.data);
    }
    h.LanesRoom();
    answer := Written(outcome);
  }

  method AllocateStep(h: ManagedHeap, op: Op) returns (answer: Answer)
    requires Running(h) && op.Allocate?
    modifies h
    ensures Running(h) && h.layouts == old(h.layouts) && Performed(op, old(See(h)), See(h), answer)
  {
    hide ManagedHeap.Between, CardsAddressable, Arranged, Born, ValidLayout;
    if !(0 < op.slot < |h.objects| && !h.objects[op.slot].state.Published? && 0 < op.layout < |h.layouts|) {
      return Refused;
    }
    if !(ElementBase(h.layouts[op.layout].stride, op.count) <= op.size && 8 <= op.size && op.size % 8 == 0) {
      return Refused;
    }
    if !(op.page in h.nurseryPages && op.page < |h.pages|
      && h.pages[op.page].used + op.size <= |h.pages[op.page].data|) {
      return Refused;
    }
    h.PublishYoung(op.slot, op.layout, op.count, op.size, op.logical, op.page);
    h.LanesRoom();
    answer := Allocated;
  }

  /** A large payload of the script ends, with one more stride and card, below 4 GiB. */
  predicate InReach(op: Op, layouts: seq<Layout>) {
    op.AllocateLarge? && 0 < op.layout < |layouts| ==> Spannable(layouts[op.layout].stride, op.size)
  }

  method AllocateLargeStep(h: ManagedHeap, op: Op) returns (answer: Answer)
    requires Running(h) && op.AllocateLarge? && InReach(op, h.layouts)
    modifies h
    ensures Running(h) && h.layouts == old(h.layouts) && Performed(op, old(See(h)), See(h), answer)
  {
    hide ManagedHeap.Between, CardsAddressable, Arranged, Born, ValidLayout;
    if !(0 < op.slot < |h.objects| && !h.objects[op.slot].state.Published? && 0 < op.layout < |h.layouts|) {
      return Refused;
    }
    if !(ElementBase(h.layouts[op.layout].stride, op.count) <= op.size && 8 <= op.size && op.size % 8 == 0) {
      return Refused;
    }
    if !(op.page <= |h.pages| && (op.page == |h.pages| || h.pages[op.page].kind.FreePage?)) {
      return Refused;
    }
    h.LanesRoom();
    h.PublishLarge(op.slot, op.layout, op.count, op.size, op.logical, op.page);
    h.LanesRoom();
    answer := Allocated;
  }

  method CollectStep(h: ManagedHeap, op: Op) returns (answer: Answer)
    requires Running(h) && op.CollectFrom?
    modifies h
    ensures Running(h) && h.layouts == old(h.layouts) && Performed(op, old(See(h)), See(h), answer)
  {
    hide ManagedHeap.Between, CardsAddressable, Arranged, KeptByMinor, KeptByMajor, RootsResolve, Registered;
    var ending := h.GuestCollect(op.roots, op.major);
    h.LanesRoom();
    answer := Collected(ending);
  }

  method BatchStep(h: ManagedHeap, op: Op) returns (answer: Answer)
    requires Running(h) && (op.OpenBatch? || op.FlushBatch?)
    modifies h
    ensures Running(h) && h.layouts == old(h.layouts) && Performed(op, old(See(h)), See(h), answer)
  {
    hide ManagedHeap.Between, CardsAddressable, Arranged, Registered;
    h.LanesRoom();
    if op.OpenBatch? {
      var b := h.GuestOpen(op.room);
      return Opened;
    }
    if op.b >= |h.batchOpen| {
      return Refused;
    }
    h.GuestFlush(op.b);
    answer := Flushed;
  }

  /** A run: moment `i + 1` follows from moment `i` by operation `i`. */
  ghost predicate Follows(ops: seq<Op>, trace: seq<Moment>, answers: seq<Answer>) {
    |trace| == |ops| + 1 && |answers| == |ops| && forall i | 0 <= i < |ops| ::
      Performed(ops[i], trace[i], trace[i + 1], answers[i])
  }

  /**
    * Any script of operations, from any standing heap: each does what it promises and leaves the heap ready for the
    * next.
    */
  method RunScript(h: ManagedHeap, ops: seq<Op>) returns (answers: seq<Answer>, ghost trace: seq<Moment>)
    requires Running(h) && forall i | 0 <= i < |ops| :: InReach(ops[i], h.layouts)
    modifies h
    ensures Running(h) && Follows(ops, trace, answers) && trace[0] == old(See(h)) && trace[|ops|] == See(h)
  {
    hide Running, Performed, InReach;
    answers, trace := [], [See(h)];
    var i := 0;
    while i < |ops|
      invariant 0 <= i <= |ops| && Running(h) && |trace| == i + 1 && |answers| == i
      invariant trace[0] == old(See(h)) && trace[i] == See(h) && h.layouts == old(h.layouts)
      invariant forall k | 0 <= k < i :: Performed(ops[k], trace[k], trace[k + 1], answers[k])
    {
      var op := ops[i];
      var answer;
      if op.OwnerStore? || op.WorkerStore? {
        answer := StoreStep(h, op);
      } else if op.Allocate? {
        answer := AllocateStep(h, op);
      } else if op.AllocateLarge? {
        answer := AllocateLargeStep(h, op);
      } else if op.CollectFrom? {
        answer := CollectStep(h, op);
      } else {
        answer := BatchStep(h, op);
      }
      answers, trace := answers + [answer], trace + [See(h)];
      i := i + 1;
    }
  }

  // ----- what survives a run -----

  /** Every collection of the run that succeeds is given roots that reach the entry. */
  ghost predicate AlwaysReached(ops: seq<Op>, trace: seq<Moment>, answers: seq<Answer>, s: nat)
    requires |trace| == |ops| + 1 && |answers| == |ops|
  {
    forall i | 0 <= i < |ops| && ops[i].CollectFrom? && answers[i] == Collected(Done) ::
      AllPlaced(trace[i].m) && Reachable(trace[i].m, RootSlots(ops[i].roots), s)
  }

  predicate StoresTo(op: Op, s: nat) {
    (op.OwnerStore? || op.WorkerStore?) && op.ref.slot == s
  }

  lemma ReachedByMore(m: Store, roots: set<nat>, more: set<nat>, s: nat)
    requires AllPlaced(m) && Reachable(m, roots, s)
    ensures Reachable(m, roots + more, s)
  {
    var p :| PathTo(m, roots, s, p);
    assert PathTo(m, roots + more, s, p);
  }

  /** The entry is live in both, with the same handle, and with the same bytes unless something was stored to it. */
  ghost predicate Survives(a: Store, b: Store, s: nat, stored: bool) {
    && AllPlaced(a) && AllPlaced(b) && Live(a, s) && Live(b, s) && a.objects[s].generation == b.objects[s].generation
    && (!stored ==> Payload(b, b.objects[s]) == Payload(a, a.objects[s]))
  }

  lemma StepSurvives(op: Op, a: Moment, b: Moment, answer: Answer, s: nat)
    requires Performed(op, a, b, answer) && AllPlaced(a.m) && Live(a.m, s)
    requires op.CollectFrom? && answer == Collected(Done) ==> Reachable(a.m, RootSlots(op.roots), s)
    ensures Survives(a.m, b.m, s, StoresTo(op, s))
  {
    hide Payload, Write, Held, RootsResolve, Reachable, Sized, Placed;
    if op.CollectFrom? && answer == Collected(Done) {
      ReachedByMore(a.m, RootSlots(op.roots), OldSlots(a.m), s);
    }
  }

  /**
    * Over any run: an entry that is live at the start and reached by the roots of every collection stays live under
    * the same handle, and keeps its bytes if nothing is stored to it, however often it is moved or promoted.
    */
  lemma {:induction false} ReachedSurvives(ops: seq<Op>, trace: seq<Moment>, answers: seq<Answer>, s: nat)
    requires Follows(ops, trace, answers) && AllPlaced(trace[0].m) && Live(trace[0].m, s)
    requires AlwaysReached(ops, trace, answers, s)
    ensures Survives(trace[0].m, trace[|ops|].m, s, exists i :: 0 <= i < |ops| && StoresTo(ops[i], s))
    decreases |ops|
  {
    hide Performed, AllPlaced, Payload, Reachable;
    if ops != [] {
      var n := |ops| - 1;
      ReachedSurvives(ops[..n], trace[..n + 1], answers[..n], s);
      StepSurvives(ops[n], trace[n], trace[n + 1], answers[n], s);
      if StoresTo(ops[n], s) {
        assert StoresTo(ops[n], s);
      }
      forall i | 0 <= i < |ops[..n]| && StoresTo(ops[..n][i], s)
        ensures exists j :: 0 <= j < |ops| && StoresTo(ops[j], s)
      {
        assert StoresTo(ops[i], s);
      }
    }
  }

  /** Storing the bytes of a handle in a reference of an entry makes the entry hold the other one. */
  lemma StoredHandleHeld(m: Store, m': Store, s: nat, t: nat, at: nat, element: nat, k: nat)
    requires AllPlaced(m) && Live(m, s) && Live(m, t) && t < U32 && m.objects[t].generation < U32
    requires element < m.objects[s].count && k < |m.layouts[m.objects[s].layout].references|
    requires at == element * m.layouts[m.objects[s].layout].stride + m.layouts[m.objects[s].layout].references[k]
    requires Stored(m, m', s, at, HandleBytes(Ref(t, m.objects[t].generation)), WriteDone)
    ensures AllPlaced(m') && Holds(m', s, t)
  {
    var bytes, l := HandleBytes(Ref(t, m.objects[t].generation)), m.layouts[m.objects[s].layout];
    hide HandleBytes, Write;
    WriteThere(Payload(m, m.objects[s]), at, bytes);
    WriteLength(Payload(m, m.objects[s]), at, bytes);
    assert At(Payload(m', m'.objects[s]), at, bytes);
    assert HeldAt(Payload(m', m'.objects[s]), l, element, k, bytes);
  }

  lemma WriteLength(data: seq<byte>, at: nat, bytes: seq<byte>)
    requires at + |bytes| <= |data|
    ensures |Write(data, at, bytes)| == |data|
  {
  }
}
