/** The ledger of the managed heap: slots, generations and guest bytes across batches. */
module Allocation {
  import opened Prelude

  const MAX_GENERATION: nat := 0xFFFF_FFFF
  const MAX_SLOT: nat := 0xFFFF_FFFF
  const MAX_INT64: nat := 0x7FFF_FFFF_FFFF_FFFF
  const SEGMENT_SLOTS: nat := 256

  datatype EntryState = Free | Reserved | Published

  datatype Entry = Entry(state: EntryState, generation: nat, logical: nat)

  /**
    * Where a slot is: not yet handed out, on the free list, in one batch, occupied, reserved by the owner, or
    * retired.
    */
  datatype Place = Unborn | InFree | InBatch(b: nat) | InOccupied | InDirect | Retired

  datatype Reservation = Reservation(slot: nat, generation: nat, done: bool)

  datatype Batch = Batch(
    finished: bool, credit: nat, reserved: nat, committed: nat, used: nat, reservations: seq<Reservation>)

  datatype Handle = Handle(slot: nat, generation: nat)

  function Slots(rs: seq<Reservation>): seq<nat> {
    seq(|rs|, i requires 0 <= i < |rs| => rs[i].slot)
  }

  /** The list holds exactly the slots of that place, each once. */
  ghost predicate Lists(xs: seq<nat>, place: seq<Place>, p: Place) {
    && Distinct(xs)
    && (forall i | 0 <= i < |xs| :: xs[i] < |place| && place[xs[i]] == p)
    && (forall s: nat | s < |place| && place[s] == p :: s in xs)
  }

  // ----- bytes by place -----

  /** What a total counts. */
  datatype Count = OccupiedBytes | DirectBytes | ReservedIn(b: nat) | CommittedIn(b: nat)

  function Weight(e: Entry, p: Place, c: Count): nat {
    match c
    case OccupiedBytes => if p.InOccupied? then e.logical else 0
    case DirectBytes => if p.InDirect? then e.logical else 0
    case ReservedIn(b) => if p == InBatch(b) && e.state.Reserved? then e.logical else 0
    case CommittedIn(b) => if p == InBatch(b) && e.state.Published? then e.logical else 0
  }

  function Total(objects: seq<Entry>, place: seq<Place>, c: Count): nat
    requires |objects| == |place|
  {
    if objects == [] then 0
    else
      var n := |objects| - 1;
      Total(objects[..n], place[..n], c) + Weight(objects[n], place[n], c)
  }

  lemma {:induction false} TotalUpdate(objects: seq<Entry>, place: seq<Place>, c: Count, s: nat, e: Entry, p: Place)
    requires |objects| == |place| && s < |objects|
    ensures Total(objects[s := e], place[s := p], c) + Weight(objects[s], place[s], c)
         == Total(objects, place, c) + Weight(e, p, c)
  {
    var n := |objects| - 1;
    if s == n {
      assert objects[s := e][..n] == objects[..n] && place[s := p][..n] == place[..n];
    } else {
      assert objects[s := e][..n] == objects[..n][s := e] && place[s := p][..n] == place[..n][s := p];
      TotalUpdate(objects[..n], place[..n], c, s, e, p);
    }
  }

  lemma {:induction false} TotalGrow(objects: seq<Entry>, place: seq<Place>, more: seq<Entry>, where: seq<Place>,
      c: Count)
    requires |objects| == |place| && |more| == |where|
    requires forall i | 0 <= i < |more| :: Weight(more[i], where[i], c) == 0
    ensures Total(objects + more, place + where, c) == Total(objects, place, c)
  {
    if more == [] {
      assert objects + more == objects && place + where == place;
    } else {
      var n := |more| - 1;
      assert (objects + more)[..|objects| + n] == objects + more[..n];
      assert (place + where)[..|objects| + n] == place + where[..n];
      TotalGrow(objects, place, more[..n], where[..n], c);
    }
  }

  lemma {:induction false} TotalAbsent(objects: seq<Entry>, place: seq<Place>, b: nat)
    requires |objects| == |place| && forall s: nat | s < |place| :: place[s] != InBatch(b)
    ensures Total(objects, place, ReservedIn(b)) == 0 && Total(objects, place, CommittedIn(b)) == 0
  {
    if objects != [] {
      TotalAbsent(objects[..|objects| - 1], place[..|objects| - 1], b);
    }
  }

  function Credits(batches: seq<Batch>): nat {
    if batches == [] then 0
    else
      Credits(batches[..|batches| - 1])
      + (if batches[|batches| - 1].finished then 0 else batches[|batches| - 1].credit)
  }

  function Owed(b: Batch): nat {
    if b.finished then 0 else b.credit
  }

  lemma {:induction false} CreditsUpdate(batches: seq<Batch>, b: nat, after: Batch)
    requires b < |batches|
    ensures Credits(batches[b := after]) + Owed(batches[b]) == Credits(batches) + Owed(after)
  {
    var n := |batches| - 1;
    if b == n {
      assert batches[b := after][..n] == batches[..n];
    } else {
      assert batches[b := after][..n] == batches[..n][b := after];
      CreditsUpdate(batches[..n], b, after);
    }
  }

  // ----- what holds between two operations -----

  /** Not in use and counted nowhere. */
  predicate Idle(e: Entry) {
    e.state.Free? || (e.state.Reserved? && e.logical == 0)
  }

  /** The state a slot's place allows; a slot waiting for reuse has a generation left to give. */
  predicate Fits(e: Entry, p: Place) {
    && e.generation <= MAX_GENERATION
    && match p
       case Unborn => e == Entry(Free, 0, 0)
       case InFree => Idle(e) && e.generation < MAX_GENERATION
       case InBatch(_) => true
       case InOccupied => e.state.Published?
       case InDirect => e.state.Reserved?
       case Retired => Idle(e) && e.generation == MAX_GENERATION
  }

  ghost predicate SlotsOk(objects: seq<Entry>, place: seq<Place>, next: nat) {
    && |objects| == |place| && |objects| % SEGMENT_SLOTS == 0 && |objects| <= MAX_SLOT + 1
    && 1 <= next <= MAX_SLOT + 1 && (next <= |place| || (next == 1 && place == []))
    && (forall s: nat | s < |place| :: Fits(objects[s], place[s]) && (place[s].Unborn? <==> s == 0 || next <= s))
  }

  /** One batch: its tickets are its own, unused tickets are unissued, and its two sums agree with the directory. */
  ghost predicate BatchOk(objects: seq<Entry>, place: seq<Place>, b: nat, batch: Batch)
    requires |objects| == |place|
  {
    && Lists(if batch.finished then [] else Slots(batch.reservations), place, InBatch(b))
    && (!batch.finished ==>
          && batch.used <= |batch.reservations|
          && batch.reserved == Total(objects, place, ReservedIn(b))
          && batch.committed == Total(objects, place, CommittedIn(b))
          && batch.reserved + batch.committed <= batch.credit
          && (forall k | 0 <= k < |batch.reservations| :: TicketOk(objects, batch, k)))
  }

  predicate TicketOk(objects: seq<Entry>, batch: Batch, k: nat)
    requires k < |batch.reservations|
  {
    var r := batch.reservations[k];
    && r.slot < |objects|
    && (batch.used <= k ==> Idle(objects[r.slot]) && objects[r.slot].generation < MAX_GENERATION)
    && (k < batch.used && !r.done ==> objects[r.slot].state.Reserved?)
    && (k < batch.used ==> r.generation == objects[r.slot].generation)
  }

  /** Occupied and reserved bytes fit the guest limit; a limit of zero means none. */
  predicate WithinLimit(occupied: nat, reserved: nat, limit: nat) {
    occupied + reserved <= MAX_INT64 && (limit != 0 ==> occupied + reserved <= limit)
  }

  /** Whether flushing publishes ticket `k`. */
  predicate Publishes(objects: seq<Entry>, batch: Batch, k: nat)
    requires k < |batch.reservations|
  {
    k < batch.used && batch.reservations[k].slot < |objects| && objects[batch.reservations[k].slot].state.Published?
  }

  /** Whether flushing puts the slot of ticket `k` back on the free list. */
  predicate GivesBack(objects: seq<Entry>, batch: Batch, k: nat)
    requires k < |batch.reservations|
  {
    var slot := batch.reservations[k].slot;
    !Publishes(objects, batch, k) && slot < |objects| && objects[slot].generation != MAX_GENERATION
  }

  /** The slots that flushing publishes, among the first `n` tickets. */
  function PublishedSlots(objects: seq<Entry>, batch: Batch, n: nat): seq<nat>
    requires n <= |batch.reservations|
  {
    if n == 0 then []
    else
      PublishedSlots(objects, batch, n - 1)
      + (if Publishes(objects, batch, n - 1) then [batch.reservations[n - 1].slot] else [])
  }

  /** The slots that flushing gives back, among the first `n` tickets. */
  function ReturnedSlots(objects: seq<Entry>, batch: Batch, n: nat): seq<nat>
    requires n <= |batch.reservations|
  {
    if n == 0 then []
    else
      ReturnedSlots(objects, batch, n - 1)
      + (if GivesBack(objects, batch, n - 1) then [batch.reservations[n - 1].slot] else [])
  }

  /** The free list after a slot was released: a slot without a generation left is not listed again. */
  function FreedInto(freeSlots: seq<nat>, slot: nat, entry: Entry): seq<nat> {
    if entry.generation != MAX_GENERATION then freeSlots + [slot] else freeSlots
  }

  ghost predicate IssuedFits(issued: set<Handle>, objects: seq<Entry>) {
    forall h | h in issued :: h.slot < |objects| && h.generation <= objects[h.slot].generation
  }

  /** The next generation of a slot makes a handle that was never given out. */
  lemma IssuedNext(issued: set<Handle>, objects: seq<Entry>, h: Handle, e: Entry)
    requires IssuedFits(issued, objects) && h.slot < |objects|
    requires h.generation == e.generation == objects[h.slot].generation + 1
    ensures h !in issued && IssuedFits(issued + {h}, objects[h.slot := e])
  {
  }

  /** The slots of the next `n` tickets: from the end of the free list, then from the slot counter on. */
  function Tickets(free: seq<nat>, next: nat, n: nat): seq<nat> {
    seq(n, i requires 0 <= i < n => if i < |free| then free[|free| - 1 - i] else next + (i - |free|))
  }

  /** What is left of the free list. */
  function FreeAfter(free: seq<nat>, n: nat): seq<nat> {
    if n <= |free| then free[..|free| - n] else []
  }

  /** The slot counter afterwards. */
  function NextAfter(free: seq<nat>, next: nat, n: nat): nat {
    if n <= |free| then next else next + (n - |free|)
  }

  /** The slots below this one have been handed out, given the 32-bit counter. */
  function HandedOut(next: nat): nat {
    if next == 0 then MAX_SLOT + 1 else next
  }

  // ----- moving one slot -----

  lemma ListsWithout(xs: seq<nat>, place: seq<Place>, p: Place, s: nat, q: Place)
    requires Lists(xs, place, p) && s < |place| && place[s] != p && q != p
    ensures Lists(xs, place[s := q], p)
  {
  }

  lemma ListsAdd(xs: seq<nat>, place: seq<Place>, p: Place, s: nat)
    requires Lists(xs, place, p) && s < |place| && place[s] != p
    ensures Lists(xs + [s], place[s := p], p)
  {
    assert s !in xs;
    forall t: nat | t < |place| && place[s := p][t] == p
      ensures t in xs + [s]
    {
      assert t == s || t in xs;
    }
  }

  lemma ListsDropLast(xs: seq<nat>, place: seq<Place>, p: Place, q: Place)
    requires Lists(xs, place, p) && xs != [] && q != p
    ensures Lists(xs[..|xs| - 1], place[xs[|xs| - 1] := q], p)
  {
    var s, front := xs[|xs| - 1], xs[..|xs| - 1];
    forall t: nat | t < |place| && place[s := q][t] == p
      ensures t in front
    {
      assert t in xs;
    }
  }

  lemma ListsSwapDelete(xs: seq<nat>, place: seq<Place>, p: Place, i: nat, q: Place)
    requires Lists(xs, place, p) && i < |xs| && q != p
    ensures Lists(SwapDelete(xs, i), place[xs[i] := q], p)
  {
    var s, after := xs[i], SwapDelete(xs, i);
    forall t: nat | t < |place| && place[s := q][t] == p
      ensures t in after
    {
      var k :| 0 <= k < |xs| && xs[k] == t;
      assert k < |xs| - 1 ==> after[k] == t;
      assert k == |xs| - 1 ==> after[i] == t;
    }
  }

  lemma {:induction false} TotalZero(objects: seq<Entry>, place: seq<Place>, c: Count, s: nat)
    requires |objects| == |place| && s < |objects| && Total(objects, place, c) == 0
    ensures Weight(objects[s], place[s], c) == 0
  {
    var n := |objects| - 1;
    if s < n {
      TotalZero(objects[..n], place[..n], c, s);
    }
  }

  lemma {:induction false} TotalAtLeast(objects: seq<Entry>, place: seq<Place>, c: Count, s: nat)
    requires |objects| == |place| && s < |objects|
    ensures Weight(objects[s], place[s], c) <= Total(objects, place, c)
  {
    var n := |objects| - 1;
    if s < n {
      TotalAtLeast(objects[..n], place[..n], c, s);
    }
  }

  lemma {:induction false} CreditsAtLeast(batches: seq<Batch>, b: nat)
    requires b < |batches|
    ensures Owed(batches[b]) <= Credits(batches)
  {
    if b < |batches| - 1 {
      CreditsAtLeast(batches[..|batches| - 1], b);
    }
  }

  // ----- one slot changes -----

  /** A batch does not notice a slot that is neither in it before nor after. */
  lemma BatchUnaffected(objects: seq<Entry>, place: seq<Place>, b: nat, batch: Batch, s: nat, e: Entry, p: Place)
    requires |objects| == |place| && s < |objects| && BatchOk(objects, place, b, batch) && place[s] != InBatch(b)
    requires p != InBatch(b)
    ensures BatchOk(objects[s := e], place[s := p], b, batch)
  {
    var xs := if batch.finished then [] else Slots(batch.reservations);
    ListsWithout(xs, place, InBatch(b), s, p);
    TotalUpdate(objects, place, ReservedIn(b), s, e, p);
    TotalUpdate(objects, place, CommittedIn(b), s, e, p);
    var after := objects[s := e];
    forall k | 0 <= k < |batch.reservations| && !batch.finished
      ensures TicketOk(after, batch, k)
    {
      assert xs[k] == batch.reservations[k].slot && TicketOk(objects, batch, k);
    }
  }

  ghost predicate BatchesOk(objects: seq<Entry>, place: seq<Place>, batches: seq<Batch>, except: int)
    requires |objects| == |place|
  {
    && (forall b: nat | b < |batches| && b != except :: BatchOk(objects, place, b, batches[b]))
    && (forall s: nat | s < |place| && place[s].InBatch? :: place[s].b < |batches| || place[s].b == except)
  }

  /** Moving a slot between places outside every batch, or in and out of the excepted one. */
  lemma BatchesUnaffected(objects: seq<Entry>, place: seq<Place>, batches: seq<Batch>, except: int, s: nat, e: Entry,
      p: Place)
    requires |objects| == |place| && s < |objects| && BatchesOk(objects, place, batches, except)
    requires place[s].InBatch? ==> place[s].b == except
    requires p.InBatch? ==> p.b == except
    ensures BatchesOk(objects[s := e], place[s := p], batches, except)
  {
    hide BatchOk;
    forall b: nat | b < |batches| && b != except
      ensures BatchOk(objects[s := e], place[s := p], b, batches[b])
    {
      BatchUnaffected(objects, place, b, batches[b], s, e, p);
    }
  }

  lemma SlotMoved(objects: seq<Entry>, place: seq<Place>, next: nat, s: nat, e: Entry, p: Place)
    requires SlotsOk(objects, place, next) && 0 < s < next && Fits(e, p) && !p.Unborn?
    ensures SlotsOk(objects[s := e], place[s := p], next)
  {
  }

  function Min(a: nat, b: nat): nat {
    if a < b then a else b
  }

  // ----- the ledger -----

  datatype Outcome = Granted | Refused | NeedCollection | LimitReached | Fault

  class Ledger {
    var objects: seq<Entry>
    var nextSlot: nat
    var freeSlots: seq<nat>
    var occupied: seq<nat>
    var direct: seq<nat>
    var batches: seq<Batch>
    var occupiedBytes: nat
    var reservedBytes: nat
    var controlBytes: nat
    var controlPending: nat
    const maxGuestBytes: nat
    // every slot's place, and every handle ever given out
    ghost var place: seq<Place>
    ghost var issued: set<Handle>

    constructor (limit: nat)
      ensures Valid() && maxGuestBytes == limit && issued == {} && objects == []
    {
      objects, nextSlot, freeSlots, occupied, direct, batches := [], 1, [], [], [], [];
      occupiedBytes, reservedBytes, controlBytes, controlPending := 0, 0, 0, 0;
      maxGuestBytes := limit;
      place, issued := [], {};
    }

    /** Handles given out are never ahead of the slot's generation, so the next generation is new. */
    ghost predicate IssuedOk()
      reads this`objects, this`issued
    {
      IssuedFits(issued, objects)
    }

    ghost predicate SlotListsOk()
      reads this`objects, this`place, this`nextSlot, this`freeSlots, this`occupied, this`direct
    {
      && nextSlot <= MAX_SLOT && SlotsOk(objects, place, HandedOut(nextSlot))
      && Lists(freeSlots, place, InFree) && Lists(occupied, place, InOccupied) && Lists(direct, place, InDirect)
    }

    ghost predicate BytesOk()
      reads this`objects, this`place, this`batches, this`occupiedBytes, this`reservedBytes, this`controlBytes,
        this`controlPending
    {
      && |objects| == |place|
      && occupiedBytes == controlBytes + Total(objects, place, OccupiedBytes)
      && reservedBytes == controlPending + Credits(batches) + Total(objects, place, DirectBytes)
      && WithinLimit(occupiedBytes, reservedBytes, maxGuestBytes)
    }

    /** Every account is right; the slot counter may have wrapped to zero, when every slot has been handed out. */
    ghost predicate Standing()
      reads this
    {
      SlotListsOk() && BytesOk() && BatchesOk(objects, place, batches, -1) && IssuedOk()
    }

    /** The slot counter has not wrapped. */
    ghost predicate Valid()
      reads this
    {
      Standing() && 0 < nextSlot
    }

    // ----- slots -----

    /** `growDirectory`: one more segment of extra entries. */
    method GrowDirectory()
      requires Standing() && |objects| <= MAX_SLOT
      modifies this`objects, this`place
      ensures Standing() && objects == old(objects) + seq(SEGMENT_SLOTS, i => Entry(Free, 0, 0))
    {
      var more := seq(SEGMENT_SLOTS, i => Entry(Free, 0, 0));
      ghost var where := seq(SEGMENT_SLOTS, i => Unborn);
      GrowKeepsBatches(objects, place, batches, more, where);
      TotalGrow(objects, place, more, where, OccupiedBytes);
      TotalGrow(objects, place, more, where, DirectBytes);
      hide BatchOk;
      objects := objects + more;
      place := place + where;
    }

    /**
      * The ticket loop of `acquireBatch` and `refill`: free slots first, then fresh ones. The accounts follow it when
      * they were right and the fresh slots are really fresh.
      */
    method TakeSlots(b: nat, handles: nat, have: seq<nat>, ghost sound: bool) returns (slots: seq<nat>)
      requires nextSlot + (handles - |freeSlots|) <= MAX_SLOT && |objects| == |place|
      requires sound ==> Filling(b, have) && nextSlot + (handles - |freeSlots|) <= |objects|
      requires sound ==> 0 < nextSlot || handles <= |freeSlots|
      modifies this`freeSlots, this`nextSlot, this`place
      ensures slots == Tickets(old(freeSlots), old(nextSlot), handles) && |objects| == |place|
      ensures freeSlots == FreeAfter(old(freeSlots), handles)
      ensures nextSlot == NextAfter(old(freeSlots), old(nextSlot), handles)
      ensures sound ==> Filling(b, have + slots)
      ensures sound ==> forall i | 0 <= i < handles ::
        slots[i] < |objects| && Idle(objects[slots[i]]) && objects[slots[i]].generation < MAX_GENERATION
      ensures sound ==> Total(objects, place, ReservedIn(b)) == old(Total(objects, place, ReservedIn(b)))
      ensures sound ==> Total(objects, place, CommittedIn(b)) == old(Total(objects, place, CommittedIn(b)))
    {
      hide Filling, Total;
      slots := [];
      assert have + [] == have;
      var i := 0;
      while i < handles
        invariant 0 <= i <= handles && slots == Tickets(old(freeSlots), old(nextSlot), i)
        invariant freeSlots == FreeAfter(old(freeSlots), i)
        invariant nextSlot == NextAfter(old(freeSlots), old(nextSlot), i) && |objects| == |place|
        invariant sound ==> Filling(b, have + slots)
        invariant sound ==> forall j | 0 <= j < i ::
          slots[j] < |objects| && Idle(objects[slots[j]]) && objects[slots[j]].generation < MAX_GENERATION
        invariant sound ==> Total(objects, place, ReservedIn(b)) == old(Total(objects, place, ReservedIn(b)))
        invariant sound ==> Total(objects, place, CommittedIn(b)) == old(Total(objects, place, CommittedIn(b)))
      {
        var slot := TakeSlot(b, have + slots, sound);
        assert have + slots + [slot] == have + (slots + [slot]);
        slots := slots + [slot];
        i := i + 1;
      }
    }

    /** The accounts while batch `b` is filled with tickets. */
    ghost predicate Filling(b: nat, have: seq<nat>)
      reads this
    {
      && SlotListsOk() && BytesOk() && BatchesOk(objects, place, batches, b) && IssuedOk()
      && Lists(have, place, InBatch(b))
    }

    method TakeSlot(b: nat, ghost have: seq<nat>, ghost sound: bool) returns (slot: nat)
      requires (freeSlots == [] ==> nextSlot < MAX_SLOT) && |objects| == |place|
      requires sound ==> Filling(b, have) && (freeSlots == [] ==> 0 < nextSlot < |objects|)
      modifies this`freeSlots, this`nextSlot, this`place
      ensures if old(freeSlots) == [] then slot == old(nextSlot) && nextSlot == old(nextSlot) + 1 && freeSlots == []
              else
                && slot == old(freeSlots)[|old(freeSlots)| - 1] && nextSlot == old(nextSlot)
                && freeSlots == old(freeSlots)[..|old(freeSlots)| - 1]
      ensures |objects| == |place| && (sound ==> Filling(b, have + [slot]))
      ensures sound ==> slot < |objects| && Idle(objects[slot]) && objects[slot].generation < MAX_GENERATION
      ensures sound ==> Total(objects, place, ReservedIn(b)) == old(Total(objects, place, ReservedIn(b)))
      ensures sound ==> Total(objects, place, CommittedIn(b)) == old(Total(objects, place, CommittedIn(b)))
    {
      hide Total, BatchesOk, Credits, Lists, SlotsOk;
      ghost var before, slots := place, HandedOut(nextSlot);
      slot := PickSlot(InBatch(b), sound);
      if sound {
        SlotBorn(objects, before, slots, HandedOut(nextSlot), slot, objects[slot], InBatch(b));
        assert objects[slot := objects[slot]] == objects;
        TicketMoved(objects, before, batches, b, slot);
        ListsAdd(have, before, InBatch(b), slot);
        ListsWithout(occupied, before, InOccupied, slot, InBatch(b));
        ListsWithout(direct, before, InDirect, slot, InBatch(b));
        place := place[slot := InBatch(b)];
      }
    }

    /** Free slots are used from the end of the list; without one the slot under the 32-bit counter is taken. */
    method PickSlot(ghost p: Place, ghost sound: bool) returns (slot: nat)
      requires sound ==> SlotListsOk() && (freeSlots == [] ==> 0 < nextSlot < |objects|) && !p.InFree?
      modifies this`freeSlots, this`nextSlot
      ensures if old(freeSlots) == []
              then slot == old(nextSlot) && nextSlot == (old(nextSlot) + 1) % (MAX_SLOT + 1) && freeSlots == []
              else
                && slot == old(freeSlots)[|old(freeSlots)| - 1] && nextSlot == old(nextSlot)
                && freeSlots == old(freeSlots)[..|old(freeSlots)| - 1]
      ensures sound ==> slot < |objects| && Idle(objects[slot]) && objects[slot].generation < MAX_GENERATION
      ensures sound ==> nextSlot <= MAX_SLOT && (old(freeSlots) != [] ==> 0 < slot < HandedOut(nextSlot))
      ensures sound ==>
        (place[slot].InFree? || place[slot].Unborn?) && Lists(freeSlots, place[slot := p], InFree)
    {
      if freeSlots != [] {
        slot := freeSlots[|freeSlots| - 1];
        if sound {
          ListsDropLast(freeSlots, place, InFree, p);
        }
        hide Lists;
        freeSlots := freeSlots[..|freeSlots| - 1];
      } else {
        slot := nextSlot;
        if sound {
          ListsWithout(freeSlots, place, InFree, slot, p);
        }
        hide Lists;
        nextSlot := (nextSlot + 1) % (MAX_SLOT + 1);
      }
    }

    /** Every slot of the free list has a generation left: exhausted slots never come back to it. */
    lemma FreeSlotsReusable()
      requires Standing()
      ensures forall i | 0 <= i < |freeSlots| ::
        freeSlots[i] < |objects| && objects[freeSlots[i]].generation < MAX_GENERATION
    {
      forall i | 0 <= i < |freeSlots|
        ensures freeSlots[i] < |objects| && objects[freeSlots[i]].generation < MAX_GENERATION
      {
        ListedPlace(freeSlots, place, InFree, i);
      }
    }

    predicate Affordable(bytes: nat)
      reads this`occupiedBytes, this`reservedBytes
    {
      WithinLimit(occupiedBytes, reservedBytes + bytes, maxGuestBytes)
    }

    /** Directory growth ahead of a batch; `admitted` is the answer of the resident-memory limit. */
    method EnsureSlots(extra: nat, admitted: bool) returns (ok: bool)
      requires Standing() && nextSlot + extra <= MAX_SLOT
      modifies this`objects, this`place
      ensures Standing() && (ok ==> nextSlot + extra <= |objects|) && (admitted ==> ok)
      ensures old(objects) <= objects
    {
      while |objects| < nextSlot + extra
        invariant Standing() && old(objects) <= objects
      {
        if !admitted {
          return false;
        }
        GrowDirectory();
      }
      ok := true;
    }

    /** Not that many slots are left: neither on the free list nor below the last 32-bit slot. */
    predicate SlotsShort(handles: nat)
      reads this`freeSlots, this`nextSlot
    {
      nextSlot + (if handles > |freeSlots| then handles - |freeSlots| else 0) > MAX_SLOT
    }

    /**
      * `acquireBatch`; `admitted` says whether the resident limit allows the directory, the nursery page and the
      * batch.
      */
    method AcquireBatch(credit: nat, handles: nat, admitted: bool) returns (outcome: Outcome)
      requires Standing()
      modifies this
      ensures Standing() <==> !(outcome == Granted && old(Overlaps(handles)))
      ensures old(Valid()) ==> Valid()
      ensures issued == old(issued) && occupied == old(occupied) && direct == old(direct) && old(objects) <= objects
      ensures outcome == Granted ==>
        |batches| == |old(batches)| + 1 && batches[..|old(batches)|] == old(batches)
        && (var b := batches[|old(batches)|];
          !b.finished && b.credit == credit && b.used == 0
          && Slots(b.reservations) == old(Tickets(freeSlots, nextSlot, handles)))
      ensures outcome == Granted ==> reservedBytes == old(reservedBytes) + credit && occupiedBytes == old(occupiedBytes)
      ensures outcome == Granted ==>
        freeSlots == old(FreeAfter(freeSlots, handles)) && nextSlot == old(NextAfter(freeSlots, nextSlot, handles))
      ensures outcome != Granted ==>
        batches == old(batches) && reservedBytes == old(reservedBytes) && freeSlots == old(freeSlots)
          && nextSlot == old(nextSlot)
      ensures outcome == (if credit == 0 || handles == 0 || handles > SEGMENT_SLOTS then Refused
                          else if !old(Affordable(credit)) then NeedCollection
                          else if old(SlotsShort(handles)) || !admitted then LimitReached else Granted)
    {
      hide SlotsOk, Lists, Total, BatchesOk, Credits, IssuedOk;
      if credit == 0 || handles == 0 || handles > SEGMENT_SLOTS {
        return Refused;
      }
      var used := occupiedBytes + reservedBytes;
      if credit > MAX_INT64 - used || (maxGuestBytes != 0 && credit > maxGuestBytes - Min(maxGuestBytes, used)) {
        return NeedCollection;
      }
      // the loop that retires exhausted slots finds none
      FreeSlotsReusable();
      var extra := if handles > |freeSlots| then handles - |freeSlots| else 0;
      if nextSlot + extra > MAX_SLOT {
        return LimitReached;
      }
      var ok := EnsureSlots(extra, admitted);
      if !ok || !admitted {
        return LimitReached;
      }
      OpenBatch(credit, handles, !Overlaps(handles));
      if old(Overlaps(handles)) {
        assert Slots(batches[|old(batches)|].reservations)[|old(freeSlots)|] == 0;
        TicketZero(|old(batches)|, |old(freeSlots)|);
      }
      outcome := Granted;
    }

    /** The slot counter has wrapped and the batch needs more slots than are free. */
    predicate Overlaps(handles: nat)
      reads this`freeSlots, this`nextSlot
    {
      nextSlot == 0 && handles > |freeSlots|
    }

    lemma TicketInUse(b: nat, k: nat)
      requires Standing() && b < |batches| && !batches[b].finished && k < |batches[b].reservations|
      ensures 0 < batches[b].reservations[k].slot
    {
      hide Total, Credits;
      assert BatchOk(objects, place, b, batches[b]);
      ListedPlace(Slots(batches[b].reservations), place, InBatch(b), k);
    }

    /** With right accounts no batch holds a ticket for the null slot. */
    lemma TicketZero(b: nat, k: nat)
      requires b < |batches| && !batches[b].finished && k < |batches[b].reservations|
      requires batches[b].reservations[k].slot == 0
      ensures !Standing()
    {
      hide SlotListsOk, BytesOk, BatchesOk, IssuedOk;
      if Standing() {
        TicketInUse(b, k);
      }
    }

    method OpenBatch(credit: nat, handles: nat, ghost sound: bool)
      requires nextSlot + (handles - |freeSlots|) <= MAX_SLOT && |objects| == |place|
      requires sound ==> Standing() && Affordable(credit) && nextSlot + (handles - |freeSlots|) <= |objects|
      requires sound ==> 0 < nextSlot || handles <= |freeSlots|
      modifies this`freeSlots, this`nextSlot, this`place, this`batches, this`reservedBytes
      ensures (sound ==> Standing()) && reservedBytes == old(reservedBytes) + credit
      ensures |batches| == |old(batches)| + 1 && batches[..|old(batches)|] == old(batches)
      ensures var b := batches[|old(batches)|];
        !b.finished && b.credit == credit && b.used == 0
        && Slots(b.reservations) == old(Tickets(freeSlots, nextSlot, handles))
      ensures freeSlots == old(FreeAfter(freeSlots, handles))
      ensures nextSlot == old(NextAfter(freeSlots, nextSlot, handles))
    {
      hide SlotsOk, Total, Lists;
      ghost var b := |batches|;
      if sound {
        NewBatchEmpty(objects, place, batches);
      }
      var slots := TakeSlots(|batches|, handles, [], sound);
      assert [] + slots == slots;
      var batch := Batch(false, credit, 0, 0, 0,
        seq(handles, i requires 0 <= i < handles => Reservation(slots[i], 0, false)));
      assert Slots(batch.reservations) == slots;
      if sound {
        NewBatchOk(objects, place, batches, batch);
      }
      hide BatchesOk;
      batches := batches + [batch];
      assert batches[..b] == old(batches);
      reservedBytes := reservedBytes + credit;
    }

    /** `refill`: the lease keeps its tickets and gains credit and new ones. */
    method Refill(b: nat, credit: nat, handles: nat, admitted: bool) returns (outcome: Outcome)
      requires Standing() && b < |batches|
      modifies this
      ensures Standing() <==> !(outcome == Granted && old(Overlaps(handles)))
      ensures old(Valid()) ==> Valid()
      ensures issued == old(issued) && |batches| == |old(batches)|
      ensures outcome == (if old(batches[b].finished) || credit == 0 || handles == 0 || !old(Affordable(credit))
                          then NeedCollection
                          else if old(SlotsShort(handles)) || !admitted then LimitReached else Granted)
      ensures outcome == Granted ==> batches == old(batches)[b := batches[b]]
      ensures outcome == Granted ==>
        batches[b].credit == old(batches[b].credit) + credit && old(batches[b].reservations) <= batches[b].reservations
        && Slots(batches[b].reservations) == old(Slots(batches[b].reservations) + Tickets(freeSlots, nextSlot, handles))
        && reservedBytes == old(reservedBytes) + credit
      ensures outcome != Granted ==>
        batches == old(batches) && reservedBytes == old(reservedBytes) && freeSlots == old(freeSlots)
          && nextSlot == old(nextSlot)
    {
      hide SlotsOk, Lists, Total, BatchesOk, Credits, IssuedOk;
      if batches[b].finished || credit == 0 || handles == 0 {
        return NeedCollection;
      }
      var used := occupiedBytes + reservedBytes;
      if credit > MAX_INT64 - used || (maxGuestBytes != 0 && credit > maxGuestBytes - Min(maxGuestBytes, used)) {
        return NeedCollection;
      }
      // the loop that retires exhausted slots finds none
      FreeSlotsReusable();
      var extra := if handles > |freeSlots| then handles - |freeSlots| else 0;
      if nextSlot + extra > MAX_SLOT {
        return LimitReached;
      }
      var ok := EnsureSlots(extra, admitted);
      if !ok || !admitted {
        return LimitReached;
      }
      ExtendBatch(b, credit, handles, !Overlaps(handles));
      if old(Overlaps(handles)) {
        ghost var k := |old(batches[b].reservations)| + |old(freeSlots)|;
        assert Slots(batches[b].reservations)[k] == 0;
        TicketZero(b, k);
      }
      outcome := Granted;
    }

    method ExtendBatch(b: nat, credit: nat, handles: nat, ghost sound: bool)
      requires b < |batches| && !batches[b].finished && nextSlot + (handles - |freeSlots|) <= MAX_SLOT
      requires |objects| == |place|
      requires sound ==> Standing() && Affordable(credit) && nextSlot + (handles - |freeSlots|) <= |objects|
      requires sound ==> 0 < nextSlot || handles <= |freeSlots|
      modifies this`freeSlots, this`nextSlot, this`place, this`batches, this`reservedBytes
      ensures (sound ==> Standing()) && reservedBytes == old(reservedBytes) + credit && |batches| == |old(batches)|
      ensures batches == old(batches)[b := batches[b]] && batches[b].credit == old(batches[b].credit) + credit
      ensures !batches[b].finished && old(batches[b].reservations) <= batches[b].reservations
      ensures Slots(batches[b].reservations)
        == old(Slots(batches[b].reservations) + Tickets(freeSlots, nextSlot, handles))
      ensures freeSlots == old(FreeAfter(freeSlots, handles))
      ensures nextSlot == old(NextAfter(freeSlots, nextSlot, handles))
    {
      hide SlotsOk, Total, Lists, Credits, IssuedOk;
      var batch := batches[b];
      if sound {
        assert BatchOk(objects, place, b, batch);
        ExceptOne(objects, place, batches, b);
      }
      hide BatchesOk;
      var slots := TakeSlots(b, handles, Slots(batch.reservations), sound);
      var more := seq(handles, i requires 0 <= i < handles => Reservation(slots[i], 0, false));
      var after := batch.(reservations := batch.reservations + more, credit := batch.credit + credit);
      assert Slots(after.reservations) == Slots(batch.reservations) + slots;
      if sound {
        BatchExtended(objects, place, b, batch, slots, after);
        hide BatchOk;
        BatchReplaced(objects, place, batches, b, after);
        CreditsUpdate(batches, b, after);
      }
      batches := batches[b := after];
      reservedBytes := reservedBytes + credit;
    }

    /** `batch.reserve`; `fits` says whether the layout is valid and the payload fits the leased page. */
    method BatchReserve(b: nat, logical: nat, fits: bool) returns (outcome: Outcome, k: nat, handle: Handle)
      requires Standing() && b < |batches|
      modifies this`objects, this`batches, this`issued
      ensures Standing() && |batches| == |old(batches)|
      ensures outcome == (
        if old(batches[b].finished) then Refused
        else if !fits || old(batches[b].used == |batches[b].reservations|)
                || logical > old(batches[b].credit - batches[b].reserved - batches[b].committed) then NeedCollection
        else Granted)
      ensures outcome == Granted ==>
        k == old(batches[b].used) && batches[b].used == k + 1 && k < |batches[b].reservations|
        && batches[b].reservations[k].slot == handle.slot && batches[b].reserved == old(batches[b].reserved) + logical
      ensures outcome == Granted ==> handle !in old(issued) && issued == old(issued) + {handle}
      ensures outcome == Granted ==> handle.slot < |objects| && batches == old(batches)[b := batches[b]]
      ensures outcome == Granted ==>
        objects == old(objects)[handle.slot := Entry(Reserved, handle.generation, logical)]
      ensures outcome != Granted ==> batches == old(batches) && objects == old(objects) && issued == old(issued)
    {
      hide SlotsOk, Lists, Total, Credits;
      k, handle := 0, Handle(0, 0);
      var batch := batches[b];
      assert BatchOk(objects, place, b, batch);
      hide BatchesOk;
      if batch.finished {
        return Refused, k, handle;
      }
      if !fits || batch.used == |batch.reservations| || logical > batch.credit - batch.reserved - batch.committed {
        return NeedCollection, k, handle;
      }
      k := batch.used;
      var r := batch.reservations[k];
      assert TicketOk(objects, batch, k);
      var entry := Entry(Reserved, objects[r.slot].generation + 1, logical);
      handle := Handle(r.slot, entry.generation);
      var after := batch.(used := k + 1, reserved := batch.reserved + logical,
                          reservations := batch.reservations[k := r.(generation := entry.generation)]);
      TicketChanged(objects, place, b, batch, k, entry, after);
      hide BatchOk;
      ReplaceTicket(b, k, entry, after);
      issued := issued + {handle};
      outcome := Granted;
    }

    /** Stores a changed ticket; the places and everything outside the batch stay. */
    method ReplaceTicket(b: nat, k: nat, entry: Entry, after: Batch)
      requires Standing() && b < |batches| && k < |batches[b].reservations| && !batches[b].finished && !after.finished
      requires after.credit == batches[b].credit && entry.generation <= MAX_GENERATION
      requires batches[b].reservations[k].slot < |objects| && place[batches[b].reservations[k].slot] == InBatch(b)
      requires BatchOk(objects[batches[b].reservations[k].slot := entry], place, b, after)
      requires objects[batches[b].reservations[k].slot].generation <= entry.generation
      modifies this`objects, this`batches
      ensures Standing() && batches == old(batches)[b := after]
      ensures objects == old(objects)[old(batches[b].reservations[k].slot) := entry]
    {
      hide BatchOk, Lists, Total, Credits, BatchesOk, SlotsOk;
      var slot := batches[b].reservations[k].slot;
      TicketStored(objects, place, HandedOut(nextSlot), batches, b, slot, entry, after);
      CreditsUpdate(batches, b, after);
      objects := objects[slot := entry];
      batches := batches[b := after];
    }

    /**
      * `batch.commit`: the bytes move from reserved to committed. Committing a finished reservation is a fault of the
      * caller.
      */
    method BatchCommit(b: nat, k: nat)
      requires Standing() && b < |batches| && !batches[b].finished && k < batches[b].used <= |batches[b].reservations|
      requires !batches[b].reservations[k].done
      modifies this`objects, this`batches
      ensures Standing() && |batches| == |old(batches)| && batches[b].used == old(batches[b].used)
      ensures batches[b].reserved + batches[b].committed == old(batches[b].reserved + batches[b].committed)
      ensures batches[b].reservations ==
        old(batches[b].reservations)[k := old(batches[b].reservations[k]).(done := true)]
      ensures var s := old(batches[b].reservations[k].slot);
              s < |objects| && objects == old(objects)[s := old(objects)[s].(state := Published)]
    {
      hide SlotsOk, Lists, Total, Credits;
      var batch := batches[b];
      assert BatchOk(objects, place, b, batch);
      hide BatchesOk;
      var r := batch.reservations[k];
      assert TicketOk(objects, batch, k);
      var entry := objects[r.slot].(state := Published);
      TicketWeight(objects, place, b, batch, k);
      var after := batch.(reserved := batch.reserved - entry.logical, committed := batch.committed + entry.logical,
                          reservations := batch.reservations[k := r.(done := true)]);
      TicketChanged(objects, place, b, batch, k, entry, after);
      hide BatchOk;
      GenerationBound(objects, place, HandedOut(nextSlot), r.slot);
      ReplaceTicket(b, k, entry, after);
    }

    /** `batch.abort`: an unfinished reservation gives its bytes back; a finished one stays as it is. */
    method BatchAbort(b: nat, k: nat)
      requires Standing() && b < |batches| && !batches[b].finished && k < |batches[b].reservations|
      requires k < batches[b].used
        || (batches[b].reservations[k].slot < |objects| && Idle(objects[batches[b].reservations[k].slot]))
      modifies this`objects, this`batches
      ensures Standing() && |batches| == |old(batches)|
      ensures forall i | 0 <= i < |batches| && i != b :: batches[i] == old(batches)[i]
      ensures batches[b].committed == old(batches[b].committed) && batches[b].credit == old(batches[b].credit)
      ensures batches[b].used == old(batches[b].used) && batches[b].finished == old(batches[b].finished)
      ensures batches[b].reservations ==
        old(batches[b].reservations)[k := old(batches[b].reservations[k]).(done := true)]
      ensures var s := old(batches[b].reservations[k].slot);
              && s < |objects|
              && objects == if old(batches[b].reservations[k].done) then old(objects)
                            else old(objects)[s := old(objects[s]).(state := Free, logical := 0)]
    {
      hide SlotsOk, Lists, Total, Credits;
      var batch := batches[b];
      var r := batch.reservations[k];
      assert batch.reservations[k := r] == batch.reservations;
      if r.done {
        assert BatchOk(objects, place, b, batch);
        assert TicketOk(objects, batch, k);
        return;
      }
      TicketAborted(objects, place, HandedOut(nextSlot), batches, b, k);
      hide BatchesOk, BatchOk;
      var entry := objects[r.slot].(state := Free, logical := 0);
      var freed := if objects[r.slot].state.Reserved? then objects[r.slot].logical else 0;
      var after := batch.(reserved := batch.reserved - freed, reservations :=
        batch.reservations[k := r.(done := true)]);
      ReplaceTicket(b, k, entry, after);
    }

    method MarkDone(b: nat, k: nat)
      requires Standing() && b < |batches| && !batches[b].finished && k < |batches[b].reservations|
      requires k < batches[b].used && batches[b].reservations[k].slot < |objects| ==>
        batches[b].reservations[k].done || !objects[batches[b].reservations[k].slot].state.Reserved?
      modifies this`objects, this`batches
      ensures Standing() && |batches| == |old(batches)|
      ensures forall i | 0 <= i < |batches| && i != b :: batches[i] == old(batches)[i]
      ensures batches[b] == old(batches[b]).(reservations :=
        old(batches[b].reservations)[k := old(batches[b].reservations[k]).(done := true)])
      ensures objects == old(objects)
    {
      hide SlotsOk, Lists, Total, Credits;
      var batch := batches[b];
      var r := batch.reservations[k];
      assert BatchOk(objects, place, b, batch);
      hide BatchesOk;
      assert TicketOk(objects, batch, k);
      TicketWeight(objects, place, b, batch, k);
      GenerationBound(objects, place, HandedOut(nextSlot), r.slot);
      var after := batch.(reservations := batch.reservations[k := r.(done := true)]);
      assert objects[r.slot := objects[r.slot]] == objects;
      TicketChanged(objects, place, b, batch, k, objects[r.slot], after);
      hide BatchOk;
      ReplaceTicket(b, k, objects[r.slot], after);
    }

    /** `abortUnfinished`: committed entries stay, everything unfinished is rolled back. */
    method AbortUnfinished(b: nat)
      requires Standing() && b < |batches|
      modifies this`objects, this`batches
      ensures Standing() && |batches| == |old(batches)| && batches[b].finished == old(batches[b].finished)
      ensures batches[b].committed == old(batches[b].committed) && batches[b].credit == old(batches[b].credit)
      ensures !batches[b].finished ==> forall k | 0 <= k < |batches[b].reservations| :: batches[b].reservations[k].done
      ensures |objects| == |old(objects)|
      ensures forall s | 0 <= s < |objects| :: objects[s] == old(objects[s]) || old(objects[s]).state.Reserved?
      ensures forall i | 0 <= i < |batches| && i != b :: batches[i] == old(batches)[i]
    {
      hide SlotsOk, Lists, Total, Credits;
      if batches[b].finished {
        return;
      }
      var k := 0;
      while k < |batches[b].reservations|
        invariant Standing() && |batches| == |old(batches)| && !batches[b].finished
        invariant 0 <= k <= |batches[b].reservations|
        invariant batches[b].committed == old(batches[b].committed) && batches[b].credit == old(batches[b].credit)
        invariant |batches[b].reservations| == |old(batches[b].reservations)|
        invariant forall i | 0 <= i < k :: batches[b].reservations[i].done
        invariant |objects| == |old(objects)|
        invariant forall s | 0 <= s < |objects| :: objects[s] == old(objects[s]) || old(objects[s]).state.Reserved?
        invariant forall i | 0 <= i < |batches| && i != b :: batches[i] == old(batches)[i]
      {
        var r := batches[b].reservations[k];
        if !r.done {
          assert BatchOk(objects, place, b, batches[b]);
          assert TicketOk(objects, batches[b], k);
          if objects[r.slot].state.Reserved? {
            BatchAbort(b, k);
          } else {
            MarkDone(b, k);
          }
        }
        k := k + 1;
      }
    }

    // ----- returning a batch -----

    /** Where a returned ticket goes. */
    ghost predicate Returning(b: nat, rest: seq<nat>, committed: nat)
      reads this
    {
      && |objects| == |place| && SlotListsOk() && IssuedOk() && BatchesOk(objects, place, batches, b)
      && Lists(rest, place, InBatch(b))
      && Total(objects, place, OccupiedBytes) + Total(objects, place, CommittedIn(b)) ==
        (occupiedBytes - controlBytes) + committed
      && reservedBytes == controlPending + Credits(batches) + Total(objects, place, DirectBytes)
      && WithinLimit(occupiedBytes, reservedBytes, maxGuestBytes) && controlBytes <= occupiedBytes
    }

    /** One ticket of the publication loop of `flush`. */
    method ReturnTicket(b: nat, slot: nat, publish: bool, ghost rest: seq<nat>, ghost committed: nat)
      requires Returning(b, [slot] + rest, committed) && slot < |objects|
      requires publish ==> objects[slot].state.Published?
      requires !publish ==> Idle(objects[slot])
      modifies this`occupied, this`freeSlots, this`place
      ensures Returning(b, rest, committed)
      ensures occupied == old(occupied) + (if publish then [slot] else [])
      ensures freeSlots ==
        old(freeSlots) + (if !publish && objects[slot].generation != MAX_GENERATION then [slot] else [])
    {
      hide BatchesOk, Total, Credits, SlotsOk;
      ghost var before := place;
      assert ([slot] + rest)[0] == slot && before[slot] == InBatch(b);
      ghost var p := if publish then InOccupied else if objects[slot].generation != MAX_GENERATION then InFree
        else Retired;
      ListsDropFirst(slot, rest, before, InBatch(b), p);
      if publish {
        ListsAdd(occupied, before, InOccupied, slot);
        ListsWithout(freeSlots, before, InFree, slot, p);
        occupied := occupied + [slot];
      } else if objects[slot].generation != MAX_GENERATION {
        ListsAdd(freeSlots, before, InFree, slot);
        ListsWithout(occupied, before, InOccupied, slot, p);
        freeSlots := freeSlots + [slot];
      } else {
        ListsWithout(freeSlots, before, InFree, slot, p);
        ListsWithout(occupied, before, InOccupied, slot, p);
      }
      ListsWithout(direct, before, InDirect, slot, p);
      GenerationBound(objects, before, HandedOut(nextSlot), slot);
      TicketReturned(objects, before, HandedOut(nextSlot), batches, b, slot, p);
      hide Lists;
      place := place[slot := p];
    }

    /** Every used ticket of the batch has been committed or aborted. */
    predicate AllDone(b: nat)
      requires b < |batches|
      reads this`batches
    {
      forall k | 0 <= k < |batches[b].reservations| && k < batches[b].used :: batches[b].reservations[k].done
    }

    /**
      * `flush`: committed entries become occupied, every other ticket is freed or retired, and the unused credit
      * returns.
      */
    method Flush(b: nat) returns (ok: bool)
      requires Standing() && b < |batches|
      modifies this`occupied, this`freeSlots, this`place, this`batches, this`occupiedBytes, this`reservedBytes
      ensures Standing() && |batches| == |old(batches)|
      ensures forall i | 0 <= i < |batches| && i != b :: batches[i] == old(batches)[i]
      ensures ok <==> old(batches[b].finished) || old(batches[b].reserved == 0 && AllDone(b))
      ensures ok ==> batches[b].finished
      ensures ok && !old(batches[b].finished) ==>
        occupiedBytes == old(occupiedBytes + batches[b].committed)
          && reservedBytes + old(batches[b].credit) == old(reservedBytes)
      ensures ok && !old(batches[b].finished) ==>
        && occupied == old(occupied + PublishedSlots(objects, batches[b], |batches[b].reservations|))
        && freeSlots == old(freeSlots + ReturnedSlots(objects, batches[b], |batches[b].reservations|))
      ensures !ok || old(batches[b].finished) ==>
        batches == old(batches) && occupied == old(occupied) && freeSlots == old(freeSlots)
      ensures !ok || old(batches[b].finished) ==>
        occupiedBytes == old(occupiedBytes) && reservedBytes == old(reservedBytes)
    {
      hide SlotsOk, Lists, Total, Credits, IssuedOk;
      var batch := batches[b];
      if batch.finished {
        return true;
      }
      if batch.reserved != 0 {
        return false;
      }
      assert BatchOk(objects, place, b, batch);
      var k := 0;
      while k < batch.used
        invariant 0 <= k <= batch.used && forall i | 0 <= i < k :: batch.reservations[i].done
      {
        if !batch.reservations[k].done {
          return false;
        }
        k := k + 1;
      }
      TicketsSettled(objects, place, b, batch);
      ExceptOne(objects, place, batches, b);
      hide BatchesOk, BatchOk;
      ReturnTickets(b, batch);
      CloseBatch(b, batch);
      ok := true;
    }

    method ReturnTickets(b: nat, batch: Batch)
      requires Returning(b, Slots(batch.reservations), batch.committed) && Settled(objects, batch)
      modifies this`occupied, this`freeSlots, this`place
      ensures Returning(b, [], batch.committed)
      ensures occupied == old(occupied) + PublishedSlots(objects, batch, |batch.reservations|)
      ensures freeSlots == old(freeSlots) + ReturnedSlots(objects, batch, |batch.reservations|)
    {
      hide Returning, TicketOk, Lists, Total;
      var k := 0;
      ghost var slots := Slots(batch.reservations);
      assert slots[0..] == slots;
      while k < |batch.reservations|
        invariant 0 <= k <= |batch.reservations| && Returning(b, slots[k..], batch.committed)
        invariant occupied == old(occupied) + PublishedSlots(objects, batch, k)
        invariant freeSlots == old(freeSlots) + ReturnedSlots(objects, batch, k)
      {
        var slot := batch.reservations[k].slot;
        assert slots[k..] == [slot] + slots[k + 1..];
        ReturnTicket(b, slot, k < batch.used && objects[slot].state.Published?, slots[k + 1..], batch.committed);
        k := k + 1;
      }
      assert slots[k..] == [];
    }

    method CloseBatch(b: nat, batch: Batch)
      requires b < |batches| && batches[b] == batch && !batch.finished && batch.committed <= batch.credit
      requires Returning(b, [], batch.committed)
      modifies this`batches, this`occupiedBytes, this`reservedBytes
      ensures Standing() && batches == old(batches)[b := batch.(finished := true, reservations := [])]
      ensures occupiedBytes == old(occupiedBytes) + batch.committed
      ensures reservedBytes + batch.credit == old(reservedBytes)
    {
      hide BatchesOk, Total, Credits, SlotsOk, Lists, IssuedOk;
      var after := batch.(finished := true, reservations := []);
      CreditsAtLeast(batches, b);
      CreditsUpdate(batches, b, after);
      BatchClosed(objects, place, batches, b, after);
      batches := batches[b := after];
      occupiedBytes := occupiedBytes + batch.committed;
      reservedBytes := reservedBytes - batch.credit;
    }

    // ----- the owner's own reservations -----

    /** Changes the credit of one open batch and the reserved bytes by the same amount. */
    method SetCredit(b: nat, credit: nat)
      requires Standing() && b < |batches| && !batches[b].finished
      requires batches[b].reserved + batches[b].committed <= credit
      requires batches[b].credit <= reservedBytes
      requires WithinLimit(occupiedBytes, reservedBytes - batches[b].credit + credit, maxGuestBytes)
      modifies this`batches, this`reservedBytes
      ensures Standing() && batches == old(batches)[b := old(batches[b]).(credit := credit)]
      ensures reservedBytes == old(reservedBytes) - old(batches[b].credit) + credit
    {
      hide Total, Credits, SlotsOk, Lists;
      var batch := batches[b];
      var after := batch.(credit := credit);
      assert BatchOk(objects, place, b, batch);
      assert BatchOk(objects, place, b, after) by {
        forall k | 0 <= k < |after.reservations|
          ensures TicketOk(objects, after, k)
        {
          assert TicketOk(objects, batch, k);
        }
      }
      CreditsUpdate(batches, b, after);
      CreditsAtLeast(batches, b);
      ExceptOne(objects, place, batches, b);
      BatchReplaced(objects, place, batches, b, after);
      hide BatchesOk, BatchOk;
      batches := batches[b := after];
      reservedBytes := reservedBytes - batch.credit + credit;
    }

    /** The unused credit of an open batch makes up for what the limit lacks. */
    predicate Lendable(bytes: nat, lender: int)
      requires lender < |batches|
      reads this`occupiedBytes, this`reservedBytes, this`batches
    {
      && 0 < maxGuestBytes <= MAX_INT64 && 0 <= lender && !batches[lender].finished
      && occupiedBytes + reservedBytes + bytes + batches[lender].committed + batches[lender].reserved
         <= maxGuestBytes + batches[lender].credit
    }

    /** `admitGuestBytes`: lends no more than the unused credit of the caller's batch, and only what is missing. */
    method AdmitGuestBytes(logical: nat, lender: int) returns (ok: bool, released: nat)
      requires Standing() && lender < |batches|
      modifies this`batches, this`reservedBytes
      ensures Standing() && |batches| == |old(batches)|
      ensures ok ==> Affordable(logical) && reservedBytes + released == old(reservedBytes)
      ensures ok && old(Affordable(logical)) ==> released == 0
      ensures ok && released > 0 ==>
        0 <= lender && !batches[lender].finished
          && batches == old(batches)[lender := old(batches[lender]).(credit := batches[lender].credit)]
        && batches[lender].credit + released == old(batches[lender].credit)
      ensures !ok || released == 0 ==> batches == old(batches)
      ensures !ok ==> reservedBytes == old(reservedBytes)
      ensures ok <==> old(Affordable(logical) || Lendable(logical, lender))
      ensures ok && !old(Affordable(logical)) ==> occupiedBytes + reservedBytes + logical == maxGuestBytes
    {
      hide SlotsOk, Lists, Total, Credits, BatchesOk, IssuedOk;
      released := 0;
      var used := occupiedBytes + reservedBytes;
      if maxGuestBytes != 0 && logical > maxGuestBytes - Min(maxGuestBytes, used) && 0 <= lender
        && !batches[lender].finished {
        OpenBatchOk(lender);
        var available := batches[lender].credit - batches[lender].committed - batches[lender].reserved;
        var needed := logical - (maxGuestBytes - Min(maxGuestBytes, used));
        var lent := Min(available, needed);
        if logical > MAX_INT64 - (used - lent) || logical > maxGuestBytes - Min(maxGuestBytes, used - lent) {
          return false, 0;
        }
        if lent > 0 {
          SetCredit(lender, batches[lender].credit - lent);
        }
        return true, lent;
      }
      ok := !(logical > MAX_INT64 - used || (maxGuestBytes != 0 && logical > maxGuestBytes - Min(maxGuestBytes, used)));
    }

    /** `rollback` of a transfer: the lender gets back what it lent. */
    method Rollback(lender: int, released: nat)
      requires Standing() && WithinLimit(occupiedBytes, reservedBytes + released, maxGuestBytes)
      requires released > 0 ==> 0 <= lender < |batches| && !batches[lender].finished
      modifies this`batches, this`reservedBytes
      ensures Standing() && reservedBytes == old(reservedBytes) + released
      ensures batches == if released == 0 then old(batches)
                         else old(batches)[lender :=
                           old(batches[lender]).(credit := old(batches[lender].credit) + released)]
    {
      hide SlotListsOk, Total, BatchesOk, Credits;
      if released > 0 {
        OpenBatchOk(lender);
        SetCredit(lender, batches[lender].credit + released);
      }
    }

    lemma OpenBatchOk(b: nat)
      requires Standing() && b < |batches| && !batches[b].finished
      ensures batches[b].reserved + batches[b].committed <= batches[b].credit <= reservedBytes
    {
      assert BatchOk(objects, place, b, batches[b]);
      CreditsAtLeast(batches, b);
    }

    /** Every slot but the last 32-bit one has been handed out and nothing is free. */
    predicate SlotsExhausted()
      reads this`freeSlots, this`nextSlot
    {
      freeSlots == [] && nextSlot == MAX_SLOT
    }

    /** The slot counter has wrapped to the null slot and nothing is free. */
    predicate AtNullSlot()
      reads this`freeSlots, this`nextSlot
    {
      freeSlots == [] && nextSlot == 0
    }

    /** Takes a slot for the owner and gives out its next generation. */
    method TakeDirect(logical: nat) returns (handle: Handle)
      requires Standing() && Affordable(logical) && (freeSlots == [] ==> 0 < nextSlot < |objects|)
      modifies this`objects, this`place, this`freeSlots, this`nextSlot, this`direct, this`reservedBytes, this`issued
      ensures Standing() && direct == old(direct) + [handle.slot] && reservedBytes == old(reservedBytes) + logical
      ensures handle !in old(issued) && issued == old(issued) + {handle} && occupied == old(occupied)
      ensures handle.slot < |objects| == |old(objects)|
      ensures objects == old(objects)[handle.slot := Entry(Reserved, handle.generation, logical)]
      ensures freeSlots == FreeAfter(old(freeSlots), 1)
      ensures old(freeSlots) == [] ==> handle.slot == old(nextSlot)
      ensures nextSlot == if old(freeSlots) == [] then (old(nextSlot) + 1) % (MAX_SLOT + 1) else old(nextSlot)
    {
      hide Total, BatchesOk, Credits, Lists, SlotsOk;
      ghost var before, slots := place, HandedOut(nextSlot);
      var slot := PickSlot(InDirect, true);
      var entry := Entry(Reserved, objects[slot].generation + 1, logical);
      handle := Handle(slot, entry.generation);
      DirectBorn(objects, before, slots, HandedOut(nextSlot), batches, occupied, direct, slot, entry);
      IssuedNext(issued, objects, handle, entry);
      hide IssuedFits;
      place := place[slot := InDirect];
      objects := objects[slot := entry];
      direct := direct + [slot];
      reservedBytes := reservedBytes + logical;
      issued := issued + {handle};
    }

    /**
      * Directory growth ahead of an owner reservation. With space it never fails, so its test of the counter is idle.
      */
    method FindSlot(space: bool) returns (ok: bool)
      requires Standing()
      modifies this`objects, this`place
      ensures Standing() && (ok <==> space) && old(objects) <= objects
      ensures ok && freeSlots == [] ==> nextSlot < |objects|
    {
      if freeSlots == [] && nextSlot >= |objects| {
        if nextSlot == MAX_SLOT {
          return false;
        }
        if space {
          GrowDirectory();
        }
      }
      ok := space;
    }

    /**
      * `heap.reserve`; `space` says whether the page and the directory growth it needs are admitted. The counter
      * wraps to zero exactly when the last 32-bit slot is handed out. From then on a reservation that finds nothing
      * free takes the null slot, which has no entry, and the program stops with a fault.
      */
    method OwnerReserve(logical: nat, lender: int, space: bool) returns (outcome: Outcome, handle: Handle)
      requires Standing() && lender < |batches|
      modifies this
      ensures outcome == (if logical > MAX_INT64 then LimitReached
                          else if !old(Affordable(logical) || Lendable(logical, lender)) then NeedCollection
                          else if !space then LimitReached
                          else if old(AtNullSlot()) then Fault else Granted)
      ensures outcome != Fault ==> Standing()
      ensures old(Valid()) ==> (Valid() <==> !(old(SlotsExhausted()) && outcome == Granted))
      ensures outcome == Granted ==>
        handle !in old(issued) && issued == old(issued) + {handle} && direct == old(direct) + [handle.slot]
      ensures outcome == Granted && old(SlotsExhausted()) ==> handle.slot == MAX_SLOT && nextSlot == 0
      ensures outcome == Granted ==> freeSlots == FreeAfter(old(freeSlots), 1)
      ensures outcome != Granted ==>
        && issued == old(issued) && reservedBytes == old(reservedBytes) && batches == old(batches)
        && freeSlots == old(freeSlots) && direct == old(direct)
      ensures occupied == old(occupied) && occupiedBytes == old(occupiedBytes) && |old(objects)| <= |objects|
      ensures forall s: nat | s < |old(objects)| && !(outcome == Granted && s == handle.slot) ::
        objects[s] == old(objects)[s]
      ensures outcome == Granted ==>
        && handle.slot < |objects| && objects[handle.slot] == Entry(Reserved, handle.generation, logical)
      ensures outcome == Granted ==>
        if old(Affordable(logical)) then reservedBytes == old(reservedBytes) + logical && batches == old(batches)
        else occupiedBytes + reservedBytes == maxGuestBytes
    {
      hide Total, Lists, Credits, SlotsOk, BatchesOk, IssuedOk;
      handle := Handle(0, 0);
      if logical > MAX_INT64 {
        return LimitReached, handle;
      }
      var ok, released := AdmitGuestBytes(logical, lender);
      if !ok {
        return NeedCollection, handle;
      }
      outcome, handle := TakeAdmitted(logical, space);
      if outcome != Granted {
        // the transfer is rolled back on the way out, also out of the fault
        Rollback(lender, released);
        if outcome == Fault {
          nextSlot := 1;
        }
      }
    }

    /** The part of `heap.reserve` after the bytes have been admitted. */
    method TakeAdmitted(logical: nat, space: bool) returns (outcome: Outcome, handle: Handle)
      requires Standing() && Affordable(logical)
      modifies this`objects, this`place, this`freeSlots, this`nextSlot, this`direct, this`reservedBytes, this`issued
      ensures Standing() && |old(objects)| <= |objects|
      ensures outcome == if !space then LimitReached else if old(AtNullSlot()) then Fault else Granted
      ensures outcome == Granted ==> nextSlot == if old(freeSlots) == [] then (old(nextSlot) + 1) % (MAX_SLOT + 1)
                                                 else old(nextSlot)
      ensures outcome == Granted ==>
        && handle !in old(issued) && issued == old(issued) + {handle} && direct == old(direct) + [handle.slot]
        && freeSlots == FreeAfter(old(freeSlots), 1) && reservedBytes == old(reservedBytes) + logical
        && (old(freeSlots) == [] ==> handle.slot == old(nextSlot))
        && handle.slot < |objects| && objects[handle.slot] == Entry(Reserved, handle.generation, logical)
      ensures outcome != Granted ==>
        && issued == old(issued) && reservedBytes == old(reservedBytes) && freeSlots == old(freeSlots)
        && direct == old(direct) && nextSlot == old(nextSlot)
      ensures forall s: nat | s < |old(objects)| && !(outcome == Granted && s == handle.slot) ::
        objects[s] == old(objects)[s]
    {
      hide Total, Lists, Credits, SlotsOk, BatchesOk, IssuedOk;
      handle := Handle(0, 0);
      // the loop that retires exhausted slots finds none
      FreeSlotsReusable();
      var found := FindSlot(space);
      if !found {
        return LimitReached, handle;
      }
      if AtNullSlot() {
        return Fault, handle;
      }
      handle := TakeDirect(logical);
      outcome := Granted;
    }

    /** A ledger whose directory has given out every slot but the last, each to a live object of eight bytes. */
    constructor Full()
      ensures Valid() && SlotsExhausted() && maxGuestBytes == 0 && batches == [] && direct == []
      ensures |objects| == MAX_SLOT + 1 && 1 in occupied && objects[1] == Entry(Published, 1, 8)
      ensures occupiedBytes == 8 * (MAX_SLOT - 1) && reservedBytes == 0
      ensures forall s: nat | 0 < s < MAX_SLOT :: Handle(s, 1) in issued
    {
      objects, nextSlot, freeSlots, occupied, direct, batches :=
        FullObjects(MAX_SLOT + 1), MAX_SLOT, [], FullOccupied(), [], [];
      occupiedBytes, reservedBytes, controlBytes, controlPending := 8 * (MAX_SLOT - 1), 0, 0, 0;
      maxGuestBytes := 0;
      place, issued := FullPlaces(MAX_SLOT + 1), set s: nat | 0 < s < MAX_SLOT :: Handle(s, 1);
      new;
      FullTotals(MAX_SLOT + 1);
      FullLists();
    }

    /** `commit` of an owner reservation, at position `i` of the open ones. */
    method DirectCommit(i: nat)
      requires Standing() && i < |direct|
      modifies this`objects, this`place, this`direct, this`occupied, this`occupiedBytes, this`reservedBytes
      ensures Standing() && direct == SwapDelete(old(direct), i) && occupied == old(occupied) + [old(direct[i])]
      ensures occupiedBytes + reservedBytes == old(occupiedBytes + reservedBytes)
      ensures var s := old(direct[i]);
        s < |objects| && objects == old(objects)[s := old(objects)[s].(state := Published)]
    {
      hide Total, BatchesOk, Credits, Lists, SlotsOk;
      var slot := direct[i];
      ListedPlace(direct, place, InDirect, i);
      PlaceInUse(objects, place, HandedOut(nextSlot), slot);
      var entry := objects[slot].(state := Published);
      ListsSwapDelete(direct, place, InDirect, i, InOccupied);
      ListsAdd(occupied, place, InOccupied, slot);
      ListsWithout(freeSlots, place, InFree, slot, InOccupied);
      SlotMoved(objects, place, HandedOut(nextSlot), slot, entry, InOccupied);
      OutsideMoved(objects, place, batches, slot, entry, InOccupied);
      direct := SwapDelete(direct, i);
      occupied := occupied + [slot];
      place := place[slot := InOccupied];
      reservedBytes := reservedBytes - objects[slot].logical;
      occupiedBytes := occupiedBytes + objects[slot].logical;
      objects := objects[slot := entry];
    }

    /** Gives a slot that left its list back to the free list, or retires it. */
    method ReleaseSlot(slot: nat)
      requires slot < |objects| == |place| && (place[slot].InDirect? || place[slot].InOccupied?)
      requires nextSlot <= MAX_SLOT && SlotsOk(objects, place, HandedOut(nextSlot)) && Lists(freeSlots, place, InFree)
      requires BatchesOk(objects, place, batches, -1) && IssuedOk()
      requires Lists(occupied, place[slot := Retired], InOccupied) && Lists(direct, place[slot := Retired], InDirect)
      modifies this`objects, this`place, this`freeSlots
      ensures |objects| == |place| && SlotListsOk() && BatchesOk(objects, place, batches, -1) && IssuedOk()
      ensures Total(objects, place, OccupiedBytes) + old(Weight(objects[slot], place[slot], OccupiedBytes)) ==
        old(Total(objects, place, OccupiedBytes))
      ensures Total(objects, place, DirectBytes) + old(Weight(objects[slot], place[slot], DirectBytes)) ==
        old(Total(objects, place, DirectBytes))
      ensures freeSlots == FreedInto(old(freeSlots), slot, old(objects[slot]))
      ensures objects == old(objects)[slot := old(objects[slot]).(state := Free, logical := 0)]
    {
      hide Total, BatchesOk, Lists, SlotsOk;
      PlaceInUse(objects, place, HandedOut(nextSlot), slot);
      var entry := objects[slot].(state := Free, logical := 0);
      ghost var p := if entry.generation != MAX_GENERATION then InFree else Retired;
      SlotMoved(objects, place, HandedOut(nextSlot), slot, entry, p);
      OutsideMoved(objects, place, batches, slot, entry, p);
      if entry.generation != MAX_GENERATION {
        ListsAdd(freeSlots, place, InFree, slot);
        ListsSame(occupied, place, InOccupied, slot, Retired, p);
        ListsSame(direct, place, InDirect, slot, Retired, p);
        freeSlots := freeSlots + [slot];
      } else {
        ListsWithout(freeSlots, place, InFree, slot, p);
      }
      place := place[slot := p];
      objects := objects[slot := entry];
    }

    /** `abort` of an owner reservation. */
    method DirectAbort(i: nat)
      requires Standing() && i < |direct|
      modifies this`objects, this`place, this`direct, this`freeSlots, this`reservedBytes
      ensures Standing() && direct == SwapDelete(old(direct), i)
      ensures reservedBytes + old(objects[direct[i]]).logical == old(reservedBytes)
      ensures freeSlots == FreedInto(old(freeSlots), old(direct[i]), old(objects[direct[i]]))
      ensures objects == old(objects)[old(direct[i]) := old(objects[direct[i]]).(state := Free, logical := 0)]
    {
      hide Total, BatchesOk, Credits, Lists, SlotsOk;
      var slot := direct[i];
      ListedPlace(direct, place, InDirect, i);
      PlaceInUse(objects, place, HandedOut(nextSlot), slot);
      var logical := objects[slot].logical;
      ListsSwapDelete(direct, place, InDirect, i, Retired);
      ListsWithout(occupied, place, InOccupied, slot, Retired);
      TotalAtLeast(objects, place, DirectBytes, slot);
      direct := SwapDelete(direct, i);
      ReleaseSlot(slot);
      reservedBytes := reservedBytes - logical;
    }

    /** The ledger part of `freeObject` for a published entry at position `i` of `occupied`. */
    method FreeObject(i: nat)
      requires Standing() && i < |occupied|
      modifies this`objects, this`place, this`occupied, this`freeSlots, this`occupiedBytes
      ensures Standing() && occupied == SwapDelete(old(occupied), i)
      ensures occupiedBytes + old(objects[occupied[i]]).logical == old(occupiedBytes)
      ensures freeSlots == FreedInto(old(freeSlots), old(occupied[i]), old(objects[occupied[i]]))
      ensures objects == old(objects)[old(occupied[i]) := old(objects[occupied[i]]).(state := Free, logical := 0)]
    {
      hide Total, BatchesOk, Credits, Lists, SlotsOk;
      var slot := occupied[i];
      ListedPlace(occupied, place, InOccupied, i);
      PlaceInUse(objects, place, HandedOut(nextSlot), slot);
      var logical := objects[slot].logical;
      ListsSwapDelete(occupied, place, InOccupied, i, Retired);
      ListsWithout(direct, place, InDirect, slot, Retired);
      TotalAtLeast(objects, place, OccupiedBytes, slot);
      occupied := SwapDelete(occupied, i);
      ReleaseSlot(slot);
      occupiedBytes := occupiedBytes - logical;
    }

    // ----- control bytes -----

    /** `reserveControl`. */
    method ReserveControl(logical: nat, lender: int) returns (outcome: Outcome)
      requires Standing() && lender < |batches|
      modifies this`batches, this`reservedBytes, this`controlPending
      ensures Standing()
      ensures outcome == (if logical > MAX_INT64 then LimitReached
                          else if old(logical == 0 || Affordable(logical) || Lendable(logical, lender)) then Granted
                          else NeedCollection)
      ensures outcome == Granted && old(Affordable(logical)) ==>
        batches == old(batches) && reservedBytes == old(reservedBytes) + logical
      ensures outcome == Granted ==> controlPending == old(controlPending) + logical
      ensures outcome != Granted ==>
        batches == old(batches) && reservedBytes == old(reservedBytes) && controlPending == old(controlPending)
    {
      hide SlotsOk, Lists, Total, Credits, BatchesOk, IssuedOk;
      if logical == 0 {
        return Granted;
      }
      if logical > MAX_INT64 {
        return LimitReached;
      }
      var ok, released := AdmitGuestBytes(logical, lender);
      if !ok {
        return NeedCollection;
      }
      reservedBytes := reservedBytes + logical;
      controlPending := controlPending + logical;
      outcome := Granted;
    }

    method CommitControl(logical: nat)
      requires Standing() && logical <= controlPending
      modifies this`occupiedBytes, this`reservedBytes, this`controlBytes, this`controlPending
      ensures Standing() && controlBytes == old(controlBytes) + logical
      ensures controlPending + logical == old(controlPending)
      ensures occupiedBytes + reservedBytes == old(occupiedBytes + reservedBytes)
    {
      hide SlotsOk, Lists, Total, Credits, BatchesOk, IssuedOk;
      controlPending := controlPending - logical;
      reservedBytes := reservedBytes - logical;
      controlBytes := controlBytes + logical;
      occupiedBytes := occupiedBytes + logical;
    }

    method AbortControl(logical: nat)
      requires Standing() && logical <= controlPending
      modifies this`reservedBytes, this`controlPending
      ensures Standing() && controlPending + logical == old(controlPending)
      ensures reservedBytes + logical == old(reservedBytes)
    {
      hide SlotsOk, Lists, Total, Credits, BatchesOk, IssuedOk;
      controlPending := controlPending - logical;
      reservedBytes := reservedBytes - logical;
    }

    /** `releaseControl`: never more than is held. */
    method ReleaseControl(logical: nat)
      requires Standing()
      modifies this`occupiedBytes, this`controlBytes
      ensures Standing() && controlBytes == old(controlBytes) - Min(logical, old(controlBytes))
      ensures occupiedBytes - controlBytes == old(occupiedBytes - controlBytes)
    {
      hide SlotsOk, Lists, Total, Credits, BatchesOk, IssuedOk;
      var bytes := Min(logical, controlBytes);
      controlBytes := controlBytes - bytes;
      occupiedBytes := occupiedBytes - bytes;
    }

    // ----- conservation -----

    /** How often a slot occurs over all lists. */
    ghost function Occurrences(s: nat): nat
      reads this
    {
      multiset(freeSlots)[s] + multiset(occupied)[s] + multiset(direct)[s] + InBatches(batches, s)
    }

    /** A slot that has been handed out is in exactly one list, or in none because its generations are used up. */
    lemma SlotInOnePlace(s: nat)
      requires Standing() && 0 < s < HandedOut(nextSlot)
      ensures Occurrences(s) == 1
        || (Occurrences(s) == 0 && objects[s].generation == MAX_GENERATION && !objects[s].state.Published?)
    {
      hide Total;
      ListsOnce(freeSlots, place, InFree, s);
      ListsOnce(occupied, place, InOccupied, s);
      ListsOnce(direct, place, InDirect, s);
      BatchesOnce(objects, place, batches, s);
    }
  }

  function FullObjects(n: nat): seq<Entry> {
    seq(n, i => if 0 < i < MAX_SLOT then Entry(Published, 1, 8) else Entry(Free, 0, 0))
  }

  function FullPlaces(n: nat): seq<Place> {
    seq(n, i => if 0 < i < MAX_SLOT then InOccupied else Unborn)
  }

  function FullOccupied(): seq<nat> {
    seq(MAX_SLOT - 1, i requires 0 <= i < MAX_SLOT - 1 => i + 1)
  }

  lemma {:induction false} FullTotals(n: nat)
    requires n <= MAX_SLOT + 1
    ensures Total(FullObjects(n), FullPlaces(n), DirectBytes) == 0
    ensures Total(FullObjects(n), FullPlaces(n), OccupiedBytes) ==
      8 * (if n == 0 then 0 else if n <= MAX_SLOT then n - 1 else MAX_SLOT - 1)
  {
    if n > 0 {
      assert FullObjects(n)[..n - 1] == FullObjects(n - 1) && FullPlaces(n)[..n - 1] == FullPlaces(n - 1);
      FullTotals(n - 1);
    }
  }

  lemma FullLists()
    ensures Lists(FullOccupied(), FullPlaces(MAX_SLOT + 1), InOccupied) && 1 in FullOccupied()
    ensures Lists([], FullPlaces(MAX_SLOT + 1), InFree) && Lists([], FullPlaces(MAX_SLOT + 1), InDirect)
  {
    var xs, place := FullOccupied(), FullPlaces(MAX_SLOT + 1);
    forall s: nat | s < |place| && place[s] == InOccupied
      ensures s in xs
    {
      assert xs[s - 1] == s;
    }
    assert xs[0] == 1;
  }

  const BATCH_CREDIT: nat := 0x1_0000
  const BATCH_HANDLES: nat := 128

  /** Once the counter has wrapped, the next owner reservation that finds nothing free stops the program. */
  method WrappedCounterFaults() returns (l: Ledger, last: Handle, next: Outcome)
    ensures fresh(l) && last.slot == MAX_SLOT && next == Fault
  {
    l := new Ledger.Full();
    var outcome, handle;
    outcome, last := l.OwnerReserve(8, -1, true);
    next, handle := l.OwnerReserve(8, -1, true);
  }

  /**
    * Once the counter has wrapped, a batch is granted again. Its tickets start at the null slot, and the second one
    * is for a slot whose object is live: it is in the batch and among the occupied slots.
    */
  method WrappedCounterSharesLiveSlot() returns (l: Ledger, granted: Outcome)
    ensures fresh(l) && granted == Granted && !l.Standing() && l.Occurrences(1) == 2
    ensures |l.batches| == 1 && Slots(l.batches[0].reservations) == Tickets([], 0, BATCH_HANDLES)
    ensures 1 in l.occupied && 1 < |l.objects| && l.objects[1] == Entry(Published, 1, 8)
  {
    l := new Ledger.Full();
    var outcome, last := l.OwnerReserve(8, -1, true);
    l.SlotInOnePlace(1);
    ghost var before := l.batches;
    granted := l.AcquireBatch(BATCH_CREDIT, BATCH_HANDLES, true);
    ghost var slots := Slots(l.batches[0].reservations);
    assert slots == Tickets([], 0, BATCH_HANDLES);
    assert slots[1] == 1 && l.batches[..0] == [];
    DistinctOnce(slots, 1);
  }

  /** An idle slot entering a batch changes no total. */
  lemma TicketMoved(objects: seq<Entry>, place: seq<Place>, batches: seq<Batch>, b: nat, s: nat)
    requires |objects| == |place| && s < |objects| && BatchesOk(objects, place, batches, b)
    requires Idle(objects[s]) && (place[s].InFree? || place[s].Unborn?)
    ensures BatchesOk(objects, place[s := InBatch(b)], batches, b)
    ensures forall c :: Total(objects, place[s := InBatch(b)], c) == Total(objects, place, c)
  {
    hide BatchOk, Total, BatchesOk;
    var e := objects[s];
    assert objects[s := e] == objects;
    BatchesUnaffected(objects, place, batches, b, s, e, InBatch(b));
    forall c
      ensures Total(objects, place[s := InBatch(b)], c) == Total(objects, place, c)
    {
      TotalUpdate(objects, place, c, s, e, InBatch(b));
    }
  }

  lemma ListsGrow(xs: seq<nat>, place: seq<Place>, where: seq<Place>, p: Place)
    requires Lists(xs, place, p) && !p.Unborn? && forall i | 0 <= i < |where| :: where[i] == Unborn
    ensures Lists(xs, place + where, p)
  {
  }

  /** A batch after one of its reservations has been aborted. */
  lemma TicketAborted(objects: seq<Entry>, place: seq<Place>, next: nat, batches: seq<Batch>, b: nat, k: nat)
    requires |objects| == |place| && SlotsOk(objects, place, next) && BatchesOk(objects, place, batches, -1)
    requires b < |batches|
    requires !batches[b].finished && k < |batches[b].reservations| && !batches[b].reservations[k].done
    requires batches[b].reservations[k].slot < |objects| ==>
      k < batches[b].used || Idle(objects[batches[b].reservations[k].slot])
    ensures batches[b].reservations[k].slot < |objects|
    ensures var batch, r := batches[b], batches[b].reservations[k];
            var freed := if objects[r.slot].state.Reserved? then objects[r.slot].logical else 0;
            && place[r.slot] == InBatch(b) && objects[r.slot].generation <= MAX_GENERATION && freed <= batch.reserved
            && BatchOk(objects[r.slot := objects[r.slot].(state := Free, logical := 0)], place, b,
                       batch.(reserved := batch.reserved - freed, reservations :=
                         batch.reservations[k := r.(done := true)]))
  {
    hide Total, Lists, SlotsOk;
    var batch, r := batches[b], batches[b].reservations[k];
    assert BatchOk(objects, place, b, batch);
    hide BatchesOk;
    assert TicketOk(objects, batch, k);
    TicketWeight(objects, place, b, batch, k);
    GenerationBound(objects, place, next, r.slot);
    var freed := if objects[r.slot].state.Reserved? then objects[r.slot].logical else 0;
    TicketChanged(objects, place, b, batch, k, objects[r.slot].(state := Free, logical := 0),
                  batch.(reserved := batch.reserved - freed,
                         reservations := batch.reservations[k := r.(done := true)]));
  }

  lemma GrowKeepsTickets(objects: seq<Entry>, batch: Batch, more: seq<Entry>)
    requires forall k | 0 <= k < |batch.reservations| :: TicketOk(objects, batch, k)
    ensures forall k | 0 <= k < |batch.reservations| :: TicketOk(objects + more, batch, k)
  {
    forall k | 0 <= k < |batch.reservations|
      ensures TicketOk(objects + more, batch, k)
    {
      assert TicketOk(objects, batch, k);
    }
  }

  lemma GrowKeepsTotals(objects: seq<Entry>, place: seq<Place>, b: nat, more: seq<Entry>, where: seq<Place>)
    requires |objects| == |place| && |more| == |where| && forall i | 0 <= i < |where| :: where[i] == Unborn
    ensures Total(objects + more, place + where, ReservedIn(b)) == Total(objects, place, ReservedIn(b))
    ensures Total(objects + more, place + where, CommittedIn(b)) == Total(objects, place, CommittedIn(b))
  {
    TotalGrow(objects, place, more, where, ReservedIn(b));
    TotalGrow(objects, place, more, where, CommittedIn(b));
  }

  lemma GrowKeepsBatch(objects: seq<Entry>, place: seq<Place>, b: nat, batch: Batch, more: seq<Entry>,
      where: seq<Place>)
    requires |objects| == |place| && |more| == |where| && BatchOk(objects, place, b, batch)
    requires forall i | 0 <= i < |where| :: where[i] == Unborn
    ensures BatchOk(objects + more, place + where, b, batch)
  {
    hide Total, Lists, TicketOk;
    ListsGrow(if batch.finished then [] else Slots(batch.reservations), place, where, InBatch(b));
    GrowKeepsTotals(objects, place, b, more, where);
    if !batch.finished {
      GrowKeepsTickets(objects, batch, more);
    }
  }

  lemma GrowKeepsBatches(objects: seq<Entry>, place: seq<Place>, batches: seq<Batch>, more: seq<Entry>,
      where: seq<Place>)
    requires |objects| == |place| && |more| == |where| && BatchesOk(objects, place, batches, -1)
    requires forall i | 0 <= i < |where| :: where[i] == Unborn
    ensures BatchesOk(objects + more, place + where, batches, -1)
  {
    hide BatchOk;
    forall b: nat | b < |batches|
      ensures BatchOk(objects + more, place + where, b, batches[b])
    {
      GrowKeepsBatch(objects, place, b, batches[b], more, where);
    }
  }

  lemma NewBatchEmpty(objects: seq<Entry>, place: seq<Place>, batches: seq<Batch>)
    requires |objects| == |place| && BatchesOk(objects, place, batches, -1)
    ensures BatchesOk(objects, place, batches, |batches|) && Lists([], place, InBatch(|batches|))
    ensures Total(objects, place, ReservedIn(|batches|)) == 0 && Total(objects, place, CommittedIn(|batches|)) == 0
  {
    TotalAbsent(objects, place, |batches|);
  }

  lemma NewBatchOk(objects: seq<Entry>, place: seq<Place>, batches: seq<Batch>, batch: Batch)
    requires |objects| == |place| && BatchesOk(objects, place, batches, |batches|)
    requires !batch.finished && batch.used == 0 && batch.reserved == 0 && batch.committed == 0
    requires Lists(Slots(batch.reservations), place, InBatch(|batches|))
    requires forall k | 0 <= k < |batch.reservations| :: TicketOk(objects, batch, k)
    requires Total(objects, place, ReservedIn(|batches|)) == 0 && Total(objects, place, CommittedIn(|batches|)) == 0
    ensures BatchesOk(objects, place, batches + [batch], -1)
    ensures Credits(batches + [batch]) == Credits(batches) + batch.credit
  {
    hide Total, Lists, TicketOk, BatchOk;
    NewBatchSelf(objects, place, |batches|, batch);
    var after := batches + [batch];
    assert after[..|batches|] == batches;
    forall b: nat | b < |after|
      ensures BatchOk(objects, place, b, after[b])
    {
      if b < |batches| {
        assert BatchOk(objects, place, b, batches[b]);
      }
    }
  }

  lemma NewBatchSelf(objects: seq<Entry>, place: seq<Place>, b: nat, batch: Batch)
    requires |objects| == |place| && !batch.finished && batch.used == 0 && batch.reserved == 0 && batch.committed == 0
    requires Lists(Slots(batch.reservations), place, InBatch(b))
    requires forall k | 0 <= k < |batch.reservations| :: TicketOk(objects, batch, k)
    requires Total(objects, place, ReservedIn(b)) == 0 && Total(objects, place, CommittedIn(b)) == 0
    ensures BatchOk(objects, place, b, batch)
  {
    hide Total, Lists, TicketOk;
  }

  /** One ticket of a batch changes: its slot's entry, its reservation and the two sums together. */
  lemma TicketChanged(objects: seq<Entry>, place: seq<Place>, b: nat, batch: Batch, k: nat, e: Entry, after: Batch)
    requires |objects| == |place| && BatchOk(objects, place, b, batch) && !batch.finished && !after.finished
    requires k < |batch.reservations| && |after.reservations| == |batch.reservations|
    requires after.reservations[k].slot == batch.reservations[k].slot
    requires forall i | 0 <= i < |batch.reservations| && i != k :: after.reservations[i] == batch.reservations[i]
    requires after.used == batch.used || (after.used == batch.used + 1 && k == batch.used)
    requires batch.reservations[k].slot < |objects| && TicketOk(objects[batch.reservations[k].slot := e], after, k)
    requires after.reserved + Weight(objects[batch.reservations[k].slot], InBatch(b), ReservedIn(b))
          == batch.reserved + Weight(e, InBatch(b), ReservedIn(b))
    requires after.committed + Weight(objects[batch.reservations[k].slot], InBatch(b), CommittedIn(b))
          == batch.committed + Weight(e, InBatch(b), CommittedIn(b))
    requires after.reserved + after.committed <= after.credit
    ensures BatchOk(objects[batch.reservations[k].slot := e], place, b, after)
    ensures place[batch.reservations[k].slot] == InBatch(b)
  {
    var s := batch.reservations[k].slot;
    var objects' := objects[s := e];
    assert Slots(after.reservations) == Slots(batch.reservations);
    assert Slots(batch.reservations)[k] == s;
    assert place[s := InBatch(b)] == place;
    TotalUpdate(objects, place, ReservedIn(b), s, e, InBatch(b));
    TotalUpdate(objects, place, CommittedIn(b), s, e, InBatch(b));
    hide Total;
    forall i | 0 <= i < |after.reservations|
      ensures TicketOk(objects', after, i)
    {
      assert TicketOk(objects, batch, i);
      if i != k {
        assert Slots(batch.reservations)[i] != s;
      }
    }
  }

  lemma BatchReplaced(objects: seq<Entry>, place: seq<Place>, batches: seq<Batch>, b: nat, after: Batch)
    requires |objects| == |place| && b < |batches| && BatchesOk(objects, place, batches, b)
    requires BatchOk(objects, place, b, after)
    ensures BatchesOk(objects, place, batches[b := after], -1)
  {
    hide BatchOk;
  }

  lemma BatchClosed(objects: seq<Entry>, place: seq<Place>, batches: seq<Batch>, b: nat, after: Batch)
    requires |objects| == |place| && b < |batches| && BatchesOk(objects, place, batches, b)
    requires Lists([], place, InBatch(b)) && after.finished
    ensures BatchesOk(objects, place, batches[b := after], -1) && Total(objects, place, CommittedIn(b)) == 0
  {
    TotalAbsent(objects, place, b);
    hide BatchesOk, Total, Lists;
    BatchReplaced(objects, place, batches, b, after);
  }

  /** A listed slot is where the list says. */
  lemma ListedPlace(xs: seq<nat>, place: seq<Place>, p: Place, i: nat)
    requires Lists(xs, place, p) && i < |xs|
    ensures xs[i] < |place| && place[xs[i]] == p
  {
  }

  lemma PlaceInUse(objects: seq<Entry>, place: seq<Place>, next: nat, s: nat)
    requires SlotsOk(objects, place, next) && s < |place| && !place[s].Unborn?
    ensures |objects| == |place| && 0 < s < next && Fits(objects[s], place[s])
  {
  }

  lemma ExceptOne(objects: seq<Entry>, place: seq<Place>, batches: seq<Batch>, b: nat)
    requires |objects| == |place| && BatchesOk(objects, place, batches, -1)
    ensures BatchesOk(objects, place, batches, b)
  {
  }

  lemma TicketStored(objects: seq<Entry>, place: seq<Place>, next: nat, batches: seq<Batch>, b: nat, s: nat,
      entry: Entry, after: Batch)
    requires SlotsOk(objects, place, next) && BatchesOk(objects, place, batches, -1) && b < |batches|
    requires s < |objects| && place[s] == InBatch(b) && entry.generation <= MAX_GENERATION
    requires BatchOk(objects[s := entry], place, b, after)
    ensures SlotsOk(objects[s := entry], place, next) && BatchesOk(objects[s := entry], place, batches[b := after], -1)
    ensures Total(objects[s := entry], place, OccupiedBytes) == Total(objects, place, OccupiedBytes)
    ensures Total(objects[s := entry], place, DirectBytes) == Total(objects, place, DirectBytes)
  {
    hide BatchOk, Total;
    assert place[s := InBatch(b)] == place;
    SlotMoved(objects, place, next, s, entry, InBatch(b));
    hide SlotsOk;
    ExceptOne(objects, place, batches, b);
    BatchesUnaffected(objects, place, batches, b, s, entry, InBatch(b));
    TotalUpdate(objects, place, OccupiedBytes, s, entry, InBatch(b));
    TotalUpdate(objects, place, DirectBytes, s, entry, InBatch(b));
    hide BatchesOk;
    BatchReplaced(objects[s := entry], place, batches, b, after);
  }

  lemma BatchExtended(objects: seq<Entry>, place: seq<Place>, b: nat, batch: Batch, slots: seq<nat>, after: Batch)
    requires |objects| == |place| && !batch.finished && !after.finished
    requires after.used == batch.used <= |batch.reservations|
    requires forall k | 0 <= k < |batch.reservations| :: TicketOk(objects, batch, k)
    requires batch.reservations <= after.reservations && Slots(after.reservations) == Slots(batch.reservations) + slots
    requires Lists(Slots(after.reservations), place, InBatch(b))
    requires forall i | 0 <= i < |slots| ::
      slots[i] < |objects| && Idle(objects[slots[i]]) && objects[slots[i]].generation < MAX_GENERATION
    requires after.reserved == batch.reserved == Total(objects, place, ReservedIn(b))
    requires after.committed == batch.committed == Total(objects, place, CommittedIn(b))
    requires after.reserved + after.committed <= after.credit
    ensures BatchOk(objects, place, b, after)
  {
    hide Total, Lists;
    forall k | 0 <= k < |after.reservations|
      ensures TicketOk(objects, after, k)
    {
      if k < |batch.reservations| {
        assert TicketOk(objects, batch, k);
      } else {
        assert Slots(after.reservations)[k] == slots[k - |batch.reservations|];
      }
    }
  }

  /** A reserved ticket is counted in the batch's reserved bytes. */
  lemma TicketWeight(objects: seq<Entry>, place: seq<Place>, b: nat, batch: Batch, k: nat)
    requires |objects| == |place| && BatchOk(objects, place, b, batch) && !batch.finished && k < |batch.reservations|
    ensures batch.reservations[k].slot < |objects| && place[batch.reservations[k].slot] == InBatch(b)
    ensures objects[batch.reservations[k].slot].state.Reserved? ==>
      objects[batch.reservations[k].slot].logical <= batch.reserved
  {
    assert Slots(batch.reservations)[k] == batch.reservations[k].slot;
    TotalAtLeast(objects, place, ReservedIn(b), batch.reservations[k].slot);
  }

  lemma GenerationBound(objects: seq<Entry>, place: seq<Place>, next: nat, s: nat)
    requires SlotsOk(objects, place, next) && s < |objects|
    ensures objects[s].generation <= MAX_GENERATION
  {
  }

  lemma ListsDropFirst(s: nat, rest: seq<nat>, place: seq<Place>, p: Place, q: Place)
    requires Lists([s] + rest, place, p) && p != q
    ensures s < |place| && place[s] == p && Lists(rest, place[s := q], p)
  {
    var xs := [s] + rest;
    assert xs[0] == s;
    forall i | 0 <= i < |rest|
      ensures rest[i] < |place| && place[rest[i]] == p && rest[i] != s
    {
      assert xs[i + 1] == rest[i];
    }
    forall i, j | 0 <= i < j < |rest|
      ensures rest[i] != rest[j]
    {
      assert xs[i + 1] != xs[j + 1];
    }
  }

  lemma TicketReturned(objects: seq<Entry>, place: seq<Place>, next: nat, batches: seq<Batch>, b: nat, s: nat, p: Place)
    requires SlotsOk(objects, place, next) && BatchesOk(objects, place, batches, b) && s < |objects|
    requires place[s] == InBatch(b)
    requires Fits(objects[s], p) && (p.InOccupied? || ((p.InFree? || p.Retired?) && Idle(objects[s])))
    ensures SlotsOk(objects, place[s := p], next) && BatchesOk(objects, place[s := p], batches, b)
    ensures Total(objects, place[s := p], OccupiedBytes) + Total(objects, place[s := p], CommittedIn(b))
         == Total(objects, place, OccupiedBytes) + Total(objects, place, CommittedIn(b))
    ensures Total(objects, place[s := p], DirectBytes) == Total(objects, place, DirectBytes)
  {
    hide Total, BatchOk;
    var e := objects[s];
    assert objects[s := e] == objects;
    SlotMoved(objects, place, next, s, e, p);
    hide SlotsOk;
    BatchesUnaffected(objects, place, batches, b, s, e, p);
    hide BatchesOk;
    TotalUpdate(objects, place, OccupiedBytes, s, e, p);
    TotalUpdate(objects, place, CommittedIn(b), s, e, p);
    TotalUpdate(objects, place, DirectBytes, s, e, p);
  }

  /** Each ticket is a committed entry or idle. */
  predicate Settled(objects: seq<Entry>, batch: Batch) {
    forall k | 0 <= k < |batch.reservations| ::
      && batch.reservations[k].slot < |objects|
      && ((k < batch.used && objects[batch.reservations[k].slot].state.Published?)
        || Idle(objects[batch.reservations[k].slot]))
  }

  lemma TicketsSettled(objects: seq<Entry>, place: seq<Place>, b: nat, batch: Batch)
    requires |objects| == |place| && BatchOk(objects, place, b, batch) && !batch.finished && batch.reserved == 0
    ensures Settled(objects, batch)
  {
    hide Total;
    forall k | 0 <= k < |batch.reservations|
      ensures batch.reservations[k].slot < |objects|
      ensures (k < batch.used && objects[batch.reservations[k].slot].state.Published?)
        || Idle(objects[batch.reservations[k].slot])
    {
      var s := batch.reservations[k].slot;
      assert TicketOk(objects, batch, k);
      assert Slots(batch.reservations)[k] == s;
      TotalZero(objects, place, ReservedIn(b), s);
    }
  }

  lemma DirectTaken(objects: seq<Entry>, place: seq<Place>, batches: seq<Batch>, s: nat, e: Entry)
    requires |objects| == |place| && s < |objects| && BatchesOk(objects, place, batches, -1)
    requires place[s].InFree? || place[s].Unborn?
    ensures BatchesOk(objects[s := e], place[s := InDirect], batches, -1)
    ensures Total(objects[s := e], place[s := InDirect], OccupiedBytes) == Total(objects, place, OccupiedBytes)
    ensures Total(objects[s := e], place[s := InDirect], DirectBytes) == Total(objects, place, DirectBytes) + e.logical
  {
    hide Total, BatchOk, BatchesOk;
    BatchesUnaffected(objects, place, batches, -1, s, e, InDirect);
    TotalUpdate(objects, place, OccupiedBytes, s, e, InDirect);
    TotalUpdate(objects, place, DirectBytes, s, e, InDirect);
  }

  /** A slot taken by the owner: what the accounts say afterwards. */
  lemma DirectBorn(objects: seq<Entry>, place: seq<Place>, next: nat, next': nat, batches: seq<Batch>,
      occupied: seq<nat>, direct: seq<nat>, s: nat, e: Entry)
    requires SlotsOk(objects, place, next) && Fits(e, InDirect) && s < |objects|
    requires (0 < s < next && next' == next) || (s == next && next' == next + 1 && next <= MAX_SLOT)
    requires Lists(occupied, place, InOccupied) && Lists(direct, place, InDirect)
    requires BatchesOk(objects, place, batches, -1) && (place[s].InFree? || place[s].Unborn?)
    ensures SlotsOk(objects[s := e], place[s := InDirect], next')
    ensures Lists(occupied, place[s := InDirect], InOccupied) && Lists(direct + [s], place[s := InDirect], InDirect)
    ensures BatchesOk(objects[s := e], place[s := InDirect], batches, -1)
    ensures Total(objects[s := e], place[s := InDirect], OccupiedBytes) == Total(objects, place, OccupiedBytes)
    ensures Total(objects[s := e], place[s := InDirect], DirectBytes) == Total(objects, place, DirectBytes) + e.logical
  {
    hide Total, BatchesOk;
    SlotBorn(objects, place, next, next', s, e, InDirect);
    DirectTaken(objects, place, batches, s, e);
    ListsAdd(direct, place, InDirect, s);
    ListsWithout(occupied, place, InOccupied, s, InDirect);
  }

  /** A free slot, or the next fresh one, moves to another place. */
  lemma SlotBorn(objects: seq<Entry>, place: seq<Place>, next: nat, next': nat, s: nat, e: Entry, p: Place)
    requires SlotsOk(objects, place, next) && Fits(e, p) && !p.Unborn? && s < |objects|
    requires (0 < s < next && next' == next) || (s == next && next' == next + 1 && next <= MAX_SLOT)
    ensures SlotsOk(objects[s := e], place[s := p], next')
  {
  }

  /** Moving a slot that no batch holds. */
  lemma OutsideMoved(objects: seq<Entry>, place: seq<Place>, batches: seq<Batch>, s: nat, e: Entry, p: Place)
    requires |objects| == |place| && s < |objects| && BatchesOk(objects, place, batches, -1) && !place[s].InBatch?
    requires !p.InBatch?
    ensures BatchesOk(objects[s := e], place[s := p], batches, -1)
    ensures Total(objects[s := e], place[s := p], OccupiedBytes) + Weight(objects[s], place[s], OccupiedBytes)
         == Total(objects, place, OccupiedBytes) + Weight(e, p, OccupiedBytes)
    ensures Total(objects[s := e], place[s := p], DirectBytes) + Weight(objects[s], place[s], DirectBytes)
         == Total(objects, place, DirectBytes) + Weight(e, p, DirectBytes)
  {
    hide Total, BatchOk, BatchesOk;
    BatchesUnaffected(objects, place, batches, -1, s, e, p);
    TotalUpdate(objects, place, OccupiedBytes, s, e, p);
    TotalUpdate(objects, place, DirectBytes, s, e, p);
  }

  lemma ListsSame(xs: seq<nat>, place: seq<Place>, p: Place, s: nat, q: Place, r: Place)
    requires s < |place| && q != p && r != p && Lists(xs, place[s := q], p)
    ensures Lists(xs, place[s := r], p)
  {
    assert place[s := q][s := r] == place[s := r];
    ListsWithout(xs, place[s := q], p, s, r);
  }

  // ----- counting occurrences -----

  function InBatches(batches: seq<Batch>, s: nat): nat {
    if batches == [] then 0
    else
      var last := batches[|batches| - 1];
      InBatches(batches[..|batches| - 1], s) + (if last.finished then 0 else multiset(Slots(last.reservations))[s])
  }

  lemma {:induction false} DistinctOnce(xs: seq<nat>, s: nat)
    requires Distinct(xs)
    ensures multiset(xs)[s] == if s in xs then 1 else 0
  {
    if xs != [] {
      var n := |xs| - 1;
      DistinctOnce(xs[..n], s);
      assert xs == xs[..n] + [xs[n]];
    }
  }

  lemma ListsOnce(xs: seq<nat>, place: seq<Place>, p: Place, s: nat)
    requires Lists(xs, place, p) && s < |place|
    ensures multiset(xs)[s] == if place[s] == p then 1 else 0
  {
    DistinctOnce(xs, s);
  }

  lemma {:induction false} BatchesOnce(objects: seq<Entry>, place: seq<Place>, batches: seq<Batch>, s: nat)
    requires |objects| == |place| && s < |place|
    requires forall b: nat | b < |batches| :: BatchOk(objects, place, b, batches[b])
    ensures InBatches(batches, s) == if place[s].InBatch? && place[s].b < |batches| then 1 else 0
  {
    hide Total;
    if batches != [] {
      var n := |batches| - 1;
      BatchesOnce(objects, place, batches[..n], s);
      assert BatchOk(objects, place, n, batches[n]);
      ListsOnce(if batches[n].finished then [] else Slots(batches[n].reservations), place, InBatch(n), s);
    }
  }
}
