/** The collector of the managed heap, as the methods of one heap object. */
module Collector {
  import opened Prelude
  import opened HeapWords
  import opened CardScan
  import opened HeapModel
  import opened Marking
  import opened Cards
  import opened Evacuation
  import opened Directory
  import opened Refresh
  import opened Reclaim
  import opened Collection
  import opened HeldHandles
  import opened Barrier
  import opened LargeEntries

  /** How a collection ends. */
  datatype Outcome = Done | HeapClosed | Busy | NoScratch | BadReference

  class ManagedHeap {
    // directory, pages and layouts
    var objects: seq<Object>
    var pages: seq<Page>
    var layouts: seq<Layout>
    // columns of the directory
    var marks: seq<nat>
    var occupiedIndex: seq<nat>
    var youngIndex: seq<nat>
    // vectors
    var occupied: seq<nat>
    var youngSlots: seq<nat>
    var freeSlots: seq<nat>
    var nurseryPages: seq<nat>
    var freePages: seq<nat>
    var oldAvailable: seq<seq<nat>>
    var queue: seq<nat>
    const queueCapacity: nat
    // this collection
    var epoch: nat
    var collectorWorkers: nat
    var reachableBytes: nat
    var reclaimedBytes: nat
    var closed: bool
    var unpublished: nat
    var activeBatches: nat
    // accounting
    var occupiedBytes: nat
    var controlBytes: nat
    var pendingCards: seq<Card>
    var cardCapacity: nat
    ghost var strictLog: bool
    // card logs of the allocation batches
    var batchLogs: seq<seq<Card>>
    var batchRoom: seq<nat>
    var batchOpen: seq<bool>

    ghost function Mem(): Store
      reads this`objects, this`pages, this`layouts
    {
      Store(objects, pages, layouts)
    }

    /** What a trace relies on and does not change. */
    ghost predicate Traceable()
      reads this`objects, this`pages, this`layouts, this`occupied
    {
      && AllPlaced(Mem())
      && Distinct(occupied)
      && (forall s: nat | Live(Mem(), s) :: s in occupied)
      && |occupied| <= queueCapacity
    }

    /** The queue and the marks agree, and the bytes are counted. */
    ghost predicate Marking(major: bool, allowed: set<nat>)
      reads this`objects, this`pages, this`layouts, this`marks, this`queue, this`epoch, this`reachableBytes,
        this`controlBytes
    {
      && QueueHoldsMarked(Mem(), marks, queue, epoch, major)
      && (forall i | 0 <= i < |queue| :: queue[i] in allowed)
      && reachableBytes == controlBytes + MarkedBytes(objects, marks, epoch)
    }

    /** `markReference`: fails exactly on a malformed or stale reference. */
    method MarkReference(ref: Ref, major: bool, ghost allowed: set<nat>) returns (ok: bool)
      requires Traceable() && Marking(major, allowed)
      requires Resolves(Mem(), ref) && (major || objects[ref.slot].young) ==> ref.slot in allowed
      modifies this`marks, this`queue, this`reachableBytes
      ensures Marking(major, allowed)
      ensures ok <==> ref.Null() || Resolves(Mem(), ref)
      ensures ok ==> Settled(Mem(), marks, epoch, major, ref)
      ensures MarksGrow(old(marks), marks, epoch) && old(queue) <= queue
    {
      if !ref.Valid() {
        ok := ref.Null();
        return;
      }
      if ref.slot == 0 || ref.slot >= |objects| || !objects[ref.slot].state.Published?
        || objects[ref.slot].generation != ref.generation {
        return false;
      }
      var entry := objects[ref.slot];
      if (!major && !entry.young) || marks[ref.slot] == epoch {
        return true;
      }
      DistinctFits(queue + [ref.slot], occupied);
      MarkedBytesAdd(objects, marks, epoch, ref.slot);
      marks := marks[ref.slot := epoch];
      reachableBytes := reachableBytes + entry.logical;
      if |queue| == queueCapacity {
        return false;
      }
      queue := queue + [ref.slot];
      ok := true;
    }

    /** Marks the references found in a payload, one after the other. */
    method MarkAll(refs: seq<Ref>, major: bool, ghost allowed: set<nat>) returns (ok: bool)
      requires Traceable() && Marking(major, allowed)
      requires Followable(Mem(), allowed, refs)
      modifies this`marks, this`queue, this`reachableBytes
      ensures Marking(major, allowed) && (ok <==> AllResolve(Mem(), refs))
      ensures MarksGrow(old(marks), marks, epoch) && old(queue) <= queue
      ensures ok ==> AllSettled(Mem(), marks, epoch, major, refs)
    {
      var k := 0;
      while k < |refs|
        invariant 0 <= k <= |refs|
        invariant Marking(major, allowed)
        invariant MarksGrow(old(marks), marks, epoch) && old(queue) <= queue
        invariant AllSettled(Mem(), marks, epoch, major, refs[..k])
      {
        ghost var before := marks;
        ok := MarkReference(refs[k], major, allowed);
        if !ok {
          return;
        }
        AllSettledStay(Mem(), before, marks, epoch, major, refs[..k]);
        k := k + 1;
      }
      assert refs[..k] == refs;
      SettledResolve(Mem(), marks, epoch, major, refs);
      ok := true;
    }

    /** `traceObject` over the whole payload: fails exactly when the entry holds a bad reference. */
    method TraceObject(slot: nat, major: bool, ghost allowed: set<nat>) returns (ok: bool)
      requires Traceable() && Marking(major, allowed) && Live(Mem(), slot)
      requires ClosedUnderPoints(Mem(), allowed) && slot in allowed
      modifies this`marks, this`queue, this`reachableBytes
      ensures Marking(major, allowed) && (ok <==> RefsOf(Mem(), slot))
      ensures MarksGrow(old(marks), marks, epoch) && old(queue) <= queue
      ensures ok ==> Traced(Mem(), marks, epoch, major, slot)
    {
      var refs := ChildrenIn(slot, 0, MAX_U32);
      WholeObjectTouchesAll(layouts[objects[slot].layout], objects[slot].offset, objects[slot].count);
      ChildrenFollowable(Mem(), allowed, slot, Words(Mem(), objects[slot]));
      RefsOfChildren(Mem(), slot);
      ok := MarkAll(refs, major, allowed);
      if ok {
        TracedWhenSettled(Mem(), marks, epoch, major, slot);
      }
    }

    /** The references of entry `slot` in the words that meet the byte range of its page. */
    method ChildrenIn(slot: nat, start: nat, end: nat) returns (refs: seq<Ref>)
      requires AllPlaced(Mem()) && Live(Mem(), slot) && start < end < U32
      ensures var o := objects[slot];
              refs == Children(Mem(), o, Scanned(layouts[o.layout], o.offset, o.count, start, end))
    {
      var entry := objects[slot];
      var words := ScanObject(layouts[entry.layout], entry.offset, entry.count, start, end);
      refs := Edges(pages[entry.page].data[entry.offset..entry.offset + entry.size], words);
    }

    /** `drainQueue`: every queued entry has been traced, or one of them holds a bad reference. */
    method DrainQueue(major: bool, ghost allowed: set<nat>) returns (ok: bool)
      requires Traceable() && Marking(major, allowed) && ClosedUnderPoints(Mem(), allowed)
      modifies this`marks, this`queue, this`reachableBytes
      ensures Marking(major, allowed) && MarksGrow(old(marks), marks, epoch) && old(queue) <= queue
      ensures ok <==> forall i | 0 <= i < |queue| :: RefsOf(Mem(), queue[i])
      ensures ok ==> forall i | 0 <= i < |queue| :: Traced(Mem(), marks, epoch, major, queue[i])
    {
      var cursor := 0;
      while cursor < |queue|
        invariant 0 <= cursor <= |queue|
        invariant Marking(major, allowed)
        invariant MarksGrow(old(marks), marks, epoch) && old(queue) <= queue
        invariant forall i | 0 <= i < cursor :: Traced(Mem(), marks, epoch, major, queue[i])
        decreases queueCapacity - cursor
      {
        DistinctFits(queue, occupied);
        ghost var before, done := marks, queue[..cursor];
        ghost var slot := queue[cursor];
        ok := TraceObject(queue[cursor], major, allowed);
        if !ok {
          assert queue[cursor] == slot;
          return;
        }
        forall i | 0 <= i < cursor
          ensures Traced(Mem(), marks, epoch, major, queue[i])
        {
          assert queue[i] == done[i];
          TracedStays(Mem(), before, marks, epoch, major, queue[i]);
        }
        cursor := cursor + 1;
      }
      forall i | 0 <= i < |queue|
        ensures RefsOf(Mem(), queue[i])
      {
        TracedResolves(Mem(), marks, epoch, major, queue[i]);
      }
      ok := true;
    }

    /** The part of a page entry that a logged card covers, if there is one. */
    method TraceEntry(slot: nat, card: Card, start: nat, end: nat, ghost allowed: set<nat>) returns (ok: bool)
      requires Traceable() && Marking(false, allowed) && CardFollowable(Mem(), allowed, card)
      requires card.page < |pages|
      requires start == WindowStart(card.index) && end == WindowEnd(card.index, |pages[card.page].data|)
      modifies this`marks, this`queue, this`reachableBytes
      ensures Marking(false, allowed) && MarksGrow(old(marks), marks, epoch) && old(queue) <= queue
      ensures ok <==> (InWindow(Mem(), slot, card.page, start, end) ==> EntryClean(Mem(), objects[slot], card.index))
      ensures ok && InWindow(Mem(), slot, card.page, start, end) ==>
        EntrySettled(Mem(), marks, epoch, objects[slot], card.index)
    {
      if slot == 0 || slot >= |objects| || !objects[slot].state.Published? || objects[slot].page != card.page ||
         !Overlap(objects[slot].offset, objects[slot].size, start, end)
      {
        return true;
      }
      var refs := ChildrenIn(slot, start, end);
      assert refs == Children(Mem(), objects[slot], CardWords(Mem(), objects[slot], card.index));
      ok := MarkAll(refs, false, allowed);
    }

    /** The page entries a card's window can concern, one after the other. */
    method TraceEntries(card: Card, first: nat, last: nat, ghost allowed: set<nat>) returns (ok: bool)
      requires Traceable() && Marking(false, allowed) && CardFollowable(Mem(), allowed, card)
      requires IsCard(pages, card) && last <= |pages[card.page].entries|
      modifies this`marks, this`queue, this`reachableBytes
      ensures Marking(false, allowed) && MarksGrow(old(marks), marks, epoch) && old(queue) <= queue
      ensures ok ==> EntriesSettled(Mem(), marks, epoch, card, first, last)
      ensures !ok ==> exists k: nat :: first <= k < last && EntryBad(Mem(), card, pages[card.page].entries[k])
    {
      var page := pages[card.page];
      var start, end := WindowStart(card.index), WindowEnd(card.index, |page.data|);
      var index := first;
      while index < last
        invariant index == first || first <= index <= last
        invariant Marking(false, allowed)
        invariant MarksGrow(old(marks), marks, epoch) && old(queue) <= queue
        invariant index <= last ==> EntriesSettled(Mem(), marks, epoch, card, first, index)
      {
        ghost var before := marks;
        ok := TraceEntry(page.entries[index], card, start, end, allowed);
        if !ok {
          return;
        }
        EntriesSettledNext(Mem(), before, marks, epoch, card, first, index);
        index := index + 1;
      }
      ok := true;
    }

    /** One logged card of `tracePendingCards`. */
    method TraceCard(card: Card, ghost allowed: set<nat>) returns (ok: bool)
      requires Traceable() && Marking(false, allowed) && CardFollowable(Mem(), allowed, card)
      requires IsCard(pages, card)
      requires forall s: nat | OldLive(Mem(), s) :: Homed(Mem(), s, objects[s])
      requires forall s: nat | Live(Mem(), s) && objects[s].page == card.page :: OldLive(Mem(), s)
      modifies this`marks, this`queue, this`reachableBytes
      ensures Marking(false, allowed) && MarksGrow(old(marks), marks, epoch) && old(queue) <= queue
      ensures (ok <==> CardClean(Mem(), card)) && (ok ==> CardSettled(Mem(), marks, epoch, card))
    {
      var page := pages[card.page];
      var range := EntryRange(page, WindowStart(card.index), WindowEnd(card.index, |page.data|));
      ok := TraceEntries(card, range.0, range.1, allowed);
      if ok {
        CardSettledByEntries(Mem(), marks, epoch, card);
        CardSettledClean(Mem(), marks, epoch, card);
      }
    }

    /** `tracePendingCards`: the flag of a logged card is set and stays set. */
    method TracePendingCards(ghost allowed: set<nat>) returns (ok: bool)
      requires Traceable() && Marking(false, allowed) && LogExact(pages, pendingCards)
      requires forall i | 0 <= i < |pendingCards| :: CardFollowable(Mem(), allowed, pendingCards[i])
      requires forall s: nat | OldLive(Mem(), s) :: Homed(Mem(), s, objects[s])
      requires forall i, s: nat | 0 <= i < |pendingCards| && Live(Mem(), s)
        && objects[s].page == pendingCards[i].page ::
                 OldLive(Mem(), s)
      modifies this`marks, this`queue, this`reachableBytes
      ensures Marking(false, allowed) && MarksGrow(old(marks), marks, epoch) && old(queue) <= queue
      ensures ok <==> forall i | 0 <= i < |pendingCards| :: CardClean(Mem(), pendingCards[i])
      ensures ok ==> forall i | 0 <= i < |pendingCards| :: CardSettled(Mem(), marks, epoch, pendingCards[i])
    {
      hide CardFollowable, CardSettled, CardClean, Homed;
      var k := 0;
      while k < |pendingCards|
        invariant 0 <= k <= |pendingCards|
        invariant Marking(false, allowed)
        invariant MarksGrow(old(marks), marks, epoch) && old(queue) <= queue
        invariant forall i | 0 <= i < k :: CardClean(Mem(), pendingCards[i])
        invariant forall i | 0 <= i < k :: CardSettled(Mem(), marks, epoch, pendingCards[i])
      {
        var card := pendingCards[k];
        assert Flagged(pages, card);
        if card.page >= |pages| || card.index >= |pages[card.page].cards| {
          return false;
        }
        ghost var before := marks;
        ok := TraceCard(card, allowed);
        if !ok {
          return;
        }
        forall i | 0 <= i < k
          ensures CardSettled(Mem(), marks, epoch, pendingCards[i])
        {
          CardSettledStays(Mem(), before, marks, epoch, pendingCards[i]);
        }
        k := k + 1;
      }
      ok := true;
    }

    // ----- cards -----

    /** Every flagged card is logged once and the admitted capacity covers every card. */
    ghost predicate CardLog()
      reads this`pages, this`pendingCards, this`cardCapacity, this`strictLog
    {
      LogOk(pages, pendingCards, cardCapacity, strictLog)
    }

    /** One card of `markCard`: flag it and log it once. */
    method DirtyCard(card: Card) returns (ok: bool)
      requires CardLog() && IsCard(pages, card)
      modifies this`pages, this`pendingCards
      ensures ok && CardLog() && FlagsRaised(old(pages), pages) && Flagged(pages, card)
      ensures pages == SetFlag(old(pages), card, true)
    {
      ok := true;
      SetFlagAgain(pages, card);
      if !pages[card.page].cards[card.index] {
        LogHasRoom(pages, pendingCards, cardCapacity, strictLog, card);
        FlagSet(pages, pendingCards, cardCapacity, strictLog, card);
        SetFlagRaises(pages, card);
        if |pendingCards| == cardCapacity {
          return false;
        }
        pages := SetFlag(pages, card, true);
        pendingCards := pendingCards + [card];
      }
    }

    /** `markCard`: flags exactly the cards of the region, besides those that were flagged before. */
    method MarkCard(page: nat, offset: nat, size: nat) returns (ok: bool)
      requires CardLog() && page < |pages|
      requires 0 < size && offset + size <= |pages[page].data| && |pages[page].cards| == CardCount(|pages[page].data|)
      modifies this`pages, this`pendingCards
      ensures ok && CardLog() && FlagsRaised(old(pages), pages)
      ensures Covered(pages[page].cards, offset, size)
      ensures pages == old(pages)[page := old(pages[page]).(cards :=
        RaisedFrom(old(pages[page].cards), FirstCard(offset), EndCard(offset, size)))]
    {
      var first, last := offset / CARD_BYTES, (offset + size - 1) / CARD_BYTES;
      assert CardTouches(first, offset, size);
      RaisedNone(pages, page, first);
      ok := true;
      var index := first;
      while index <= last
        invariant first <= index
        invariant CardLog() && FlagsRaised(old(pages), pages)
        invariant first < index ==> Flagged(pages, Card(page, first))
        invariant index <= last + 1
        invariant pages == old(pages)[page :=
          old(pages[page]).(cards := RaisedFrom(old(pages[page].cards), first, index))]
      {
        ghost var before := pages;
        RaisedNext(old(pages)[page].cards, first, index);
        ok := DirtyCard(Card(page, index));
        if !ok {
          return;
        }
        RaisedTransitive(old(pages), before, pages);
        index := index + 1;
      }
    }

    /** One word of `markYoungReferences`. */
    method MarkYoungWord(entry: Object, word: Word, child: Ref) returns (ok: bool)
      requires CardLog() && entry.page < |pages|
      requires |pages[entry.page].cards| == CardCount(|pages[entry.page].data|)
      requires entry.offset + word.SpanEnd() <= |pages[entry.page].data|
      requires child.Null() || Resolves(Mem(), child)
      modifies this`pages, this`pendingCards
      ensures ok && CardLog() && FlagsRaised(old(pages), pages)
      ensures YoungRef(Mem(), child) ==>
        Covered(pages[entry.page].cards, entry.offset + word.SpanStart(), word.SpanSize())
    {
      if child.Null() {
        return true;
      }
      if child.slot == 0 || child.slot >= |objects| || !objects[child.slot].state.Published?
        || objects[child.slot].generation != child.generation {
        return false;
      }
      if !objects[child.slot].young {
        return true;
      }
      ok := MarkCard(entry.page, entry.offset + word.Handle(), 8);
      CoveredWider(pages[entry.page].cards, entry.offset + word.Handle(), 8, entry.offset + word.SpanStart(),
                   word.SpanSize());
    }

    method MarkYoungWords(entry: Object, words: seq<Word>, refs: seq<Ref>) returns (ok: bool)
      requires CardLog() && entry.page < |pages| && |words| == |refs|
      requires |pages[entry.page].cards| == CardCount(|pages[entry.page].data|)
      requires forall i | 0 <= i < |words| :: entry.offset + words[i].SpanEnd() <= |pages[entry.page].data|
      requires forall i | 0 <= i < |refs| :: refs[i].Null() || Resolves(Mem(), refs[i])
      modifies this`pages, this`pendingCards
      ensures ok && CardLog() && FlagsRaised(old(pages), pages)
      ensures WordsCovered(Mem(), entry, words, refs, |words|)
    {
      var k := 0;
      while k < |words|
        invariant 0 <= k <= |words|
        invariant CardLog() && FlagsRaised(old(pages), pages)
        invariant WordsCovered(Mem(), entry, words, refs, k)
      {
        ghost var before := Mem();
        ok := MarkYoungWord(entry, words[k], refs[k]);
        if !ok {
          return;
        }
        RaisedTransitive(old(pages), before.pages, pages);
        WordsCoveredStay(before, Mem(), entry, words, refs, k);
        k := k + 1;
      }
      ok := true;
    }

    /** `markYoungReferences`: afterwards this old entry is remembered. */
    method MarkYoungReferences(slot: nat) returns (ok: bool)
      requires CardLog() && AllPlaced(Mem())
      requires OldLive(Mem(), slot) && Homed(Mem(), slot, objects[slot]) && RefsOf(Mem(), slot)
      modifies this`pages, this`pendingCards
      ensures ok && CardLog() && FlagsRaised(old(pages), pages)
      ensures Placed(Mem(), objects[slot]) && Remembers(Mem(), objects[slot])
    {
      ghost var m := Mem();
      var entry := objects[slot];
      var words := AllWords(layouts[entry.layout], entry.count);
      var refs := Edges(pages[entry.page].data[entry.offset..entry.offset + entry.size], words);
      assert words == Words(m, entry) && refs == Children(m, entry, words);
      ChildrenResolve(m, slot);
      WordsInPayload(m, entry);
      ok := MarkYoungWords(entry, words, refs);
      FlagsKeepEntry(m, Mem(), entry);
      RemembersWhenCovered(Mem(), entry);
    }

    // ----- evacuation -----

    /** The list `promoteObject` takes a page from; `CLASSES` when there is none. */
    method FindClass(size: nat) returns (index: nat)
      requires Available(pages, oldAvailable)
      ensures FirstClass(oldAvailable, size, index)
    {
      index := 0;
      while index < CLASSES
        invariant 0 <= index <= CLASSES
        invariant forall j: nat | j < index && size <= ClassBytes(j) :: oldAvailable[j] == []
      {
        if ClassBytes(index) >= size && oldAvailable[index] != [] {
          return;
        }
        index := index + 1;
      }
    }

    /** Moves `slot` into the last free cell of an old page with large enough cells. */
    method MoveToCell(slot: nat, page: nat)
      requires Arranged(Mem()) && Remembered(Mem()) && Live(Mem(), slot) && objects[slot].young
      requires page < |pages| && pages[page].kind.OldPage? && pages[page].free != []
      requires objects[slot].size <= pages[page].cell
      modifies this`objects, this`pages
      ensures PromotedTo(old(Mem()), Mem(), slot, page) && OnOldPage(Mem(), slot)
      ensures Live(Mem(), slot) && !objects[slot].young
      ensures forall t: nat | t < |objects| && t != slot :: objects[t] == old(objects[t])
      ensures OnlyOldPages(old(pages), pages) && forall p: nat | p < |pages| :: pages[p].cards == old(pages)[p].cards
    {
      ghost var m := Mem();
      var entry, p := objects[slot], pages[page];
      var cell := p.free[|p.free| - 1];
      assert PageOk(p) && HomedAny(m, slot, entry);
      ElementBaseMonotone(p.cell, cell + 1, |p.entries|);
      var at := ElementBase(p.cell, cell);
      var payload := pages[entry.page].data[entry.offset..entry.offset + entry.size];
      pages := pages[page := p.(data := Write(p.data, at, payload), used := p.used + p.cell, entries :=
        p.entries[cell := slot], free := p.free[..|p.free| - 1])];
      objects := objects[slot := entry.(page := page, offset := at, young := false, age := 0)];
    }

    /** What holds before and after each step of the evacuation. */
    ghost predicate Moving()
      reads this`objects, this`pages, this`layouts, this`pendingCards, this`cardCapacity, this`strictLog, this`marks,
        this`epoch
    {
      Arranged(Mem()) && KeptRefs(Mem(), marks, epoch) && Remembered(Mem()) && CardLog()
    }

    /** The part of `promoteObject` after a cell has been found. */
    method MoveAndRemember(slot: nat, page: nat) returns (ok: bool)
      requires Moving() && Live(Mem(), slot) && objects[slot].young && marks[slot] == epoch
      requires page < |pages| && pages[page].kind.OldPage? && pages[page].free != []
      requires objects[slot].size <= pages[page].cell
      modifies this`objects, this`pages, this`pendingCards
      ensures ok && Moving() && SameGraph(old(Mem()), Mem())
      ensures !objects[slot].young && objects[slot].age == 0 && OnOldPage(Mem(), slot)
      ensures OnlyOldPages(old(pages), pages)
      ensures forall t: nat | t < |objects| && t != slot :: objects[t] == old(objects[t])
    {
      hide LogOk, SameGraph, RememberedExcept, PromotedTo, Homed, OnlyOldPages, RefsOf, Remembers, FlagsRaised;
      ghost var m := Mem();
      MoveToCell(slot, page);
      ghost var m1 := Mem();
      PromotionMoved(m, m1, slot, page, pendingCards, cardCapacity, strictLog);
      ok := MarkYoungReferences(slot);
      PromotionMarked(m, m1, Mem(), slot, marks, epoch);
    }

    /** The page `promoteObject` takes a cell from; a page that has no second one left leaves its list. */
    method PickCell(size: nat) returns (ok: bool, page: nat)
      requires Available(pages, oldAvailable)
      modifies this`oldAvailable
      ensures Available(pages, oldAvailable) && (ok <==> HasCell(pages, old(oldAvailable), size))
      ensures ok ==>
        page < |pages| && pages[page].kind.OldPage? && pages[page].free != [] && size <= pages[page].cell
    {
      var classIndex := FindClass(size);
      CellFound(pages, oldAvailable, size, classIndex);
      hide HasCell, FirstClass;
      page := 0;
      if classIndex == CLASSES {
        return false, page;
      }
      var list := oldAvailable[classIndex];
      page := list[|list| - 1];
      if |pages[page].free| <= 1 {
        oldAvailable := oldAvailable[classIndex := list[..|list| - 1]];
      }
      ok := pages[page].free != [];
    }

    /**
      * `promoteObject`: when it reports failure nothing has moved, so the fallback copy starts from an untouched
      * entry.
      */
    method PromoteObject(slot: nat) returns (ok: bool)
      requires Moving() && Available(pages, oldAvailable) && Live(Mem(), slot) && objects[slot].young
      requires marks[slot] == epoch
      modifies this`objects, this`pages, this`pendingCards, this`oldAvailable
      ensures Moving() && Available(pages, oldAvailable) && SameGraph(old(Mem()), Mem())
      ensures !ok ==> Mem() == old(Mem()) && pendingCards == old(pendingCards)
      ensures ok <==> old(HasCell(pages, oldAvailable, objects[slot].size))
      ensures ok ==> !objects[slot].young && objects[slot].age == 0 && OnOldPage(Mem(), slot)
      ensures forall t: nat | t < |objects| && t != slot :: objects[t] == old(objects[t])
      ensures OnlyOldPages(old(pages), pages)
    {
      var page;
      ok, page := PickCell(objects[slot].size);
      hide HasCell;
      if !ok {
        return;
      }
      ok := MoveAndRemember(slot, page);
    }

    /** Copies the payload to the partner page and moves the entry there. */
    method MoveToPartner(slot: nat) returns (ok: bool)
      requires Arranged(Mem()) && Live(Mem(), slot) && Paired(pages, objects[slot].page, YoungPage)
      requires var to := pages[pages[objects[slot].page].partner];
               to.used % 8 == 0 && to.used + objects[slot].size <= |to.data|
      modifies this`objects, this`pages
      ensures ok
      ensures CopiedTo(old(Mem()), Mem(), slot, old(pages[objects[slot].page].partner),
        old(pages[pages[objects[slot].page].partner].used))
    {
      var entry := objects[slot];
      var from := pages[entry.page];
      var to := pages[from.partner];
      var aligned := Align8(to.used);
      assert PageOk(to);
      if aligned + entry.size > |to.data| || entry.offset + entry.size > |from.data| {
        return false;
      }
      var payload := from.data[entry.offset..entry.offset + entry.size];
      pages := pages[from.partner := to.(data := Write(to.data, aligned, payload), used := aligned + entry.size)];
      objects := objects[slot := entry.(page := from.partner, offset := aligned, age := entry.age + 1, young := true)];
      ok := true;
    }

    /** The fallback of `copyNursery`. */
    method CopySurvivor(slot: nat) returns (ok: bool)
      requires Moving() && Live(Mem(), slot) && objects[slot].young
      requires Paired(pages, objects[slot].page, YoungPage)
      requires var to := pages[pages[objects[slot].page].partner];
               to.used % 8 == 0 && to.used + objects[slot].size <= |to.data|
      modifies this`objects, this`pages
      ensures ok && Moving() && SameGraph(old(Mem()), Mem())
      ensures CopiedTo(old(Mem()), Mem(), slot, old(pages[objects[slot].page].partner),
        old(pages[pages[objects[slot].page].partner].used))
    {
      ghost var m := Mem();
      ghost var to, at := pages[objects[slot].page].partner, pages[pages[objects[slot].page].partner].used;
      ok := MoveToPartner(slot);
      MovingAfterCopy(m, Mem(), slot, to, at, pendingCards, cardCapacity, strictLog, marks, epoch);
    }

    /** A survivor that is not promoted. */
    method EvacuateByCopy(slot: nat, ghost m0: Store, ghost c: nat) returns (ok: bool)
      requires Moving() && Available(pages, oldAvailable) && SameGraph(m0, Mem())
      requires |marks| == |m0.objects| && Distinct(youngSlots) && c < |youngSlots| && slot == youngSlots[c]
      requires Evacuating(m0, Mem(), nurseryPages, youngSlots, c, marks, epoch)
      requires Live(Mem(), slot) && objects[slot].young && objects[slot].page in nurseryPages && marks[slot] == epoch
      modifies this`objects, this`pages
      ensures ok && Moving() && Available(pages, oldAvailable) && SameGraph(m0, Mem())
      ensures Evacuating(m0, Mem(), nurseryPages, youngSlots, c + 1, marks, epoch)
      ensures objects[slot].young
    {
      ghost var m := Mem();
      CopyHasRoom(m0, m, nurseryPages, youngSlots, c, marks, epoch);
      ghost var to, at := pages[objects[slot].page].partner, pages[pages[objects[slot].page].partner].used;
      ok := CopySurvivor(slot);
      SameGraphTransitive(m0, m, Mem());
      AvailableAfterCopy(m.pages, pages, oldAvailable, to);
      CopyStep(m0, m, Mem(), nurseryPages, youngSlots, c, marks, epoch, to, at);
    }

    /** One survivor of `copyNursery`: promoted when it has survived before, otherwise copied. */
    method EvacuateOne(slot: nat, ghost m0: Store, ghost c: nat) returns (ok: bool)
      requires Moving() && Available(pages, oldAvailable) && SameGraph(m0, Mem())
      requires |marks| == |m0.objects| && Distinct(youngSlots) && c < |youngSlots| && slot == youngSlots[c]
      requires Evacuating(m0, Mem(), nurseryPages, youngSlots, c, marks, epoch)
      requires Live(Mem(), slot) && objects[slot].young && objects[slot].page in nurseryPages && marks[slot] == epoch
      modifies this`objects, this`pages, this`pendingCards, this`oldAvailable
      ensures ok && Moving() && Available(pages, oldAvailable) && SameGraph(m0, Mem())
      ensures Evacuating(m0, Mem(), nurseryPages, youngSlots, c + 1, marks, epoch)
      ensures !objects[slot].young <==> old(objects[slot].age >= 1 && HasCell(pages, oldAvailable, objects[slot].size))
    {
      hide Arranged, Remembered, LogOk, Available, KeptRefs, Evacuating, Payload;
      if objects[slot].age >= 1 {
        ghost var m := Mem();
        ok := PromoteObject(slot);
        SameGraphTransitive(m0, m, Mem());
        if ok {
          PromoteStep(m0, m, Mem(), nurseryPages, youngSlots, c, marks, epoch);
          return;
        }
      }
      ok := EvacuateByCopy(slot, m0, c);
    }

    /** First loop of `copyNursery`: the partner of each nursery page becomes empty to-space. */
    method OpenToSpace() returns (ok: bool)
      requires Moving() && Available(pages, oldAvailable) && NurseryPaired(pages, nurseryPages)
      modifies this`pages
      ensures ok && Moving() && Available(pages, oldAvailable) && SameGraph(old(Mem()), Mem())
      ensures Opening(old(pages), pages, nurseryPages, |nurseryPages|)
    {
      ghost var m := Mem();
      var i := 0;
      while i < |nurseryPages|
        invariant 0 <= i <= |nurseryPages|
        invariant Opening(m.pages, pages, nurseryPages, i)
      {
        OpeningPair(m.pages, pages, nurseryPages, i);
        var from := nurseryPages[i];
        if from >= |pages| || pages[from].partner >= |pages| {
          return false;
        }
        var to := pages[from].partner;
        OpeningNext(m.pages, pages, nurseryPages, i);
        pages := pages[to := pages[to].(kind := YoungPage, used := 0)];
        i := i + 1;
      }
      ok := true;
      OpeningKeeps(m, Mem(), nurseryPages, pendingCards, cardCapacity, strictLog, oldAvailable, marks, epoch);
    }

    /** Second loop of `copyNursery`: every marked young entry moves. */
    method EvacuateYoung() returns (ok: bool)
      requires Moving() && Available(pages, oldAvailable)
      requires |marks| == |objects| && Distinct(youngSlots)
      requires Evacuating(Mem(), Mem(), nurseryPages, youngSlots, 0, marks, epoch)
      requires forall k | 0 <= k < |youngSlots| ::
                 Live(Mem(), youngSlots[k]) && objects[youngSlots[k]].young
                   && objects[youngSlots[k]].page in nurseryPages
      modifies this`objects, this`pages, this`pendingCards, this`oldAvailable
      ensures ok && Moving() && Available(pages, oldAvailable) && SameGraph(old(Mem()), Mem())
      ensures Evacuating(old(Mem()), Mem(), nurseryPages, youngSlots, |youngSlots|, marks, epoch)
    {
      hide Evacuating, Remembered, LogOk, Available, KeptRefs;
      ghost var m0 := Mem();
      SameGraphReflexive(m0);
      var cursor := 0;
      while cursor < |youngSlots|
        invariant 0 <= cursor <= |youngSlots|
        invariant Moving() && Available(pages, oldAvailable) && SameGraph(m0, Mem())
        invariant Evacuating(m0, Mem(), nurseryPages, youngSlots, cursor, marks, epoch)
      {
        var slot := youngSlots[cursor];
        EvacuatingNext(m0, Mem(), nurseryPages, youngSlots, cursor, marks, epoch);
        if marks[slot] != epoch {
          SkipStep(m0, Mem(), nurseryPages, youngSlots, cursor, marks, epoch);
        } else {
          ok := EvacuateOne(slot, m0, cursor);
          if !ok {
            return;
          }
        }
        cursor := cursor + 1;
      }
      ok := true;
    }

    // ----- releasing entries -----

    ghost predicate Vectors()
      reads this`objects, this`pages, this`layouts, this`occupied, this`occupiedIndex, this`youngSlots, this`youngIndex
    {
      Listed(Mem(), occupied, occupiedIndex, youngSlots, youngIndex)
    }

    ghost predicate Accounted()
      reads this`objects, this`occupiedBytes, this`controlBytes
    {
      occupiedBytes == controlBytes + LiveBytes(objects)
    }

    /** The list a cell size belongs to. */
    method ClassOf(cell: nat) returns (index: nat)
      requires exists k: nat :: k < CLASSES && cell == ClassBytes(k)
      ensures index < CLASSES && cell == ClassBytes(index)
    {
      index := 0;
      while ClassBytes(index) != cell
        invariant index < CLASSES
        invariant exists k: nat :: index <= k < CLASSES && cell == ClassBytes(k)
        decreases CLASSES - index
      {
        index := index + 1;
      }
    }

    /** Gives an old entry's cell back to its page. */
    method ReleaseCell(slot: nat)
      requires Arranged(Mem()) && CanVacate(Mem(), slot) && !objects[slot].young && Available(pages, oldAvailable)
      modifies this`pages, this`oldAvailable
      ensures pages == old(pages)[objects[slot].page := Vacated(old(pages)[objects[slot].page], objects[slot])]
      ensures Available(pages, oldAvailable)
    {
      var entry := objects[slot];
      var page := pages[entry.page];
      assert PageOk(page) && HomedAny(Mem(), slot, entry);
      if page.kind.OldPage? {
        var cell := CellOf(page, entry);
        if page.free == [] {
          var list := ClassOf(page.cell);
          oldAvailable := oldAvailable[list := oldAvailable[list] + [entry.page]];
        }
        pages := pages[entry.page :=
          page.(entries := page.entries[cell := 0], free := page.free + [cell], used := page.used - page.cell)];
      } else {
        pages := pages[entry.page := page.(entries := [0], used := 0)];
      }
    }

    /** Removes a slot from `occupied`, and from `youngSlots` when it is young, by swapping in the last one. */
    method Unlist(slot: nat)
      requires Vectors() && Live(Mem(), slot) && (slot in youngSlots ==> objects[slot].young)
      modifies this`occupied, this`occupiedIndex, this`youngSlots, this`youngIndex
      ensures Listed(Mem().(objects := objects[slot := objects[slot].(state := Free, logical := 0)]), occupied,
        occupiedIndex, youngSlots, youngIndex)
      ensures youngSlots == (if objects[slot].young then SwapDelete(old(youngSlots), old(youngIndex)[slot])
        else old(youngSlots))
    {
      var index := occupiedIndex[slot];
      assert slot in occupied;
      SwapDeleteRemoves(occupied, occupiedIndex, index);
      occupiedIndex := occupiedIndex[occupied[|occupied| - 1] := index];
      occupied := SwapDelete(occupied, index);
      if objects[slot].young {
        index := youngIndex[slot];
        SwapDeleteRemoves(youngSlots, youngIndex, index);
        youngIndex := youngIndex[youngSlots[|youngSlots| - 1] := index];
        youngSlots := SwapDelete(youngSlots, index);
      }
    }

    /** Marks the entry free and releases its storage. */
    method ReleaseEntry(slot: nat)
      requires Arranged(Mem()) && Available(pages, oldAvailable) && Live(Mem(), slot) && CanVacate(Mem(), slot)
      modifies this`objects, this`pages, this`oldAvailable
      ensures Mem() == Freed(old(Mem()), slot) && Available(pages, oldAvailable)
    {
      var entry := objects[slot];
      if !entry.young {
        ReleaseCell(slot);
      }
      objects := objects[slot := entry.(state := Free, logical := 0)];
    }

    /** Takes the slot off the vectors and releases the entry. */
    method Withdraw(slot: nat)
      requires Arranged(Mem()) && Vectors() && Available(pages, oldAvailable)
      requires Live(Mem(), slot) && (slot in youngSlots ==> objects[slot].young)
      modifies this`objects, this`pages, this`oldAvailable, this`occupied, this`occupiedIndex, this`youngSlots,
        this`youngIndex
      ensures CanVacate(old(Mem()), slot) && Mem() == Freed(old(Mem()), slot)
      ensures Arranged(Mem()) && Vectors() && Available(pages, oldAvailable)
      ensures youngSlots == (if old(objects[slot].young) then SwapDelete(old(youngSlots), old(youngIndex)[slot])
        else old(youngSlots))
    {
      ghost var m := Mem();
      HomedCanVacate(m, slot);
      FreeKeepsArranged(m, slot);
      Unlist(slot);
      ListedDirectoryOnly(m.(objects := Freed(m, slot).objects), Freed(m, slot), occupied, occupiedIndex, youngSlots,
                          youngIndex);
      ReleaseEntry(slot);
    }

    /** `freeObject` of a published entry. A slot whose generation is exhausted is never listed as free again. */
    method FreeObject(slot: nat)
      requires Arranged(Mem()) && Vectors() && Accounted() && Available(pages, oldAvailable)
      requires Live(Mem(), slot) && (slot in youngSlots ==> objects[slot].young)
      modifies this`objects, this`pages, this`oldAvailable, this`occupied, this`occupiedIndex, this`youngSlots,
        this`youngIndex
      modifies this`freeSlots, this`occupiedBytes
      ensures CanVacate(old(Mem()), slot) && Mem() == Freed(old(Mem()), slot)
      ensures Arranged(Mem()) && Vectors() && Accounted() && Available(pages, oldAvailable)
      ensures occupiedBytes + old(objects[slot].logical) == old(occupiedBytes)
      ensures freeSlots == old(freeSlots) + (if old(objects[slot].generation) != MAX_U32 then [slot] else [])
      ensures youngSlots == (if old(objects[slot].young) then SwapDelete(old(youngSlots), old(youngIndex)[slot])
        else old(youngSlots))
    {
      var entry := objects[slot];
      LiveBytesAtLeast(objects, slot);
      LiveBytesUpdate(objects, slot, entry.(state := Free, logical := 0));
      Withdraw(slot);
      occupiedBytes := occupiedBytes - entry.logical;
      if entry.generation != MAX_U32 {
        freeSlots := freeSlots + [slot];
      }
    }

    /** `removeYoungSlot` of a promoted entry. */
    method RemoveYoungSlot(slot: nat)
      requires Vectors() && slot in youngSlots && !objects[slot].young
      modifies this`youngSlots, this`youngIndex
      ensures Vectors() && youngSlots == SwapDelete(old(youngSlots), old(youngIndex)[slot])
    {
      var index := youngIndex[slot];
      if index >= |youngSlots| || youngSlots[index] != slot {
        return;
      }
      SwapDeleteRemoves(youngSlots, youngIndex, index);
      youngIndex := youngIndex[youngSlots[|youngSlots| - 1] := index];
      youngSlots := SwapDelete(youngSlots, index);
    }

    /** One step of the last loop of `copyNursery`, at a slot that does not stay listed as young. */
    method RemoveOne(index: nat, ghost m: Store)
      requires Arranged(Mem()) && Vectors() && Accounted() && Available(pages, oldAvailable)
      requires |marks| == |objects| == |m.objects| && Culled(m, Mem(), marks, epoch)
      requires index < |youngSlots| && !(objects[youngSlots[index]].young && marks[youngSlots[index]] == epoch)
      requires KeptYoung(Mem(), marks, epoch, youngSlots[..index])
      modifies this`objects, this`pages, this`oldAvailable, this`occupied, this`occupiedIndex, this`youngSlots,
        this`youngIndex
      modifies this`freeSlots, this`occupiedBytes, this`reclaimedBytes
      ensures Arranged(Mem()) && Vectors() && Accounted() && Available(pages, oldAvailable)
      ensures |youngSlots| == |old(youngSlots)| - 1
      ensures |marks| == |objects| && KeptYoung(Mem(), marks, epoch, youngSlots[..index])
      ensures occupiedBytes + reclaimedBytes == old(occupiedBytes + reclaimedBytes)
      ensures Culled(m, Mem(), marks, epoch)
    {
      hide Arranged, Culled, KeptYoung, Available, PageOk, Freed;
      var slot := youngSlots[index];
      ghost var before := Mem();
      IndexedDistinct(youngSlots, youngIndex);
      ghost var kept := youngSlots[..index];
      assert slot !in kept;
      if !objects[slot].young {
        RemoveYoungSlot(slot);
      } else {
        reclaimedBytes := reclaimedBytes + objects[slot].logical;
        FreeObject(slot);
        CulledNext(m, before, marks, epoch, slot);
        KeptAfterFree(before, marks, epoch, kept, slot);
      }
      assert youngSlots[..index] == kept;
    }

    /** Last loop of `copyNursery`: unmarked young entries are freed, promoted ones leave the young vector. */
    method RemoveDead()
      requires Arranged(Mem()) && Vectors() && Accounted() && Available(pages, oldAvailable) && |marks| == |objects|
      modifies this`objects, this`pages, this`oldAvailable, this`occupied, this`occupiedIndex, this`youngSlots,
        this`youngIndex
      modifies this`freeSlots, this`occupiedBytes, this`reclaimedBytes
      ensures Arranged(Mem()) && Vectors() && Accounted() && Available(pages, oldAvailable)
      ensures Culled(old(Mem()), Mem(), marks, epoch)
      ensures |marks| == |objects| && KeptYoung(Mem(), marks, epoch, youngSlots)
      ensures occupiedBytes + reclaimedBytes == old(occupiedBytes + reclaimedBytes)
    {
      hide Arranged, Accounted, Available, Placed, Payload, CanVacate;
      ghost var m := Mem();
      var index := 0;
      while index < |youngSlots|
        invariant 0 <= index <= |youngSlots| && |marks| == |objects|
        invariant Arranged(Mem()) && Vectors() && Accounted() && Available(pages, oldAvailable)
        invariant Culled(m, Mem(), marks, epoch) && KeptYoung(Mem(), marks, epoch, youngSlots[..index])
        invariant occupiedBytes + reclaimedBytes == old(occupiedBytes + reclaimedBytes)
        decreases |youngSlots| - index
      {
        var slot := youngSlots[index];
        if objects[slot].young && marks[slot] == epoch {
          assert youngSlots[..index + 1] == youngSlots[..index] + [slot];
          index := index + 1;
        } else {
          RemoveOne(index, m);
        }
      }
      assert youngSlots[..index] == youngSlots;
    }

    /** Third loop of `copyNursery`: from-pages become the spares of their partners. */
    method CloseFromSpace()
      requires Arranged(Mem()) && Remembered(Mem()) && CardLog() && Available(pages, oldAvailable)
      requires NurseryOpen(pages, nurseryPages)
      requires forall s: nat | Live(Mem(), s) && objects[s].young :: objects[s].page !in nurseryPages
      modifies this`pages, this`nurseryPages
      ensures Arranged(Mem()) && Remembered(Mem()) && CardLog() && Available(pages, oldAvailable)
      ensures NurseryPaired(pages, nurseryPages) && SameGraph(old(Mem()), Mem())
      ensures SameSizes(old(pages), pages)
      ensures forall p: nat | p < |pages| && old(pages)[p].kind.OldPage? :: pages[p].kind.OldPage?
    {
      hide Remembered, LogOk, SameGraph, Payload, PageOk, HomedAny;
      ghost var m, n0 := Mem(), nurseryPages;
      var i := 0;
      while i < |nurseryPages|
        invariant 0 <= i <= |n0| == |nurseryPages|
        invariant Closing(m.pages, pages, n0, nurseryPages, i)
      {
        ClosingNext(m.pages, pages, n0, nurseryPages, i);
        var from := nurseryPages[i];
        var to := pages[from].partner;
        nurseryPages := nurseryPages[i := to];
        assert pages[to := pages[to].(partner := from)] == pages;
        pages := pages[to := pages[to].(partner := from)][from := pages[from].(kind := SparePage, used := 0)];
        i := i + 1;
      }
      ClosingKeeps(m, Mem(), n0, nurseryPages, pendingCards, cardCapacity, strictLog, oldAvailable);
    }

    /** The nursery and the slot vectors between two collections. */
    ghost predicate Settledown()
      reads this`objects, this`pages, this`layouts, this`occupied, this`occupiedIndex, this`youngSlots, this`youngIndex
      reads this`nurseryPages, this`oldAvailable, this`pendingCards, this`cardCapacity, this`strictLog,
        this`occupiedBytes, this`controlBytes
    {
      && Arranged(Mem()) && Remembered(Mem()) && CardLog() && Available(pages, oldAvailable)
      && NurseryPaired(pages, nurseryPages) && Vectors() && Accounted()
      && (forall i | 0 <= i < |youngSlots| :: objects[youngSlots[i]].young)
    }

    /** The first loop of `copyNursery`, and that the evacuation can start. */
    method StartEvacuation() returns (ok: bool)
      requires Settledown() && KeptRefs(Mem(), marks, epoch)
      modifies this`pages
      ensures ok && Moving() && Available(pages, oldAvailable) && Distinct(youngSlots)
      ensures SameGraph(old(Mem()), Mem()) && SameSizes(old(pages), pages)
      ensures Evacuating(Mem(), Mem(), nurseryPages, youngSlots, 0, marks, epoch)
      ensures forall k | 0 <= k < |youngSlots| ::
                Live(Mem(), youngSlots[k]) && objects[youngSlots[k]].young
                  && objects[youngSlots[k]].page in nurseryPages
    {
      ghost var m := Mem();
      IndexedDistinct(youngSlots, youngIndex);
      ok := OpenToSpace();
      EvacuationStarts(m, Mem(), nurseryPages, youngSlots, marks, epoch);
    }

    /** The first two loops of `copyNursery`; `m0` is the store between them. */
    method MoveSurvivors() returns (ok: bool, ghost m0: Store)
      requires Settledown() && KeptRefs(Mem(), marks, epoch)
      modifies this`objects, this`pages, this`pendingCards, this`oldAvailable
      ensures ok && Moving() && Available(pages, oldAvailable) && Vectors() && Accounted()
      ensures m0 == old(Mem()).(pages := m0.pages) && SameGraph(old(Mem()), m0) && SameGraph(m0, Mem())
      ensures |marks| == |objects| == |m0.objects| && SameSizes(old(pages), m0.pages)
      ensures Evacuating(m0, Mem(), nurseryPages, youngSlots, |youngSlots|, marks, epoch)
    {
      hide Arranged, Remembered, LogOk, Evacuating, Available, Listed, SameGraph, NurseryPaired;
      ghost var m := Mem();
      ok := StartEvacuation();
      m0 := Mem();
      if !ok {
        return;
      }
      ok := EvacuateYoung();
      DirectoryAfterMoves(m, m0, Mem(), occupied, occupiedIndex, nurseryPages, youngSlots, youngIndex, marks, epoch);
    }

    /** The last loop of `copyNursery`, and that it leaves nothing live on a from-page. */
    method DropEntries(ghost m0: Store)
      requires Moving() && Available(pages, oldAvailable) && Vectors() && Accounted()
      requires |marks| == |objects| == |m0.objects|
      requires Evacuating(m0, Mem(), nurseryPages, youngSlots, |youngSlots|, marks, epoch)
      modifies this`objects, this`pages, this`oldAvailable
      modifies this`occupied, this`occupiedIndex, this`youngSlots, this`youngIndex, this`freeSlots, this`occupiedBytes,
        this`reclaimedBytes
      ensures Arranged(Mem()) && Remembered(Mem()) && CardLog() && Available(pages, oldAvailable) && Vectors()
      ensures Accounted()
      ensures |marks| == |objects| && Culled(old(Mem()), Mem(), marks, epoch)
      ensures KeptYoung(Mem(), marks, epoch, youngSlots)
      ensures forall s: nat | Live(Mem(), s) && objects[s].young :: objects[s].page !in nurseryPages
      ensures occupiedBytes + reclaimedBytes == old(occupiedBytes + reclaimedBytes)
    {
      ghost var m1, young := Mem(), youngSlots;
      RemoveDead();
      CulledSubGraph(m1, Mem(), marks, epoch);
      CulledKeepsRemembered(m1, Mem());
      LeftFromSpace(m0, m1, Mem(), nurseryPages, young, youngSlots, marks, epoch);
    }

    /** The last two loops of `copyNursery`. They touch different fields, so their order does not matter. */
    method DropDead(ghost m0: Store)
      requires Moving() && Available(pages, oldAvailable) && Vectors() && Accounted()
      requires |marks| == |objects| == |m0.objects|
      requires Evacuating(m0, Mem(), nurseryPages, youngSlots, |youngSlots|, marks, epoch)
      modifies this`objects, this`pages, this`oldAvailable, this`nurseryPages
      modifies this`occupied, this`occupiedIndex, this`youngSlots, this`youngIndex, this`freeSlots, this`occupiedBytes,
        this`reclaimedBytes
      ensures Settledown() && |marks| == |objects|
      ensures DroppedFrom(old(Mem()), Mem(), marks, epoch)
      ensures occupiedBytes + reclaimedBytes == old(occupiedBytes + reclaimedBytes)
    {
      ghost var m1 := Mem();
      DropEntries(m0);
      ghost var m2 := Mem();
      CloseFromSpace();
      ListedAfterMoves(m2, Mem(), occupied, occupiedIndex, youngSlots, youngIndex);
      DroppedBy(m1, m2, Mem(), youngSlots, marks, epoch);
    }

    /** `copyNursery`: unmarked young entries are gone, everything else keeps its identity and bytes. */
    method CopyNursery() returns (ok: bool)
      requires Settledown() && KeptRefs(Mem(), marks, epoch)
      modifies this`objects, this`pages, this`pendingCards, this`oldAvailable, this`nurseryPages
      modifies this`occupied, this`occupiedIndex, this`youngSlots, this`youngIndex, this`freeSlots, this`occupiedBytes,
        this`reclaimedBytes
      ensures ok && Settledown() && |marks| == |objects|
      ensures Evacuated(old(Mem()), Mem(), marks, epoch)
      ensures occupiedBytes + reclaimedBytes == old(occupiedBytes + reclaimedBytes)
    {
      hide Arranged, Remembered, LogOk, Available, NurseryPaired, Listed, Accounted, KeptRefs, SameGraph, Evacuating,
        Payload;
      ghost var m, young, nursery := Mem(), youngSlots, nurseryPages;
      YoungAreListed(m, occupied, occupiedIndex, youngSlots, youngIndex);
      ghost var m0;
      ok, m0 := MoveSurvivors();
      if !ok {
        return;
      }
      ghost var m1 := Mem();
      DropDead(m0);
      EvacuatedBy(m, m0, m1, Mem(), nursery, young, marks, epoch);
    }

    // ----- refreshing and rebuilding cards -----

    /** `cardHasYoung` for one page entry. */
    method EntryHasYoung(slot: nat, card: Card) returns (keep: bool)
      requires AllPlaced(Mem()) && IsCard(pages, card)
      ensures keep <==> EntryAtKeeps(Mem(), card, slot)
    {
      var start, end := WindowStart(card.index), WindowEnd(card.index, |pages[card.page].data|);
      if slot == 0 || slot >= |objects| || !objects[slot].state.Published? || objects[slot].page != card.page ||
         !Overlap(objects[slot].offset, objects[slot].size, start, end)
      {
        return false;
      }
      var refs := ChildrenIn(slot, start, end);
      assert refs == Children(Mem(), objects[slot], CardWords(Mem(), objects[slot], card.index));
      keep := false;
      var k := 0;
      while k < |refs|
        invariant 0 <= k <= |refs|
        invariant keep <==> exists i :: 0 <= i < k && YoungRef(Mem(), refs[i])
      {
        var r := refs[k];
        keep := keep || (0 < r.slot < |objects| && objects[r.slot].state.Published? && objects[r.slot].young);
        k := k + 1;
      }
    }

    method AnyEntryHasYoung(card: Card, first: nat, last: nat) returns (keep: bool)
      requires AllPlaced(Mem()) && IsCard(pages, card) && last <= |pages[card.page].entries|
      ensures keep <==> EntriesKeep(Mem(), card, first, last)
    {
      keep := false;
      var index := first;
      while index < last
        invariant index == first || first <= index <= last
        invariant index <= last ==> (keep <==> EntriesKeep(Mem(), card, first, index))
        invariant last < index ==> !keep
      {
        var more := EntryHasYoung(pages[card.page].entries[index], card);
        keep := keep || more;
        index := index + 1;
      }
    }

    /** One card of `refreshPendingCards`: does it still hold a young reference? */
    method CardHasYoung(card: Card) returns (keep: bool)
      requires Arranged(Mem()) && IsCard(pages, card)
      ensures keep <==> CardKeeps(Mem(), card)
    {
      var page := pages[card.page];
      var range := EntryRange(page, WindowStart(card.index), WindowEnd(card.index, |page.data|));
      CardKeepsByEntries(Mem(), card);
      keep := AnyEntryHasYoung(card, range.0, range.1);
    }

    /** One card of `refreshPendingCards`: kept while one of its entries refers to a young one. */
    method RefreshCard(k: nat, kept: seq<Card>, ghost m0: Store, ghost log: seq<Card>) returns (after: seq<Card>)
      requires Arranged(m0) && LogExact(m0.pages, log) && Distinct(log) && pendingCards == log && k < |log|
      requires m0 == Mem().(pages := m0.pages) && Refreshing(m0, pages, log, kept, k)
      modifies this`pages
      ensures Refreshing(m0, pages, log, after, k + 1)
    {
      assert AllPlaced(m0);
      var card := pendingCards[k];
      assert Flagged(m0.pages, card);
      FlagsKeepCardKeeps(m0, Mem(), card);
      FlagsKeepArranged(m0, Mem());
      hide Arranged, LogExact;
      var keep := CardHasYoung(card);
      if keep {
        RefreshKeep(m0, pages, log, kept, k);
        after := kept + [card];
      } else {
        RefreshClear(m0, pages, log, kept, k);
        pages := SetFlag(pages, card, false);
        after := kept;
      }
    }

    /** `refreshPendingCards`: exactly the cards with young references stay dirty and logged. */
    method RefreshPendingCards()
      requires Arranged(Mem()) && CardLog() && strictLog
      modifies this`pages, this`pendingCards
      ensures Arranged(Mem()) && CardLog() && FlagsOnly(old(pages), pages)
      ensures old(Remembered(Mem()) && CardsAddressable(Mem())) ==> Remembered(Mem())
      ensures forall c :: Flagged(pages, c) <==> Flagged(old(pages), c) && CardKeeps(old(Mem()), c)
    {
      ghost var m0, log := Mem(), pendingCards;
      var kept := [];
      var k := 0;
      StrictIsExact(pages, log, cardCapacity);
      assert AllPlaced(m0) && Distinct(log);
      RefreshStart(m0, log);
      hide Arranged, Remembered, CardsAddressable, LogOk, LogExact, CardKeeps, Refreshing;
      while k < |pendingCards|
        invariant 0 <= k <= |log| && pendingCards == log && m0 == Mem().(pages := m0.pages)
        invariant Refreshing(m0, pages, log, kept, k)
      {
        kept := RefreshCard(k, kept, m0, log);
        k := k + 1;
      }
      pendingCards := kept;
      RefreshEnd(m0, Mem(), log, kept, cardCapacity);
    }

    // ----- the sweep of a major collection -----

    /** One worker of the partition: a chunk of the `occupied` vector. */
    method PartitionChunk(start: nat, end: nat)
      requires start <= end <= |occupied| == |queue| && |marks| == |objects| && Vectors()
      requires PartitionOf(Mem(), marks, epoch, occupied, queue, start)
      modifies this`queue
      ensures |queue| == |occupied| && PartitionOf(Mem(), marks, epoch, occupied, queue, end)
    {
      var index := start;
      while index < end
        invariant start <= index <= end && |queue| == |occupied|
        invariant PartitionOf(Mem(), marks, epoch, occupied, queue, index)
      {
        var slot := occupied[index];
        var entry := objects[slot];
        if entry.state.Published? && !entry.young && marks[slot] != epoch {
          queue := queue[index := slot];
        } else {
          queue := queue[index := 0];
        }
        index := index + 1;
      }
    }

    /** How many workers share the partition. */
    method SweepWorkers() returns (workers: nat)
      ensures 1 <= workers <= 4
    {
      workers := 1;
      if collectorWorkers > 1 && |occupied| >= 256 {
        workers := Min(Min(collectorWorkers, 4), (|occupied| + 127) / 128);
      }
    }

    /** The chunks cover the vector whatever the number of workers is, so the partition does not depend on it. */
    method PartitionDead()
      requires |marks| == |objects| && Vectors() && |occupied| <= queueCapacity
      modifies this`queue
      ensures |queue| == |occupied| && PartitionOf(Mem(), marks, epoch, occupied, queue, |occupied|)
    {
      var count := |occupied|;
      queue := seq(count, i => 0);
      var workers := SweepWorkers();
      var chunk := (count + workers - 1) / workers;
      ChunksCover(count, workers);
      var worker, start := 0, 0;
      while worker < workers
        invariant 0 <= worker <= workers && start == ElementBase(chunk, worker) && |queue| == count
        invariant PartitionOf(Mem(), marks, epoch, occupied, queue, Min(start, count))
      {
        PartitionChunk(Min(start, count), Min(start + chunk, count));
        worker, start := worker + 1, start + chunk;
      }
    }

    /** Frees one dead old entry. */
    method SweepOne(slot: nat)
      requires Settledown() && OldLive(Mem(), slot)
      modifies this`objects, this`pages, this`oldAvailable, this`occupied, this`occupiedIndex, this`youngSlots,
        this`youngIndex
      modifies this`freeSlots, this`occupiedBytes, this`reclaimedBytes
      ensures Settledown() && CanVacate(old(Mem()), slot) && Mem() == Freed(old(Mem()), slot)
      ensures occupiedBytes + reclaimedBytes == old(occupiedBytes + reclaimedBytes)
    {
      hide Remembered, LogOk, NurseryPaired, Arranged, Available, SubGraph, CellsReleased;
      ghost var m := Mem();
      assert slot !in youngSlots;
      reclaimedBytes := reclaimedBytes + objects[slot].logical;
      FreeObject(slot);
      SweepKeeps(m, slot, pendingCards, cardCapacity, strictLog, nurseryPages);
    }

    /** `sweepOldParallel`: exactly the unmarked old entries are freed. */
    method SweepOld() returns (ok: bool)
      requires Settledown() && |marks| == |objects| && |occupied| <= queueCapacity
      modifies this`objects, this`pages, this`oldAvailable, this`occupied, this`occupiedIndex, this`youngSlots,
        this`youngIndex
      modifies this`freeSlots, this`occupiedBytes, this`reclaimedBytes, this`queue
      ensures ok && Settledown() && |objects| == |marks|
      ensures Swept(old(Mem()), Mem(), DeadOld(old(Mem()), marks, epoch))
      ensures occupiedBytes + reclaimedBytes == old(occupiedBytes + reclaimedBytes)
    {
      hide Remembered, LogOk, NurseryPaired, Arranged, Available, Swept, Listed;
      ghost var m, listed := Mem(), occupied;
      ListedFacts(m, occupied, occupiedIndex, youngSlots, youngIndex);
      PartitionDead();
      ghost var dead, gone: set<nat> := queue, {};
      var index := 0;
      SweptStart(m);
      while index < |queue|
        invariant 0 <= index <= |queue| == |listed| && queue == dead
        invariant Settledown() && Swept(m, Mem(), gone) && |objects| == |marks|
        invariant gone == DeadBefore(m, marks, epoch, listed, index)
        invariant occupiedBytes + reclaimedBytes == old(occupiedBytes + reclaimedBytes)
      {
        var slot := queue[index];
        ghost var before := Mem();
        DeadBeforeNext(m, marks, epoch, listed, index);
        if slot != 0 {
          NextDead(m, before, marks, epoch, listed, queue, gone, index);
          if slot >= |objects| || !objects[slot].state.Published? {
            return false;
          }
          SweepOne(slot);
          SweptNext(m, before, gone, slot);
          gone := gone + {slot};
        }
        index := index + 1;
      }
      ok := true;
      DeadBeforeAll(m, marks, epoch, listed);
    }

    // ----- empty pages and card tables of a major collection -----

    /** Drops a page from one list of pages with room. */
    method FilterOut(list: seq<nat>, id: nat) returns (kept: seq<nat>)
      ensures kept == Without(list, id)
    {
      kept := [];
      var k := 0;
      while k < |list|
        invariant 0 <= k <= |list| && kept == Without(list[..k], id)
      {
        assert list[..k + 1][..k] == list[..k];
        if list[k] != id {
          kept := kept + [list[k]];
        }
        k := k + 1;
      }
      assert list[..k] == list;
    }

    method DropFromLists(id: nat)
      modifies this`oldAvailable
      ensures |oldAvailable| == |old(oldAvailable)|
      ensures forall k | 0 <= k < |oldAvailable| :: oldAvailable[k] == Without(old(oldAvailable)[k], id)
    {
      ghost var lists := oldAvailable;
      var index := 0;
      while index < |oldAvailable|
        invariant 0 <= index <= |oldAvailable| == |lists|
        invariant forall k | 0 <= k < index :: oldAvailable[k] == Without(lists[k], id)
        invariant forall k | index <= k < |lists| :: oldAvailable[k] == lists[k]
      {
        var kept := FilterOut(oldAvailable[index], id);
        oldAvailable := oldAvailable[index := kept];
        index := index + 1;
      }
    }

    /** One page of `reclaimEmptyPages`; one empty page of each cell size is kept. */
    method ReclaimPage(id: nat)
      requires Settledown() && !strictLog && id < |pages|
      modifies this`pages, this`oldAvailable, this`freePages
      ensures Settledown() && SameGraph(old(Mem()), Mem()) && HomesKeepSize(old(Mem()), Mem())
      ensures |oldAvailable| == |old(oldAvailable)| && old(freePages) <= freePages
      ensures forall k | 0 <= k < |oldAvailable| :: |oldAvailable[k]| <= |old(oldAvailable)[k]|
      ensures if old(Unused(pages[id]) && !InReserve(pages[id], oldAvailable))
              then pages == old(pages)[id := Emptied(old(pages[id]))] && id in freePages
              else pages == old(pages)
    {
      var page := pages[id];
      SameGraphReflexive(Mem());
      assert page.kind.OldPage? ==> exists k: nat :: k < CLASSES && page.cell == ClassBytes(k) by {
        assert PageOk(page);
      }
      hide Arranged, Remembered, LogOk, NurseryPaired, Listed, InReserve, SameGraph, PageOk;
      if page.used != 0 || !(page.kind.OldPage? || page.kind.LargePage?) {
        return;
      }
      if page.kind.OldPage? {
        var list := ClassOf(page.cell);
        ReserveOfClass(page, oldAvailable, list);
        if |oldAvailable[list]| <= 1 {
          return;
        }
      } else {
        LargeNotReserved(page, oldAvailable);
      }
      GiveBack(id);
    }

    /** An unused page leaves the lists and becomes a free directory page. */
    method GiveBack(id: nat)
      requires Settledown() && !strictLog && id < |pages| && Unused(pages[id])
      modifies this`pages, this`oldAvailable, this`freePages
      ensures Settledown() && SameGraph(old(Mem()), Mem()) && HomesKeepSize(old(Mem()), Mem())
      ensures |oldAvailable| == |old(oldAvailable)|
      ensures forall k | 0 <= k < |oldAvailable| :: oldAvailable[k] == Without(old(oldAvailable)[k], id)
      ensures forall k | 0 <= k < |oldAvailable| :: |oldAvailable[k]| <= |old(oldAvailable)[k]|
      ensures pages == old(pages)[id := Emptied(old(pages[id]))] && freePages == old(freePages) + [id]
    {
      hide Remembered, LogOk, NurseryPaired, Listed;
      ghost var m, lists := Mem(), oldAvailable;
      DropFromLists(id);
      forall k | 0 <= k < |lists|
        ensures |oldAvailable[k]| <= |lists[k]|
      {
        WithoutShorter(lists[k], id);
      }
      pages := pages[id := Emptied(pages[id])];
      freePages := freePages + [id];
      ReclaimKeeps(m, Mem(), id, pendingCards, cardCapacity, nurseryPages);
      ReclaimKeepsAvailable(m.pages, id, lists, oldAvailable);
      ListedDirectoryOnly(m, Mem(), occupied, occupiedIndex, youngSlots, youngIndex);
    }

    /** `reclaimEmptyPages`: exactly the unused pages go, but for a reserve; no live entry is on them. */
    method ReclaimEmptyPages()
      requires Settledown() && !strictLog
      modifies this`pages, this`oldAvailable, this`freePages
      ensures Settledown() && SameGraph(old(Mem()), Mem()) && HomesKeepSize(old(Mem()), Mem())
      ensures GivenBack(old(pages), pages, oldAvailable, freePages, |pages|)
    {
      hide Arranged, Remembered, LogOk, NurseryPaired, Listed, Available, SameGraph, GivenBack, InReserve;
      NothingGivenBack(pages, oldAvailable, freePages);
      ghost var m := Mem();
      ArrangedSame(m);
      var id := 0;
      while id < |pages|
        invariant 0 <= id <= |pages| == |m.pages| && GivenBack(m.pages, pages, oldAvailable, freePages, id)
        invariant Settledown() && SameGraph(m, Mem()) && HomesKeepSize(m, Mem())
      {
        ghost var before, lists, free := Mem(), oldAvailable, freePages;
        ReclaimPage(id);
        GivenBackNext(m.pages, before.pages, pages, lists, oldAvailable, free, freePages, id);
        SameGraphTransitive(m, before, Mem());
        HomesKeepSizeTransitive(m, before, Mem());
        id := id + 1;
      }
    }

    /** `resetCards`: every card is clean and the log is empty. */
    method ResetCards()
      requires CardLog()
      modifies this`pages, this`pendingCards, this`strictLog
      ensures FlagsOnly(old(pages), pages) && strictLog && CardLog()
      ensures pendingCards == [] && CardsClean(pages, |pages|)
    {
      ghost var before, log, strict := pages, pendingCards, strictLog;
      pendingCards := [];
      var id := 0;
      while id < |pages|
        invariant 0 <= id <= |pages| && pendingCards == []
        invariant FlagsOnly(before, pages) && CardsClean(pages, id)
      {
        var page := pages[id];
        pages := pages[id := page.(cards := seq(|page.cards|, i => false))];
        id := id + 1;
      }
      CleanLog(before, pages, log, cardCapacity, strict);
      strictLog := true;
    }

    /** `rebuildYoungCards`: the remembered set is built again from the old entries. */
    method RebuildYoungCards() returns (ok: bool)
      requires Arranged(Mem()) && CardLog() && Vectors()
      requires forall s: nat | Live(Mem(), s) :: RefsOf(Mem(), s)
      modifies this`pages, this`pendingCards
      ensures ok && FlagsOnly(old(pages), pages)
      ensures Arranged(Mem()) && Remembered(Mem()) && CardLog() && Vectors()
    {
      ghost var m := Mem();
      ListedFacts(m, occupied, occupiedIndex, youngSlots, youngIndex);
      var k := 0;
      while k < |occupied|
        invariant 0 <= k <= |occupied|
        invariant FlagsOnly(m.pages, pages) && Arranged(Mem()) && CardLog()
        invariant RememberedListed(Mem(), occupied, k)
      {
        ok := RebuildOne(occupied[k], m, k);
        if !ok {
          return;
        }
        k := k + 1;
      }
      ok := true;
      AllListedRemembered(Mem(), occupied);
      ListedDirectoryOnly(m, Mem(), occupied, occupiedIndex, youngSlots, youngIndex);
    }

    method RebuildOne(slot: nat, ghost m: Store, ghost k: nat) returns (ok: bool)
      requires Arranged(m) && m == Mem().(pages := m.pages) && FlagsOnly(m.pages, pages) && Arranged(Mem()) && CardLog()
      requires k < |occupied| && slot == occupied[k] && Live(m, slot) && RefsOf(m, slot)
      requires RememberedListed(Mem(), occupied, k)
      modifies this`pages, this`pendingCards
      ensures ok && FlagsOnly(m.pages, pages) && Arranged(Mem()) && CardLog()
      ensures RememberedListed(Mem(), occupied, k + 1)
    {
      hide LogOk, Remembers, FlagsRaised;
      if objects[slot].young {
        return true;
      }
      ghost var before := Mem();
      RebuildReady(m, before, slot);
      ok := MarkYoungReferences(slot);
      RebuildStep(m, before, Mem(), occupied, k);
    }

    // ----- a whole collection -----

    /** The heap at a safepoint, apart from what its references say. */
    ghost predicate Ready()
      reads this`objects, this`pages, this`layouts, this`occupied, this`occupiedIndex, this`youngSlots, this`youngIndex
      reads this`nurseryPages, this`oldAvailable, this`pendingCards, this`cardCapacity, this`strictLog,
        this`occupiedBytes
      reads this`controlBytes, this`marks, this`epoch
    {
      && Settledown() && strictLog && |marks| == |objects| && epoch < U64
      && (forall s: nat | Live(Mem(), s) :: marks[s] <= epoch)
    }

    /** The heap at a safepoint, with no stale or malformed reference. */
    ghost predicate Sound()
      reads this`objects, this`pages, this`layouts, this`occupied, this`occupiedIndex, this`youngSlots, this`youngIndex
      reads this`nurseryPages, this`oldAvailable, this`pendingCards, this`cardCapacity, this`strictLog,
        this`occupiedBytes
      reads this`controlBytes, this`marks, this`epoch
    {
      Ready() && RefsResolve(Mem())
    }

    /** `nextCollectionEpoch`: no live entry carries the new mark. */
    method NextEpoch()
      requires |marks| == |objects| && epoch < U64 && Vectors()
      requires forall s: nat | Live(Mem(), s) :: marks[s] <= epoch
      modifies this`epoch, this`marks
      ensures |marks| == |objects| && 0 < epoch < U64
      ensures forall s: nat | Live(Mem(), s) :: marks[s] < epoch
    {
      epoch := (epoch + 1) % U64;
      if epoch != 0 {
        return;
      }
      epoch := 1;
      var k := 0;
      while k < |occupied|
        invariant 0 <= k <= |occupied| && |marks| == |objects| && epoch == 1
        invariant forall i | 0 <= i < k :: marks[occupied[i]] == 0
      {
        marks := marks[occupied[k] := 0];
        k := k + 1;
      }
    }

    /** Starts the queue of a new collection. */
    method BeginMarking(major: bool, ghost allowed: set<nat>)
      requires Ready()
      modifies this`epoch, this`marks, this`queue, this`reachableBytes
      ensures Marking(major, allowed) && 0 < epoch < U64
      ensures forall s: nat | Live(Mem(), s) :: marks[s] <= epoch
    {
      NextEpoch();
      queue := [];
      reachableBytes := controlBytes;
      NothingMarked(objects, marks, epoch);
    }

    /** The root visit of `collectFromRoots`: it fails exactly when some root is malformed or stale. */
    method MarkRoots(roots: seq<Ref>, major: bool, ghost allowed: set<nat>) returns (ok: bool)
      requires Traceable() && Marking(major, allowed) && RootsAllowed(Mem(), roots, major, allowed)
      modifies this`marks, this`queue, this`reachableBytes
      ensures Marking(major, allowed) && MarksGrow(old(marks), marks, epoch)
      ensures ok <==> RootsResolve(Mem(), roots)
      ensures ok ==> AllSettled(Mem(), marks, epoch, major, roots)
    {
      var k := 0;
      while k < |roots|
        invariant 0 <= k <= |roots|
        invariant Marking(major, allowed) && MarksGrow(old(marks), marks, epoch)
        invariant RootsResolve(Mem(), roots[..k]) && AllSettled(Mem(), marks, epoch, major, roots[..k])
      {
        ghost var before := marks;
        ok := MarkReference(roots[k], major, allowed);
        if !ok {
          return;
        }
        AllSettledStay(Mem(), before, marks, epoch, major, roots[..k]);
        k := k + 1;
      }
      assert roots[..k] == roots;
      ok := true;
    }

    ghost predicate MarkedFrom(roots: seq<Ref>, major: bool)
      reads this`objects, this`pages, this`layouts, this`marks, this`queue, this`epoch
    {
      && QueueHoldsMarked(Mem(), marks, queue, epoch, major) && AllPlaced(Mem())
      && AllSettled(Mem(), marks, epoch, major, roots)
      && (forall i | 0 <= i < |queue| :: Traced(Mem(), marks, epoch, major, queue[i]))
    }

    /** Marking of a major collection. */
    method MarkMajor(roots: seq<Ref>, ghost allowed: set<nat>) returns (ok: bool)
      requires Traceable() && Marking(true, allowed)
      requires RootsAllowed(Mem(), roots, true, allowed) && ClosedUnderPoints(Mem(), allowed)
      modifies this`marks, this`queue, this`reachableBytes
      ensures Marking(true, allowed) && MarksGrow(old(marks), marks, epoch)
      ensures ok ==> RootsResolve(Mem(), roots) && MarkedFrom(roots, true)
      ensures !ok ==>
        !RootsResolve(Mem(), roots) || exists s: nat :: s in allowed && Live(Mem(), s) && !RefsOf(Mem(), s)
    {
      ok := MarkRoots(roots, true, allowed);
      if !ok {
        return;
      }
      ghost var before := marks;
      ok := DrainQueue(true, allowed);
      AllSettledStay(Mem(), before, marks, epoch, true, roots);
      QueueCulprit(Mem(), queue, allowed);
    }

    /** The first half of a minor marking: roots and the young entries they lead to. */
    method DrainFromRoots(roots: seq<Ref>, ghost allowed: set<nat>) returns (ok: bool)
      requires Traceable() && Marking(false, allowed)
      requires RootsAllowed(Mem(), roots, false, allowed) && ClosedUnderPoints(Mem(), allowed)
      modifies this`marks, this`queue, this`reachableBytes
      ensures Marking(false, allowed) && MarksGrow(old(marks), marks, epoch)
      ensures ok ==> RootsResolve(Mem(), roots) && AllSettled(Mem(), marks, epoch, false, roots)
      ensures !ok ==> !RootsResolve(Mem(), roots) || YoungBad(Mem(), allowed)
    {
      hide RootsAllowed, ClosedUnderPoints, RootsResolve, Traced, RefsOf, AllSettled;
      ok := MarkRoots(roots, false, allowed);
      if !ok {
        return;
      }
      ghost var rooted := marks;
      ok := DrainQueue(false, allowed);
      MarkingQueue(allowed);
      YoungCulprit(Mem(), queue, allowed);
      AllSettledStay(Mem(), rooted, marks, epoch, false, roots);
    }

    /** The second half: dirty cards and the young entries they lead to. */
    method DrainFromCards(ghost allowed: set<nat>) returns (ok: bool)
      requires Traceable() && Marking(false, allowed)
      requires Arranged(Mem()) && Remembered(Mem()) && CardsAddressable(Mem()) && LogExact(pages, pendingCards)
      requires ClosedUnderPoints(Mem(), allowed) && forall s: nat | OldLive(Mem(), s) :: s in allowed
      modifies this`marks, this`queue, this`reachableBytes
      ensures Marking(false, allowed) && MarksGrow(old(marks), marks, epoch)
      ensures ok ==> CardsAreClean(Mem(), pendingCards) && OldTraced(Mem(), marks, epoch)
      ensures ok ==> forall i | 0 <= i < |queue| :: Traced(Mem(), marks, epoch, false, queue[i])
      ensures !ok ==> YoungBad(Mem(), allowed) || !CardsAreClean(Mem(), pendingCards)
    {
      hide Arranged, Remembered, CardsAddressable, LogExact, ClosedUnderPoints, CardClean, CardSettled, Traced, RefsOf,
        Homed, CardFollowable, YoungTraced;
      CardsReady(Mem(), allowed, pendingCards);
      ok := TracePendingCards(allowed);
      if !ok {
        return;
      }
      ghost var carded := marks;
      ok := DrainQueue(false, allowed);
      MarkingQueue(allowed);
      YoungCulprit(Mem(), queue, allowed);
      CardsSettledStay(Mem(), carded, marks, epoch, pendingCards);
      CardsTraceOld(Mem(), marks, epoch, pendingCards);
    }

    /** Marking of a minor collection: roots, young entries, dirty cards, and young entries again. */
    method MarkMinor(roots: seq<Ref>, ghost allowed: set<nat>) returns (ok: bool)
      requires Traceable() && Marking(false, allowed)
      requires Arranged(Mem()) && Remembered(Mem()) && CardsAddressable(Mem()) && LogExact(pages, pendingCards)
      requires RootsAllowed(Mem(), roots, false, allowed) && ClosedUnderPoints(Mem(), allowed)
      requires forall s: nat | OldLive(Mem(), s) :: s in allowed
      modifies this`marks, this`queue, this`reachableBytes
      ensures Marking(false, allowed) && MarksGrow(old(marks), marks, epoch)
      ensures ok ==> RootsResolve(Mem(), roots) && MarkedFrom(roots, false)
      ensures ok ==> CardsAreClean(Mem(), pendingCards) && OldTraced(Mem(), marks, epoch)
      ensures !ok ==>
        !RootsResolve(Mem(), roots) || YoungBad(Mem(), allowed) || !CardsAreClean(Mem(), pendingCards)
    {
      hide Arranged, Remembered, CardsAddressable, LogExact, RootsAllowed, ClosedUnderPoints, RootsResolve,
        CardsAreClean, Traced, AllSettled, OldTraced, YoungBad;
      ok := DrainFromRoots(roots, allowed);
      if !ok {
        return;
      }
      ghost var rooted := marks;
      ok := DrainFromCards(allowed);
      AllSettledStay(Mem(), rooted, marks, epoch, false, roots);
    }

    lemma MarkingQueue(allowed: set<nat>)
      requires Marking(false, allowed)
      ensures QueueHoldsMarked(Mem(), marks, queue, epoch, false) && |marks| == |objects|
      ensures forall i | 0 <= i < |queue| :: Live(Mem(), queue[i])
      ensures forall i | 0 <= i < |queue| :: queue[i] in allowed && Young(Mem(), queue[i])
    {
    }

    /** Marking for a minor collection, and what the marks mean. */
    method MinorMarks(roots: seq<Ref>) returns (ok: bool)
      requires Ready() && |occupied| <= queueCapacity && CardsAddressable(Mem())
      modifies this`epoch, this`marks, this`queue, this`reachableBytes
      ensures Ready() && |marks| == |objects|
      ensures ok <==> MinorClean(Mem(), pendingCards, roots)
      ensures ok ==> KeptClosed(Mem(), marks, epoch, false) && KeptRefs(Mem(), marks, epoch)
      ensures ok ==> forall s: nat | Young(Mem(), s) ::
                       marks[s] == epoch <==> Reachable(Mem(), RootSlots(roots) + OldSlots(Mem()), s)
    {
      hide Arranged, Remembered, NurseryPaired, Available, Listed, LogOk, LogExact, Traced, AllSettled, Reachable,
        ReachableSet;
      hide ClosedUnderPoints, RefsResolve, RootsAllowed, RootsResolve, CardsAddressable, KeptClosed, KeptRefs,
        RootSlots, OldSlots, RefsOf, CardsAreClean, OldTraced, YoungBad, MinorClean, MajorClean, MarksGrow;
      ghost var m := Mem();
      TraceReady(m, occupied, occupiedIndex, youngSlots, youngIndex, pendingCards, cardCapacity);
      ghost var allowed := ReachableSet(m, RootSlots(roots) + OldSlots(m));
      ReachableSetClosed(m, RootSlots(roots) + OldSlots(m));
      RootsInReachable(m, roots, OldSlots(m));
      OldInReachable(m, RootSlots(roots));
      BeginMarking(false, allowed);
      ghost var begun := marks;
      ok := MarkMinor(roots, allowed);
      MarksBounded(m, begun, marks, epoch);
      if ok {
        MinorMarksExact(m, marks, queue, epoch, roots);
        KeptClosedByQueue(m, marks, queue, epoch, false);
        MinorCleanByMarks(m, marks, epoch, pendingCards, roots);
      } else {
        MinorUnclean(m, pendingCards, roots);
      }
    }

    /** Marking for a major collection, and what the marks mean. */
    method MajorMarks(roots: seq<Ref>) returns (ok: bool)
      requires Ready() && |occupied| <= queueCapacity
      modifies this`epoch, this`marks, this`queue, this`reachableBytes
      ensures Ready() && |marks| == |objects|
      ensures ok <==> MajorClean(Mem(), roots)
      ensures ok ==> KeptClosed(Mem(), marks, epoch, true)
      ensures ok ==> reachableBytes == controlBytes + MarkedBytes(objects, marks, epoch)
      ensures ok ==> forall s: nat | Live(Mem(), s) :: marks[s] == epoch <==> Reachable(Mem(), RootSlots(roots), s)
    {
      hide Arranged, Remembered, NurseryPaired, Available, Listed, LogOk, LogExact, Traced, AllSettled, Reachable,
        ReachableSet;
      hide ClosedUnderPoints, RefsResolve, RootsAllowed, RootsResolve, CardsAddressable, KeptClosed, KeptRefs,
        RootSlots, OldSlots, RefsOf, CardsAreClean, OldTraced, YoungBad, MinorClean, MajorClean, MarksGrow;
      ghost var m := Mem();
      TraceReady(m, occupied, occupiedIndex, youngSlots, youngIndex, pendingCards, cardCapacity);
      ghost var allowed := ReachableSet(m, RootSlots(roots) + {});
      ReachableSetClosed(m, RootSlots(roots) + {});
      RootsInReachable(m, roots, {});
      BeginMarking(true, allowed);
      ghost var begun := marks;
      ok := MarkMajor(roots, allowed);
      MarksBounded(m, begun, marks, epoch);
      assert RootSlots(roots) + {} == RootSlots(roots);
      if ok {
        MajorMarksExact(m, marks, queue, epoch, roots);
        KeptClosedByQueue(m, marks, queue, epoch, true);
        MajorCleanByMarks(m, marks, epoch, roots);
      } else {
        MajorUnclean(m, roots);
      }
    }

    /** The evacuation and card refresh of a minor collection. */
    method FinishMinor()
      requires Ready() && CardsAddressable(Mem())
      requires KeptClosed(Mem(), marks, epoch, false) && KeptRefs(Mem(), marks, epoch)
      modifies this`objects, this`pages, this`pendingCards, this`oldAvailable, this`nurseryPages
      modifies this`occupied, this`occupiedIndex, this`youngSlots, this`youngIndex, this`freeSlots, this`occupiedBytes,
        this`reclaimedBytes
      ensures Ready() && CardsAddressable(Mem()) && (old(RefsResolve(Mem())) ==> RefsResolve(Mem()))
      ensures |marks| == |old(objects)| && Evacuated(old(Mem()), Mem(), marks, epoch)
      ensures occupiedBytes + reclaimedBytes == old(occupiedBytes + reclaimedBytes)
    {
      hide Arranged, Remembered, NurseryPaired, Available, Listed, LogOk, RefsResolve, CardsAddressable, KeptClosed,
        KeptRefs, Evacuated;
      ghost var m := Mem();
      var ok := CopyNursery();
      ghost var m1 := Mem();
      EvacuatedAddressable(m, m1, marks, epoch);
      RefreshPendingCards();
      FinishMinorFacts(m, m1, Mem(), marks, epoch, nurseryPages, oldAvailable);
      ListedDirectoryOnly(m1, Mem(), occupied, occupiedIndex, youngSlots, youngIndex);
    }

    /** A minor collection. */
    method CollectMinor(roots: seq<Ref>) returns (outcome: Outcome)
      requires Ready() && |occupied| <= queueCapacity && CardsAddressable(Mem())
      modifies this`epoch, this`marks, this`queue, this`reachableBytes
      modifies this`objects, this`pages, this`pendingCards, this`oldAvailable, this`nurseryPages
      modifies this`occupied, this`occupiedIndex, this`youngSlots, this`youngIndex, this`freeSlots, this`occupiedBytes,
        this`reclaimedBytes
      ensures Ready() && CardsAddressable(Mem()) && (old(RefsResolve(Mem())) ==> RefsResolve(Mem()))
      ensures outcome == (if MinorClean(old(Mem()), old(pendingCards), roots) then Done else BadReference)
      ensures outcome == Done && old(RefsResolve(Mem())) ==> Sound()
      ensures outcome == BadReference ==> Mem() == old(Mem()) && occupiedBytes == old(occupiedBytes)
      ensures outcome == Done ==> KeptByMinor(old(Mem()), Mem(), roots)
      ensures outcome == Done ==> HeldKept(old(Mem()), Mem())
      ensures occupiedBytes + reclaimedBytes == old(occupiedBytes + reclaimedBytes)
    {
      hide Arranged, Remembered, NurseryPaired, Available, Listed, LogOk, RefsResolve, CardsAddressable, KeptClosed,
        KeptRefs, Evacuated, RootsResolve, Reachable, HeldKept;
      ghost var m := Mem();
      var ok := MinorMarks(roots);
      if !ok {
        return BadReference;
      }
      FinishMinor();
      MinorKept(m, Mem(), marks, epoch, roots);
      HeldSurvives(m, Mem(), roots);
      outcome := Done;
    }

    /** Sweep, page reclamation and evacuation of a major collection. */
    method DropUnmarked()
      requires Ready() && |occupied| <= queueCapacity && KeptClosed(Mem(), marks, epoch, true)
      modifies this`objects, this`pages, this`pendingCards, this`oldAvailable, this`nurseryPages, this`freePages,
        this`strictLog, this`queue
      modifies this`occupied, this`occupiedIndex, this`youngSlots, this`youngIndex, this`freeSlots, this`occupiedBytes,
        this`reclaimedBytes
      ensures Settledown() && |marks| == |objects| == |old(objects)| && Collected(old(Mem()), Mem(), marks, epoch)
      ensures old(CardsAddressable(Mem())) ==> CardsAddressable(Mem())
      ensures occupiedBytes + reclaimedBytes == old(occupiedBytes + reclaimedBytes)
    {
      hide Arranged, Remembered, NurseryPaired, Available, Listed, RefsResolve, CardsAddressable, KeptClosed, KeptRefs,
        Evacuated, Swept, SameGraph, LogOk;
      ghost var m := Mem();
      LooseLog(pages, pendingCards, cardCapacity);
      strictLog := false;
      var ok := SweepOld();
      ghost var m1 := Mem();
      SweptRefs(m, m1, marks, epoch);
      ReclaimEmptyPages();
      ghost var m2 := Mem();
      SameGraphKept(m1, m2, marks, epoch);
      ok := CopyNursery();
      MajorDropped(m, m1, m2, Mem(), marks, epoch);
    }

    /** The rest of a major collection: the card tables are built from scratch. */
    method FinishMajor()
      requires Ready() && |occupied| <= queueCapacity && KeptClosed(Mem(), marks, epoch, true)
      modifies this`objects, this`pages, this`pendingCards, this`oldAvailable, this`nurseryPages, this`freePages,
        this`strictLog, this`queue
      modifies this`occupied, this`occupiedIndex, this`youngSlots, this`youngIndex, this`freeSlots, this`occupiedBytes,
        this`reclaimedBytes
      ensures Sound() && |marks| == |old(objects)| && Collected(old(Mem()), Mem(), marks, epoch)
      ensures old(CardsAddressable(Mem())) ==> CardsAddressable(Mem())
      ensures occupiedBytes + reclaimedBytes == old(occupiedBytes + reclaimedBytes)
    {
      hide Arranged, Remembered, NurseryPaired, Available, Listed, RefsResolve, CardsAddressable, KeptClosed, Collected,
        LogOk, FlagsOnly;
      ghost var m := Mem();
      DropUnmarked();
      ghost var m1 := Mem();
      ResetCards();
      ghost var m2 := Mem();
      ListedDirectoryOnly(m1, m2, occupied, occupiedIndex, youngSlots, youngIndex);
      ResetFacts(m, m1, m2, marks, epoch, nurseryPages, oldAvailable);
      var ok := RebuildYoungCards();
      RebuiltFacts(m, m2, Mem(), marks, epoch, nurseryPages, oldAvailable);
    }

    /** A major collection. */
    method CollectMajor(roots: seq<Ref>) returns (outcome: Outcome)
      requires Ready() && |occupied| <= queueCapacity
      modifies this`epoch, this`marks, this`queue, this`reachableBytes, this`freePages, this`strictLog
      modifies this`objects, this`pages, this`pendingCards, this`oldAvailable, this`nurseryPages
      modifies this`occupied, this`occupiedIndex, this`youngSlots, this`youngIndex, this`freeSlots, this`occupiedBytes,
        this`reclaimedBytes
      ensures Ready() && (old(CardsAddressable(Mem())) ==> CardsAddressable(Mem()))
      ensures outcome == (if MajorClean(old(Mem()), roots) then Done else BadReference)
      ensures outcome == Done ==> Sound()
      ensures outcome == BadReference ==> Mem() == old(Mem()) && occupiedBytes == old(occupiedBytes)
      ensures outcome == Done ==> KeptByMajor(old(Mem()), Mem(), roots) && reachableBytes == occupiedBytes
      ensures outcome == Done ==> HeldKept(old(Mem()), Mem())
      ensures occupiedBytes + reclaimedBytes == old(occupiedBytes + reclaimedBytes)
    {
      hide Arranged, Remembered, NurseryPaired, Available, Listed, LogOk, RefsResolve, CardsAddressable, KeptClosed,
        KeptRefs, Collected, RootsResolve, Reachable, HeldKept;
      ghost var m := Mem();
      var ok := MajorMarks(roots);
      if !ok {
        return BadReference;
      }
      FinishMajor();
      MajorKept(m, Mem(), marks, epoch, roots);
      HeldSurvives(m, Mem(), roots);
      outcome := Done;
    }

    /** `collectFromRoots`. */
    method Collect(roots: seq<Ref>, major: bool) returns (outcome: Outcome)
      requires !closed && unpublished == 0 && activeBatches == 0 ==> Ready()
      requires !closed && unpublished == 0 && activeBatches == 0 && !major ==> CardsAddressable(Mem())
      modifies this`epoch, this`marks, this`queue, this`reachableBytes, this`freePages, this`strictLog
      modifies this`objects, this`pages, this`pendingCards, this`oldAvailable, this`nurseryPages
      modifies this`occupied, this`occupiedIndex, this`youngSlots, this`youngIndex, this`freeSlots, this`occupiedBytes,
        this`reclaimedBytes
      ensures outcome == (if closed then HeapClosed else if unpublished != 0 || activeBatches != 0 then Busy
                          else if queueCapacity < |old(occupied)| then NoScratch
                          else if major && !MajorClean(old(Mem()), roots) then BadReference
                          else if !major && !MinorClean(old(Mem()), old(pendingCards), roots) then BadReference
                          else Done)
      ensures outcome != Done ==> Mem() == old(Mem()) && occupiedBytes == old(occupiedBytes)
      ensures outcome in {NoScratch, BadReference, Done} ==> Ready()
      ensures outcome == Done && (major || old(RefsResolve(Mem()))) ==> Sound()
      ensures outcome in {HeapClosed, Busy} ==> unchanged(this)
      ensures outcome == Done && !major ==> KeptByMinor(old(Mem()), Mem(), roots) && CardsAddressable(Mem())
      ensures outcome == Done && major ==> KeptByMajor(old(Mem()), Mem(), roots)
      ensures outcome == Done ==> HeldKept(old(Mem()), Mem())
      ensures outcome == Done && major ==> (old(CardsAddressable(Mem())) ==> CardsAddressable(Mem()))
      ensures outcome == Done ==>
        reachableBytes == occupiedBytes && reachableBytes + reclaimedBytes == old(occupiedBytes)
    {
      hide *;
      if closed {
        return HeapClosed;
      }
      if unpublished != 0 || activeBatches != 0 {
        return Busy;
      }
      if queueCapacity < |occupied| {
        return NoScratch;
      }
      reclaimedBytes := 0;
      if major {
        outcome := CollectMajor(roots);
      } else {
        outcome := CollectMinor(roots);
        reachableBytes := occupiedBytes;
      }
    }

    /**
      * When every logged card wraps away, marking a minor collection from old roots marks nothing, whatever the old
      * entries refer to.
      */
    method MarksNothing(roots: seq<Ref>) returns (ok: bool)
      requires Traceable() && Marking(false, {}) && RootsResolve(Mem(), roots) && RefsResolve(Mem())
      requires LogExact(pages, pendingCards)
      requires forall i | 0 <= i < |roots| && !roots[i].Null() :: !objects[roots[i].slot].young
      requires forall s: nat | OldLive(Mem(), s) :: Homed(Mem(), s, objects[s])
      requires forall i, s: nat | 0 <= i < |pendingCards| && Live(Mem(), s)
        && objects[s].page == pendingCards[i].page ::
                 OldLive(Mem(), s) && CardWords(Mem(), objects[s], pendingCards[i].index) == []
      modifies this`marks, this`queue, this`reachableBytes
      ensures ok && |marks| == |objects| && forall s: nat | Live(Mem(), s) :: marks[s] != epoch
    {
      hide CardWords, CardFollowable, CardClean, CardSettled, Homed, LogExact, AllSettled, MarkedBytes;
      hide MarksGrow, Words;
      ok := MarkRoots(roots, false, {});
      ok := DrainQueue(false, {});
      forall i | 0 <= i < |pendingCards|
        ensures CardFollowable(Mem(), {}, pendingCards[i]) && CardClean(Mem(), pendingCards[i])
      {
        EmptyCard(Mem(), pendingCards[i]);
      }
      ok := TracePendingCards({});
      ok := DrainQueue(false, {});
    }

    /** A new heap with a directory of free slots and one nursery page with its spare. */
    constructor (layouts: seq<Layout>, slots: nat, capacity: nat)
      requires 0 < slots
      ensures Between() && CardsAddressable(Mem()) && this.layouts == layouts && batchOpen == []
      ensures queueCapacity == capacity
      ensures |objects| == slots && (forall s: nat :: !Live(Mem(), s)) && nurseryPages == [0] && |pages| == 2
      ensures |pages[0].data| == PAGE_BYTES && pages[0].used == 0
      ensures !closed && unpublished == 0 && activeBatches == 0
    {
      objects := seq(slots, i => Object(Free, 0, 0, 0, 0, 0, 0, 0, 0, false));
      pages := [Page(YoungPage, Zeros(PAGE_BYTES), 0, 0, 1, [], [], [], 0),
        Page(SparePage, Zeros(PAGE_BYTES), 0, 0, 0, [], [], [], 0)];
      this.layouts := layouts;
      marks, occupiedIndex, youngIndex := seq(slots, i => 0), seq(slots, i => 0), seq(slots, i => 0);
      occupied, youngSlots, freeSlots, nurseryPages, freePages := [], [], [], [0], [];
      oldAvailable, queue, queueCapacity := seq(CLASSES, i => []), [], capacity;
      epoch, collectorWorkers, reachableBytes, reclaimedBytes := 0, 1, 0, 0;
      closed, unpublished, activeBatches := false, 0, 0;
      occupiedBytes, controlBytes := 0, 0;
      pendingCards, cardCapacity, strictLog := [], 0, true;
      batchLogs, batchRoom, batchOpen := [], [], [];
      new;
      assert forall s: nat :: !Live(Mem(), s);
      FreshPages(pages);
      NothingLive(objects);
      hide NurseryPaired, PageOk, LogOk, TotalCards, LiveBytes;
    }

    /** A sound heap in which one 3 GiB old entry holds the only reference to a young entry. */
    constructor Wide()
      ensures Sound() && Mem() == WideStore() && pendingCards == [Card(0, 0x80_0000)] && |occupied| <= queueCapacity
      ensures !closed && unpublished == 0 && activeBatches == 0
    {
      objects, pages, layouts := WideStore().objects, WideStore().pages, WideStore().layouts;
      marks, occupiedIndex, youngIndex := [0, 0, 0], [0, 0, 1], [0, 0, 0];
      occupied, youngSlots, freeSlots, nurseryPages, freePages := [1, 2], [2], [], [1], [];
      oldAvailable, queue, queueCapacity := seq(CLASSES, i => []), [], 2;
      epoch, collectorWorkers, reachableBytes, reclaimedBytes := 0, 1, 0, 0;
      closed, unpublished, activeBatches := false, 0, 0;
      occupiedBytes, controlBytes := 0, 0;
      pendingCards, cardCapacity, strictLog := [Card(0, 0x80_0000)], 0xC0_0000, true;
      batchLogs, batchRoom, batchOpen := [], [], [];
      new;
      assert Mem() == WideStore();
      WideArranged();
      WideRemembered();
      WideRefs();
      WideLog();
      WideNursery();
      WideListed();
      hide WideStore, Arranged, Remembered, RefsResolve, LogOk, NurseryPaired, Available, LiveBytes;
    }

    /** The marking of a minor collection from an old root whose logged cards all wrap away. */
    method MarkOverWrappedCards(root: Ref)
      requires Sound() && |occupied| <= queueCapacity && OldLive(Mem(), root.slot) && Resolves(Mem(), root)
      requires WrapAway(Mem(), pendingCards)
      modifies this`epoch, this`marks, this`queue, this`reachableBytes
      ensures Settledown() && KeptRefs(Mem(), marks, epoch) && |marks| == |objects|
      ensures forall s: nat | Live(Mem(), s) :: marks[s] != epoch
    {
      hide Remembered, NurseryPaired, Available, LogOk, CardWords, Arranged, Homed, Listed, RefsResolve;
      ghost var m := Mem();
      TraceReady(m, occupied, occupiedIndex, youngSlots, youngIndex, pendingCards, cardCapacity);
      OldEntriesHomed(m);
      LogPagesOld(m, pendingCards);
      StrictIsExact(pages, pendingCards, cardCapacity);
      BeginMarking(false, {});
      var ok := MarksNothing([root]);
      NothingKeeps(m, marks, epoch);
    }

    /** The copying and refreshing of a minor collection after a marking that found nothing. */
    method FinishUnmarked()
      requires Settledown() && strictLog && KeptRefs(Mem(), marks, epoch) && |marks| == |objects|
      requires forall s: nat | Live(Mem(), s) :: marks[s] != epoch
      modifies this`objects, this`pages, this`pendingCards, this`oldAvailable, this`nurseryPages
      modifies this`occupied, this`occupiedIndex, this`youngSlots, this`youngIndex, this`freeSlots, this`occupiedBytes,
        this`reclaimedBytes
      ensures OldSurvive(old(Mem()), Mem())
    {
      hide Remembered, NurseryPaired, Available, LogOk, Arranged, Listed, Payload, CardsAddressable;
      ghost var m := Mem();
      var ok := CopyNursery();
      ghost var m1 := Mem();
      RefreshPendingCards();
      UnmarkedGone(m, m1, Mem(), marks, epoch);
    }

    // ----- writes between collections -----

    /** The heap while batches are out: cards may be logged in the heap or in one batch. */
    ghost predicate Mutating()
      reads this`objects, this`pages, this`layouts, this`pendingCards, this`cardCapacity, this`batchLogs,
        this`batchRoom, this`batchOpen
    {
      Arranged(Mem()) && Remembered(Mem()) && Logged()
    }

    ghost predicate Logged()
      reads this`pages, this`pendingCards, this`cardCapacity, this`batchLogs, this`batchRoom, this`batchOpen
    {
      && LogOk(pages, AllLogs(pendingCards, batchLogs), cardCapacity, true)
      && |batchLogs| == |batchRoom| == |batchOpen|
      && (forall b | 0 <= b < |batchLogs| :: |batchLogs[b]| <= batchRoom[b])
    }

    ghost predicate HasLane(lane: Lane)
      reads this`batchLogs
    {
      lane.BatchLog? ==> lane.index < |batchLogs|
    }

    /** One card of a write: flagged and logged once, in the lane's own log. */
    method LogCard(lane: Lane, card: Card)
      requires LogOk(pages, AllLogs(pendingCards, batchLogs), cardCapacity, true) && HasLane(lane)
      requires IsCard(pages, card)
      modifies this`pages, this`pendingCards, this`batchLogs
      ensures LogOk(pages, AllLogs(pendingCards, batchLogs), cardCapacity, true)
      ensures Flagged(pages, card) && LanesKept(lane, old(pendingCards), old(batchLogs), pendingCards, batchLogs)
      ensures if old(pages[card.page].cards[card.index]) then pages == old(pages)
        else pages == SetFlag(old(pages), card, true)
      ensures lane.BatchLog? ==>
        |batchLogs[lane.index]| ==
          |old(batchLogs[lane.index])| + (if old(pages[card.page].cards[card.index]) then 0 else 1)
    {
      if !pages[card.page].cards[card.index] {
        if lane.HeapLog? {
          FlagSet(pages, AllLogs(pendingCards, batchLogs), cardCapacity, true, card);
          assert multiset(AllLogs(pendingCards + [card], batchLogs)) ==
            multiset(AllLogs(pendingCards, batchLogs) + [card]);
          LogPermuted(SetFlag(pages, card, true), AllLogs(pendingCards, batchLogs) + [card],
                      AllLogs(pendingCards + [card], batchLogs), cardCapacity);
          pendingCards := pendingCards + [card];
        } else {
          LogInBatch(pages, pendingCards, batchLogs, lane.index, card, cardCapacity);
          batchLogs := batchLogs[lane.index := batchLogs[lane.index] + [card]];
        }
        pages := SetFlag(pages, card, true);
      }
    }

    /** The card loop of `dirtyRegion` and of the batch write. */
    method DirtyRegion(lane: Lane, page: nat, from: nat, size: nat)
      requires LogOk(pages, AllLogs(pendingCards, batchLogs), cardCapacity, true) && HasLane(lane)
      requires page < |pages| && 0 < size && from + size <= |pages[page].data|
      requires |pages[page].cards| == CardCount(|pages[page].data|)
      requires EndCard(from, size) <= |pages[page].cards|
      modifies this`pages, this`pendingCards, this`batchLogs
      ensures LogOk(pages, AllLogs(pendingCards, batchLogs), cardCapacity, true)
      ensures FlagsRaised(old(pages), pages) && CardsDirty(pages, page, from, size)
      ensures LanesKept(lane, old(pendingCards), old(batchLogs), pendingCards, batchLogs)
      ensures lane.BatchLog? ==>
        |batchLogs[lane.index]| ==
          |old(batchLogs[lane.index])| + CleanCards(old(pages[page].cards), FirstCard(from), EndCard(from, size))
    {
      hide LogOk;
      RegionCards(from, size, |pages[page].data|);
      var card, end := FirstCard(from), EndCard(from, size);
      ghost var clean := CleanCards(pages[page].cards, card, end);
      ghost var logged := if lane.BatchLog? then |batchLogs[lane.index]| else 0;
      while card < end
        invariant page < |pages| && |pages[page].cards| == |old(pages)[page].cards| && HasLane(lane)
        invariant FirstCard(from) <= card <= end <= |pages[page].cards|
        invariant LogOk(pages, AllLogs(pendingCards, batchLogs), cardCapacity, true)
        invariant FlagsRaised(old(pages), pages)
        invariant LanesKept(lane, old(pendingCards), old(batchLogs), pendingCards, batchLogs)
        invariant forall i: nat | FirstCard(from) <= i < card :: pages[page].cards[i]
        invariant forall i: nat | card <= i < end :: pages[page].cards[i] == old(pages)[page].cards[i]
        invariant lane.BatchLog? ==>
          |batchLogs[lane.index]| == logged + clean - CleanCards(old(pages)[page].cards, card, end)
      {
        ghost var before := pages;
        LogCard(lane, Card(page, card));
        if before[page].cards[card] {
        } else {
          SetFlagRaises(before, Card(page, card));
        }
        RaisedTransitive(old(pages), before, pages);
        card := card + 1;
      }
    }

    /** The copy and the card loop of a write: the bytes change, and the cards over them become dirty. */
    method StoreBytes(lane: Lane, slot: nat, at: nat, bytes: seq<byte>)
      requires Arranged(Mem()) && Remembered(Mem())
      requires LogOk(pages, AllLogs(pendingCards, batchLogs), cardCapacity, true)
      requires HasLane(lane) && Live(Mem(), slot) && at + |bytes| <= objects[slot].size
      modifies this`pages, this`pendingCards, this`batchLogs
      ensures Arranged(Mem()) && Remembered(Mem()) && LogOk(pages, AllLogs(pendingCards, batchLogs), cardCapacity, true)
      ensures LanesKept(lane, old(pendingCards), old(batchLogs), pendingCards, batchLogs)
      ensures lane.BatchLog? ==>
        |batchLogs[lane.index]| == |old(batchLogs[lane.index])| + old(Needed(Mem(), slot, at, |bytes|))
      ensures BytesOnly(old(pages), pages)
      ensures Payload(Mem(), objects[slot]) == Write(old(Payload(Mem(), objects[slot])), at, bytes)
      ensures forall t: nat | Live(Mem(), t) && t != slot ::
        Payload(Mem(), objects[t]) == old(Payload(Mem(), objects[t]))
    {
      hide Arranged, Remembered, LogOk, Payload, FlagsRaised, CardsDirty, BytesOnly;
      var entry := objects[slot];
      ghost var start := Mem();
      assert Placed(start, entry) by { ArrangedPlaced(start, slot); }
      pages := pages[entry.page := pages[entry.page].(data := Write(pages[entry.page].data, entry.offset + at, bytes))];
      ghost var written := Mem();
      assert Written(start, written, slot, at, bytes);
      WriteKeepsArranged(start, written, slot, at, bytes);
      LogSameCards(start.pages, pages, AllLogs(pendingCards, batchLogs), cardCapacity, true);
      if !entry.young && bytes != [] {
        OldCards(start, slot, at, |bytes|);
        OldCards(written, slot, at, |bytes|);
        DirtyRegion(lane, entry.page, entry.offset + at, |bytes|);
      } else {
        RaisedSame(pages);
      }
      StoreDone(start, written, Mem(), slot, at, bytes);
      WriteBytesOnly(start, written, Mem(), slot, at, bytes);
    }

    /** `batch.write`: a full log leaves the heap as it was. */
    method BatchWrite(b: nat, ref: Ref, offset: nat, data: seq<byte>) returns (outcome: WriteOutcome)
      requires Mutating() && b < |batchLogs|
      modifies this`pages, this`pendingCards, this`batchLogs
      ensures Mutating() && LanesKept(BatchLog(b), old(pendingCards), old(batchLogs), pendingCards, batchLogs)
      ensures BytesOnly(old(pages), pages)
      ensures outcome == (
        if !batchOpen[b] then BatchReturned
        else if !Resolves(Mem(), ref) then StaleReference
        else if offset + |data| > objects[ref.slot].size then OutsidePayload
        else if old(|batchLogs[b]| + Needed(Mem(), ref.slot, offset, |data|) > batchRoom[b]) then LogFull
        else WriteDone)
      ensures outcome == WriteDone ==>
        Payload(Mem(), objects[ref.slot]) == Write(old(Payload(Mem(), objects[ref.slot])), offset, data)
      ensures outcome == WriteDone ==>
        forall t: nat | Live(Mem(), t) && t != ref.slot :: Payload(Mem(), objects[t]) == old(Payload(Mem(), objects[t]))
      ensures outcome != WriteDone ==> pages == old(pages) && batchLogs == old(batchLogs)
    {
      hide Arranged, Remembered, LogOk, Payload, CleanCards;
      if !batchOpen[b] {
        return BatchReturned;
      }
      if ref.slot == 0 || ref.slot >= |objects| || !objects[ref.slot].state.Published?
        || objects[ref.slot].generation != ref.generation {
        return StaleReference;
      }
      var entry := objects[ref.slot];
      if offset + |data| > entry.size {
        return OutsidePayload;
      }
      var needed := 0;
      if !entry.young && data != [] {
        OldCards(Mem(), ref.slot, offset, |data|);
        needed := CountClean(entry.page, FirstCard(entry.offset + offset), EndCard(entry.offset + offset, |data|));
        if needed > batchRoom[b] - |batchLogs[b]| {
          return LogFull;
        }
      }
      StoreBytes(BatchLog(b), ref.slot, offset, data);
      outcome := WriteDone;
    }

    /** The counting loop of `batch.write`. */
    method CountClean(page: nat, from: nat, end: nat) returns (needed: nat)
      requires page < |pages| && from <= end <= |pages[page].cards|
      ensures needed == CleanCards(pages[page].cards, from, end)
    {
      needed := 0;
      var card := from;
      while card < end
        invariant from <= card <= end
        invariant needed + CleanCards(pages[page].cards, card, end) == CleanCards(pages[page].cards, from, end)
      {
        if !pages[page].cards[card] {
          needed := needed + 1;
        }
        card := card + 1;
      }
    }

    /**
      * `heap.write`, `heap.copy` and `heap.clear` on the owner's side: every write succeeds, because the log covers
      * every card.
      */
    method OwnerWrite(ref: Ref, offset: nat, data: seq<byte>) returns (outcome: WriteOutcome)
      requires Mutating()
      modifies this`pages, this`pendingCards, this`batchLogs
      ensures Mutating() && batchLogs == old(batchLogs) && old(pendingCards) <= pendingCards
      ensures BytesOnly(old(pages), pages)
      ensures outcome == (
        if !Resolves(Mem(), ref) then StaleReference
        else if offset + |data| > objects[ref.slot].size then OutsidePayload
        else WriteDone)
      ensures outcome == WriteDone ==>
        Payload(Mem(), objects[ref.slot]) == Write(old(Payload(Mem(), objects[ref.slot])), offset, data)
      ensures outcome == WriteDone ==>
        forall t: nat | Live(Mem(), t) && t != ref.slot :: Payload(Mem(), objects[t]) == old(Payload(Mem(), objects[t]))
      ensures outcome != WriteDone ==> pages == old(pages) && pendingCards == old(pendingCards)
    {
      if ref.slot == 0 || ref.slot >= |objects| || !objects[ref.slot].state.Published?
        || objects[ref.slot].generation != ref.generation {
        return StaleReference;
      }
      if offset + |data| > objects[ref.slot].size {
        return OutsidePayload;
      }
      StoreBytes(HeapLog, ref.slot, offset, data);
      outcome := WriteDone;
    }

    /** The card log of a new batch. */
    method OpenLog(room: nat) returns (b: nat)
      requires Mutating()
      modifies this`batchLogs, this`batchRoom, this`batchOpen, this`activeBatches
      ensures Mutating() && b == |old(batchLogs)| && batchLogs == old(batchLogs) + [[]]
      ensures batchRoom == old(batchRoom) + [room]
      ensures batchOpen == old(batchOpen) + [true] && activeBatches == old(activeBatches) + 1
    {
      b := |batchLogs|;
      LogOpened(pendingCards, batchLogs);
      batchLogs, batchRoom, batchOpen := batchLogs + [[]], batchRoom + [room], batchOpen + [true];
      activeBatches := activeBatches + 1;
    }

    /** The card part of `flush`: the batch's log moves to the heap's, and the batch is closed to further writes. */
    method FlushCards(b: nat)
      requires Mutating() && b < |batchLogs| && (batchOpen[b] ==> 0 < activeBatches)
      modifies this`pendingCards, this`batchLogs, this`batchOpen, this`activeBatches
      ensures Mutating() && batchOpen == old(batchOpen)[b := false]
      ensures if old(batchOpen[b])
              then
                && pendingCards == old(pendingCards) + old(batchLogs[b]) && batchLogs == old(batchLogs)[b := []]
                && activeBatches == old(activeBatches) - 1
              else
                && pendingCards == old(pendingCards) && batchLogs == old(batchLogs)
                && activeBatches == old(activeBatches)
    {
      if !batchOpen[b] {
        assert batchOpen[b := false] == batchOpen;
        return;
      }
      LogFlushed(pages, pendingCards, batchLogs, b, cardCapacity);
      pendingCards := pendingCards + batchLogs[b];
      batchLogs := batchLogs[b := []];
      batchOpen := batchOpen[b := false];
      activeBatches := activeBatches - 1;
    }

    /** Once every batch is flushed the heap's own log is exact again, as a collection needs it. */
    lemma FlushedLogExact()
      requires Mutating() && (forall b | 0 <= b < |batchLogs| :: batchLogs[b] == [])
      ensures LogOk(pages, pendingCards, cardCapacity, true)
    {
      FlatEmpty(batchLogs);
      assert AllLogs(pendingCards, batchLogs) == pendingCards;
    }

    // ----- the heap between collections -----

    /** What a collection needs beside the card log. */
    ghost predicate Standing()
      reads this`objects, this`pages, this`layouts, this`occupied, this`occupiedIndex, this`youngSlots, this`youngIndex
      reads this`nurseryPages, this`oldAvailable, this`strictLog, this`occupiedBytes, this`controlBytes, this`marks,
        this`epoch
    {
      && Arranged(Mem()) && RefsResolve(Mem()) && Available(pages, oldAvailable) && NurseryPaired(pages, nurseryPages)
      && Vectors() && Accounted()
      && (forall i | 0 <= i < |youngSlots| :: objects[youngSlots[i]].young)
      && strictLog && |marks| == |objects| && epoch < U64 && (forall s: nat | Live(Mem(), s) :: marks[s] <= epoch)
    }

    /** The count of active batches is right, and a returned batch has no cards. */
    ghost predicate Lanes()
      reads this`batchLogs, this`batchOpen, this`activeBatches
    {
      |batchLogs| == |batchOpen| && activeBatches == OpenCount(batchOpen) && forall b | 0 <= b < |batchOpen|
        && !batchOpen[b] :: batchLogs[b] == []
    }

    /** The invariant of the whole life of the heap, in and between collections. */
    ghost predicate Between()
      reads this
    {
      Mutating() && Standing() && Lanes()
    }

    /** With every batch returned, the heap is ready for a collection. */
    lemma BetweenSound()
      requires Between() && activeBatches == 0
      ensures Sound()
    {
      hide Arranged, Remembered, RefsResolve, Available, NurseryPaired, Listed, LogOk, LiveBytes;
      NoneOpen(batchOpen);
      FlushedLogExact();
    }

    lemma SoundBetween()
      requires Sound() && Lanes() && activeBatches == 0 && |batchRoom| == |batchOpen|
      ensures Between()
    {
      hide Arranged, Remembered, RefsResolve, Available, NurseryPaired, Listed, LogOk, LiveBytes;
      NoneOpen(batchOpen);
      FlatEmpty(batchLogs);
      assert AllLogs(pendingCards, batchLogs) == pendingCards;
    }

    /** A write of held references on the owner's side keeps everything the next collection needs. */
    method GuestWrite(ref: Ref, offset: nat, data: seq<byte>) returns (outcome: WriteOutcome)
      requires Between()
      requires (Resolves(Mem(), ref) && offset + |data| <= objects[ref.slot].size ==>
        Held(Mem(), ref.slot, offset, data))
      modifies this`pages, this`pendingCards, this`batchLogs
      ensures Between() && batchLogs == old(batchLogs) && BytesOnly(old(pages), pages)
      ensures old(CardsAddressable(Mem())) ==> CardsAddressable(Mem())
      ensures outcome == (
        if !Resolves(Mem(), ref) then StaleReference
        else if offset + |data| > objects[ref.slot].size then OutsidePayload
        else WriteDone)
      ensures Stored(old(Mem()), Mem(), ref.slot, offset, data, outcome)
    {
      hide Arranged, Remembered, RefsResolve, Available, NurseryPaired, Listed, LogOk, LiveBytes, BytesOnly, Held,
        CardsAddressable, Payload;
      ghost var m := Mem();
      outcome := OwnerWrite(ref, offset, data);
      WriteStands(m, Mem(), ref.slot, offset, data, outcome, nurseryPages, oldAvailable);
      ListedDirectoryOnly(m, Mem(), occupied, occupiedIndex, youngSlots, youngIndex);
    }

    /** The same for a write through a batch. */
    method WorkerWrite(b: nat, ref: Ref, offset: nat, data: seq<byte>) returns (outcome: WriteOutcome)
      requires Between() && b < |batchLogs|
      requires Resolves(Mem(), ref) && offset + |data| <= objects[ref.slot].size ==> Held(Mem(), ref.slot, offset, data)
      modifies this`pages, this`pendingCards, this`batchLogs
      ensures Between() && BytesOnly(old(pages), pages) && |batchLogs| == |old(batchLogs)|
      ensures old(CardsAddressable(Mem())) ==> CardsAddressable(Mem())
      ensures outcome == (
        if !batchOpen[b] then BatchReturned
        else if !Resolves(Mem(), ref) then StaleReference
        else if offset + |data| > objects[ref.slot].size then OutsidePayload
        else if old(|batchLogs[b]| + Needed(Mem(), ref.slot, offset, |data|) > batchRoom[b]) then LogFull
        else WriteDone)
      ensures Stored(old(Mem()), Mem(), ref.slot, offset, data, outcome)
    {
      hide Arranged, Remembered, RefsResolve, Available, NurseryPaired, Listed, LogOk, LiveBytes, BytesOnly, Held,
        CardsAddressable, Payload;
      ghost var m := Mem();
      outcome := BatchWrite(b, ref, offset, data);
      WriteStands(m, Mem(), ref.slot, offset, data, outcome, nurseryPages, oldAvailable);
      ListedDirectoryOnly(m, Mem(), occupied, occupiedIndex, youngSlots, youngIndex);
    }

    /** A batch begins. */
    method GuestOpen(room: nat) returns (b: nat)
      requires Between()
      modifies this`batchLogs, this`batchRoom, this`batchOpen, this`activeBatches
      ensures Between() && b == |old(batchOpen)| && batchOpen == old(batchOpen) + [true]
      ensures batchLogs == old(batchLogs) + [[]] && batchRoom == old(batchRoom) + [room]
    {
      hide Mutating, Standing;
      assert (batchOpen + [true])[..|batchOpen|] == batchOpen;
      b := OpenLog(room);
    }

    /** A batch is returned. */
    method GuestFlush(b: nat)
      requires Between() && b < |batchLogs|
      modifies this`pendingCards, this`batchLogs, this`batchOpen, this`activeBatches
      ensures Between() && batchOpen == old(batchOpen)[b := false] && |batchLogs| == |batchOpen|
      ensures pendingCards == old(pendingCards) + (if old(batchOpen[b]) then old(batchLogs[b]) else [])
      ensures batchLogs == (if old(batchOpen[b]) then old(batchLogs)[b := []] else old(batchLogs))
    {
      hide Mutating, Standing;
      if batchOpen[b] {
        OpenCountUpdate(batchOpen, b);
      } else {
        assert batchOpen[b := false] == batchOpen;
      }
      FlushCards(b);
    }

    /**
      * A collection at any time: it is refused while a batch is out, and leaves the heap ready for writes and
      * collections.
      */
    method GuestCollect(roots: seq<Ref>, major: bool) returns (outcome: Outcome)
      requires Between() && (major || CardsAddressable(Mem()))
      modifies this`epoch, this`marks, this`queue, this`reachableBytes, this`freePages, this`strictLog
      modifies this`objects, this`pages, this`pendingCards, this`oldAvailable, this`nurseryPages
      modifies this`occupied, this`occupiedIndex, this`youngSlots, this`youngIndex, this`freeSlots, this`occupiedBytes,
        this`reclaimedBytes
      ensures Between() && (old(CardsAddressable(Mem())) ==> CardsAddressable(Mem()))
      ensures outcome == (if closed then HeapClosed
        else if unpublished != 0 || (exists b :: 0 <= b < |batchOpen| && batchOpen[b]) then Busy
                          else if queueCapacity < |old(occupied)| then NoScratch
                          else if !RootsResolve(old(Mem()), roots) then BadReference else Done)
      ensures outcome != Done ==> Mem() == old(Mem())
      ensures outcome == Done && !major ==> KeptByMinor(old(Mem()), Mem(), roots)
      ensures outcome == Done && major ==> KeptByMajor(old(Mem()), Mem(), roots)
      ensures outcome == Done ==> HeldKept(old(Mem()), Mem())
    {
      hide Mutating, Standing, Arranged, Remembered, RefsResolve, LogOk, RootsResolve, CardsAddressable, MajorClean,
        MinorClean;
      AnyOpen(batchOpen);
      LanesRoom();
      if activeBatches == 0 {
        BetweenSound();
        CleanWhenResolved(Mem(), pendingCards, roots);
      }
      outcome := Collect(roots, major);
      if outcome in {NoScratch, BadReference, Done} {
        SoundBetween();
      }
    }

    lemma LanesRoom()
      requires Between()
      ensures |batchLogs| == |batchRoom| == |batchOpen| && Arranged(Mem())
    {
    }

    /** `reserve` and `commit` of a young entry on the owner's side: fresh zero bytes at the end of a nursery page. */
    method PublishYoung(slot: nat, layout: nat, count: nat, size: nat, logical: nat, page: nat)
      requires Between() && 0 < slot < |objects| && !objects[slot].state.Published?
      requires 0 < layout < |layouts| && ValidLayout(layouts[layout])
      requires ElementBase(layouts[layout].stride, count) <= size
      requires 8 <= size && size % 8 == 0 && page in nurseryPages && page < |pages|
      requires pages[page].used + size <= |pages[page].data|
      modifies this`objects, this`pages, this`marks, this`occupied, this`occupiedIndex, this`youngSlots,
        this`youngIndex, this`occupiedBytes
      ensures Between() && Live(Mem(), slot) && objects[slot].young
      ensures objects[slot].generation == old(objects[slot].generation) + 1
      ensures occupiedBytes == old(occupiedBytes) + logical && layouts == old(layouts) && |objects| == |old(objects)|
      ensures Born(old(Mem()), Mem(), slot, size)
      ensures old(CardsAddressable(Mem())) ==> CardsAddressable(Mem())
    {
      hide Arranged, Remembered, RefsResolve, LogOk, NurseryPaired, Available, Listed, LiveBytes, Payload, Write,
        CardsAddressable;
      var entry := Object(Published, objects[slot].generation + 1, layout, count, page, pages[page].used, size, logical,
        0, true);
      ghost var start := Mem();
      NurseryYoung(pages, nurseryPages, page);
      var after := pages[page].(used := entry.offset + size, data :=
        Write(pages[page].data, entry.offset, Zeros(size)));
      ghost var m' := Store(objects[slot := entry], pages[page := after], layouts);
      assert BornYoung(start, m', slot, entry);
      BornKeeps(start, m', slot, entry);
      BornPages(start, m', slot, entry, nurseryPages, oldAvailable, AllLogs(pendingCards, batchLogs), cardCapacity);
      BornListed(start, m', slot, entry, occupied, occupiedIndex, youngSlots, youngIndex);
      BornAddressable(start, m', slot, entry);
      YoungListed(start, occupied, occupiedIndex, youngSlots, youngIndex, slot);
      BornSeen(start, m', slot, entry);
      hide BornYoung, Placed, Born;
      InstallYoung(slot, entry, page, after);
      assert Mem() == m';
    }

    /**
      * `reserve` and `commit` of a large entry: it is born old on a page of its own, and all of its cards are
      * dirtied. The cards stay addressable exactly when those of the new entry are.
      */
    method PublishLarge(slot: nat, layout: nat, count: nat, size: nat, logical: nat, page: nat)
      requires Between() && 0 < slot < |objects| && !objects[slot].state.Published?
      requires 0 < layout < |layouts| && ValidLayout(layouts[layout])
      requires ElementBase(layouts[layout].stride, count) <= size && 8 <= size < U32 && size % 8 == 0
      requires page <= |pages| && (page < |pages| ==> pages[page].kind.FreePage?)
      modifies this`objects, this`pages, this`marks, this`occupied, this`occupiedIndex, this`occupiedBytes,
        this`pendingCards, this`cardCapacity, this`freePages, this`batchLogs
      ensures Between() && Live(Mem(), slot) && !objects[slot].young && objects[slot].page == page < |pages|
      ensures objects[slot].generation == old(objects[slot].generation) + 1
      ensures occupiedBytes == old(occupiedBytes) + logical && layouts == old(layouts) && |objects| == |old(objects)|
      ensures Born(old(Mem()), Mem(), slot, size)
      ensures CardsDirty(pages, page, 0, size) && page !in freePages
      ensures Placed(Mem(), objects[slot])
      ensures CardsAddressable(Mem()) <==> old(CardsAddressable(Mem())) && EntryAddressable(Mem(), objects[slot])
      ensures old(CardsAddressable(Mem())) && Spannable(layouts[layout].stride, size) ==> CardsAddressable(Mem())
    {
      hide Arranged, Remembered, RefsResolve, LogOk, NurseryPaired, Available, Listed, LiveBytes, Payload,
        CardsAddressable, EntryAddressable, Placed, Born, FlagsRaised, CardsDirty;
      var entry := Object(Published, objects[slot].generation + 1, layout, count, page, 0, size, logical, 0, false);
      ghost var m := Mem();
      LargeEntry(m, slot, entry);
      PlaceLarge(slot, entry);
      DirtyLarge(slot, m);
    }

    /** The cards of a new large entry are dirtied. */
    method DirtyLarge(slot: nat, ghost m: Store)
      requires Standing() && LogOk(pages, AllLogs(pendingCards, batchLogs), cardCapacity, true) && Lanes()
      requires |batchLogs| == |batchRoom| == |batchOpen|
      requires forall b | 0 <= b < |batchLogs| :: |batchLogs[b]| <= batchRoom[b]
      requires slot < |objects| && 0 < objects[slot].size && objects[slot].offset == 0
      requires Welcomes(m, Mem(), slot, objects[slot], nurseryPages, oldAvailable)
      modifies this`pages, this`pendingCards, this`batchLogs
      ensures Between() && Welcomes(m, Mem(), slot, objects[slot], nurseryPages, oldAvailable)
      ensures CardsDirty(pages, objects[slot].page, 0, objects[slot].size)
      ensures CardsAddressable(Mem()) <==> old(CardsAddressable(Mem()))
      ensures EntryAddressable(Mem(), objects[slot]) <==> old(EntryAddressable(Mem(), objects[slot]))
    {
      hide Arranged, Remembered, RefsResolve, LogOk, NurseryPaired, Available, Listed, LiveBytes, Payload,
        CardsAddressable, EntryAddressable, Placed, Born, FlagsRaised, CardsDirty;
      var entry := objects[slot];
      ghost var m1 := Mem();
      DirtyRegion(HeapLog, entry.page, 0, entry.size);
      LargeSeen(m, m1, Mem(), slot, entry, nurseryPages, oldAvailable);
      EntryCardsStay(m1, Mem(), entry);
      ListedDirectoryOnly(m1, Mem(), occupied, occupiedIndex, youngSlots, youngIndex);
    }

    /** The entry on its page, before its cards are dirtied. */
    method PlaceLarge(slot: nat, entry: Object)
      requires Between() && 0 < slot < |objects| && !objects[slot].state.Published?
      requires entry.page <= |pages| && BornLarge(Mem(), LargeStore(Mem(), slot, entry), slot, entry)
      modifies this`objects, this`pages, this`marks, this`occupied, this`occupiedIndex, this`occupiedBytes,
        this`cardCapacity, this`freePages
      ensures Mem() == LargeStore(old(Mem()), slot, entry) && Standing() && entry.page !in freePages
      ensures Welcomes(old(Mem()), Mem(), slot, entry, nurseryPages, oldAvailable)
      ensures LogOk(pages, AllLogs(pendingCards, batchLogs), cardCapacity, true)
      ensures occupiedBytes == old(occupiedBytes) + entry.logical
      ensures CardsAddressable(Mem()) <==> old(CardsAddressable(Mem())) && EntryAddressable(Mem(), entry)
      ensures Spannable(layouts[entry.layout].stride, entry.size) ==> EntryAddressable(Mem(), entry)
    {
      hide Arranged, Remembered, RefsResolve, LogOk, NurseryPaired, Available, Listed, LiveBytes, Payload,
        CardsAddressable, EntryAddressable, Placed, Born, BornLarge;
      ghost var m, m' := Mem(), LargeStore(Mem(), slot, entry);
      LargeBorn(m, m', slot, entry, nurseryPages, oldAvailable);
      LargeCards(m, m', slot, entry);
      LargeKeepsLog(m, m', slot, entry, AllLogs(pendingCards, batchLogs), cardCapacity);
      LargeListed(m, m', slot, entry, occupied, occupiedIndex, youngSlots, youngIndex);
      LargeBytes(m, m', slot, entry);
      YoungListed(m, occupied, occupiedIndex, youngSlots, youngIndex, slot);
      InstallLarge(slot, entry);
      assert Mem() == m';
    }

    /** `newPage` of a large page, and the entry on it; the log is admitted for its cards. */
    method InstallLarge(slot: nat, entry: Object)
      requires slot < |objects| == |marks| == |occupiedIndex| && entry.page <= |pages|
      modifies this`objects, this`pages, this`marks, this`occupied, this`occupiedIndex, this`occupiedBytes,
        this`cardCapacity, this`freePages
      ensures objects == old(objects)[slot := entry]
      ensures pages == PutPage(old(pages), entry.page, NewLarge(slot, entry.size, CapacityAt(old(pages), entry.page)))
      ensures marks == old(marks)[slot := 0] && entry.page !in freePages
      ensures occupied == old(occupied) + [slot] && occupiedIndex == old(occupiedIndex)[slot := |old(occupied)|]
      ensures occupiedBytes == old(occupiedBytes) + entry.logical
      ensures cardCapacity == old(cardCapacity) + CardGrowth(old(pages), entry.page, entry.size)
    {
      WithoutMembers(freePages, entry.page);
      var kept := FilterOut(freePages, entry.page);
      freePages := kept;
      cardCapacity := cardCapacity + CardGrowth(pages, entry.page, entry.size);
      pages := PutPage(pages, entry.page, NewLarge(slot, entry.size, CapacityAt(pages, entry.page)));
      occupiedIndex := occupiedIndex[slot := |occupied|];
      occupied := occupied + [slot];
      objects := objects[slot := entry];
      marks := marks[slot := 0];
      occupiedBytes := occupiedBytes + entry.logical;
    }

    method InstallYoung(slot: nat, entry: Object, page: nat, after: Page)
      requires slot < |objects| == |marks| == |occupiedIndex| == |youngIndex| && page < |pages|
      modifies this`objects, this`pages, this`marks, this`occupied, this`occupiedIndex, this`youngSlots,
        this`youngIndex, this`occupiedBytes
      ensures objects == old(objects)[slot := entry] && pages == old(pages)[page := after]
      ensures marks == old(marks)[slot := 0]
      ensures occupied == old(occupied) + [slot] && occupiedIndex == old(occupiedIndex)[slot := |old(occupied)|]
      ensures youngSlots == old(youngSlots) + [slot] && youngIndex == old(youngIndex)[slot := |old(youngSlots)|]
      ensures occupiedBytes == old(occupiedBytes) + entry.logical
    {
      occupiedIndex := occupiedIndex[slot := |occupied|];
      occupied := occupied + [slot];
      youngIndex := youngIndex[slot := |youngSlots|];
      youngSlots := youngSlots + [slot];
      objects := objects[slot := entry];
      pages := pages[page := after];
      marks := marks[slot := 0];
      occupiedBytes := occupiedBytes + entry.logical;
    }
  }

  lemma OldEntriesHomed(m: Store)
    requires Arranged(m)
    ensures AllPlaced(m) && forall s: nat | OldLive(m, s) :: Homed(m, s, m.objects[s])
  {
    forall s: nat | OldLive(m, s)
      ensures Homed(m, s, m.objects[s])
    {
      assert HomedAny(m, s, m.objects[s]);
    }
  }

  lemma NothingKeeps(m: Store, marks: seq<nat>, epoch: nat)
    requires AllPlaced(m) && |marks| == |m.objects| && forall s: nat | Live(m, s) :: marks[s] != epoch
    ensures KeptRefs(m, marks, epoch)
  {
  }

  lemma FlagsKeepPayloads(m: Store, m': Store)
    requires Arranged(m) && Arranged(m') && m' == m.(pages := m'.pages) && FlagsOnly(m.pages, m'.pages)
    ensures AllPlaced(m) && AllPlaced(m')
    ensures forall s: nat | Live(m', s) :: Payload(m', m'.objects[s]) == Payload(m, m.objects[s])
  {
    forall s: nat | Live(m', s)
      ensures Payload(m', m'.objects[s]) == Payload(m, m.objects[s])
    {
      FlagsKeepEntry(m, m', m.objects[s]);
    }
  }

  /** Scanning the logged cards of any live entry visits no word. */
  ghost predicate WrapAway(m: Store, log: seq<Card>) {
    AllPlaced(m) && forall i, s: nat | 0 <= i < |log| && Live(m, s) && m.objects[s].page == log[i].page ::
      CardWords(m, m.objects[s], log[i].index) == []
  }

  /** Exactly the old entries are left, with their bytes. */
  ghost predicate OldSurvive(m: Store, m': Store) {
    && AllPlaced(m) && AllPlaced(m') && |m'.objects| == |m.objects| && (forall s: nat :: Live(m', s) <==> OldLive(m, s))
    && (forall s: nat | Live(m', s) ::
      m'.objects[s] == m.objects[s] && Payload(m', m'.objects[s]) == Payload(m, m.objects[s]))
  }

  lemma UnmarkedGone(m: Store, m1: Store, m': Store, marks: seq<nat>, epoch: nat)
    requires |marks| == |m.objects| && Evacuated(m, m1, marks, epoch) && forall s: nat | Live(m, s) :: marks[s] != epoch
    requires Arranged(m1) && Arranged(m') && m' == m1.(pages := m'.pages) && FlagsOnly(m1.pages, m'.pages)
    ensures OldSurvive(m, m')
  {
    hide Arranged, FlagsOnly, Payload;
    FlagsKeepPayloads(m1, m');
  }

  /**
    * In that heap a minor collection rooted at the old entry frees the young entry it refers to: the entry is
    * reachable before, unpublished after, and the reference to it is still in the payload.
    */
  method WideMinorLosesReachable() returns (h: ManagedHeap)
    ensures fresh(h) && AllPlaced(WideStore()) && Reachable(WideStore(), {1}, 2)
    ensures AllPlaced(h.Mem()) && Live(h.Mem(), 1) && !Live(h.Mem(), 2)
    ensures Child(h.Mem(), h.objects[1], RefWord(0x8000_0000)) == Ref(2, 1)
  {
    h := new ManagedHeap.Wide();
    WideReachable();
    WideChild();
    WideWrapsAway();
    WideEntries();
    hide WideStore, Edge, Reachable, WrapAway;
    h.MarkOverWrappedCards(Ref(1, 1));
    h.FinishUnmarked();
  }

  lemma WideWrapsAway()
    ensures WrapAway(WideStore(), [Card(0, 0x80_0000)])
  {
    WidePlaced();
    WideCard();
    WideEntries();
    hide WideStore, CardWords;
  }

  lemma WideEntries()
    ensures var m := WideStore();
            && OldLive(m, 1) && Young(m, 2) && (forall s: nat :: Live(m, s) <==> s == 1 || s == 2)
            && Resolves(m, Ref(1, 1)) && m.objects[1].page == 0 && m.objects[2].page == 1
  {
  }

  /** What a write with this outcome has done. */
  ghost predicate Stored(m: Store, m': Store, s: nat, at: nat, bytes: seq<byte>, outcome: WriteOutcome) {
    if outcome != WriteDone then m' == m
    else
      && m' == m.(pages := m'.pages) && AllPlaced(m) && AllPlaced(m') && Live(m, s) && at + |bytes| <= m.objects[s].size
      && Payload(m', m'.objects[s]) == Write(Payload(m, m.objects[s]), at, bytes)
      && (forall t: nat | Live(m', t) && t != s :: Payload(m', m'.objects[t]) == Payload(m, m.objects[t]))
  }

  lemma WriteStands(m: Store, m': Store, s: nat, at: nat, bytes: seq<byte>, outcome: WriteOutcome, nursery: seq<nat>,
      lists: seq<seq<nat>>)
    requires Arranged(m) && Arranged(m') && RefsResolve(m) && NurseryPaired(m.pages, nursery)
    requires Available(m.pages, lists)
    requires m' == m.(pages := m'.pages) && BytesOnly(m.pages, m'.pages)
    requires (outcome != WriteDone ==> m'.pages == m.pages)
    requires outcome == WriteDone ==> Held(m, s, at, bytes)
    requires outcome == WriteDone ==> Payload(m', m'.objects[s]) == Write(Payload(m, m.objects[s]), at, bytes)
    requires outcome == WriteDone ==>
      forall t: nat | Live(m', t) && t != s :: Payload(m', m'.objects[t]) == Payload(m, m.objects[t])
    ensures RefsResolve(m') && NurseryPaired(m'.pages, nursery) && Available(m'.pages, lists)
    ensures CardsAddressable(m) ==> CardsAddressable(m')
    ensures Stored(m, m', s, at, bytes, outcome)
  {
    hide RefsResolve, NurseryPaired, Available, BytesOnly, Payload, Write, CardsAddressable;
    BytesOnlyPages(m.pages, m'.pages, nursery, lists);
    if CardsAddressable(m) {
      BytesOnlyAddressable(m, m');
    }
    if outcome == WriteDone {
      HeldKeepsRefs(m, m', s, at, bytes);
    } else {
      assert m' == m;
    }
  }

  lemma AnyOpen(open: seq<bool>)
    ensures OpenCount(open) == 0 <==> !exists b :: 0 <= b < |open| && open[b]
  {
    if OpenCount(open) == 0 {
      NoneOpen(open);
    } else if forall b | 0 <= b < |open| :: !open[b] {
      AllClosed(open);
    }
  }

  lemma {:induction false} AllClosed(open: seq<bool>)
    requires forall b | 0 <= b < |open| :: !open[b]
    ensures OpenCount(open) == 0
  {
    if open != [] {
      AllClosed(open[..|open| - 1]);
    }
  }

  lemma LogOpened(log: seq<Card>, logs: seq<seq<Card>>)
    ensures AllLogs(log, logs + [[]]) == AllLogs(log, logs)
  {
    assert (logs + [[]])[..|logs|] == logs;
  }

  /** A new entry of zero bytes, and everything else as before. */
  ghost predicate Born(m: Store, m': Store, s: nat, size: nat) {
    && AllPlaced(m) && AllPlaced(m') && Live(m', s) && Payload(m', m'.objects[s]) == Zeros(size)
    && (forall t: nat | Live(m, t) ::
      t != s && Live(m', t) && m'.objects[t] == m.objects[t] && Payload(m', m'.objects[t]) == Payload(m, m.objects[t]))
    && (forall t: nat | Live(m', t) :: t == s || Live(m, t))
  }

  lemma BornSeen(m: Store, m': Store, s: nat, o: Object)
    requires Arranged(m) && Arranged(m') && BornYoung(m, m', s, o) && Placed(m', o) && Payload(m', o) == Zeros(o.size)
    requires forall t: nat | Live(m, t) ::
      Live(m', t) && m'.objects[t] == m.objects[t] && Payload(m', m'.objects[t]) == Payload(m, m.objects[t])
    ensures Born(m, m', s, o.size)
  {
    assert AllPlaced(m) && AllPlaced(m');
    hide Arranged, Payload, Write;
  }

  /** What is written down of a heap with a new large entry. */
  ghost predicate Welcomes(m: Store, m': Store, s: nat, o: Object, nursery: seq<nat>, lists: seq<seq<nat>>) {
    && Arranged(m') && Remembered(m') && RefsResolve(m')
    && NurseryPaired(m'.pages, nursery) && Available(m'.pages, lists)
    && Live(m', s) && m'.objects[s] == o && Placed(m', o) && Born(m, m', s, o.size)
    && o.page < |m'.pages| && |m'.pages[o.page].data| == o.size && |m'.pages[o.page].cards| == CardCount(o.size)
  }

  lemma LargeIsBorn(m: Store, m': Store, s: nat, o: Object)
    requires Arranged(m) && Arranged(m') && BornLarge(m, m', s, o)
    ensures Born(m, m', s, o.size)
  {
    LargePlaced(m, m', s, o);
    LargeKeepsArranged(m, m', s, o);
    forall t: nat | Live(m, t)
      ensures t != s && Live(m', t) && m'.objects[t] == m.objects[t]
    {
      LargeKeepsOther(m, m', s, o, t);
    }
    assert AllPlaced(m) && AllPlaced(m');
    hide Arranged, Payload, Placed, BornLarge;
  }

  /** Everything a new large entry keeps, before its cards are dirtied. */
  lemma LargeBorn(m: Store, m': Store, s: nat, o: Object, nursery: seq<nat>, lists: seq<seq<nat>>)
    requires Arranged(m) && Remembered(m) && RefsResolve(m) && BornLarge(m, m', s, o)
    requires NurseryPaired(m.pages, nursery) && Available(m.pages, lists)
    ensures Welcomes(m, m', s, o, nursery, lists)
  {
    LargeKeepsArranged(m, m', s, o);
    LargePlaced(m, m', s, o);
    LargeKeepsGraph(m, m', s, o);
    LargePages(m, m', s, o, nursery, lists);
    LargeIsBorn(m, m', s, o);
    hide Arranged, Remembered, RefsResolve, NurseryPaired, Available, Payload, Placed, Born;
  }

  lemma LargeEntry(m: Store, s: nat, o: Object)
    requires 0 < s < |m.objects| && !m.objects[s].state.Published? && o.page <= |m.pages|
    requires o.state.Published? && !o.young && o.offset == 0 && 0 < o.layout < |m.layouts| && 0 < o.generation
    requires (o.page < |m.pages| ==> m.pages[o.page].kind.FreePage?) && 8 <= o.size && o.size % 8 == 0
    requires ValidLayout(m.layouts[o.layout]) && ElementBase(m.layouts[o.layout].stride, o.count) <= o.size < U32
    ensures BornLarge(m, LargeStore(m, s, o), s, o)
  {
  }

  lemma LargeBytes(m: Store, m': Store, s: nat, o: Object)
    requires BornLarge(m, m', s, o)
    ensures LiveBytes(m'.objects) == LiveBytes(m.objects) + o.logical && o.page <= |m.pages|
  {
    LiveBytesBorn(m.objects, s, o);
  }

  lemma LargeCards(m: Store, m': Store, s: nat, o: Object)
    requires Arranged(m) && Arranged(m') && BornLarge(m, m', s, o)
    ensures Placed(m', o) && (CardsAddressable(m') <==> CardsAddressable(m) && EntryAddressable(m', o))
    ensures Spannable(m.layouts[o.layout].stride, o.size) ==> EntryAddressable(m', o)
  {
    LargeAddressable(m, m', s, o);
    hide EntryAddressable, CardsAddressable;
    if Spannable(m.layouts[o.layout].stride, o.size) {
      SpannableAddressable(m, m', s, o);
    }
  }

  lemma BornStays(m: Store, m1: Store, m2: Store, s: nat, size: nat)
    requires Born(m, m1, s, size) && AllPlaced(m2) && m2.objects == m1.objects
    requires forall t: nat | Live(m1, t) :: Payload(m2, m2.objects[t]) == Payload(m1, m1.objects[t])
    ensures Born(m, m2, s, size)
  {
    hide Payload, AllPlaced;
  }

  /** And afterwards. */
  lemma LargeSeen(m: Store, m1: Store, m2: Store, s: nat, o: Object, nursery: seq<nat>, lists: seq<seq<nat>>)
    requires Welcomes(m, m1, s, o, nursery, lists) && m2 == m1.(pages := m2.pages) && FlagsRaised(m1.pages, m2.pages)
    ensures Welcomes(m, m2, s, o, nursery, lists)
    ensures CardsAddressable(m2) <==> CardsAddressable(m1)
  {
    LargeDirtied(m1, m2, nursery, lists);
    FlagsKeepEntry(m1, m2, o);
    BornStays(m, m1, m2, s, o.size);
    hide Arranged, Remembered, RefsResolve, NurseryPaired, Available, Payload, CardsAddressable, Born, Placed;
  }

  lemma EntryCardsStay(m1: Store, m2: Store, o: Object)
    requires m2 == m1.(pages := m2.pages) && FlagsRaised(m1.pages, m2.pages) && Placed(m1, o) && Placed(m2, o)
    ensures EntryAddressable(m2, o) <==> EntryAddressable(m1, o)
  {
    forall index: nat
      ensures CardArithmeticWraps(m2, o, index) <==> CardArithmeticWraps(m1, o, index)
      ensures WordsInCard(m2, o, index) == WordsInCard(m1, o, index)
    {
    }
    hide CardArithmeticWraps, WordsInCard;
  }

  lemma BornAddressable(m: Store, m': Store, s: nat, o: Object)
    requires Arranged(m) && Arranged(m') && BornYoung(m, m', s, o)
    ensures CardsAddressable(m) ==> CardsAddressable(m')
  {
    assert AllPlaced(m) && AllPlaced(m');
    BornSizes(m, m', s, o);
    hide Arranged;
    if CardsAddressable(m) {
      forall t: nat, index: nat | Live(m', t) && !m'.objects[t].young
        && index < CardCount(|m'.pages[m'.objects[t].page].data|)
        && CardArithmeticWraps(m', m'.objects[t], index)
        ensures WordsInCard(m', m'.objects[t], index) == []
      {
        assert t != s && CardArithmeticWraps(m, m.objects[t], index);
      }
    }
  }

  lemma BornSizes(m: Store, m': Store, s: nat, o: Object)
    requires BornYoung(m, m', s, o)
    ensures |m'.pages| == |m.pages| && forall p: nat | p < |m.pages| :: |m'.pages[p].data| == |m.pages[p].data|
  {
    assert |Write(m.pages[o.page].data, o.offset, Zeros(o.size))| == |m.pages[o.page].data|;
  }

  lemma FreshPages(pages: seq<Page>)
    requires pages == [Page(YoungPage, Zeros(PAGE_BYTES), 0, 0, 1, [], [], [], 0),
      Page(SparePage, Zeros(PAGE_BYTES), 0, 0, 0, [], [], [], 0)]
    ensures NurseryPaired(pages, [0]) && LogOk(pages, [], 0, true) && forall p: nat | p < |pages| :: PageOk(pages[p])
  {
    assert Paired(pages, 0, SparePage);
    var one := pages[..1];
    assert one[..0] == [] && TotalCards(one) == TotalCards(one[..0]) + one[0].cardCapacity;
    assert TotalCards(pages) == TotalCards(one) + pages[1].cardCapacity;
    forall p: nat | p < |pages|
      ensures PageOk(pages[p])
    {
    }
  }

  lemma {:induction false} NothingLive(objects: seq<Object>)
    requires forall s: nat | 0 < s < |objects| :: !objects[s].state.Published?
    ensures LiveBytes(objects) == 0
  {
    if objects != [] {
      NothingLive(objects[..|objects| - 1]);
    }
  }

  lemma RefreshEnd(m: Store, m': Store, log: seq<Card>, kept: seq<Card>, capacity: nat)
    requires Arranged(m) && LogOk(m.pages, log, capacity, true) && m' == m.(pages := m'.pages)
    requires Refreshing(m, m'.pages, log, kept, |log|)
    ensures Arranged(m') && LogOk(m'.pages, kept, capacity, true) && FlagsOnly(m.pages, m'.pages)
    ensures Remembered(m) && CardsAddressable(m) ==> Remembered(m')
    ensures forall c :: Flagged(m'.pages, c) <==> Flagged(m.pages, c) && CardKeeps(m, c)
  {
    hide CardKeeps;
    FlagsKeepArranged(m, m');
    RefreshLogOk(m, m'.pages, log, kept, capacity);
    StrictIsExact(m.pages, log, capacity);
    assert log[..|log|] == log;
    if Remembered(m) && CardsAddressable(m) {
      RefreshKeepsRemembered(m, m', log);
    }
  }
}
