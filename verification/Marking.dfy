/** What the marker keeps between two references, and what that gives at the end. */
module Marking {
  import opened Prelude
  import opened HeapWords
  import opened CardScan
  import opened HeapModel
  import opened Cards

  /** Marking `r` has nothing left to do; a minor collection skips old targets. */
  predicate Settled(m: Store, marks: seq<nat>, epoch: nat, major: bool, r: Ref)
    requires |marks| == |m.objects|
  {
    r.Null() || (Resolves(m, r) && ((!major && !m.objects[r.slot].young) || marks[r.slot] == epoch))
  }

  ghost predicate Traced(m: Store, marks: seq<nat>, epoch: nat, major: bool, s: nat)
    requires |marks| == |m.objects| && Live(m, s) && Placed(m, m.objects[s])
  {
    forall w | w in Words(m, m.objects[s]) :: Settled(m, marks, epoch, major, Child(m, m.objects[s], w))
  }

  /** The references of an old entry into the young generation have been followed. */
  ghost predicate YoungTraced(m: Store, marks: seq<nat>, epoch: nat, s: nat)
    requires |marks| == |m.objects| && Live(m, s) && Placed(m, m.objects[s])
  {
    forall w | w in Words(m, m.objects[s]) && PointsYoung(m, m.objects[s], w) ::
      Settled(m, marks, epoch, false, Child(m, m.objects[s], w))
  }

  /** None of these references is stale or malformed. */
  ghost predicate AllResolve(m: Store, refs: seq<Ref>) {
    forall i | 0 <= i < |refs| :: refs[i].Null() || Resolves(m, refs[i])
  }

  /** Each of these references has been followed. */
  ghost predicate AllSettled(m: Store, marks: seq<nat>, epoch: nat, major: bool, refs: seq<Ref>)
    requires |marks| == |m.objects|
  {
    forall i | 0 <= i < |refs| :: Settled(m, marks, epoch, major, refs[i])
  }

  /** Each of these references that can be followed leads into `allowed`. */
  ghost predicate Followable(m: Store, allowed: set<nat>, refs: seq<Ref>) {
    forall i | 0 <= i < |refs| && Resolves(m, refs[i]) :: refs[i].slot in allowed
  }

  /** What has been traced holds no bad reference. */
  lemma TracedResolves(m: Store, marks: seq<nat>, epoch: nat, major: bool, s: nat)
    requires |marks| == |m.objects| && Live(m, s) && Placed(m, m.objects[s]) && Traced(m, marks, epoch, major, s)
    ensures RefsOf(m, s)
  {
  }

  /** An entry holds a bad reference exactly if one is among the references of its words. */
  lemma RefsOfChildren(m: Store, s: nat)
    requires Live(m, s) && Placed(m, m.objects[s])
    ensures RefsOf(m, s) <==> AllResolve(m, Children(m, m.objects[s], Words(m, m.objects[s])))
  {
    var o := m.objects[s];
    var words := Words(m, o);
    var refs := Children(m, o, words);
    if AllResolve(m, refs) {
      forall w | w in words
        ensures Child(m, o, w).Null() || Resolves(m, Child(m, o, w))
      {
        var i :| 0 <= i < |words| && words[i] == w;
        assert refs[i] == Child(m, o, w);
      }
    }
    if RefsOf(m, s) {
      forall i | 0 <= i < |refs|
        ensures refs[i].Null() || Resolves(m, refs[i])
      {
        assert refs[i] == Child(m, o, words[i]) && words[i] in words;
      }
    }
  }

  /** The queue holds each marked entry once and nothing else. */
  ghost predicate QueueHoldsMarked(m: Store, marks: seq<nat>, queue: seq<nat>, epoch: nat, major: bool) {
    && |marks| == |m.objects|
    && Distinct(queue)
    && (forall i | 0 <= i < |queue| ::
          Live(m, queue[i]) && marks[queue[i]] == epoch && (major || m.objects[queue[i]].young))
    && (forall s: nat | Live(m, s) && marks[s] == epoch :: s in queue)
  }

  ghost predicate MarksGrow(before: seq<nat>, after: seq<nat>, epoch: nat) {
    && |before| == |after|
    && (forall s: nat | s < |before| :: after[s] == before[s] || after[s] == epoch)
  }

  lemma MarksBounded(m: Store, before: seq<nat>, after: seq<nat>, epoch: nat)
    requires |before| == |m.objects| && MarksGrow(before, after, epoch)
    requires forall s: nat | Live(m, s) :: before[s] <= epoch
    ensures |after| == |m.objects| && forall s: nat | Live(m, s) :: after[s] <= epoch
  {
  }

  lemma AllSettledStay(m: Store, before: seq<nat>, after: seq<nat>, epoch: nat, major: bool, refs: seq<Ref>)
    requires |before| == |m.objects| && MarksGrow(before, after, epoch)
    requires AllSettled(m, before, epoch, major, refs)
    ensures AllSettled(m, after, epoch, major, refs)
  {
  }

  lemma TracedWhenSettled(m: Store, marks: seq<nat>, epoch: nat, major: bool, s: nat)
    requires |marks| == |m.objects| && Live(m, s) && Placed(m, m.objects[s])
    requires AllSettled(m, marks, epoch, major, Children(m, m.objects[s], Words(m, m.objects[s])))
    ensures Traced(m, marks, epoch, major, s)
  {
    var o := m.objects[s];
    var words := Words(m, o);
    forall w | w in words
      ensures Settled(m, marks, epoch, major, Child(m, o, w))
    {
      var i :| 0 <= i < |words| && words[i] == w;
      assert Children(m, o, words)[i] == Child(m, o, w);
    }
  }

  lemma ChildrenFollowable(m: Store, allowed: set<nat>, s: nat, words: seq<Word>)
    requires AllPlaced(m) && ClosedUnderPoints(m, allowed)
    requires Live(m, s) && s in allowed
    requires forall i | 0 <= i < |words| :: words[i] in Words(m, m.objects[s])
    ensures Followable(m, allowed, Children(m, m.objects[s], words))
  {
    var o := m.objects[s];
    forall i | 0 <= i < |words|
      ensures Children(m, o, words)[i] == Child(m, o, words[i])
    {
    }
  }

  lemma TracedStays(m: Store, before: seq<nat>, after: seq<nat>, epoch: nat, major: bool, s: nat)
    requires |before| == |m.objects| && MarksGrow(before, after, epoch)
    requires Live(m, s) && Placed(m, m.objects[s])
    requires Traced(m, before, epoch, major, s)
    ensures Traced(m, after, epoch, major, s)
  {
  }

  /** A set of entries that good references do not leave. */
  ghost predicate ClosedUnderPoints(m: Store, allowed: set<nat>)
    requires AllPlaced(m)
  {
    forall s: nat, w | Live(m, s) && s in allowed && w in Words(m, m.objects[s]) ::
      Resolves(m, Child(m, m.objects[s], w)) ==> Child(m, m.objects[s], w).slot in allowed
  }

  /** The entries reachable from `roots`, as a finite set. */
  ghost function ReachableSet(m: Store, roots: set<nat>): set<nat>
    requires AllPlaced(m)
  {
    set s: nat | s < |m.objects| && Live(m, s) && Reachable(m, roots, s)
  }

  lemma ReachableSetClosed(m: Store, roots: set<nat>)
    requires AllPlaced(m)
    ensures ClosedUnderPoints(m, ReachableSet(m, roots))
  {
    forall s: nat, w | Live(m, s) && s in ReachableSet(m, roots) && w in Words(m, m.objects[s])
      && Resolves(m, Child(m, m.objects[s], w))
      ensures Child(m, m.objects[s], w).slot in ReachableSet(m, roots)
    {
      var r := Child(m, m.objects[s], w);
      assert PointsBy(m, s, w, r.slot);
      assert Points(m, s, r.slot);
      ReachableStep(m, roots, s, r.slot);
    }
  }

  /**
    * When every queued entry has been traced, the marks of a major collection are exactly the entries reachable from
    * the roots.
    */
  lemma MajorMarksReachable(m: Store, marks: seq<nat>, queue: seq<nat>, epoch: nat, roots: set<nat>)
    requires AllPlaced(m)
    requires QueueHoldsMarked(m, marks, queue, epoch, true)
    requires forall r | r in roots :: Live(m, r) && marks[r] == epoch
    requires forall i | 0 <= i < |queue| :: Traced(m, marks, epoch, true, queue[i])
    requires forall i | 0 <= i < |queue| :: queue[i] in ReachableSet(m, roots)
    ensures forall s: nat | Live(m, s) :: marks[s] == epoch <==> Reachable(m, roots, s)
  {
    var closed := Elements(queue);
    forall a, b | a in closed && Points(m, a, b) && Live(m, b)
      ensures b in closed
    {
      var w :| w in Words(m, m.objects[a]) && PointsBy(m, a, w, b);
      assert Traced(m, marks, epoch, true, a);
    }
    forall s: nat | Live(m, s)
      ensures marks[s] == epoch <==> Reachable(m, roots, s)
    {
      if Reachable(m, roots, s) {
        var p :| PathTo(m, roots, s, p);
        ClosedContainsPath(m, roots, closed, s, p);
      }
    }
  }

  ghost predicate Young(m: Store, s: nat) {
    Live(m, s) && m.objects[s].young
  }

  ghost predicate OldLive(m: Store, s: nat) {
    Live(m, s) && !m.objects[s].young
  }

  /**
    * When the roots, the young queue and every old-to-young reference have been traced, a minor collection has marked
    * every young entry the program can reach.
    */
  lemma MinorMarksReachable(m: Store, marks: seq<nat>, queue: seq<nat>, epoch: nat, roots: set<nat>)
    requires AllPlaced(m)
    requires QueueHoldsMarked(m, marks, queue, epoch, false)
    requires forall r | r in roots && Young(m, r) :: marks[r] == epoch
    requires forall i | 0 <= i < |queue| :: Traced(m, marks, epoch, false, queue[i])
    requires forall s: nat | OldLive(m, s) :: YoungTraced(m, marks, epoch, s)
    ensures forall s: nat | Young(m, s) && Reachable(m, roots, s) :: marks[s] == epoch
  {
    var closed := set s: nat | s < |m.objects| && Live(m, s) && (m.objects[s].young ==> marks[s] == epoch);
    forall a, b | a in closed && Points(m, a, b) && Live(m, b)
      ensures b in closed
    {
      var w :| w in Words(m, m.objects[a]) && PointsBy(m, a, w, b);
      if m.objects[a].young {
        assert Traced(m, marks, epoch, false, a);
      } else {
        assert YoungTraced(m, marks, epoch, a);
      }
    }
    forall s: nat | Young(m, s) && Reachable(m, roots, s)
      ensures marks[s] == epoch
    {
      var p :| PathTo(m, roots, s, p);
      ClosedContainsPath(m, roots, closed, s, p);
    }
  }

  // ----- dirty cards -----

  /** The references a card's trace finds in this entry have been followed. */
  ghost predicate EntrySettled(m: Store, marks: seq<nat>, epoch: nat, o: Object, index: nat)
    requires |marks| == |m.objects| && Placed(m, o)
  {
    AllSettled(m, marks, epoch, false, Children(m, o, CardWords(m, o, index)))
  }

  ghost predicate CardSettled(m: Store, marks: seq<nat>, epoch: nat, c: Card)
    requires AllPlaced(m) && |marks| == |m.objects|
  {
    forall s: nat | OldLive(m, s) && m.objects[s].page == c.page :: EntrySettled(m, marks, epoch, m.objects[s], c.index)
  }

  ghost predicate CardFollowable(m: Store, allowed: set<nat>, c: Card)
    requires AllPlaced(m)
  {
    forall s: nat | Live(m, s) && m.objects[s].page == c.page ::
      Followable(m, allowed, Children(m, m.objects[s], CardWords(m, m.objects[s], c.index)))
  }

  lemma CardSettledStays(m: Store, before: seq<nat>, after: seq<nat>, epoch: nat, c: Card)
    requires AllPlaced(m) && |before| == |m.objects| && MarksGrow(before, after, epoch)
    requires CardSettled(m, before, epoch, c)
    ensures CardSettled(m, after, epoch, c)
  {
    forall s: nat | OldLive(m, s) && m.objects[s].page == c.page
      ensures EntrySettled(m, after, epoch, m.objects[s], c.index)
    {
      assert EntrySettled(m, before, epoch, m.objects[s], c.index);
      AllSettledStay(m, before, after, epoch, false, Children(m, m.objects[s], CardWords(m, m.objects[s], c.index)));
    }
  }

  lemma CardWordsAreWords(m: Store, o: Object, index: nat)
    requires Placed(m, o)
    ensures forall i | 0 <= i < |CardWords(m, o, index)| :: CardWords(m, o, index)[i] in Words(m, o)
  {
    forall i | 0 <= i < |CardWords(m, o, index)|
      ensures CardWords(m, o, index)[i] in Words(m, o)
    {
      TouchingMember(Words(m, o), o.offset, WindowStart(index), WindowEnd(index, |m.pages[o.page].data|),
                     CardWords(m, o, index)[i]);
    }
  }

  lemma AllCardsFollowable(m: Store, allowed: set<nat>, c: Card)
    requires AllPlaced(m) && ClosedUnderPoints(m, allowed)
    requires forall s: nat | Live(m, s) && m.objects[s].page == c.page :: s in allowed
    ensures CardFollowable(m, allowed, c)
  {
    forall s: nat | Live(m, s) && m.objects[s].page == c.page
      ensures Followable(m, allowed, Children(m, m.objects[s], CardWords(m, m.objects[s], c.index)))
    {
      CardWordsAreWords(m, m.objects[s], c.index);
      ChildrenFollowable(m, allowed, s, CardWords(m, m.objects[s], c.index));
    }
  }

  /** A word that meets a dirty card is visited when the card is traced. */
  lemma WordVisited(m: Store, s: nat, index: nat, w: Word)
    requires AllPlaced(m) && CardsAddressable(m)
    requires OldLive(m, s) && index < CardCount(|m.pages[m.objects[s].page].data|)
    requires w in Words(m, m.objects[s])
    requires CardTouches(index, m.objects[s].offset + w.SpanStart(), w.SpanSize())
    ensures w in CardWords(m, m.objects[s], index)
  {
    var o := m.objects[s];
    TouchingMember(Words(m, o), o.offset, WindowStart(index), WindowStart(index) + CARD_BYTES, w);
    CardTraceExactIff(m, o, index);
  }

  lemma VisitedWordSettled(m: Store, marks: seq<nat>, epoch: nat, o: Object, index: nat, w: Word)
    requires |marks| == |m.objects| && Placed(m, o)
    requires EntrySettled(m, marks, epoch, o, index) && w in CardWords(m, o, index)
    ensures Settled(m, marks, epoch, false, Child(m, o, w))
  {
    var words := CardWords(m, o, index);
    var k :| 0 <= k < |words| && words[k] == w;
    assert Children(m, o, words)[k] == Child(m, o, w);
  }

  /** One reference from an old entry into the young generation, found through its card. */
  lemma RememberedWordSettled(m: Store, marks: seq<nat>, epoch: nat, log: seq<Card>, s: nat, w: Word)
    requires AllPlaced(m) && |marks| == |m.objects|
    requires Remembered(m) && LogExact(m.pages, log) && CardsAddressable(m)
    requires OldLive(m, s) && Homed(m, s, m.objects[s])
    requires forall i | 0 <= i < |log| :: CardSettled(m, marks, epoch, log[i])
    requires w in Words(m, m.objects[s]) && PointsYoung(m, m.objects[s], w)
    ensures Settled(m, marks, epoch, false, Child(m, m.objects[s], w))
  {
    var o := m.objects[s];
    var cards := m.pages[o.page].cards;
    assert Remembers(m, o);
    var i :| 0 <= i < |cards| && cards[i] && CardTouches(i, o.offset + w.SpanStart(), w.SpanSize());
    assert Flagged(m.pages, Card(o.page, i));
    var k :| 0 <= k < |log| && log[k] == Card(o.page, i);
    assert CardSettled(m, marks, epoch, log[k]);
    WordVisited(m, s, i, w);
    VisitedWordSettled(m, marks, epoch, o, i, w);
  }

  /** Tracing the logged cards follows every reference that a minor collection must follow from old entries. */
  lemma CardsTraceOld(m: Store, marks: seq<nat>, epoch: nat, log: seq<Card>)
    requires AllPlaced(m) && |marks| == |m.objects|
    requires Remembered(m) && LogExact(m.pages, log) && CardsAddressable(m)
    requires forall s: nat | OldLive(m, s) :: Homed(m, s, m.objects[s])
    requires forall i | 0 <= i < |log| :: CardSettled(m, marks, epoch, log[i])
    ensures forall s: nat | OldLive(m, s) :: YoungTraced(m, marks, epoch, s)
  {
    forall s: nat, w | OldLive(m, s) && w in Words(m, m.objects[s]) && PointsYoung(m, m.objects[s], w)
      ensures Settled(m, marks, epoch, false, Child(m, m.objects[s], w))
    {
      RememberedWordSettled(m, marks, epoch, log, s, w);
    }
  }

  // ----- bad references a card's trace meets -----

  /** No card word of this entry holds a bad reference. */
  ghost predicate EntryClean(m: Store, o: Object, index: nat)
    requires Placed(m, o)
  {
    AllResolve(m, Children(m, o, CardWords(m, o, index)))
  }

  ghost predicate CardClean(m: Store, c: Card)
    requires AllPlaced(m)
  {
    forall s: nat | OldLive(m, s) && m.objects[s].page == c.page :: EntryClean(m, m.objects[s], c.index)
  }

  /** A card without words holds nothing to follow and nothing bad. */
  lemma EmptyCard(m: Store, c: Card)
    requires AllPlaced(m)
    requires forall s: nat | Live(m, s) && m.objects[s].page == c.page :: CardWords(m, m.objects[s], c.index) == []
    ensures CardFollowable(m, {}, c) && CardClean(m, c)
  {
    hide CardWords;
  }

  lemma SettledResolve(m: Store, marks: seq<nat>, epoch: nat, major: bool, refs: seq<Ref>)
    requires |marks| == |m.objects| && AllSettled(m, marks, epoch, major, refs)
    ensures AllResolve(m, refs)
  {
  }

  lemma CardSettledClean(m: Store, marks: seq<nat>, epoch: nat, c: Card)
    requires AllPlaced(m) && |marks| == |m.objects| && CardSettled(m, marks, epoch, c)
    ensures CardClean(m, c)
  {
    forall s: nat | OldLive(m, s) && m.objects[s].page == c.page
      ensures EntryClean(m, m.objects[s], c.index)
    {
      SettledResolve(m, marks, epoch, false, Children(m, m.objects[s], CardWords(m, m.objects[s], c.index)));
    }
  }

  /** The test `tracePendingCards` applies to a page entry. */
  predicate InWindow(m: Store, slot: nat, page: nat, start: nat, end: nat) {
    Live(m, slot) && m.objects[slot].page == page && Overlap(m.objects[slot].offset, m.objects[slot].size, start, end)
  }

  /** A page entry in the card's window with a bad reference in a card word. */
  ghost predicate EntryBad(m: Store, c: Card, slot: nat)
    requires AllPlaced(m) && c.page < |m.pages|
  {
    && InWindow(m, slot, c.page, WindowStart(c.index), WindowEnd(c.index, |m.pages[c.page].data|))
    && !EntryClean(m, m.objects[slot], c.index)
  }

  ghost predicate EntriesSettled(m: Store, marks: seq<nat>, epoch: nat, c: Card, first: nat, last: nat)
    requires AllPlaced(m) && |marks| == |m.objects| && IsCard(m.pages, c) && last <= |m.pages[c.page].entries|
  {
    var p := m.pages[c.page];
    forall k: nat | first <= k < last ::
      InWindow(m, p.entries[k], c.page, WindowStart(c.index), WindowEnd(c.index, |p.data|)) ==>
        EntrySettled(m, marks, epoch, m.objects[p.entries[k]], c.index)
  }

  lemma EntriesSettledNext(m: Store, before: seq<nat>, after: seq<nat>, epoch: nat, c: Card, first: nat, last: nat)
    requires AllPlaced(m) && |before| == |m.objects| && MarksGrow(before, after, epoch)
    requires IsCard(m.pages, c) && first <= last < |m.pages[c.page].entries|
    requires EntriesSettled(m, before, epoch, c, first, last)
    requires var p := m.pages[c.page];
             InWindow(m, p.entries[last], c.page, WindowStart(c.index), WindowEnd(c.index, |p.data|)) ==>
               EntrySettled(m, after, epoch, m.objects[p.entries[last]], c.index)
    ensures EntriesSettled(m, after, epoch, c, first, last + 1)
  {
    var p := m.pages[c.page];
    forall k: nat | first <= k < last
      && InWindow(m, p.entries[k], c.page, WindowStart(c.index), WindowEnd(c.index, |p.data|))
      ensures EntrySettled(m, after, epoch, m.objects[p.entries[k]], c.index)
    {
      var o := m.objects[p.entries[k]];
      assert EntrySettled(m, before, epoch, o, c.index);
      AllSettledStay(m, before, after, epoch, false, Children(m, o, CardWords(m, o, c.index)));
    }
  }

  /** The page entries inside the card's range are all the old entries the card concerns. */
  lemma CardSettledByEntries(m: Store, marks: seq<nat>, epoch: nat, c: Card)
    requires AllPlaced(m) && |marks| == |m.objects| && IsCard(m.pages, c)
    requires forall s: nat | OldLive(m, s) :: Homed(m, s, m.objects[s])
    requires var p := m.pages[c.page];
             var r := EntryRange(p, WindowStart(c.index), WindowEnd(c.index, |p.data|));
             EntriesSettled(m, marks, epoch, c, r.0, r.1)
    ensures CardSettled(m, marks, epoch, c)
  {
    var p := m.pages[c.page];
    var start, end := WindowStart(c.index), WindowEnd(c.index, |p.data|);
    forall s: nat | OldLive(m, s) && m.objects[s].page == c.page
      ensures EntrySettled(m, marks, epoch, m.objects[s], c.index)
    {
      var o := m.objects[s];
      if Overlap(o.offset, o.size, start, end) {
        var k := EntryInRange(m, s, o, start, end);
        assert InWindow(m, p.entries[k], c.page, start, end);
      } else {
        assert CardWords(m, o, c.index) == [];
      }
    }
  }
}
