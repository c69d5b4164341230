/** From the marks to what a whole collection guarantees. */
module Collection {
  import opened Prelude
  import opened HeapWords
  import opened CardScan
  import opened HeapModel
  import opened Cards
  import opened Marking
  import opened Evacuation
  import opened Directory
  import opened Reclaim

  // ----- roots -----

  ghost predicate RootsResolve(m: Store, roots: seq<Ref>) {
    forall i | 0 <= i < |roots| :: roots[i].Null() || Resolves(m, roots[i])
  }

  /** The slots the roots name. */
  function RootSlots(roots: seq<Ref>): set<nat> {
    set i | 0 <= i < |roots| && !roots[i].Null() :: roots[i].slot
  }

  ghost function OldSlots(m: Store): set<nat> {
    set s: nat | s < |m.objects| && OldLive(m, s)
  }

  /** The roots that marking would queue lead into `allowed`. */
  ghost predicate RootsAllowed(m: Store, roots: seq<Ref>, major: bool, allowed: set<nat>) {
    forall i | 0 <= i < |roots| && Resolves(m, roots[i]) && (major || m.objects[roots[i].slot].young) ::
      roots[i].slot in allowed
  }

  lemma RootsInReachable(m: Store, roots: seq<Ref>, more: set<nat>)
    requires AllPlaced(m)
    ensures RootsAllowed(m, roots, false, ReachableSet(m, RootSlots(roots) + more))
    ensures RootsAllowed(m, roots, true, ReachableSet(m, RootSlots(roots) + more))
  {
    forall i | 0 <= i < |roots| && Resolves(m, roots[i])
      ensures roots[i].slot in ReachableSet(m, RootSlots(roots) + more)
    {
      assert !roots[i].Null();
      assert roots[i].slot in RootSlots(roots);
      RootReachable(m, RootSlots(roots) + more, roots[i].slot);
    }
  }

  lemma OldInReachable(m: Store, roots: set<nat>)
    requires AllPlaced(m)
    ensures forall s: nat | OldLive(m, s) :: s in ReachableSet(m, roots + OldSlots(m))
  {
    forall s: nat | OldLive(m, s)
      ensures s in ReachableSet(m, roots + OldSlots(m))
    {
      RootReachable(m, roots + OldSlots(m), s);
    }
  }

  // ----- marks -----

  /** What a minor collection has marked: the young entries that roots or old entries reach. */
  lemma MinorMarksExact(m: Store, marks: seq<nat>, queue: seq<nat>, epoch: nat, roots: seq<Ref>)
    requires AllPlaced(m) && RootsResolve(m, roots)
    requires QueueHoldsMarked(m, marks, queue, epoch, false)
    requires AllSettled(m, marks, epoch, false, roots)
    requires forall i | 0 <= i < |queue| :: Traced(m, marks, epoch, false, queue[i])
    requires OldTraced(m, marks, epoch)
    requires forall i | 0 <= i < |queue| :: queue[i] in ReachableSet(m, RootSlots(roots) + OldSlots(m))
    ensures forall s: nat | Young(m, s) :: marks[s] == epoch <==> Reachable(m, RootSlots(roots) + OldSlots(m), s)
  {
    var all := RootSlots(roots) + OldSlots(m);
    forall r | r in all && Young(m, r)
      ensures marks[r] == epoch
    {
      var i :| 0 <= i < |roots| && !roots[i].Null() && roots[i].slot == r;
      assert Settled(m, marks, epoch, false, roots[i]);
    }
    MinorMarksReachable(m, marks, queue, epoch, all);
  }

  /** What a major collection has marked: exactly what the roots reach. */
  lemma MajorMarksExact(m: Store, marks: seq<nat>, queue: seq<nat>, epoch: nat, roots: seq<Ref>)
    requires AllPlaced(m) && RootsResolve(m, roots)
    requires QueueHoldsMarked(m, marks, queue, epoch, true)
    requires AllSettled(m, marks, epoch, true, roots)
    requires forall i | 0 <= i < |queue| :: Traced(m, marks, epoch, true, queue[i])
    requires forall i | 0 <= i < |queue| :: queue[i] in ReachableSet(m, RootSlots(roots))
    ensures forall s: nat | Live(m, s) :: marks[s] == epoch <==> Reachable(m, RootSlots(roots), s)
  {
    forall r | r in RootSlots(roots)
      ensures Live(m, r) && marks[r] == epoch
    {
      var i :| 0 <= i < |roots| && !roots[i].Null() && roots[i].slot == r;
      assert Settled(m, marks, epoch, true, roots[i]);
    }
    MajorMarksReachable(m, marks, queue, epoch, RootSlots(roots));
  }

  /** More roots reach more. */
  lemma ReachableMonotone(m: Store, roots: set<nat>, more: set<nat>, s: nat)
    requires AllPlaced(m) && roots <= more && Reachable(m, roots, s)
    ensures Reachable(m, more, s)
  {
    var p :| PathTo(m, roots, s, p);
    assert PathTo(m, more, s, p);
  }

  lemma ReachableLive(m: Store, roots: set<nat>, s: nat)
    requires AllPlaced(m) && Reachable(m, roots, s)
    ensures Live(m, s)
  {
    var p :| PathTo(m, roots, s, p);
  }

  // ----- bad references -----

  /** What a major collection visits holds no bad reference. */
  ghost predicate MajorClean(m: Store, roots: seq<Ref>) {
    && AllPlaced(m) && RootsResolve(m, roots)
    && (forall s: nat | Live(m, s) && Reachable(m, RootSlots(roots), s) :: RefsOf(m, s))
  }

  /** What a minor collection visits holds no bad reference: roots, logged cards, and young entries that are reached. */
  ghost predicate MinorClean(m: Store, log: seq<Card>, roots: seq<Ref>) {
    && AllPlaced(m) && RootsResolve(m, roots) && CardsAreClean(m, log)
    && (forall s: nat | Young(m, s) && Reachable(m, RootSlots(roots) + OldSlots(m), s) :: RefsOf(m, s))
  }

  lemma QueueCulprit(m: Store, queue: seq<nat>, allowed: set<nat>)
    requires AllPlaced(m) && forall i | 0 <= i < |queue| :: queue[i] in allowed && Live(m, queue[i])
    ensures (forall i | 0 <= i < |queue| :: RefsOf(m, queue[i]))
      || exists s: nat :: s in allowed && Live(m, s) && !RefsOf(m, s)
  {
  }

  /** Some young entry of the set holds a bad reference. */
  ghost predicate YoungBad(m: Store, allowed: set<nat>)
    requires AllPlaced(m)
  {
    exists s: nat :: s in allowed && Young(m, s) && !RefsOf(m, s)
  }

  ghost predicate CardsAreClean(m: Store, log: seq<Card>)
    requires AllPlaced(m)
  {
    forall i | 0 <= i < |log| :: CardClean(m, log[i])
  }

  ghost predicate OldTraced(m: Store, marks: seq<nat>, epoch: nat)
    requires AllPlaced(m) && |marks| == |m.objects|
  {
    forall s: nat | OldLive(m, s) :: YoungTraced(m, marks, epoch, s)
  }

  lemma YoungCulprit(m: Store, queue: seq<nat>, allowed: set<nat>)
    requires AllPlaced(m) && forall i | 0 <= i < |queue| :: Live(m, queue[i])
    requires forall i | 0 <= i < |queue| :: queue[i] in allowed && Young(m, queue[i])
    ensures (forall i | 0 <= i < |queue| :: RefsOf(m, queue[i])) || YoungBad(m, allowed)
  {
  }

  lemma MajorCleanByMarks(m: Store, marks: seq<nat>, epoch: nat, roots: seq<Ref>)
    requires AllPlaced(m) && RootsResolve(m, roots) && KeptRefs(m, marks, epoch)
    requires forall s: nat | Live(m, s) :: marks[s] == epoch <==> Reachable(m, RootSlots(roots), s)
    ensures MajorClean(m, roots)
  {
    hide Reachable, RefsOf;
  }

  lemma MajorUnclean(m: Store, roots: seq<Ref>)
    requires AllPlaced(m)
    requires !RootsResolve(m, roots)
      || exists s: nat :: s in ReachableSet(m, RootSlots(roots)) && Live(m, s) && !RefsOf(m, s)
    ensures !MajorClean(m, roots)
  {
    hide Reachable, RefsOf;
  }

  lemma MinorCleanByMarks(m: Store, marks: seq<nat>, epoch: nat, log: seq<Card>, roots: seq<Ref>)
    requires AllPlaced(m) && RootsResolve(m, roots) && KeptRefs(m, marks, epoch)
    requires CardsAreClean(m, log)
    requires forall s: nat | Young(m, s) :: marks[s] == epoch <==> Reachable(m, RootSlots(roots) + OldSlots(m), s)
    ensures MinorClean(m, log, roots)
  {
    hide Reachable, RefsOf, CardsAreClean;
  }

  lemma MinorUnclean(m: Store, log: seq<Card>, roots: seq<Ref>)
    requires AllPlaced(m)
    requires !RootsResolve(m, roots) || YoungBad(m, ReachableSet(m, RootSlots(roots) + OldSlots(m)))
      || !CardsAreClean(m, log)
    ensures !MinorClean(m, log, roots)
  {
    hide Reachable, RefsOf, CardsAreClean;
  }

  /** Where no entry holds a bad reference, only a root can be one. */
  lemma CleanWhenResolved(m: Store, log: seq<Card>, roots: seq<Ref>)
    requires AllPlaced(m) && RefsResolve(m)
    ensures MajorClean(m, roots) <==> RootsResolve(m, roots)
    ensures MinorClean(m, log, roots) <==> RootsResolve(m, roots)
  {
    hide Reachable;
    ResolveEach(m);
    forall c: Card
      ensures CardClean(m, c)
    {
      forall s: nat | OldLive(m, s) && m.objects[s].page == c.page
        ensures EntryClean(m, m.objects[s], c.index)
      {
        CardWordsAreWords(m, m.objects[s], c.index);
      }
    }
  }

  // ----- references of what is left -----

  /** Every entry that is kept only refers to entries that are kept. */
  ghost predicate KeptClosed(m: Store, marks: seq<nat>, epoch: nat, major: bool)
    requires AllPlaced(m) && |marks| == |m.objects|
  {
    && (forall s: nat | Live(m, s) && marks[s] == epoch :: Traced(m, marks, epoch, major, s))
    && (!major ==> OldTraced(m, marks, epoch))
  }

  lemma KeptClosedByQueue(m: Store, marks: seq<nat>, queue: seq<nat>, epoch: nat, major: bool)
    requires AllPlaced(m) && QueueHoldsMarked(m, marks, queue, epoch, major)
    requires forall i | 0 <= i < |queue| :: Traced(m, marks, epoch, major, queue[i])
    requires major || OldTraced(m, marks, epoch)
    ensures KeptClosed(m, marks, epoch, major) && KeptRefs(m, marks, epoch)
  {
    forall s: nat | Live(m, s) && marks[s] == epoch
      ensures Traced(m, marks, epoch, major, s) && RefsOf(m, s)
    {
      var i :| 0 <= i < |queue| && queue[i] == s;
      TracedResolves(m, marks, epoch, major, s);
    }
  }

  /** After a minor collection no live entry holds a stale reference. */
  lemma MinorRefsResolve(m: Store, m': Store, marks: seq<nat>, epoch: nat)
    requires AllPlaced(m) && RefsResolve(m) && |marks| == |m.objects|
    requires KeptClosed(m, marks, epoch, false) && Evacuated(m, m', marks, epoch)
    ensures RefsResolve(m')
  {
    forall s: nat, w | Live(m', s) && w in Words(m', m'.objects[s])
      ensures Child(m', m'.objects[s], w).Null() || Resolves(m', Child(m', m'.objects[s], w))
    {
      assert SameIdentity(m.objects[s], m'.objects[s]) && Live(m, s);
      var r := Child(m, m.objects[s], w);
      assert r == Child(m', m'.objects[s], w);
      if !r.Null() {
        if m.objects[s].young {
          assert Traced(m, marks, epoch, false, s);
        } else {
          assert YoungTraced(m, marks, epoch, s);
          assert PointsYoung(m, m.objects[s], w) ==> Settled(m, marks, epoch, false, r);
        }
        assert Live(m', r.slot);
        assert SameIdentity(m.objects[r.slot], m'.objects[r.slot]);
      }
    }
  }

  /** Sweeping unmarked old entries leaves the references of marked entries intact. */
  lemma SweepKeepsRefs(m: Store, m': Store, marks: seq<nat>, epoch: nat)
    requires AllPlaced(m) && |marks| == |m.objects|
    requires KeptClosed(m, marks, epoch, true) && Swept(m, m', DeadOld(m, marks, epoch))
    ensures KeptRefs(m', marks, epoch)
  {
    forall s: nat | Live(m', s) && marks[s] == epoch
      ensures RefsOf(m', s)
    {
      assert Live(m, s) && m'.objects[s] == m.objects[s] && Traced(m, marks, epoch, true, s);
      forall w | w in Words(m', m'.objects[s])
        ensures Child(m', m'.objects[s], w).Null() || Resolves(m', Child(m', m'.objects[s], w))
      {
        var r := Child(m, m.objects[s], w);
        assert r == Child(m', m'.objects[s], w);
        assert r.Null() || (Settled(m, marks, epoch, true, r) && Resolves(m, r));
      }
    }
  }

  /** What is live after sweep and evacuation is what was marked, with its identity and bytes. */
  ghost predicate Collected(m: Store, m': Store, marks: seq<nat>, epoch: nat)
    requires |marks| == |m.objects|
  {
    && m'.layouts == m.layouts && |m'.objects| == |m.objects| && AllPlaced(m) && AllPlaced(m')
    && (forall s: nat :: Live(m', s) <==> Live(m, s) && marks[s] == epoch)
    && (forall s: nat | Live(m', s) ::
          SameIdentity(m.objects[s], m'.objects[s]) && Payload(m', m'.objects[s]) == Payload(m, m.objects[s]))
  }

  lemma CollectedBy(m: Store, m1: Store, m2: Store, m3: Store, marks: seq<nat>, epoch: nat)
    requires AllPlaced(m) && |marks| == |m.objects| == |m1.objects| == |m2.objects|
    requires Swept(m, m1, DeadOld(m, marks, epoch)) && m2.objects == m1.objects && SameGraph(m1, m2)
    requires Evacuated(m2, m3, marks, epoch)
    ensures Collected(m, m3, marks, epoch)
  {
    forall s: nat
      ensures Live(m3, s) <==> Live(m, s) && marks[s] == epoch
    {
      if Live(m, s) && s !in DeadOld(m, marks, epoch) {
        assert Live(m1, s) && m1.objects[s] == m.objects[s];
        assert Live(m2, s);
      } else {
        assert !Live(m1, s);
        assert !Live(m2, s);
      }
    }
    forall s: nat | Live(m3, s)
      ensures SameIdentity(m.objects[s], m3.objects[s]) && Payload(m3, m3.objects[s]) == Payload(m, m.objects[s])
    {
      assert Live(m2, s) && Live(m1, s);
    }
  }

  lemma MajorRefsResolve(m: Store, m': Store, marks: seq<nat>, epoch: nat)
    requires AllPlaced(m) && |marks| == |m.objects|
    requires KeptClosed(m, marks, epoch, true) && Collected(m, m', marks, epoch)
    ensures RefsResolve(m')
  {
    forall s: nat, w | Live(m', s) && w in Words(m', m'.objects[s])
      ensures Child(m', m'.objects[s], w).Null() || Resolves(m', Child(m', m'.objects[s], w))
    {
      assert SameIdentity(m.objects[s], m'.objects[s]) && Live(m, s);
      var r := Child(m, m.objects[s], w);
      assert r == Child(m', m'.objects[s], w);
      assert Traced(m, marks, epoch, true, s);
      if !r.Null() {
        assert Settled(m, marks, epoch, true, r);
        assert Live(m', r.slot);
        assert SameIdentity(m.objects[r.slot], m'.objects[r.slot]);
      }
    }
  }

  lemma ResolveEach(m: Store)
    requires AllPlaced(m) && RefsResolve(m)
    ensures forall s: nat | Live(m, s) :: RefsOf(m, s)
  {
  }

  // ----- cards stay addressable -----

  lemma {:induction false} NoElementsNoWords(l: Layout)
    ensures AllWords(l, 0) == []
  {
  }

  /** Old pages are small: their cards never wrap. */
  lemma OldPageAddressable(m: Store, s: nat, index: nat)
    requires Arranged(m) && OldLive(m, s) && OnOldPage(m, s) && index < CardCount(|m.pages[m.objects[s].page].data|)
    ensures CardArithmeticWraps(m, m.objects[s], index) ==> WordsInCard(m, m.objects[s], index) == []
  {
    var o := m.objects[s];
    var l := m.layouts[o.layout];
    assert PageOk(m.pages[o.page]) && HomedAny(m, s, o);
    if o.count == 0 {
      NoElementsNoWords(l);
    } else {
      ElementBaseMonotone(l.stride, 1, o.count);
      assert ElementBase(l.stride, 1) == l.stride;
    }
  }

  lemma EvacuatedAddressable(m: Store, m': Store, marks: seq<nat>, epoch: nat)
    requires Arranged(m) && Arranged(m') && |marks| == |m.objects| && Evacuated(m, m', marks, epoch)
    requires CardsAddressable(m)
    ensures CardsAddressable(m')
  {
    forall s: nat, index: nat | Live(m', s) && !m'.objects[s].young
      && index < CardCount(|m'.pages[m'.objects[s].page].data|)
      ensures CardArithmeticWraps(m', m'.objects[s], index) ==> WordsInCard(m', m'.objects[s], index) == []
    {
      if m.objects[s].young {
        OldPageAddressable(m', s, index);
      } else {
        assert m'.objects[s] == m.objects[s] && Live(m, s);
        assert WordsInCard(m', m'.objects[s], index) == WordsInCard(m, m.objects[s], index);
      }
    }
  }

  // ----- preparing the card trace -----

  /** Cards are on pages of the old generation. */
  lemma LogPagesOld(m: Store, log: seq<Card>)
    requires Arranged(m) && LogExact(m.pages, log)
    ensures forall i, s: nat | 0 <= i < |log| && Live(m, s) && m.objects[s].page == log[i].page :: OldLive(m, s)
  {
    forall i, s: nat | 0 <= i < |log| && Live(m, s) && m.objects[s].page == log[i].page
      ensures OldLive(m, s)
    {
      assert log[i] in log && Flagged(m.pages, log[i]);
      assert PageOk(m.pages[log[i].page]) && HomedAny(m, s, m.objects[s]);
    }
  }

  lemma CardsReady(m: Store, allowed: set<nat>, log: seq<Card>)
    requires Arranged(m) && ClosedUnderPoints(m, allowed) && LogExact(m.pages, log)
    requires forall s: nat | OldLive(m, s) :: s in allowed
    ensures forall i | 0 <= i < |log| :: CardFollowable(m, allowed, log[i])
    ensures forall i, s: nat | 0 <= i < |log| && Live(m, s) && m.objects[s].page == log[i].page :: OldLive(m, s)
    ensures forall s: nat | OldLive(m, s) :: Homed(m, s, m.objects[s])
  {
    LogPagesOld(m, log);
    forall i | 0 <= i < |log|
      ensures CardFollowable(m, allowed, log[i])
    {
      AllCardsFollowable(m, allowed, log[i]);
    }
    forall s: nat | OldLive(m, s)
      ensures Homed(m, s, m.objects[s])
    {
      assert HomedAny(m, s, m.objects[s]);
    }
  }

  lemma CardsSettledStay(m: Store, before: seq<nat>, after: seq<nat>, epoch: nat, log: seq<Card>)
    requires AllPlaced(m) && |before| == |m.objects| && MarksGrow(before, after, epoch)
    requires forall i | 0 <= i < |log| :: CardSettled(m, before, epoch, log[i])
    ensures forall i | 0 <= i < |log| :: CardSettled(m, after, epoch, log[i])
  {
    forall i | 0 <= i < |log|
      ensures CardSettled(m, after, epoch, log[i])
    {
      CardSettledStays(m, before, after, epoch, log[i]);
    }
  }

  /** A safepoint gives the marker what it relies on. */
  lemma TraceReady(m: Store, occupied: seq<nat>, occupiedIndex: seq<nat>, young: seq<nat>, youngIndex: seq<nat>,
      log: seq<Card>, capacity: nat)
    requires Arranged(m) && Listed(m, occupied, occupiedIndex, young, youngIndex) && LogOk(m.pages, log, capacity, true)
    ensures AllPlaced(m) && Distinct(occupied) && (forall s: nat | Live(m, s) :: s in occupied)
    ensures LogExact(m.pages, log)
  {
    ListedFacts(m, occupied, occupiedIndex, young, youngIndex);
    StrictIsExact(m.pages, log, capacity);
  }

  // ----- the result of a minor collection -----

  /** Moving flags after the evacuation changes nothing that the collection promises. */
  lemma FinishMinorFacts(m: Store, m1: Store, m2: Store, marks: seq<nat>, epoch: nat, nursery: seq<nat>,
      lists: seq<seq<nat>>)
    requires Arranged(m) && |marks| == |m.objects| && KeptClosed(m, marks, epoch, false)
    requires Evacuated(m, m1, marks, epoch) && Arranged(m1) && CardsAddressable(m1)
    requires NurseryPaired(m1.pages, nursery) && Available(m1.pages, lists)
    requires m2 == m1.(pages := m2.pages) && FlagsOnly(m1.pages, m2.pages)
    ensures Arranged(m2) && Evacuated(m, m2, marks, epoch) && CardsAddressable(m2)
    ensures RefsResolve(m) ==> RefsResolve(m2)
    ensures NurseryPaired(m2.pages, nursery) && Available(m2.pages, lists)
    ensures forall s: nat :: Live(m2, s) ==> Live(m, s)
  {
    FlagsKeepArranged(m1, m2);
    FlagsKeepEvacuated(m, m1, m2, marks, epoch);
    if RefsResolve(m) {
      MinorRefsResolve(m, m2, marks, epoch);
    }
    FlagsKeepAddressable(m1, m2);
    FlagsKeepNursery(m1.pages, m2.pages, nursery);
  }

  lemma FlagsKeepNursery(a: seq<Page>, b: seq<Page>, nursery: seq<nat>)
    requires FlagsOnly(a, b) && NurseryPaired(a, nursery)
    ensures NurseryPaired(b, nursery)
  {
    forall i | 0 <= i < |nursery|
      ensures Paired(b, nursery[i], SparePage)
    {
      assert Paired(a, nursery[i], SparePage);
    }
  }

  lemma FlagsKeepAddressable(m: Store, m': Store)
    requires AllPlaced(m) && AllPlaced(m') && m' == m.(pages := m'.pages) && FlagsOnly(m.pages, m'.pages)
    requires CardsAddressable(m)
    ensures CardsAddressable(m')
  {
    forall s: nat, index: nat | Live(m', s) && !m'.objects[s].young
      && index < CardCount(|m'.pages[m'.objects[s].page].data|)
      ensures CardArithmeticWraps(m', m'.objects[s], index) ==> WordsInCard(m', m'.objects[s], index) == []
    {
      assert Live(m, s);
      assert WordsInCard(m', m'.objects[s], index) == WordsInCard(m, m.objects[s], index);
    }
  }

  lemma FlagsKeepEvacuated(m: Store, m1: Store, m2: Store, marks: seq<nat>, epoch: nat)
    requires |marks| == |m.objects| && Evacuated(m, m1, marks, epoch) && AllPlaced(m2)
    requires m2 == m1.(pages := m2.pages) && FlagsOnly(m1.pages, m2.pages)
    ensures Evacuated(m, m2, marks, epoch)
  {
    forall s: nat
      ensures Live(m2, s) <==> Live(m1, s)
    {
    }
    forall s: nat | Live(m2, s)
      ensures Payload(m2, m2.objects[s]) == Payload(m, m.objects[s])
    {
      FlagsKeepEntry(m1, m2, m1.objects[s]);
    }
  }

  /** What a minor collection keeps: old entries, and the young ones that roots or old entries reach. */
  ghost predicate KeptByMinor(m: Store, m': Store, roots: seq<Ref>) {
    && AllPlaced(m) && AllPlaced(m') && |m'.objects| == |m.objects|
    && (forall s: nat :: Live(m', s) <==>
          Live(m, s) && (!m.objects[s].young || Reachable(m, RootSlots(roots) + OldSlots(m), s)))
    && SamePayloads(m, m')
  }

  /** Live entries keep handle, layout and payload bytes. */
  ghost predicate SamePayloads(m: Store, m': Store)
    requires AllPlaced(m) && AllPlaced(m') && |m'.objects| == |m.objects|
  {
    && m'.layouts == m.layouts
    && (forall s: nat | Live(m', s) ::
      Live(m, s) && SameIdentity(m.objects[s], m'.objects[s])
        && Payload(m', m'.objects[s]) == Payload(m, m.objects[s]))
  }

  lemma MinorKept(m: Store, m': Store, marks: seq<nat>, epoch: nat, roots: seq<Ref>)
    requires |marks| == |m.objects| && Evacuated(m, m', marks, epoch)
    requires forall s: nat | Young(m, s) :: marks[s] == epoch <==> Reachable(m, RootSlots(roots) + OldSlots(m), s)
    ensures KeptByMinor(m, m', roots)
  {
    hide Reachable;
    forall s: nat
      ensures Live(m', s) <==> Live(m, s) && (!m.objects[s].young || Reachable(m, RootSlots(roots) + OldSlots(m), s))
    {
    }
  }

  /**
    * Minor collections are safe: what the program can reach from its roots is still published under the same handle
    * with the same bytes.
    */
  lemma MinorCollectionSafe(m: Store, m': Store, roots: seq<Ref>, s: nat)
    requires KeptByMinor(m, m', roots) && Reachable(m, RootSlots(roots), s)
    ensures Live(m', s) && m'.objects[s].generation == m.objects[s].generation
    ensures Payload(m', m'.objects[s]) == Payload(m, m.objects[s])
  {
    ReachableLive(m, RootSlots(roots), s);
    ReachableMonotone(m, RootSlots(roots), RootSlots(roots) + OldSlots(m), s);
  }

  // ----- the result of a major collection -----

  lemma SweptRefs(m: Store, m1: Store, marks: seq<nat>, epoch: nat)
    requires Arranged(m) && |marks| == |m.objects|
    requires KeptClosed(m, marks, epoch, true) && Swept(m, m1, DeadOld(m, marks, epoch))
    ensures AllPlaced(m1) && KeptRefs(m1, marks, epoch)
  {
    SweepKeepsRefs(m, m1, marks, epoch);
  }

  lemma MajorDropped(m: Store, m1: Store, m2: Store, m3: Store, marks: seq<nat>, epoch: nat)
    requires Arranged(m) && |marks| == |m.objects| == |m1.objects| == |m2.objects|
    requires Swept(m, m1, DeadOld(m, marks, epoch)) && m2.objects == m1.objects && SameGraph(m1, m2)
    requires HomesKeepSize(m1, m2)
    requires Evacuated(m2, m3, marks, epoch) && Arranged(m2) && Arranged(m3)
    ensures Collected(m, m3, marks, epoch)
    ensures CardsAddressable(m) ==> CardsAddressable(m3)
  {
    CollectedBy(m, m1, m2, m3, marks, epoch);
    if CardsAddressable(m) {
      SweptAddressable(m, m1, DeadOld(m, marks, epoch));
      KeptSizesAddressable(m1, m2);
      EvacuatedAddressable(m2, m3, marks, epoch);
    }
  }

  lemma FlagsKeepCollected(m: Store, m1: Store, m2: Store, marks: seq<nat>, epoch: nat)
    requires |marks| == |m.objects| && Collected(m, m1, marks, epoch) && AllPlaced(m2)
    requires m2 == m1.(pages := m2.pages) && FlagsOnly(m1.pages, m2.pages)
    ensures Collected(m, m2, marks, epoch)
  {
    forall s: nat
      ensures Live(m2, s) <==> Live(m1, s)
    {
    }
    forall s: nat | Live(m2, s)
      ensures Payload(m2, m2.objects[s]) == Payload(m, m.objects[s])
    {
      FlagsKeepEntry(m1, m2, m1.objects[s]);
    }
  }

  lemma ResetFacts(m: Store, m1: Store, m2: Store, marks: seq<nat>, epoch: nat, nursery: seq<nat>, lists: seq<seq<nat>>)
    requires Arranged(m) && |marks| == |m.objects| && KeptClosed(m, marks, epoch, true)
    requires Collected(m, m1, marks, epoch) && Arranged(m1) && NurseryPaired(m1.pages, nursery)
    requires Available(m1.pages, lists)
    requires m2 == m1.(pages := m2.pages) && FlagsOnly(m1.pages, m2.pages)
    ensures Arranged(m2) && Collected(m, m2, marks, epoch) && RefsResolve(m2)
    ensures (forall s: nat | Live(m2, s) :: RefsOf(m2, s))
    ensures NurseryPaired(m2.pages, nursery) && Available(m2.pages, lists)
    ensures CardsAddressable(m1) ==> CardsAddressable(m2)
  {
    FlagsKeepArranged(m1, m2);
    FlagsKeepCollected(m, m1, m2, marks, epoch);
    MajorRefsResolve(m, m2, marks, epoch);
    ResolveEach(m2);
    FlagsKeepNursery(m1.pages, m2.pages, nursery);
    if CardsAddressable(m1) {
      FlagsKeepAddressable(m1, m2);
    }
  }

  lemma RebuiltFacts(m: Store, m1: Store, m2: Store, marks: seq<nat>, epoch: nat, nursery: seq<nat>,
      lists: seq<seq<nat>>)
    requires Arranged(m) && |marks| == |m.objects| && KeptClosed(m, marks, epoch, true)
    requires Collected(m, m1, marks, epoch) && Arranged(m1) && NurseryPaired(m1.pages, nursery)
    requires Available(m1.pages, lists)
    requires m2 == m1.(pages := m2.pages) && FlagsOnly(m1.pages, m2.pages)
    ensures Arranged(m2) && Collected(m, m2, marks, epoch) && RefsResolve(m2)
    ensures NurseryPaired(m2.pages, nursery) && Available(m2.pages, lists)
    ensures CardsAddressable(m1) ==> CardsAddressable(m2)
    ensures forall s: nat | Live(m2, s) :: marks[s] == epoch
  {
    ResetFacts(m, m1, m2, marks, epoch, nursery, lists);
  }

  /** What a major collection keeps: exactly what the roots reach. */
  ghost predicate KeptByMajor(m: Store, m': Store, roots: seq<Ref>) {
    && AllPlaced(m) && AllPlaced(m') && |m'.objects| == |m.objects|
    && (forall s: nat :: Live(m', s) <==> Live(m, s) && Reachable(m, RootSlots(roots), s))
    && SamePayloads(m, m')
  }

  lemma MajorKept(m: Store, m': Store, marks: seq<nat>, epoch: nat, roots: seq<Ref>)
    requires |marks| == |m.objects| && Collected(m, m', marks, epoch)
    requires forall s: nat | Live(m, s) :: marks[s] == epoch <==> Reachable(m, RootSlots(roots), s)
    ensures KeptByMajor(m, m', roots)
    ensures MarkedBytes(m.objects, marks, epoch) == LiveBytes(m'.objects)
  {
    hide Reachable;
    forall s: nat
      ensures Live(m', s) <==> Live(m, s) && Reachable(m, RootSlots(roots), s)
    {
    }
    forall s: nat | 0 < s < |m.objects| && marks[s] == epoch
      ensures m.objects[s].state.Published? <==> m'.objects[s].state.Published?
      ensures m.objects[s].state.Published? ==> m.objects[s].logical == m'.objects[s].logical
    {
      assert Live(m', s) <==> Live(m, s);
    }
    forall s: nat | 0 < s < |m'.objects| && m'.objects[s].state.Published?
      ensures marks[s] == epoch
    {
      assert Live(m', s);
    }
    MarkedBytesSame(m.objects, m'.objects, marks, epoch);
    MarkedIsLive(m'.objects, marks, epoch);
  }

  // ----- where the card arithmetic wraps -----

  const WIDE: Layout := Layout(0xC000_0000, [0x8000_0000], [])
  const PLAIN: Layout := Layout(8, [], [])

  /** One 3 GiB element whose only reference, to slot 2, is at 2 GiB. */
  function WideData(): seq<byte> {
    seq(0xC000_0000, i requires 0 <= i < 0xC000_0000 => if i == 0x8000_0000 then 2 else if i == 0x8000_0004 then 1
      else 0)
  }

  function WideStore(): Store {
    Store([Object(Free, 0, 0, 0, 0, 0, 0, 0, 0, false),
           Object(Published, 1, 1, 1, 0, 0, 0xC000_0000, 0, 0, false),
           Object(Published, 1, 2, 1, 1, 0, 8, 0, 0, true)],
          [Page(LargePage, WideData(), 0xC000_0000, 0, 0, [1], [], seq(0xC0_0000, i => i == 0x80_0000), 0xC0_0000),
           Page(YoungPage, seq(PAGE_BYTES, i => 0), 8, 0, 2, [], [], [], 0),
           Page(SparePage, seq(PAGE_BYTES, i => 0), 0, 0, 1, [], [], [], 0)],
          [Layout(0, [], []), WIDE, PLAIN])
  }

  lemma {:induction false} WideWords()
    ensures AllWords(WIDE, 1) == [RefWord(0x8000_0000)] && AllWords(PLAIN, 1) == []
  {
    assert ElementBase(WIDE.stride, 0) == 0 && ElementBase(PLAIN.stride, 0) == 0;
    assert WordsBetween(WIDE, 0, 0) == [] && WordsBetween(PLAIN, 0, 0) == [];
    assert AllWords(WIDE, 1) == RefWords([0x8000_0000], 0) + DynWords([], 0);
    assert AllWords(PLAIN, 1) == RefWords([], 0) + DynWords([], 0);
  }

  lemma WideChild()
    ensures var m := WideStore();
            Placed(m, m.objects[1]) && Placed(m, m.objects[2])
              && Child(m, m.objects[1], RefWord(0x8000_0000)) == Ref(2, 1)
  {
    var m := WideStore();
    assert |WideData()| == 0xC000_0000;
    var payload := Payload(m, m.objects[1]);
    assert payload == WideData();
  }

  lemma WidePlaced()
    ensures AllPlaced(WideStore())
  {
    var m := WideStore();
    assert |WideData()| == 0xC000_0000;
    assert ElementBase(WIDE.stride, 0) == 0 && ElementBase(PLAIN.stride, 0) == 0;
    assert ElementBase(WIDE.stride, 1) == 0xC000_0000 && ElementBase(PLAIN.stride, 1) == 8;
    assert ValidLayout(WIDE) && ValidLayout(PLAIN);
    assert Sized(m, m.objects[1]) && Sized(m, m.objects[2]);
  }

  lemma WideRefs()
    ensures AllPlaced(WideStore()) && RefsResolve(WideStore())
  {
    hide Edge, WideData;
    WideWords();
    WideChild();
    WidePlaced();
  }

  lemma WideCovered()
    ensures Covered(WideStore().pages[0].cards, 0x8000_0000, 8)
  {
    hide WideData;
    var cards := WideStore().pages[0].cards;
    assert cards[0x80_0000] && CardTouches(0x80_0000, 0x8000_0000, 8);
  }

  lemma WideRemembered()
    ensures AllPlaced(WideStore()) && Remembered(WideStore())
  {
    hide Edge, WideData;
    var m, w := WideStore(), RefWord(0x8000_0000);
    WideWords();
    WidePlaced();
    WideCovered();
    hide Covered, CardTouches;
    assert Remembers(m, m.objects[1]);
    forall s: nat | Live(m, s) && !m.objects[s].young
      ensures Remembers(m, m.objects[s])
    {
      assert s == 1;
    }
  }

  lemma WideReachable()
    ensures AllPlaced(WideStore()) && Reachable(WideStore(), {1}, 2)
  {
    hide Edge, WideData;
    var m, w := WideStore(), RefWord(0x8000_0000);
    WideWords();
    WideChild();
    WidePlaced();
    assert PointsBy(m, 1, w, 2) && Points(m, 1, 2);
    assert Live(m, 1) && Live(m, 2);
    RootReachable(m, {1}, 1);
    hide WideStore, Points, Reachable;
    ReachableStep(m, {1}, 1, 2);
  }

  lemma WideLog()
    ensures LogOk(WideStore().pages, [Card(0, 0x80_0000)], 0xC0_0000, true)
  {
    hide WideData;
    var pages := WideStore().pages;
    TotalOfThree(pages);
    hide TotalCards;
    forall c: Card
      ensures c in [Card(0, 0x80_0000)] <==> Flagged(pages, c)
    {
    }
  }

  lemma TotalOfThree(pages: seq<Page>)
    requires |pages| == 3
    ensures TotalCards(pages) == pages[0].cardCapacity + pages[1].cardCapacity + pages[2].cardCapacity
  {
    assert pages[..2][..1] == pages[..1] && pages[..1][..0] == [];
    assert TotalCards(pages[..1]) == pages[0].cardCapacity;
    assert TotalCards(pages[..2]) == TotalCards(pages[..1]) + pages[1].cardCapacity;
    assert TotalCards(pages) == TotalCards(pages[..2]) + pages[2].cardCapacity;
  }

  lemma WideCard()
    ensures var m := WideStore();
            && Live(m, 1) && Placed(m, m.objects[1]) && Homed(m, 1, m.objects[1])
            && CardWords(m, m.objects[1], 0x80_0000) == []
  {
    assert |WideData()| == 0xC000_0000;
  }

  lemma WideArranged()
    ensures Arranged(WideStore())
  {
    hide AllWords;
    var m := WideStore();
    WidePlaced();
    WideCard();
    assert |WideData()| == 0xC000_0000;
    hide AllPlaced, WideData, CardWords, Homed;
    assert PageOk(m.pages[0]) && PageOk(m.pages[1]) && PageOk(m.pages[2]);
    assert HomedAny(m, 1, m.objects[1]) && HomedAny(m, 2, m.objects[2]);
    hide PageOk, HomedAny;
  }

  lemma WideNursery()
    ensures NurseryPaired(WideStore().pages, [1]) && Available(WideStore().pages, seq(CLASSES, i => []))
  {
    hide WideData;
    assert Paired(WideStore().pages, 1, SparePage);
  }

  lemma WideListed()
    ensures Listed(WideStore(), [1, 2], [0, 0, 1], [2], [0, 0, 0]) && LiveBytes(WideStore().objects) == 0
  {
    hide WideData;
    var m := WideStore();
    assert forall s: nat :: Live(m, s) <==> s == 1 || s == 2;
    var os := m.objects;
    assert os[..2][..1] == os[..1] && os[..1][..0] == [];
    assert LiveBytes(os[..1]) == 0 && LiveBytes(os[..2]) == 0;
  }
}
