/** The directory's slot vectors and the release of an entry. */
module Directory {
  import opened Prelude
  import opened HeapWords
  import opened CardScan
  import opened HeapModel
  import opened Cards
  import opened Evacuation

  // ----- vectors with back indices -----

  /** Each listed slot knows its position. */
  ghost predicate Indexed(v: seq<nat>, index: seq<nat>) {
    forall i | 0 <= i < |v| :: v[i] < |index| && index[v[i]] == i
  }

  lemma IndexedDistinct(v: seq<nat>, index: seq<nat>)
    requires Indexed(v, index)
    ensures Distinct(v)
  {
    forall i, j | 0 <= i < j < |v|
      ensures v[i] != v[j]
    {
      assert index[v[i]] == i && index[v[j]] == j;
    }
  }

  lemma SwapDeleteRemoves(v: seq<nat>, index: seq<nat>, i: nat)
    requires Indexed(v, index) && i < |v|
    ensures Indexed(SwapDelete(v, i), index[v[|v| - 1] := i])
    ensures forall x: nat :: x in SwapDelete(v, i) <==> x in v && x != v[i]
  {
    IndexedDistinct(v, index);
    var last := |v| - 1;
    var v' := SwapDelete(v, i);
    forall x: nat
      ensures x in v' <==> x in v && x != v[i]
    {
      if x in v && x != v[i] {
        var j :| 0 <= j < |v| && v[j] == x;
        if j == last {
          assert v'[i] == x;
        } else {
          assert v'[j] == x;
        }
      }
    }
  }

  /** `occupied` lists the live entries; `youngSlots` lists live entries, the young ones among them. */
  ghost predicate Listed(m: Store, occupied: seq<nat>, occupiedIndex: seq<nat>, young: seq<nat>, youngIndex: seq<nat>) {
    && |occupiedIndex| == |m.objects| && |youngIndex| == |m.objects|
    && Indexed(occupied, occupiedIndex) && Indexed(young, youngIndex)
    && (forall s: nat :: s in occupied <==> Live(m, s))
    && (forall s: nat | s in young :: Live(m, s))
    && (forall s: nat | Live(m, s) && m.objects[s].young :: s in young)
  }

  // ----- releasing one entry -----

  /** An old page or a large page after the entry's cell is given back. */
  function Vacated(p: Page, o: Object): Page
    requires if p.kind.OldPage? then 0 < p.cell && CellOf(p, o) < |p.entries| && p.cell <= p.used else |p.entries| == 1
  {
    if p.kind.OldPage? then
      p.(entries := p.entries[CellOf(p, o) := 0], free := p.free + [CellOf(p, o)], used := p.used - p.cell)
    else
      p.(entries := [0], used := 0)
  }

  ghost predicate CanVacate(m: Store, s: nat) {
    && Live(m, s) && m.objects[s].page < |m.pages|
    && (m.objects[s].young ||
        var p := m.pages[m.objects[s].page];
        if p.kind.OldPage? then 0 < p.cell && CellOf(p, m.objects[s]) < |p.entries| && p.cell <= p.used
          else |p.entries| == 1)
  }

  lemma HomedCanVacate(m: Store, s: nat)
    requires Arranged(m) && Live(m, s)
    ensures CanVacate(m, s)
  {
    var o := m.objects[s];
    assert HomedAny(m, s, o) && PageOk(m.pages[o.page]);
    if !o.young && m.pages[o.page].kind.OldPage? {
      var p := m.pages[o.page];
      OccupancyUpdate(p.entries, CellOf(p, o), 0);
      assert p.entries[CellOf(p, o)] == s;
      assert Occupancy(p.entries) >= 1;
      ElementBaseMonotone(p.cell, 1, Occupancy(p.entries));
      assert ElementBase(p.cell, 0) == 0;
    }
  }

  /** The store after `freeObject`. */
  ghost function Freed(m: Store, s: nat): Store
    requires CanVacate(m, s)
  {
    var o := m.objects[s];
    m.(objects := m.objects[s := o.(state := Free, logical := 0)],
       pages := if o.young then m.pages else m.pages[o.page := Vacated(m.pages[o.page], o)])
  }

  /** What is still live keeps its entry and its payload. */
  ghost predicate SubGraph(m: Store, m': Store) {
    && m'.layouts == m.layouts && |m'.objects| == |m.objects| && AllPlaced(m) && AllPlaced(m')
    && (forall t: nat | Live(m', t) ::
          Live(m, t) && m'.objects[t] == m.objects[t] && Payload(m', m'.objects[t]) == Payload(m, m.objects[t]))
  }

  lemma SubGraphTransitive(a: Store, b: Store, c: Store)
    requires SubGraph(a, b) && SubGraph(b, c)
    ensures SubGraph(a, c)
  {
  }

  lemma FreeKeepsHome(m: Store, s: nat, t: nat)
    requires Arranged(m) && CanVacate(m, s) && Live(m, t) && t != s
    ensures var m' := Freed(m, s); Placed(m', m'.objects[t]) && HomedAny(m', t, m'.objects[t])
  {
    assert HomedAny(m, t, m.objects[t]) && HomedAny(m, s, m.objects[s]);
    var o := m.objects[s];
    if !o.young && m.objects[t].page == o.page {
      if m.pages[o.page].kind.OldPage? {
        OtherCell(m, t, o.page, CellOf(m.pages[o.page], o));
      }
    }
  }

  lemma VacatedPageOk(m: Store, s: nat)
    requires Arranged(m) && CanVacate(m, s) && !m.objects[s].young
    ensures PageOk(Vacated(m.pages[m.objects[s].page], m.objects[s]))
  {
    var o := m.objects[s];
    var p := m.pages[o.page];
    assert HomedAny(m, s, o) && PageOk(p);
    if p.kind.OldPage? {
      OccupancyUpdate(p.entries, CellOf(p, o), 0);
      assert CellOf(p, o) !in p.free;
    }
  }

  lemma FreeKeepsArranged(m: Store, s: nat)
    requires Arranged(m) && CanVacate(m, s)
    ensures Arranged(Freed(m, s)) && SubGraph(m, Freed(m, s))
    ensures forall t: nat :: Live(Freed(m, s), t) <==> Live(m, t) && t != s
  {
    var m' := Freed(m, s);
    if !m.objects[s].young {
      VacatedPageOk(m, s);
    }
    forall p: nat | p < |m'.pages|
      ensures PageOk(m'.pages[p])
    {
      assert PageOk(m.pages[p]);
    }
    forall t: nat | Live(m', t)
      ensures Placed(m', m'.objects[t]) && Sized(m', m'.objects[t]) && HomedAny(m', t, m'.objects[t])
    {
      FreeKeepsHome(m, s, t);
    }
  }

  /** The vectors depend on the directory alone. */
  lemma ListedDirectoryOnly(m: Store, m': Store, occupied: seq<nat>, occupiedIndex: seq<nat>, young: seq<nat>,
      youngIndex: seq<nat>)
    requires m'.objects == m.objects
    requires Listed(m, occupied, occupiedIndex, young, youngIndex)
    ensures Listed(m', occupied, occupiedIndex, young, youngIndex)
  {
    forall s: nat
      ensures Live(m, s) <==> Live(m', s)
    {
    }
  }

  // ----- removing what was not marked -----

  /** Only unmarked young entries have been freed since `m`. */
  ghost predicate Culled(m: Store, m': Store, marks: seq<nat>, epoch: nat)
    requires |marks| == |m.objects|
  {
    && m'.layouts == m.layouts && m'.pages == m.pages && |m'.objects| == |m.objects|
    && (forall s: nat | s < |m.objects| ::
          m'.objects[s] == m.objects[s] ||
          (Live(m, s) && m.objects[s].young && marks[s] != epoch
            && m'.objects[s] == m.objects[s].(state := Free, logical := 0)))
  }

  lemma CulledNext(m: Store, m': Store, marks: seq<nat>, epoch: nat, s: nat)
    requires |marks| == |m.objects| && Culled(m, m', marks, epoch)
    requires CanVacate(m', s) && m'.objects[s].young && marks[s] != epoch
    ensures Culled(m, Freed(m', s), marks, epoch)
  {
  }

  lemma CulledSubGraph(m: Store, m': Store, marks: seq<nat>, epoch: nat)
    requires AllPlaced(m) && |marks| == |m.objects| && Culled(m, m', marks, epoch)
    ensures SubGraph(m, m')
    ensures forall s: nat | Live(m, s) && (!m.objects[s].young || marks[s] == epoch) :: Live(m', s)
  {
  }

  lemma CulledKeepsRemembered(m: Store, m': Store)
    requires SubGraph(m, m') && Remembered(m)
    requires |m'.pages| == |m.pages| && forall p: nat | p < |m.pages| :: m'.pages[p].cards == m.pages[p].cards
    ensures Remembered(m')
  {
    forall t: nat | Live(m', t) && !m'.objects[t].young
      ensures Remembers(m', m'.objects[t])
    {
      var o := m.objects[t];
      assert Live(m, t) && Remembers(m, o);
      forall w | w in Words(m', o) && PointsYoung(m', o, w)
        ensures Covered(m'.pages[o.page].cards, o.offset + w.SpanStart(), w.SpanSize())
      {
        assert Live(m', Child(m', o, w).slot);
        assert PointsYoung(m, o, w);
      }
    }
  }

  /** The first slots of the young vector are young and marked. */
  ghost predicate KeptYoung(m: Store, marks: seq<nat>, epoch: nat, young: seq<nat>)
    requires |marks| == |m.objects|
  {
    forall i | 0 <= i < |young| :: young[i] < |m.objects| && m.objects[young[i]].young && marks[young[i]] == epoch
  }

  lemma KeptAfterFree(m: Store, marks: seq<nat>, epoch: nat, young: seq<nat>, s: nat)
    requires |marks| == |m.objects| && KeptYoung(m, marks, epoch, young) && CanVacate(m, s) && s !in young
    ensures KeptYoung(Freed(m, s), marks, epoch, young)
  {
  }

  // ----- the whole evacuation -----

  /** Exactly old and marked entries are left, with their identity and their bytes. */
  ghost predicate Evacuated(m: Store, m': Store, marks: seq<nat>, epoch: nat)
    requires |marks| == |m.objects|
  {
    && m'.layouts == m.layouts && |m'.objects| == |m.objects| && AllPlaced(m) && AllPlaced(m')
    && (forall s: nat :: Live(m', s) <==> Live(m, s) && (!m.objects[s].young || marks[s] == epoch))
    && (forall s: nat | Live(m', s) ::
          SameIdentity(m.objects[s], m'.objects[s]) && Payload(m', m'.objects[s]) == Payload(m, m.objects[s]))
    && (forall s: nat | s < |m.objects| && !m.objects[s].young :: m'.objects[s] == m.objects[s])
    && SameSizes(m.pages, m'.pages)
    && (forall s: nat | Live(m', s) && m.objects[s].young && !m'.objects[s].young :: OnOldPage(m', s))
    && (forall s: nat | Live(m', s) && m.objects[s].young :: Aged(m.objects[s], m'.objects[s]))
  }

  lemma ListedAfterMoves(m: Store, m': Store, occupied: seq<nat>, occupiedIndex: seq<nat>, young: seq<nat>,
      youngIndex: seq<nat>)
    requires Listed(m, occupied, occupiedIndex, young, youngIndex)
    requires |m'.objects| == |m.objects|
    requires forall s: nat | s < |m.objects| :: m'.objects[s].state == m.objects[s].state
    requires forall s: nat | s < |m.objects| && s !in young :: m'.objects[s] == m.objects[s]
    ensures Listed(m', occupied, occupiedIndex, young, youngIndex)
  {
    forall s: nat
      ensures Live(m, s) <==> Live(m', s)
    {
    }
  }

  /** Survivors that are still young have left the from-pages. */
  lemma LeftFromSpace(m0: Store, m1: Store, m2: Store, nursery: seq<nat>, young: seq<nat>, young2: seq<nat>,
      marks: seq<nat>, epoch: nat)
    requires |marks| == |m0.objects| == |m1.objects|
    requires Evacuating(m0, m1, nursery, young, |young|, marks, epoch)
    requires forall s: nat | Live(m1, s) && m1.objects[s].young :: s in young
    requires Culled(m1, m2, marks, epoch) && KeptYoung(m2, marks, epoch, young2)
    requires forall s: nat | Live(m2, s) && m2.objects[s].young :: s in young2
    ensures forall s: nat | Live(m2, s) && m2.objects[s].young :: m2.objects[s].page !in nursery
  {
    forall s: nat | Live(m2, s) && m2.objects[s].young
      ensures m2.objects[s].page !in nursery
    {
      assert s in young2;
      assert m2.objects[s] == m1.objects[s];
      assert Live(m1, s);
      var k :| 0 <= k < |young| && young[k] == s;
    }
  }

  /** What is left after the last two loops: marked entries and those that are old by now. */
  ghost predicate DroppedFrom(m1: Store, m3: Store, marks: seq<nat>, epoch: nat)
    requires |marks| == |m1.objects|
  {
    && m3.layouts == m1.layouts && |m3.objects| == |m1.objects| && AllPlaced(m1) && AllPlaced(m3)
    && (forall s: nat :: Live(m3, s) <==> Live(m1, s) && (!m1.objects[s].young || marks[s] == epoch))
    && (forall s: nat | s < |m1.objects| && (Live(m3, s) || !Live(m1, s)) :: m3.objects[s] == m1.objects[s])
    && (forall s: nat | Live(m3, s) :: Payload(m3, m3.objects[s]) == Payload(m1, m1.objects[s]))
    && SameSizes(m1.pages, m3.pages)
    && (forall p: nat | p < |m1.pages| && m1.pages[p].kind.OldPage? :: m3.pages[p].kind.OldPage?)
  }

  lemma DroppedBy(m1: Store, m2: Store, m3: Store, young2: seq<nat>, marks: seq<nat>, epoch: nat)
    requires AllPlaced(m1) && |marks| == |m1.objects|
    requires Culled(m1, m2, marks, epoch) && KeptYoung(m2, marks, epoch, young2)
    requires forall s: nat | Live(m2, s) && m2.objects[s].young :: s in young2
    requires m3 == m2.(pages := m3.pages) && SameGraph(m2, m3)
    requires SameSizes(m2.pages, m3.pages)
    requires forall p: nat | p < |m2.pages| && m2.pages[p].kind.OldPage? :: m3.pages[p].kind.OldPage?
    ensures DroppedFrom(m1, m3, marks, epoch)
  {
    CulledSubGraph(m1, m2, marks, epoch);
    forall s: nat
      ensures Live(m3, s) <==> Live(m1, s) && (!m1.objects[s].young || marks[s] == epoch)
    {
    }
  }

  lemma EvacuatedBy(m: Store, m0: Store, m1: Store, m3: Store, nursery: seq<nat>, young: seq<nat>, marks: seq<nat>,
      epoch: nat)
    requires |marks| == |m.objects| == |m1.objects|
    requires m0 == m.(pages := m0.pages) && SameGraph(m, m0) && SameGraph(m0, m1)
    requires Evacuating(m0, m1, nursery, young, |young|, marks, epoch)
    requires (forall s: nat | s in young :: m.objects[s].young) && SameSizes(m.pages, m0.pages)
    requires forall s: nat | Live(m, s) && m.objects[s].young :: s in young
    requires DroppedFrom(m1, m3, marks, epoch)
    ensures Evacuated(m, m3, marks, epoch)
  {
    SameGraphTransitive(m, m0, m1);
    forall s: nat
      ensures Live(m3, s) <==> Live(m, s) && (!m.objects[s].young || marks[s] == epoch)
    {
      if Live(m, s) && (!m.objects[s].young || marks[s] != epoch) {
        assert m1.objects[s] == m0.objects[s];
      }
    }
    forall s: nat | s < |m.objects| && !m.objects[s].young
      ensures m3.objects[s] == m.objects[s]
    {
      assert s !in young && m1.objects[s] == m0.objects[s];
    }
    forall s: nat | Live(m3, s) && m.objects[s].young && !m3.objects[s].young
      ensures OnOldPage(m3, s)
    {
      assert s in young;
      var k :| 0 <= k < |young| && young[k] == s;
      assert OnOldPage(m1, young[k]);
    }
    forall s: nat | Live(m3, s) && m.objects[s].young
      ensures Aged(m.objects[s], m3.objects[s])
    {
      assert Live(m, s) && marks[s] == epoch && m3.objects[s] == m1.objects[s];
      var k :| 0 <= k < |young| && young[k] == s;
      assert Aged(m0.objects[young[k]], m1.objects[young[k]]);
    }
  }

  lemma YoungAreListed(m: Store, occupied: seq<nat>, occupiedIndex: seq<nat>, young: seq<nat>, youngIndex: seq<nat>)
    requires Listed(m, occupied, occupiedIndex, young, youngIndex)
    ensures forall s: nat | Live(m, s) && m.objects[s].young :: s in young
  {
  }

  /** Moving survivors keeps the vectors and the byte total. */
  lemma DirectoryAfterMoves(m: Store, m0: Store, m1: Store, occupied: seq<nat>, occupiedIndex: seq<nat>,
      nursery: seq<nat>,
                            young: seq<nat>, youngIndex: seq<nat>, marks: seq<nat>, epoch: nat)
    requires Listed(m, occupied, occupiedIndex, young, youngIndex) && |marks| == |m.objects|
    requires m0.objects == m.objects && SameGraph(m0, m1)
    requires Evacuating(m0, m1, nursery, young, |young|, marks, epoch)
    ensures Listed(m1, occupied, occupiedIndex, young, youngIndex)
    ensures LiveBytes(m1.objects) == LiveBytes(m.objects)
  {
    ListedAfterMoves(m, m1, occupied, occupiedIndex, young, youngIndex);
    LiveBytesSame(m.objects, m1.objects);
  }

  // ----- sweeping the old generation -----

  /** Releasing cells changes only the occupancy of old and large pages. */
  ghost predicate CellsReleased(a: seq<Page>, b: seq<Page>) {
    && |a| == |b|
    && (forall p: nat | p < |a| :: b[p] == a[p].(entries := b[p].entries, free := b[p].free, used := b[p].used))
    && (forall p: nat | p < |a| && !a[p].kind.OldPage? && !a[p].kind.LargePage? :: b[p] == a[p])
  }

  lemma FreeReleasesCells(m: Store, s: nat)
    requires Arranged(m) && CanVacate(m, s)
    ensures CellsReleased(m.pages, Freed(m, s).pages)
  {
    assert HomedAny(m, s, m.objects[s]);
  }

  lemma ReleasedKeepsNursery(a: seq<Page>, b: seq<Page>, nursery: seq<nat>)
    requires CellsReleased(a, b) && NurseryPaired(a, nursery)
    ensures NurseryPaired(b, nursery)
  {
    forall i | 0 <= i < |nursery|
      ensures Paired(b, nursery[i], SparePage)
    {
      assert Paired(a, nursery[i], SparePage);
    }
  }

  /** Everything a safepoint needs still holds when one old entry has been freed. */
  lemma SweepKeeps(m: Store, s: nat, log: seq<Card>, capacity: nat, strict: bool, nursery: seq<nat>)
    requires Arranged(m) && CanVacate(m, s) && Remembered(m) && LogOk(m.pages, log, capacity, strict)
    requires NurseryPaired(m.pages, nursery)
    ensures var m' := Freed(m, s);
            && Arranged(m') && SubGraph(m, m') && Remembered(m') && CellsReleased(m.pages, m'.pages)
            && LogOk(m'.pages, log, capacity, strict) && NurseryPaired(m'.pages, nursery)
  {
    hide Remembered, NurseryPaired;
    var m' := Freed(m, s);
    FreeKeepsArranged(m, s);
    FreeReleasesCells(m, s);
    CulledKeepsRemembered(m, m');
    LogSameCards(m.pages, m'.pages, log, capacity, strict);
    ReleasedKeepsNursery(m.pages, m'.pages, nursery);
  }

  /** Exactly the entries in `gone` have been freed since `m`. */
  ghost predicate Swept(m: Store, m': Store, gone: set<nat>) {
    && SubGraph(m, m') && CellsReleased(m.pages, m'.pages)
    && (forall t: nat :: Live(m', t) <==> Live(m, t) && t !in gone)
    && (forall t: nat | t < |m.objects| && t !in gone :: m'.objects[t] == m.objects[t])
  }

  lemma SweptNext(m: Store, m': Store, gone: set<nat>, s: nat)
    requires Arranged(m') && Swept(m, m', gone) && CanVacate(m', s)
    ensures Swept(m, Freed(m', s), gone + {s})
  {
    FreeKeepsArranged(m', s);
    FreeReleasesCells(m', s);
    SubGraphTransitive(m, m', Freed(m', s));
  }

  lemma SweptStart(m: Store)
    requires Arranged(m)
    ensures Swept(m, m, {})
  {
  }

  /** `workers` chunks of `count / workers`, rounded up, reach `count`. */
  lemma ChunksCover(count: nat, workers: nat)
    requires 1 <= workers <= 4
    ensures count <= ElementBase((count + workers - 1) / workers, workers)
  {
    var chunk := (count + workers - 1) / workers;
    assert ElementBase(chunk, 0) == 0;
    assert ElementBase(chunk, 1) == chunk;
    assert ElementBase(chunk, 2) == 2 * chunk;
    assert ElementBase(chunk, 3) == 3 * chunk;
    assert ElementBase(chunk, 4) == 4 * chunk;
  }

  /** Live old entries without the mark. */
  ghost function DeadOld(m: Store, marks: seq<nat>, epoch: nat): set<nat>
    requires |marks| == |m.objects|
  {
    set s: nat | s < |m.objects| && Live(m, s) && !m.objects[s].young && marks[s] != epoch
  }

  ghost predicate IsDeadOld(m: Store, marks: seq<nat>, epoch: nat, s: nat)
    requires |marks| == |m.objects|
  {
    Live(m, s) && !m.objects[s].young && marks[s] != epoch
  }

  /** The dead old entries among the first `k` listed slots. */
  ghost function DeadBefore(m: Store, marks: seq<nat>, epoch: nat, listed: seq<nat>, k: nat): set<nat>
    requires |marks| == |m.objects| && k <= |listed|
  {
    set s: nat | s in listed[..k] && IsDeadOld(m, marks, epoch, s)
  }

  /** Dead old entries in the order of the vector, zero for the others. */
  ghost predicate PartitionOf(m: Store, marks: seq<nat>, epoch: nat, listed: seq<nat>, queue: seq<nat>, k: nat)
    requires |marks| == |m.objects| && k <= |listed| == |queue|
  {
    forall i | 0 <= i < k :: queue[i] == if IsDeadOld(m, marks, epoch, listed[i]) then listed[i] else 0
  }

  lemma ListedFacts(m: Store, occupied: seq<nat>, occupiedIndex: seq<nat>, young: seq<nat>, youngIndex: seq<nat>)
    requires Listed(m, occupied, occupiedIndex, young, youngIndex)
    ensures Distinct(occupied) && forall s: nat | Live(m, s) :: s in occupied
  {
    IndexedDistinct(occupied, occupiedIndex);
  }

  /** The next dead entry of the partition has not been freed yet. */
  lemma NextDead(m: Store, m': Store, marks: seq<nat>, epoch: nat, listed: seq<nat>, queue: seq<nat>, gone: set<nat>,
      k: nat)
    requires |marks| == |m.objects| && k < |listed| == |queue| && Distinct(listed)
    requires PartitionOf(m, marks, epoch, listed, queue, |listed|) && queue[k] != 0
    requires Swept(m, m', gone) && gone == DeadBefore(m, marks, epoch, listed, k)
    ensures queue[k] == listed[k] && IsDeadOld(m, marks, epoch, listed[k]) && Live(m', queue[k])
    ensures !m'.objects[queue[k]].young
    ensures Arranged(m') ==> CanVacate(m', queue[k])
  {
    assert listed[k] !in listed[..k];
    if Arranged(m') {
      HomedCanVacate(m', queue[k]);
    }
  }

  lemma DeadBeforeNext(m: Store, marks: seq<nat>, epoch: nat, listed: seq<nat>, k: nat)
    requires |marks| == |m.objects| && k < |listed|
    ensures DeadBefore(m, marks, epoch, listed, k + 1) ==
            DeadBefore(m, marks, epoch, listed, k) + (if IsDeadOld(m, marks, epoch, listed[k]) then {listed[k]} else {})
  {
    assert listed[..k + 1] == listed[..k] + [listed[k]];
  }

  lemma DeadBeforeAll(m: Store, marks: seq<nat>, epoch: nat, listed: seq<nat>)
    requires |marks| == |m.objects| && forall s: nat | Live(m, s) :: s in listed
    ensures DeadBefore(m, marks, epoch, listed, |listed|) == DeadOld(m, marks, epoch)
  {
    assert listed[..|listed|] == listed;
  }
}
