/** Moving payloads between pages without disturbing any other payload. */
module Evacuation {
  import opened Prelude
  import opened HeapWords
  import opened CardScan
  import opened HeapModel
  import opened Cards

  // ----- the graph does not depend on where payloads are -----

  /** Fields of an entry that a collection never changes. */
  predicate SameIdentity(a: Object, b: Object) {
    && a.state == b.state && a.generation == b.generation && a.layout == b.layout
    && a.count == b.count && a.size == b.size && a.logical == b.logical
  }

  /** Same entries with the same payload bytes, wherever they are stored. */
  ghost predicate SameGraph(m: Store, m': Store) {
    && m'.layouts == m.layouts && |m'.objects| == |m.objects|
    && AllPlaced(m) && AllPlaced(m')
    && (forall s: nat | s < |m.objects| :: SameIdentity(m.objects[s], m'.objects[s]))
    && (forall s: nat | Live(m, s) :: Live(m', s) && Payload(m', m'.objects[s]) == Payload(m, m.objects[s]))
  }

  lemma SameGraphTransitive(a: Store, b: Store, c: Store)
    requires SameGraph(a, b) && SameGraph(b, c)
    ensures SameGraph(a, c)
  {
    forall s: nat | Live(a, s)
      ensures Live(c, s) && Payload(c, c.objects[s]) == Payload(a, a.objects[s])
    {
      assert Live(b, s);
    }
  }

  lemma SameGraphRefs(m: Store, m': Store, s: nat)
    requires SameGraph(m, m') && Live(m, s) && RefsOf(m, s)
    ensures RefsOf(m', s)
  {
    assert SameIdentity(m.objects[s], m'.objects[s]);
    forall w | w in Words(m', m'.objects[s])
      ensures Child(m', m'.objects[s], w).Null() || Resolves(m', Child(m', m'.objects[s], w))
    {
      var r := Child(m, m.objects[s], w);
      assert r == Child(m', m'.objects[s], w);
      assert r.Null() || Resolves(m, r);
    }
  }

  lemma SameGraphKept(m: Store, m': Store, marks: seq<nat>, epoch: nat)
    requires SameGraph(m, m') && KeptRefs(m, marks, epoch)
    ensures KeptRefs(m', marks, epoch)
  {
    forall s: nat | Live(m', s) && marks[s] == epoch
      ensures RefsOf(m', s)
    {
      assert SameIdentity(m.objects[s], m'.objects[s]);
      assert Live(m, s);
      SameGraphRefs(m, m', s);
    }
  }

  lemma FlagsSameGraph(m: Store, m': Store)
    requires AllPlaced(m) && m' == m.(pages := m'.pages) && FlagsOnly(m.pages, m'.pages)
    ensures SameGraph(m, m')
  {
    FlagsKeepPlaced(m, m');
    forall s: nat | Live(m, s)
      ensures Payload(m', m'.objects[s]) == Payload(m, m.objects[s])
    {
      FlagsKeepEntry(m, m', m.objects[s]);
    }
  }

  // ----- where entries live -----

  predicate DisjointExtents(a: Object, b: Object) {
    a.page != b.page || a.offset + a.size <= b.offset || b.offset + b.size <= a.offset
  }

  ghost predicate YoungHomed(m: Store, o: Object)
    requires Placed(m, o)
  {
    m.pages[o.page].kind.YoungPage? && o.offset + o.size <= m.pages[o.page].used
  }

  ghost predicate HomedAny(m: Store, s: nat, o: Object)
    requires Placed(m, o)
  {
    if o.young then YoungHomed(m, o) else Homed(m, s, o)
  }

  /** How many cells of an old page are taken. */
  function Occupancy(entries: seq<nat>): nat {
    if entries == [] then 0
    else Occupancy(entries[..|entries| - 1]) + (if entries[|entries| - 1] != 0 then 1 else 0)
  }

  lemma {:induction false} OccupancyUpdate(entries: seq<nat>, k: nat, s: nat)
    requires k < |entries|
    ensures Occupancy(entries[k := s]) + (if entries[k] != 0 then 1 else 0) ==
      Occupancy(entries) + (if s != 0 then 1 else 0)
  {
    var n := |entries| - 1;
    if k == n {
      assert entries[k := s][..n] == entries[..n];
    } else {
      assert entries[k := s][..n] == entries[..n][k := s];
      OccupancyUpdate(entries[..n], k, s);
    }
  }

  lemma {:induction false} OccupancyZero(entries: seq<nat>)
    requires Occupancy(entries) == 0
    ensures forall i | 0 <= i < |entries| :: entries[i] == 0
  {
    if entries != [] {
      OccupancyZero(entries[..|entries| - 1]);
    }
  }

  /** Sizes of old-page cells: 8 bytes and its doublings. */
  function ClassBytes(index: nat): (bytes: nat)
    ensures 0 < bytes
  {
    if index == 0 then 8 else 2 * ClassBytes(index - 1)
  }

  const CLASSES: nat := 14
  const PAGE_BYTES: nat := 0x1_0000

  ghost predicate PageOk(p: Page) {
    && |p.data| < U32
    && match p.kind {
         case OldPage =>
           && |p.data| <= PAGE_BYTES
           && 0 < p.cell && ElementBase(p.cell, |p.entries|) <= |p.data|
           && (exists k: nat :: k < CLASSES && p.cell == ClassBytes(k))
           && p.used == ElementBase(p.cell, Occupancy(p.entries))
           && |p.cards| == CardCount(|p.data|)
           && Distinct(p.free)
           && (forall i | 0 <= i < |p.free| :: p.free[i] < |p.entries| && p.entries[p.free[i]] == 0)
         case LargePage => |p.cards| == CardCount(|p.data|)
         case _ => p.cards == [] && p.used <= |p.data|
       }
  }

  /** Every live entry is where its generation says, and young payloads do not meet. */
  ghost predicate Arranged(m: Store) {
    && AllPlaced(m)
    && (forall p: nat | p < |m.pages| :: PageOk(m.pages[p]))
    && (forall s: nat | Live(m, s) :: HomedAny(m, s, m.objects[s]))
    && (forall s: nat, t: nat | Live(m, s) && Live(m, t) && s != t && m.objects[s].young && m.objects[t].young ::
          DisjointExtents(m.objects[s], m.objects[t]))
  }

  // ----- one move -----

  function Write(data: seq<byte>, at: nat, bytes: seq<byte>): seq<byte>
    requires at + |bytes| <= |data|
  {
    data[..at] + bytes + data[at + |bytes|..]
  }

  lemma WriteThere(data: seq<byte>, at: nat, bytes: seq<byte>)
    requires at + |bytes| <= |data|
    ensures Write(data, at, bytes)[at..at + |bytes|] == bytes
  {
  }

  lemma WriteElsewhere(data: seq<byte>, at: nat, bytes: seq<byte>, from: nat, to: nat)
    requires at + |bytes| <= |data| && from <= to <= |data|
    requires to <= at || at + |bytes| <= from
    ensures Write(data, at, bytes)[from..to] == data[from..to]
  {
    var d := Write(data, at, bytes);
    assert |d| == |data|;
    forall i | from <= i < to
      ensures d[i] == data[i]
    {
    }
  }

  /** Entry `s` now lives at `offset` of `page`; only that page's bytes there changed. */
  ghost predicate MovedTo(m: Store, m': Store, s: nat, page: nat, offset: nat)
    requires Live(m, s) && Placed(m, m.objects[s])
  {
    var o := m.objects[s];
    && page < |m.pages| && page != o.page
    && offset + o.size <= |m.pages[page].data| < U32
    && m'.layouts == m.layouts
    && |m'.objects| == |m.objects| && |m'.pages| == |m.pages|
    && (forall t: nat | t < |m.objects| && t != s :: m'.objects[t] == m.objects[t])
    && m'.objects[s] == o.(page := page, offset := offset, young := m'.objects[s].young, age := m'.objects[s].age)
    && (forall p: nat | p < |m.pages| && p != page :: m'.pages[p] == m.pages[p])
    && m'.pages[page].data == Write(m.pages[page].data, offset, Payload(m, o))
  }

  /** No live payload meets the destination. */
  ghost predicate RegionFree(m: Store, page: nat, offset: nat, size: nat) {
    forall t: nat | Live(m, t) && m.objects[t].page == page ::
      m.objects[t].offset + m.objects[t].size <= offset || offset + size <= m.objects[t].offset
  }

  lemma MoveKeepsEntry(m: Store, m': Store, s: nat, page: nat, offset: nat, t: nat)
    requires AllPlaced(m) && Live(m, s) && Live(m, t) && MovedTo(m, m', s, page, offset)
    requires RegionFree(m, page, offset, m.objects[s].size)
    ensures Placed(m', m'.objects[t]) && Payload(m', m'.objects[t]) == Payload(m, m.objects[t])
    ensures Sized(m', m'.objects[t])
  {
    var o := m.objects[s];
    var data, bytes := m.pages[page].data, Payload(m, o);
    assert |Write(data, offset, bytes)| == |data|;
    if t == s {
      WriteThere(data, offset, bytes);
    } else if m.objects[t].page == page {
      WriteElsewhere(data, offset, bytes, m.objects[t].offset, m.objects[t].offset + m.objects[t].size);
    }
  }

  /** A move into free bytes keeps every payload, the moved one included. */
  lemma MoveKeepsGraph(m: Store, m': Store, s: nat, page: nat, offset: nat)
    requires AllPlaced(m) && Live(m, s) && MovedTo(m, m', s, page, offset)
    requires RegionFree(m, page, offset, m.objects[s].size)
    ensures SameGraph(m, m')
  {
    forall t: nat | Live(m, t)
      ensures Live(m', t) && Placed(m', m'.objects[t]) && Sized(m', m'.objects[t])
      ensures Payload(m', m'.objects[t]) == Payload(m, m.objects[t])
    {
      MoveKeepsEntry(m, m', s, page, offset, t);
    }
    assert forall t: nat | Live(m', t) :: Live(m, t);
  }

  // ----- a survivor copied to its page's partner -----

  function Align8(n: nat): nat {
    (n + 7) / 8 * 8
  }

  lemma CopyRegionFree(m: Store, to: nat, at: nat, size: nat)
    requires Arranged(m) && to < |m.pages| && m.pages[to].kind.YoungPage? && m.pages[to].used <= at
    ensures RegionFree(m, to, at, size)
  {
    forall t: nat | Live(m, t) && m.objects[t].page == to
      ensures m.objects[t].offset + m.objects[t].size <= at
    {
      assert HomedAny(m, t, m.objects[t]);
    }
  }

  /** The state after `copyNursery` has copied `s` to `at` of page `to`. */
  ghost predicate CopiedTo(m: Store, m': Store, s: nat, to: nat, at: nat)
    requires Live(m, s) && Placed(m, m.objects[s])
  {
    && MovedTo(m, m', s, to, at)
    && m'.objects[s].young && m'.objects[s].age == m.objects[s].age + 1
    && m'.pages[to] == m.pages[to].(data := m'.pages[to].data, used := at + m.objects[s].size)
  }

  lemma CopyKeepsArranged(m: Store, m': Store, s: nat, to: nat, at: nat)
    requires Arranged(m) && Live(m, s) && m.objects[s].young && CopiedTo(m, m', s, to, at)
    requires m.pages[to].kind.YoungPage? && m.pages[to].used <= at
    ensures SameGraph(m, m') && Arranged(m')
  {
    CopyRegionFree(m, to, at, m.objects[s].size);
    MoveKeepsGraph(m, m', s, to, at);
    assert PageOk(m.pages[to]);
    forall t: nat | Live(m', t)
      ensures HomedAny(m', t, m'.objects[t])
    {
      assert Live(m, t) && HomedAny(m, t, m.objects[t]);
    }
    forall a: nat, b: nat | Live(m', a) && Live(m', b) && a != b && m'.objects[a].young && m'.objects[b].young
      ensures DisjointExtents(m'.objects[a], m'.objects[b])
    {
      assert HomedAny(m, a, m.objects[a]) && HomedAny(m, b, m.objects[b]);
      assert DisjointExtents(m.objects[a], m.objects[b]);
    }
  }

  // ----- a survivor promoted to a free cell of an old page -----

  lemma {:induction false} CellOfBase(cell: nat, k: nat)
    requires 0 < cell
    ensures Quotient(ElementBase(cell, k), cell) == k
  {
    if k != 0 {
      CellOfBase(cell, k - 1);
    }
  }

  lemma OtherCell(m: Store, t: nat, page: nat, k: nat)
    requires Arranged(m) && Live(m, t) && m.objects[t].page == page < |m.pages| && m.pages[page].kind.OldPage?
    requires k < |m.pages[page].entries| && m.pages[page].entries[k] != t
    ensures !m.objects[t].young && InCell(m.pages[page], m.objects[t])
    ensures CellOf(m.pages[page], m.objects[t]) != k
    ensures var o, at := m.objects[t], ElementBase(m.pages[page].cell, k);
            o.offset + o.size <= at || at + m.pages[page].cell <= o.offset
  {
    assert HomedAny(m, t, m.objects[t]);
    var p := m.pages[page];
    var kt := CellOf(p, m.objects[t]);
    if kt < k {
      ElementBaseMonotone(p.cell, kt + 1, k);
    } else {
      ElementBaseMonotone(p.cell, k + 1, kt);
    }
  }

  lemma PromoteRegionFree(m: Store, page: nat, k: nat, size: nat)
    requires Arranged(m) && page < |m.pages| && m.pages[page].kind.OldPage?
    requires k < |m.pages[page].entries| && m.pages[page].entries[k] == 0 && size <= m.pages[page].cell
    ensures RegionFree(m, page, ElementBase(m.pages[page].cell, k), size)
  {
    forall t: nat | Live(m, t) && m.objects[t].page == page
      ensures var o, at := m.objects[t], ElementBase(m.pages[page].cell, k);
              o.offset + o.size <= at || at + size <= o.offset
    {
      OtherCell(m, t, page, k);
    }
  }

  /** The state after `promoteObject` has moved `s` into the last free cell of `page`. */
  ghost predicate PromotedTo(m: Store, m': Store, s: nat, page: nat)
    requires Live(m, s) && Placed(m, m.objects[s])
  {
    && page < |m.pages| && m.pages[page].kind.OldPage? && |m.pages[page].free| > 0
    && var p := m.pages[page];
       var k := p.free[|p.free| - 1];
       && k < |p.entries| && m.objects[s].size <= p.cell
       && MovedTo(m, m', s, page, ElementBase(p.cell, k))
       && !m'.objects[s].young && m'.objects[s].age == 0
       && m'.pages[page] == p.(data := m'.pages[page].data, used := p.used + p.cell, entries :=
         p.entries[k := s], free := p.free[..|p.free| - 1])
  }

  lemma PromoteKeepsHomes(m: Store, m': Store, s: nat, page: nat, t: nat)
    requires Arranged(m) && Live(m, s) && m.objects[s].young && PromotedTo(m, m', s, page)
    requires Live(m, t) && Placed(m', m'.objects[t])
    ensures HomedAny(m', t, m'.objects[t])
  {
    var p := m.pages[page];
    var k := p.free[|p.free| - 1];
    assert PageOk(p) && HomedAny(m, t, m.objects[t]);
    if t == s {
      CellOfBase(p.cell, k);
    } else if m.objects[t].page == page {
      OtherCell(m, t, page, k);
    }
  }

  lemma PromoteKeepsArranged(m: Store, m': Store, s: nat, page: nat)
    requires Arranged(m) && Live(m, s) && m.objects[s].young && PromotedTo(m, m', s, page)
    ensures SameGraph(m, m') && Arranged(m')
  {
    var p := m.pages[page];
    var k := p.free[|p.free| - 1];
    assert PageOk(p);
    OccupancyUpdate(p.entries, k, s);
    PromoteRegionFree(m, page, k, m.objects[s].size);
    MoveKeepsGraph(m, m', s, page, ElementBase(p.cell, k));
    forall t: nat | Live(m', t)
      ensures HomedAny(m', t, m'.objects[t])
    {
      assert Live(m, t);
      PromoteKeepsHomes(m, m', s, page, t);
    }
    forall a: nat, b: nat | Live(m', a) && Live(m', b) && a != b && m'.objects[a].young && m'.objects[b].young
      ensures DisjointExtents(m'.objects[a], m'.objects[b])
    {
      assert DisjointExtents(m.objects[a], m.objects[b]);
    }
  }

  // ----- the remembered set under moves -----

  /** An old entry that stayed is still remembered when young entries only turned old. */
  lemma MoveKeepsRemembers(m: Store, m': Store, t: nat)
    requires SameGraph(m, m') && Live(m, t) && m'.objects[t] == m.objects[t]
    requires |m'.pages| == |m.pages| && m'.pages[m.objects[t].page].cards == m.pages[m.objects[t].page].cards
    requires forall x: nat | x < |m.objects| && m'.objects[x].young :: m.objects[x].young
    requires Remembers(m, m.objects[t])
    ensures Remembers(m', m'.objects[t])
  {
    var o := m.objects[t];
    forall w | w in Words(m', o) && PointsYoung(m', o, w)
      ensures Covered(m'.pages[o.page].cards, o.offset + w.SpanStart(), w.SpanSize())
    {
      assert Child(m', o, w) == Child(m, o, w);
      var r := Child(m, o, w);
      assert SameIdentity(m.objects[r.slot], m'.objects[r.slot]);
      assert PointsYoung(m, o, w);
    }
  }

  // ----- the to-space is large enough -----

  function SizeOn(objects: seq<Object>, s: nat, page: nat): nat {
    if s < |objects| && objects[s].page == page then objects[s].size else 0
  }

  /** Bytes that the listed entries occupy on a page. */
  function Load(objects: seq<Object>, slots: seq<nat>, page: nat): nat {
    if slots == [] then 0 else SizeOn(objects, slots[0], page) + Load(objects, slots[1..], page)
  }

  lemma {:induction false} LoadSame(a: seq<Object>, b: seq<Object>, slots: seq<nat>, page: nat)
    requires |a| == |b| && forall i | 0 <= i < |slots| && slots[i] < |a| :: a[slots[i]] == b[slots[i]]
    ensures Load(a, slots, page) == Load(b, slots, page)
  {
    if slots != [] {
      LoadSame(a, b, slots[1..], page);
    }
  }

  predicate InBytes(i: nat, from: nat, size: nat) {
    from <= i < from + size
  }

  function Bytes(from: nat, size: nat): set<nat> {
    set i: nat | i < from + size && InBytes(i, from, size)
  }

  lemma {:induction false} BytesSize(from: nat, size: nat)
    ensures |Bytes(from, size)| == size
  {
    if size > 0 {
      BytesSize(from, size - 1);
      assert Bytes(from, size) == Bytes(from, size - 1) + {from + size - 1};
    }
  }

  function BytesOn(objects: seq<Object>, s: nat, page: nat): set<nat> {
    if s < |objects| && objects[s].page == page then Bytes(objects[s].offset, objects[s].size) else {}
  }

  function LoadBytes(objects: seq<Object>, slots: seq<nat>, page: nat): set<nat> {
    if slots == [] then {} else BytesOn(objects, slots[0], page) + LoadBytes(objects, slots[1..], page)
  }

  ghost predicate PairwiseDisjoint(objects: seq<Object>, slots: seq<nat>) {
    forall i, j | 0 <= i < j < |slots| && slots[i] < |objects| && slots[j] < |objects| ::
      DisjointExtents(objects[slots[i]], objects[slots[j]])
  }

  lemma {:induction false} DisjointFromLoad(objects: seq<Object>, o: Object, slots: seq<nat>, page: nat)
    requires o.page == page
    requires forall i | 0 <= i < |slots| && slots[i] < |objects| :: DisjointExtents(o, objects[slots[i]])
    ensures Bytes(o.offset, o.size) !! LoadBytes(objects, slots, page)
  {
    if slots != [] {
      DisjointFromLoad(objects, o, slots[1..], page);
    }
  }

  lemma {:induction false} LoadIsBytes(objects: seq<Object>, slots: seq<nat>, page: nat)
    requires PairwiseDisjoint(objects, slots)
    ensures |LoadBytes(objects, slots, page)| == Load(objects, slots, page)
  {
    if slots != [] {
      LoadIsBytes(objects, slots[1..], page);
      var s := slots[0];
      if s < |objects| && objects[s].page == page {
        DisjointFromLoad(objects, objects[s], slots[1..], page);
        BytesSize(objects[s].offset, objects[s].size);
      }
    }
  }

  lemma {:induction false} LoadWithin(objects: seq<Object>, slots: seq<nat>, page: nat, bound: nat)
    requires forall i | 0 <= i < |slots| && slots[i] < |objects| && objects[slots[i]].page == page ::
               objects[slots[i]].offset + objects[slots[i]].size <= bound
    ensures LoadBytes(objects, slots, page) <= Bytes(0, bound)
  {
    if slots != [] {
      LoadWithin(objects, slots[1..], page, bound);
    }
  }

  /** Disjoint young payloads of a page take no more than its used bytes. */
  lemma YoungLoadFits(m: Store, slots: seq<nat>, page: nat)
    requires Arranged(m) && page < |m.pages| && Distinct(slots)
    requires forall i | 0 <= i < |slots| :: Live(m, slots[i]) && m.objects[slots[i]].young
    ensures Load(m.objects, slots, page) <= m.pages[page].used
  {
    forall i | 0 <= i < |slots| && m.objects[slots[i]].page == page
      ensures m.objects[slots[i]].offset + m.objects[slots[i]].size <= m.pages[page].used
    {
      assert HomedAny(m, slots[i], m.objects[slots[i]]);
    }
    LoadIsBytes(m.objects, slots, page);
    LoadWithin(m.objects, slots, page, m.pages[page].used);
    BytesSize(0, m.pages[page].used);
    SubsetSize(LoadBytes(m.objects, slots, page), Bytes(0, m.pages[page].used));
  }

  // ----- nursery pages and their partners -----

  /** Between collections: each nursery page has a spare partner of its size; there are no other young pages. */
  ghost predicate NurseryPaired(pages: seq<Page>, nursery: seq<nat>) {
    && Distinct(nursery)
    && (forall i | 0 <= i < |nursery| :: Paired(pages, nursery[i], SparePage))
    && (forall p: nat | p < |pages| && pages[p].kind.YoungPage? :: p in nursery)
  }

  ghost predicate Paired(pages: seq<Page>, from: nat, kind: PageKind) {
    && from < |pages| && pages[from].kind.YoungPage?
    && var to := pages[from].partner;
       && to < |pages| && to != from && pages[to].kind == kind && pages[to].partner == from
       && |pages[to].data| == |pages[from].data|
  }

  /** `q` is the partner of a nursery page. */
  ghost predicate PartnerOf(pages: seq<Page>, nursery: seq<nat>, q: nat) {
    q < |pages| && pages[q].partner in nursery && pages[q].partner < |pages| && pages[pages[q].partner].partner == q
  }

  /** While survivors move: the partners are open as to-space and none of them is a from-page. */
  ghost predicate NurseryOpen(pages: seq<Page>, nursery: seq<nat>) {
    && Distinct(nursery)
    && (forall i | 0 <= i < |nursery| :: Paired(pages, nursery[i], YoungPage) && pages[nursery[i]].partner !in nursery)
    && (forall p: nat | p < |pages| && pages[p].kind.YoungPage? && p !in nursery :: PartnerOf(pages, nursery, p))
  }

  /** What is left to copy fits into each to-page. */
  ghost predicate Room(m: Store, nursery: seq<nat>, slots: seq<nat>)
    requires NurseryOpen(m.pages, nursery)
  {
    forall i | 0 <= i < |nursery| ::
      var to := m.pages[m.pages[nursery[i]].partner];
      to.used % 8 == 0 && to.used + Load(m.objects, slots, nursery[i]) <= |to.data|
  }

  /** Pages listed as having room have the cell size of their list. */
  ghost predicate Available(pages: seq<Page>, lists: seq<seq<nat>>) {
    && |lists| == CLASSES
    && (forall k, i | 0 <= k < |lists| && 0 <= i < |lists[k]| ::
          lists[k][i] < |pages| && pages[lists[k][i]].kind.OldPage? && pages[lists[k][i]].cell == ClassBytes(k))
  }

  /** `k` is the first list that has a page with large enough cells, or `CLASSES` when there is none. */
  ghost predicate FirstClass(lists: seq<seq<nat>>, size: nat, k: nat)
    requires |lists| == CLASSES
  {
    && k <= CLASSES && (k < CLASSES ==> size <= ClassBytes(k) && lists[k] != [])
    && (forall j: nat | j < k && size <= ClassBytes(j) :: lists[j] == [])
  }

  /** Promotion finds a cell: the last page of the first fitting list has one left. */
  ghost predicate HasCell(pages: seq<Page>, lists: seq<seq<nat>>, size: nat)
    requires Available(pages, lists)
  {
    exists k: nat | k < CLASSES && lists[k] != [] ::
      FirstClass(lists, size, k) && pages[lists[k][|lists[k]| - 1]].free != []
  }

  lemma CellFound(pages: seq<Page>, lists: seq<seq<nat>>, size: nat, k: nat)
    requires Available(pages, lists) && FirstClass(lists, size, k)
    ensures HasCell(pages, lists, size) <==> k < CLASSES && pages[lists[k][|lists[k]| - 1]].free != []
  {
  }

  ghost predicate SameSizes(a: seq<Page>, b: seq<Page>) {
    && |a| == |b|
    && (forall p: nat | p < |a| :: |b[p].data| == |a[p].data|)
  }

  /** Pages keep their kind, size, cell size and partner. */
  ghost predicate SameShapes(a: seq<Page>, b: seq<Page>) {
    && |a| == |b|
    && (forall p: nat | p < |a| ::
          b[p].kind == a[p].kind && |b[p].data| == |a[p].data| && b[p].cell == a[p].cell
            && b[p].partner == a[p].partner &&
          |b[p].cards| == |a[p].cards|)
  }

  /** Everything but the pages of the old generation is unchanged. */
  ghost predicate OnlyOldPages(a: seq<Page>, b: seq<Page>) {
    && SameShapes(a, b)
    && (forall p: nat | p < |a| && !a[p].kind.OldPage? && !a[p].kind.LargePage? :: b[p] == a[p])
  }

  /** All old entries stay remembered when `s` is promoted; `s` itself still has to be. */
  lemma PromoteKeepsRemembered(m: Store, m': Store, s: nat, page: nat)
    requires Arranged(m) && Live(m, s) && m.objects[s].young && PromotedTo(m, m', s, page)
    requires Remembered(m)
    ensures SameGraph(m, m') && Arranged(m')
    ensures forall t: nat | Live(m', t) && !m'.objects[t].young && t != s :: Remembers(m', m'.objects[t])
  {
    PromoteKeepsArranged(m, m', s, page);
    forall t: nat | Live(m', t) && !m'.objects[t].young && t != s
      ensures Remembers(m', m'.objects[t])
    {
      assert Live(m, t);
      MoveKeepsRemembers(m, m', t);
    }
  }

  lemma FlagsKeepArranged(m: Store, m': Store)
    requires Arranged(m) && m' == m.(pages := m'.pages) && FlagsOnly(m.pages, m'.pages)
    ensures Arranged(m') && SameGraph(m, m')
  {
    FlagsSameGraph(m, m');
    forall p: nat | p < |m'.pages|
      ensures PageOk(m'.pages[p])
    {
      assert PageOk(m.pages[p]);
    }
    forall s: nat | Live(m', s)
      ensures HomedAny(m', s, m'.objects[s])
    {
      assert HomedAny(m, s, m.objects[s]);
      FlagsKeepEntry(m, m', m.objects[s]);
    }
  }

  /** Raising flags until the promoted entry is remembered completes the remembered set. */
  lemma RaisedCompletes(m: Store, m': Store, s: nat)
    requires AllPlaced(m) && AllPlaced(m') && m' == m.(pages := m'.pages) && FlagsRaised(m.pages, m'.pages)
    requires forall t: nat | Live(m, t) && !m.objects[t].young && t != s :: Remembers(m, m.objects[t])
    requires Live(m', s) && Remembers(m', m'.objects[s])
    ensures Remembered(m')
  {
    forall t: nat | Live(m', t) && !m'.objects[t].young
      ensures Remembers(m', m'.objects[t])
    {
      if t != s {
        assert Live(m, t);
        RaisedKeepsRemembers(m, m', m.objects[t]);
      }
    }
  }

  /** Flags exist only on old and large pages. */
  lemma FlagsKeepOld(a: seq<Page>, b: seq<Page>, c: seq<Page>)
    requires OnlyOldPages(a, b) && FlagsOnly(b, c)
    requires forall p: nat | p < |b| :: PageOk(b[p])
    ensures OnlyOldPages(a, c)
  {
    forall p: nat | p < |a| && !a[p].kind.OldPage? && !a[p].kind.LargePage?
      ensures c[p] == a[p]
    {
      assert PageOk(b[p]);
    }
  }

  lemma CopyKeepsRemembered(m: Store, m': Store, s: nat, to: nat, at: nat)
    requires Arranged(m) && Live(m, s) && m.objects[s].young && CopiedTo(m, m', s, to, at)
    requires SameGraph(m, m') && Remembered(m)
    ensures Remembered(m')
  {
    forall t: nat | Live(m', t) && !m'.objects[t].young
      ensures Remembers(m', m'.objects[t])
    {
      assert Live(m, t);
      MoveKeepsRemembers(m, m', t);
    }
  }

  lemma MovingAfterCopy(m: Store, m': Store, s: nat, to: nat, at: nat, log: seq<Card>, capacity: nat, strict: bool,
      marks: seq<nat>, epoch: nat)
    requires Arranged(m) && KeptRefs(m, marks, epoch) && Remembered(m) && LogOk(m.pages, log, capacity, strict)
    requires Live(m, s) && m.objects[s].young && CopiedTo(m, m', s, to, at)
    requires m.pages[to].kind.YoungPage? && m.pages[to].used <= at
    ensures SameGraph(m, m') && Arranged(m') && KeptRefs(m', marks, epoch) && Remembered(m')
    ensures LogOk(m'.pages, log, capacity, strict)
  {
    CopyKeepsArranged(m, m', s, to, at);
    CopyKeepsRemembered(m, m', s, to, at);
    SameGraphKept(m, m', marks, epoch);
    LogSameCards(m.pages, m'.pages, log, capacity, strict);
  }

  // ----- the evacuation loop -----

  /**
    * After the first `c` young slots: the others are where they were, survivors that stayed young have left the
    * from-pages, and the rest still fits.
    */
  ghost predicate Evacuating(m0: Store, m: Store, nursery: seq<nat>, young: seq<nat>, c: nat, marks: seq<nat>,
      epoch: nat)
    requires |marks| == |m0.objects| && c <= |young|
  {
    && |m.objects| == |m0.objects| && SameSizes(m0.pages, m.pages)
    && (forall k | 0 <= k < |young| :: young[k] < |m.objects|)
    && NurseryOpen(m.pages, nursery) && Room(m, nursery, young[c..])
    && (forall k | c <= k < |young| :: m.objects[young[k]] == m0.objects[young[k]])
    && (forall s: nat | s < |m.objects| && (s !in young || marks[s] != epoch) :: m.objects[s] == m0.objects[s])
    && (forall k | 0 <= k < c && marks[young[k]] == epoch && m.objects[young[k]].young ::
      m.objects[young[k]].page !in nursery)
    && (forall k | 0 <= k < c && marks[young[k]] == epoch && !m.objects[young[k]].young :: OnOldPage(m, young[k]))
    && (forall k | 0 <= k < c && marks[young[k]] == epoch :: Aged(m0.objects[young[k]], m.objects[young[k]]))
  }

  /** A survivor that stays young is one collection older; only one that has survived before is promoted. */
  predicate Aged(a: Object, b: Object) {
    if b.young then b.age == a.age + 1 else a.age >= 1 && b.age == 0
  }

  ghost predicate OnOldPage(m: Store, s: nat) {
    s < |m.objects| && m.objects[s].page < |m.pages| && m.pages[m.objects[s].page].kind.OldPage?
  }

  lemma EvacuatingNext(m0: Store, m: Store, nursery: seq<nat>, young: seq<nat>, c: nat, marks: seq<nat>, epoch: nat)
    requires |marks| == |m0.objects| && c < |young| && Evacuating(m0, m, nursery, young, c, marks, epoch)
    ensures young[c] < |m.objects| == |m0.objects| && m.objects[young[c]] == m0.objects[young[c]]
  {
  }

  /** The slots behind the cursor weigh the same after an entry at the cursor moved. */
  lemma LoadBehind(a: seq<Object>, b: seq<Object>, young: seq<nat>, c: nat, page: nat)
    requires |a| == |b| && c < |young| && Distinct(young) && young[c] < |a|
    requires forall t: nat | t < |a| && t != young[c] :: b[t] == a[t]
    ensures Load(b, young[c + 1..], page) == Load(a, young[c + 1..], page)
    ensures Load(a, young[c..], page) == SizeOn(a, young[c], page) + Load(a, young[c + 1..], page)
  {
    assert young[c..][1..] == young[c + 1..];
    LoadSame(a, b, young[c + 1..], page);
  }

  lemma SkipStep(m0: Store, m: Store, nursery: seq<nat>, young: seq<nat>, c: nat, marks: seq<nat>, epoch: nat)
    requires |marks| == |m0.objects| && c < |young| && Distinct(young)
    requires Evacuating(m0, m, nursery, young, c, marks, epoch) && marks[young[c]] != epoch
    ensures Evacuating(m0, m, nursery, young, c + 1, marks, epoch)
  {
    forall i | 0 <= i < |nursery|
      ensures Load(m.objects, young[c + 1..], nursery[i]) <= Load(m.objects, young[c..], nursery[i])
    {
      LoadBehind(m.objects, m.objects, young, c, nursery[i]);
    }
  }

  lemma PromoteStep(m0: Store, m: Store, m': Store, nursery: seq<nat>, young: seq<nat>, c: nat, marks: seq<nat>,
      epoch: nat)
    requires |marks| == |m0.objects| && c < |young| && Distinct(young)
    requires Evacuating(m0, m, nursery, young, c, marks, epoch) && marks[young[c]] == epoch
    requires |m'.objects| == |m.objects|
    requires forall t: nat | t < |m.objects| && t != young[c] :: m'.objects[t] == m.objects[t]
    requires OnlyOldPages(m.pages, m'.pages) && !m'.objects[young[c]].young && OnOldPage(m', young[c])
    requires m.objects[young[c]].age >= 1 && m'.objects[young[c]].age == 0
    ensures Evacuating(m0, m', nursery, young, c + 1, marks, epoch)
  {
    forall i | 0 <= i < |nursery|
      ensures m'.pages[nursery[i]] == m.pages[nursery[i]]
      ensures Paired(m'.pages, nursery[i], YoungPage)
    {
      assert Paired(m.pages, nursery[i], YoungPage);
    }
    forall i | 0 <= i < |nursery|
      ensures Load(m'.objects, young[c + 1..], nursery[i]) <= Load(m.objects, young[c..], nursery[i])
    {
      LoadBehind(m.objects, m'.objects, young, c, nursery[i]);
    }
  }

  lemma CopyHasRoom(m0: Store, m: Store, nursery: seq<nat>, young: seq<nat>, c: nat, marks: seq<nat>, epoch: nat)
    requires |marks| == |m0.objects| && c < |young|
    requires Evacuating(m0, m, nursery, young, c, marks, epoch)
    requires m.objects[young[c]].page in nursery
    ensures Paired(m.pages, m.objects[young[c]].page, YoungPage)
    ensures var to := m.pages[m.pages[m.objects[young[c]].page].partner];
            to.used % 8 == 0 && to.used + m.objects[young[c]].size <= |to.data|
  {
    var i :| 0 <= i < |nursery| && nursery[i] == m.objects[young[c]].page;
    assert young[c..][0] == young[c];
  }

  lemma AvailableAfterCopy(a: seq<Page>, b: seq<Page>, lists: seq<seq<nat>>, to: nat)
    requires Available(a, lists) && |a| == |b| && to < |a| && a[to].kind.YoungPage?
    requires forall p: nat | p < |a| && p != to :: b[p] == a[p]
    ensures Available(b, lists)
  {
  }

  lemma CopyStep(m0: Store, m: Store, m': Store, nursery: seq<nat>, young: seq<nat>, c: nat, marks: seq<nat>,
      epoch: nat, to: nat, at: nat)
    requires |marks| == |m0.objects| && c < |young| && Distinct(young)
    requires Evacuating(m0, m, nursery, young, c, marks, epoch) && marks[young[c]] == epoch
    requires Live(m, young[c]) && Placed(m, m.objects[young[c]]) && Sized(m, m.objects[young[c]])
    requires m.objects[young[c]].page in nursery
    requires to == m.pages[m.objects[young[c]].page].partner && to < |m.pages| && at == m.pages[to].used
    requires CopiedTo(m, m', young[c], to, at)
    ensures Evacuating(m0, m', nursery, young, c + 1, marks, epoch)
  {
    var o := m.objects[young[c]];
    assert |m'.pages[to].data| == |m.pages[to].data|;
    hide Write, Payload, Placed, Sized;
    forall i | 0 <= i < |nursery|
      ensures Paired(m'.pages, nursery[i], YoungPage) && m'.pages[nursery[i]].partner == m.pages[nursery[i]].partner
    {
      assert Paired(m.pages, nursery[i], YoungPage);
    }
    assert to !in nursery;
    forall i | 0 <= i < |nursery|
      ensures var p := m'.pages[m'.pages[nursery[i]].partner];
              p.used % 8 == 0 && p.used + Load(m'.objects, young[c + 1..], nursery[i]) <= |p.data|
    {
      assert Paired(m.pages, nursery[i], YoungPage);
      LoadBehind(m.objects, m'.objects, young, c, nursery[i]);
    }
  }

  lemma SameGraphReflexive(m: Store)
    requires AllPlaced(m)
    ensures SameGraph(m, m)
  {
  }

  // ----- opening the to-space -----

  /** The partners of the first `i` nursery pages have become empty young pages. */
  ghost predicate Opening(p0: seq<Page>, p: seq<Page>, nursery: seq<nat>, i: nat)
    requires i <= |nursery|
  {
    && |p| == |p0|
    && (forall q: nat | q < |p0| ::
      p[q] == p0[q] || (p0[q].kind.SparePage? && PartnerOf(p0, nursery, q)
        && p[q] == p0[q].(kind := YoungPage, used := 0)))
    && (forall j | 0 <= j < i ::
      Paired(p0, nursery[j], SparePage) && p[p0[nursery[j]].partner].kind.YoungPage?
        && p[p0[nursery[j]].partner].used == 0)
  }

  lemma OpeningPair(p0: seq<Page>, p: seq<Page>, nursery: seq<nat>, i: nat)
    requires NurseryPaired(p0, nursery) && i < |nursery| && Opening(p0, p, nursery, i)
    ensures Paired(p0, nursery[i], SparePage) && p[nursery[i]] == p0[nursery[i]]
  {
  }

  lemma OpeningNext(p0: seq<Page>, p: seq<Page>, nursery: seq<nat>, i: nat)
    requires NurseryPaired(p0, nursery) && i < |nursery| && Opening(p0, p, nursery, i)
    requires Paired(p0, nursery[i], SparePage)
    ensures var to := p0[nursery[i]].partner;
            Opening(p0, p[to := p[to].(kind := YoungPage, used := 0)], nursery, i + 1)
  {
    var to := p0[nursery[i]].partner;
    var p' := p[to := p[to].(kind := YoungPage, used := 0)];
    assert forall q: nat | q < |p0| ::
      p'[q] == p0[q] || (p0[q].kind.SparePage? && PartnerOf(p0, nursery, q)
        && p'[q] == p0[q].(kind := YoungPage, used := 0));
  }

  lemma OpeningKeepsArranged(m: Store, m': Store, nursery: seq<nat>)
    requires Arranged(m) && m' == m.(pages := m'.pages)
    requires Opening(m.pages, m'.pages, nursery, |nursery|)
    ensures Arranged(m') && SameGraph(m, m')
  {
    forall p: nat | p < |m'.pages|
      ensures PageOk(m'.pages[p])
    {
      assert PageOk(m.pages[p]);
    }
    forall s: nat | Live(m', s)
      ensures Placed(m', m'.objects[s]) && Sized(m', m'.objects[s]) && HomedAny(m', s, m'.objects[s])
      ensures Payload(m', m'.objects[s]) == Payload(m, m.objects[s])
    {
      assert Live(m, s) && HomedAny(m, s, m.objects[s]);
      assert m'.pages[m.objects[s].page] == m.pages[m.objects[s].page];
    }
  }

  lemma OpeningKeeps(m: Store, m': Store, nursery: seq<nat>, log: seq<Card>, capacity: nat, strict: bool,
      lists: seq<seq<nat>>, marks: seq<nat>, epoch: nat)
    requires Arranged(m) && KeptRefs(m, marks, epoch) && Remembered(m) && LogOk(m.pages, log, capacity, strict)
    requires Available(m.pages, lists)
    requires m' == m.(pages := m'.pages) && Opening(m.pages, m'.pages, nursery, |nursery|)
    ensures SameGraph(m, m') && Arranged(m') && KeptRefs(m', marks, epoch) && Remembered(m')
    ensures LogOk(m'.pages, log, capacity, strict) && Available(m'.pages, lists)
  {
    OpeningKeepsArranged(m, m', nursery);
    SameGraphKept(m, m', marks, epoch);
    forall t: nat | Live(m', t) && !m'.objects[t].young
      ensures Remembers(m', m'.objects[t])
    {
      assert Live(m, t);
      MoveKeepsRemembers(m, m', t);
    }
    LogSameCards(m.pages, m'.pages, log, capacity, strict);
  }

  lemma OpenedNursery(p0: seq<Page>, p: seq<Page>, nursery: seq<nat>)
    requires NurseryPaired(p0, nursery) && Opening(p0, p, nursery, |nursery|)
    ensures NurseryOpen(p, nursery)
    ensures forall i | 0 <= i < |nursery| :: p[p[nursery[i]].partner].used == 0
  {
    forall i | 0 <= i < |nursery|
      ensures Paired(p, nursery[i], YoungPage) && p[nursery[i]].partner !in nursery
      ensures p[p[nursery[i]].partner].used == 0
    {
      assert Paired(p0, nursery[i], SparePage);
      assert forall j | 0 <= j < |nursery| :: Paired(p0, nursery[j], SparePage);
    }
    forall q: nat | q < |p| && p[q].kind.YoungPage? && q !in nursery
      ensures PartnerOf(p, nursery, q)
    {
      assert PartnerOf(p0, nursery, q);
    }
  }

  lemma StartRoom(m: Store, nursery: seq<nat>, young: seq<nat>)
    requires Arranged(m) && NurseryOpen(m.pages, nursery)
    requires forall i | 0 <= i < |nursery| :: m.pages[m.pages[nursery[i]].partner].used == 0
    requires Distinct(young) && forall k | 0 <= k < |young| :: Live(m, young[k]) && m.objects[young[k]].young
    ensures Room(m, nursery, young)
  {
    forall i | 0 <= i < |nursery|
      ensures Load(m.objects, young, nursery[i]) <= |m.pages[m.pages[nursery[i]].partner].data|
    {
      assert Paired(m.pages, nursery[i], YoungPage);
      YoungLoadFits(m, young, nursery[i]);
      assert PageOk(m.pages[nursery[i]]);
    }
  }

  lemma YoungOnNursery(m: Store, nursery: seq<nat>, s: nat)
    requires Arranged(m) && NurseryPaired(m.pages, nursery) && Live(m, s) && m.objects[s].young
    ensures m.objects[s].page in nursery
  {
    assert HomedAny(m, s, m.objects[s]);
  }

  /** With the to-space open, the evacuation can start. */
  lemma EvacuationStarts(m: Store, m': Store, nursery: seq<nat>, young: seq<nat>, marks: seq<nat>, epoch: nat)
    requires Arranged(m) && Arranged(m') && m' == m.(pages := m'.pages) && |marks| == |m.objects|
    requires NurseryPaired(m.pages, nursery) && Opening(m.pages, m'.pages, nursery, |nursery|)
    requires Distinct(young) && forall k | 0 <= k < |young| :: Live(m, young[k]) && m.objects[young[k]].young
    ensures Evacuating(m', m', nursery, young, 0, marks, epoch)
    ensures forall k | 0 <= k < |young| ::
      Live(m', young[k]) && m'.objects[young[k]].young && m'.objects[young[k]].page in nursery
  {
    forall k | 0 <= k < |young|
      ensures Live(m', young[k]) && m'.objects[young[k]].page in nursery
    {
      YoungOnNursery(m, nursery, young[k]);
    }
    OpenedNursery(m.pages, m'.pages, nursery);
    StartRoom(m', nursery, young);
    assert young[0..] == young;
  }

  // ----- closing the from-space -----

  /** The first `i` nursery pages have become spare and their partners have taken their place. */
  ghost predicate Closing(p0: seq<Page>, p: seq<Page>, n0: seq<nat>, n: seq<nat>, i: nat)
    requires i <= |n0| && NurseryOpen(p0, n0)
  {
    && |p| == |p0| && |n| == |n0|
    && (forall q: nat | q < |p0| :: p[q] == if q in n0[..i] then p0[q].(kind := SparePage, used := 0) else p0[q])
    && (forall j | 0 <= j < |n| :: n[j] == if j < i then p0[n0[j]].partner else n0[j])
  }

  lemma ClosingNext(p0: seq<Page>, p: seq<Page>, n0: seq<nat>, n: seq<nat>, i: nat)
    requires NurseryOpen(p0, n0) && i < |n0| && Closing(p0, p, n0, n, i)
    ensures n[i] == n0[i] && Paired(p0, n0[i], YoungPage) && p[n0[i]] == p0[n0[i]]
    ensures p[p0[n0[i]].partner] == p0[p0[n0[i]].partner]
    ensures Closing(p0, p[n0[i] := p[n0[i]].(kind := SparePage, used := 0)], n0, n[i := p0[n0[i]].partner], i + 1)
  {
    assert n0[..i + 1] == n0[..i] + [n0[i]];
    assert n0[i] !in n0[..i];
    assert Paired(p0, n0[i], YoungPage);
    assert p0[n0[i]].partner !in n0[..i];
  }

  lemma ClosedPaired(p0: seq<Page>, p: seq<Page>, n0: seq<nat>, n: seq<nat>)
    requires NurseryOpen(p0, n0) && Closing(p0, p, n0, n, |n0|)
    ensures NurseryPaired(p, n)
  {
    assert n0[..|n0|] == n0;
    forall i | 0 <= i < |n|
      ensures Paired(p, n[i], SparePage)
    {
      assert Paired(p0, n0[i], YoungPage);
    }
    forall i, j | 0 <= i < j < |n|
      ensures n[i] != n[j]
    {
      assert Paired(p0, n0[i], YoungPage) && Paired(p0, n0[j], YoungPage);
    }
    forall q: nat | q < |p| && p[q].kind.YoungPage?
      ensures q in n
    {
      assert PartnerOf(p0, n0, q);
      var j :| 0 <= j < |n0| && n0[j] == p0[q].partner;
      assert n[j] == q;
    }
  }

  lemma ClosingKeepsArranged(m: Store, m': Store, n0: seq<nat>, n: seq<nat>)
    requires Arranged(m) && m' == m.(pages := m'.pages)
    requires NurseryOpen(m.pages, n0) && Closing(m.pages, m'.pages, n0, n, |n0|)
    requires forall s: nat | Live(m, s) && m.objects[s].young :: m.objects[s].page !in n0
    ensures Arranged(m') && SameGraph(m, m')
  {
    assert n0[..|n0|] == n0;
    forall p: nat | p < |m'.pages|
      ensures PageOk(m'.pages[p])
    {
      assert PageOk(m.pages[p]);
    }
    forall s: nat | Live(m', s)
      ensures Placed(m', m'.objects[s]) && Sized(m', m'.objects[s]) && HomedAny(m', s, m'.objects[s])
      ensures Payload(m', m'.objects[s]) == Payload(m, m.objects[s])
    {
      assert Live(m, s) && HomedAny(m, s, m.objects[s]);
      assert m'.pages[m.objects[s].page] == m.pages[m.objects[s].page];
    }
  }

  lemma ClosingKeeps(m: Store, m': Store, n0: seq<nat>, n: seq<nat>, log: seq<Card>, capacity: nat, strict: bool,
      lists: seq<seq<nat>>)
    requires Arranged(m) && Remembered(m) && LogOk(m.pages, log, capacity, strict) && Available(m.pages, lists)
    requires m' == m.(pages := m'.pages)
    requires NurseryOpen(m.pages, n0) && Closing(m.pages, m'.pages, n0, n, |n0|)
    requires forall s: nat | Live(m, s) && m.objects[s].young :: m.objects[s].page !in n0
    ensures SameGraph(m, m') && Arranged(m') && Remembered(m')
    ensures LogOk(m'.pages, log, capacity, strict) && Available(m'.pages, lists)
    ensures NurseryPaired(m'.pages, n)
  {
    ClosingKeepsArranged(m, m', n0, n);
    ClosedPaired(m.pages, m'.pages, n0, n);
    forall t: nat | Live(m', t) && !m'.objects[t].young
      ensures Remembers(m', m'.objects[t])
    {
      assert Live(m, t);
      MoveKeepsRemembers(m, m', t);
    }
    LogSameCards(m.pages, m'.pages, log, capacity, strict);
  }

  // ----- a promotion in two steps: move, then mark cards -----

  ghost predicate RememberedExcept(m: Store, s: nat)
    requires AllPlaced(m)
  {
    forall t: nat | Live(m, t) && !m.objects[t].young && t != s :: Remembers(m, m.objects[t])
  }

  lemma PromotionMoved(m: Store, m1: Store, s: nat, page: nat, log: seq<Card>, capacity: nat, strict: bool)
    requires Arranged(m) && Remembered(m) && LogOk(m.pages, log, capacity, strict)
    requires Live(m, s) && m.objects[s].young && RefsOf(m, s) && PromotedTo(m, m1, s, page)
    ensures SameGraph(m, m1) && Arranged(m1) && RefsOf(m1, s) && RememberedExcept(m1, s)
    ensures Homed(m1, s, m1.objects[s])
    ensures LogOk(m1.pages, log, capacity, strict)
  {
    PromoteKeepsRemembered(m, m1, s, page);
    SameGraphRefs(m, m1, s);
    assert HomedAny(m1, s, m1.objects[s]);
    LogSameCards(m.pages, m1.pages, log, capacity, strict);
  }

  lemma PromotionMarked(m: Store, m1: Store, m2: Store, s: nat, marks: seq<nat>, epoch: nat)
    requires SameGraph(m, m1) && Arranged(m1) && RememberedExcept(m1, s) && KeptRefs(m, marks, epoch)
    requires m2 == m1.(pages := m2.pages) && FlagsRaised(m1.pages, m2.pages)
    requires Live(m2, s) && Placed(m2, m2.objects[s]) && Remembers(m2, m2.objects[s])
    requires OnlyOldPages(m.pages, m1.pages)
    ensures SameGraph(m, m2) && Arranged(m2) && Remembered(m2) && KeptRefs(m2, marks, epoch)
    ensures OnlyOldPages(m.pages, m2.pages)
    ensures OnOldPage(m1, s) ==> OnOldPage(m2, s)
  {
    FlagsKeepArranged(m1, m2);
    RaisedCompletes(m1, m2, s);
    SameGraphTransitive(m, m1, m2);
    SameGraphKept(m, m2, marks, epoch);
    FlagsKeepOld(m.pages, m1.pages, m2.pages);
  }

  lemma ArrangedSame(m: Store)
    requires Arranged(m)
    ensures SameGraph(m, m)
  {
  }
}
