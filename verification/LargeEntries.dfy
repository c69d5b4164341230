/** Entries that are born old, on a page of their own. */
module LargeEntries {
  import opened Prelude
  import opened HeapWords
  import opened CardScan
  import opened HeapModel
  import opened Cards
  import opened Evacuation
  import opened Directory
  import opened Collection
  import opened Barrier

  function Max(a: nat, b: nat): nat {
    if a < b then b else a
  }

  /** A directory page put at `id`: a free one is used again, otherwise the directory grows. */
  function PutPage(pages: seq<Page>, id: nat, p: Page): seq<Page>
    requires id <= |pages|
  {
    if id == |pages| then pages + [p] else pages[id := p]
  }

  /** The log capacity that came with the directory page. */
  function CapacityAt(pages: seq<Page>, id: nat): nat {
    if id < |pages| then pages[id].cardCapacity else 0
  }

  /** A large page of zero bytes with one entry and clean cards. */
  function NewLarge(s: nat, size: nat, capacity: nat): Page {
    Page(LargePage, Zeros(size), size, 0, 0, [s], [], seq(CardCount(size), i => false), Max(capacity, CardCount(size)))
  }

  /** Entry `s` is published as old over the zero bytes of a page of its own. */
  ghost predicate BornLarge(m: Store, m': Store, s: nat, o: Object) {
    && 0 < s < |m.objects| && !m.objects[s].state.Published?
    && o.state.Published? && !o.young && o.offset == 0 && 0 < o.layout < |m.layouts| && 0 < o.generation
    && o.page <= |m.pages| && (o.page < |m.pages| ==> m.pages[o.page].kind.FreePage?)
    && ValidLayout(m.layouts[o.layout]) && ElementBase(m.layouts[o.layout].stride, o.count) <= o.size < U32
    && 8 <= o.size && o.size % 8 == 0
    && m'.layouts == m.layouts && m'.objects == m.objects[s := o]
    && m'.pages == PutPage(m.pages, o.page, NewLarge(s, o.size, CapacityAt(m.pages, o.page)))
  }

  /** The heap with that entry. */
  function LargeStore(m: Store, s: nat, o: Object): Store
    requires s < |m.objects| && o.page <= |m.pages|
  {
    Store(m.objects[s := o], PutPage(m.pages, o.page, NewLarge(s, o.size, CapacityAt(m.pages, o.page))), m.layouts)
  }

  lemma LargeKeepsOther(m: Store, m': Store, s: nat, o: Object, t: nat)
    requires Arranged(m) && BornLarge(m, m', s, o) && Live(m, t)
    ensures t != s && Live(m', t) && m'.objects[t] == m.objects[t] && m.objects[t].page != o.page
    ensures m'.pages[m.objects[t].page] == m.pages[m.objects[t].page]
    ensures Placed(m', m.objects[t]) && Sized(m', m.objects[t]) && HomedAny(m', t, m.objects[t])
    ensures Payload(m', m.objects[t]) == Payload(m, m.objects[t])
  {
    assert HomedAny(m, t, m.objects[t]);
  }

  lemma LargePlaced(m: Store, m': Store, s: nat, o: Object)
    requires BornLarge(m, m', s, o)
    ensures Live(m', s) && Placed(m', o) && Sized(m', o) && Homed(m', s, o) && Payload(m', o) == Zeros(o.size)
    ensures forall w :: Child(m', o, w).Null()
    ensures m'.pages[o.page] == NewLarge(s, o.size, CapacityAt(m.pages, o.page)) && PageOk(m'.pages[o.page])
  {
    var p := m'.pages[o.page];
    assert p == NewLarge(s, o.size, CapacityAt(m.pages, o.page));
    assert Zeros(o.size)[0..o.size] == Zeros(o.size);
    forall w
      ensures Child(m', o, w).Null()
    {
      ZeroEdge(Payload(m', o), w);
    }
  }

  lemma LargeKeepsArranged(m: Store, m': Store, s: nat, o: Object)
    requires Arranged(m) && BornLarge(m, m', s, o)
    ensures Arranged(m') && forall t: nat | Live(m, t) :: Payload(m', m'.objects[t]) == Payload(m, m.objects[t])
    ensures forall t: nat | Live(m', t) :: t == s || Live(m, t)
  {
    LargePlaced(m, m', s, o);
    forall t: nat | Live(m, t)
      ensures t != s && m'.objects[t] == m.objects[t]
      ensures Placed(m', m'.objects[t]) && Sized(m', m'.objects[t]) && HomedAny(m', t, m'.objects[t])
      ensures Payload(m', m'.objects[t]) == Payload(m, m.objects[t])
    {
      LargeKeepsOther(m, m', s, o, t);
    }
    forall p: nat | p < |m'.pages|
      ensures PageOk(m'.pages[p])
    {
      if p != o.page {
        assert PageOk(m.pages[p]);
      }
    }
    hide Payload, PageOk, HomedAny, Placed, Sized;
    assert forall t: nat | Live(m', t) && t != s :: Live(m, t);
  }

  /** Nothing refers to the new entry yet and it refers to nothing. */
  lemma LargeKeepsGraph(m: Store, m': Store, s: nat, o: Object)
    requires Arranged(m) && Remembered(m) && RefsResolve(m) && BornLarge(m, m', s, o) && Arranged(m')
    ensures Remembered(m') && RefsResolve(m')
  {
    LargePlaced(m, m', s, o);
    forall t: nat | Live(m, t)
      ensures Payload(m', m.objects[t]) == Payload(m, m.objects[t])
      ensures m'.objects[t] == m.objects[t] && m'.pages[m.objects[t].page] == m.pages[m.objects[t].page]
    {
      LargeKeepsOther(m, m', s, o, t);
    }
    hide PageOk, HomedAny, Payload, Edge;
    forall t: nat, w | Live(m', t) && w in Words(m', m'.objects[t])
      ensures Child(m', m'.objects[t], w).Null() || Resolves(m', Child(m', m'.objects[t], w))
    {
      if t != s {
        assert Child(m', m'.objects[t], w) == Child(m, m.objects[t], w);
      }
    }
    forall t: nat | Live(m', t) && !m'.objects[t].young
      ensures Remembers(m', m'.objects[t])
    {
      if t != s {
        assert Remembers(m, m.objects[t]);
        LargeRemembers(m, m', s, o, t);
      }
    }
  }

  lemma LargeRemembers(m: Store, m': Store, s: nat, o: Object, t: nat)
    requires AllPlaced(m) && AllPlaced(m') && RefsResolve(m) && BornLarge(m, m', s, o) && Live(m, t) && t != s
    requires m'.objects[t] == m.objects[t] && m'.pages[m.objects[t].page] == m.pages[m.objects[t].page]
    requires Remembers(m, m.objects[t]) && Payload(m', m.objects[t]) == Payload(m, m.objects[t])
    ensures Remembers(m', m'.objects[t])
  {
    hide Payload, Edge;
    var a := m.objects[t];
    forall w | w in Words(m', a) && PointsYoung(m', a, w)
      ensures Covered(m'.pages[a.page].cards, a.offset + w.SpanStart(), w.SpanSize())
    {
      assert Child(m', a, w) == Child(m, a, w);
      assert PointsYoung(m, a, w);
    }
  }

  lemma {:induction false} TotalCardsPut(pages: seq<Page>, id: nat, p: Page)
    requires id <= |pages|
    ensures TotalCards(PutPage(pages, id, p)) + CapacityAt(pages, id) == TotalCards(pages) + p.cardCapacity
    decreases |pages|
  {
    if id == |pages| {
      assert (pages + [p])[..|pages|] == pages;
    } else if id == |pages| - 1 {
      assert pages[id := p][..id] == pages[..id];
    } else {
      var n := |pages| - 1;
      TotalCardsPut(pages[..n], id, p);
      assert pages[id := p][..n] == pages[..n][id := p];
    }
  }

  /** The log capacity grows by what the directory page did not bring along. */
  function CardGrowth(pages: seq<Page>, id: nat, size: nat): nat {
    Max(CapacityAt(pages, id), CardCount(size)) - CapacityAt(pages, id)
  }

  lemma LargeKeepsLog(m: Store, m': Store, s: nat, o: Object, log: seq<Card>, capacity: nat)
    requires BornLarge(m, m', s, o) && LogOk(m.pages, log, capacity, true)
    ensures LogOk(m'.pages, log, capacity + CardGrowth(m.pages, o.page, o.size), true)
  {
    var p := NewLarge(s, o.size, CapacityAt(m.pages, o.page));
    TotalCardsPut(m.pages, o.page, p);
    LargeElsewhere(m, m', s, o);
    hide BornLarge, PutPage, TotalCards;
    forall c: Card
      ensures Flagged(m'.pages, c) <==> Flagged(m.pages, c)
      ensures Admitted(m.pages, c) ==> Admitted(m'.pages, c)
    {
    }
    hide Flagged, Admitted;
  }

  lemma LargeElsewhere(m: Store, m': Store, s: nat, o: Object)
    requires BornLarge(m, m', s, o)
    ensures m'.pages == PutPage(m.pages, o.page, NewLarge(s, o.size, CapacityAt(m.pages, o.page)))
    ensures o.page < |m'.pages| && |m.pages| <= |m'.pages| <= |m.pages| + 1
    ensures |m'.pages| == |m.pages| + 1 ==> o.page == |m.pages|
    ensures m'.pages[o.page] == NewLarge(s, o.size, CapacityAt(m.pages, o.page))
    ensures o.page < |m.pages| ==> m.pages[o.page].kind.FreePage?
    ensures forall i: nat | i < |m.pages| && i != o.page :: m'.pages[i] == m.pages[i]
  {
  }

  lemma LargePages(m: Store, m': Store, s: nat, o: Object, nursery: seq<nat>, lists: seq<seq<nat>>)
    requires BornLarge(m, m', s, o) && NurseryPaired(m.pages, nursery) && Available(m.pages, lists)
    ensures NurseryPaired(m'.pages, nursery) && Available(m'.pages, lists)
  {
    assert forall i: nat | i < |m.pages| && i != o.page :: m'.pages[i] == m.pages[i];
    forall i | 0 <= i < |nursery|
      ensures Paired(m'.pages, nursery[i], SparePage)
    {
      assert Paired(m.pages, nursery[i], SparePage);
    }
  }

  lemma LargeListed(m: Store, m': Store, s: nat, o: Object, occupied: seq<nat>, occupiedIndex: seq<nat>,
      young: seq<nat>, youngIndex: seq<nat>)
    requires Listed(m, occupied, occupiedIndex, young, youngIndex) && BornLarge(m, m', s, o)
    ensures Listed(m', occupied + [s], occupiedIndex[s := |occupied|], young, youngIndex)
  {
    assert s !in occupied && s !in young;
    assert forall t: nat :: Live(m', t) <==> t == s || Live(m, t);
  }

  /** The cards of one old entry can be addressed with 32-bit numbers, or hold nothing. */
  ghost predicate EntryAddressable(m: Store, o: Object)
    requires Placed(m, o)
  {
    forall index: nat | index < CardCount(|m.pages[o.page].data|) ::
      CardArithmeticWraps(m, o, index) ==> WordsInCard(m, o, index) == []
  }

  /** A payload that ends, with one more stride and card, below 4 GiB. */
  predicate Spannable(stride: nat, size: nat) {
    size + stride + CARD_BYTES <= U32
  }

  lemma SpannableAddressable(m: Store, m': Store, s: nat, o: Object)
    requires BornLarge(m, m', s, o) && Placed(m', o) && Spannable(m.layouts[o.layout].stride, o.size)
    ensures EntryAddressable(m', o)
  {
    LargePlaced(m, m', s, o);
    forall index: nat | index < CardCount(o.size)
      ensures !CardArithmeticWraps(m', o, index)
    {
      assert CARD_BYTES * index < o.size + CARD_BYTES;
    }
  }

  /** The new entry decides whether the cards can still be addressed. */
  lemma LargeAddressable(m: Store, m': Store, s: nat, o: Object)
    requires Arranged(m) && Arranged(m') && BornLarge(m, m', s, o)
    ensures Placed(m', o) && (CardsAddressable(m') <==> CardsAddressable(m) && EntryAddressable(m', o))
  {
    LargePlaced(m, m', s, o);
    forall t: nat | Live(m, t)
      ensures t != s && Live(m', t) && m'.objects[t] == m.objects[t]
      ensures m'.pages[m.objects[t].page] == m.pages[m.objects[t].page]
    {
      LargeKeepsOther(m, m', s, o, t);
    }
    assert AllPlaced(m) && AllPlaced(m');
    hide Arranged, CardArithmeticWraps, WordsInCard;
    if CardsAddressable(m') {
      AddressableOthers(m, m', s, o);
      assert forall index: nat | index < CardCount(|m'.pages[o.page].data|) ::
        CardArithmeticWraps(m', m'.objects[s], index) ==> WordsInCard(m', m'.objects[s], index) == [];
    }
    if CardsAddressable(m) && EntryAddressable(m', o) {
      AddressableAll(m, m', s, o);
    }
  }

  lemma SameCards(m: Store, m': Store, t: nat, index: nat)
    requires Live(m, t) && Live(m', t) && m'.objects[t] == m.objects[t] && m'.layouts == m.layouts
    requires Placed(m, m.objects[t]) && Placed(m', m.objects[t])
    requires m'.pages[m.objects[t].page] == m.pages[m.objects[t].page]
    ensures CardArithmeticWraps(m', m.objects[t], index) <==> CardArithmeticWraps(m, m.objects[t], index)
    ensures WordsInCard(m', m.objects[t], index) == WordsInCard(m, m.objects[t], index)
  {
  }

  lemma AddressableOthers(m: Store, m': Store, s: nat, o: Object)
    requires AllPlaced(m) && AllPlaced(m') && m'.layouts == m.layouts && CardsAddressable(m')
    requires forall t: nat | Live(m, t) ::
      Live(m', t) && m'.objects[t] == m.objects[t] && m'.pages[m.objects[t].page] == m.pages[m.objects[t].page]
    ensures CardsAddressable(m)
  {
    hide CardArithmeticWraps, WordsInCard;
    forall t: nat, index: nat | Live(m, t) && !m.objects[t].young
      && index < CardCount(|m.pages[m.objects[t].page].data|)
      && CardArithmeticWraps(m, m.objects[t], index)
      ensures WordsInCard(m, m.objects[t], index) == []
    {
      SameCards(m, m', t, index);
    }
  }

  lemma AddressableAll(m: Store, m': Store, s: nat, o: Object)
    requires AllPlaced(m) && AllPlaced(m') && m'.layouts == m.layouts && CardsAddressable(m)
    requires Live(m', s) && m'.objects[s] == o && EntryAddressable(m', o)
    requires forall t: nat | Live(m', t) :: t == s || Live(m, t)
    requires forall t: nat | Live(m, t) ::
      t != s && Live(m', t) && m'.objects[t] == m.objects[t]
      && m'.pages[m.objects[t].page] == m.pages[m.objects[t].page]
    ensures CardsAddressable(m')
  {
    hide CardArithmeticWraps, WordsInCard;
    forall t: nat, index: nat | Live(m', t) && !m'.objects[t].young
      && index < CardCount(|m'.pages[m'.objects[t].page].data|) && CardArithmeticWraps(m', m'.objects[t], index)
      ensures WordsInCard(m', m'.objects[t], index) == []
    {
      if t != s {
        SameCards(m, m', t, index);
      }
    }
  }

  /** Dirtying cards afterwards changes none of that. */
  lemma LargeDirtied(m1: Store, m2: Store, nursery: seq<nat>, lists: seq<seq<nat>>)
    requires Arranged(m1) && Remembered(m1) && RefsResolve(m1) && m2 == m1.(pages := m2.pages)
    requires FlagsRaised(m1.pages, m2.pages) && NurseryPaired(m1.pages, nursery) && Available(m1.pages, lists)
    ensures Arranged(m2) && Remembered(m2) && RefsResolve(m2)
    ensures NurseryPaired(m2.pages, nursery) && Available(m2.pages, lists)
    ensures forall t: nat | Live(m1, t) :: Payload(m2, m2.objects[t]) == Payload(m1, m1.objects[t])
    ensures CardsAddressable(m2) <==> CardsAddressable(m1)
  {
    FlagsKeepArranged(m1, m2);
    FlagsKeepNursery(m1.pages, m2.pages, nursery);
    forall t: nat | Live(m1, t)
      ensures Payload(m2, m2.objects[t]) == Payload(m1, m1.objects[t])
      ensures !m1.objects[t].young ==> Remembers(m2, m2.objects[t])
    {
      FlagsKeepEntry(m1, m2, m1.objects[t]);
      if !m1.objects[t].young {
        RaisedRemembers(m1, m2, t);
      }
    }
    RaisedRefs(m1, m2);
    if CardsAddressable(m1) {
      FlagsKeepAddressable(m1, m2);
    }
    if CardsAddressable(m2) {
      FlagsKeepAddressable(m2, m1);
    }
    hide Payload, Edge, PageOk, HomedAny;
  }

  lemma RaisedRefs(m1: Store, m2: Store)
    requires AllPlaced(m1) && AllPlaced(m2) && m2 == m1.(pages := m2.pages) && FlagsOnly(m1.pages, m2.pages)
    requires RefsResolve(m1)
    ensures RefsResolve(m2)
  {
    forall t: nat, w | Live(m2, t) && w in Words(m2, m2.objects[t])
      ensures Child(m2, m2.objects[t], w).Null() || Resolves(m2, Child(m2, m2.objects[t], w))
    {
      FlagsKeepEntry(m1, m2, m1.objects[t]);
      assert Live(m1, t) && w in Words(m1, m1.objects[t]);
      assert Child(m2, m2.objects[t], w) == Child(m1, m1.objects[t], w);
    }
  }

  lemma RaisedRemembers(m1: Store, m2: Store, t: nat)
    requires AllPlaced(m1) && AllPlaced(m2) && m2 == m1.(pages := m2.pages) && FlagsRaised(m1.pages, m2.pages)
    requires Live(m1, t) && Remembers(m1, m1.objects[t])
    ensures Remembers(m2, m2.objects[t])
  {
    var a := m1.objects[t];
    FlagsKeepEntry(m1, m2, a);
    hide Payload, Edge;
    forall w | w in Words(m2, a) && PointsYoung(m2, a, w)
      ensures Covered(m2.pages[a.page].cards, a.offset + w.SpanStart(), w.SpanSize())
    {
      assert PointsYoung(m1, a, w);
      CoveredStays(m1.pages, m2.pages, a.page, a.offset + w.SpanStart(), w.SpanSize());
    }
  }
}
