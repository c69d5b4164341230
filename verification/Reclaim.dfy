/** Giving empty pages back, and the card tables of a major collection. */
module Reclaim {
  import opened HeapWords
  import opened CardScan
  import opened HeapModel
  import opened Cards
  import opened Evacuation
  import opened Directory

  function Without(list: seq<nat>, id: nat): seq<nat> {
    if list == [] then []
    else
      var rest := Without(list[..|list| - 1], id);
      if list[|list| - 1] == id then rest else rest + [list[|list| - 1]]
  }

  lemma {:induction false} WithoutMembers(list: seq<nat>, id: nat)
    ensures forall i | 0 <= i < |Without(list, id)| :: Without(list, id)[i] in list && Without(list, id)[i] != id
  {
    if list != [] {
      WithoutMembers(list[..|list| - 1], id);
    }
  }

  lemma {:induction false} WithoutShorter(list: seq<nat>, id: nat)
    ensures |Without(list, id)| <= |list|
  {
    if list != [] {
      WithoutShorter(list[..|list| - 1], id);
    }
  }

  /** A page of the old generation without entries. */
  predicate Unused(p: Page) {
    p.used == 0 && (p.kind.OldPage? || p.kind.LargePage?)
  }

  /** The reserve of the page's cell size is not more than one page. */
  ghost predicate InReserve(p: Page, lists: seq<seq<nat>>) {
    p.kind.OldPage? && forall k | 0 <= k < |lists| && p.cell == ClassBytes(k) :: |lists[k]| <= 1
  }

  lemma {:induction false} ClassUnique(a: nat, b: nat)
    requires a < b
    ensures ClassBytes(a) < ClassBytes(b)
    decreases b
  {
    if a < b - 1 {
      ClassUnique(a, b - 1);
    }
  }

  lemma LargeNotReserved(p: Page, lists: seq<seq<nat>>)
    requires !p.kind.OldPage?
    ensures !InReserve(p, lists)
  {
  }

  lemma ReserveOfClass(p: Page, lists: seq<seq<nat>>, k: nat)
    requires p.kind.OldPage? && k < |lists| && p.cell == ClassBytes(k)
    ensures InReserve(p, lists) <==> |lists[k]| <= 1
  {
    forall j | 0 <= j < |lists| && p.cell == ClassBytes(j)
      ensures j == k
    {
      if j < k {
        ClassUnique(j, k);
      } else if k < j {
        ClassUnique(k, j);
      }
    }
  }

  /**
    * The first `n` pages have been looked at: unused ones were given back and noted as free, unless they are the
    * reserve of their cell size. All other pages are as before.
    */
  ghost predicate GivenBack(was: seq<Page>, now: seq<Page>, lists: seq<seq<nat>>, free: seq<nat>, n: nat) {
    && |now| == |was|
    && (forall p: nat | p < |was| ::
          || (now[p] == was[p] && (p < n && Unused(was[p]) ==> InReserve(was[p], lists)))
          || (p < n && Unused(was[p]) && now[p] == Emptied(was[p]) && p in free))
  }

  lemma NothingGivenBack(pages: seq<Page>, lists: seq<seq<nat>>, free: seq<nat>)
    ensures GivenBack(pages, pages, lists, free, 0)
  {
  }

  lemma GivenBackNext(was: seq<Page>, now: seq<Page>, now': seq<Page>, lists: seq<seq<nat>>, lists': seq<seq<nat>>,
      free: seq<nat>, free': seq<nat>, n: nat)
    requires GivenBack(was, now, lists, free, n) && n < |was| && |lists'| == |lists|
    requires forall k | 0 <= k < |lists| :: |lists'[k]| <= |lists[k]|
    requires forall p | p in free :: p in free'
    requires if Unused(now[n]) && !InReserve(now[n], lists) then now' == now[n := Emptied(now[n])] && n in free'
             else now' == now
    ensures GivenBack(was, now', lists', free', n + 1)
  {
  }

  /** A reclaimed directory page; the log capacity admitted with it stays. */
  function Emptied(p: Page): Page {
    Page(FreePage, [], 0, 0, 0, [], [], [], p.cardCapacity)
  }

  /** Unused pages of the old generation hold no live entry. */
  lemma EmptyPageUnused(m: Store, id: nat, s: nat)
    requires Arranged(m) && id < |m.pages| && m.pages[id].used == 0
    requires m.pages[id].kind.OldPage? || m.pages[id].kind.LargePage?
    requires Live(m, s)
    ensures m.objects[s].page != id
  {
    var p := m.pages[id];
    assert PageOk(p) && HomedAny(m, s, m.objects[s]);
    if m.objects[s].page == id && p.kind.OldPage? {
      var n := Occupancy(p.entries);
      if n != 0 {
        ElementBaseMonotone(p.cell, 1, n);
      }
      OccupancyZero(p.entries);
    }
  }

  lemma ReclaimKeepsArranged(m: Store, m': Store, id: nat)
    requires Arranged(m) && id < |m.pages| && m.pages[id].used == 0
    requires m.pages[id].kind.OldPage? || m.pages[id].kind.LargePage?
    requires m' == m.(pages := m.pages[id := Emptied(m.pages[id])])
    ensures Arranged(m') && SameGraph(m, m')
    ensures forall s: nat | Live(m, s) :: m.objects[s].page != id
  {
    forall p: nat | p < |m'.pages|
      ensures PageOk(m'.pages[p])
    {
      assert PageOk(m.pages[p]);
    }
    forall s: nat | Live(m, s)
      ensures m.objects[s].page != id && Placed(m', m'.objects[s]) && Sized(m', m'.objects[s])
      ensures HomedAny(m', s, m'.objects[s])
      ensures Payload(m', m'.objects[s]) == Payload(m, m.objects[s])
    {
      EmptyPageUnused(m, id, s);
      assert HomedAny(m, s, m.objects[s]);
    }
    assert forall s: nat | Live(m', s) :: Live(m, s);
  }

  lemma ReclaimKeepsLog(pages: seq<Page>, id: nat, log: seq<Card>, capacity: nat)
    requires LogOk(pages, log, capacity, false) && id < |pages|
    ensures LogOk(pages[id := Emptied(pages[id])], log, capacity, false)
  {
    var after := pages[id := Emptied(pages[id])];
    TotalCardsSame(pages, after);
    forall c | Flagged(after, c)
      ensures c in log
    {
      assert Flagged(pages, c);
    }
    forall c | c in log
      ensures Admitted(after, c) && (Flagged(after, c) || after[c.page].kind.FreePage?)
    {
      if Flagged(pages, c) && c.page != id {
        assert Flagged(after, c);
      }
    }
  }

  lemma ReclaimKeeps(m: Store, m': Store, id: nat, log: seq<Card>, capacity: nat, nursery: seq<nat>)
    requires Arranged(m) && Remembered(m) && LogOk(m.pages, log, capacity, false) && NurseryPaired(m.pages, nursery)
    requires id < |m.pages| && m.pages[id].used == 0 && (m.pages[id].kind.OldPage? || m.pages[id].kind.LargePage?)
    requires m' == m.(pages := m.pages[id := Emptied(m.pages[id])])
    ensures Arranged(m') && SameGraph(m, m') && Remembered(m') && LogOk(m'.pages, log, capacity, false)
    ensures NurseryPaired(m'.pages, nursery)
    ensures HomesKeepSize(m, m')
  {
    ReclaimKeepsArranged(m, m', id);
    ReclaimKeepsLog(m.pages, id, log, capacity);
    forall t: nat | Live(m', t) && !m'.objects[t].young
      ensures Remembers(m', m'.objects[t])
    {
      assert Live(m, t);
      MoveKeepsRemembers(m, m', t);
    }
    forall i | 0 <= i < |nursery|
      ensures Paired(m'.pages, nursery[i], SparePage)
    {
      assert Paired(m.pages, nursery[i], SparePage);
    }
  }

  /** Lists without the page are lists of the pages that are left. */
  lemma ReclaimKeepsAvailable(pages: seq<Page>, id: nat, lists: seq<seq<nat>>, lists': seq<seq<nat>>)
    requires Available(pages, lists) && id < |pages| && |lists'| == |lists|
    requires forall k | 0 <= k < |lists| :: lists'[k] == Without(lists[k], id)
    ensures Available(pages[id := Emptied(pages[id])], lists')
  {
    forall k, i | 0 <= k < |lists'| && 0 <= i < |lists'[k]|
      ensures lists'[k][i] in lists[k] && lists'[k][i] != id
    {
      WithoutMembers(lists[k], id);
    }
  }

  /** The pages of live entries keep their size. */
  ghost predicate HomesKeepSize(m: Store, m': Store) {
    |m'.pages| == |m.pages| &&
    forall s: nat | Live(m, s) && m.objects[s].page < |m.pages| ::
      |m'.pages[m.objects[s].page].data| == |m.pages[m.objects[s].page].data|
  }

  lemma HomesKeepSizeTransitive(a: Store, b: Store, c: Store)
    requires a.objects == b.objects == c.objects && HomesKeepSize(a, b) && HomesKeepSize(b, c)
    ensures HomesKeepSize(a, c)
  {
    forall s: nat | Live(a, s) && a.objects[s].page < |a.pages|
      ensures |c.pages[a.objects[s].page].data| == |a.pages[a.objects[s].page].data|
    {
      assert Live(b, s);
    }
  }

  lemma KeptSizesAddressable(m: Store, m': Store)
    requires SameGraph(m, m') && m'.objects == m.objects && HomesKeepSize(m, m') && CardsAddressable(m)
    ensures CardsAddressable(m')
  {
    forall s: nat, index: nat | Live(m', s) && !m'.objects[s].young
      && index < CardCount(|m'.pages[m'.objects[s].page].data|)
      ensures CardArithmeticWraps(m', m'.objects[s], index) ==> WordsInCard(m', m'.objects[s], index) == []
    {
      assert Live(m, s);
      assert WordsInCard(m', m'.objects[s], index) == WordsInCard(m, m.objects[s], index);
    }
  }

  lemma SweptAddressable(m: Store, m': Store, gone: set<nat>)
    requires Swept(m, m', gone) && CardsAddressable(m)
    ensures CardsAddressable(m')
  {
    forall s: nat, index: nat | Live(m', s) && !m'.objects[s].young
      && index < CardCount(|m'.pages[m'.objects[s].page].data|)
      ensures CardArithmeticWraps(m', m'.objects[s], index) ==> WordsInCard(m', m'.objects[s], index) == []
    {
      assert Live(m, s) && m'.objects[s] == m.objects[s];
      assert WordsInCard(m', m'.objects[s], index) == WordsInCard(m, m.objects[s], index);
    }
  }

  // ----- card tables -----

  /** All cards of the first `k` pages are clean. */
  ghost predicate CardsClean(pages: seq<Page>, k: nat)
    requires k <= |pages|
  {
    forall p: nat, i: nat | p < k && i < |pages[p].cards| :: !pages[p].cards[i]
  }

  lemma CleanLog(before: seq<Page>, after: seq<Page>, log: seq<Card>, capacity: nat, strict: bool)
    requires LogOk(before, log, capacity, strict) && FlagsOnly(before, after) && CardsClean(after, |after|)
    ensures LogOk(after, [], capacity, true)
  {
    TotalCardsSame(before, after);
    assert forall c :: !Flagged(after, c);
  }

  /** The old entries among the first `k` listed slots are remembered. */
  ghost predicate RememberedListed(m: Store, listed: seq<nat>, k: nat)
    requires AllPlaced(m) && k <= |listed|
  {
    forall i | 0 <= i < k && Live(m, listed[i]) && !m.objects[listed[i]].young :: Remembers(m, m.objects[listed[i]])
  }

  lemma RaisedKeepsListed(m: Store, m': Store, listed: seq<nat>, k: nat)
    requires AllPlaced(m) && AllPlaced(m') && m' == m.(pages := m'.pages) && FlagsRaised(m.pages, m'.pages)
    requires k <= |listed|
    requires RememberedListed(m, listed, k)
    ensures RememberedListed(m', listed, k)
  {
    forall i | 0 <= i < k && Live(m', listed[i]) && !m'.objects[listed[i]].young
      ensures Remembers(m', m'.objects[listed[i]])
    {
      assert Live(m, listed[i]);
      RaisedKeepsRemembers(m, m', m.objects[listed[i]]);
    }
  }

  lemma AllListedRemembered(m: Store, listed: seq<nat>)
    requires AllPlaced(m) && RememberedListed(m, listed, |listed|) && forall s: nat | Live(m, s) :: s in listed
    ensures Remembered(m)
  {
    forall s: nat | Live(m, s) && !m.objects[s].young
      ensures Remembers(m, m.objects[s])
    {
      var i :| 0 <= i < |listed| && listed[i] == s;
    }
  }

  lemma RebuildReady(m: Store, m': Store, s: nat)
    requires Arranged(m) && Arranged(m') && m' == m.(pages := m'.pages) && FlagsOnly(m.pages, m'.pages)
    requires Live(m, s) && RefsOf(m, s) && !m.objects[s].young
    ensures RefsOf(m', s) && Homed(m', s, m'.objects[s])
  {
    FlagsSameGraph(m, m');
    SameGraphRefs(m, m', s);
    assert HomedAny(m', s, m'.objects[s]);
  }

  lemma RebuildStep(m: Store, m1: Store, m2: Store, listed: seq<nat>, k: nat)
    requires Arranged(m1) && m1 == m.(pages := m1.pages) && FlagsOnly(m.pages, m1.pages)
    requires m2 == m1.(pages := m2.pages) && FlagsRaised(m1.pages, m2.pages)
    requires k < |listed| && RememberedListed(m1, listed, k)
    requires Live(m2, listed[k]) && Placed(m2, m2.objects[listed[k]]) && Remembers(m2, m2.objects[listed[k]])
    ensures Arranged(m2) && FlagsOnly(m.pages, m2.pages) && RememberedListed(m2, listed, k + 1)
  {
    FlagsKeepArranged(m1, m2);
    RaisedKeepsListed(m1, m2, listed, k);
  }
}
