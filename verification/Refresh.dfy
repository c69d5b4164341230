/** Which dirty cards stay dirty after a minor collection. */
module Refresh {
  import opened Prelude
  import opened HeapWords
  import opened CardScan
  import opened HeapModel
  import opened Cards
  import opened Marking
  import opened Evacuation

  ghost predicate AnyYoung(m: Store, refs: seq<Ref>) {
    exists i :: 0 <= i < |refs| && YoungRef(m, refs[i])
  }

  /** The trace of the card finds a young reference in this entry. */
  ghost predicate EntryKeeps(m: Store, o: Object, index: nat)
    requires Placed(m, o)
  {
    AnyYoung(m, Children(m, o, CardWords(m, o, index)))
  }

  /** Some old entry has a young reference in this card. */
  ghost predicate CardKeeps(m: Store, c: Card)
    requires AllPlaced(m)
  {
    exists s: nat :: OldLive(m, s) && m.objects[s].page == c.page && EntryKeeps(m, m.objects[s], c.index)
  }

  ghost predicate EntriesKeep(m: Store, c: Card, first: nat, last: nat)
    requires AllPlaced(m) && IsCard(m.pages, c) && last <= |m.pages[c.page].entries|
  {
    first < last && (EntriesKeep(m, c, first, last - 1) || EntryAtKeeps(m, c, m.pages[c.page].entries[last - 1]))
  }

  ghost predicate EntryAtKeeps(m: Store, c: Card, slot: nat)
    requires AllPlaced(m) && c.page < |m.pages|
  {
    && InWindow(m, slot, c.page, WindowStart(c.index), WindowEnd(c.index, |m.pages[c.page].data|))
    && EntryKeeps(m, m.objects[slot], c.index)
  }

  lemma {:induction false} EntriesKeepWitness(m: Store, c: Card, first: nat, last: nat) returns (k: nat)
    requires AllPlaced(m) && IsCard(m.pages, c) && last <= |m.pages[c.page].entries|
    requires EntriesKeep(m, c, first, last)
    ensures first <= k < last && EntryAtKeeps(m, c, m.pages[c.page].entries[k])
    decreases last
  {
    if EntriesKeep(m, c, first, last - 1) {
      k := EntriesKeepWitness(m, c, first, last - 1);
    } else {
      k := last - 1;
    }
  }

  lemma {:induction false} EntriesKeepIntro(m: Store, c: Card, first: nat, last: nat, k: nat)
    requires AllPlaced(m) && IsCard(m.pages, c) && last <= |m.pages[c.page].entries|
    requires first <= k < last && EntryAtKeeps(m, c, m.pages[c.page].entries[k])
    ensures EntriesKeep(m, c, first, last)
    decreases last
  {
    if k < last - 1 {
      EntriesKeepIntro(m, c, first, last - 1, k);
    }
  }

  lemma CardKeepsByEntries(m: Store, c: Card)
    requires Arranged(m) && IsCard(m.pages, c)
    ensures var p := m.pages[c.page];
            var r := EntryRange(p, WindowStart(c.index), WindowEnd(c.index, |p.data|));
            EntriesKeep(m, c, r.0, r.1) <==> CardKeeps(m, c)
  {
    var p := m.pages[c.page];
    var start, end := WindowStart(c.index), WindowEnd(c.index, |p.data|);
    var r := EntryRange(p, start, end);
    assert PageOk(p);
    if EntriesKeep(m, c, r.0, r.1) {
      var k := EntriesKeepWitness(m, c, r.0, r.1);
      var s := p.entries[k];
      assert HomedAny(m, s, m.objects[s]);
      assert OldLive(m, s);
    }
    if CardKeeps(m, c) {
      var s: nat :| OldLive(m, s) && m.objects[s].page == c.page && EntryKeeps(m, m.objects[s], c.index);
      var o := m.objects[s];
      assert CardWords(m, o, c.index) != [];
      assert HomedAny(m, s, o);
      var k := EntryInRange(m, s, o, start, end);
      assert EntryAtKeeps(m, c, p.entries[k]);
      EntriesKeepIntro(m, c, r.0, r.1, k);
    }
  }

  lemma FlagsKeepCardKeeps(m: Store, m': Store, c: Card)
    requires AllPlaced(m) && m' == m.(pages := m'.pages) && FlagsOnly(m.pages, m'.pages)
    ensures AllPlaced(m') && (CardKeeps(m, c) <==> CardKeeps(m', c))
  {
    FlagsKeepPlaced(m, m');
    forall s: nat | OldLive(m, s) && m.objects[s].page == c.page
      ensures EntryKeeps(m, m.objects[s], c.index) <==> EntryKeeps(m', m'.objects[s], c.index)
    {
      var o := m.objects[s];
      FlagsKeepEntry(m, m', o);
      assert CardWords(m, o, c.index) == CardWords(m', o, c.index);
      assert Children(m, o, CardWords(m, o, c.index)) == Children(m', o, CardWords(m', o, c.index));
      assert forall r: Ref :: YoungRef(m, r) <==> YoungRef(m', r);
    }
  }

  /** After the first `k` logged cards: those without young references have been cleared. */
  ghost predicate Refreshing(m0: Store, pages: seq<Page>, log: seq<Card>, kept: seq<Card>, k: nat)
    requires AllPlaced(m0) && k <= |log|
  {
    && FlagsOnly(m0.pages, pages) && Distinct(kept)
    && (forall c :: c in kept <==> c in log[..k] && CardKeeps(m0, c))
    && (forall c :: Flagged(pages, c) <==> c in kept || c in log[k..])
  }

  lemma RefreshStart(m0: Store, log: seq<Card>)
    requires AllPlaced(m0) && LogExact(m0.pages, log)
    ensures Refreshing(m0, m0.pages, log, [], 0)
  {
    assert log[0..] == log;
  }

  lemma RefreshKeep(m0: Store, pages: seq<Page>, log: seq<Card>, kept: seq<Card>, k: nat)
    requires AllPlaced(m0) && k < |log| && Distinct(log) && Refreshing(m0, pages, log, kept, k)
    requires CardKeeps(m0, log[k])
    ensures Refreshing(m0, pages, log, kept + [log[k]], k + 1)
  {
    assert log[..k + 1] == log[..k] + [log[k]];
    assert log[k..] == [log[k]] + log[k + 1..];
    assert log[k] !in log[..k];
  }

  lemma RefreshClear(m0: Store, pages: seq<Page>, log: seq<Card>, kept: seq<Card>, k: nat)
    requires AllPlaced(m0) && k < |log| && Distinct(log) && Refreshing(m0, pages, log, kept, k)
    requires !CardKeeps(m0, log[k]) && IsCard(pages, log[k])
    ensures Refreshing(m0, SetFlag(pages, log[k], false), log, kept, k + 1)
  {
    var c0 := log[k];
    var pages' := SetFlag(pages, c0, false);
    assert log[..k + 1] == log[..k] + [c0];
    assert log[k..] == [c0] + log[k + 1..];
    assert c0 !in log[k + 1..] && c0 !in kept;
    forall c
      ensures Flagged(pages', c) <==> c in kept || c in log[k + 1..]
    {
      if c == c0 {
      } else {
        assert Flagged(pages', c) <==> Flagged(pages, c);
      }
    }
  }

  /** Clearing the cards without young references loses no remembered reference. */
  lemma RefreshKeepsRemembered(m: Store, m': Store, log: seq<Card>)
    requires Arranged(m) && Remembered(m) && LogExact(m.pages, log) && CardsAddressable(m)
    requires m' == m.(pages := m'.pages) && FlagsOnly(m.pages, m'.pages) && AllPlaced(m')
    requires forall c | c in log && CardKeeps(m, c) :: Flagged(m'.pages, c)
    ensures Remembered(m')
  {
    forall s: nat, w | OldLive(m', s) && w in Words(m', m'.objects[s]) && PointsYoung(m', m'.objects[s], w)
      ensures Covered(m'.pages[m'.objects[s].page].cards, m'.objects[s].offset + w.SpanStart(), w.SpanSize())
    {
      RememberedWordStays(m, m', log, s, w);
    }
  }

  lemma RememberedWordStays(m: Store, m': Store, log: seq<Card>, s: nat, w: Word)
    requires Arranged(m) && Remembered(m) && LogExact(m.pages, log) && CardsAddressable(m)
    requires m' == m.(pages := m'.pages) && FlagsOnly(m.pages, m'.pages) && AllPlaced(m')
    requires forall c | c in log && CardKeeps(m, c) :: Flagged(m'.pages, c)
    requires OldLive(m', s) && w in Words(m', m'.objects[s]) && PointsYoung(m', m'.objects[s], w)
    ensures Covered(m'.pages[m'.objects[s].page].cards, m'.objects[s].offset + w.SpanStart(), w.SpanSize())
  {
    var o := m.objects[s];
    assert OldLive(m, s);
    FlagsKeepEntry(m, m', o);
    assert PointsYoung(m, o, w) && Remembers(m, o);
    var cards := m.pages[o.page].cards;
    var i :| 0 <= i < |cards| && cards[i] && CardTouches(i, o.offset + w.SpanStart(), w.SpanSize());
    var c := Card(o.page, i);
    assert Flagged(m.pages, c) && c in log;
    assert HomedAny(m, s, o);
    WordVisited(m, s, i, w);
    KeepsByWord(m, o, i, w);
    assert CardKeeps(m, c);
    assert Flagged(m'.pages, c);
  }

  lemma KeepsByWord(m: Store, o: Object, index: nat, w: Word)
    requires Placed(m, o) && w in CardWords(m, o, index) && PointsYoung(m, o, w)
    ensures EntryKeeps(m, o, index)
  {
    var words := CardWords(m, o, index);
    var k :| 0 <= k < |words| && words[k] == w;
    assert Children(m, o, words)[k] == Child(m, o, w);
    assert YoungRef(m, Children(m, o, words)[k]);
  }

  lemma RefreshLogOk(m0: Store, pages: seq<Page>, log: seq<Card>, kept: seq<Card>, capacity: nat)
    requires AllPlaced(m0) && LogOk(m0.pages, log, capacity, true) && Refreshing(m0, pages, log, kept, |log|)
    ensures LogOk(pages, kept, capacity, true)
    ensures forall c :: Flagged(pages, c) <==> Flagged(m0.pages, c) && CardKeeps(m0, c)
  {
    hide CardKeeps;
    assert log[..|log|] == log && log[|log|..] == [];
    TotalCardsSame(m0.pages, pages);
  }
}
