/** Mutator writes between collections: payload bytes, dirty cards and the logs that hold them. */
module Barrier {
  import opened Prelude
  import opened HeapWords
  import opened CardScan
  import opened HeapModel
  import opened Cards
  import opened Marking
  import opened Evacuation
  import opened Directory

  // ----- one log spread over the heap and its batches -----

  function Flat(logs: seq<seq<Card>>): seq<Card> {
    if logs == [] then [] else Flat(logs[..|logs| - 1]) + logs[|logs| - 1]
  }

  /** The heap log followed by the logs of the batches that have not been flushed. */
  function AllLogs(pending: seq<Card>, logs: seq<seq<Card>>): seq<Card> {
    pending + Flat(logs)
  }

  lemma {:induction false} FlatUpdate(logs: seq<seq<Card>>, b: nat, log: seq<Card>, c: Card)
    requires b < |logs|
    ensures multiset(Flat(logs[b := log]))[c] + multiset(logs[b])[c] == multiset(Flat(logs))[c] + multiset(log)[c]
  {
    var n := |logs| - 1;
    var after := logs[b := log];
    assert Flat(logs) == Flat(logs[..n]) + logs[n];
    assert Flat(after) == Flat(after[..n]) + after[n];
    if b == n {
      assert after[..n] == logs[..n];
    } else {
      assert after[..n] == logs[..n][b := log];
      FlatUpdate(logs[..n], b, log, c);
      assert logs[..n][b] == logs[b];
    }
  }

  lemma {:induction false} FullSetDistinct<T>(xs: seq<T>)
    requires |Elements(xs)| == |xs|
    ensures Distinct(xs)
  {
    if xs != [] {
      var n := |xs| - 1;
      assert Elements(xs) == Elements(xs[..n]) + {xs[n]};
      ElementsBound(xs[..n]);
      FullSetDistinct(xs[..n]);
      assert xs[n] !in Elements(xs[..n]);
      forall i | 0 <= i < n
        ensures xs[i] != xs[n]
      {
        assert xs[..n][i] in Elements(xs[..n]);
      }
    }
  }

  lemma {:induction false} ElementsBound<T>(xs: seq<T>)
    ensures |Elements(xs)| <= |xs|
  {
    if xs != [] {
      var n := |xs| - 1;
      ElementsBound(xs[..n]);
      assert Elements(xs) == Elements(xs[..n]) + {xs[n]};
    }
  }

  lemma SameMembers<T>(a: seq<T>, b: seq<T>)
    requires multiset(a) == multiset(b)
    ensures forall x :: x in a <==> x in b
    ensures Elements(a) == Elements(b) && |a| == |b|
  {
    forall x
      ensures x in a <==> x in b
    {
      assert x in a <==> x in multiset(a);
      assert x in b <==> x in multiset(b);
    }
    assert |multiset(a)| == |a| && |multiset(b)| == |b|;
  }

  lemma DistinctPermuted<T>(a: seq<T>, b: seq<T>)
    requires multiset(a) == multiset(b) && Distinct(a)
    ensures Distinct(b)
  {
    SameMembers(a, b);
    DistinctSize(a);
    FullSetDistinct(b);
  }

  /** The order of the log does not matter. */
  lemma LogPermuted(pages: seq<Page>, a: seq<Card>, b: seq<Card>, capacity: nat)
    requires LogOk(pages, a, capacity, true) && multiset(a) == multiset(b)
    ensures LogOk(pages, b, capacity, true)
  {
    SameMembers(a, b);
    DistinctPermuted(a, b);
  }

  /** A newly flagged card appended to one batch log. */
  lemma LogInBatch(pages: seq<Page>, pending: seq<Card>, logs: seq<seq<Card>>, b: nat, c: Card, capacity: nat)
    requires b < |logs| && LogOk(pages, AllLogs(pending, logs), capacity, true) && IsCard(pages, c)
    requires !Flagged(pages, c)
    ensures LogOk(SetFlag(pages, c, true), AllLogs(pending, logs[b := logs[b] + [c]]), capacity, true)
  {
    FlagSet(pages, AllLogs(pending, logs), capacity, true, c);
    var before, after := AllLogs(pending, logs) + [c], AllLogs(pending, logs[b := logs[b] + [c]]);
    forall x
      ensures multiset(before)[x] == multiset(after)[x]
    {
      FlatUpdate(logs, b, logs[b] + [c], x);
    }
    assert multiset(before) == multiset(after);
    LogPermuted(SetFlag(pages, c, true), before, after, capacity);
  }

  /** Flushing moves a batch log into the heap log. */
  lemma LogFlushed(pages: seq<Page>, pending: seq<Card>, logs: seq<seq<Card>>, b: nat, capacity: nat)
    requires b < |logs| && LogOk(pages, AllLogs(pending, logs), capacity, true)
    ensures LogOk(pages, AllLogs(pending + logs[b], logs[b := []]), capacity, true)
  {
    var before, after := AllLogs(pending, logs), AllLogs(pending + logs[b], logs[b := []]);
    forall x
      ensures multiset(before)[x] == multiset(after)[x]
    {
      FlatUpdate(logs, b, [], x);
    }
    assert multiset(before) == multiset(after);
    LogPermuted(pages, before, after, capacity);
  }

  // ----- one write -----

  /** Only the bytes `at..at + |bytes|` of entry `s` changed. */
  ghost predicate Written(m: Store, m': Store, s: nat, at: nat, bytes: seq<byte>)
    requires Live(m, s) && Placed(m, m.objects[s])
  {
    var o := m.objects[s];
    && at + |bytes| <= o.size
    && m'.layouts == m.layouts && m'.objects == m.objects && |m'.pages| == |m.pages|
    && (forall p: nat | p < |m.pages| && p != o.page :: m'.pages[p] == m.pages[p])
    && m'.pages[o.page] == m.pages[o.page].(data := Write(m.pages[o.page].data, o.offset + at, bytes))
  }

  /** Live payloads do not meet. */
  lemma ExtentsDisjoint(m: Store, s: nat, t: nat)
    requires Arranged(m) && Live(m, s) && Live(m, t) && s != t
    ensures DisjointExtents(m.objects[s], m.objects[t])
  {
    var a, b := m.objects[s], m.objects[t];
    assert HomedAny(m, s, a) && HomedAny(m, t, b);
    if a.page == b.page && !a.young && !b.young && m.pages[a.page].kind.OldPage? {
      OtherCell(m, t, a.page, CellOf(m.pages[a.page], a));
    }
  }

  lemma WriteKeepsOthers(m: Store, m': Store, s: nat, at: nat, bytes: seq<byte>, t: nat)
    requires Arranged(m) && Live(m, s) && Live(m, t) && Written(m, m', s, at, bytes)
    ensures Placed(m', m'.objects[t]) && Sized(m', m'.objects[t]) && HomedAny(m', t, m'.objects[t])
    ensures t != s ==> Payload(m', m'.objects[t]) == Payload(m, m.objects[t])
  {
    var o := m.objects[s];
    var data := m.pages[o.page].data;
    assert |Write(data, o.offset + at, bytes)| == |data|;
    assert HomedAny(m, t, m.objects[t]);
    if t != s {
      ExtentsDisjoint(m, s, t);
      if m.objects[t].page == o.page {
        WriteElsewhere(data, o.offset + at, bytes, m.objects[t].offset, m.objects[t].offset + m.objects[t].size);
      }
    }
  }

  lemma WriteKeepsArranged(m: Store, m': Store, s: nat, at: nat, bytes: seq<byte>)
    requires Arranged(m) && Live(m, s) && Written(m, m', s, at, bytes)
    ensures Arranged(m')
    ensures forall t: nat | Live(m, t) && t != s :: Payload(m', m'.objects[t]) == Payload(m, m.objects[t])
    ensures Payload(m', m'.objects[s]) == Write(Payload(m, m.objects[s]), at, bytes)
  {
    forall t: nat | Live(m, t)
      ensures Placed(m', m'.objects[t]) && Sized(m', m'.objects[t]) && HomedAny(m', t, m'.objects[t])
      ensures t != s ==> Payload(m', m'.objects[t]) == Payload(m, m.objects[t])
    {
      WriteKeepsOthers(m, m', s, at, bytes, t);
    }
    WriteKeepsPages(m, m', s, at, bytes);
    WritePayload(m, m', s, at, bytes);
    hide Payload, Write, Placed, Sized, HomedAny, PageOk;
    assert forall t: nat | Live(m', t) :: Live(m, t);
  }

  lemma WriteKeepsPages(m: Store, m': Store, s: nat, at: nat, bytes: seq<byte>)
    requires Arranged(m) && Live(m, s) && Written(m, m', s, at, bytes)
    ensures forall p: nat | p < |m'.pages| :: PageOk(m'.pages[p])
  {
    forall p: nat | p < |m'.pages|
      ensures PageOk(m'.pages[p])
    {
      assert PageOk(m.pages[p]);
    }
  }

  lemma WritePayload(m: Store, m': Store, s: nat, at: nat, bytes: seq<byte>)
    requires Arranged(m) && Live(m, s) && Written(m, m', s, at, bytes)
    ensures Payload(m', m'.objects[s]) == Write(Payload(m, m.objects[s]), at, bytes)
  {
    var o := m.objects[s];
    WriteWithin(m.pages[o.page].data, o.offset, o.size, at, bytes);
    hide Arranged;
  }

  /** Writing into a part of the data and then looking at that part. */
  lemma WriteWithin(data: seq<byte>, offset: nat, size: nat, at: nat, bytes: seq<byte>)
    requires offset + size <= |data| && at + |bytes| <= size
    ensures Write(data, offset + at, bytes)[offset..offset + size] == Write(data[offset..offset + size], at, bytes)
  {
    var left, right := Write(data, offset + at, bytes)[offset..offset + size],
      Write(data[offset..offset + size], at, bytes);
    assert |left| == |right| == size;
    forall i | 0 <= i < size
      ensures left[i] == right[i]
    {
      WriteAt(data, offset + at, bytes, offset + i);
      WriteAt(data[offset..offset + size], at, bytes, i);
    }
  }

  lemma WriteAt(data: seq<byte>, at: nat, bytes: seq<byte>, i: nat)
    requires at + |bytes| <= |data| && i < |data|
    ensures |Write(data, at, bytes)| == |data|
    ensures Write(data, at, bytes)[i] == if at <= i < at + |bytes| then bytes[i - at] else data[i]
  {
  }

  /** A word none of whose bytes changed holds the same reference. */
  lemma EdgeUnchanged(payload: seq<byte>, at: nat, bytes: seq<byte>, w: Word)
    requires at + |bytes| <= |payload|
    requires w.SpanEnd() <= at || at + |bytes| <= w.SpanStart()
    ensures Edge(Write(payload, at, bytes), w) == Edge(payload, w)
  {
    var after := Write(payload, at, bytes);
    assert |after| == |payload|;
    if w.SpanEnd() <= |payload| {
      assert forall i | w.SpanStart() <= i < w.SpanEnd() :: after[i] == payload[i];
    }
  }

  lemma EdgeApart(payload: seq<byte>, at: nat, bytes: seq<byte>, w: Word)
    requires at + |bytes| <= |payload| && !Overlap(w.SpanStart(), w.SpanSize(), at, at + |bytes|)
    ensures Edge(Write(payload, at, bytes), w) == Edge(payload, w)
  {
    if bytes == [] {
      assert Write(payload, at, bytes) == payload;
    } else {
      EdgeUnchanged(payload, at, bytes, w);
    }
  }

  /** The cards over these bytes are dirty. */
  ghost predicate CardsDirty(pages: seq<Page>, page: nat, from: nat, size: nat) {
    page < |pages| && forall i: nat | i < |pages[page].cards| && CardTouches(i, from, size) :: pages[page].cards[i]
  }

  lemma DirtyBytesCovered(pages: seq<Page>, page: nat, from: nat, size: nat, start: nat, width: nat)
    requires page < |pages| && |pages[page].cards| == CardCount(|pages[page].data|) && from + size <= |pages[page].data|
    requires CardsDirty(pages, page, from, size) && Overlap(start, width, from, from + size)
    ensures Covered(pages[page].cards, start, width)
  {
    var b := if start < from then from else start;
    var i := b / CARD_BYTES;
    assert CardTouches(i, from, size) && CardTouches(i, start, width);
  }

  /** A write followed by dirtying the cards over the written bytes keeps the remembered set. */
  lemma BarrierKeepsRemembered(m: Store, m1: Store, m2: Store, s: nat, at: nat, bytes: seq<byte>)
    requires Arranged(m) && Remembered(m) && Live(m, s) && Written(m, m1, s, at, bytes) && AllPlaced(m1)
    requires m2 == m1.(pages := m2.pages) && FlagsRaised(m1.pages, m2.pages) && AllPlaced(m2)
    requires m.objects[s].young || CardsDirty(m2.pages, m.objects[s].page, m.objects[s].offset + at, |bytes|)
    ensures Remembered(m2)
  {
    WriteKeepsArranged(m, m1, s, at, bytes);
    forall t: nat | Live(m2, t) && !m2.objects[t].young
      ensures Remembers(m2, m2.objects[t])
    {
      assert Live(m, t) && Remembers(m, m.objects[t]);
      if t == s {
        WrittenRemembers(m, m1, m2, s, at, bytes);
      } else {
        OthersRemember(m, m1, t);
        RaisedKeepsRemembers(m1, m2, m1.objects[t]);
      }
    }
  }

  lemma OthersRemember(m: Store, m1: Store, t: nat)
    requires AllPlaced(m) && AllPlaced(m1) && m1.objects == m.objects && m1.layouts == m.layouts
    requires |m1.pages| == |m.pages|
    requires Live(m, t) && Remembers(m, m.objects[t])
    requires m1.pages[m.objects[t].page].cards == m.pages[m.objects[t].page].cards
    requires Payload(m1, m1.objects[t]) == Payload(m, m.objects[t])
    ensures Remembers(m1, m1.objects[t])
  {
    var o := m.objects[t];
    forall w | w in Words(m1, o) && PointsYoung(m1, o, w)
      ensures Covered(m1.pages[o.page].cards, o.offset + w.SpanStart(), w.SpanSize())
    {
      assert PointsYoung(m, o, w);
    }
  }

  lemma WrittenRemembers(m: Store, m1: Store, m2: Store, s: nat, at: nat, bytes: seq<byte>)
    requires Arranged(m) && Live(m, s) && !m.objects[s].young && Remembers(m, m.objects[s])
    requires Written(m, m1, s, at, bytes) && AllPlaced(m1)
    requires Payload(m1, m.objects[s]) == Write(Payload(m, m.objects[s]), at, bytes)
    requires m2 == m1.(pages := m2.pages) && FlagsRaised(m1.pages, m2.pages) && AllPlaced(m2)
    requires CardsDirty(m2.pages, m.objects[s].page, m.objects[s].offset + at, |bytes|)
    ensures Remembers(m2, m2.objects[s])
  {
    var o := m.objects[s];
    FlagsKeepEntry(m1, m2, o);
    assert HomedAny(m, s, o);
    hide Arranged, FlagsRaised, CardsDirty, Payload, Edge, Covered, HomedAny, AllPlaced;
    forall w | w in Words(m2, o) && PointsYoung(m2, o, w)
      ensures Covered(m2.pages[o.page].cards, o.offset + w.SpanStart(), w.SpanSize())
    {
      if Overlap(w.SpanStart(), w.SpanSize(), at, at + |bytes|) {
        DirtyBytesCovered(m2.pages, o.page, o.offset + at, |bytes|, o.offset + w.SpanStart(), w.SpanSize());
      } else {
        EdgeApart(Payload(m, o), at, bytes, w);
        assert PointsYoung(m, o, w);
        CoveredStays(m1.pages, m2.pages, o.page, o.offset + w.SpanStart(), w.SpanSize());
      }
    }
  }

  // ----- how many cards a write adds to a log -----

  /** The log a write appends to. */
  datatype Lane = HeapLog | BatchLog(index: nat)

  /** Only the log of this lane may have changed. */
  ghost predicate LanesKept(lane: Lane, pending: seq<Card>, logs: seq<seq<Card>>, pending': seq<Card>,
      logs': seq<seq<Card>>) {
    && |logs'| == |logs|
    && pending <= pending' && (lane.BatchLog? ==> pending' == pending)
    && (forall b | 0 <= b < |logs| :: logs[b] <= logs'[b] && (lane != BatchLog(b) ==> logs'[b] == logs[b]))
  }

  /** How a write through a batch ends. */
  datatype WriteOutcome = WriteDone | BatchReturned | StaleReference | OutsidePayload | LogFull

  function CleanCards(cards: seq<bool>, from: nat, end: nat): nat
    requires from <= end <= |cards|
    decreases end - from
  {
    if from == end then 0 else (if cards[from] then 0 else 1) + CleanCards(cards, from + 1, end)
  }

  lemma {:induction false} CleanCardsAfter(before: seq<bool>, after: seq<bool>, from: nat, end: nat)
    requires from <= end <= |before| && |after| == |before|
    requires forall i | from <= i < end :: after[i] == before[i]
    ensures CleanCards(after, from, end) == CleanCards(before, from, end)
    decreases end - from
  {
    if from < end {
      CleanCardsAfter(before, after, from + 1, end);
    }
  }

  function FirstCard(from: nat): nat {
    from / CARD_BYTES
  }

  /** The flags with those of a range raised. */
  function RaisedFrom(cards: seq<bool>, from: nat, to: nat): seq<bool> {
    seq(|cards|, i requires 0 <= i < |cards| => cards[i] || from <= i < to)
  }

  lemma RaisedNext(cards: seq<bool>, from: nat, to: nat)
    requires from <= to < |cards|
    ensures RaisedFrom(cards, from, to + 1) == RaisedFrom(cards, from, to)[to := true]
  {
  }

  lemma RaisedNone(pages: seq<Page>, page: nat, from: nat)
    requires page < |pages|
    ensures pages[page := pages[page].(cards := RaisedFrom(pages[page].cards, from, from))] == pages
  {
    assert RaisedFrom(pages[page].cards, from, from) == pages[page].cards;
  }

  lemma SetFlagAgain(pages: seq<Page>, c: Card)
    requires IsCard(pages, c)
    ensures pages[c.page].cards[c.index] ==> SetFlag(pages, c, true) == pages
  {
    if pages[c.page].cards[c.index] {
      assert pages[c.page].cards[c.index := true] == pages[c.page].cards;
    }
  }

  /** One past the last card of a non-empty region. */
  function EndCard(from: nat, size: nat): (end: nat)
    requires 0 < size
    ensures FirstCard(from) < end
  {
    (from + size - 1) / CARD_BYTES + 1
  }

  lemma RegionCards(from: nat, size: nat, length: nat)
    requires 0 < size && from + size <= length
    ensures FirstCard(from) < EndCard(from, size) <= CardCount(length)
    ensures forall i: nat :: CardTouches(i, from, size) ==> FirstCard(from) <= i < EndCard(from, size)
  {
  }

  /** Cards a write to an old entry would have to log. */
  function NeededCards(m: Store, s: nat, at: nat, size: nat): nat
    requires s < |m.objects| && m.objects[s].page < |m.pages| && 0 < size
    requires EndCard(m.objects[s].offset + at, size) <= |m.pages[m.objects[s].page].cards|
  {
    var o := m.objects[s];
    CleanCards(m.pages[o.page].cards, FirstCard(o.offset + at), EndCard(o.offset + at, size))
  }

  /** An old entry's page has a card for every byte of its payload. */
  lemma OldCards(m: Store, s: nat, at: nat, size: nat)
    requires Arranged(m) && Live(m, s) && !m.objects[s].young && at + size <= m.objects[s].size && 0 < size
    ensures m.objects[s].page < |m.pages|
    ensures |m.pages[m.objects[s].page].cards| == CardCount(|m.pages[m.objects[s].page].data|)
    ensures m.objects[s].offset + at + size <= |m.pages[m.objects[s].page].data|
    ensures EndCard(m.objects[s].offset + at, size) <= |m.pages[m.objects[s].page].cards|
  {
    var o := m.objects[s];
    assert HomedAny(m, s, o) && PageOk(m.pages[o.page]);
    RegionCards(o.offset + at, size, |m.pages[o.page].data|);
  }

  lemma ArrangedPlaced(m: Store, s: nat)
    requires Arranged(m) && Live(m, s)
    ensures Placed(m, m.objects[s])
  {
  }

  lemma RaisedSame(pages: seq<Page>)
    ensures FlagsRaised(pages, pages)
  {
  }

  /** What a write costs its log; nothing for a young entry. */
  ghost function Needed(m: Store, s: nat, at: nat, size: nat): nat
    requires Arranged(m) && Live(m, s) && at + size <= m.objects[s].size
  {
    if m.objects[s].young || size == 0 then 0
    else
      OldCards(m, s, at, size);
      NeededCards(m, s, at, size)
  }

  /** The write and its dirty cards together. */
  lemma StoreDone(m: Store, m1: Store, m2: Store, s: nat, at: nat, bytes: seq<byte>)
    requires Arranged(m) && Remembered(m) && Live(m, s) && Written(m, m1, s, at, bytes)
    requires m2 == m1.(pages := m2.pages) && FlagsRaised(m1.pages, m2.pages)
    requires m.objects[s].young || bytes == []
      || CardsDirty(m2.pages, m.objects[s].page, m.objects[s].offset + at, |bytes|)
    ensures Arranged(m2) && Remembered(m2)
    ensures Payload(m2, m2.objects[s]) == Write(Payload(m, m.objects[s]), at, bytes)
    ensures forall t: nat | Live(m2, t) && t != s :: Payload(m2, m2.objects[t]) == Payload(m, m.objects[t])
  {
    WriteKeepsArranged(m, m1, s, at, bytes);
    FlagsKeepArranged(m1, m2);
    if bytes == [] {
      NothingDirty(m2.pages, m.objects[s].page, m.objects[s].offset + at);
    }
    BarrierKeepsRemembered(m, m1, m2, s, at, bytes);
    FlagsKeepPlaced(m1, m2);
    forall t: nat | Live(m2, t)
      ensures Payload(m2, m2.objects[t]) == Payload(m1, m1.objects[t])
    {
      FlagsKeepEntry(m1, m2, m1.objects[t]);
    }
  }

  lemma NothingDirty(pages: seq<Page>, page: nat, from: nat)
    requires page < |pages|
    ensures CardsDirty(pages, page, from, 0)
  {
  }

  lemma {:induction false} FlatEmpty(logs: seq<seq<Card>>)
    requires forall b | 0 <= b < |logs| :: logs[b] == []
    ensures Flat(logs) == []
  {
    if logs != [] {
      FlatEmpty(logs[..|logs| - 1]);
    }
  }

  // ----- a new entry -----

  /** Entry `s` is published in the nursery over fresh zero bytes at the end of what its page uses. */
  ghost predicate BornYoung(m: Store, m': Store, s: nat, o: Object) {
    && 0 < s < |m.objects| && !m.objects[s].state.Published?
    && o.state.Published? && o.young && o.page < |m.pages| && m.pages[o.page].kind.YoungPage?
    && 0 < o.layout < |m.layouts| && o.offset == m.pages[o.page].used && o.offset + o.size <= |m.pages[o.page].data|
    && m'.layouts == m.layouts && m'.objects == m.objects[s := o] && |m'.pages| == |m.pages|
    && (forall p: nat | p < |m.pages| && p != o.page :: m'.pages[p] == m.pages[p])
    && m'.pages[o.page] == m.pages[o.page].(used := o.offset + o.size,
                                            data := Write(m.pages[o.page].data, o.offset, Zeros(o.size)))
  }

  function Zeros(n: nat): seq<byte> {
    seq(n, i => 0)
  }

  lemma ZeroEdge(payload: seq<byte>, w: Word)
    requires forall i | 0 <= i < |payload| :: payload[i] == 0
    ensures Edge(payload, w).Null()
  {
  }

  lemma BornKeepsOther(m: Store, m': Store, s: nat, o: Object, t: nat)
    requires Arranged(m) && BornYoung(m, m', s, o) && Live(m, t)
    ensures t != s && m'.objects[t] == m.objects[t]
    ensures Placed(m', m.objects[t]) && Sized(m', m.objects[t]) && HomedAny(m', t, m.objects[t])
    ensures Payload(m', m.objects[t]) == Payload(m, m.objects[t])
    ensures m.objects[t].page == o.page ==> m.objects[t].offset + m.objects[t].size <= o.offset
    ensures m'.pages[m.objects[t].page].cards == m.pages[m.objects[t].page].cards
  {
    var a, data := m.objects[t], m.pages[o.page].data;
    assert HomedAny(m, t, a) && PageOk(m.pages[o.page]);
    assert |Write(data, o.offset, Zeros(o.size))| == |data|;
    if a.page == o.page {
      WriteElsewhere(data, o.offset, Zeros(o.size), a.offset, a.offset + a.size);
    }
  }

  lemma BornKeepsArranged(m: Store, m': Store, s: nat, o: Object)
    requires Arranged(m) && BornYoung(m, m', s, o)
    requires ValidLayout(m.layouts[o.layout]) && ElementBase(m.layouts[o.layout].stride, o.count) <= o.size
    requires 8 <= o.size && o.size % 8 == 0 && 0 < o.generation
    ensures Arranged(m') && forall t: nat | Live(m, t) :: Payload(m', m'.objects[t]) == Payload(m, m.objects[t])
  {
    assert PageOk(m.pages[o.page]);
    forall t: nat | Live(m, t)
      ensures t != s && m'.objects[t] == m.objects[t]
      ensures Placed(m', m'.objects[t]) && Sized(m', m'.objects[t]) && HomedAny(m', t, m'.objects[t])
      ensures Payload(m', m'.objects[t]) == Payload(m, m.objects[t])
      ensures m.objects[t].page == o.page ==> m.objects[t].offset + m.objects[t].size <= o.offset
    {
      BornKeepsOther(m, m', s, o, t);
    }
    BornPlaced(m, m', s, o);
    forall p: nat | p < |m'.pages|
      ensures PageOk(m'.pages[p])
    {
      assert PageOk(m.pages[p]);
    }
    hide Payload, PageOk, HomedAny, Placed, Sized, Write;
    assert forall t: nat | Live(m', t) && t != s :: Live(m, t);
  }

  lemma BornPlaced(m: Store, m': Store, s: nat, o: Object)
    requires Arranged(m) && BornYoung(m, m', s, o)
    requires ValidLayout(m.layouts[o.layout]) && ElementBase(m.layouts[o.layout].stride, o.count) <= o.size
    requires 8 <= o.size && o.size % 8 == 0 && 0 < o.generation
    ensures Placed(m', o) && Sized(m', o) && HomedAny(m', s, o) && Payload(m', o) == Zeros(o.size)
    ensures forall w :: Child(m', o, w).Null()
  {
    var data := m.pages[o.page].data;
    assert PageOk(m.pages[o.page]);
    assert Payload(m', o) == Zeros(o.size) by {
      WriteThere(data, o.offset, Zeros(o.size));
    }
    forall w
      ensures Child(m', o, w).Null()
    {
      ZeroEdge(Payload(m', o), w);
    }
  }

  /** Nothing refers to the new entry yet, so references and the remembered set stay good. */
  lemma BornKeepsGraph(m: Store, m': Store, s: nat, o: Object)
    requires Arranged(m) && Remembered(m) && RefsResolve(m) && BornYoung(m, m', s, o) && Arranged(m')
    requires forall t: nat | Live(m, t) :: Payload(m', m'.objects[t]) == Payload(m, m.objects[t])
    requires forall w :: Child(m', o, w).Null()
    ensures Remembered(m') && RefsResolve(m')
  {
    hide PageOk, HomedAny, Payload, Edge, Write;
    forall t: nat, w | Live(m', t) && w in Words(m', m'.objects[t])
      ensures Child(m', m'.objects[t], w).Null() || Resolves(m', Child(m', m'.objects[t], w))
    {
      if t != s {
        assert Child(m', m'.objects[t], w) == Child(m, m.objects[t], w);
      }
    }
    forall t: nat | Live(m', t) && !m'.objects[t].young
      ensures Remembers(m', m'.objects[t])
    {
      assert Live(m, t) && Remembers(m, m.objects[t]);
      BornRemembers(m, m', s, o, t);
    }
  }

  lemma BornRemembers(m: Store, m': Store, s: nat, o: Object, t: nat)
    requires AllPlaced(m) && AllPlaced(m') && RefsResolve(m) && BornYoung(m, m', s, o) && Live(m, t) && t != s
    requires Remembers(m, m.objects[t]) && Payload(m', m'.objects[t]) == Payload(m, m.objects[t])
    ensures Remembers(m', m'.objects[t])
  {
    hide Payload, Edge;
    var a := m.objects[t];
    forall w | w in Words(m', a) && PointsYoung(m', a, w)
      ensures Covered(m'.pages[a.page].cards, a.offset + w.SpanStart(), w.SpanSize())
    {
      assert Child(m', a, w) == Child(m, a, w);
      assert PointsYoung(m, a, w);
    }
  }

  lemma {:induction false} LiveBytesBorn(objects: seq<Object>, s: nat, o: Object)
    requires 0 < s < |objects| && !objects[s].state.Published? && o.state.Published?
    ensures LiveBytes(objects[s := o]) == LiveBytes(objects) + o.logical
  {
    LiveBytesUpdate(objects, s, o);
  }

  lemma BornPages(m: Store, m': Store, s: nat, o: Object, nursery: seq<nat>, lists: seq<seq<nat>>, log: seq<Card>,
      capacity: nat)
    requires BornYoung(m, m', s, o) && NurseryPaired(m.pages, nursery) && Available(m.pages, lists)
    requires LogOk(m.pages, log, capacity, true)
    ensures NurseryPaired(m'.pages, nursery) && Available(m'.pages, lists) && LogOk(m'.pages, log, capacity, true)
  {
    LogSameCards(m.pages, m'.pages, log, capacity, true);
    hide LogOk;
    forall i | 0 <= i < |nursery|
      ensures Paired(m'.pages, nursery[i], SparePage)
    {
      assert Paired(m.pages, nursery[i], SparePage);
    }
  }

  lemma NurseryYoung(pages: seq<Page>, nursery: seq<nat>, page: nat)
    requires NurseryPaired(pages, nursery) && page in nursery
    ensures page < |pages| && pages[page].kind.YoungPage?
  {
    var i :| 0 <= i < |nursery| && nursery[i] == page;
    assert Paired(pages, nursery[i], SparePage);
  }

  lemma BornListed(m: Store, m': Store, s: nat, o: Object, occupied: seq<nat>, occupiedIndex: seq<nat>, young: seq<nat>,
      youngIndex: seq<nat>)
    requires Listed(m, occupied, occupiedIndex, young, youngIndex) && BornYoung(m, m', s, o)
    ensures Listed(m', occupied + [s], occupiedIndex[s := |occupied|], young + [s], youngIndex[s := |young|])
  {
    hide Write, Payload;
    assert s !in occupied && s !in young;
    assert forall t: nat :: Live(m', t) <==> t == s || Live(m, t);
  }

  /** Everything a new young entry keeps. */
  lemma BornKeeps(m: Store, m': Store, s: nat, o: Object)
    requires Arranged(m) && Remembered(m) && RefsResolve(m) && BornYoung(m, m', s, o)
    requires ValidLayout(m.layouts[o.layout]) && ElementBase(m.layouts[o.layout].stride, o.count) <= o.size
    requires 8 <= o.size && o.size % 8 == 0 && 0 < o.generation
    ensures Arranged(m') && Remembered(m') && RefsResolve(m')
    ensures LiveBytes(m'.objects) == LiveBytes(m.objects) + o.logical
    ensures Live(m', s) && Placed(m', o) && Payload(m', o) == Zeros(o.size)
    ensures forall t: nat | Live(m, t) ::
      Live(m', t) && m'.objects[t] == m.objects[t] && Payload(m', m'.objects[t]) == Payload(m, m.objects[t])
    ensures forall t: nat | Live(m', t) :: t == s || Live(m, t)
  {
    BornKeepsArranged(m, m', s, o);
    BornPlaced(m, m', s, o);
    BornKeepsGraph(m, m', s, o);
    LiveBytesBorn(m.objects, s, o);
  }

  lemma YoungListed(m: Store, occupied: seq<nat>, occupiedIndex: seq<nat>, young: seq<nat>, youngIndex: seq<nat>,
      s: nat)
    requires Listed(m, occupied, occupiedIndex, young, youngIndex) && s < |m.objects| && !m.objects[s].state.Published?
    ensures |occupiedIndex| == |m.objects| && |youngIndex| == |m.objects|
    ensures forall i | 0 <= i < |young| :: young[i] < |m.objects| && young[i] != s
  {
    forall i | 0 <= i < |young|
      ensures young[i] < |m.objects| && young[i] != s
    {
      assert young[i] in young;
    }
  }

  // ----- what a write leaves to the next collection -----

  /** Pages differ in their bytes and card flags only. */
  ghost predicate BytesOnly(before: seq<Page>, after: seq<Page>) {
    && |after| == |before|
    && (forall p: nat | p < |before| ::
          && after[p] == before[p].(data := after[p].data, cards := after[p].cards)
          && |after[p].data| == |before[p].data| && |after[p].cards| == |before[p].cards|)
  }

  lemma WriteBytesOnly(m: Store, m1: Store, m2: Store, s: nat, at: nat, bytes: seq<byte>)
    requires Live(m, s) && Placed(m, m.objects[s]) && Written(m, m1, s, at, bytes) && FlagsRaised(m1.pages, m2.pages)
    ensures BytesOnly(m.pages, m2.pages)
  {
    var o := m.objects[s];
    assert |Write(m.pages[o.page].data, o.offset + at, bytes)| == |m.pages[o.page].data|;
  }

  lemma BytesOnlyPages(before: seq<Page>, after: seq<Page>, nursery: seq<nat>, lists: seq<seq<nat>>)
    requires BytesOnly(before, after) && NurseryPaired(before, nursery) && Available(before, lists)
    ensures NurseryPaired(after, nursery) && Available(after, lists)
  {
    forall i | 0 <= i < |nursery|
      ensures Paired(after, nursery[i], SparePage)
    {
      assert Paired(before, nursery[i], SparePage);
    }
  }

  lemma BytesOnlyAddressable(m: Store, m': Store)
    requires AllPlaced(m) && AllPlaced(m') && m' == m.(pages := m'.pages) && BytesOnly(m.pages, m'.pages)
    requires CardsAddressable(m)
    ensures CardsAddressable(m')
  {
    forall s: nat, index: nat | Live(m', s) && !m'.objects[s].young
      && index < CardCount(|m'.pages[m'.objects[s].page].data|)
      && CardArithmeticWraps(m', m'.objects[s], index)
      ensures WordsInCard(m', m'.objects[s], index) == []
    {
      assert CardArithmeticWraps(m, m.objects[s], index);
    }
  }

  /** After the write every word of the entry is null or names a live entry: a guest stores only references it holds. */
  ghost predicate Held(m: Store, s: nat, at: nat, bytes: seq<byte>) {
    && Live(m, s) && Placed(m, m.objects[s]) && at + |bytes| <= m.objects[s].size
    && forall w | w in Words(m, m.objects[s]) ::
         var r := Edge(Write(Payload(m, m.objects[s]), at, bytes), w);
         r.Null() || Resolves(m, r)
  }

  lemma HeldKeepsRefs(m: Store, m': Store, s: nat, at: nat, bytes: seq<byte>)
    requires AllPlaced(m) && AllPlaced(m') && m' == m.(pages := m'.pages) && RefsResolve(m) && Held(m, s, at, bytes)
    requires Payload(m', m'.objects[s]) == Write(Payload(m, m.objects[s]), at, bytes)
    requires forall t: nat | Live(m', t) && t != s :: Payload(m', m'.objects[t]) == Payload(m, m.objects[t])
    ensures RefsResolve(m')
  {
    hide Payload, Write, Edge, Sized;
    forall t: nat, w | Live(m', t) && w in Words(m', m'.objects[t])
      ensures Child(m', m'.objects[t], w).Null() || Resolves(m', Child(m', m'.objects[t], w))
    {
      assert w in Words(m, m.objects[t]);
    }
  }

  // ----- open batches -----

  function OpenCount(open: seq<bool>): nat {
    if open == [] then 0 else OpenCount(open[..|open| - 1]) + (if open[|open| - 1] then 1 else 0)
  }

  lemma {:induction false} OpenCountUpdate(open: seq<bool>, b: nat)
    requires b < |open| && open[b]
    ensures OpenCount(open) == OpenCount(open[b := false]) + 1
  {
    var n := |open| - 1;
    if b == n {
      assert open[b := false][..n] == open[..n];
    } else {
      assert open[b := false][..n] == open[..n][b := false];
      OpenCountUpdate(open[..n], b);
    }
  }

  lemma {:induction false} NoneOpen(open: seq<bool>)
    requires OpenCount(open) == 0
    ensures forall b | 0 <= b < |open| :: !open[b]
  {
    if open != [] {
      NoneOpen(open[..|open| - 1]);
    }
  }
}
