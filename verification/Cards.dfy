/** Dirty cards, the card log, and the remembered set they represent. */
module Cards {
  import opened Prelude
  import opened HeapWords
  import opened CardScan
  import opened HeapModel

  function CardCount(length: nat): nat {
    (length + CARD_BYTES - 1) / CARD_BYTES
  }

  predicate IsCard(pages: seq<Page>, c: Card) {
    c.page < |pages| && c.index < |pages[c.page].cards|
  }

  predicate Flagged(pages: seq<Page>, c: Card) {
    IsCard(pages, c) && pages[c.page].cards[c.index]
  }

  /** Each flagged card is logged exactly once, and no other card is. */
  ghost predicate LogExact(pages: seq<Page>, log: seq<Card>) {
    && Distinct(log)
    && (forall c :: c in log <==> Flagged(pages, c))
  }

  /** A log position that was admitted with the page, whether or not the page has been reclaimed since. */
  predicate Admitted(pages: seq<Page>, c: Card) {
    c.page < |pages| && c.index < pages[c.page].cardCapacity
  }

  /**
    * What holds of the log at any time: flagged cards are logged once, and what else is logged was admitted with a
    * page that a major collection has just reclaimed. Between collections the log is `strict`: there is nothing else.
    */
  ghost predicate LogOk(pages: seq<Page>, log: seq<Card>, capacity: nat, strict: bool) {
    && Distinct(log) && TotalCards(pages) <= capacity
    && (forall p: nat | p < |pages| ::
      |pages[p].cards| <= pages[p].cardCapacity && (pages[p].kind.FreePage? ==> pages[p].cards == []))
    && (forall c | Flagged(pages, c) :: c in log)
    && (forall c | c in log :: Admitted(pages, c) && (Flagged(pages, c) || (!strict && pages[c.page].kind.FreePage?)))
  }

  lemma StrictIsExact(pages: seq<Page>, log: seq<Card>, capacity: nat)
    requires LogOk(pages, log, capacity, true)
    ensures LogExact(pages, log)
  {
  }

  lemma LooseLog(pages: seq<Page>, log: seq<Card>, capacity: nat)
    requires LogOk(pages, log, capacity, true)
    ensures LogOk(pages, log, capacity, false)
  {
  }

  predicate CardTouches(index: nat, start: nat, size: nat) {
    Overlap(start, size, CARD_BYTES * index, CARD_BYTES * index + CARD_BYTES)
  }

  /** Some dirty card of the page meets the bytes. */
  ghost predicate Covered(cards: seq<bool>, start: nat, size: nat) {
    exists i :: 0 <= i < |cards| && cards[i] && CardTouches(i, start, size)
  }

  predicate PointsYoung(m: Store, o: Object, w: Word)
    requires Placed(m, o)
  {
    var r := Child(m, o, w);
    Live(m, r.slot) && m.objects[r.slot].young
  }

  /** Every reference from this old entry to a young one meets a dirty card. */
  ghost predicate Remembers(m: Store, o: Object)
    requires Placed(m, o)
  {
    forall w | w in Words(m, o) && PointsYoung(m, o, w) ::
      Covered(m.pages[o.page].cards, o.offset + w.SpanStart(), w.SpanSize())
  }

  /** The remembered-set invariant. */
  ghost predicate Remembered(m: Store)
    requires AllPlaced(m)
  {
    forall s: nat | Live(m, s) && !m.objects[s].young :: Remembers(m, m.objects[s])
  }

  // ----- the log fits -----

  function TotalCards(pages: seq<Page>): nat {
    if pages == [] then 0 else TotalCards(pages[..|pages| - 1]) + pages[|pages| - 1].cardCapacity
  }

  function PageCards(page: nat, count: nat): set<Card> {
    set i: nat | i < count :: Card(page, i)
  }

  lemma {:induction false} PageCardsSize(page: nat, count: nat)
    ensures |PageCards(page, count)| == count
  {
    if count > 0 {
      PageCardsSize(page, count - 1);
      assert PageCards(page, count) == PageCards(page, count - 1) + {Card(page, count - 1)};
    }
  }

  lemma {:induction false} CardsBound(pages: seq<Page>, cs: set<Card>)
    requires forall c | c in cs :: Admitted(pages, c)
    ensures |cs| <= TotalCards(pages)
  {
    if pages == [] {
      assert cs == {};
    } else {
      var n := |pages| - 1;
      var top := PageCards(n, pages[n].cardCapacity);
      var here := set c | c in cs && c.page == n;
      forall c | c in cs - here
        ensures Admitted(pages[..n], c)
      {
      }
      CardsBound(pages[..n], cs - here);
      PageCardsSize(n, pages[n].cardCapacity);
      assert here <= top by {
        forall c | c in here ensures c in top {
          assert c == Card(n, c.index);
        }
      }
      SubsetSize(here, top);
      assert cs == (cs - here) + here;
    }
  }

  /** A card that is not yet flagged still fits the admitted log. */
  lemma LogHasRoom(pages: seq<Page>, log: seq<Card>, capacity: nat, strict: bool, c: Card)
    requires LogOk(pages, log, capacity, strict) && IsCard(pages, c) && !Flagged(pages, c)
    ensures c !in log && |log| < capacity
  {
    var all := log + [c];
    assert Distinct(all);
    DistinctSize(all);
    CardsBound(pages, Elements(all));
  }

  lemma {:induction false} TotalCardsSame(a: seq<Page>, b: seq<Page>)
    requires |a| == |b| && forall i | 0 <= i < |a| :: a[i].cardCapacity == b[i].cardCapacity
    ensures TotalCards(a) == TotalCards(b)
  {
    if a != [] {
      TotalCardsSame(a[..|a| - 1], b[..|b| - 1]);
    }
  }

  // ----- setting one flag -----

  function SetFlag(pages: seq<Page>, c: Card, value: bool): seq<Page>
    requires IsCard(pages, c)
  {
    pages[c.page := pages[c.page].(cards := pages[c.page].cards[c.index := value])]
  }

  lemma FlagSet(pages: seq<Page>, log: seq<Card>, capacity: nat, strict: bool, c: Card)
    requires LogOk(pages, log, capacity, strict) && IsCard(pages, c) && !Flagged(pages, c)
    ensures LogOk(SetFlag(pages, c, true), log + [c], capacity, strict)
  {
    LogHasRoom(pages, log, capacity, strict, c);
    var after := SetFlag(pages, c, true);
    TotalCardsSame(pages, after);
    forall d | Flagged(after, d)
      ensures d in log + [c]
    {
      if d != c {
        assert Flagged(pages, d);
      }
    }
    forall d | d in log
      ensures Admitted(after, d) && (Flagged(after, d) || (!strict && after[d.page].kind.FreePage?))
    {
      if Flagged(pages, d) {
        assert Flagged(after, d);
      }
    }
  }

  /** Pages that differ only in card flags. */
  ghost predicate FlagsOnly(before: seq<Page>, after: seq<Page>) {
    && |before| == |after|
    && (forall p: nat | p < |before| ::
          after[p] == before[p].(cards := after[p].cards) && |after[p].cards| == |before[p].cards|)
  }

  ghost predicate FlagsRaised(before: seq<Page>, after: seq<Page>) {
    && FlagsOnly(before, after)
    && (forall c | Flagged(before, c) :: Flagged(after, c))
  }

  lemma CoveredStays(before: seq<Page>, after: seq<Page>, page: nat, start: nat, size: nat)
    requires FlagsRaised(before, after) && page < |before|
    requires Covered(before[page].cards, start, size)
    ensures Covered(after[page].cards, start, size)
  {
    var i :| 0 <= i < |before[page].cards| && before[page].cards[i] && CardTouches(i, start, size);
    assert Flagged(before, Card(page, i));
    assert Flagged(after, Card(page, i));
  }

  lemma CoveredWider(cards: seq<bool>, start: nat, size: nat, start': nat, size': nat)
    requires Covered(cards, start, size) && start' <= start && start + size <= start' + size'
    ensures Covered(cards, start', size')
  {
    var i :| 0 <= i < |cards| && cards[i] && CardTouches(i, start, size);
    assert CardTouches(i, start', size');
  }

  /** Card flags are no part of the graph. */
  lemma FlagsKeepEntry(m: Store, m': Store, o: Object)
    requires m' == m.(pages := m'.pages) && FlagsOnly(m.pages, m'.pages) && Placed(m, o)
    ensures Placed(m', o) && Payload(m', o) == Payload(m, o) && Words(m', o) == Words(m, o)
    ensures Sized(m, o) ==> Sized(m', o)
    ensures forall s: nat :: Homed(m, s, o) ==> Homed(m', s, o)
  {
  }

  lemma FlagsKeepPlaced(m: Store, m': Store)
    requires m' == m.(pages := m'.pages) && FlagsOnly(m.pages, m'.pages) && AllPlaced(m)
    ensures AllPlaced(m')
  {
    forall s: nat | Live(m', s)
      ensures Placed(m', m'.objects[s]) && Sized(m', m'.objects[s])
    {
      assert Live(m, s);
      FlagsKeepEntry(m, m', m.objects[s]);
    }
  }

  lemma RaisedKeepsRemembers(m: Store, m': Store, o: Object)
    requires m' == m.(pages := m'.pages) && FlagsRaised(m.pages, m'.pages)
    requires Placed(m, o) && Remembers(m, o)
    ensures Placed(m', o) && Remembers(m', o)
  {
    FlagsKeepEntry(m, m', o);
    forall w | w in Words(m', o) && PointsYoung(m', o, w)
      ensures Covered(m'.pages[o.page].cards, o.offset + w.SpanStart(), w.SpanSize())
    {
      assert PointsYoung(m, o, w);
      CoveredStays(m.pages, m'.pages, o.page, o.offset + w.SpanStart(), w.SpanSize());
    }
  }

  lemma RaisedTransitive(a: seq<Page>, b: seq<Page>, c: seq<Page>)
    requires FlagsRaised(a, b) && FlagsRaised(b, c)
    ensures FlagsRaised(a, c)
  {
  }

  lemma SetFlagRaises(pages: seq<Page>, c: Card)
    requires IsCard(pages, c)
    ensures FlagsRaised(pages, SetFlag(pages, c, true))
  {
  }

  // ----- from a logged card to the words it stands for -----

  /** Byte window of a card; the end is a 32-bit sum cut to the page. */
  function WindowStart(index: nat): nat {
    CARD_BYTES * index
  }

  function WindowEnd(index: nat, length: nat): nat {
    var end := (CARD_BYTES * index + CARD_BYTES) % U32;
    if end > length then length else end
  }

  predicate WindowWraps(index: nat) {
    CARD_BYTES * index + CARD_BYTES >= U32
  }

  lemma WindowEmptyIffWraps(index: nat, length: nat)
    requires length < U32 && index < CardCount(length)
    ensures WindowEnd(index, length) <= WindowStart(index) <==> WindowWraps(index)
    ensures WindowEnd(index, length) < MAX_U32 || length == MAX_U32
  {
  }

  /** `managedCardEntryRange`. */
  function EntryRange(page: Page, start: nat, end: nat): (r: (nat, nat))
    ensures r.1 <= |page.entries|
  {
    if start >= end || |page.entries| == 0 then (0, 0)
    else if page.kind.LargePage? then (if start >= page.used then (0, 0) else (0, 1))
    else if !page.kind.OldPage? || page.cell == 0 then (0, 0)
    else (Min(Quotient(start, page.cell), |page.entries|),
      Min(Quotient(end + page.cell - 1, page.cell), |page.entries|))
  }

  /** Where an old entry is recorded: its cell of an old page, or the one entry of a large page. */
  ghost predicate Homed(m: Store, s: nat, o: Object)
    requires Placed(m, o)
  {
    var p := m.pages[o.page];
    && |p.cards| == CardCount(|p.data|)
    && if p.kind.LargePage? then |p.entries| == 1 && p.entries[0] == s && o.offset == 0 && p.used == o.size
       else p.kind.OldPage? && InCell(p, o) && p.entries[CellOf(p, o)] == s
  }

  function CellOf(p: Page, o: Object): nat
    requires 0 < p.cell
  {
    Quotient(o.offset, p.cell)
  }

  ghost predicate InCell(p: Page, o: Object) {
    && 0 < p.cell
    && CellOf(p, o) < |p.entries|
    && ElementBase(p.cell, CellOf(p, o)) == o.offset
    && o.size <= p.cell
  }

  /** An old entry that meets the window is inside the range of entries the collector looks at. */
  lemma EntryInRange(m: Store, s: nat, o: Object, start: nat, end: nat) returns (k: nat)
    requires Placed(m, o) && Homed(m, s, o) && Overlap(o.offset, o.size, start, end)
    ensures var r := EntryRange(m.pages[o.page], start, end);
            r.0 <= k < r.1 && m.pages[o.page].entries[k] == s
  {
    var p := m.pages[o.page];
    if p.kind.LargePage? {
      k := 0;
    } else {
      k := CellOf(p, o);
      var first, last := Quotient(start, p.cell), Quotient(end + p.cell - 1, p.cell);
      if k < first {
        ElementBaseMonotone(p.cell, k + 1, first);
      }
      if last <= k {
        ElementBaseMonotone(p.cell, last, k);
      }
    }
  }

  /** What the collector visits of an entry when it traces a card of the entry's page. */
  function CardWords(m: Store, o: Object, index: nat): seq<Word>
    requires Placed(m, o)
  {
    var start, end := WindowStart(index), WindowEnd(index, |m.pages[o.page].data|);
    if start < end && Overlap(o.offset, o.size, start, end)
    then Scanned(m.layouts[o.layout], o.offset, o.count, start, end)
    else []
  }

  /** The 32-bit arithmetic of tracing this card loses the entry. */
  predicate CardArithmeticWraps(m: Store, o: Object, index: nat)
    requires Placed(m, o)
  {
    || WindowWraps(index)
    || RangeWraps(o.offset, m.layouts[o.layout].stride, WindowEnd(index, |m.pages[o.page].data|))
  }

  function WordsInCard(m: Store, o: Object, index: nat): seq<Word>
    requires Placed(m, o)
  {
    Touching(Words(m, o), o.offset, WindowStart(index), WindowStart(index) + CARD_BYTES)
  }

  /** Words end inside the page, so cutting the window there loses none. */
  lemma {:induction false} TouchingCut(words: seq<Word>, offset: nat, start: nat, end: nat, cut: nat)
    requires start < cut <= end
    requires cut == end || forall i | 0 <= i < |words| :: offset + words[i].SpanEnd() <= cut
    ensures Touching(words, offset, start, cut) == Touching(words, offset, start, end)
  {
    if words != [] {
      TouchingCut(words[..|words| - 1], offset, start, end, cut);
    }
  }

  lemma WordsInPayload(m: Store, o: Object)
    requires Placed(m, o) && Sized(m, o)
    ensures forall i | 0 <= i < |Words(m, o)| :: Words(m, o)[i].SpanEnd() <= o.size
  {
    var l := m.layouts[o.layout];
    forall i | 0 <= i < |Words(m, o)|
      ensures Words(m, o)[i].SpanEnd() <= o.size
    {
      WordInElements(l, 0, o.count, Words(m, o)[i]);
    }
  }

  /** An entry that does not meet the window has no word in it. */
  lemma NoWordsOutside(m: Store, o: Object, start: nat, end: nat)
    requires Placed(m, o) && Sized(m, o) && !Overlap(o.offset, o.size, start, end)
    ensures Touching(Words(m, o), o.offset, start, end) == []
  {
    WordsInPayload(m, o);
    TouchingNone(Words(m, o), o.offset, start, end);
  }

  lemma CardWordsWrapped(m: Store, o: Object, index: nat)
    requires Placed(m, o) && Sized(m, o)
    requires index < CardCount(|m.pages[o.page].data|)
    requires CardArithmeticWraps(m, o, index)
    ensures CardWords(m, o, index) == []
  {
    WindowEmptyIffWraps(index, |m.pages[o.page].data|);
  }

  lemma CardWordsExact(m: Store, o: Object, index: nat)
    requires Placed(m, o) && Sized(m, o)
    requires index < CardCount(|m.pages[o.page].data|)
    requires !CardArithmeticWraps(m, o, index)
    ensures CardWords(m, o, index) == WordsInCard(m, o, index)
  {
    var length := |m.pages[o.page].data|;
    var start, end := WindowStart(index), WindowEnd(index, length);
    WindowEmptyIffWraps(index, length);
    WordsInPayload(m, o);
    TouchingCut(Words(m, o), o.offset, start, start + CARD_BYTES, end);
    if !Overlap(o.offset, o.size, start, end) {
      NoWordsOutside(m, o, start, end);
    }
  }

  /**
    * Tracing a card visits exactly the words of the entry that meet it, if and only if its 32-bit arithmetic does not
    * wrap or the card holds no word of the entry.
    */
  lemma CardTraceExactIff(m: Store, o: Object, index: nat)
    requires Placed(m, o) && Sized(m, o)
    requires index < CardCount(|m.pages[o.page].data|)
    ensures CardWords(m, o, index) == WordsInCard(m, o, index) <==>
            !CardArithmeticWraps(m, o, index) || WordsInCard(m, o, index) == []
  {
    if CardArithmeticWraps(m, o, index) {
      CardWordsWrapped(m, o, index);
    } else {
      CardWordsExact(m, o, index);
    }
  }

  /** No old entry has a word in a card that tracing would lose. */
  ghost predicate CardsAddressable(m: Store)
    requires AllPlaced(m)
  {
    forall s: nat, index: nat | Live(m, s) && !m.objects[s].young
      && index < CardCount(|m.pages[m.objects[s].page].data|) ::
      CardArithmeticWraps(m, m.objects[s], index) ==> WordsInCard(m, m.objects[s], index) == []
  }

  // ----- marking the cards of an old entry -----

  predicate YoungRef(m: Store, r: Ref) {
    Live(m, r.slot) && m.objects[r.slot].young
  }

  /** The first `k` words that refer to young entries meet dirty cards. */
  ghost predicate WordsCovered(m: Store, o: Object, words: seq<Word>, refs: seq<Ref>, k: nat)
    requires o.page < |m.pages| && k <= |words| == |refs|
  {
    forall i | 0 <= i < k && YoungRef(m, refs[i]) ::
      Covered(m.pages[o.page].cards, o.offset + words[i].SpanStart(), words[i].SpanSize())
  }

  lemma WordsCoveredStay(m: Store, m': Store, o: Object, words: seq<Word>, refs: seq<Ref>, k: nat)
    requires m' == m.(pages := m'.pages) && FlagsRaised(m.pages, m'.pages)
    requires o.page < |m.pages| && k <= |words| == |refs|
    requires WordsCovered(m, o, words, refs, k)
    ensures WordsCovered(m', o, words, refs, k)
  {
    forall i | 0 <= i < k && YoungRef(m', refs[i])
      ensures Covered(m'.pages[o.page].cards, o.offset + words[i].SpanStart(), words[i].SpanSize())
    {
      assert YoungRef(m, refs[i]);
      CoveredStays(m.pages, m'.pages, o.page, o.offset + words[i].SpanStart(), words[i].SpanSize());
    }
  }

  lemma RemembersWhenCovered(m: Store, o: Object)
    requires Placed(m, o)
    requires WordsCovered(m, o, Words(m, o), Children(m, o, Words(m, o)), |Words(m, o)|)
    ensures Remembers(m, o)
  {
    var words := Words(m, o);
    forall w | w in words && PointsYoung(m, o, w)
      ensures Covered(m.pages[o.page].cards, o.offset + w.SpanStart(), w.SpanSize())
    {
      var i :| 0 <= i < |words| && words[i] == w;
      assert Children(m, o, words)[i] == Child(m, o, w);
    }
  }

  lemma ChildrenResolve(m: Store, s: nat)
    requires Live(m, s) && Placed(m, m.objects[s]) && RefsOf(m, s)
    ensures var refs := Children(m, m.objects[s], Words(m, m.objects[s]));
            forall i | 0 <= i < |refs| :: refs[i].Null() || Resolves(m, refs[i])
  {
    var o := m.objects[s];
    var words := Words(m, o);
    forall i | 0 <= i < |words|
      ensures Children(m, o, words)[i] == Child(m, o, words[i])
    {
    }
  }

  lemma LogSameCards(a: seq<Page>, b: seq<Page>, log: seq<Card>, capacity: nat, strict: bool)
    requires LogOk(a, log, capacity, strict)
    requires |a| == |b| && forall p: nat | p < |a| ::
               b[p].cards == a[p].cards && b[p].cardCapacity == a[p].cardCapacity
                 && (b[p].kind.FreePage? <==> a[p].kind.FreePage?)
    ensures LogOk(b, log, capacity, strict)
  {
    TotalCardsSame(a, b);
    forall c
      ensures Flagged(a, c) <==> Flagged(b, c)
    {
    }
  }
}
