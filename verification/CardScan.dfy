/**
  * The card-restricted object scan shared by `traceObjectWithQueue` and `cardHasYoung`: element range, binary search
  * for the first offset, early exit. It is proved to visit exactly the words of the naive scan whose span meets the
  * card, in the same order, unless `managedElementRange` wraps; then it visits nothing.
  */
module CardScan {
  import opened HeapWords

  /** The range that means "the whole object". */
  predicate WholeObject(rangeEnd: nat) {
    rangeEnd == MAX_U32
  }

  /** `lastBytes + stride - 1` leaves 32 bits. */
  predicate RangeWraps(offset: nat, stride: nat, rangeEnd: nat) {
    !WholeObject(rangeEnd) && offset < rangeEnd && rangeEnd - offset + stride > U32
  }

  function Min(a: nat, b: nat): nat {
    if a <= b then a else b
  }

  /** Integer division, unfolded so that its bounds are element bases. */
  function Quotient(x: nat, k: nat): (q: nat)
    requires 0 < k
    ensures ElementBase(k, q) <= x < ElementBase(k, q) + k
  {
    if x < k then 0 else Quotient(x - k, k) + 1
  }

  /** `managedElementRange`, with its 32-bit addition. */
  function ElementRange(offset: nat, count: nat, stride: nat, rangeStart: nat, rangeEnd: nat): (r: (nat, nat))
    requires 0 < stride
    ensures r.0 <= count && r.1 <= count
  {
    if WholeObject(rangeEnd) then (0, count)
    else if rangeEnd <= offset then (0, 0)
    else
      var from := if rangeStart <= offset then offset else rangeStart;
      var first := Min(Quotient(from - offset, stride), count);
      var last := Min(Quotient((rangeEnd - offset + stride - 1) % U32, stride), count);
      (first, last)
  }

  /** A wrapped element range is empty. */
  lemma WrappedRangeIsEmpty(offset: nat, count: nat, stride: nat, rangeStart: nat, rangeEnd: nat)
    requires 0 < stride < U32 && rangeEnd < U32
    requires RangeWraps(offset, stride, rangeEnd)
    ensures ElementRange(offset, count, stride, rangeStart, rangeEnd).1 == 0
  {
    var sum := rangeEnd - offset + stride - 1;
    assert U32 <= sum < 2 * U32;
    var rest := sum % U32;
    assert rest == sum - U32 < stride;
  }

  /** Where the elements left out before `first` end and those from `last` on begin. */
  lemma RangeBounds(offset: nat, count: nat, stride: nat, rangeStart: nat, rangeEnd: nat)
    requires 0 < stride && rangeStart < rangeEnd < U32
    requires !WholeObject(rangeEnd) && offset < rangeEnd && !RangeWraps(offset, stride, rangeEnd)
    ensures var (first, last) := ElementRange(offset, count, stride, rangeStart, rangeEnd);
            && first <= last
            && (first == 0 || offset + ElementBase(stride, first) <= rangeStart)
            && (last == count || rangeEnd <= offset + ElementBase(stride, last))
  {
    var from := if rangeStart <= offset then offset else rangeStart;
    var x, y := from - offset, rangeEnd - offset + stride - 1;
    assert y % U32 == y;
    var qx, qy := Quotient(x, stride), Quotient(y, stride);
    if qy < qx {
      ElementBaseMonotone(stride, qy + 1, qx);
      assert false;
    }
    ElementBaseMonotone(stride, Min(qx, count), qx);
  }

  lemma WordsBeforeMiss(l: Layout, first: nat, offset: nat, rs: nat, re: nat)
    requires ValidLayout(l)
    requires first == 0 || offset + ElementBase(l.stride, first) <= rs
    ensures Touching(WordsBetween(l, 0, first), offset, rs, re) == []
  {
    var words := WordsBetween(l, 0, first);
    forall i | 0 <= i < |words|
      ensures !Touches(words[i], offset, rs, re)
    {
      WordInElements(l, 0, first, words[i]);
    }
    TouchingNone(words, offset, rs, re);
  }

  lemma WordsAfterMiss(l: Layout, last: nat, count: nat, offset: nat, rs: nat, re: nat)
    requires ValidLayout(l) && last <= count
    requires last == count || re <= offset + ElementBase(l.stride, last)
    ensures Touching(WordsBetween(l, last, count), offset, rs, re) == []
  {
    var words := WordsBetween(l, last, count);
    forall i | 0 <= i < |words|
      ensures !Touches(words[i], offset, rs, re)
    {
      WordInElements(l, last, count, words[i]);
    }
    TouchingNone(words, offset, rs, re);
  }

  /** Without wrap-around the element range loses no touching word. */
  lemma RangeCovers(l: Layout, offset: nat, count: nat, rs: nat, re: nat)
    requires ValidLayout(l) && rs < re < U32
    requires !RangeWraps(offset, l.stride, re)
    ensures var (first, last) := ElementRange(offset, count, l.stride, rs, re);
            && first <= last
            && Touching(AllWords(l, count), offset, rs, re) == Touching(WordsBetween(l, first, last), offset, rs, re)
  {
    var (first, last) := ElementRange(offset, count, l.stride, rs, re);
    if !WholeObject(re) {
      if re <= offset {
        WordsAfterMiss(l, 0, count, offset, rs, re);
      } else {
        RangeBounds(offset, count, l.stride, rs, re);
        WordsSplit(l, 0, first, count);
        WordsSplit(l, first, last, count);
        TouchingConcat(WordsBetween(l, 0, first), WordsBetween(l, first, count), offset, rs, re);
        TouchingConcat(WordsBetween(l, first, last), WordsBetween(l, last, count), offset, rs, re);
        WordsBeforeMiss(l, first, offset, rs, re);
        WordsAfterMiss(l, last, count, offset, rs, re);
      }
    }
  }

  /** `slices.BinarySearch`: the first index whose offset is at least `target`. */
  method LowerBound(offsets: seq<nat>, target: nat) returns (k: nat)
    requires forall i, j | 0 <= i < j < |offsets| :: offsets[i] <= offsets[j]
    ensures k <= |offsets|
    ensures forall i | 0 <= i < k :: offsets[i] < target
    ensures forall i | k <= i < |offsets| :: target <= offsets[i]
  {
    var hi := |offsets|;
    k := 0;
    while k < hi
      invariant 0 <= k <= hi <= |offsets|
      invariant forall i | 0 <= i < k :: offsets[i] < target
      invariant forall i | hi <= i < |offsets| :: target <= offsets[i]
    {
      var mid := (k + hi) / 2;
      if offsets[mid] < target {
        k := mid + 1;
      } else {
        hi := mid;
      }
    }
  }

  lemma TouchingPrefix(words: seq<Word>, k: nat, offset: nat, rs: nat, re: nat)
    requires k < |words|
    ensures Touching(words[..k + 1], offset, rs, re) ==
            if Touches(words[k], offset, rs, re) then Touching(words[..k], offset, rs, re) + [words[k]]
            else Touching(words[..k], offset, rs, re)
  {
    assert words[..k + 1][..k] == words[..k];
  }

  lemma TouchingRestMiss(words: seq<Word>, k: nat, offset: nat, rs: nat, re: nat)
    requires k <= |words|
    requires forall i | k <= i < |words| :: !Touches(words[i], offset, rs, re)
    ensures Touching(words, offset, rs, re) == Touching(words[..k], offset, rs, re)
  {
    assert words == words[..k] + words[k..];
    TouchingConcat(words[..k], words[k..], offset, rs, re);
    TouchingNone(words[k..], offset, rs, re);
  }

  /** The plain references of one element; `base` is where it starts in the payload. */
  method ScanReferences(references: seq<nat>, stride: nat, base: nat, offset: nat, rs: nat, re: nat)
    returns (words: seq<Word>)
    requires Spaced(references, 8, stride) && rs < re
    ensures words == Touching(RefWords(references, base), offset, rs, re)
  {
    hide Touching;
    ghost var all := RefWords(references, base);
    var target := if rs < offset + base + 7 then 0 else rs - offset - base - 7;
    var k := LowerBound(references, target);
    words := [];
    TouchingNone(all[..k], offset, rs, re);
    while k < |references|
      invariant k <= |references|
      invariant words == Touching(all[..k], offset, rs, re)
    {
      var at := references[k];
      if at + 8 > stride || !Overlap(offset + base + at, 8, rs, re) {
        if !WholeObject(re) && offset + base + at >= re {
          TouchingRestMiss(all, k, offset, rs, re);
          return;
        }
      } else {
        words := words + [RefWord(base + at)];
      }
      TouchingPrefix(all, k, offset, rs, re);
      k := k + 1;
    }
    assert all[..k] == all;
  }

  /** The dynamic values of one element. */
  method ScanDynamics(dynamics: seq<nat>, stride: nat, base: nat, offset: nat, rs: nat, re: nat)
    returns (words: seq<Word>)
    requires Spaced(dynamics, 24, stride) && rs < re
    requires WholeObject(re) ==> offset + base + stride <= MAX_U32
    ensures words == Touching(DynWords(dynamics, base), offset, rs, re)
  {
    hide Touching;
    ghost var all := DynWords(dynamics, base);
    var target := if rs < offset + base + 15 then 0 else rs - offset - base - 15;
    var k := LowerBound(dynamics, target);
    words := [];
    TouchingNone(all[..k], offset, rs, re);
    while k < |dynamics|
      invariant k <= |dynamics|
      invariant words == Touching(all[..k], offset, rs, re)
    {
      var at := dynamics[k];
      if at >= stride || (!WholeObject(re) && offset + base + at >= re) {
        if !WholeObject(re) && offset + base + at >= re {
          TouchingRestMiss(all, k, offset, rs, re);
          return;
        }
      } else if at + 24 <= stride && Overlap(offset + base + at + 4, 12, rs, re) {
        words := words + [DynWord(base + at)];
      }
      TouchingPrefix(all, k, offset, rs, re);
      k := k + 1;
    }
    assert all[..k] == all;
  }

  /** What the scan of one object visits. */
  function Scanned(l: Layout, offset: nat, count: nat, rs: nat, re: nat): seq<Word> {
    if RangeWraps(offset, l.stride, re) then [] else Touching(AllWords(l, count), offset, rs, re)
  }

  /** Both offset lists of the element at `base`. */
  method ScanElement(l: Layout, base: nat, offset: nat, rs: nat, re: nat) returns (words: seq<Word>)
    requires ValidLayout(l) && rs < re
    requires offset + base + l.stride < U32
    ensures words == Touching(ElementWords(l, base), offset, rs, re)
  {
    var references := ScanReferences(l.references, l.stride, base, offset, rs, re);
    var dynamics := ScanDynamics(l.dynamics, l.stride, base, offset, rs, re);
    words := references + dynamics;
    TouchingConcat(RefWords(l.references, base), DynWords(l.dynamics, base), offset, rs, re);
  }

  /** The element range, and that scanning it is scanning the object. */
  method ElementBounds(l: Layout, offset: nat, count: nat, rs: nat, re: nat) returns (first: nat, last: nat)
    requires ValidLayout(l) && rs < re < U32
    ensures last <= count
    ensures first < last ==> Scanned(l, offset, count, rs, re) == Touching(WordsBetween(l, first, last), offset, rs, re)
    ensures last <= first ==> Scanned(l, offset, count, rs, re) == []
  {
    var r := ElementRange(offset, count, l.stride, rs, re);
    first, last := r.0, r.1;
    if RangeWraps(offset, l.stride, re) {
      WrappedRangeIsEmpty(offset, count, l.stride, rs, re);
    } else {
      RangeCovers(l, offset, count, rs, re);
    }
  }

  /** One more element scanned. */
  lemma ScanStep(l: Layout, first: nat, element: nat, offset: nat, rs: nat, re: nat)
    requires first <= element
    ensures Touching(WordsBetween(l, first, element + 1), offset, rs, re) ==
            Touching(WordsBetween(l, first, element), offset, rs, re) +
            Touching(ElementWords(l, ElementBase(l.stride, element)), offset, rs, re)
  {
    TouchingConcat(WordsBetween(l, first, element), ElementWords(l, ElementBase(l.stride, element)), offset, rs, re);
  }

  method ScanObject(l: Layout, offset: nat, count: nat, rs: nat, re: nat) returns (words: seq<Word>)
    requires ValidLayout(l) && rs < re < U32
    requires offset + ElementBase(l.stride, count) < U32
    ensures words == Scanned(l, offset, count, rs, re)
  {
    hide Touching, ElementWords, Scanned, ValidLayout;
    var first, last := ElementBounds(l, offset, count, rs, re);
    words := [];
    TouchingNone([], offset, rs, re);
    var element := first;
    while element < last
      invariant element == first || first <= element <= last
      invariant words == Touching(WordsBetween(l, first, element), offset, rs, re)
    {
      var base := ElementBase(l.stride, element);
      ElementBaseMonotone(l.stride, element + 1, count);
      var more := ScanElement(l, base, offset, rs, re);
      ScanStep(l, first, element, offset, rs, re);
      words := words + more;
      element := element + 1;
    }
  }

  /** A scan over the whole object meets every word. */
  lemma {:induction false} WholeObjectTouchesAll(l: Layout, offset: nat, count: nat)
    requires ValidLayout(l) && offset + ElementBase(l.stride, count) < U32
    ensures Scanned(l, offset, count, 0, MAX_U32) == AllWords(l, count)
  {
    var words := AllWords(l, count);
    forall i | 0 <= i < |words|
      ensures Touches(words[i], offset, 0, MAX_U32)
    {
      WordInElements(l, 0, count, words[i]);
    }
    TouchingEvery(words, offset, 0, MAX_U32);
  }

  lemma {:induction false} TouchingEvery(words: seq<Word>, offset: nat, rs: nat, re: nat)
    requires forall i | 0 <= i < |words| :: Touches(words[i], offset, rs, re)
    ensures Touching(words, offset, rs, re) == words
  {
    if words != [] {
      TouchingEvery(words[..|words| - 1], offset, rs, re);
    }
  }

  /** An object of one 3 GiB element whose reference at 2 GiB is in no scanned card. */
  lemma WideElementIsMissed()
    ensures var l := Layout(0xC000_0000, [0x8000_0000], []);
            && ValidLayout(l)
            && RefWord(0x8000_0000) in Touching(AllWords(l, 1), 0, 0x8000_0000, 0x8000_0100)
            && Scanned(l, 0, 1, 0x8000_0000, 0x8000_0100) == []
  {
    var l := Layout(0xC000_0000, [0x8000_0000], []);
    assert ElementBase(l.stride, 0) == 0;
    assert WordsBetween(l, 0, 0) == [];
    assert AllWords(l, 1) == [RefWord(0x8000_0000)];
    TouchingMember(AllWords(l, 1), 0, 0x8000_0000, 0x8000_0100, RefWord(0x8000_0000));
  }
}
