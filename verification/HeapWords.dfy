/**
  * Payload words of guest objects: which positions of a payload hold references, what reference they hold, and which
  * of them a card-restricted trace must visit. Offsets inside a payload and inside a page are `uint32` in the
  * runtime. They are natural numbers here; the additions that can wrap are written `% U32`.
  */
module HeapWords {
  import opened Prelude

  const U32: nat := 0x1_0000_0000
  const MAX_U32: nat := 0xFFFF_FFFF
  const CARD_BYTES: nat := 256

  /** A stable guest handle: directory slot and generation. */
  datatype Ref = Ref(slot: nat, generation: nat) {
    predicate Null() {
      slot == 0 && generation == 0
    }
    predicate Valid() {
      slot != 0 && generation != 0
    }
  }

  const NULL: Ref := Ref(0, 0)

  /** The traced offsets of one repeated element. */
  datatype Layout = Layout(stride: nat, references: seq<nat>, dynamics: seq<nat>)

  /** Offsets are ordered, `width` bytes apart, and stay inside `bound` bytes. */
  ghost predicate Spaced(offsets: seq<nat>, width: nat, bound: nat) {
    && (forall i | 0 <= i < |offsets| :: offsets[i] + width <= bound)
    && (forall i, j | 0 <= i < j < |offsets| :: offsets[i] + width <= offsets[j])
  }

  /** What `registerLayout` admits. */
  ghost predicate ValidLayout(l: Layout) {
    && 0 < l.stride < U32
    && Spaced(l.references, 8, l.stride)
    && Spaced(l.dynamics, 24, l.stride)
  }

  /**
    * One place of a payload that can hold a reference, relative to the payload: a plain 8-byte handle, or a 24-byte
    * dynamic value whose tag is at +4 and whose handle is at +8.
    */
  datatype Word = RefWord(at: nat) | DynWord(at: nat) {
    /** First byte whose change can change the reference held here. */
    function SpanStart(): nat {
      if RefWord? then at else at + 4
    }
    function SpanSize(): nat {
      if RefWord? then 8 else 12
    }
    function SpanEnd(): nat {
      SpanStart() + SpanSize()
    }
    function Handle(): nat {
      if RefWord? then at else at + 8
    }
  }

  function LittleEndian(data: seq<byte>, at: nat): nat
    requires at + 4 <= |data|
  {
    var b0: int, b1: int, b2: int, b3: int := data[at], data[at + 1], data[at + 2], data[at + 3];
    b0 + 0x100 * b1 + 0x1_0000 * b2 + 0x100_0000 * b3
  }

  function HandleAt(data: seq<byte>, at: nat): Ref
    requires at + 8 <= |data|
  {
    Ref(LittleEndian(data, at), LittleEndian(data, at + 4))
  }

  const TAG_REF: nat := 4
  const TAG_BOX: nat := 5

  /** The reference a word holds, `NULL` when it holds none. */
  function Edge(payload: seq<byte>, w: Word): Ref {
    if w.SpanEnd() > |payload| then NULL
    else if w.RefWord? then HandleAt(payload, w.at)
    else
      var tag := LittleEndian(payload, w.at + 4);
      if tag == TAG_REF || tag == TAG_BOX then HandleAt(payload, w.at + 8) else NULL
  }

  function RefWords(offsets: seq<nat>, base: nat): seq<Word> {
    seq(|offsets|, i requires 0 <= i < |offsets| => RefWord(base + offsets[i]))
  }

  function DynWords(offsets: seq<nat>, base: nat): seq<Word> {
    seq(|offsets|, i requires 0 <= i < |offsets| => DynWord(base + offsets[i]))
  }

  /** The words of the element that starts at `base`. */
  function ElementWords(l: Layout, base: nat): seq<Word> {
    RefWords(l.references, base) + DynWords(l.dynamics, base)
  }

  /** Where element number `element` starts in a payload. */
  function ElementBase(stride: nat, element: nat): nat {
    if element == 0 then 0 else ElementBase(stride, element - 1) + stride
  }

  /** The words of elements `first` to `last`, in the order a full scan meets them. */
  function WordsBetween(l: Layout, first: nat, last: nat): seq<Word>
    requires first <= last
    decreases last
  {
    if first == last then [] else WordsBetween(l, first, last - 1) + ElementWords(l, ElementBase(l.stride, last - 1))
  }

  function AllWords(l: Layout, count: nat): seq<Word> {
    WordsBetween(l, 0, count)
  }

  /** Half-open byte ranges meet; an empty one meets nothing. */
  predicate Overlap(start: nat, size: nat, rangeStart: nat, rangeEnd: nat) {
    size != 0 && rangeStart < rangeEnd && start < rangeEnd && rangeStart < start + size
  }

  predicate Touches(w: Word, offset: nat, rangeStart: nat, rangeEnd: nat) {
    Overlap(offset + w.SpanStart(), w.SpanSize(), rangeStart, rangeEnd)
  }

  /** The naive reference scan: every word, kept when its span meets the range. */
  function Touching(words: seq<Word>, offset: nat, rangeStart: nat, rangeEnd: nat): seq<Word> {
    if words == [] then []
    else
      var rest := Touching(words[..|words| - 1], offset, rangeStart, rangeEnd);
      var w := words[|words| - 1];
      if Touches(w, offset, rangeStart, rangeEnd) then rest + [w] else rest
  }

  lemma {:induction false} TouchingConcat(a: seq<Word>, b: seq<Word>, offset: nat, rs: nat, re: nat)
    ensures Touching(a + b, offset, rs, re) == Touching(a, offset, rs, re) + Touching(b, offset, rs, re)
  {
    if b == [] {
      assert a + b == a;
    } else {
      var n := |b| - 1;
      assert (a + b)[..|a + b| - 1] == a + b[..n];
      TouchingConcat(a, b[..n], offset, rs, re);
    }
  }

  lemma {:induction false} TouchingNone(words: seq<Word>, offset: nat, rs: nat, re: nat)
    requires forall i | 0 <= i < |words| :: !Touches(words[i], offset, rs, re)
    ensures Touching(words, offset, rs, re) == []
  {
    if words != [] {
      TouchingNone(words[..|words| - 1], offset, rs, re);
    }
  }

  lemma {:induction false} TouchingMember(words: seq<Word>, offset: nat, rs: nat, re: nat, w: Word)
    ensures w in Touching(words, offset, rs, re) <==> w in words && Touches(w, offset, rs, re)
  {
    if words != [] {
      var n := |words| - 1;
      TouchingMember(words[..n], offset, rs, re, w);
      assert words == words[..n] + [words[n]];
    }
  }

  lemma {:induction false} WordsSplit(l: Layout, first: nat, mid: nat, last: nat)
    requires first <= mid <= last
    ensures WordsBetween(l, first, last) == WordsBetween(l, first, mid) + WordsBetween(l, mid, last)
    decreases last
  {
    if mid < last {
      WordsSplit(l, first, mid, last - 1);
    }
  }

  /** A word of one element lies inside that element. */
  lemma WordInOneElement(l: Layout, base: nat, w: Word)
    requires ValidLayout(l)
    requires w in ElementWords(l, base)
    ensures base <= w.at && w.SpanEnd() <= base + l.stride
  {
    var words := ElementWords(l, base);
    var k :| 0 <= k < |words| && words[k] == w;
    if k < |l.references| {
      assert w == RefWord(base + l.references[k]);
    } else {
      assert w == DynWord(base + l.dynamics[k - |l.references|]);
    }
  }

  lemma {:induction false} ElementBaseIsProduct(stride: nat, element: nat)
    ensures ElementBase(stride, element) == element * stride
  {
    if element != 0 {
      ElementBaseIsProduct(stride, element - 1);
    }
  }

  lemma {:induction false} ElementBaseMonotone(stride: nat, a: nat, b: nat)
    requires a <= b
    ensures ElementBase(stride, a) <= ElementBase(stride, b)
    decreases b
  {
    if a < b {
      ElementBaseMonotone(stride, a, b - 1);
    }
  }

  /** Every word lies inside the elements that list it. */
  lemma {:induction false} WordInElements(l: Layout, first: nat, last: nat, w: Word)
    requires ValidLayout(l) && first <= last
    requires w in WordsBetween(l, first, last)
    ensures first < last
    ensures ElementBase(l.stride, first) <= w.at && w.SpanEnd() <= ElementBase(l.stride, last)
    decreases last
  {
    var e := last - 1;
    if w in ElementWords(l, ElementBase(l.stride, e)) {
      WordInOneElement(l, ElementBase(l.stride, e), w);
      ElementBaseMonotone(l.stride, first, e);
    } else {
      WordInElements(l, first, e, w);
    }
  }
}
