/**
  * References as bytes: what a payload must hold, and where, for its owner to refer to another entry, and what a
  * collection does to an entry whose handle is held that way.
  */
module HeldHandles {
  import opened Prelude
  import opened HeapWords
  import opened HeapModel
  import opened Evacuation
  import opened Collection

  // ----- bytes -----

  /** The four bytes of a number, the lowest first. */
  function Bytes32(n: nat): seq<byte>
    requires n < U32
  {
    [n % 0x100, n / 0x100 % 0x100, n / 0x100 / 0x100 % 0x100, n / 0x100 / 0x100 / 0x100]
  }

  function HandleBytes(r: Ref): seq<byte>
    requires r.slot < U32 && r.generation < U32
  {
    Bytes32(r.slot) + Bytes32(r.generation)
  }

  /** The payload holds these bytes from `at` on. */
  predicate At(payload: seq<byte>, at: nat, bytes: seq<byte>) {
    at + |bytes| <= |payload| && payload[at..at + |bytes|] == bytes
  }

  /** The tag of the dynamic value at `at` says that it holds a reference or a boxed value. */
  predicate Tagged(payload: seq<byte>, at: nat) {
    At(payload, at + 4, [4, 0, 0, 0]) || At(payload, at + 4, [5, 0, 0, 0])
  }

  lemma LowestDigit(d: int, q: int, n: nat)
    requires 0 <= d < 0x100
    ensures d + 0x100 * q == n <==> d == n % 0x100 && q == n / 0x100
  {
  }

  lemma DecodesTo(data: seq<byte>, at: nat, n: nat)
    requires at + 4 <= |data| && n < U32
    ensures LittleEndian(data, at) == n <==> At(data, at, Bytes32(n))
  {
    var b0: int, b1: int, b2: int, b3: int := data[at], data[at + 1], data[at + 2], data[at + 3];
    assert data[at..at + 4] == [data[at], data[at + 1], data[at + 2], data[at + 3]];
    LowestDigit(b0, b1 + 0x100 * (b2 + 0x100 * b3), n);
    LowestDigit(b1, b2 + 0x100 * b3, n / 0x100);
    LowestDigit(b2, b3, n / 0x100 / 0x100);
  }

  lemma HandleDecodes(data: seq<byte>, at: nat, r: Ref)
    requires at + 8 <= |data| && r.slot < U32 && r.generation < U32
    ensures HandleAt(data, at) == r <==> At(data, at, HandleBytes(r))
  {
    DecodesTo(data, at, r.slot);
    DecodesTo(data, at + 4, r.generation);
    var a, b := Bytes32(r.slot), Bytes32(r.generation);
    assert |a| == |b| == 4;
    hide LittleEndian, Bytes32;
    assert data[at..at + 8] == data[at..at + 4] + data[at + 4..at + 8];
    assert (a + b)[..4] == a && (a + b)[4..] == b;
  }

  /** A plain word holds the handle whose bytes stand there. */
  lemma PlainEdge(payload: seq<byte>, at: nat, r: Ref)
    requires at + 8 <= |payload| && r.slot < U32 && r.generation < U32
    ensures Edge(payload, RefWord(at)) == r <==> At(payload, at, HandleBytes(r))
  {
    HandleDecodes(payload, at, r);
  }

  /**
    * A dynamic value tagged as a reference or as a boxed value holds the handle whose bytes stand eight bytes on; any
    * other holds nothing.
    */
  lemma DynamicEdge(payload: seq<byte>, at: nat, r: Ref)
    requires at + 16 <= |payload| && r.slot < U32 && r.generation < U32
    ensures Tagged(payload, at) ==> (Edge(payload, DynWord(at)) == r <==> At(payload, at + 8, HandleBytes(r)))
    ensures !Tagged(payload, at) ==> Edge(payload, DynWord(at)) == NULL
  {
    DecodesTo(payload, at + 4, 4);
    DecodesTo(payload, at + 4, 5);
    HandleDecodes(payload, at + 8, r);
    assert Bytes32(4) == [4, 0, 0, 0] && Bytes32(5) == [5, 0, 0, 0];
  }

  // ----- places -----

  /** Traced place number `k` of an element is this word: its references first, then its dynamic values. */
  predicate PlaceIs(l: Layout, element: nat, k: nat, w: Word) {
    if k < |l.references| then w == RefWord(element * l.stride + l.references[k])
    else k < |l.references| + |l.dynamics| && w == DynWord(element * l.stride + l.dynamics[k - |l.references|])
  }

  lemma ElementWordIs(l: Layout, element: nat, w: Word)
    ensures w in ElementWords(l, ElementBase(l.stride, element)) <==> exists k: nat :: PlaceIs(l, element, k, w)
  {
    ElementBaseIsProduct(l.stride, element);
    var words := ElementWords(l, ElementBase(l.stride, element));
    if w in words {
      var k: nat :| k < |words| && words[k] == w;
      assert PlaceIs(l, element, k, w);
    }
    if k: nat :| PlaceIs(l, element, k, w) {
      assert words[k] == w;
    }
  }

  /** The words of a payload are the traced places of its elements. */
  lemma {:induction false} WordIsPlace(l: Layout, count: nat, w: Word)
    ensures w in AllWords(l, count) <==> exists element: nat, k: nat :: element < count && PlaceIs(l, element, k, w)
  {
    if count > 0 {
      WordIsPlace(l, count - 1, w);
      ElementWordIs(l, count - 1, w);
    }
  }

  // ----- who holds whose handle -----

  /** These bytes stand in traced place number `k` of the element, in a dynamic value with a tag that says so. */
  predicate HeldAt(payload: seq<byte>, l: Layout, element: nat, k: nat, bytes: seq<byte>) {
    if k < |l.references| then At(payload, element * l.stride + l.references[k], bytes)
    else
      && k < |l.references| + |l.dynamics|
      && var at := element * l.stride + l.dynamics[k - |l.references|];
      Tagged(payload, at) && At(payload, at + 8, bytes)
  }

  /** Live entry `s` holds the bytes of the handle of live entry `t`. */
  ghost predicate Holds(m: Store, s: nat, t: nat)
    requires AllPlaced(m)
  {
    && Live(m, s) && Live(m, t) && t < U32 && m.objects[t].generation < U32
    && exists element: nat, k: nat ::
         element < m.objects[s].count
           && HeldAt(Payload(m, m.objects[s]), m.layouts[m.objects[s].layout], element, k,
                     HandleBytes(Ref(t, m.objects[t].generation)))
  }

  lemma PlaceHolds(payload: seq<byte>, l: Layout, element: nat, k: nat, w: Word, r: Ref)
    requires PlaceIs(l, element, k, w) && w.SpanEnd() <= |payload| && r.Valid() && r.slot < U32 && r.generation < U32
    ensures Edge(payload, w) == r <==> HeldAt(payload, l, element, k, HandleBytes(r))
  {
    if k < |l.references| {
      PlainEdge(payload, w.at, r);
    } else {
      DynamicEdge(payload, w.at, r);
    }
    hide Edge, At, Tagged;
  }

  lemma EdgeSmall(payload: seq<byte>, w: Word)
    ensures Edge(payload, w).slot < U32 && Edge(payload, w).generation < U32
  {
  }

  lemma PayloadSize(m: Store, o: Object)
    requires Placed(m, o)
    ensures |Payload(m, o)| == o.size
  {
  }

  /** What a traced place of a live entry is, and when it holds a handle. */
  lemma PlaceExact(m: Store, s: nat, element: nat, k: nat, w: Word, r: Ref)
    requires AllPlaced(m) && Live(m, s) && element < m.objects[s].count
    requires PlaceIs(m.layouts[m.objects[s].layout], element, k, w) && r.Valid() && r.slot < U32 && r.generation < U32
    ensures w in Words(m, m.objects[s])
    ensures Child(m, m.objects[s], w) == r <==>
      HeldAt(Payload(m, m.objects[s]), m.layouts[m.objects[s].layout], element, k, HandleBytes(r))
  {
    var o := m.objects[s];
    assert Placed(m, o) && Sized(m, o);
    hide AllPlaced, PlaceIs, Edge, HeldAt, HandleBytes;
    WordIsPlace(m.layouts[o.layout], o.count, w);
    WordInElements(m.layouts[o.layout], 0, o.count, w);
    PayloadSize(m, o);
    hide Payload;
    PlaceHolds(Payload(m, o), m.layouts[o.layout], element, k, w, r);
  }

  /** An entry holds the bytes of a handle if and only if one of its words is that reference. */
  lemma HoldsIff(m: Store, s: nat, t: nat)
    requires AllPlaced(m) && Live(m, s) && Live(m, t)
    ensures Holds(m, s, t) <==>
      exists w :: w in Words(m, m.objects[s]) && Child(m, m.objects[s], w) == Ref(t, m.objects[t].generation)
  {
    var o, r := m.objects[s], Ref(t, m.objects[t].generation);
    assert Placed(m, o) && Sized(m, m.objects[t]);
    var l, payload := m.layouts[o.layout], Payload(m, o);
    hide AllPlaced, Placed, Sized, Edge, HeldAt, PlaceIs, Payload, HandleBytes, AllWords;
    if Holds(m, s, t) {
      var element: nat, k: nat :| element < o.count && HeldAt(payload, l, element, k, HandleBytes(r));
      var w := PlaceOf(l, element, k, payload, HandleBytes(r));
      PlaceExact(m, s, element, k, w, r);
    }
    if w :| w in Words(m, o) && Child(m, o, w) == r {
      WordIsPlace(l, o.count, w);
      var element: nat, k: nat :| element < o.count && PlaceIs(l, element, k, w);
      EdgeSmall(payload, w);
      PlaceExact(m, s, element, k, w, r);
    }
  }

  lemma PlaceOf(l: Layout, element: nat, k: nat, payload: seq<byte>, bytes: seq<byte>) returns (w: Word)
    requires HeldAt(payload, l, element, k, bytes)
    ensures PlaceIs(l, element, k, w)
  {
    w := if k < |l.references| then RefWord(element * l.stride + l.references[k])
      else DynWord(element * l.stride + l.dynamics[k - |l.references|]);
  }

  /** The graph is drawn by these bytes: always from bytes to edge, and back where the owner holds no bad reference. */
  lemma PointsByBytes(m: Store, s: nat, t: nat)
    requires AllPlaced(m) && Live(m, s) && Live(m, t)
    ensures Holds(m, s, t) ==> Points(m, s, t)
    ensures RefsOf(m, s) ==> (Points(m, s, t) <==> Holds(m, s, t))
  {
    HoldsIff(m, s, t);
    hide Holds, Child, Words;
    if w :| w in Words(m, m.objects[s]) && Child(m, m.objects[s], w) == Ref(t, m.objects[t].generation) {
      assert PointsBy(m, s, w, t);
    }
    if Points(m, s, t) && RefsOf(m, s) {
      var w :| w in Words(m, m.objects[s]) && PointsBy(m, s, w, t);
      assert Resolves(m, Child(m, m.objects[s], w));
    }
  }

  // ----- collections -----

  /** Every entry whose handle is held by an entry that is still published is still published, and still held. */
  ghost predicate HeldKept(m: Store, m': Store) {
    && AllPlaced(m) && AllPlaced(m')
    && (forall s: nat, t: nat | Holds(m, s, t) && Live(m', s) ::
      Live(m', t) && m'.objects[t].generation == m.objects[t].generation && Holds(m', s, t))
  }

  lemma HeldSame(m: Store, m': Store, s: nat, t: nat)
    requires AllPlaced(m) && AllPlaced(m') && |m'.objects| == |m.objects| && SamePayloads(m, m')
    requires Holds(m, s, t) && Live(m', s) && Live(m', t)
    ensures Holds(m', s, t)
  {
    hide HeldAt, HandleBytes;
  }

  lemma {:induction false} HeldSurvives(m: Store, m': Store, roots: seq<Ref>)
    requires KeptByMinor(m, m', roots) || KeptByMajor(m, m', roots)
    ensures HeldKept(m, m')
  {
    hide Reachable, Holds, Points;
    forall s: nat, t: nat | Holds(m, s, t) && Live(m', s)
      ensures Live(m', t) && m'.objects[t].generation == m.objects[t].generation && Holds(m', s, t)
    {
      HoldsLive(m, s, t);
      PointsByBytes(m, s, t);
      if KeptByMajor(m, m', roots) {
        ReachableStep(m, RootSlots(roots), s, t);
      } else {
        if !m.objects[s].young {
          RootReachable(m, RootSlots(roots) + OldSlots(m), s);
        }
        ReachableStep(m, RootSlots(roots) + OldSlots(m), s, t);
      }
      HeldSame(m, m', s, t);
    }
  }

  lemma HoldsLive(m: Store, s: nat, t: nat)
    requires AllPlaced(m) && Holds(m, s, t)
    ensures Live(m, s) && Live(m, t)
  {
  }

  /** Each entry of the list holds the handle of the next. */
  ghost predicate HeldChain(m: Store, chain: seq<nat>)
    requires AllPlaced(m)
  {
    forall i | 0 < i < |chain| :: Holds(m, chain[i - 1], chain[i])
  }

  /** So what a chain of held handles leads to from a root stays published, whatever kind of word each handle is in. */
  lemma {:induction false} ChainSurvives(m: Store, m': Store, roots: seq<Ref>, chain: seq<nat>)
    requires KeptByMinor(m, m', roots) || KeptByMajor(m, m', roots)
    requires chain != [] && chain[0] in RootSlots(roots) && Live(m, chain[0]) && HeldChain(m, chain)
    ensures forall i | 0 <= i < |chain| :: Live(m', chain[i]) && SameIdentity(m.objects[chain[i]], m'.objects[chain[i]])
    ensures HeldChain(m', chain)
    decreases |chain|
  {
    hide Holds, Reachable;
    HeldSurvives(m, m', roots);
    if |chain| == 1 {
      RootReachable(m, RootSlots(roots), chain[0]);
      RootReachable(m, RootSlots(roots) + OldSlots(m), chain[0]);
    } else {
      var n := |chain| - 1;
      assert forall i | 0 <= i < n :: chain[..n][i] == chain[i];
      ChainSurvives(m, m', roots, chain[..n]);
      assert Live(m', chain[..n][n - 1]) && Holds(m, chain[n - 1], chain[n]);
      forall i | 0 < i < |chain|
        ensures Holds(m', chain[i - 1], chain[i])
      {
        if i < n {
          assert Holds(m', chain[..n][i - 1], chain[..n][i]);
        }
      }
    }
  }
}
