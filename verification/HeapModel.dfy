/**
  * The managed heap as values: directory entries, pages, cards, and the graph that payload words draw between
  * entries. Positions in a page and in the directory are natural numbers; a page is below 4 GiB.
  */
module HeapModel {
  import opened Prelude
  import opened HeapWords
  import opened CardScan

  datatype ObjectState = Free | Reserved | Published

  /**
    * One directory entry. Its mark word and its positions in the `occupied` and `youngSlots` vectors are separate
    * columns of the directory.
    */
  datatype Object = Object(state: ObjectState, generation: nat, layout: nat, count: nat, page: nat, offset: nat,
                           size: nat, logical: nat, age: nat, young: bool)

  datatype PageKind = FreePage | YoungPage | SparePage | OldPage | LargePage

  datatype Page = Page(kind: PageKind, data: seq<byte>, used: nat, cell: nat, partner: nat, entries: seq<nat>,
                       free: seq<nat>, cards: seq<bool>, cardCapacity: nat)

  datatype Card = Card(page: nat, index: nat)

  /** Directory, pages and layouts: everything a payload word can depend on. */
  datatype Store = Store(objects: seq<Object>, pages: seq<Page>, layouts: seq<Layout>)

  predicate Live(m: Store, s: nat) {
    0 < s < |m.objects| && m.objects[s].state.Published?
  }

  /** `resolveObject` succeeds. */
  predicate Resolves(m: Store, r: Ref) {
    Live(m, r.slot) && m.objects[r.slot].generation == r.generation
  }

  /** The entry's payload is inside its page and holds its elements. */
  predicate Placed(m: Store, o: Object) {
    && o.page < |m.pages|
    && o.offset + o.size <= |m.pages[o.page].data| < U32
    && 0 < o.layout < |m.layouts|
  }

  function Payload(m: Store, o: Object): seq<byte>
    requires Placed(m, o)
  {
    m.pages[o.page].data[o.offset..o.offset + o.size]
  }

  function Words(m: Store, o: Object): seq<Word>
    requires Placed(m, o)
  {
    AllWords(m.layouts[o.layout], o.count)
  }

  /** The reference in word `w` of entry `o`. */
  function Child(m: Store, o: Object, w: Word): Ref
    requires Placed(m, o)
  {
    Edge(Payload(m, o), w)
  }

  /** The references in these words, in order. */
  function Edges(payload: seq<byte>, words: seq<Word>): seq<Ref> {
    seq(|words|, i requires 0 <= i < |words| => Edge(payload, words[i]))
  }

  function Children(m: Store, o: Object, words: seq<Word>): seq<Ref>
    requires Placed(m, o)
  {
    Edges(Payload(m, o), words)
  }

  ghost predicate Sized(m: Store, o: Object)
    requires Placed(m, o)
  {
    && ValidLayout(m.layouts[o.layout])
    && ElementBase(m.layouts[o.layout].stride, o.count) <= o.size
    && 8 <= o.size && o.size % 8 == 0
    && 0 < o.generation
  }

  /** Every live entry has a payload with a usable layout. */
  ghost predicate AllPlaced(m: Store) {
    forall s: nat | Live(m, s) :: Placed(m, m.objects[s]) && Sized(m, m.objects[s])
  }

  /** No live entry holds a stale or malformed reference. */
  ghost predicate RefsResolve(m: Store)
    requires AllPlaced(m)
  {
    forall s: nat, w | Live(m, s) && w in Words(m, m.objects[s]) ::
      Child(m, m.objects[s], w).Null() || Resolves(m, Child(m, m.objects[s], w))
  }

  ghost predicate RefsOf(m: Store, s: nat)
    requires Live(m, s) && Placed(m, m.objects[s])
  {
    forall w | w in Words(m, m.objects[s]) ::
      Child(m, m.objects[s], w).Null() || Resolves(m, Child(m, m.objects[s], w))
  }

  /** No marked entry holds a stale or malformed reference. */
  ghost predicate KeptRefs(m: Store, marks: seq<nat>, epoch: nat)
    requires AllPlaced(m)
  {
    |marks| == |m.objects| && forall s: nat | Live(m, s) && marks[s] == epoch :: RefsOf(m, s)
  }

  /** The reference graph of the live entries. */
  ghost predicate Points(m: Store, s: nat, t: nat)
    requires AllPlaced(m)
  {
    Live(m, s) && exists w :: w in Words(m, m.objects[s]) && PointsBy(m, s, w, t)
  }

  predicate PointsBy(m: Store, s: nat, w: Word, t: nat)
    requires Live(m, s) && Placed(m, m.objects[s])
  {
    !Child(m, m.objects[s], w).Null() && Child(m, m.objects[s], w).slot == t
  }

  ghost predicate Path(m: Store, p: seq<nat>)
    requires AllPlaced(m)
  {
    && |p| > 0
    && (forall i | 0 <= i < |p| :: Live(m, p[i]))
    && (forall i | 0 < i < |p| :: Points(m, p[i - 1], p[i]))
  }

  ghost predicate PathTo(m: Store, roots: set<nat>, s: nat, p: seq<nat>)
    requires AllPlaced(m)
  {
    Path(m, p) && p[0] in roots && p[|p| - 1] == s
  }

  /** `s` can be reached from `roots` along references. */
  ghost predicate Reachable(m: Store, roots: set<nat>, s: nat)
    requires AllPlaced(m)
  {
    exists p :: PathTo(m, roots, s, p)
  }

  lemma RootReachable(m: Store, roots: set<nat>, s: nat)
    requires AllPlaced(m) && Live(m, s) && s in roots
    ensures Reachable(m, roots, s)
  {
    assert PathTo(m, roots, s, [s]);
  }

  lemma ReachableStep(m: Store, roots: set<nat>, s: nat, t: nat)
    requires AllPlaced(m) && Reachable(m, roots, s) && Points(m, s, t) && Live(m, t)
    ensures Reachable(m, roots, t)
  {
    var p :| PathTo(m, roots, s, p);
    var q := p + [t];
    forall i | 0 < i < |q|
      ensures Points(m, q[i - 1], q[i])
    {
      if i < |p| {
        assert q[i - 1] == p[i - 1] && q[i] == p[i];
      }
    }
    assert PathTo(m, roots, t, q);
  }

  /** A set closed under references from the roots contains what is reachable. */
  lemma {:induction false} ClosedContainsPath(m: Store, roots: set<nat>, closed: set<nat>, s: nat, p: seq<nat>)
    requires AllPlaced(m) && PathTo(m, roots, s, p)
    requires forall r | r in roots && Live(m, r) :: r in closed
    requires forall a, b | a in closed && Points(m, a, b) && Live(m, b) :: b in closed
    ensures s in closed
    decreases |p|
  {
    if |p| > 1 {
      var q := p[..|p| - 1];
      assert PathTo(m, roots, q[|q| - 1], q) by {
        assert forall i | 0 <= i < |q| :: q[i] == p[i];
        forall i | 0 < i < |q| ensures Points(m, q[i - 1], q[i]) {
          assert Points(m, p[i - 1], p[i]);
        }
      }
      ClosedContainsPath(m, roots, closed, q[|q| - 1], q);
      assert Points(m, p[|p| - 2], p[|p| - 1]);
    }
  }

  // ----- vectors of slots -----

  function Elements<T>(xs: seq<T>): set<T> {
    set x | x in xs
  }

  lemma {:induction false} DistinctSize<T>(xs: seq<T>)
    requires Distinct(xs)
    ensures |Elements(xs)| == |xs|
  {
    if xs != [] {
      var n := |xs| - 1;
      DistinctSize(xs[..n]);
      assert Elements(xs) == Elements(xs[..n]) + {xs[n]};
      assert xs[n] !in Elements(xs[..n]);
    }
  }

  lemma SubsetSize<T>(a: set<T>, b: set<T>)
    requires a <= b
    ensures |a| <= |b|
  {
    assert b == a + (b - a);
  }

  /** Distinct members of a distinct vector are no more than the vector holds. */
  lemma DistinctFits<T>(xs: seq<T>, ys: seq<T>)
    requires Distinct(xs) && Distinct(ys)
    requires forall i | 0 <= i < |xs| :: xs[i] in ys
    ensures |xs| <= |ys|
  {
    DistinctSize(xs);
    DistinctSize(ys);
    SubsetSize(Elements(xs), Elements(ys));
  }

  // ----- byte accounting -----

  /** Logical bytes of the live entries. */
  function LiveBytes(objects: seq<Object>): nat {
    if objects == [] then 0
    else
      var n := |objects| - 1;
      LiveBytes(objects[..n]) + (if n != 0 && objects[n].state.Published? then objects[n].logical else 0)
  }

  /** Logical bytes of the live entries that carry the mark. */
  function MarkedBytes(objects: seq<Object>, marks: seq<nat>, epoch: nat): nat
    requires |marks| == |objects|
  {
    if objects == [] then 0
    else
      var n := |objects| - 1;
      MarkedBytes(objects[..n], marks[..n], epoch) +
      (if n != 0 && objects[n].state.Published? && marks[n] == epoch then objects[n].logical else 0)
  }

  lemma {:induction false} MarkedBytesAdd(objects: seq<Object>, marks: seq<nat>, epoch: nat, s: nat)
    requires |marks| == |objects| && 0 < s < |objects|
    requires objects[s].state.Published? && marks[s] != epoch
    ensures MarkedBytes(objects, marks[s := epoch], epoch) == MarkedBytes(objects, marks, epoch) + objects[s].logical
  {
    var n := |objects| - 1;
    if s == n {
      assert marks[s := epoch][..n] == marks[..n];
    } else {
      assert marks[s := epoch][..n] == marks[..n][s := epoch];
      MarkedBytesAdd(objects[..n], marks[..n], epoch, s);
    }
  }

  lemma {:induction false} NothingMarked(objects: seq<Object>, marks: seq<nat>, epoch: nat)
    requires |marks| == |objects|
    requires forall s: nat | 0 < s < |objects| && objects[s].state.Published? :: marks[s] != epoch
    ensures MarkedBytes(objects, marks, epoch) == 0
  {
    if objects != [] {
      var n := |objects| - 1;
      NothingMarked(objects[..n], marks[..n], epoch);
    }
  }

  /** When exactly the marked entries are live, the two totals agree. */
  lemma {:induction false} MarkedIsLive(objects: seq<Object>, marks: seq<nat>, epoch: nat)
    requires |marks| == |objects|
    requires forall s: nat | 0 < s < |objects| && objects[s].state.Published? :: marks[s] == epoch
    ensures MarkedBytes(objects, marks, epoch) == LiveBytes(objects)
  {
    if objects != [] {
      var n := |objects| - 1;
      MarkedIsLive(objects[..n], marks[..n], epoch);
    }
  }

  lemma {:induction false} LiveBytesUpdate(objects: seq<Object>, s: nat, o: Object)
    requires 0 < s < |objects|
    ensures LiveBytes(objects[s := o]) ==
            LiveBytes(objects) - (if objects[s].state.Published? then objects[s].logical else 0)
                               + (if o.state.Published? then o.logical else 0)
  {
    var n := |objects| - 1;
    if s == n {
      assert objects[s := o][..n] == objects[..n];
    } else {
      assert objects[s := o][..n] == objects[..n][s := o];
      LiveBytesUpdate(objects[..n], s, o);
    }
  }

  /** Entries that agree on state and logical size weigh the same. */
  lemma {:induction false} MarkedBytesSame(a: seq<Object>, b: seq<Object>, marks: seq<nat>, epoch: nat)
    requires |a| == |b| == |marks|
    requires forall s: nat | 0 < s < |a| && marks[s] == epoch ::
               (a[s].state.Published? <==> b[s].state.Published?)
                 && (a[s].state.Published? ==> a[s].logical == b[s].logical)
    ensures MarkedBytes(a, marks, epoch) == MarkedBytes(b, marks, epoch)
  {
    if a != [] {
      var n := |a| - 1;
      MarkedBytesSame(a[..n], b[..n], marks[..n], epoch);
    }
  }

  lemma LiveBytesAtLeast(objects: seq<Object>, s: nat)
    requires 0 < s < |objects| && objects[s].state.Published?
    ensures objects[s].logical <= LiveBytes(objects)
  {
    LiveBytesUpdate(objects, s, objects[s].(state := Free));
  }

  lemma {:induction false} LiveBytesSame(a: seq<Object>, b: seq<Object>)
    requires |a| == |b| && forall s: nat | s < |a| :: a[s].state == b[s].state && a[s].logical == b[s].logical
    ensures LiveBytes(a) == LiveBytes(b)
  {
    if a != [] {
      LiveBytesSame(a[..|a| - 1], b[..|b| - 1]);
    }
  }
}
