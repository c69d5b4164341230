/** Select transactions between tasks over channels. */
module Select {
  import opened Prelude
  import opened SelectLists

  const RECORD_BYTES: nat := 64
  const DYNAMIC_BYTES: nat := 24
  const NOTHING: Value := 0

  /** What a channel holds. */
  datatype Store = Store(capacity: nat, buffer: seq<Value>, closed: bool)

  /** A value that went into a channel or came out of it, and the select case it went through. */
  datatype Transfer = Transfer(value: Value, who: Option<Ref>)

  /** Selections, channels, who waits where, and the history of every channel. */
  datatype World = World(
    selections: seq<Selection>, stores: seq<Store>, lists: seq<seq<Ref>>, total: nat,
    sent: seq<seq<Transfer>>, received: seq<seq<Transfer>>, releases: seq<nat>)

  /** Bytes charged for a selection. */
  function Bytes(n: nat): nat {
    RECORD_BYTES + n * (RECORD_BYTES + 3 * DYNAMIC_BYTES)
  }

  function Values(h: seq<Transfer>): seq<Value> {
    seq(|h|, i requires 0 <= i < |h| => h[i].value)
  }

  /** What went through one case. */
  function Through(h: seq<Transfer>, r: Ref): seq<Value> {
    if h == [] then []
    else Through(h[..|h| - 1], r) + (if h[|h| - 1].who == Some(r) then [h[|h| - 1].value] else [])
  }

  function Held(s: Selection): nat {
    if s.charged then s.bytes else 0
  }

  function TotalHeld(selections: seq<Selection>): nat {
    if selections == [] then 0 else TotalHeld(selections[..|selections| - 1]) + Held(selections[|selections| - 1])
  }

  lemma {:induction false} TotalUpdate(selections: seq<Selection>, s: nat, after: Selection)
    requires s < |selections|
    ensures TotalHeld(selections[s := after]) + Held(selections[s]) == TotalHeld(selections) + Held(after)
  {
    var n := |selections| - 1;
    if s == n {
      assert selections[s := after][..n] == selections[..n];
    } else {
      assert selections[s := after][..n] == selections[..n][s := after];
      TotalUpdate(selections[..n], s, after);
    }
  }

  // ----- the steps on what tasks can see -----

  function OthersAll(lists: seq<seq<Ref>>, s: nat): seq<seq<Ref>> {
    seq(|lists|, c requires 0 <= c < |lists| => Others(lists[c], s))
  }

  function OwnAll(lists: seq<seq<Ref>>, cases: seq<Case>, s: nat, n: nat): seq<seq<Ref>>
    requires n <= |cases|
  {
    seq(|lists|, c requires 0 <= c < |lists| => lists[c] + Own(cases, s, c, n))
  }

  /** All registrations of a selection are withdrawn and its bytes are given back, if they have not been. */
  function Withdrawn(w: World, s: nat): World
    requires s < |w.selections| && s < |w.releases|
  {
    var sel := w.selections[s];
    w.(lists := OthersAll(w.lists, s), selections :=
      w.selections[s := sel.(charged := false, bytes := if sel.charged then 0 else sel.bytes)],
    total := if Held(sel) <= w.total then w.total - Held(sel)
      else 0, releases := w.releases[s := w.releases[s] + (if sel.charged then 1 else 0)])
  }

  /** A selection has its outcome. */
  function Finished(w: World, s: nat, index: int, value: Value, ok: bool, failed: bool): World
    requires s < |w.selections| && s < |w.releases|
  {
    var v := Withdrawn(w, s);
    v.(selections := v.selections[s :=
      v.selections[s].(index := index, value := value, ok := ok, done := true, failed := failed)])
  }

  function Buffered(w: World, c: nat, buffer: seq<Value>): World
    requires c < |w.stores|
  {
    w.(stores := w.stores[c := w.stores[c].(buffer := buffer)])
  }

  function Into(w: World, c: nat, t: Transfer): World
    requires c < |w.sent|
  {
    w.(sent := w.sent[c := w.sent[c] + [t]])
  }

  function OutOf(w: World, c: nat, t: Transfer): World
    requires c < |w.received|
  {
    w.(received := w.received[c := w.received[c] + [t]])
  }

  predicate Shaped(w: World) {
    && |w.lists| == |w.stores| == |w.sent| == |w.received| && |w.releases| == |w.selections|
    && (forall s, k | 0 <= s < |w.selections| && 0 <= k < |w.selections[s].cases|
      && w.selections[s].cases[k].channel.Some? ::
          w.selections[s].cases[k].channel.value < |w.stores|)
  }

  predicate OnChannel(w: World, r: Ref) {
    IsCase(w.selections, r) && CaseOf(w.selections, r).channel.Some?
  }

  function ChannelOf(w: World, r: Ref): nat
    requires OnChannel(w, r)
  {
    CaseOf(w.selections, r).channel.value
  }

  function PeerOf(w: World, r: Ref): Option<Ref>
    requires Shaped(w) && OnChannel(w, r)
  {
    Peer(w.selections, w.lists[ChannelOf(w, r)], CaseOf(w.selections, r).send, Some(r.selection))
  }

  /** The case can go ahead now. */
  predicate Ready(w: World, r: Ref)
    requires Shaped(w)
  {
    OnChannel(w, r) &&
    var store := w.stores[ChannelOf(w, r)];
    store.closed || PeerOf(w, r).Some?
      || (if CaseOf(w.selections, r).send then |store.buffer| < store.capacity else store.buffer != [])
  }

  /** Both selections of a meeting end, the one that waited first. */
  function BothFinished(w: World, from: Ref, into: Ref, value: Value, sending: bool): World
    requires Shaped(w) && from.selection < |w.selections| && into.selection < |w.selections|
  {
    if sending then Finished(Finished(w, into.selection, into.index, value, true, false), from.selection, from.index,
      NOTHING, false, false)
    else Finished(Finished(w, from.selection, from.index, NOTHING, false, false), into.selection, into.index, value,
      true, false)
  }

  /** One value goes from a case to another one, and both selections are over. */
  function Met(w: World, c: nat, from: Ref, into: Ref, value: Value, sending: bool): World
    requires Shaped(w) && c < |w.stores| && from.selection < |w.selections| && into.selection < |w.selections|
  {
    OutOf(Into(BothFinished(w, from, into, value, sending), c, Transfer(value, Some(from))), c,
      Transfer(value, Some(into)))
  }

  /** The ready case goes ahead; `fails` is a failure of the channel's own storage. */
  function Committed(w: World, r: Ref, fails: bool): World
    requires Shaped(w) && Ready(w, r)
  {
    var c, s, it, store, peer :=
      ChannelOf(w, r), r.selection, CaseOf(w.selections, r), w.stores[ChannelOf(w, r)], PeerOf(w, r);
    if it.send then
      if store.closed then Finished(w, s, r.index, NOTHING, false, true)
      else if peer.Some? then Met(w, c, r, peer.value, it.value, true)
      else if fails then Finished(w, s, r.index, NOTHING, false, true)
      else Into(Finished(Buffered(w, c, store.buffer + [it.value]), s, r.index, NOTHING, false, false), c,
        Transfer(it.value, Some(r)))
    else if store.buffer != [] then
      if fails then Finished(w, s, r.index, NOTHING, false, true)
      else OutOf(Finished(Buffered(w, c, store.buffer[1..]), s, r.index, store.buffer[0], true, false), c,
        Transfer(store.buffer[0], Some(r)))
    else if peer.Some? && !store.closed then Met(w, c, peer.value, r, CaseOf(w.selections, peer.value).value, false)
    else Finished(w, s, r.index, it.zero, false, false)
  }

  /** Every case of the selection that has a channel waits there. */
  function Registered(w: World, s: nat): World
    requires s < |w.selections|
  {
    w.(lists := OwnAll(w.lists, w.selections[s].cases, s, |w.selections[s].cases|))
  }

  // ----- what every step keeps -----

  predicate Waits(lists: seq<seq<Ref>>, c: nat, r: Ref) {
    c < |lists| && r in lists[c]
  }

  /** Only cases of open selections wait, on their own channel, and either all cases of a selection wait or none. */
  ghost predicate Waiting(w: World) {
    && (forall c: nat, r | Waits(w.lists, c, r) ::
          IsCase(w.selections, r) && CaseOf(w.selections, r).channel == Some(c) && !w.selections[r.selection].done
            && w.selections[r.selection].charged)
    && (forall a, b | OnChannel(w, a) && OnChannel(w, b) && a.selection == b.selection
      && Waits(w.lists, ChannelOf(w, a), a) ::
          Waits(w.lists, ChannelOf(w, b), b))
  }

  /** No two waiting cases of different selections could meet. */
  ghost predicate NoMissedMeeting(w: World) {
    forall c: nat, a, b | Waits(w.lists, c, a) && Waits(w.lists, c, b) && a.selection != b.selection
      && IsCase(w.selections, a) && IsCase(w.selections, b) ::
      CaseOf(w.selections, a).send == CaseOf(w.selections, b).send
  }

  /** Nobody waits to receive what is already there. */
  ghost predicate Drained(w: World) {
    forall c: nat, r | Waits(w.lists, c, r) && c < |w.stores| && IsCase(w.selections, r)
      && !CaseOf(w.selections, r).send :: w.stores[c].buffer == []
  }

  /** What came out and what is buffered is what went in, in order. */
  ghost predicate Fifo(w: World) {
    forall c: nat | c < |w.stores| && c < |w.sent| && c < |w.received| ::
      Values(w.sent[c]) == Values(w.received[c]) + w.stores[c].buffer && |w.stores[c].buffer| <= w.stores[c].capacity
  }

  /** The case won its selection and received a value. */
  predicate Took(w: World, r: Ref, c: nat) {
    && IsCase(w.selections, r) && CaseOf(w.selections, r).channel == Some(c) && !CaseOf(w.selections, r).send
    && w.selections[r.selection].done && w.selections[r.selection].index == r.index && w.selections[r.selection].ok
  }

  /** The case won its selection and sent its value. */
  predicate Gave(w: World, r: Ref, c: nat) {
    && IsCase(w.selections, r) && CaseOf(w.selections, r).channel == Some(c) && CaseOf(w.selections, r).send
    && w.selections[r.selection].done && w.selections[r.selection].index == r.index && !w.selections[r.selection].failed
  }

  /**
    * What went through a case of a channel is what its selection reports: one value for the winner, nothing for any
    * other.
    */
  ghost predicate Outcome(w: World, r: Ref, c: nat)
    requires c < |w.sent| && c < |w.received|
  {
    && Through(w.received[c], r) == (if Took(w, r, c) then [w.selections[r.selection].value] else [])
    && Through(w.sent[c], r) == (if Gave(w, r, c) then [CaseOf(w.selections, r).value] else [])
  }

  ghost predicate Outcomes(w: World) {
    forall r, c: nat | c < |w.sent| && c < |w.received| :: Outcome(w, r, c)
  }

  /** The charge is what open selections hold, and every other selection has given it back once. */
  ghost predicate Paid(w: World) {
    && w.total == TotalHeld(w.selections)
    && (forall s: nat | s < |w.selections| && s < |w.releases| ::
          && w.releases[s] == (if w.selections[s].charged then 0 else 1)
          && (w.selections[s].done ==> !w.selections[s].charged)
          && (w.selections[s].charged ==> w.selections[s].bytes == Bytes(|w.selections[s].cases|)))
  }

  ghost predicate Inv(w: World) {
    Shaped(w) && Waiting(w) && NoMissedMeeting(w) && Drained(w) && Fifo(w) && Outcomes(w) && Paid(w)
  }

  /** Some selections are over: their cases wait nowhere, everything else is as before. */
  ghost predicate Gone(w: World, v: World, gone: set<nat>) {
    && |v.selections| == |w.selections| && |v.releases| == |w.releases| && |v.lists| == |w.lists|
    && |v.stores| == |w.stores|
    && |v.sent| == |w.sent| && |v.received| == |w.received|
    && (forall s: nat | s < |w.selections| ::
      v.selections[s].cases == w.selections[s].cases && (s !in gone ==> v.selections[s] == w.selections[s]))
    && (forall c: nat, r | Waits(v.lists, c, r) :: Waits(w.lists, c, r) && r.selection !in gone)
    && (forall c: nat, r | Waits(w.lists, c, r) && r.selection !in gone :: Waits(v.lists, c, r))
  }

  lemma GoneWaiting(w: World, v: World, gone: set<nat>)
    requires Shaped(w) && Waiting(w) && NoMissedMeeting(w) && Gone(w, v, gone)
    ensures Shaped(v) && Waiting(v) && NoMissedMeeting(v)
  {
    forall a, b | OnChannel(v, a) && OnChannel(v, b) && a.selection == b.selection && Waits(v.lists, ChannelOf(v, a), a)
      ensures Waits(v.lists, ChannelOf(v, b), b)
    {
      assert OnChannel(w, a) && OnChannel(w, b);
      assert Waits(w.lists, ChannelOf(w, b), b);
    }
    hide Waits;
  }

  lemma FinishedGone(w: World, s: nat, index: int, value: Value, ok: bool, failed: bool)
    requires Shaped(w) && s < |w.selections|
    ensures Gone(w, Finished(w, s, index, value, ok, failed), {s})
  {
    var v := Finished(w, s, index, value, ok, failed);
    assert forall c: nat | c < |w.lists| :: v.lists[c] == Others(w.lists[c], s);
  }

  lemma GoneTwice(u: World, w: World, v: World, a: set<nat>, b: set<nat>)
    requires Gone(u, w, a) && Gone(w, v, b)
    ensures Gone(u, v, a + b)
  {
  }

  lemma FinishedPaid(w: World, s: nat, index: int, value: Value, ok: bool, failed: bool)
    requires Shaped(w) && Paid(w) && s < |w.selections|
    ensures Paid(Finished(w, s, index, value, ok, failed))
  {
    var v := Finished(w, s, index, value, ok, failed);
    assert v.selections == w.selections[s := v.selections[s]];
    TotalUpdate(w.selections, s, v.selections[s]);
  }

  // ----- meetings -----

  lemma BothGone(w: World, from: Ref, into: Ref, value: Value, sending: bool)
    requires Shaped(w) && from.selection < |w.selections| && into.selection < |w.selections|
    ensures Gone(w, BothFinished(w, from, into, value, sending), {from.selection, into.selection})
  {
    assert {from.selection, into.selection} == {from.selection} + {into.selection} ==
      {into.selection} + {from.selection};
    if sending {
      var u := Finished(w, into.selection, into.index, value, true, false);
      FinishedGone(w, into.selection, into.index, value, true, false);
      assert Shaped(u);
      FinishedGone(u, from.selection, from.index, NOTHING, false, false);
      hide Finished;
      GoneTwice(w, u, BothFinished(w, from, into, value, sending), {into.selection}, {from.selection});
    } else {
      var u := Finished(w, from.selection, from.index, NOTHING, false, false);
      FinishedGone(w, from.selection, from.index, NOTHING, false, false);
      assert Shaped(u);
      FinishedGone(u, into.selection, into.index, value, true, false);
      hide Finished;
      GoneTwice(w, u, BothFinished(w, from, into, value, sending), {from.selection}, {into.selection});
    }
  }

  lemma MetGone(w: World, c: nat, from: Ref, into: Ref, value: Value, sending: bool)
    requires Shaped(w) && c < |w.stores| && from.selection < |w.selections| && into.selection < |w.selections|
    ensures Gone(w, Met(w, c, from, into, value, sending), {from.selection, into.selection})
  {
    BothGone(w, from, into, value, sending);
    hide BothFinished, Waits;
  }

  lemma MetPaid(w: World, c: nat, from: Ref, into: Ref, value: Value, sending: bool)
    requires Shaped(w) && Paid(w) && c < |w.stores| && from.selection < |w.selections|
    requires into.selection < |w.selections|
    ensures Paid(Met(w, c, from, into, value, sending))
  {
    if sending {
      var u := Finished(w, into.selection, into.index, value, true, false);
      FinishedPaid(w, into.selection, into.index, value, true, false);
      assert Shaped(u);
      FinishedPaid(u, from.selection, from.index, NOTHING, false, false);
    } else {
      var u := Finished(w, from.selection, from.index, NOTHING, false, false);
      FinishedPaid(w, from.selection, from.index, NOTHING, false, false);
      assert Shaped(u);
      FinishedPaid(u, into.selection, into.index, value, true, false);
    }
    hide Finished;
  }

  // ----- outcomes -----

  lemma ThroughAdd(h: seq<Transfer>, t: Transfer, r: Ref)
    ensures Through(h + [t], r) == Through(h, r) + (if t.who == Some(r) then [t.value] else [])
  {
    assert (h + [t])[..|h|] == h;
  }

  lemma ValuesAdd(h: seq<Transfer>, t: Transfer)
    ensures Values(h + [t]) == Values(h) + [t.value]
  {
  }

  /** A selection that ends without a transfer reports none. */
  lemma QuietOutcomes(w: World, s: nat, index: int, value: Value, ok: bool, failed: bool)
    requires Shaped(w) && Outcomes(w) && s < |w.selections| && !w.selections[s].done
    requires 0 <= index < |w.selections[s].cases| ==> if w.selections[s].cases[index].send then failed else !ok
    ensures Outcomes(Finished(w, s, index, value, ok, failed))
  {
    var v := Finished(w, s, index, value, ok, failed);
    forall r, c: nat | c < |v.sent| && c < |v.received|
      ensures Outcome(v, r, c)
    {
      assert Outcome(w, r, c);
    }
  }

  lemma FinishedFields(w: World, s: nat, index: int, value: Value, ok: bool, failed: bool)
    requires s < |w.selections| && s < |w.releases|
    ensures var v := Finished(w, s, index, value, ok, failed);
            && v.sent == w.sent && v.received == w.received && |v.selections| == |w.selections|
            && (forall x | 0 <= x < |w.selections| && x != s :: v.selections[x] == w.selections[x])
            && v.selections[s].cases == w.selections[s].cases && v.selections[s].done && v.selections[s].index == index
            && v.selections[s].value == value && v.selections[s].ok == ok && v.selections[s].failed == failed
  {
  }

  /** Whose outcome changes when the selection of `r` ends with it. */
  lemma FinishedVerdict(w: World, r: Ref, value: Value, ok: bool, x: Ref, d: nat)
    requires IsCase(w.selections, r) && !w.selections[r.selection].done && r.selection < |w.releases|
    ensures var v := Finished(w, r.selection, r.index, value, ok, false);
            && (IsCase(v.selections, x) <==> IsCase(w.selections, x))
            && (IsCase(w.selections, x) ==> CaseOf(v.selections, x) == CaseOf(w.selections, x))
            && (Took(v, x, d) <==>
              Took(w, x, d) || (x == r && ok && !CaseOf(w.selections, r).send
                && CaseOf(w.selections, r).channel == Some(d)))
            && (Gave(v, x, d) <==>
              Gave(w, x, d) || (x == r && CaseOf(w.selections, r).send && CaseOf(w.selections, r).channel == Some(d)))
            && !Took(w, r, d) && !Gave(w, r, d)
            && (Took(w, x, d) ==> v.selections[x.selection].value == w.selections[x.selection].value)
  {
    FinishedFields(w, r.selection, r.index, value, ok, false);
    hide Finished;
  }

  /** A selection that ends with a value going into a channel. */
  lemma GaveOutcome(w: World, r: Ref, c: nat, x: Ref, d: nat)
    requires Shaped(w) && Outcomes(w) && IsCase(w.selections, r) && !w.selections[r.selection].done && c < |w.sent|
    requires d < |w.sent|
    requires CaseOf(w.selections, r).channel == Some(c) && CaseOf(w.selections, r).send
    ensures Outcome(Into(Finished(w, r.selection, r.index, NOTHING, false, false), c,
      Transfer(CaseOf(w.selections, r).value, Some(r))), x, d)
  {
    var u := Finished(w, r.selection, r.index, NOTHING, false, false);
    var t := Transfer(CaseOf(w.selections, r).value, Some(r));
    assert Outcome(w, x, d) && Outcome(w, r, d);
    ThroughAdd(w.sent[c], t, x);
    FinishedFields(w, r.selection, r.index, NOTHING, false, false);
    FinishedVerdict(w, r, NOTHING, false, x, d);
    assert Took(Into(u, c, t), x, d) == Took(u, x, d) && Gave(Into(u, c, t), x, d) == Gave(u, x, d);
    hide Through, Outcomes, Shaped, Finished, Took, Gave;
  }

  lemma GaveOutcomes(w: World, r: Ref, c: nat)
    requires Shaped(w) && Outcomes(w) && IsCase(w.selections, r) && !w.selections[r.selection].done && c < |w.sent|
    requires CaseOf(w.selections, r).channel == Some(c) && CaseOf(w.selections, r).send
    ensures Outcomes(Into(Finished(w, r.selection, r.index, NOTHING, false, false), c,
      Transfer(CaseOf(w.selections, r).value, Some(r))))
  {
    hide Outcome;
    var v := Into(Finished(w, r.selection, r.index, NOTHING, false, false), c,
      Transfer(CaseOf(w.selections, r).value, Some(r)));
    forall x, d: nat | d < |v.sent| && d < |v.received|
      ensures Outcome(v, x, d)
    {
      GaveOutcome(w, r, c, x, d);
    }
  }

  lemma TookOutcome(w: World, r: Ref, c: nat, value: Value, x: Ref, d: nat)
    requires Shaped(w) && Outcomes(w) && IsCase(w.selections, r) && !w.selections[r.selection].done && c < |w.sent|
    requires d < |w.sent|
    requires CaseOf(w.selections, r).channel == Some(c) && !CaseOf(w.selections, r).send
    ensures Outcome(OutOf(Finished(w, r.selection, r.index, value, true, false), c, Transfer(value, Some(r))), x, d)
  {
    var u := Finished(w, r.selection, r.index, value, true, false);
    var t := Transfer(value, Some(r));
    assert Outcome(w, x, d) && Outcome(w, r, d);
    ThroughAdd(w.received[c], t, x);
    FinishedFields(w, r.selection, r.index, value, true, false);
    FinishedVerdict(w, r, value, true, x, d);
    assert Took(OutOf(u, c, t), x, d) == Took(u, x, d) && Gave(OutOf(u, c, t), x, d) == Gave(u, x, d);
    hide Through, Outcomes, Shaped, Finished, Took, Gave;
  }

  lemma TookOutcomes(w: World, r: Ref, c: nat, value: Value)
    requires Shaped(w) && Outcomes(w) && IsCase(w.selections, r) && !w.selections[r.selection].done && c < |w.sent|
    requires CaseOf(w.selections, r).channel == Some(c) && !CaseOf(w.selections, r).send
    ensures Outcomes(OutOf(Finished(w, r.selection, r.index, value, true, false), c, Transfer(value, Some(r))))
  {
    hide Outcome;
    var v := OutOf(Finished(w, r.selection, r.index, value, true, false), c, Transfer(value, Some(r)));
    forall x, d: nat | d < |v.sent| && d < |v.received|
      ensures Outcome(v, x, d)
    {
      TookOutcome(w, r, c, value, x, d);
    }
  }

  /** The history of a channel does not matter to how a selection ends. */
  lemma FinishedInto(w: World, c: nat, t: Transfer, s: nat, index: int, value: Value, ok: bool)
    requires Shaped(w) && c < |w.sent| && s < |w.selections|
    ensures Finished(Into(w, c, t), s, index, value, ok, false) == Into(Finished(w, s, index, value, ok, false), c, t)
    ensures Finished(OutOf(w, c, t), s, index, value, ok, false) == OutOf(Finished(w, s, index, value, ok, false), c, t)
  {
  }

  lemma MetOutcomes(w: World, c: nat, from: Ref, into: Ref, sending: bool)
    requires Shaped(w) && Outcomes(w) && IsCase(w.selections, from) && IsCase(w.selections, into) && c < |w.stores|
    requires from.selection != into.selection
    requires !w.selections[from.selection].done && !w.selections[into.selection].done
    requires CaseOf(w.selections, from).channel == Some(c) && CaseOf(w.selections, from).send
    requires CaseOf(w.selections, into).channel == Some(c) && !CaseOf(w.selections, into).send
    ensures Outcomes(Met(w, c, from, into, CaseOf(w.selections, from).value, sending))
  {
    hide Outcomes, Finished;
    var value := CaseOf(w.selections, from).value;
    if sending {
      var v := Finished(w, into.selection, into.index, value, true, false);
      FinishedGone(w, into.selection, into.index, value, true, false);
      TookOutcomes(w, into, c, value);
      var u := OutOf(v, c, Transfer(value, Some(into)));
      GaveOutcomes(u, from, c);
      FinishedInto(v, c, Transfer(value, Some(into)), from.selection, from.index, NOTHING, false);
    } else {
      var v := Finished(w, from.selection, from.index, NOTHING, false, false);
      FinishedGone(w, from.selection, from.index, NOTHING, false, false);
      GaveOutcomes(w, from, c);
      var u := Into(v, c, Transfer(value, Some(from)));
      TookOutcomes(u, into, c, value);
      FinishedInto(v, c, Transfer(value, Some(from)), into.selection, into.index, value, true);
    }
  }

  // ----- commit -----

  /** The case that goes ahead and, in a meeting, the one it meets. */
  function Winners(w: World, r: Ref): set<nat>
    requires Shaped(w) && Ready(w, r)
  {
    var store := w.stores[ChannelOf(w, r)];
    if PeerOf(w, r).Some? && !store.closed && (CaseOf(w.selections, r).send || store.buffer == [])
    then {r.selection, PeerOf(w, r).value.selection} else {r.selection}
  }

  lemma CommittedGone(w: World, r: Ref, fails: bool)
    requires Shaped(w) && Ready(w, r)
    ensures Gone(w, Committed(w, r, fails), Winners(w, r))
  {
    var c, s, it, store, peer :=
      ChannelOf(w, r), r.selection, CaseOf(w.selections, r), w.stores[ChannelOf(w, r)], PeerOf(w, r);
    if Winners(w, r) != {s} || (peer.Some? && !store.closed && (it.send || store.buffer == [])) {
      if it.send {
        MetGone(w, c, r, peer.value, it.value, true);
      } else {
        MetGone(w, c, peer.value, r, CaseOf(w.selections, peer.value).value, false);
      }
      hide Met, Gone;
    } else {
      FinishedGone(w, s, r.index, NOTHING, false, true);
      FinishedGone(w, s, r.index, it.zero, false, false);
      FinishedGone(Buffered(w, c, store.buffer + [it.value]), s, r.index, NOTHING, false, false);
      if store.buffer != [] {
        FinishedGone(Buffered(w, c, store.buffer[1..]), s, r.index, store.buffer[0], true, false);
      }
      hide Finished, Met;
    }
  }

  /** The buffers and histories of the channels after a commit. */
  lemma CommittedStores(w: World, r: Ref, fails: bool)
    requires Shaped(w) && Ready(w, r)
    ensures var v, c, it, store :=
      Committed(w, r, fails), ChannelOf(w, r), CaseOf(w.selections, r), w.stores[ChannelOf(w, r)];
            || (v.stores == w.stores && v.sent == w.sent && v.received == w.received)
            || (it.send && PeerOf(w, r).None? && |store.buffer| < store.capacity && v.received == w.received
                && v.stores == w.stores[c := store.(buffer := store.buffer + [it.value])]
                && v.sent == w.sent[c := w.sent[c] + [Transfer(it.value, Some(r))]])
            || (!it.send && store.buffer != [] && v.sent == w.sent
                && v.stores == w.stores[c := store.(buffer := store.buffer[1..])]
                && v.received == w.received[c := w.received[c] + [Transfer(store.buffer[0], Some(r))]])
            || (PeerOf(w, r).Some? && (it.send || store.buffer == []) && v.stores == w.stores
                && exists x: Value, a, b ::
                  v.sent == w.sent[c := w.sent[c] + [Transfer(x, a)]]
                    && v.received == w.received[c := w.received[c] + [Transfer(x, b)]])
  {
  }

  /** A receiver that waits has nothing buffered to overtake. */
  lemma PeerDrained(w: World, r: Ref)
    requires Shaped(w) && Waiting(w) && Drained(w) && OnChannel(w, r) && CaseOf(w.selections, r).send
    requires PeerOf(w, r).Some?
    ensures w.stores[ChannelOf(w, r)].buffer == []
  {
    assert Waits(w.lists, ChannelOf(w, r), PeerOf(w, r).value);
  }

  lemma FifoSame(w: World, v: World)
    requires Fifo(w) && v.stores == w.stores && v.sent == w.sent && v.received == w.received
    ensures Fifo(v)
  {
  }

  lemma FifoMeet(w: World, v: World, c: nat, x: Value, a: Option<Ref>, b: Option<Ref>)
    requires Fifo(w) && c < |w.stores| == |w.sent| == |w.received| && w.stores[c].buffer == [] && v.stores == w.stores
    requires v.sent == w.sent[c := w.sent[c] + [Transfer(x, a)]]
    requires v.received == w.received[c := w.received[c] + [Transfer(x, b)]]
    ensures Fifo(v)
  {
    ValuesAdd(w.sent[c], Transfer(x, a));
    ValuesAdd(w.received[c], Transfer(x, b));
    hide Values;
  }

  lemma FifoPush(w: World, v: World, c: nat, t: Transfer)
    requires Fifo(w) && c < |w.stores| == |w.sent| == |w.received| && |w.stores[c].buffer| < w.stores[c].capacity
    requires v.received == w.received
    requires v.stores == w.stores[c := w.stores[c].(buffer := w.stores[c].buffer + [t.value])]
    requires v.sent == w.sent[c := w.sent[c] + [t]]
    ensures Fifo(v)
  {
    ValuesAdd(w.sent[c], t);
    assert Values(w.received[c]) + (w.stores[c].buffer + [t.value]) ==
      Values(w.received[c]) + w.stores[c].buffer + [t.value];
    hide Values;
  }

  lemma FifoPop(w: World, v: World, c: nat, who: Option<Ref>)
    requires Fifo(w) && c < |w.stores| == |w.sent| == |w.received| && w.stores[c].buffer != [] && v.sent == w.sent
    requires v.stores == w.stores[c := w.stores[c].(buffer := w.stores[c].buffer[1..])]
    requires v.received == w.received[c := w.received[c] + [Transfer(w.stores[c].buffer[0], who)]]
    ensures Fifo(v)
  {
    ValuesAdd(w.received[c], Transfer(w.stores[c].buffer[0], who));
    hide Values;
    var buffer := w.stores[c].buffer;
    assert Values(w.received[c]) + buffer == Values(w.received[c]) + [buffer[0]] + buffer[1..];
  }

  lemma CommittedFifo(w: World, r: Ref, fails: bool)
    requires Shaped(w) && Waiting(w) && Drained(w) && Fifo(w) && Ready(w, r)
    ensures Fifo(Committed(w, r, fails))
  {
    assert OnChannel(w, r) && ChannelOf(w, r) < |w.stores| && |w.sent| == |w.received| == |w.stores|;
    hide Committed, Ready, Waiting, Drained, PeerOf, Shaped, Fifo;
    CommittedStores(w, r, fails);
    var v, c, it, store := Committed(w, r, fails), ChannelOf(w, r), CaseOf(w.selections, r), w.stores[ChannelOf(w, r)];
    if v.stores == w.stores && v.sent == w.sent && v.received == w.received {
      FifoSame(w, v);
    } else if it.send && PeerOf(w, r).None? {
      FifoPush(w, v, c, Transfer(it.value, Some(r)));
    } else if !it.send && store.buffer != [] {
      FifoPop(w, v, c, Some(r));
    } else {
      if it.send {
        PeerDrained(w, r);
      }
      var x: Value, a, b :| v.sent == w.sent[c := w.sent[c] + [Transfer(x, a)]]
        && v.received == w.received[c := w.received[c] + [Transfer(x, b)]];
      FifoMeet(w, v, c, x, a, b);
    }
  }

  lemma NoPeerMeets(w: World, r: Ref, x: Ref)
    requires Shaped(w) && OnChannel(w, r) && PeerOf(w, r).None? && Waits(w.lists, ChannelOf(w, r), x)
    ensures !Meets(w.selections, x, CaseOf(w.selections, r).send, Some(r.selection))
  {
  }

  lemma CommittedDrained(w: World, r: Ref, fails: bool)
    requires Shaped(w) && Waiting(w) && Drained(w) && Ready(w, r)
    ensures Drained(Committed(w, r, fails))
  {
    CommittedStores(w, r, fails);
    CommittedGone(w, r, fails);
    var v, c := Committed(w, r, fails), ChannelOf(w, r);
    forall d: nat, x | Waits(v.lists, d, x) && d < |v.stores| && IsCase(v.selections, x)
      && !CaseOf(v.selections, x).send
      ensures v.stores[d].buffer == []
    {
      assert Waits(w.lists, d, x);
      assert r.selection in Winners(w, r);
      if d == c && CaseOf(w.selections, r).send && PeerOf(w, r).None? {
        NoPeerMeets(w, r, x);
      }
    }
  }

  lemma BufferedPaid(w: World, c: nat, buffer: seq<Value>, s: nat, index: int, value: Value, ok: bool)
    requires Shaped(w) && Paid(w) && c < |w.stores| && s < |w.selections|
    ensures Paid(Finished(Buffered(w, c, buffer), s, index, value, ok, false))
  {
    assert Shaped(Buffered(w, c, buffer)) && Paid(Buffered(w, c, buffer));
    FinishedPaid(Buffered(w, c, buffer), s, index, value, ok, false);
  }

  lemma SamePaid(w: World, v: World)
    requires Paid(w) && v.selections == w.selections && v.total == w.total && v.releases == w.releases
    ensures Paid(v)
  {
  }

  lemma CommittedPaid(w: World, r: Ref, fails: bool)
    requires Shaped(w) && Paid(w) && Ready(w, r)
    ensures Paid(Committed(w, r, fails))
  {
    var c, s, it, store, peer :=
      ChannelOf(w, r), r.selection, CaseOf(w.selections, r), w.stores[ChannelOf(w, r)], PeerOf(w, r);
    hide Finished, Met, Ready, Paid;
    FinishedPaid(w, s, r.index, NOTHING, false, true);
    FinishedPaid(w, s, r.index, it.zero, false, false);
    if peer.Some? {
      MetPaid(w, c, r, peer.value, it.value, true);
      MetPaid(w, c, peer.value, r, CaseOf(w.selections, peer.value).value, false);
    }
    if it.send {
      BufferedPaid(w, c, store.buffer + [it.value], s, r.index, NOTHING, false);
      SamePaid(Finished(Buffered(w, c, store.buffer + [it.value]), s, r.index, NOTHING, false, false),
               Into(Finished(Buffered(w, c, store.buffer + [it.value]), s, r.index, NOTHING, false, false), c,
                    Transfer(it.value, Some(r))));
    } else if store.buffer != [] {
      var v := Finished(Buffered(w, c, store.buffer[1..]), s, r.index, store.buffer[0], true, false);
      BufferedPaid(w, c, store.buffer[1..], s, r.index, store.buffer[0], true);
      SamePaid(v, OutOf(v, c, Transfer(store.buffer[0], Some(r))));
    }
  }

  lemma CommittedOutcomes(w: World, r: Ref, fails: bool)
    requires Shaped(w) && Waiting(w) && Outcomes(w) && Ready(w, r) && !w.selections[r.selection].done
    ensures Outcomes(Committed(w, r, fails))
  {
    var c, s, it, store, peer :=
      ChannelOf(w, r), r.selection, CaseOf(w.selections, r), w.stores[ChannelOf(w, r)], PeerOf(w, r);
    if peer.Some? {
      assert Waits(w.lists, c, peer.value);
      if it.send {
        MetOutcomes(w, c, r, peer.value, true);
      } else {
        MetOutcomes(w, c, peer.value, r, false);
      }
    }
    if it.send {
      QuietOutcomes(w, s, r.index, NOTHING, false, true);
      BufferedOutcomes(w, c, store.buffer + [it.value]);
      GaveOutcomes(Buffered(w, c, store.buffer + [it.value]), r, c);
    } else {
      QuietOutcomes(w, s, r.index, NOTHING, false, true);
      QuietOutcomes(w, s, r.index, it.zero, false, false);
      if store.buffer != [] {
        BufferedOutcomes(w, c, store.buffer[1..]);
        TookOutcomes(Buffered(w, c, store.buffer[1..]), r, c, store.buffer[0]);
      }
    }
    hide Finished, Met, Ready, Outcomes, Waiting;
  }

  lemma BufferedOutcomes(w: World, c: nat, buffer: seq<Value>)
    requires Shaped(w) && Outcomes(w) && c < |w.stores|
    ensures Shaped(Buffered(w, c, buffer)) && Outcomes(Buffered(w, c, buffer))
  {
    var v := Buffered(w, c, buffer);
    forall x, d: nat | d < |v.sent| && d < |v.received|
      ensures Outcome(v, x, d)
    {
      assert Outcome(w, x, d);
    }
  }

  lemma CommittedInv(w: World, r: Ref, fails: bool)
    requires Inv(w) && Ready(w, r) && !w.selections[r.selection].done
    ensures Inv(Committed(w, r, fails))
  {
    CommittedGone(w, r, fails);
    GoneWaiting(w, Committed(w, r, fails), Winners(w, r));
    CommittedFifo(w, r, fails);
    CommittedDrained(w, r, fails);
    CommittedPaid(w, r, fails);
    CommittedOutcomes(w, r, fails);
    hide Committed, Ready, Winners, Gone, Shaped, Waiting, NoMissedMeeting, Drained, Fifo, Outcomes, Paid;
  }

  /** Another open selection waits on the channel to do the opposite. */
  ghost predicate Partner(w: World, r: Ref, q: Ref)
    requires Shaped(w) && OnChannel(w, r)
  {
    && Waits(w.lists, ChannelOf(w, r), q) && IsCase(w.selections, q) && q.selection != r.selection
    && !w.selections[q.selection].done && CaseOf(w.selections, q).send != CaseOf(w.selections, r).send
  }

  /**
    * A case can go ahead if and only if its channel is closed, has room for a send or a value for a receive, or a
    * partner waits there; so a blocked selection has none of these.
    */
  lemma ReadyIff(w: World, r: Ref)
    requires Shaped(w)
    ensures Ready(w, r) <==>
      OnChannel(w, r) && var store := w.stores[ChannelOf(w, r)];
        || store.closed || (exists q :: Partner(w, r, q))
        || (CaseOf(w.selections, r).send && |store.buffer| < store.capacity)
        || (!CaseOf(w.selections, r).send && |store.buffer| > 0)
  {
    if OnChannel(w, r) && PeerOf(w, r).Some? {
      assert Partner(w, r, PeerOf(w, r).value);
    }
  }

  /** The selection is over with this case, this value and this verdict. */
  predicate Reports(w: World, s: nat, index: int, value: Value, ok: bool, failed: bool) {
    && s < |w.selections| && w.selections[s].done && w.selections[s].index == index
    && w.selections[s].value == value && w.selections[s].ok == ok && w.selections[s].failed == failed
  }

  lemma FinishedReports(w: World, s: nat, index: int, value: Value, ok: bool, failed: bool)
    requires s < |w.selections| && s < |w.releases|
    ensures Reports(Finished(w, s, index, value, ok, failed), s, index, value, ok, failed)
    ensures Finished(w, s, index, value, ok, failed).stores == w.stores
  {
  }

  /** Of two selections that end together each keeps its own report. */
  lemma MetReports(w: World, c: nat, from: Ref, into: Ref, value: Value, sending: bool)
    requires Shaped(w) && c < |w.stores| && from.selection < |w.selections| && into.selection < |w.selections|
    requires from.selection != into.selection
    ensures var v := Met(w, c, from, into, value, sending);
            && Reports(v, from.selection, from.index, NOTHING, false, false)
            && Reports(v, into.selection, into.index, value, true, false) && v.stores == w.stores
  {
  }

  /**
    * What a case that goes ahead reports. A send fails on a closed channel, hands its value to a waiting receiver, or
    * appends it; a receive takes the oldest buffered value, else the value of a waiting sender, else, on a closed
    * channel, the zero value without ok.
    */
  ghost predicate CommitReported(w: World, v: World, r: Ref, fails: bool)
    requires Shaped(w) && Ready(w, r)
  {
    var c, it, store, peer := ChannelOf(w, r), CaseOf(w.selections, r), w.stores[ChannelOf(w, r)], PeerOf(w, r);
    var after := if c < |v.stores| then v.stores[c].buffer else [];
    if (if it.send then store.closed || (peer.None? && fails) else store.buffer != [] && fails) then
      Reports(v, r.selection, r.index, NOTHING, false, true) && after == store.buffer
    else if it.send && peer.Some? then
      && Reports(v, r.selection, r.index, NOTHING, false, false) && after == store.buffer
      && Reports(v, peer.value.selection, peer.value.index, it.value, true, false)
    else if it.send then Reports(v, r.selection, r.index, NOTHING, false, false) && after == store.buffer + [it.value]
    else if store.buffer != [] then
      Reports(v, r.selection, r.index, store.buffer[0], true, false) && store.buffer == [store.buffer[0]] + after
    else if store.closed then Reports(v, r.selection, r.index, it.zero, false, false) && after == []
    else
      && peer.Some? && Reports(v, r.selection, r.index, CaseOf(w.selections, peer.value).value, true, false)
      && Reports(v, peer.value.selection, peer.value.index, NOTHING, false, false) && after == []
  }

  lemma CommittedReports(w: World, r: Ref, fails: bool)
    requires Shaped(w) && Ready(w, r)
    ensures CommitReported(w, Committed(w, r, fails), r, fails)
  {
    var c, s, it, store, peer :=
      ChannelOf(w, r), r.selection, CaseOf(w.selections, r), w.stores[ChannelOf(w, r)], PeerOf(w, r);
    if peer.Some? {
      MetReports(w, c, r, peer.value, it.value, true);
      MetReports(w, c, peer.value, r, CaseOf(w.selections, peer.value).value, false);
    }
    FinishedReports(w, s, r.index, NOTHING, false, true);
    FinishedReports(w, s, r.index, it.zero, false, false);
    FinishedReports(Buffered(w, c, store.buffer + [it.value]), s, r.index, NOTHING, false, false);
    if store.buffer != [] {
      FinishedReports(Buffered(w, c, store.buffer[1..]), s, r.index, store.buffer[0], true, false);
    }
    hide Finished, Met;
  }

  // ----- registration and withdrawal -----

  /** No case of the selection can go ahead. */
  ghost predicate Blocked(w: World, s: nat)
    requires Shaped(w)
  {
    forall r: Ref | r.selection == s :: !Ready(w, r)
  }

  /** What becomes of a new selection: a ready case goes ahead; only when there is none does it end or wait. */
  ghost predicate Decided(w: World, v: World, s: nat, hasDefault: bool, fails: bool)
    requires Shaped(w) && s < |w.selections|
  {
    if Blocked(w, s) then v == if hasDefault then Finished(w, s, -1, NOTHING, false, false) else Registered(w, s)
    else exists k: nat :: Ready(w, Ref(s, k)) && v == Committed(w, Ref(s, k), fails)
  }

  lemma DecidedByCommit(w: World, v: World, s: nat, hasDefault: bool, fails: bool)
    requires Shaped(w) && s < |w.selections|
    requires exists k: nat :: Ready(w, Ref(s, k)) && v == Committed(w, Ref(s, k), fails)
    ensures Decided(w, v, s, hasDefault, fails) && !Blocked(w, s)
  {
    hide Ready, Committed, Shaped;
  }

  lemma DecidedByRest(w: World, s: nat, hasDefault: bool, fails: bool)
    requires Shaped(w) && s < |w.selections| && Blocked(w, s)
    ensures Decided(w, if hasDefault then Finished(w, s, -1, NOTHING, false, false) else Registered(w, s), s,
                    hasDefault, fails)
  {
    hide Ready, Committed, Blocked;
  }

  /** A selection that ended waits nowhere and has nothing charged. */
  lemma FinishedSelf(w: World, s: nat, index: int, value: Value, ok: bool, failed: bool)
    requires s < |w.selections| && s < |w.releases|
    ensures var v := Finished(w, s, index, value, ok, failed);
            && |v.selections| == |w.selections| && v.selections[s].done && !v.selections[s].charged
            && v.selections[s].cases == w.selections[s].cases
  {
  }

  ghost predicate Unregistered(w: World, s: nat) {
    forall c: nat, r | Waits(w.lists, c, r) :: r.selection != s
  }

  lemma RegisteredWaits(w: World, s: nat, c: nat, r: Ref)
    requires Shaped(w) && s < |w.selections|
    ensures Waits(Registered(w, s).lists, c, r) <==>
      Waits(w.lists, c, r) || (c < |w.lists| && r.selection == s && OnChannel(w, r) && ChannelOf(w, r) == c)
  {
    if c < |w.lists| {
      assert Registered(w, s).lists[c] == w.lists[c] + Own(w.selections[s].cases, s, c, |w.selections[s].cases|);
    }
  }

  ghost predicate Published(w: World, v: World, s: nat) {
    && v == w.(lists := v.lists) && |v.lists| == |w.lists|
    && forall c: nat, r :: Waits(v.lists, c, r) <==>
      Waits(w.lists, c, r) || (c < |w.lists| && r.selection == s && OnChannel(w, r) && ChannelOf(w, r) == c)
  }

  lemma RegisteredMeetings(w: World, v: World, s: nat)
    requires Shaped(w) && Waiting(w) && NoMissedMeeting(w) && Blocked(w, s) && Published(w, v, s)
    ensures NoMissedMeeting(v)
  {
    forall c: nat, a, b | Waits(v.lists, c, a) && Waits(v.lists, c, b) && a.selection != b.selection
      && IsCase(v.selections, a) && IsCase(v.selections, b)
      ensures CaseOf(v.selections, a).send == CaseOf(v.selections, b).send
    {
      if a.selection == s {
        BlockedMeetsNobody(w, a, b, c);
      } else if b.selection == s {
        BlockedMeetsNobody(w, b, a, c);
      }
    }
  }

  lemma BlockedMeetsNobody(w: World, a: Ref, b: Ref, c: nat)
    requires Shaped(w) && Waiting(w) && OnChannel(w, a) && ChannelOf(w, a) == c && !Ready(w, a) && Waits(w.lists, c, b)
    requires a.selection != b.selection
    ensures IsCase(w.selections, b) && CaseOf(w.selections, a).send == CaseOf(w.selections, b).send
  {
    assert PeerOf(w, a).None?;
    assert !Meets(w.selections, b, CaseOf(w.selections, a).send, Some(a.selection));
  }

  lemma RegisteredDrained(w: World, v: World, s: nat)
    requires Shaped(w) && Drained(w) && Blocked(w, s) && Published(w, v, s)
    ensures Drained(v)
  {
    forall c: nat, r | Waits(v.lists, c, r) && c < |v.stores| && IsCase(v.selections, r)
      && !CaseOf(v.selections, r).send
      ensures v.stores[c].buffer == []
    {
      if !Waits(w.lists, c, r) {
        assert !Ready(w, r);
      }
    }
  }

  lemma RegisteredPublished(w: World, s: nat)
    requires Shaped(w) && s < |w.selections|
    ensures Published(w, Registered(w, s), s)
  {
    forall c: nat, r
      ensures Waits(Registered(w, s).lists, c, r)
         <==> Waits(w.lists, c, r) || (c < |w.lists| && r.selection == s && OnChannel(w, r) && ChannelOf(w, r) == c)
    {
      RegisteredWaits(w, s, c, r);
    }
  }

  lemma RegisteredAllWait(w: World, v: World, s: nat)
    requires Shaped(w) && Waiting(w) && s < |w.selections| && !w.selections[s].done && w.selections[s].charged
    requires Published(w, v, s)
    ensures Shaped(v) && Waiting(v)
  {
    forall a, b | OnChannel(v, a) && OnChannel(v, b) && a.selection == b.selection && Waits(v.lists, ChannelOf(v, a), a)
      ensures Waits(v.lists, ChannelOf(v, b), b)
    {
      assert OnChannel(w, a) && OnChannel(w, b);
    }
    hide Waits;
  }

  lemma SameOutcomes(w: World, v: World)
    requires Outcomes(w) && v.selections == w.selections && v.sent == w.sent && v.received == w.received
    ensures Outcomes(v)
  {
    forall r, c: nat | c < |v.sent| && c < |v.received|
      ensures Outcome(v, r, c)
    {
      assert Outcome(w, r, c);
    }
  }

  /**
    * Publishing all cases of a selection that cannot go ahead leaves no meeting undone and nothing buffered
    * unreceived.
    */
  lemma RegisteredInv(w: World, s: nat)
    requires Inv(w) && s < |w.selections| && !w.selections[s].done && w.selections[s].charged && Blocked(w, s)
    ensures Inv(Registered(w, s))
  {
    var v := Registered(w, s);
    RegisteredPublished(w, s);
    RegisteredAllWait(w, v, s);
    RegisteredMeetings(w, v, s);
    RegisteredDrained(w, v, s);
    SameOutcomes(w, v);
    SamePaid(w, v);
    assert Fifo(v);
    hide Shaped, Waiting, NoMissedMeeting, Drained, Outcomes, Paid, Fifo, Blocked;
  }

  lemma WithdrawnGone(w: World, s: nat)
    requires Shaped(w) && s < |w.selections|
    ensures Gone(w, Withdrawn(w, s), {s}) && Unregistered(Withdrawn(w, s), s)
  {
    assert forall c: nat | c < |w.lists| :: Withdrawn(w, s).lists[c] == Others(w.lists[c], s);
  }

  lemma WithdrawnPaid(w: World, s: nat)
    requires Shaped(w) && Paid(w) && s < |w.selections|
    ensures Paid(Withdrawn(w, s))
  {
    TotalUpdate(w.selections, s, Withdrawn(w, s).selections[s]);
  }

  lemma WithdrawnOutcomes(w: World, s: nat)
    requires Shaped(w) && Outcomes(w) && s < |w.selections|
    ensures Outcomes(Withdrawn(w, s))
  {
    var v := Withdrawn(w, s);
    forall r, c: nat | c < |v.sent| && c < |v.received|
      ensures Outcome(v, r, c)
    {
      assert Outcome(w, r, c);
    }
  }

  lemma WithdrawnInv(w: World, s: nat)
    requires Inv(w) && s < |w.selections|
    ensures Inv(Withdrawn(w, s)) && Unregistered(Withdrawn(w, s), s)
  {
    WithdrawnGone(w, s);
    GoneWaiting(w, Withdrawn(w, s), {s});
    WithdrawnPaid(w, s);
    WithdrawnOutcomes(w, s);
    hide Waiting, NoMissedMeeting, Paid, Outcomes;
  }

  lemma DefaultInv(w: World, s: nat)
    requires Inv(w) && s < |w.selections| && !w.selections[s].done
    ensures Inv(Finished(w, s, -1, NOTHING, false, false))
  {
    var v := Finished(w, s, -1, NOTHING, false, false);
    FinishedGone(w, s, -1, NOTHING, false, false);
    GoneWaiting(w, v, {s});
    FinishedPaid(w, s, -1, NOTHING, false, false);
    QuietOutcomes(w, s, -1, NOTHING, false, false);
    hide Waiting, NoMissedMeeting, Paid, Outcomes;
  }

  // ----- operations outside a select -----

  /** A value offered without waiting goes to the first waiting receiver, or into the buffer if there is room. */
  function Offered(w: World, c: nat, value: Value, fails: bool): World
    requires Shaped(w) && c < |w.stores|
  {
    var store, peer := w.stores[c], Peer(w.selections, w.lists[c], true, None);
    if store.closed then w
    else if peer.Some? then
      OutOf(Into(Finished(w, peer.value.selection, peer.value.index, value, true, false), c, Transfer(value, None)), c,
        Transfer(value, peer))
    else if store.capacity <= |store.buffer| || fails then w
    else Into(Buffered(w, c, store.buffer + [value]), c, Transfer(value, None))
  }

  /**
    * A value asked for without waiting comes from the buffer, or from the first waiting sender if nothing is
    * buffered.
    */
  function Polled(w: World, c: nat, fails: bool): World
    requires Shaped(w) && c < |w.stores|
  {
    var store, peer := w.stores[c], Peer(w.selections, w.lists[c], false, None);
    if store.buffer != [] then
      if fails then w else OutOf(Buffered(w, c, store.buffer[1..]), c, Transfer(store.buffer[0], None))
    else if peer.Some? && !store.closed then
      var value := CaseOf(w.selections, peer.value).value;
      OutOf(Into(Finished(w, peer.value.selection, peer.value.index, NOTHING, false, false), c, Transfer(value, peer)),
        c, Transfer(value, None))
    else w
  }

  lemma OutsideOutcome(w: World, c: nat, value: Value, r: Ref, d: nat)
    requires Shaped(w) && Outcomes(w) && c < |w.stores| && d < |w.stores|
    ensures Outcome(OutOf(w, c, Transfer(value, None)), r, d) && Outcome(Into(w, c, Transfer(value, None)), r, d)
  {
    assert Outcome(w, r, d);
    ThroughAdd(w.received[c], Transfer(value, None), r);
    ThroughAdd(w.sent[c], Transfer(value, None), r);
    SameVerdict(w, OutOf(w, c, Transfer(value, None)), r, d);
    SameVerdict(w, Into(w, c, Transfer(value, None)), r, d);
    hide Through, Outcomes, Shaped, Took, Gave;
  }

  /** Who won depends on the selections alone. */
  lemma SameVerdict(w: World, v: World, r: Ref, d: nat)
    requires v.selections == w.selections
    ensures (Took(v, r, d) <==> Took(w, r, d)) && (Gave(v, r, d) <==> Gave(w, r, d))
  {
  }

  lemma OutsideOutcomes(w: World, c: nat, value: Value)
    requires Shaped(w) && Outcomes(w) && c < |w.stores|
    ensures Outcomes(OutOf(w, c, Transfer(value, None))) && Outcomes(Into(w, c, Transfer(value, None)))
  {
    hide Outcome;
    forall r, d: nat | d < |w.sent| && d < |w.received|
      ensures Outcome(OutOf(w, c, Transfer(value, None)), r, d) && Outcome(Into(w, c, Transfer(value, None)), r, d)
    {
      OutsideOutcome(w, c, value, r, d);
    }
  }

  lemma OfferedOutcomes(w: World, c: nat, value: Value, fails: bool)
    requires Inv(w) && c < |w.stores|
    ensures Outcomes(Offered(w, c, value, fails))
  {
    var store, peer := w.stores[c], Peer(w.selections, w.lists[c], true, None);
    if store.closed {
    } else if peer.Some? {
      assert Waits(w.lists, c, peer.value);
      OutsideOutcomes(w, c, value);
      var u := Into(w, c, Transfer(value, None));
      TookOutcomes(u, peer.value, c, value);
      assert Offered(w, c, value, fails) ==
        OutOf(Finished(u, peer.value.selection, peer.value.index, value, true, false), c, Transfer(value, peer));
    } else {
      BufferedOutcomes(w, c, store.buffer + [value]);
      OutsideOutcomes(Buffered(w, c, store.buffer + [value]), c, value);
    }
  }

  lemma PolledOutcomes(w: World, c: nat, fails: bool)
    requires Inv(w) && c < |w.stores|
    ensures Outcomes(Polled(w, c, fails))
  {
    var store, peer := w.stores[c], Peer(w.selections, w.lists[c], false, None);
    if store.buffer != [] {
      BufferedOutcomes(w, c, store.buffer[1..]);
      OutsideOutcomes(Buffered(w, c, store.buffer[1..]), c, store.buffer[0]);
    } else if peer.Some? {
      assert Waits(w.lists, c, peer.value);
      var value := CaseOf(w.selections, peer.value).value;
      GaveOutcomes(w, peer.value, c);
      var u := Into(Finished(w, peer.value.selection, peer.value.index, NOTHING, false, false), c,
        Transfer(value, peer));
      FinishedGone(w, peer.value.selection, peer.value.index, NOTHING, false, false);
      assert Shaped(u);
      OutsideOutcomes(u, c, value);
    }
  }

  lemma OfferedRest(w: World, c: nat, value: Value, fails: bool)
    requires Inv(w) && c < |w.stores|
    ensures var v := Offered(w, c, value, fails); Shaped(v) && Waiting(v) && NoMissedMeeting(v) && Paid(v)
  {
    var store, peer := w.stores[c], Peer(w.selections, w.lists[c], true, None);
    var v := Offered(w, c, value, fails);
    if v != w && peer.Some? {
      assert Waits(w.lists, c, peer.value);
      var u := Finished(w, peer.value.selection, peer.value.index, value, true, false);
      FinishedGone(w, peer.value.selection, peer.value.index, value, true, false);
      FinishedPaid(w, peer.value.selection, peer.value.index, value, true, false);
      hide Finished, Outcomes, Drained, Fifo, Paid, Waiting, NoMissedMeeting;
      assert Gone(w, v, {peer.value.selection});
      GoneWaiting(w, v, {peer.value.selection});
      SamePaid(u, v);
    } else {
      assert Gone(w, v, {});
      GoneWaiting(w, v, {});
      hide Finished, Outcomes, Drained, Fifo;
    }
  }

  lemma OfferedFifo(w: World, c: nat, value: Value, fails: bool)
    requires Inv(w) && c < |w.stores|
    ensures Fifo(Offered(w, c, value, fails)) && Drained(Offered(w, c, value, fails))
  {
    var store, peer := w.stores[c], Peer(w.selections, w.lists[c], true, None);
    var v := Offered(w, c, value, fails);
    assert Values(w.sent[c]) == Values(w.received[c]) + store.buffer;
    ValuesAdd(w.sent[c], Transfer(value, None));
    ValuesAdd(w.received[c], Transfer(value, peer));
    if v != w {
      if peer.Some? {
        assert Waits(w.lists, c, peer.value);
        assert store.buffer == [];
        FinishedGone(w, peer.value.selection, peer.value.index, value, true, false);
      }
      forall d: nat, x | Waits(v.lists, d, x) && d < |v.stores| && IsCase(v.selections, x)
        && !CaseOf(v.selections, x).send
        ensures v.stores[d].buffer == []
      {
        assert Waits(w.lists, d, x);
        assert d == c && peer.None? ==> !Meets(w.selections, x, true, None);
      }
    }
  }

  lemma OfferedInv(w: World, c: nat, value: Value, fails: bool)
    requires Inv(w) && c < |w.stores|
    ensures Inv(Offered(w, c, value, fails))
  {
    OfferedRest(w, c, value, fails);
    OfferedFifo(w, c, value, fails);
    OfferedOutcomes(w, c, value, fails);
    hide Offered, Shaped, Waiting, NoMissedMeeting, Drained, Fifo, Outcomes, Paid;
  }

  lemma PolledRest(w: World, c: nat, fails: bool)
    requires Inv(w) && c < |w.stores|
    ensures var v := Polled(w, c, fails); Shaped(v) && Waiting(v) && NoMissedMeeting(v) && Paid(v)
  {
    var store, peer := w.stores[c], Peer(w.selections, w.lists[c], false, None);
    var v := Polled(w, c, fails);
    if v != w && store.buffer == [] {
      assert Waits(w.lists, c, peer.value);
      var u := Finished(w, peer.value.selection, peer.value.index, NOTHING, false, false);
      FinishedGone(w, peer.value.selection, peer.value.index, NOTHING, false, false);
      FinishedPaid(w, peer.value.selection, peer.value.index, NOTHING, false, false);
      hide Finished, Outcomes, Drained, Fifo, Paid, Waiting, NoMissedMeeting;
      assert Gone(w, v, {peer.value.selection});
      GoneWaiting(w, v, {peer.value.selection});
      SamePaid(u, v);
    } else {
      assert Gone(w, v, {});
      GoneWaiting(w, v, {});
      hide Finished, Outcomes, Drained, Fifo;
    }
  }

  lemma PolledFifo(w: World, c: nat, fails: bool)
    requires Inv(w) && c < |w.stores|
    ensures Fifo(Polled(w, c, fails)) && Drained(Polled(w, c, fails))
  {
    var store, peer := w.stores[c], Peer(w.selections, w.lists[c], false, None);
    var v := Polled(w, c, fails);
    assert Values(w.sent[c]) == Values(w.received[c]) + store.buffer;
    if v != w {
      if store.buffer != [] {
        ValuesAdd(w.received[c], Transfer(store.buffer[0], None));
      } else {
        var value := CaseOf(w.selections, peer.value).value;
        ValuesAdd(w.sent[c], Transfer(value, peer));
        ValuesAdd(w.received[c], Transfer(value, None));
        FinishedGone(w, peer.value.selection, peer.value.index, NOTHING, false, false);
      }
      forall d: nat, x | Waits(v.lists, d, x) && d < |v.stores| && IsCase(v.selections, x)
        && !CaseOf(v.selections, x).send
        ensures v.stores[d].buffer == []
      {
        assert Waits(w.lists, d, x);
      }
    }
  }

  lemma PolledInv(w: World, c: nat, fails: bool)
    requires Inv(w) && c < |w.stores|
    ensures Inv(Polled(w, c, fails))
  {
    PolledRest(w, c, fails);
    PolledFifo(w, c, fails);
    PolledOutcomes(w, c, fails);
    hide Polled, Shaped, Waiting, NoMissedMeeting, Drained, Fifo, Outcomes, Paid;
  }

  function Shut(w: World, c: nat): World
    requires c < |w.stores|
  {
    w.(stores := w.stores[c := w.stores[c].(closed := true)])
  }

  /** Whoever waits on a channel can go ahead once it is closed. */
  lemma ShutReady(w: World, c: nat, r: Ref)
    requires Inv(w) && c < |w.stores| && Waits(w.lists, c, r)
    ensures Shaped(Shut(w, c)) && Ready(Shut(w, c), r)
  {
  }

  lemma ShutInv(w: World, c: nat)
    requires Inv(w) && c < |w.stores|
    ensures Inv(Shut(w, c))
    ensures forall r | Waits(w.lists, c, r) :: Ready(Shut(w, c), r)
  {
    var v := Shut(w, c);
    forall r | Waits(w.lists, c, r)
      ensures Ready(v, r)
    {
      ShutReady(w, c, r);
    }
    assert Gone(w, v, {});
    GoneWaiting(w, v, {});
    SameOutcomes(w, v);
    hide Waiting, NoMissedMeeting, Outcomes, Gone;
  }

  /** A new selection is charged before anything else happens to it. */
  function Charged(w: World, cases: seq<Case>): World {
    w.(selections := w.selections + [Selection(cases, -1, false, NOTHING, false, false, true, Bytes(|cases|))],
    total := w.total + Bytes(|cases|), releases := w.releases + [0])
  }

  lemma ChargedOutcomes(w: World, cases: seq<Case>)
    requires Outcomes(w)
    ensures Outcomes(Charged(w, cases))
  {
    var v := Charged(w, cases);
    forall r, c: nat | c < |v.sent| && c < |v.received|
      ensures Outcome(v, r, c)
    {
      assert Outcome(w, r, c);
      assert Took(v, r, c) == Took(w, r, c) && Gave(v, r, c) == Gave(w, r, c);
    }
    hide Outcome;
  }

  lemma ChargedWaiting(w: World, cases: seq<Case>)
    requires Shaped(w) && Waiting(w) && NoMissedMeeting(w) && Drained(w)
    ensures var v := Charged(w, cases);
      Waiting(v) && NoMissedMeeting(v) && Drained(v) && Unregistered(v, |w.selections|)
  {
    var v := Charged(w, cases);
    forall a, b | OnChannel(v, a) && OnChannel(v, b) && a.selection == b.selection && Waits(v.lists, ChannelOf(v, a), a)
      ensures Waits(v.lists, ChannelOf(v, b), b)
    {
      assert OnChannel(w, a) && OnChannel(w, b);
    }
    hide Waits;
  }

  lemma ChargedPaid(w: World, cases: seq<Case>)
    requires Shaped(w) && Paid(w)
    ensures Paid(Charged(w, cases))
  {
    assert Charged(w, cases).selections[..|w.selections|] == w.selections;
  }

  lemma ChargedInv(w: World, cases: seq<Case>)
    requires Inv(w) && forall k | 0 <= k < |cases| && cases[k].channel.Some? :: cases[k].channel.value < |w.stores|
    ensures Inv(Charged(w, cases)) && Unregistered(Charged(w, cases), |w.selections|)
  {
    ChargedOutcomes(w, cases);
    ChargedWaiting(w, cases);
    ChargedPaid(w, cases);
    hide Waiting, NoMissedMeeting, Drained, Outcomes, Paid, Unregistered;
  }
}
