/** Selections and channels with their lists linked through the cases, updated in place. */
module SelectExchange {
  import opened Prelude
  import opened SelectLists
  import opened Select

  function StoreOf(ch: Channel): Store {
    Store(ch.capacity, ch.buffer, ch.closed)
  }

  function Stores(channels: seq<Channel>): seq<Store> {
    seq(|channels|, c requires 0 <= c < |channels| => StoreOf(channels[c]))
  }

  /** The links of every case agree with the list of its channel. */
  ghost predicate Core(selections: seq<Selection>, channels: seq<Channel>, links: map<Ref, Link>,
      lists: seq<seq<Ref>>) {
    && |lists| == |channels|
    && (forall c: nat | c < |channels| :: Linked(links, channels[c].head, channels[c].tail, lists[c]))
    && (forall c: nat, r | Waits(lists, c, r) :: IsCase(selections, r) && CaseOf(selections, r).channel == Some(c))
    && (forall r | IsCase(selections, r) ::
          && r in links
          && (links[r].registered ==>
            CaseOf(selections, r).channel.Some? && Waits(lists, CaseOf(selections, r).channel.value, r))
          && (!links[r].registered ==> links[r] == DETACHED))
  }

  lemma CoreCases(before: seq<Selection>, after: seq<Selection>, channels: seq<Channel>, links: map<Ref, Link>,
      lists: seq<seq<Ref>>)
    requires Core(before, channels, links, lists) && |after| == |before|
    requires forall s | 0 <= s < |before| :: after[s].cases == before[s].cases
    ensures Core(after, channels, links, lists)
  {
  }

  lemma CoreStores(selections: seq<Selection>, channels: seq<Channel>, after: seq<Channel>, links: map<Ref, Link>,
      lists: seq<seq<Ref>>)
    requires Core(selections, channels, links, lists) && |after| == |channels|
    requires forall c | 0 <= c < |channels| :: after[c].head == channels[c].head && after[c].tail == channels[c].tail
    ensures Core(selections, after, links, lists)
  {
    hide Linked;
  }

  /** Registered cases are the members of the lists. */
  lemma ListedRegistered(selections: seq<Selection>, channels: seq<Channel>, links: map<Ref, Link>,
      lists: seq<seq<Ref>>, c: nat, r: Ref)
    requires Core(selections, channels, links, lists) && Waits(lists, c, r)
    ensures r in links && links[r].registered
  {
    var i :| 0 <= i < |lists[c]| && lists[c][i] == r;
    assert Node(links, lists[c], i);
  }

  /** The lists without one case. */
  function Dropped(lists: seq<seq<Ref>>, c: nat, i: nat): seq<seq<Ref>>
    requires c < |lists| && i < |lists[c]|
  {
    lists[c := Without(lists[c], i)]
  }

  function Relinked(ch: Channel, link: Link): Channel {
    ch.(head := if link.previous.None? then link.next else ch.head, tail := if link.next.None? then link.previous
      else ch.tail)
  }

  lemma UnlinkOthers(selections: seq<Selection>, channels: seq<Channel>, links: map<Ref, Link>, lists: seq<seq<Ref>>,
      c: nat, i: nat, d: nat)
    requires Core(selections, channels, links, lists) && c < |lists| && i < |lists[c]| && d < |lists| && d != c
    ensures Unlinked.requires(links, lists[c][i])
    ensures Linked(Unlinked(links, lists[c][i]), channels[d].head, channels[d].tail, lists[d])
  {
    NeighboursListed(links, channels[c].head, channels[c].tail, lists[c], i);
    var after := Unlinked(links, lists[c][i]);
    hide Unlinked, Linked;
    forall r | r in lists[d]
      ensures r in after && r in links && after[r] == links[r]
    {
      assert Waits(lists, d, r);
      assert Waits(lists, c, r) ==> c == d;
      ListedRegistered(selections, channels, links, lists, d, r);
      UnlinkedElsewhere(links, channels[c].head, channels[c].tail, lists[c], i, r);
    }
    LinkedSame(links, after, channels[d].head, channels[d].tail, lists[d]);
  }

  lemma UnlinkLinks(selections: seq<Selection>, channels: seq<Channel>, links: map<Ref, Link>, lists: seq<seq<Ref>>,
      c: nat, i: nat, r: Ref)
    requires Core(selections, channels, links, lists) && c < |lists| && i < |lists[c]| && IsCase(selections, r)
    requires Unlinked.requires(links, lists[c][i])
    ensures var after, rest, it := Unlinked(links, lists[c][i]), Dropped(lists, c, i), CaseOf(selections, r);
            r in after && (after[r].registered ==> it.channel.Some? && Waits(rest, it.channel.value, r))
              && (!after[r].registered ==> after[r] == DETACHED)
  {
    NeighboursListed(links, channels[c].head, channels[c].tail, lists[c], i);
    if r != lists[c][i] {
      if r in lists[c] {
        var j :| 0 <= j < |lists[c]| && lists[c][j] == r;
        UnlinkedNode(links, channels[c].head, channels[c].tail, lists[c], i, j);
        assert Waits(lists, c, r);
      } else {
        UnlinkedElsewhere(links, channels[c].head, channels[c].tail, lists[c], i, r);
        hide Unlinked;
      }
    }
  }

  lemma UnlinkCore(selections: seq<Selection>, channels: seq<Channel>, links: map<Ref, Link>, lists: seq<seq<Ref>>,
      c: nat, i: nat)
    requires Core(selections, channels, links, lists) && c < |lists| && i < |lists[c]|
    ensures Unlinked.requires(links, lists[c][i])
    ensures Core(selections, channels[c := Relinked(channels[c], links[lists[c][i]])], Unlinked(links, lists[c][i]),
      Dropped(lists, c, i))
  {
    NeighboursListed(links, channels[c].head, channels[c].tail, lists[c], i);
    var after, rest, chs := Unlinked(links, lists[c][i]), Dropped(lists, c, i),
      channels[c := Relinked(channels[c], links[lists[c][i]])];
    forall d: nat | d < |chs|
      ensures Linked(after, chs[d].head, chs[d].tail, rest[d])
    {
      if d == c {
        UnlinkedAt(links, channels[c].head, channels[c].tail, lists[c], i);
      } else {
        UnlinkOthers(selections, channels, links, lists, c, i, d);
      }
    }
    forall r | IsCase(selections, r)
      ensures r in after
      ensures (after[r].registered ==>
        CaseOf(selections, r).channel.Some? && Waits(rest, CaseOf(selections, r).channel.value, r))
      ensures !after[r].registered ==> after[r] == DETACHED
    {
      UnlinkLinks(selections, channels, links, lists, c, i, r);
    }
    hide Unlinked, Linked;
    forall d: nat, r | Waits(rest, d, r)
      ensures Waits(lists, d, r)
    {
    }
  }

  lemma DroppedWaits(selections: seq<Selection>, channels: seq<Channel>, links: map<Ref, Link>, lists: seq<seq<Ref>>,
      c: nat, i: nat)
    requires Core(selections, channels, links, lists) && c < |lists| && i < |lists[c]|
    ensures forall d: nat, x :: Waits(Dropped(lists, c, i), d, x) <==> Waits(lists, d, x) && x != lists[c][i]
    ensures forall d: nat | d < |lists| ::
      Others(Dropped(lists, c, i)[d], lists[c][i].selection) == Others(lists[d], lists[c][i].selection)
  {
    var r := lists[c][i];
    OthersWithout(lists[c], i, r.selection);
    assert Waits(lists, c, r);
    assert Linked(links, channels[c].head, channels[c].tail, lists[c]);
    forall d: nat, x
      ensures Waits(Dropped(lists, c, i), d, x) <==> Waits(lists, d, x) && x != r
    {
      if d == c {
        assert x in Without(lists[c], i) <==> x in lists[c] && x != r;
      } else {
        assert Waits(lists, d, r) ==> d == c;
      }
    }
  }

  lemma StoresSame(channels: seq<Channel>, c: nat, ch: Channel)
    requires c < |channels| && StoreOf(ch) == StoreOf(channels[c])
    ensures Stores(channels[c := ch]) == Stores(channels)
  {
  }

  lemma AppendCore(selections: seq<Selection>, channels: seq<Channel>, links: map<Ref, Link>, lists: seq<seq<Ref>>,
      c: nat, r: Ref)
    requires Core(selections, channels, links, lists) && c < |lists| && IsCase(selections, r)
    requires CaseOf(selections, r).channel == Some(c) && !links[r].registered
    ensures Appended.requires(links, channels[c].tail, r)
    ensures Core(selections, channels[c :=
      channels[c].(head := if channels[c].tail.None? then Some(r) else channels[c].head, tail := Some(r))],
                 Appended(links, channels[c].tail, r), lists[c := lists[c] + [r]])
  {
    if Waits(lists, c, r) {
      ListedRegistered(selections, channels, links, lists, c, r);
    }
    var tail := channels[c].tail;
    AppendedAt(links, channels[c].head, tail, lists[c], r);
    var after := Appended(links, tail, r);
    var chs, more := channels[c :=
      channels[c].(head := if tail.None? then Some(r) else channels[c].head, tail := Some(r))],
        lists[c := lists[c] + [r]];
    forall d: nat | d < |chs|
      ensures Linked(after, chs[d].head, chs[d].tail, more[d])
    {
      if d != c {
        forall x | x in lists[d]
          ensures x in after && x in links && after[x] == links[x]
        {
          assert Waits(lists, d, x);
          assert Waits(lists, c, x) ==> c == d;
          ListedRegistered(selections, channels, links, lists, d, x);
        }
        LinkedSame(links, after, channels[d].head, channels[d].tail, lists[d]);
      }
    }
    forall x | IsCase(selections, x)
      ensures x in after
      ensures (after[x].registered ==>
        CaseOf(selections, x).channel.Some? && Waits(more, CaseOf(selections, x).channel.value, x))
      ensures !after[x].registered ==> after[x] == DETACHED
    {
      if tail == Some(x) {
        assert Waits(lists, c, x);
        ListedRegistered(selections, channels, links, lists, c, x);
      }
    }
    hide Linked;
    forall d: nat, x | Waits(more, d, x)
      ensures Waits(lists, d, x) || (d == c && x == r)
    {
    }
  }

  lemma Place(selections: seq<Selection>, channels: seq<Channel>, links: map<Ref, Link>, lists: seq<seq<Ref>>, r: Ref)
      returns (i: nat)
    requires Core(selections, channels, links, lists) && IsCase(selections, r) && r in links && links[r].registered
    ensures CaseOf(selections, r).channel.Some?
    ensures var c := CaseOf(selections, r).channel.value;
      c < |lists| == |channels| && i < |lists[c]| && lists[c][i] == r
  {
    var c := CaseOf(selections, r).channel.value;
    assert Waits(lists, c, r);
    i :| 0 <= i < |lists[c]| && lists[c][i] == r;
  }

  /** What unlinking one case does to links, channels and lists. */
  lemma UnlinkAll(selections: seq<Selection>, channels: seq<Channel>, links: map<Ref, Link>, lists: seq<seq<Ref>>,
      r: Ref, i: nat)
    requires Core(selections, channels, links, lists) && IsCase(selections, r) && CaseOf(selections, r).channel.Some?
    requires CaseOf(selections, r).channel.value < |lists|
    requires i < |lists[CaseOf(selections, r).channel.value]| && lists[CaseOf(selections, r).channel.value][i] == r
    ensures Unlinked.requires(links, r) && |channels| == |lists|
    ensures var c := CaseOf(selections, r).channel.value;
            && Core(selections, channels[c := Relinked(channels[c], links[r])], Unlinked(links, r),
              Dropped(lists, c, i))
            && Stores(channels[c := Relinked(channels[c], links[r])]) == Stores(channels)
            && (forall d: nat, x :: Waits(Dropped(lists, c, i), d, x) <==> Waits(lists, d, x) && x != r)
            && (forall d: nat | d < |lists| ::
              Others(Dropped(lists, c, i)[d], r.selection) == Others(lists[d], r.selection))
  {
    var c := CaseOf(selections, r).channel.value;
    UnlinkCore(selections, channels, links, lists, c, i);
    DroppedWaits(selections, channels, links, lists, c, i);
    StoresSame(channels, c, Relinked(channels[c], links[r]));
    hide Core, Stores, Others, Waits;
  }

  lemma NoneBefore(selections: seq<Selection>, channels: seq<Channel>, links: map<Ref, Link>, lists: seq<seq<Ref>>,
      r: Ref)
    requires Core(selections, channels, links, lists) && IsCase(selections, r)
    ensures r in links && (!links[r].registered ==> forall c: nat :: !Waits(lists, c, r))
  {
    forall c: nat | Waits(lists, c, r)
      ensures links[r].registered
    {
      ListedRegistered(selections, channels, links, lists, c, r);
    }
  }

  /** Of the cases of a selection only those from `k` on still wait. */
  ghost predicate NoneOf(lists: seq<seq<Ref>>, s: nat, k: nat) {
    forall c: nat, x | Waits(lists, c, x) && x.selection == s :: k <= x.index
  }

  lemma NoneNext(before: seq<seq<Ref>>, after: seq<seq<Ref>>, s: nat, k: nat)
    requires NoneOf(before, s, k) && forall c: nat, x | Waits(after, c, x) :: Waits(before, c, x) && x != Ref(s, k)
    ensures NoneOf(after, s, k + 1)
  {
    forall c: nat, x | Waits(after, c, x) && x.selection == s
      ensures k + 1 <= x.index
    {
      assert x != Ref(x.selection, k);
    }
  }

  lemma AllWithdrawn(selections: seq<Selection>, channels: seq<Channel>, links: map<Ref, Link>, lists: seq<seq<Ref>>,
      before: seq<seq<Ref>>, s: nat)
    requires Core(selections, channels, links, lists) && s < |selections| && |lists| == |before|
    requires forall c: nat | c < |lists| :: Others(lists[c], s) == Others(before[c], s)
    requires NoneOf(lists, s, |selections[s].cases|)
    ensures lists == OthersAll(before, s)
  {
    forall c: nat | c < |lists|
      ensures lists[c] == OthersAll(before, s)[c]
    {
      forall x | x in lists[c]
        ensures x.selection != s
      {
        assert Waits(lists, c, x);
      }
      OthersNone(lists[c], s);
    }
  }

  predicate InRange(selections: seq<Selection>, n: nat) {
    forall s, k | 0 <= s < |selections| && 0 <= k < |selections[s].cases| && selections[s].cases[k].channel.Some? ::
      selections[s].cases[k].channel.value < n
  }

  lemma OwnStep(lists: seq<seq<Ref>>, cases: seq<Case>, s: nat, k: nat)
    requires k < |cases| && (cases[k].channel.Some? ==> cases[k].channel.value < |lists|)
    ensures var now := OwnAll(lists, cases, s, k);
            OwnAll(lists, cases, s, k + 1) == if cases[k].channel.None? then now
              else now[cases[k].channel.value := now[cases[k].channel.value] + [Ref(s, k)]]
  {
    var now, next := OwnAll(lists, cases, s, k), OwnAll(lists, cases, s, k + 1);
    var wanted := if cases[k].channel.None? then now
      else now[cases[k].channel.value := now[cases[k].channel.value] + [Ref(s, k)]];
    forall c: nat | c < |lists|
      ensures next[c] == wanted[c]
    {
      if cases[k].channel == Some(c) {
        assert lists[c] + (Own(cases, s, c, k) + [Ref(s, k)]) == lists[c] + Own(cases, s, c, k) + [Ref(s, k)];
      } else {
        assert Own(cases, s, c, k) + [] == Own(cases, s, c, k);
      }
    }
    assert |next| == |wanted|;
  }

  lemma ChannelInRange(selections: seq<Selection>, n: nat, s: nat, k: nat)
    requires InRange(selections, n) && s < |selections| && k < |selections[s].cases|
    ensures selections[s].cases[k].channel.Some? ==> selections[s].cases[k].channel.value < n
  {
  }

  lemma OwnNone(lists: seq<seq<Ref>>, cases: seq<Case>, s: nat)
    ensures OwnAll(lists, cases, s, 0) == lists
  {
    forall c: nat | c < |lists|
      ensures OwnAll(lists, cases, s, 0)[c] == lists[c]
    {
      assert lists[c] + [] == lists[c];
    }
  }

  /** A case that has not been put on its list yet is on none. */
  lemma NotYetOwn(was: World, selections: seq<Selection>, channels: seq<Channel>, links: map<Ref, Link>,
      lists: seq<seq<Ref>>, s: nat, k: nat)
    requires Core(selections, channels, links, lists) && Unregistered(was, s) && s < |selections|
    requires k < |selections[s].cases|
    requires lists == OwnAll(was.lists, selections[s].cases, s, k)
    ensures Ref(s, k) in links && !links[Ref(s, k)].registered
  {
    var r := Ref(s, k);
    assert IsCase(selections, r);
    if links[r].registered {
      var c := CaseOf(selections, r).channel.value;
      assert Waits(lists, c, r);
      assert lists[c] == was.lists[c] + Own(selections[s].cases, s, c, k);
      assert Waits(was.lists, c, r);
      assert false;
    }
  }

  lemma ListedCase(selections: seq<Selection>, channels: seq<Channel>, links: map<Ref, Link>, lists: seq<seq<Ref>>,
      c: nat, i: nat)
    requires Core(selections, channels, links, lists) && c < |lists| && i < |lists[c]|
    ensures IsCase(selections, lists[c][i]) && lists[c][i] in links && links[lists[c][i]].next == At(lists[c], i + 1)
  {
    assert Waits(lists, c, lists[c][i]);
    assert Linked(links, channels[c].head, channels[c].tail, lists[c]);
    assert Node(links, lists[c], i);
  }

  lemma PeerStep(selections: seq<Selection>, list: seq<Ref>, send: bool, owner: Option<nat>)
    ensures Peer(selections, list, send, owner) ==
            if list == [] then None else if Meets(selections, list[0], send, owner) then Some(list[0])
              else Peer(selections, list[1..], send, owner)
  {
  }

  lemma {:induction false} HeldInTotal(selections: seq<Selection>, s: nat)
    requires s < |selections|
    ensures Held(selections[s]) <= TotalHeld(selections)
  {
    if s < |selections| - 1 {
      HeldInTotal(selections[..|selections| - 1], s);
    }
  }

  lemma HeldWithin(w: World, s: nat)
    requires Paid(w) && s < |w.selections|
    ensures Held(w.selections[s]) <= w.total
  {
    HeldInTotal(w.selections, s);
  }

  lemma CommittedDone(w: World, r: Ref, fails: bool)
    requires Shaped(w) && Ready(w, r)
    ensures var v := Committed(w, r, fails); |v.selections| == |w.selections| && v.selections[r.selection].done
    ensures forall x | 0 <= x < |w.selections| :: Committed(w, r, fails).selections[x].cases == w.selections[x].cases
  {
    CommittedGone(w, r, fails);
  }

  lemma SentSame(w: World, s: nat, index: int, value: Value, ok: bool)
    requires s < |w.selections| && s < |w.releases|
    ensures Finished(w, s, index, value, ok, false).sent == w.sent
    ensures Finished(w, s, index, value, ok, false).received == w.received
  {
  }

  /** The links of a selection that is not registered. */
  function Detached(s: nat, n: nat): map<Ref, Link> {
    map k | 0 <= k < n :: Ref(s, k) := DETACHED
  }

  lemma NewCore(selections: seq<Selection>, channels: seq<Channel>, links: map<Ref, Link>, lists: seq<seq<Ref>>,
      sel: Selection)
    requires Core(selections, channels, links, lists)
    ensures Core(selections + [sel], channels, links + Detached(|selections|, |sel.cases|), lists)
  {
    var all, after := selections + [sel], links + Detached(|selections|, |sel.cases|);
    forall c: nat | c < |channels|
      ensures Linked(after, channels[c].head, channels[c].tail, lists[c])
    {
      forall r | r in lists[c]
        ensures r in after && r in links && after[r] == links[r]
      {
        assert Waits(lists, c, r);
        ListedRegistered(selections, channels, links, lists, c, r);
      }
      LinkedSame(links, after, channels[c].head, channels[c].tail, lists[c]);
    }
    forall r | IsCase(all, r)
      ensures r in after && (r.selection == |selections| ==> after[r] == DETACHED)
      ensures (r.selection < |selections| ==> r in links && after[r] == links[r])
    {
    }
    hide Linked;
  }

  lemma NewInRange(selections: seq<Selection>, sel: Selection, n: nat)
    requires InRange(selections, n) && InRange([sel.(bytes := 0)], n)
    ensures InRange(selections + [sel], n)
  {
    assert [sel.(bytes := 0)][0].cases == sel.cases;
  }

  /** A selection that was only charged waits nowhere. */
  lemma WithdrawNew(w: World, cases: seq<Case>)
    requires Inv(w) && Inv(Charged(w, cases)) && Unregistered(Charged(w, cases), |w.selections|)
    ensures var v := Charged(w, cases);
            && Held(v.selections[|w.selections|]) <= v.total && Inv(Withdrawn(v, |w.selections|))
            && Withdrawn(v, |w.selections|).total == w.total
            && Withdrawn(v, |w.selections|).lists == w.lists
  {
    var v, n := Charged(w, cases), |w.selections|;
    WithdrawnInv(v, n);
    HeldWithin(v, n);
    forall c: nat | c < |v.lists|
      ensures Others(v.lists[c], n) == v.lists[c]
    {
      forall x | x in v.lists[c]
        ensures x.selection != n
      {
        assert Waits(v.lists, c, x);
      }
      OthersNone(v.lists[c], n);
    }
  }

  class Exchange {
    var selections: seq<Selection>
    var channels: seq<Channel>
    var links: map<Ref, Link>
    var total: nat
    // the lists the links spell, what went in and out of each channel, and how often each selection gave its bytes back
    ghost var lists: seq<seq<Ref>>
    ghost var sent: seq<seq<Transfer>>
    ghost var received: seq<seq<Transfer>>
    ghost var releases: seq<nat>

    ghost function Now(): World
      reads this
    {
      World(selections, Stores(channels), lists, total, sent, received, releases)
    }

    ghost predicate Linkage()
      reads this
    {
      Core(selections, channels, links, lists) && |lists| == |sent| == |received| == |channels|
        && |releases| == |selections| && InRange(selections, |channels|)
    }

    ghost predicate Valid()
      reads this
    {
      Core(selections, channels, links, lists) && Inv(Now())
    }

    constructor ()
      ensures Valid() && selections == [] && channels == [] && total == 0
    {
      selections, channels, links, total := [], [], map[], 0;
      lists, sent, received, releases := [], [], [], [];
    }

    /** The first waiting case of the opposite direction that belongs to another open selection. */
    method SelectionPeer(c: nat, send: bool, owner: Option<nat>) returns (peer: Option<Ref>)
      requires Linkage() && c < |channels|
      ensures peer == Peer(selections, lists[c], send, owner)
    {
      peer := channels[c].head;
      ghost var list, i := lists[c], 0;
      assert Linked(links, channels[c].head, channels[c].tail, list);
      hide Core, Linked, InRange, Peer;
      while peer.Some?
        invariant i <= |list| && peer == At(list, i)
        invariant Peer(selections, list, send, owner) == Peer(selections, list[i..], send, owner)
        decreases |list| - i
      {
        ListedCase(selections, channels, links, lists, c, i);
        PeerStep(selections, list[i..], send, owner);
        if Some(peer.value.selection) != owner && CaseOf(selections, peer.value).send != send
          && !selections[peer.value.selection].done {
          return;
        }
        assert list[i..][1..] == list[i + 1..];
        peer := links[peer.value].next;
        i := i + 1;
      }
      PeerStep(selections, list[i..], send, owner);
    }

    /** Takes a registered case out of its channel's list. */
    method Unlink(r: Ref)
      requires Linkage() && IsCase(selections, r) && r in links && links[r].registered
      modifies this`channels, this`links, this`lists
      ensures Linkage() && Stores(channels) == old(Stores(channels)) && |lists| == |old(lists)|
      ensures forall c: nat | c < |lists| :: Others(lists[c], r.selection) == Others(old(lists)[c], r.selection)
      ensures forall c: nat, x :: Waits(lists, c, x) <==> Waits(old(lists), c, x) && x != r
    {
      hide Core, Linked, Node, Waits, Stores, Others, InRange;
      ghost var i := Place(selections, channels, links, lists, r);
      UnlinkAll(selections, channels, links, lists, r, i);
      var c, link := CaseOf(selections, r).channel.value, links[r];
      var chs, after := channels, links;
      if link.previous.None? {
        chs := chs[c := chs[c].(head := link.next)];
      } else {
        after := after[link.previous.value := after[link.previous.value].(next := link.next)];
      }
      if link.next.None? {
        chs := chs[c := chs[c].(tail := link.previous)];
      } else {
        after := after[link.next.value := after[link.next.value].(previous := link.previous)];
      }
      assert after[r := DETACHED] == Unlinked(links, r);
      assert chs == channels[c := Relinked(channels[c], link)];
      channels, links, lists := chs, after[r := DETACHED], Dropped(lists, c, i);
    }

    /** Gives the bytes of a selection back, once. */
    method Release(s: nat)
      requires Linkage() && s < |selections| && Held(selections[s]) <= total
      modifies this`selections, this`total, this`releases
      ensures Linkage()
      ensures Now() == old(Now()).(selections := Withdrawn(old(Now()), s).selections, total :=
        Withdrawn(old(Now()), s).total, releases := Withdrawn(old(Now()), s).releases)
    {
      ghost var before := selections;
      if selections[s].charged {
        total := total - selections[s].bytes;
        selections := selections[s := selections[s].(charged := false, bytes := 0)];
        releases := releases[s := releases[s] + 1];
        CoreCases(before, selections, channels, links, lists);
      }
      assert selections == Withdrawn(old(Now()), s).selections;
      assert releases == Withdrawn(old(Now()), s).releases;
      hide Core;
    }

    /** Withdraws every registered case of a selection and gives its bytes back. */
    method Unregister(s: nat)
      requires Linkage() && s < |selections| && Held(selections[s]) <= total
      modifies this
      ensures Linkage() && Now() == Withdrawn(old(Now()), s)
    {
      var k := 0;
      while k < |selections[s].cases|
        invariant selections == old(selections) && k <= |selections[s].cases| && Linkage() && total == old(total)
        invariant sent == old(sent) && received == old(received) && releases == old(releases)
        invariant Stores(channels) == old(Stores(channels)) && |lists| == |old(lists)|
        invariant forall c: nat | c < |lists| :: Others(lists[c], s) == Others(old(lists)[c], s)
        invariant NoneOf(lists, s, k)
      {
        var r := Ref(s, k);
        assert IsCase(selections, r);
        NoneBefore(selections, channels, links, lists, r);
        hide Core, Stores, Others, InRange, Waits, NoneOf;
        ghost var before := lists;
        if links[r].registered {
          Unlink(r);
        }
        NoneNext(before, lists, s, k);
        k := k + 1;
      }
      AllWithdrawn(selections, channels, links, lists, old(lists), s);
      Release(s);
    }

    /** Gives a selection its outcome. */
    method Complete(s: nat, index: int, value: Value, ok: bool, failed: bool)
      requires Linkage() && Paid(Now()) && s < |selections|
      modifies this
      ensures Linkage() && Paid(Now()) && Now() == Finished(old(Now()), s, index, value, ok, failed)
      ensures |selections| == |old(selections)| && |channels| == |old(channels)|
    {
      hide Core, Paid;
      HeldWithin(Now(), s);
      FinishedPaid(Now(), s, index, value, ok, failed);
      Unregister(s);
      ghost var before := selections;
      selections := selections[s :=
        selections[s].(index := index, value := value, ok := ok, done := true, failed := failed)];
      CoreCases(before, selections, channels, links, lists);
    }

    /** Puts every case that has a channel at the end of that channel's list. */
    method AppendCases(s: nat)
      requires Linkage() && s < |selections| && Unregistered(Now(), s)
      modifies this`channels, this`links, this`lists
      ensures Linkage() && Now() == Registered(old(Now()), s)
    {
      hide Core, InRange, Stores, Unregistered;
      ghost var was, cases := Now(), selections[s].cases;
      OwnNone(lists, cases, s);
      var k := 0;
      while k < |selections[s].cases|
        invariant k <= |cases| && Linkage() && Stores(channels) == was.stores && lists == OwnAll(was.lists, cases, s, k)
      {
        var it := selections[s].cases[k];
        ChannelInRange(selections, |channels|, s, k);
        OwnStep(was.lists, cases, s, k);
        if it.channel.Some? {
          NotYetOwn(was, selections, channels, links, lists, s, k);
          Append(Ref(s, k));
        }
        k := k + 1;
      }
    }

    /** A selection that cannot go ahead waits on all its channels. */
    method Register(s: nat)
      requires Valid() && s < |selections| && !selections[s].done && selections[s].charged && Blocked(Now(), s)
      requires Unregistered(Now(), s)
      modifies this`channels, this`links, this`lists
      ensures Valid() && Now() == Registered(old(Now()), s)
    {
      RegisteredInv(Now(), s);
      assert Linkage();
      hide Core, Inv, Registered;
      AppendCases(s);
    }

    /** Puts a case at the end of its channel's list. */
    method Append(r: Ref)
      requires Linkage() && IsCase(selections, r) && CaseOf(selections, r).channel.Some? && r in links
      requires !links[r].registered
      modifies this`channels, this`links, this`lists
      ensures Linkage() && Stores(channels) == old(Stores(channels))
      ensures var c := CaseOf(selections, r).channel.value;
        c < |old(lists)| && lists == old(lists)[c := old(lists)[c] + [r]]
    {
      var c := CaseOf(selections, r).channel.value;
      assert c < |channels|;
      AppendCore(selections, channels, links, lists, c, r);
      hide Core, Linked, Stores, InRange;
      var tail, ch, after := channels[c].tail, channels[c], links[r := links[r].(previous := channels[c].tail)];
      if tail.None? {
        ch := ch.(head := Some(r));
      } else {
        after := after[tail.value := after[tail.value].(next := Some(r))];
      }
      ch := ch.(tail := Some(r));
      StoresSame(channels, c, ch);
      channels, links, lists := channels[c := ch], after[r := after[r].(registered := true)],
        lists[c := lists[c] + [r]];
    }

    /** Changes what a channel has buffered. */
    method SetBuffer(c: nat, buffer: seq<Value>)
      requires Linkage() && Paid(Now()) && c < |channels|
      modifies this`channels
      ensures Linkage() && Paid(Now()) && Now() == Buffered(old(Now()), c, buffer)
    {
      hide Paid, InRange;
      SamePaid(Now(), Buffered(Now(), c, buffer));
      var after := channels[c := channels[c].(buffer := buffer)];
      CoreStores(selections, channels, after, links, lists);
      assert Stores(after) == Stores(channels)[c := StoreOf(after[c])];
      hide Core;
      channels := after;
    }

    /** The cases that can go ahead. */
    method ReadyCases(s: nat) returns (ready: seq<nat>)
      requires Linkage() && s < |selections|
      ensures forall k: nat :: k in ready <==> Ready(Now(), Ref(s, k))
      ensures forall i, j | 0 <= i < j < |ready| :: ready[i] < ready[j]
    {
      ready := [];
      var k := 0;
      while k < |selections[s].cases|
        invariant k <= |selections[s].cases|
        invariant forall j: nat :: j in ready <==> j < k && Ready(Now(), Ref(s, j))
        invariant forall i | 0 <= i < |ready| :: ready[i] < k
        invariant forall i, j | 0 <= i < j < |ready| :: ready[i] < ready[j]
      {
        var it := selections[s].cases[k];
        ChannelInRange(selections, |channels|, s, k);
        ghost var r := Ref(s, k);
        assert IsCase(selections, r) && CaseOf(selections, r) == it;
        if it.channel.Some? {
          var ch := channels[it.channel.value];
          var peer := SelectionPeer(it.channel.value, it.send, Some(s));
          assert peer == PeerOf(Now(), r);
          if ch.closed || peer.Some? || (if it.send then |ch.buffer| < ch.capacity else ch.buffer != []) {
            assert Ready(Now(), r);
            ready := ready + [k];
          }
        }
        k := k + 1;
      }
    }

    /** A send case that is ready goes ahead. */
    method CommitSend(s: nat, k: nat, fails: bool)
      requires Linkage() && Paid(Now()) && Ready(Now(), Ref(s, k)) && CaseOf(selections, Ref(s, k)).send
      modifies this
      ensures Linkage() && Now() == Committed(old(Now()), Ref(s, k), fails)
    {
      hide Paid, Core, InRange, Finished;
      ChannelInRange(selections, |channels|, s, k);
      var it := selections[s].cases[k];
      var c := it.channel.value;
      var ch := channels[c];
      if ch.closed {
        Complete(s, k, NOTHING, false, true);
        return;
      }
      var peer := SelectionPeer(c, true, Some(s));
      if peer.Some? {
        Complete(peer.value.selection, peer.value.index, it.value, true, false);
        Complete(s, k, NOTHING, false, false);
        sent := sent[c := sent[c] + [Transfer(it.value, Some(Ref(s, k)))]];
        received := received[c := received[c] + [Transfer(it.value, peer)]];
      } else if fails {
        Complete(s, k, NOTHING, false, true);
      } else {
        SetBuffer(c, ch.buffer + [it.value]);
        Complete(s, k, NOTHING, false, false);
        sent := sent[c := sent[c] + [Transfer(it.value, Some(Ref(s, k)))]];
      }
    }

    /** A receive case that is ready goes ahead. */
    method CommitReceive(s: nat, k: nat, fails: bool)
      requires Linkage() && Paid(Now()) && Ready(Now(), Ref(s, k)) && !CaseOf(selections, Ref(s, k)).send
      modifies this
      ensures Linkage() && Now() == Committed(old(Now()), Ref(s, k), fails)
    {
      hide Paid, Core, InRange, Finished;
      ChannelInRange(selections, |channels|, s, k);
      var it := selections[s].cases[k];
      var c := it.channel.value;
      var ch := channels[c];
      if ch.buffer != [] {
        if fails {
          Complete(s, k, NOTHING, false, true);
        } else {
          SetBuffer(c, ch.buffer[1..]);
          Complete(s, k, ch.buffer[0], true, false);
          received := received[c := received[c] + [Transfer(ch.buffer[0], Some(Ref(s, k)))]];
        }
        return;
      }
      var peer := SelectionPeer(c, false, Some(s));
      if peer.Some? && !ch.closed {
        var value := selections[peer.value.selection].cases[peer.value.index].value;
        Complete(peer.value.selection, peer.value.index, NOTHING, false, false);
        Complete(s, k, value, true, false);
        sent := sent[c := sent[c] + [Transfer(value, peer)]];
        received := received[c := received[c] + [Transfer(value, Some(Ref(s, k)))]];
      } else {
        Complete(s, k, it.zero, false, false);
      }
    }

    /** One ready case goes ahead, if there is any; `pick` chooses among them. A finished selection stays as it is. */
    method TryCommit(s: nat, pick: nat, fails: bool) returns (committed: bool)
      requires Valid() && s < |selections|
      modifies this
      ensures Valid() && |selections| == |old(selections)|
      ensures committed == selections[s].done
      ensures forall x | 0 <= x < |selections| :: selections[x].cases == old(selections)[x].cases
      ensures old(selections[s].done) || !committed ==> unchanged(this) && Now() == old(Now())
      ensures !committed ==> Blocked(Now(), s)
      ensures committed && !old(selections[s].done) ==>
        exists k: nat :: Ready(old(Now()), Ref(s, k)) && Now() == Committed(old(Now()), Ref(s, k), fails)
    {
      if selections[s].done {
        return true;
      }
      ghost var was := Now();
      assert Linkage();
      var ready := ReadyCases(s);
      if ready == [] {
        assert Blocked(Now(), s) by {
          forall r: Ref | r.selection == s
            ensures !Ready(Now(), r)
          {
            assert r == Ref(s, r.index) && r.index !in ready;
          }
        }
        return false;
      }
      var k := ready[pick % |ready|];
      assert k in ready;
      var r := Ref(s, k);
      assert Ready(was, r);
      CommittedInv(was, r, fails);
      CommittedDone(was, r, fails);
      hide Core, Inv, Ready, Committed, Blocked;
      if selections[s].cases[k].send {
        CommitSend(s, k, fails);
      } else {
        CommitReceive(s, k, fails);
      }
      committed := true;
    }

    /** A blocked task gives up: its selection waits nowhere and its bytes are given back. */
    method Cancel(s: nat)
      requires Valid() && s < |selections|
      modifies this
      ensures Valid() && Now() == Withdrawn(old(Now()), s) && Unregistered(Now(), s) && !selections[s].charged
    {
      WithdrawnInv(Now(), s);
      HeldWithin(Now(), s);
      assert Linkage();
      hide Core, Inv;
      Unregister(s);
    }

    /** A value offered without waiting; it is taken unless the channel is closed, has no room or its storage fails. */
    method TrySend(c: nat, value: Value, fails: bool) returns (sentIt: bool)
      requires Valid() && c < |channels|
      modifies this
      ensures Valid() && Now() == Offered(old(Now()), c, value, fails) && (!sentIt ==> Now() == old(Now()))
      ensures sentIt ==> Values(sent[c]) == Values(old(sent)[c]) + [value]
    {
      OfferedInv(Now(), c, value, fails);
      assert Linkage() && Paid(Now());
      hide Core, Inv, Paid, InRange, Finished;
      var ch := channels[c];
      if ch.closed {
        return false;
      }
      var peer := SelectionPeer(c, true, None);
      ValuesAdd(sent[c], Transfer(value, None));
      if peer.Some? {
        SentSame(Now(), peer.value.selection, peer.value.index, value, true);
        Complete(peer.value.selection, peer.value.index, value, true, false);
        sent := sent[c := sent[c] + [Transfer(value, None)]];
        received := received[c := received[c] + [Transfer(value, peer)]];
        return true;
      }
      if ch.capacity <= |ch.buffer| || fails {
        return false;
      }
      SetBuffer(c, ch.buffer + [value]);
      sent := sent[c := sent[c] + [Transfer(value, None)]];
      sentIt := true;
    }

    /** The value of a waiting sender, without going through the buffer. */
    method TakeFrom(c: nat, peer: Ref) returns (value: Value)
      requires Linkage() && Paid(Now()) && c < |channels| && IsCase(selections, peer)
      modifies this
      ensures value == CaseOf(old(selections), peer).value && Linkage() && |received| == |old(received)|
      ensures var u := Into(Finished(old(Now()), peer.selection, peer.index, NOTHING, false, false), c,
        Transfer(value, Some(peer)));
              Now() == OutOf(u, c, Transfer(value, None)) && Values(received[c]) == Values(old(received)[c]) + [value]
    {
      hide Core, Paid, InRange, Finished;
      value := selections[peer.selection].cases[peer.index].value;
      SentSame(Now(), peer.selection, peer.index, NOTHING, false);
      ValuesAdd(received[c], Transfer(value, None));
      Complete(peer.selection, peer.index, NOTHING, false, false);
      sent := sent[c := sent[c] + [Transfer(value, Some(peer))]];
      received := received[c := received[c] + [Transfer(value, None)]];
    }

    /** A value asked for without waiting. */
    method TryReceive(c: nat, fails: bool) returns (value: Option<Value>)
      requires Valid() && c < |channels|
      modifies this
      ensures Valid() && Now() == Polled(old(Now()), c, fails) && (value.None? ==> Now() == old(Now()))
      ensures value.Some? ==> Values(received[c]) == Values(old(received)[c]) + [value.value]
    {
      PolledInv(Now(), c, fails);
      assert Linkage() && Paid(Now());
      hide Core, Inv, Paid, InRange, Finished;
      var ch := channels[c];
      if ch.buffer == [] {
        if !ch.closed {
          var peer := SelectionPeer(c, false, None);
          if peer.Some? {
            var v := TakeFrom(c, peer.value);
            return Some(v);
          }
        }
        return None;
      }
      if fails {
        return None;
      }
      ValuesAdd(received[c], Transfer(ch.buffer[0], None));
      SetBuffer(c, ch.buffer[1..]);
      received := received[c := received[c] + [Transfer(ch.buffer[0], None)]];
      value := Some(ch.buffer[0]);
    }

    /** Closing twice is refused. */
    method Close(c: nat) returns (closed: bool)
      requires Valid() && c < |channels|
      modifies this`channels
      ensures Valid() && closed == !old(channels[c].closed) && Now() == if closed then Shut(old(Now()), c)
        else old(Now())
    {
      if channels[c].closed {
        return false;
      }
      ShutInv(Now(), c);
      var after := channels[c := channels[c].(closed := true)];
      CoreStores(selections, channels, after, links, lists);
      assert Stores(after) == Stores(channels)[c := StoreOf(after[c])];
      hide Core, Inv;
      channels := after;
      closed := true;
    }

    /** Charges a new selection. */
    method Admit(cases: seq<Case>) returns (n: nat)
      requires Linkage() && InRange([Selection(cases, -1, false, NOTHING, false, false, true, 0)], |channels|)
      modifies this`selections, this`links, this`total, this`releases
      ensures Linkage() && n == |old(selections)| && Now() == Charged(old(Now()), cases)
    {
      n := |selections|;
      var sel := Selection(cases, -1, false, NOTHING, false, false, true, Bytes(|cases|));
      NewCore(selections, channels, links, lists, sel);
      NewInRange(selections, sel, |channels|);
      hide Core, InRange;
      selections := selections + [sel];
      links := links + Detached(n, |cases|);
      total, releases := total + Bytes(|cases|), releases + [0];
    }

    /** The bytes of a selection that was only charged are given back. */
    method GiveUp(n: nat, ghost was: World, ghost cases: seq<Case>)
      requires Linkage() && Now() == Charged(was, cases) && n == |was.selections| && Inv(was)
      requires Inv(Charged(was, cases)) && Unregistered(Charged(was, cases), n)
      modifies this`selections, this`total, this`releases
      ensures Valid() && total == was.total && lists == was.lists
      ensures |selections| > n && selections[..n] == was.selections
    {
      WithdrawNew(was, cases);
      hide Core, Inv, Unregistered;
      Release(n);
      assert Now() == Withdrawn(Charged(was, cases), n);
    }

    /** A new selection: its bytes are charged first, and given back if one of its cases turns out to be impossible. */
    method Prepare(cases: seq<Case>, allowed: seq<bool>, admitted: bool) returns (s: Option<nat>)
      requires Valid() && |allowed| == |cases|
      requires forall k | 0 <= k < |cases| && cases[k].channel.Some? :: cases[k].channel.value < |channels|
      modifies this`selections, this`links, this`total, this`releases
      ensures Valid() && |selections| >= |old(selections)|
      ensures s.Some? <==> admitted && forall k | 0 <= k < |allowed| :: allowed[k]
      ensures s.Some? ==>
        s.value == |old(selections)| && Now() == Charged(old(Now()), cases) && Unregistered(Now(), s.value)
      ensures s.None? ==>
        total == old(total) && lists == old(lists) && selections[..|old(selections)|] == old(selections)
    {
      if !admitted {
        return None;
      }
      ghost var was := Now();
      ChargedInv(was, cases);
      assert Linkage();
      hide Core, Inv, Unregistered, Withdrawn;
      var n := Admit(cases);
      var k := 0;
      while k < |cases|
        invariant k <= |cases| && (forall j | 0 <= j < k :: allowed[j])
        invariant Now() == Charged(was, cases) && Linkage() && channels == old(channels)
      {
        if !allowed[k] {
          GiveUp(n, was, cases);
          return None;
        }
        k := k + 1;
      }
      s := Some(n);
    }

    /** A select statement: it goes ahead at once, takes its default, or waits with all its cases. */
    method SelectStatement(cases: seq<Case>, allowed: seq<bool>, admitted: bool, hasDefault: bool, pick: nat,
        fails: bool) returns (s: Option<nat>)
      requires Valid() && |allowed| == |cases|
      requires forall k | 0 <= k < |cases| && cases[k].channel.Some? :: cases[k].channel.value < |channels|
      modifies this
      ensures Valid() && Shaped(Charged(old(Now()), cases))
      ensures s.Some? <==> admitted && forall k | 0 <= k < |allowed| :: allowed[k]
      ensures s.None? ==> total == old(total)
      ensures s.Some? ==> Decided(Charged(old(Now()), cases), Now(), |old(selections)|, hasDefault, fails)
      ensures s.Some? ==> s.value == |old(selections)| < |selections| && selections[s.value].cases == cases
      ensures s.Some? ==> selections[s.value].charged == !selections[s.value].done
      ensures s.Some? && hasDefault ==> selections[s.value].done && !selections[s.value].charged
      ensures s.Some? && !selections[s.value].done ==>
        forall k: nat | k < |cases| && cases[k].channel.Some? :: Waits(lists, cases[k].channel.value, Ref(s.value, k))
    {
      ghost var start := Now();
      ChargedInv(start, cases);
      s := Prepare(cases, allowed, admitted);
      if s.None? {
        return;
      }
      ghost var n := s.value;
      assert selections[n].cases == cases && !selections[n].done && selections[n].charged;
      hide Core, InRange, Inv, Shaped, Decided, Unregistered, Linked;
      Decide(s.value, hasDefault, pick, fails);
    }

    /** A selection that has been charged goes ahead, ends with its default, or waits. */
    method Decide(s: nat, hasDefault: bool, pick: nat, fails: bool)
      requires Valid() && s < |selections| && !selections[s].done && selections[s].charged && Unregistered(Now(), s)
      modifies this
      ensures Valid() && Shaped(old(Now())) && Decided(old(Now()), Now(), s, hasDefault, fails)
      ensures |selections| == |old(selections)| && selections[s].cases == old(selections[s].cases)
      ensures selections[s].charged == !selections[s].done && (hasDefault ==> selections[s].done)
      ensures !selections[s].done ==>
        forall k: nat | k < |selections[s].cases| && selections[s].cases[k].channel.Some? ::
          Waits(lists, selections[s].cases[k].channel.value, Ref(s, k))
    {
      assert Shaped(Now());
      hide Core, InRange, Linked, Ready, Committed, Waiting, NoMissedMeeting, Drained, Fifo, Outcomes, Unregistered,
        Shaped, Blocked, Decided, Finished, Registered;
      ghost var was := Now();
      var committed := TryCommit(s, pick, fails);
      if committed {
        DecidedByCommit(was, Now(), s, hasDefault, fails);
        DoneUncharged(s);
      } else if hasDefault {
        DecidedByRest(was, s, true, fails);
        DefaultInv(Now(), s);
        FinishedSelf(was, s, -1, NOTHING, false, false);
        Complete(s, -1, NOTHING, false, false);
      } else {
        DecidedByRest(was, s, false, fails);
        WaitInTurn(s);
      }
    }

    lemma DoneUncharged(s: nat)
      requires Valid() && s < |selections| && selections[s].done
      ensures !selections[s].charged
    {
    }

    /** The cases of a selection that cannot go ahead are put on their lists. */
    method WaitInTurn(s: nat)
      requires Valid() && s < |selections| && !selections[s].done && selections[s].charged
      requires Unregistered(Now(), s) && Blocked(Now(), s)
      modifies this`channels, this`links, this`lists
      ensures Valid() && Now() == Registered(old(Now()), s)
      ensures forall k: nat | k < |selections[s].cases| && selections[s].cases[k].channel.Some? ::
        Waits(lists, selections[s].cases[k].channel.value, Ref(s, k))
    {
      hide Core, InRange, Linked, Ready, Waiting, NoMissedMeeting, Drained, Fifo, Outcomes, Unregistered, Blocked;
      ghost var was := Now();
      Register(s);
      forall k: nat | k < |selections[s].cases| && selections[s].cases[k].channel.Some?
        ensures Waits(lists, selections[s].cases[k].channel.value, Ref(s, k))
      {
        RegisteredWaits(was, s, selections[s].cases[k].channel.value, Ref(s, k));
      }
    }

    /**
      * A reflective select. With a default its selection is given up unfinished and unreleased exactly when no case
      * can go ahead; every other selection gives its bytes back when it ends.
      */
    method ReflectSelect(cases: seq<Case>, allowed: seq<bool>, admitted: bool, hasDefault: bool, pick: nat, fails: bool)
        returns (s: Option<nat>, tookDefault: bool)
      requires Valid() && |allowed| == |cases|
      requires forall k | 0 <= k < |cases| && cases[k].channel.Some? :: cases[k].channel.value < |channels|
      modifies this
      ensures Valid() && |selections| >= |old(selections)| && Shaped(Charged(old(Now()), cases))
      ensures s.Some? ==> s.value == |old(selections)| < |selections|
      ensures s.Some? <==> admitted && forall k | 0 <= k < |allowed| :: allowed[k]
      ensures tookDefault <==> s.Some? && hasDefault && Blocked(Charged(old(Now()), cases), |old(selections)|)
      ensures tookDefault ==>
        Now() == Charged(old(Now()), cases) && selections[s.value].charged && total == old(total) + Bytes(|cases|)
      ensures tookDefault ==> channels == old(channels)
      ensures s.Some? && !tookDefault ==> Decided(Charged(old(Now()), cases), Now(), |old(selections)|, false, fails)
      ensures s.Some? && !tookDefault ==> selections[s.value].charged == !selections[s.value].done
    {
      ghost var was := Now();
      ChargedInv(was, cases);
      tookDefault := false;
      s := Prepare(cases, allowed, admitted);
      if s.None? {
        return;
      }
      ghost var n := s.value;
      assert !selections[n].done && selections[n].charged;
      hide Core, InRange, Linked, Ready, Committed, Waiting, NoMissedMeeting, Drained, Fifo, Outcomes, Unregistered,
        Blocked, Decided, Finished, Registered, Shaped;
      var committed := TryCommit(s.value, pick, fails);
      if committed {
        DecidedByCommit(Charged(was, cases), Now(), n, false, fails);
        DoneUncharged(n);
      } else if hasDefault {
        tookDefault := true;
      } else {
        DecidedByRest(Charged(was, cases), n, false, fails);
        WaitInTurn(s.value);
      }
    }

    /** A new channel. */
    method MakeChannel(capacity: nat) returns (c: nat)
      requires Valid()
      modifies this`channels, this`lists, this`sent, this`received
      ensures total == old(total)
      ensures Valid() && c == |old(channels)| && channels == old(channels) + [Channel(None, None, capacity, [], false)]
      ensures selections == old(selections)
    {
      c := |channels|;
      MadeInv(Now(), capacity);
      MadeCore(selections, channels, links, lists, capacity);
      assert Stores(channels + [Channel(None, None, capacity, [], false)]) ==
        Stores(channels) + [Store(capacity, [], false)];
      hide Core, Inv;
      channels := channels + [Channel(None, None, capacity, [], false)];
      lists, sent, received := lists + [[]], sent + [[]], received + [[]];
    }
  }

  function Made(w: World, capacity: nat): World {
    w.(stores := w.stores + [Store(capacity, [], false)], lists := w.lists + [[]], sent := w.sent + [[]], received :=
      w.received + [[]])
  }

  lemma MadeInv(w: World, capacity: nat)
    requires Inv(w)
    ensures Inv(Made(w, capacity))
  {
    var v := Made(w, capacity);
    forall c: nat, r
      ensures Waits(v.lists, c, r) <==> Waits(w.lists, c, r)
    {
    }
    forall a, b | OnChannel(v, a) && OnChannel(v, b) && a.selection == b.selection && Waits(v.lists, ChannelOf(v, a), a)
      ensures Waits(v.lists, ChannelOf(v, b), b)
    {
      assert OnChannel(w, a) && OnChannel(w, b);
    }
    forall r, c: nat | c < |v.sent| && c < |v.received|
      ensures Outcome(v, r, c)
    {
      if c < |w.sent| {
        assert Outcome(w, r, c);
      } else {
        assert !Took(v, r, c) && !Gave(v, r, c);
      }
    }
    hide Waits, Outcome;
  }

  lemma MadeCore(selections: seq<Selection>, channels: seq<Channel>, links: map<Ref, Link>, lists: seq<seq<Ref>>,
      capacity: nat)
    requires Core(selections, channels, links, lists)
    ensures Core(selections, channels + [Channel(None, None, capacity, [], false)], links, lists + [[]])
  {
    forall c: nat, r
      ensures Waits(lists + [[]], c, r) <==> Waits(lists, c, r)
    {
    }
    assert Linked(links, None, None, []);
    hide Linked;
  }

  // ----- what a history says -----

  /** At most one case of a selection ever transfers a value, and it transfers one. */
  lemma OneTransfer(w: World, a: Ref, b: Ref, c: nat, d: nat)
    requires Inv(w) && c < |w.stores| && d < |w.stores| && a.selection == b.selection
    requires Through(w.sent[c], a) + Through(w.received[c], a) != []
    requires Through(w.sent[d], b) + Through(w.received[d], b) != []
    ensures a == b && c == d && |Through(w.sent[c], a)| + |Through(w.received[c], a)| == 1
  {
    assert Outcome(w, a, c) && Outcome(w, b, d);
    hide Through;
  }

  /** A receive on an open, empty channel on which nobody waits cannot go ahead. */
  lemma EmptyBlocks(w: World, s: nat, c: nat, capacity: nat)
    requires Shaped(w) && s < |w.selections| && w.selections[s].cases == [Case(Some(c), false, NOTHING, NOTHING)]
    requires c < |w.stores| && w.stores[c] == Store(capacity, [], false) && w.lists[c] == []
    ensures Blocked(w, s)
  {
    forall r: Ref | r.selection == s
      ensures !Ready(w, r)
    {
    }
  }

  /** One open, empty channel on which nobody waits. */
  ghost predicate Idle(e: Exchange)
    reads e
  {
    e.Valid() && e.channels == [Channel(None, None, 0, [], false)] && e.lists == [[]]
  }

  method OneChannel() returns (e: Exchange)
    ensures fresh(e) && Idle(e) && e.total == 0 && e.selections == []
  {
    e := new Exchange();
    var c := e.MakeChannel(0);
    EmptyList(e);
  }

  method LeakOnce(e: Exchange)
    requires Idle(e)
    modifies e
    ensures Idle(e) && e.total == old(e.total) + Bytes(1)
    ensures |e.selections| == |old(e.selections)| + 1 && e.selections[..|old(e.selections)|] == old(e.selections)
    ensures e.selections[|old(e.selections)|].charged && !e.selections[|old(e.selections)|].done
  {
    ghost var was, n := e.Now(), |e.selections|;
    var cases := [Case(Some(0), false, NOTHING, NOTHING)];
    ChargedInv(was, cases);
    assert Stores(e.channels)[0] == Store(0, [], false);
    EmptyBlocks(Charged(was, cases), n, 0, 0);
    hide Core, Inv, Blocked, Linked, Shaped;
    var s, took := e.ReflectSelect(cases, [true], true, true, 0, false);
  }

  /** Selecting by reflection with a default on such a channel keeps the bytes of every selection it gives up. */
  method ReflectDefaultLeaks(n: nat) returns (e: Exchange)
    ensures fresh(e) && e.Valid() && e.total == n * Bytes(1) && |e.selections| == n
    ensures forall s | 0 <= s < n :: e.selections[s].charged && !e.selections[s].done
  {
    hide Core, Inv, Bytes;
    e := OneChannel();
    var i := 0;
    while i < n
      invariant 0 <= i <= n && fresh(e) && Idle(e) && e.total == i * Bytes(1) && |e.selections| == i
      invariant forall s | 0 <= s < i :: e.selections[s].charged && !e.selections[s].done
    {
      ghost var before := e.selections;
      LeakOnce(e);
      assert forall s | 0 <= s < i :: e.selections[s] == before[s];
      assert (i + 1) * Bytes(1) == i * Bytes(1) + Bytes(1);
      i := i + 1;
    }
  }

  lemma EmptyList(e: Exchange)
    requires e.Valid() && e.channels == [Channel(None, None, 0, [], false)]
    ensures e.lists == [[]]
  {
    assert Linked(e.links, e.channels[0].head, e.channels[0].tail, e.lists[0]);
  }
}
