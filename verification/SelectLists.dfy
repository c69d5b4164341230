/** The per-channel lists of registered select cases: doubly linked through the cases themselves. */
module SelectLists {
  import opened Prelude

  type Value = int

  /** A case of a selection. */
  datatype Ref = Ref(selection: nat, index: nat)

  /** The list fields of a case. */
  datatype Link = Link(previous: Option<Ref>, next: Option<Ref>, registered: bool)

  const DETACHED := Link(None, None, false)

  datatype Case = Case(channel: Option<nat>, send: bool, value: Value, zero: Value)

  datatype Selection = Selection(
    cases: seq<Case>, index: int, done: bool, value: Value, ok: bool, failed: bool, charged: bool, bytes: nat)

  datatype Channel = Channel(head: Option<Ref>, tail: Option<Ref>, capacity: nat, buffer: seq<Value>, closed: bool)

  predicate IsCase(selections: seq<Selection>, r: Ref) {
    r.selection < |selections| && r.index < |selections[r.selection].cases|
  }

  function CaseOf(selections: seq<Selection>, r: Ref): Case
    requires IsCase(selections, r)
  {
    selections[r.selection].cases[r.index]
  }

  function Before(list: seq<Ref>, i: nat): Option<Ref>
    requires i <= |list|
  {
    if i == 0 then None else Some(list[i - 1])
  }

  function At(list: seq<Ref>, i: nat): Option<Ref> {
    if i < |list| then Some(list[i]) else None
  }

  /** The case at this place points to the ones before and after it. */
  predicate Node(links: map<Ref, Link>, list: seq<Ref>, i: nat) {
    i < |list| && list[i] in links && links[list[i]] == Link(Before(list, i), At(list, i + 1), true)
  }

  /** Head, tail and the links of its members spell the list in both directions. */
  ghost predicate Linked(links: map<Ref, Link>, head: Option<Ref>, tail: Option<Ref>, list: seq<Ref>) {
    && head == At(list, 0) && tail == Before(list, |list|) && Distinct(list)
    && (forall i: nat {:trigger Node(links, list, i)} | i < |list| :: Node(links, list, i))
  }

  lemma LinkedSame(links: map<Ref, Link>, after: map<Ref, Link>, head: Option<Ref>, tail: Option<Ref>, list: seq<Ref>)
    requires Linked(links, head, tail, list) && forall r | r in list :: r in after && r in links && after[r] == links[r]
    ensures Linked(after, head, tail, list)
  {
    forall i: nat | i < |list|
      ensures Node(after, list, i)
    {
      assert Node(links, list, i) && list[i] in list;
    }
  }

  function Without(list: seq<Ref>, i: nat): seq<Ref>
    requires i < |list|
  {
    list[..i] + list[i + 1..]
  }

  // ----- unlinking -----

  /** The assignments that take a case out of its list. */
  function Unlinked(links: map<Ref, Link>, r: Ref): map<Ref, Link>
    requires r in links && (links[r].previous.Some? ==> links[r].previous.value in links)
    requires (links[r].next.Some? ==> links[r].next.value in links)
  {
    var link := links[r];
    var one := if link.previous.None? then links
      else links[link.previous.value := links[link.previous.value].(next := link.next)];
    var two := if link.next.None? then one
      else one[link.next.value := one[link.next.value].(previous := link.previous)];
    two[r := DETACHED]
  }

  lemma UnlinkedValue(links: map<Ref, Link>, r: Ref, x: Ref)
    requires Unlinked.requires(links, r) && x in links && x != r
    ensures x in Unlinked(links, r)
    ensures Unlinked(links, r)[x] ==
      links[x].(next := if links[r].previous == Some(x) then links[r].next else links[x].next,
                                               previous := if links[r].next == Some(x) then links[r].previous
                                                 else links[x].previous)
  {
  }

  lemma NeighboursListed(links: map<Ref, Link>, head: Option<Ref>, tail: Option<Ref>, list: seq<Ref>, i: nat)
    requires Linked(links, head, tail, list) && i < |list|
    ensures list[i] in links
    ensures var link := links[list[i]];
            && link == Link(Before(list, i), At(list, i + 1), true)
            && (link.previous.Some? ==> link.previous.value in links && link.previous.value in list)
            && (link.next.Some? ==> link.next.value in links && link.next.value in list)
  {
    assert Node(links, list, i);
    assert i > 0 ==> Node(links, list, i - 1);
    assert i + 1 < |list| ==> Node(links, list, i + 1);
  }

  lemma UnlinkedNode(links: map<Ref, Link>, head: Option<Ref>, tail: Option<Ref>, list: seq<Ref>, i: nat, j: nat)
    requires Linked(links, head, tail, list) && i < |list| && j < |list| && j != i && Unlinked.requires(links, list[i])
    ensures var rest, k := Without(list, i), if j < i then j else j - 1;
      rest[k] == list[j] && Node(Unlinked(links, list[i]), rest, k)
  {
    assert Node(links, list, i) && Node(links, list, j);
    assert list[i] != list[j];
    UnlinkedValue(links, list[i], list[j]);
    assert (Before(list, i) == Some(list[j])) == (j + 1 == i);
    assert (At(list, i + 1) == Some(list[j])) == (j == i + 1);
    hide Unlinked, Distinct;
  }

  lemma UnlinkedAt(links: map<Ref, Link>, head: Option<Ref>, tail: Option<Ref>, list: seq<Ref>, i: nat)
    requires Linked(links, head, tail, list) && i < |list|
    ensures Unlinked.requires(links, list[i])
    ensures var link := links[list[i]];
            Linked(Unlinked(links, list[i]), if link.previous.None? then link.next
              else head, if link.next.None? then link.previous else tail, Without(list, i))
  {
    NeighboursListed(links, head, tail, list, i);
    var after, rest := Unlinked(links, list[i]), Without(list, i);
    hide Unlinked;
    forall k: nat | k < |rest|
      ensures Node(after, rest, k)
    {
      UnlinkedNode(links, head, tail, list, i, if k < i then k else k + 1);
    }
    hide Node;
  }

  /** Only the case and its neighbours change. */
  lemma UnlinkedElsewhere(links: map<Ref, Link>, head: Option<Ref>, tail: Option<Ref>, list: seq<Ref>, i: nat,
      other: Ref)
    requires Linked(links, head, tail, list) && i < |list| && other !in list
    ensures Unlinked.requires(links, list[i])
    ensures other in Unlinked(links, list[i]) <==> other in links
    ensures other in links ==> Unlinked(links, list[i])[other] == links[other]
  {
    NeighboursListed(links, head, tail, list, i);
  }

  // ----- appending -----

  /** The assignments that put a detached case at the end of a list. */
  function Appended(links: map<Ref, Link>, tail: Option<Ref>, r: Ref): map<Ref, Link>
    requires r in links && (tail.Some? ==> tail.value in links)
  {
    var one := links[r := links[r].(previous := tail)];
    var two := if tail.None? then one else one[tail.value := one[tail.value].(next := Some(r))];
    two[r := two[r].(registered := true)]
  }

  lemma AppendedAt(links: map<Ref, Link>, head: Option<Ref>, tail: Option<Ref>, list: seq<Ref>, r: Ref)
    requires Linked(links, head, tail, list) && r !in list && r in links && links[r] == DETACHED
    ensures (tail.Some? ==> tail.value in links && tail.value in list)
    ensures Linked(Appended(links, tail, r), if tail.None? then Some(r) else head, Some(r), list + [r])
  {
    assert list != [] ==> Node(links, list, |list| - 1);
    var after, more := Appended(links, tail, r), list + [r];
    forall j: nat | j < |more|
      ensures Node(after, more, j)
    {
      if j < |list| {
        assert Node(links, list, j) && more[j] == list[j];
        assert j + 1 < |list| ==> list[j] != list[|list| - 1];
      }
    }
  }

  // ----- the cases of one selection in a list -----

  /** The list without the cases of a selection. */
  function Others(list: seq<Ref>, s: nat): (r: seq<Ref>)
    ensures forall x :: x in r <==> x in list && x.selection != s
  {
    if list == [] then [] else (if list[0].selection == s then [] else [list[0]]) + Others(list[1..], s)
  }

  lemma {:induction false} OthersNone(list: seq<Ref>, s: nat)
    requires forall x | x in list :: x.selection != s
    ensures Others(list, s) == list
  {
    if list != [] {
      OthersNone(list[1..], s);
    }
  }

  lemma {:induction false} OthersAdd(a: seq<Ref>, b: seq<Ref>, s: nat)
    ensures Others(a + b, s) == Others(a, s) + Others(b, s)
  {
    if a == [] {
      assert a + b == b;
    } else {
      assert (a + b)[1..] == a[1..] + b;
      OthersAdd(a[1..], b, s);
    }
  }

  lemma OthersWithout(list: seq<Ref>, i: nat, s: nat)
    requires i < |list| && list[i].selection == s
    ensures Others(Without(list, i), s) == Others(list, s)
  {
    assert list == list[..i] + ([list[i]] + list[i + 1..]);
    OthersAdd(list[..i], [list[i]] + list[i + 1..], s);
    OthersAdd([list[i]], list[i + 1..], s);
    OthersAdd(list[..i], list[i + 1..], s);
  }

  /** The cases of a selection on a channel, in case order, among its first `n`. */
  function Own(cases: seq<Case>, s: nat, c: nat, n: nat): (r: seq<Ref>)
    requires n <= |cases|
    ensures forall x :: x in r <==> x.selection == s && x.index < n && cases[x.index].channel == Some(c)
  {
    if n == 0 then [] else Own(cases, s, c, n - 1) + (if cases[n - 1].channel == Some(c) then [Ref(s, n - 1)] else [])
  }

  // ----- peers -----

  /** A waiting case that a case of `owner` in direction `send` could meet. */
  predicate Meets(selections: seq<Selection>, r: Ref, send: bool, owner: Option<nat>) {
    IsCase(selections, r) && Some(r.selection) != owner && CaseOf(selections, r).send != send
      && !selections[r.selection].done
  }

  /** The first such case of a list. */
  function Peer(selections: seq<Selection>, list: seq<Ref>, send: bool, owner: Option<nat>): (peer: Option<Ref>)
    ensures peer.Some? ==> peer.value in list && Meets(selections, peer.value, send, owner)
    ensures peer.None? ==> forall r | r in list :: !Meets(selections, r, send, owner)
  {
    if list == [] then None
    else if Meets(selections, list[0], send, owner) then Some(list[0])
    else Peer(selections, list[1..], send, owner)
  }
}
