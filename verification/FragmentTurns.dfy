/** What a turn of the write loop does, by what was sent before, and how many turns deliver a message. */
module FragmentTurns {
  import opened Prelude
  import opened Fragments

  // ----- one turn -----

  /** How many control fragments have gone out since the last data fragment. */
  ghost function SinceData(offers: seq<Offer>, l: Limits): nat
    requires AllOffered(offers, l)
    decreases |offers|
  {
    if offers == [] then 0
    else
      AllButLast(offers, l);
      var n := |offers| - 1;
      var f := Sent(Run(offers[..n], l), offers[n], l);
      if f.None? then SinceData(offers[..n], l)
      else if f.value.messageID == 0 then SinceData(offers[..n], l) + 1
      else 0
  }

  lemma {:induction false} BurstIs(offers: seq<Offer>, l: Limits)
    requires AllOffered(offers, l)
    ensures Run(offers, l).burst == SinceData(offers, l)
    decreases |offers|
  {
    if offers != [] {
      AllButLast(offers, l);
      BurstIs(offers[..|offers| - 1], l);
    }
  }

  /** A data message is under way or offered. */
  predicate DataWaits(s: State, o: Offer) {
    s.current.Some? || o.data.Some?
  }

  /** The turn is for the offered control message: no data message waits, or fewer than four have passed it. */
  ghost predicate ControlTurn(offers: seq<Offer>, l: Limits, o: Offer)
    requires AllOffered(offers, l)
  {
    o.control.Some? && (!DataWaits(Run(offers, l), o) || SinceData(offers, l) < 4)
  }

  /** The data message can go on: it has begun, or it can be encoded and there is a number left for it. */
  predicate CanGo(s: State, o: Offer) {
    s.offset > 0 || (!o.encoding.Refused? && s.messageID + 1 < 0x1_0000_0000_0000_0000)
  }

  /**
    * While the connection takes fragments and nothing is given up, a turn sends the whole control message when it is
    * its turn, else the next cut of the data message, as long as a frame allows.
    */
  lemma TurnSends(offers: seq<Offer>, l: Limits, o: Offer)
    requires AllOffered(offers, l) && Offered(o, l) && !Run(offers, l).failed && !o.canceled && o.taken
    ensures var s, f := Run(offers, l), Sent(Run(offers, l), o, l);
      if ControlTurn(offers, l, o) then f == Some(Fragment(0, |o.control.value|, 0, o.control.value))
      else if DataWaits(s, o) && CanGo(s, o) then
        && f.Some? && f.value.messageID == (if s.offset == 0 then s.messageID + 1 else s.messageID)
        && f.value.offset == s.offset
        && |f.value.data| == (if f.value.total - s.offset <= l.frame - 35 then f.value.total - s.offset
          else l.frame - 35)
      else f.None?
  {
    BurstIs(offers, l);
    hide Run, SinceData;
  }

  /** A turn ends the connection in these cases and no others. */
  ghost predicate Breaks(offers: seq<Offer>, l: Limits, o: Offer)
    requires AllOffered(offers, l)
  {
    var s := Run(offers, l);
    && (ControlTurn(offers, l, o) || DataWaits(s, o))
    && if o.canceled then (!ControlTurn(offers, l, o) && s.offset != 0) || !o.awaited
       else !o.taken || (!ControlTurn(offers, l, o) && !CanGo(s, o))
  }

  /** The writer has failed if and only if some turn broke it. */
  lemma FailsIff(offers: seq<Offer>, l: Limits, o: Offer)
    requires AllOffered(offers, l) && Offered(o, l)
    ensures Next(Run(offers, l), o, l).failed <==> Run(offers, l).failed || Breaks(offers, l, o)
  {
    BurstIs(offers, l);
    hide Run, SinceData;
  }

  // ----- delivery -----

  /** How many fragments a payload of this length takes. */
  function Turns(length: nat, chunk: nat): nat
    requires 0 < chunk
    decreases length
  {
    if length <= chunk then 1 else 1 + Turns(length - chunk, chunk)
  }

  /** A turn with nothing in its way. */
  predicate Steady(o: Offer) {
    o.control.None? && !o.canceled && o.taken && o.encoding.AsQueued?
  }

  lemma Prefix(offers: seq<Offer>, l: Limits, i: nat)
    requires AllOffered(offers, l) && i <= |offers|
    ensures AllOffered(offers[..i], l) && 35 < l.frame
  {
  }

  /** One data turn: the message grows by one frame's worth or is delivered. */
  ghost predicate Grows(s: State, t: State, p: seq<byte>, was: seq<Message>, now: seq<Message>, chunk: nat) {
    && !t.failed
    && if |p| <= s.offset + chunk then now == was + [Message(false, p)] && t.offset == 0 && t.current.None?
       else now == was && t.offset == s.offset + chunk && t.sending == p && t.current.Some?
  }

  lemma DataTurn(offers: seq<Offer>, i: nat, l: Limits, far: Limits)
    requires AllOffered(offers, l) && i < |offers| && Above(far, l) && Steady(offers[i])
    requires AllOffered(offers[..i], l) && AllOffered(offers[..i + 1], l) && 35 < l.frame
    requires var s := Run(offers[..i], l); !s.failed && DataWaits(s, offers[i]) && CanGo(s, offers[i])
    ensures Grows(Run(offers[..i], l), Run(offers[..i + 1], l), Payload(Run(offers[..i], l), offers[i]),
      Stream(offers[..i], l, far).reading.messages, Stream(offers[..i + 1], l, far).reading.messages, l.frame - 35)
  {
    StreamNext(offers, l, far, i);
    var b := Stream(offers[..i], l, far);
    hide Stream, Run;
    DataStep(b.writer, offers[i], l, far, b.reading);
    hide OnWire, ReadOne, Good, Offered;
  }

  lemma {:induction false} RestDelivered(offers: seq<Offer>, i: nat, n: nat, l: Limits, far: Limits)
    requires AllOffered(offers, l) && Above(far, l) && i + n <= |offers|
    requires AllOffered(offers[..i], l) && AllOffered(offers[..i + n], l) && 35 < l.frame
    requires forall k | i <= k < i + n :: Steady(offers[k])
    requires var s := Run(offers[..i], l);
      !s.failed && s.current.Some? && 0 < s.offset < |s.sending| && n == Turns(|s.sending| - s.offset, l.frame - 35)
    ensures !Run(offers[..i + n], l).failed
    ensures Stream(offers[..i + n], l, far).reading.messages ==
      Stream(offers[..i], l, far).reading.messages + [Message(false, Run(offers[..i], l).sending)]
    decreases n
  {
    hide Run, Stream, AllOffered;
    Prefix(offers, l, i + 1);
    DataTurn(offers, i, l, far);
    if n > 1 {
      RestDelivered(offers, i + 1, n - 1, l, far);
    }
  }

  /**
    * A data message that is offered to an idle writer is delivered, whole, after as many undisturbed turns as it has
    * frames: no turn is wasted.
    */
  lemma SteadyDelivers(offers: seq<Offer>, i: nat, n: nat, payload: seq<byte>, l: Limits, far: Limits)
    requires AllOffered(offers, l) && Above(far, l) && i + n <= |offers| && 35 < l.frame
    requires AllOffered(offers[..i], l) && AllOffered(offers[..i + n], l)
    requires n == Turns(|payload|, l.frame - 35) && offers[i].data == Some(payload)
    requires forall k | i <= k < i + n :: Steady(offers[k])
    requires var s := Run(offers[..i], l); !s.failed && s.current.None? && s.offset == 0 && CanGo(s, offers[i])
    ensures !Run(offers[..i + n], l).failed
    ensures Stream(offers[..i + n], l, far).reading.messages ==
      Stream(offers[..i], l, far).reading.messages + [Message(false, payload)]
  {
    hide Run, Stream, AllOffered;
    Prefix(offers, l, i + 1);
    DataTurn(offers, i, l, far);
    if n > 1 {
      RestDelivered(offers, i + 1, n - 1, l, far);
    }
  }
}
