/** Fragments of the transport stream: their wire form, the writer's two lanes and the reader's reassembly. */
module Fragments {
  import opened Prelude
  import opened Wire

  const MAGIC: seq<byte> := [77, 71, 82, 70]
  const VERSION: byte := 1
  const HEADER_BYTES: nat := 35
  const CONTROL_BURST: nat := 4

  datatype Fragment = Fragment(messageID: nat, total: nat, offset: nat, data: seq<byte>)

  /** Limits of one side; frames bound a fragment, messages and in-flight bytes bound what it may announce. */
  datatype Limits = Limits(frame: nat, message: nat, inFlight: nat)

  // ----- the wire form -----

  predicate Sendable(f: Fragment) {
    && 0 < f.total && f.data != [] && f.offset + |f.data| <= f.total
    && (f.messageID == 0 ==> f.offset == 0 && |f.data| == f.total)
  }

  function Header(f: Fragment): seq<byte> {
    MAGIC + ([VERSION] + (UintBytes(f.messageID) + (UintBytes(f.total) + UintBytes(f.offset))))
  }

  /** `encodeEndpointFragmentTo`. */
  function EncodeFragment(f: Fragment, frame: nat): Option<seq<byte>> {
    if !Sendable(f) || |Header(f) + f.data| > frame then None else Some(Header(f) + f.data)
  }

  /** `decodeEndpointFragment`. */
  function DecodeFragment(bs: seq<byte>, l: Limits): Option<Fragment> {
    if |bs| > l.frame || |bs| <= |MAGIC| + 1 || bs[..|MAGIC|] != MAGIC || bs[|MAGIC|] != VERSION then None
    else
      var id := ParseUint(bs[|MAGIC| + 1..]);
      if id.Bad? then None
      else
        var total := ParseUint(id.rest);
        if total.Bad? then None
        else
          var offset := ParseUint(total.rest);
          if offset.Bad? then None
          else
            var f := Fragment(id.value, total.value, offset.value, offset.rest);
            if Sendable(f) && f.total <= l.message && f.total <= l.inFlight then Some(f) else None
  }

  lemma {:induction false} VarintLength(v: nat, k: nat)
    requires k < MAX_VARINT && v < Cap(k)
    ensures |UintBytes(v)| <= MAX_VARINT - k
    decreases v
  {
    if v >= 128 {
      VarintLength(v / 128, k + 1);
    }
  }

  /** A header never takes more than the room the writer leaves for it. */
  lemma HeaderFits(f: Fragment)
    requires f.messageID < U64 && f.total < U64 && f.offset < U64
    ensures |Header(f)| <= HEADER_BYTES
  {
    hide UintBytes;
    CapIsU64();
    VarintLength(f.messageID, 0);
    VarintLength(f.total, 0);
    VarintLength(f.offset, 0);
  }

  /** A fragment that was sent is read back, whatever the receiver's limits above it. */
  lemma FragmentRoundTrip(f: Fragment, frame: nat, l: Limits)
    requires f.messageID < U64 && f.total < U64 && EncodeFragment(f, frame).Some?
    requires frame <= l.frame && f.total <= l.message && f.total <= l.inFlight
    ensures DecodeFragment(EncodeFragment(f, frame).value, l) == Some(f)
  {
    hide UintBytes, ParseUint;
    var bs := EncodeFragment(f, frame).value;
    var c := UintBytes(f.offset) + f.data;
    var b := UintBytes(f.total) + c;
    var a := UintBytes(f.messageID) + b;
    assert bs == MAGIC + ([VERSION] + a);
    assert bs[..|MAGIC|] == MAGIC && bs[|MAGIC|] == VERSION && bs[|MAGIC| + 1..] == a;
    UintRoundTrip(f.messageID, b);
    UintRoundTrip(f.total, c);
    UintRoundTrip(f.offset, f.data);
  }

  // ----- the reader -----

  /** What the application gets: the lane and the whole payload. */
  datatype Message = Message(control: bool, payload: seq<byte>)

  /** A data message of which a part has arrived. */
  datatype Part = Part(messageID: nat, total: nat, data: seq<byte>)

  datatype Reader = Reader(part: Option<Part>, previousID: nat)

  datatype Progress = Broken | Partial | Complete(message: Message)

  /** The data message a fragment continues, or the one it starts. */
  function Continued(a: Reader, f: Fragment): Part {
    if a.part.Some? then a.part.value else Part(f.messageID, f.total, [])
  }

  /** The fragment is the next one of its lane. */
  predicate Follows(a: Reader, f: Fragment) {
    if f.messageID == 0 then f.offset == 0 && |f.data| == f.total
    else
      var part := Continued(a, f);
      && f.messageID == part.messageID && f.total == part.total && f.offset == |part.data|
      && (a.part.None? ==> f.messageID == a.previousID + 1)
  }

  function Absorbed(a: Reader, f: Fragment): Reader {
    if !Follows(a, f) || f.messageID == 0 then a
    else
      var data := Continued(a, f).data + f.data;
      if |data| == f.total then Reader(None, f.messageID)
        else Reader(Some(Part(f.messageID, f.total, data)), a.previousID)
  }

  function Progressed(a: Reader, f: Fragment): Progress {
    if !Follows(a, f) then Broken
    else if f.messageID == 0 then Complete(Message(true, f.data))
    else if |Continued(a, f).data + f.data| == f.total then Complete(Message(false, Continued(a, f).data + f.data))
    else Partial
  }

  class Assembly {
    var open: bool
    var messageID: nat
    var data: seq<byte>
    var total: nat
    var previousID: nat

    ghost function Now(): Reader
      reads this
    {
      Reader(if open then Some(Part(messageID, total, data)) else None, previousID)
    }

    constructor ()
      ensures Now() == Reader(None, 0)
    {
      open, messageID, data, total, previousID := false, 0, [], 0, 0;
    }

    /** `endpointAssembly.append`; `data` is the part received so far. */
    method Append(f: Fragment) returns (p: Progress)
      modifies this
      ensures p == Progressed(old(Now()), f) && Now() == Absorbed(old(Now()), f)
    {
      if f.messageID == 0 {
        return if f.offset != 0 || |f.data| != f.total then Broken else Complete(Message(true, f.data));
      }
      var received := if open then data else [];
      if !open {
        if f.offset != 0 || f.messageID != previousID + 1 {
          return Broken;
        }
      } else if f.messageID != messageID || f.total != total {
        return Broken;
      }
      if f.offset != |received| {
        return Broken;
      }
      received := received + f.data;
      if |received| != f.total {
        open, messageID, total, data := true, f.messageID, f.total, received;
        return Partial;
      }
      open, previousID, data := false, f.messageID, [];
      p := Complete(Message(false, received));
    }
  }

  // ----- the writer -----

  /** What a data message becomes when its first fragment is due: a call is encoded again with the time it has left. */
  datatype Encoding = AsQueued | Again(payload: seq<byte>) | Refused

  /**
    * What the queues offer at the top of one turn and what happens to the chosen write: whether it has been given up,
    * whether someone waits for its completion, how it is encoded, and whether the connection takes its fragment.
    */
  datatype Offer = Offer(data: Option<seq<byte>>, control: Option<seq<byte>>, canceled: bool, awaited: bool,
    encoding: Encoding, taken: bool)

  /** The local variables of the write loop; `sending` is the payload of the data message under way. */
  datatype State = State(current: Option<seq<byte>>, sending: seq<byte>, offset: nat, messageID: nat, burst: nat,
    failed: bool)

  const START := State(None, [], 0, 0, 0, false)

  /** A payload the enqueueing side lets through. */
  predicate Admitted(payload: seq<byte>, control: bool, l: Limits) {
    payload != [] && |payload| <= l.message && |payload| <= l.inFlight
      && (control ==> |payload| + HEADER_BYTES <= l.frame)
  }

  predicate Offered(o: Offer, l: Limits) {
    && (o.data.Some? ==> Admitted(o.data.value, false, l))
    && (o.control.Some? ==> Admitted(o.control.value, true, l))
    && (o.encoding.Again? ==> Admitted(o.encoding.payload, false, l))
  }

  /** The data message of this turn: the one under way, or one from the queue. */
  function Picked(s: State, o: Offer): Option<seq<byte>> {
    if s.current.Some? then s.current else o.data
  }

  /** The control message of this turn; a waiting data message lets at most a burst of them pass. */
  function Passing(s: State, o: Offer): Option<seq<byte>> {
    if Picked(s, o).None? || s.burst < CONTROL_BURST then o.control else None
  }

  /** The payload of the data message from its first fragment on. */
  function Payload(s: State, o: Offer): seq<byte>
    requires Picked(s, o).Some?
  {
    if s.offset > 0 then s.sending else if o.encoding.Again? then o.encoding.payload else Picked(s, o).value
  }

  predicate Encodable(s: State, o: Offer) {
    s.offset > 0 || (!o.encoding.Refused? && s.messageID < U64 - 1)
  }

  function MessageID(s: State): nat {
    if s.offset == 0 then s.messageID + 1 else s.messageID
  }

  function ChunkEnd(s: State, o: Offer, l: Limits): nat
    requires Picked(s, o).Some? && HEADER_BYTES < l.frame && s.offset <= |Payload(s, o)|
  {
    if s.offset + (l.frame - HEADER_BYTES) < |Payload(s, o)| then s.offset + (l.frame - HEADER_BYTES)
      else |Payload(s, o)|
  }

  /** What the writer's variables promise between turns. */
  predicate Ready(s: State, l: Limits) {
    && HEADER_BYTES < l.frame && l.message < U64 && s.messageID < U64
    && (s.current.Some? ==> Admitted(s.current.value, false, l))
    && (s.offset > 0 ==>
      0 < s.messageID && Admitted(s.sending, false, l) && s.offset < |s.sending| && (s.current.Some? || s.failed))
  }

  /** The fragment of this turn. */
  function Sent(s: State, o: Offer, l: Limits): Option<Fragment>
    requires Ready(s, l) && Offered(o, l)
  {
    if s.failed || o.canceled || !o.taken then None
    else if Passing(s, o).Some? then Some(Fragment(0, |Passing(s, o).value|, 0, Passing(s, o).value))
    else if Picked(s, o).None? || !Encodable(s, o) then None
    else Some(Fragment(MessageID(s), |Payload(s, o)|, s.offset, Payload(s, o)[s.offset..ChunkEnd(s, o, l)]))
  }

  /** The variables after this turn. */
  function Next(s: State, o: Offer, l: Limits): State
    requires Ready(s, l) && Offered(o, l)
  {
    var control, data := Passing(s, o), Picked(s, o);
    if s.failed || (data.None? && control.None?) then s
    else if o.canceled then
      s.(current := if control.Some? then data else None, failed := (control.None? && s.offset != 0) || !o.awaited)
    else if control.Some? then
      if o.taken then s.(current := data, burst := s.burst + 1) else s.(current := data, failed := true)
    else if !Encodable(s, o) then s.(current := None, failed := true)
    else if !o.taken then s.(current := None, sending := Payload(s, o), messageID := MessageID(s), failed := true)
    else if ChunkEnd(s, o, l) == |Payload(s, o)| then State(None, [], 0, MessageID(s), 0, false)
    else State(data, Payload(s, o), ChunkEnd(s, o, l), MessageID(s), 0, false)
  }

  lemma NextReady(s: State, o: Offer, l: Limits)
    requires Ready(s, l) && Offered(o, l)
    ensures Ready(Next(s, o, l), l)
  {
  }

  ghost predicate AllOffered(offers: seq<Offer>, l: Limits) {
    HEADER_BYTES < l.frame && l.message < U64 && forall i | 0 <= i < |offers| :: Offered(offers[i], l)
  }

  lemma AllButLast(offers: seq<Offer>, l: Limits)
    requires AllOffered(offers, l) && offers != []
    ensures AllOffered(offers[..|offers| - 1], l) && Offered(offers[|offers| - 1], l)
  {
  }

  /** The writer after any number of turns. */
  ghost function Run(offers: seq<Offer>, l: Limits): (s: State)
    requires AllOffered(offers, l)
    ensures Ready(s, l)
    decreases |offers|
  {
    if offers == [] then START
    else
      AllButLast(offers, l);
      NextReady(Run(offers[..|offers| - 1], l), offers[|offers| - 1], l);
      Next(Run(offers[..|offers| - 1], l), offers[|offers| - 1], l)
  }

  class Writer {
    const limits: Limits
    var current: Option<seq<byte>>
    var sending: seq<byte>
    var offset: nat
    var messageID: nat
    var controlBurst: nat
    var failed: bool

    ghost function Now(): State
      reads this
    {
      State(current, sending, offset, messageID, controlBurst, failed)
    }

    constructor (limits: Limits)
      ensures this.limits == limits && Now() == START
    {
      this.limits, current, sending, offset, messageID, controlBurst, failed := limits, None, [], 0, 0, 0, false;
    }

    /** The next fragment of the data message under way. */
    method SendData(o: Offer) returns (out: Option<seq<byte>>)
      requires Ready(Now(), limits) && Offered(o, limits) && !failed && !o.canceled && current.Some?
      requires Passing(Now(), o).None?
      modifies this
      ensures Now() == Next(old(Now()), o, limits)
      ensures var f := Sent(old(Now()), o, limits);
        out == (if f.None? then None else EncodeFragment(f.value, limits.frame))
    {
      hide UintBytes, Header, EncodeFragment;
      out := None;
      if offset == 0 {
        if o.encoding.Refused? || messageID == U64 - 1 {
          current, failed := None, true;
          return;
        }
        sending := if o.encoding.Again? then o.encoding.payload else current.value;
        messageID := messageID + 1;
      }
      var end := if offset + (limits.frame - HEADER_BYTES) < |sending| then offset + (limits.frame - HEADER_BYTES)
        else |sending|;
      if !o.taken {
        current, failed := None, true;
        return;
      }
      out := EncodeFragment(Fragment(messageID, |sending|, offset, sending[offset..end]), limits.frame);
      controlBurst, offset := 0, end;
      if offset == |sending| {
        current, sending, offset := None, [], 0;
      }
    }

    /** One turn of the write loop; `out` is what goes onto the connection. */
    method Turn(o: Offer) returns (out: Option<seq<byte>>)
      requires Ready(Now(), limits) && Offered(o, limits) && !failed
      modifies this
      ensures Ready(Now(), limits) && Now() == Next(old(Now()), o, limits)
      ensures var f := Sent(old(Now()), o, limits);
        out == (if f.None? then None else EncodeFragment(f.value, limits.frame))
    {
      hide UintBytes, Header, EncodeFragment;
      NextReady(Now(), o, limits);
      PickFirst(Now(), o, limits);
      out := None;
      if current.None? && o.data.Some? {
        current := o.data;
      }
      var control := if current.None? || controlBurst < CONTROL_BURST then o.control else None;
      if current.None? && control.None? {
        return;
      }
      if o.canceled {
        failed := (control.None? && offset != 0) || !o.awaited;
        if control.None? {
          current := None;
        }
      } else if control.None? {
        out := SendData(o);
      } else if !o.taken {
        failed := true;
      } else {
        out := EncodeFragment(Fragment(0, |control.value|, 0, control.value), limits.frame);
        controlBurst := controlBurst + 1;
      }
    }
  }

  /** Taking a data message from the queue does not change what the turn does. */
  lemma PickFirst(s: State, o: Offer, l: Limits)
    requires Ready(s, l) && Offered(o, l)
    ensures var t := s.(current := Picked(s, o));
      Ready(t, l) && Picked(t, o) == Picked(s, o) && Passing(t, o) == Passing(s, o)
    ensures var t := s.(current := Picked(s, o));
      Sent(t, o, l) == Sent(s, o, l) && (!s.failed ==> Next(t, o, l) == Next(s, o, l))
  {
  }

  lemma SentFits(s: State, o: Offer, l: Limits)
    requires Ready(s, l) && Offered(o, l) && Sent(s, o, l).Some?
    ensures EncodeFragment(Sent(s, o, l).value, l.frame).Some?
    ensures Sent(s, o, l).value.messageID < U64 && Sent(s, o, l).value.total <= l.message
    ensures Sent(s, o, l).value.total <= l.inFlight
  {
    HeaderFits(Sent(s, o, l).value);
    hide UintBytes, Header;
  }

  // ----- the stream -----

  /** The reader, what it has delivered, and whether it has refused a fragment. */
  datatype Reading = Reading(reader: Reader, messages: seq<Message>, broken: bool)

  function ReadOne(r: Reading, bytes: Option<seq<byte>>, far: Limits): Reading {
    if r.broken || bytes.None? then r
    else
      var f := DecodeFragment(bytes.value, far);
      if f.None? then r.(broken := true)
      else
        match Progressed(r.reader, f.value)
        case Broken => r.(broken := true)
        case Partial => Reading(Absorbed(r.reader, f.value), r.messages, false)
        case Complete(m) => Reading(Absorbed(r.reader, f.value), r.messages + [m], false)
  }

  /** What one turn puts onto the connection. */
  function OnWire(s: State, o: Offer, l: Limits): Option<seq<byte>>
    requires Ready(s, l) && Offered(o, l)
  {
    if Sent(s, o, l).None? then None else EncodeFragment(Sent(s, o, l).value, l.frame)
  }

  /** The payloads of one lane. */
  function Lane(ms: seq<Message>, control: bool): seq<seq<byte>> {
    if ms == [] then []
    else Lane(ms[..|ms| - 1], control) + (if ms[|ms| - 1].control == control then [ms[|ms| - 1].payload] else [])
  }

  lemma LaneAdd(ms: seq<Message>, m: Message, control: bool)
    ensures Lane(ms + [m], control) == Lane(ms, control) + (if m.control == control then [m.payload] else [])
  {
    assert (ms + [m])[..|ms|] == ms;
  }

  /** A data message as it was queued and as it goes out. */
  datatype Outgoing = Outgoing(queued: seq<byte>, sent: seq<byte>)

  /** The control message this turn sends. */
  function ControlNow(s: State, o: Offer): seq<seq<byte>> {
    if !s.failed && !o.canceled && o.taken && Passing(s, o).Some? then [Passing(s, o).value] else []
  }

  /** The data message of this turn is given up before any of it was sent. */
  predicate GivenUp(s: State, o: Offer) {
    && !s.failed && Passing(s, o).None? && Picked(s, o).Some? && s.offset == 0
    && (o.canceled || !o.taken || !Encodable(s, o))
  }

  /** The data messages that have left the queues, without the one given up in this turn. */
  function AcceptedNow(accepted: seq<seq<byte>>, s: State, o: Offer): seq<seq<byte>> {
    var taken := accepted + (if !s.failed && s.current.None? && o.data.Some? then [o.data.value] else []);
    if GivenUp(s, o) && taken != [] then taken[..|taken| - 1] else taken
  }

  /** The data message that begins in this turn. */
  function BegunNow(s: State, o: Offer): seq<Outgoing> {
    if !s.failed && !o.canceled && o.taken && Passing(s, o).None? && Picked(s, o).Some? && Encodable(s, o)
      && s.offset == 0
    then [Outgoing(Picked(s, o).value, Payload(s, o))] else []
  }

  /**
    * Both ends after some turns, and what the offers amount to: the control messages that were neither given up nor
    * refused by the connection, the data messages that left the queues and were not given up before any of them was
    * sent, and those that have begun, each in the order the queues gave them.
    */
  datatype Both = Both(
    writer: State, reading: Reading, controls: seq<seq<byte>>, accepted: seq<seq<byte>>, begun: seq<Outgoing>)

  function Advanced(b: Both, o: Offer, l: Limits, far: Limits): Both
    requires Ready(b.writer, l) && Offered(o, l)
  {
    Both(Next(b.writer, o, l), ReadOne(b.reading, OnWire(b.writer, o, l), far),
         b.controls + ControlNow(b.writer, o), AcceptedNow(b.accepted, b.writer, o), b.begun + BegunNow(b.writer, o))
  }

  /** Both ends after any number of turns. */
  ghost function Stream(offers: seq<Offer>, l: Limits, far: Limits): (b: Both)
    requires AllOffered(offers, l)
    ensures b.writer == Run(offers, l)
    decreases |offers|
  {
    if offers == [] then Both(START, Reading(Reader(None, 0), [], false), [], [], [])
    else
      AllButLast(offers, l);
      Advanced(Stream(offers[..|offers| - 1], l, far), offers[|offers| - 1], l, far)
  }

  function QueuedOf(xs: seq<Outgoing>): seq<seq<byte>> {
    seq(|xs|, i requires 0 <= i < |xs| => xs[i].queued)
  }

  function SentOf(xs: seq<Outgoing>): seq<seq<byte>> {
    seq(|xs|, i requires 0 <= i < |xs| => xs[i].sent)
  }

  /** The reader stands where the writer stands. */
  ghost predicate Synced(s: State, r: Reading) {
    && !r.broken
    && r.reader.part == (if s.offset > 0
      && s.offset <= |s.sending| then Some(Part(s.messageID, |s.sending|, s.sending[..s.offset])) else None)
    && (!s.failed ==> r.reader.previousID == (if s.offset > 0 then s.messageID - 1 else s.messageID))
  }

  /** What has been delivered of the data messages that have begun. */
  ghost predicate Delivered(s: State, begun: seq<Outgoing>, messages: seq<Message>) {
    if s.offset > 0 then begun != [] && begun[|begun| - 1].sent == s.sending
      && Lane(messages, false) == SentOf(begun[..|begun| - 1])
    else Lane(messages, false) == SentOf(begun)
  }

  /** What has been accepted is what has begun and the message whose first fragment is still to come. */
  ghost predicate InOrder(s: State, begun: seq<Outgoing>, accepted: seq<seq<byte>>) {
    accepted == QueuedOf(begun) + (if s.current.Some? && s.offset == 0 then [s.current.value] else [])
  }

  predicate Above(far: Limits, l: Limits) {
    l.frame <= far.frame && l.message <= far.message && l.inFlight <= far.inFlight
  }

  lemma SentArrives(s: State, o: Offer, l: Limits, far: Limits)
    requires Ready(s, l) && Offered(o, l) && Sent(s, o, l).Some? && Above(far, l)
    ensures OnWire(s, o, l).Some? && DecodeFragment(OnWire(s, o, l).value, far) == Sent(s, o, l)
  {
    SentFits(s, o, l);
    FragmentRoundTrip(Sent(s, o, l).value, l.frame, far);
  }

  /** A control fragment is delivered whole and leaves the data message alone. */
  lemma ControlStep(s: State, o: Offer, l: Limits, far: Limits, r: Reading)
    requires Ready(s, l) && Offered(o, l) && Synced(s, r) && Above(far, l) && Sent(s, o, l).Some? && Passing(s, o).Some?
    ensures Synced(Next(s, o, l), ReadOne(r, OnWire(s, o, l), far))
    ensures ReadOne(r, OnWire(s, o, l), far).messages == r.messages + [Message(true, Passing(s, o).value)]
  {
    SentArrives(s, o, l, far);
    hide OnWire, DecodeFragment;
  }

  /** How the reader takes the fragment of `payload` from `start` to `end`. */
  lemma ChunkAbsorbed(a: Reader, id: nat, payload: seq<byte>, start: nat, end: nat)
    requires start < end <= |payload| && 0 < id
    requires a == if start > 0 then Reader(Some(Part(id, |payload|, payload[..start])), id - 1)
      else Reader(None, id - 1)
    ensures var f := Fragment(id, |payload|, start, payload[start..end]);
            if end == |payload| then
              && Progressed(a, f) == Complete(Message(false, payload))
              && Absorbed(a, f) == Reader(None, id)
            else
              && Progressed(a, f) == Partial
              && Absorbed(a, f) == Reader(Some(Part(id, |payload|, payload[..end])), id - 1)
  {
    assert payload[..start] + payload[start..end] == payload[..end];
    assert payload[..|payload|] == payload && payload[..0] == [];
  }

  /** A data fragment continues the message under way, or ends it. */
  lemma DataStep(s: State, o: Offer, l: Limits, far: Limits, r: Reading)
    requires Ready(s, l) && Offered(o, l) && Synced(s, r) && Above(far, l) && Sent(s, o, l).Some? && Passing(s, o).None?
    ensures Picked(s, o).Some? && !Next(s, o, l).failed && Synced(Next(s, o, l), ReadOne(r, OnWire(s, o, l), far))
    ensures var more := ReadOne(r, OnWire(s, o, l), far).messages;
            more == if Next(s, o, l).offset == 0 then r.messages + [Message(false, Payload(s, o))] else r.messages
    ensures Next(s, o, l).offset > 0 ==> Next(s, o, l).sending == Payload(s, o)
  {
    hide OnWire, DecodeFragment, EncodeFragment, Progressed, Absorbed;
    SentArrives(s, o, l, far);
    ChunkAbsorbed(r.reader, MessageID(s), Payload(s, o), s.offset, ChunkEnd(s, o, l));
  }

  lemma QuietStep(s: State, o: Offer, l: Limits, r: Reading)
    requires Ready(s, l) && Offered(o, l) && Synced(s, r) && Sent(s, o, l).None?
    ensures Synced(Next(s, o, l), r) && Next(s, o, l).offset == s.offset
    ensures (s.offset > 0 ==> Next(s, o, l).sending == s.sending)
  {
  }

  /** The reader refuses nothing and has delivered every control message and every finished data message, in order. */
  ghost predicate Good(b: Both) {
    && Synced(b.writer, b.reading) && Delivered(b.writer, b.begun, b.reading.messages)
    && Lane(b.reading.messages, true) == b.controls
    && InOrder(b.writer, b.begun, b.accepted)
  }

  lemma OrderStep(s: State, o: Offer, l: Limits, begun: seq<Outgoing>, accepted: seq<seq<byte>>)
    requires Ready(s, l) && Offered(o, l) && InOrder(s, begun, accepted)
    ensures InOrder(Next(s, o, l), begun + BegunNow(s, o), AcceptedNow(accepted, s, o))
  {
    hide Admitted;
    var now := BegunNow(s, o);
    assert QueuedOf(begun + now) == QueuedOf(begun) + QueuedOf(now);
  }

  lemma GoodStep(b: Both, o: Offer, l: Limits, far: Limits)
    requires Ready(b.writer, l) && Offered(o, l) && Above(far, l) && Good(b)
    ensures Good(Advanced(b, o, l, far))
  {
    var s, r := b.writer, b.reading;
    OrderStep(s, o, l, b.begun, b.accepted);
    if Sent(s, o, l).None? {
      QuietStep(s, o, l, r);
      assert b.begun + [] == b.begun && b.controls + [] == b.controls;
      hide InOrder, Synced, Next, Ready, Offered;
    } else if Passing(s, o).Some? {
      ControlStep(s, o, l, far, r);
      LaneAdd(r.messages, Message(true, Passing(s, o).value), true);
      LaneAdd(r.messages, Message(true, Passing(s, o).value), false);
      assert b.begun + [] == b.begun;
      hide InOrder, Synced, ReadOne, OnWire;
    } else {
      DataStep(s, o, l, far, r);
      DataDelivered(s, o, l, b.begun, r.messages);
      LaneAdd(r.messages, Message(false, Payload(s, o)), true);
      assert b.controls + [] == b.controls;
      hide InOrder, Synced, Delivered, ReadOne, OnWire;
    }
  }

  lemma DataDelivered(s: State, o: Offer, l: Limits, begun: seq<Outgoing>, messages: seq<Message>)
    requires Ready(s, l) && Offered(o, l) && Sent(s, o, l).Some? && Passing(s, o).None? && Delivered(s, begun, messages)
    ensures Picked(s, o).Some?
    ensures Delivered(Next(s, o, l), begun + BegunNow(s, o),
      if Next(s, o, l).offset == 0 then messages + [Message(false, Payload(s, o))] else messages)
  {
    LaneAdd(messages, Message(false, Payload(s, o)), false);
    var after := begun + BegunNow(s, o);
    assert after[..|after| - 1] == if s.offset == 0 then begun else begun[..|begun| - 1];
    assert SentOf(after) == SentOf(after[..|after| - 1]) + [after[|after| - 1].sent];
    hide Admitted, Lane;
  }

  lemma {:induction false} RunGood(offers: seq<Offer>, l: Limits, far: Limits)
    requires AllOffered(offers, l) && Above(far, l)
    ensures Good(Stream(offers, l, far))
    decreases |offers|
  {
    if offers != [] {
      AllButLast(offers, l);
      RunGood(offers[..|offers| - 1], l, far);
      GoodStep(Stream(offers[..|offers| - 1], l, far), offers[|offers| - 1], l, far);
    }
  }

  /**
    * Whatever the queues offer, the reader refuses no fragment and delivers the control messages that were sent,
    * whole and in order, and the accepted data messages as they were encoded, in order, up to the one under way and
    * the one to begin.
    */
  lemma StreamDelivers(offers: seq<Offer>, l: Limits, far: Limits)
    requires AllOffered(offers, l) && Above(far, l)
    ensures var b := Stream(offers, l, far);
            && !b.reading.broken && Lane(b.reading.messages, true) == b.controls
            && Lane(b.reading.messages, false) <= SentOf(b.begun) && QueuedOf(b.begun) <= b.accepted
            && |b.accepted| - |Lane(b.reading.messages, false)| <= 1
  {
    RunGood(offers, l, far);
    var b := Stream(offers, l, far);
    hide Stream;
    if b.writer.offset > 0 {
      assert SentOf(b.begun) == SentOf(b.begun[..|b.begun| - 1]) + [b.begun[|b.begun| - 1].sent];
    }
  }

  /** Turn `k` sends a control fragment while a data message waits. */
  ghost predicate Overtakes(offers: seq<Offer>, l: Limits, k: nat)
    requires AllOffered(offers, l)
  {
    && k < |offers| && AllOffered(offers[..k], l) && Picked(Run(offers[..k], l), offers[k]).Some?
    && Sent(Run(offers[..k], l), offers[k], l).Some? && Passing(Run(offers[..k], l), offers[k]).Some?
  }

  lemma {:induction false} BurstGrows(offers: seq<Offer>, l: Limits, i: nat, n: nat)
    requires AllOffered(offers, l) && i + n <= |offers| && forall k | i <= k < i + n :: Overtakes(offers, l, k)
    ensures Run(offers[..i + n], l).burst == Run(offers[..i], l).burst + n
  {
    if n > 0 {
      BurstGrows(offers, l, i, n - 1);
      var k := i + n - 1;
      assert Overtakes(offers, l, k);
      assert offers[..k + 1][..k] == offers[..k] && offers[..k + 1][k] == offers[k];
    }
  }

  /** No run lets more than four control fragments pass a waiting data message in a row. */
  lemma WaitsBehindFour(offers: seq<Offer>, l: Limits, i: nat, n: nat)
    requires AllOffered(offers, l) && i + n <= |offers| && forall k | i <= k < i + n :: Overtakes(offers, l, k)
    ensures n <= 4
  {
    if n > 0 {
      BurstGrows(offers, l, i, n - 1);
      assert Overtakes(offers, l, i + n - 1);
    }
  }

  lemma FailedStays(offers: seq<Offer>, l: Limits, far: Limits, n: nat)
    requires AllOffered(offers, l) && n <= |offers| && AllOffered(offers[..n], l) && Run(offers[..n], l).failed
    ensures Stream(offers, l, far) == Stream(offers[..n], l, far)
    decreases |offers| - n
  {
    if n < |offers| {
      assert offers[..n + 1][..n] == offers[..n] && offers[..n + 1][n] == offers[n];
      var b := Stream(offers[..n], l, far);
      assert b.controls + [] == b.controls && b.accepted + [] == b.accepted && b.begun + [] == b.begun;
      assert Stream(offers[..n + 1], l, far) == b;
      FailedStays(offers, l, far, n + 1);
    } else {
      assert offers[..n] == offers;
    }
  }

  /** One turn at both ends. */
  method ExchangeTurn(w: Writer, a: Assembly, o: Offer, far: Limits, ghost b: Both) returns (more: seq<Message>)
    requires Ready(b.writer, w.limits) && Offered(o, w.limits) && !w.failed && Above(far, w.limits) && Good(b)
    requires w.Now() == b.writer && a.Now() == b.reading.reader
    modifies w, a
    ensures var c := Advanced(b, o, w.limits, far);
      w.Now() == c.writer && Reading(a.Now(), b.reading.messages + more, false) == c.reading
  {
    GoodStep(b, o, w.limits, far);
    hide Ready, Offered, Next, Sent, DecodeFragment, EncodeFragment, Lane, Delivered, InOrder, Progressed, Absorbed;
    more := [];
    assert b.reading.messages + [] == b.reading.messages;
    var out := w.Turn(o);
    if out.Some? {
      var f := DecodeFragment(out.value, far);
      var p := a.Append(f.value);
      if p.Complete? {
        more := [p.message];
      }
    }
  }

  lemma StreamNext(offers: seq<Offer>, l: Limits, far: Limits, i: nat)
    requires AllOffered(offers, l) && i < |offers| && Above(far, l)
    ensures AllOffered(offers[..i], l) && AllOffered(offers[..i + 1], l) && Good(Stream(offers[..i], l, far))
    ensures Offered(offers[i], l)
    ensures Stream(offers[..i + 1], l, far) == Advanced(Stream(offers[..i], l, far), offers[i], l, far)
  {
    assert offers[..i + 1][..i] == offers[..i] && offers[..i + 1][i] == offers[i];
    RunGood(offers[..i], l, far);
  }

  /** The write loop and the read loop, turn by turn. */
  method Exchange(w: Writer, a: Assembly, offers: seq<Offer>, far: Limits) returns (delivered: seq<Message>)
    requires AllOffered(offers, w.limits) && w.Now() == START && a.Now() == Reader(None, 0) && Above(far, w.limits)
    modifies w, a
    ensures delivered == Stream(offers, w.limits, far).reading.messages
    ensures var b := Stream(offers, w.limits, far);
      Lane(delivered, true) == b.controls && Lane(delivered, false) <= SentOf(b.begun)
    ensures var b := Stream(offers, w.limits, far);
      QueuedOf(b.begun) <= b.accepted && |b.accepted| - |Lane(delivered, false)| <= 1
  {
    ghost var l := w.limits;
    StreamDelivers(offers, l, far);
    delivered := [];
    var i := 0;
    assert offers[..|offers|] == offers;
    while i < |offers| && !w.failed
      invariant 0 <= i <= |offers| && AllOffered(offers[..i], l)
      invariant var b := Stream(offers[..i], l, far);
        w.Now() == b.writer && Reading(a.Now(), delivered, false) == b.reading
    {
      StreamNext(offers, l, far, i);
      hide Stream, Run, Advanced, Good, Offered, AllOffered;
      var more := ExchangeTurn(w, a, offers[i], far, Stream(offers[..i], l, far));
      delivered := delivered + more;
      i := i + 1;
    }
    if w.failed {
      FailedStays(offers, l, far, i);
    }
  }
}
