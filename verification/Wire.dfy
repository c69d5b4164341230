/** Primitive wire values: canonical varints, zig-zag integers, booleans and length-delimited bytes. */
module Wire {
  import opened Prelude

  const MAX_VARINT: nat := 10

  // ----- unsigned varints -----

  /** Base 128, least significant group first; every byte but the last has its high bit set. */
  function UintBytes(v: nat): (bs: seq<byte>)
    ensures 0 < |bs|
  {
    if v < 128 then [v] else [128 + v % 128] + UintBytes(v / 128)
  }

  /** The number in groups of seven bits, the lowest first. */
  function Number(bs: seq<byte>): nat {
    if bs == [] then 0 else bs[0] % 128 + 128 * Number(bs[1..])
  }

  /** A varint is the number in groups of seven bits, marked as going on up to the last one, and not one too many. */
  lemma {:induction false} UintMeans(v: nat)
    ensures var bs := UintBytes(v);
      && Number(bs) == v && (forall i | 0 <= i < |bs| - 1 :: bs[i] >= 128)
      && bs[|bs| - 1] < 128 && (|bs| > 1 ==> bs[|bs| - 1] > 0)
  {
    if v >= 128 {
      UintMeans(v / 128);
      var bs, rest := UintBytes(v), UintBytes(v / 128);
      assert bs[1..] == rest && forall i | 1 <= i < |bs| :: bs[i] == rest[i - 1];
    }
  }

  datatype Raw = Truncated | Overflowing | Read(value: nat, size: nat)

  /** The varint reader of the standard library, at byte `k` of the number. */
  function ReadUvarint(bs: seq<byte>, k: nat): (r: Raw)
    requires k <= MAX_VARINT
    ensures r.Read? ==> 0 < r.size <= |bs|
    decreases |bs|
  {
    if bs == [] then Truncated
    else if k == MAX_VARINT then Overflowing
    else if bs[0] < 128 then
      if k == MAX_VARINT - 1 && bs[0] > 1 then Overflowing else Read(bs[0], 1)
    else
      match ReadUvarint(bs[1..], k + 1)
      case Truncated => Truncated
      case Overflowing => Overflowing
      case Read(v, n) => Read(bs[0] - 128 + 128 * v, n + 1)
  }

  /** A decoded value and what is left. */
  datatype Parsed<T> = Bad | Got(value: T, rest: seq<byte>)

  /** `wireDecoder.Uint`: the bytes must be the ones the encoder would write. */
  function ParseUint(bs: seq<byte>): (p: Parsed<nat>)
    ensures p.Got? ==> |p.rest| < |bs|
  {
    var raw := ReadUvarint(bs, 0);
    if raw.Read? && UintBytes(raw.value) == bs[..raw.size] then Got(raw.value, bs[raw.size..]) else Bad
  }

  /** How large a number may be when `k` of its bytes have been read. */
  function Cap(k: nat): nat
    decreases MAX_VARINT - k
  {
    if k >= MAX_VARINT - 1 then 2 else 128 * Cap(k + 1)
  }

  lemma CapIsU64()
    ensures Cap(0) == U64
  {
    assert Cap(8) == 128 * Cap(9) && Cap(7) == 128 * Cap(8) && Cap(6) == 128 * Cap(7);
    assert Cap(5) == 128 * Cap(6) && Cap(4) == 128 * Cap(5) && Cap(3) == 128 * Cap(4);
    assert Cap(2) == 128 * Cap(3) && Cap(1) == 128 * Cap(2) && Cap(0) == 128 * Cap(1);
  }

  lemma {:induction false} ReadsBack(v: nat, k: nat, rest: seq<byte>)
    requires k < MAX_VARINT && v < Cap(k)
    ensures ReadUvarint(UintBytes(v) + rest, k) == Read(v, |UintBytes(v)|)
    decreases v
  {
    var bs := UintBytes(v) + rest;
    if v < 128 {
      assert bs[0] == v;
    } else {
      ReadsBack(v / 128, k + 1, rest);
      assert bs[0] == 128 + v % 128 && bs[1..] == UintBytes(v / 128) + rest;
      assert ReadUvarint(bs, k) == Read(bs[0] - 128 + 128 * (v / 128), |UintBytes(v / 128)| + 1);
    }
  }

  lemma {:induction false} ReadBounded(bs: seq<byte>, k: nat)
    requires k < MAX_VARINT && ReadUvarint(bs, k).Read?
    ensures ReadUvarint(bs, k).value < Cap(k)
    decreases |bs|
  {
    if bs[0] >= 128 {
      assert k < MAX_VARINT - 1;
      ReadBounded(bs[1..], k + 1);
      assert ReadUvarint(bs, k).value == bs[0] - 128 + 128 * ReadUvarint(bs[1..], k + 1).value;
    } else if k < MAX_VARINT - 1 {
      CapAtLeastTwo(k + 1);
    }
  }

  lemma {:induction false} CapAtLeastTwo(k: nat)
    ensures 2 <= Cap(k)
    decreases MAX_VARINT - k
  {
    if k < MAX_VARINT - 1 {
      CapAtLeastTwo(k + 1);
    }
  }

  /** Round trip of a 64-bit unsigned number. */
  lemma UintRoundTrip(v: nat, rest: seq<byte>)
    requires v < U64
    ensures ParseUint(UintBytes(v) + rest) == Got(v, rest)
  {
    CapIsU64();
    ReadsBack(v, 0, rest);
    var bs := UintBytes(v) + rest;
    assert bs[..|UintBytes(v)|] == UintBytes(v) && bs[|UintBytes(v)|..] == rest;
  }

  /** The decoder accepts exactly what the encoder writes, followed by anything. */
  lemma UintCanonical(bs: seq<byte>, v: nat, rest: seq<byte>)
    ensures ParseUint(bs) == Got(v, rest) <==> v < U64 && bs == UintBytes(v) + rest
  {
    if ParseUint(bs) == Got(v, rest) {
      CapIsU64();
      ReadBounded(bs, 0);
      var n := ReadUvarint(bs, 0).size;
      assert bs == bs[..n] + bs[n..];
    }
    if v < U64 && bs == UintBytes(v) + rest {
      UintRoundTrip(v, rest);
    }
  }

  // ----- signed integers and booleans -----

  const I64_MIN: int := -0x8000_0000_0000_0000
  const I64_MAX: int := 0x7FFF_FFFF_FFFF_FFFF

  predicate IsInt64(v: int) {
    I64_MIN <= v <= I64_MAX
  }

  /** Small magnitudes of either sign become small unsigned numbers. */
  function ZigZag(v: int): nat {
    if v >= 0 then 2 * v else -2 * v - 1
  }

  function UnZigZag(n: nat): int {
    if n % 2 == 0 then n / 2 else -(n / 2) - 1
  }

  /** The 64-bit pattern of an integer, and the operations on patterns that the encoder uses. */
  function Pattern(v: int): nat
    requires IsInt64(v)
  {
    if v < 0 then v + U64 else v
  }

  function ShiftLeft(bits: nat): nat {
    2 * bits % U64
  }

  /** Exclusive or with a pattern of equal bits: the sign of the integer, repeated. */
  function FlipIf(sign: bool, bits: nat): nat
    requires bits < U64
  {
    if sign then U64 - 1 - bits else bits
  }

  /** Zig-zag is the shift by one, with all bits flipped for a negative integer. */
  lemma ZigZagIsShift(v: int)
    requires IsInt64(v)
    ensures ZigZag(v) == FlipIf(v < 0, ShiftLeft(Pattern(v))) < U64
  {
    if v < 0 {
      assert 2 * (v + U64) == U64 + (2 * v + U64);
    }
  }

  /** A smaller magnitude gives a smaller number, and a negative integer comes just before its opposite. */
  lemma ZigZagByMagnitude(v: int, w: int)
    ensures (if v < 0 then -v else v) < (if w < 0 then -w else w) ==> ZigZag(v) < ZigZag(w)
    ensures 0 < v ==> ZigZag(-v) + 1 == ZigZag(v)
  {
  }

  function IntBytes(v: int): seq<byte> {
    UintBytes(ZigZag(v))
  }

  function ParseInt(bs: seq<byte>): (p: Parsed<int>)
    ensures p.Got? ==> |p.rest| < |bs|
  {
    var u := ParseUint(bs);
    if u.Got? then Got(UnZigZag(u.value), u.rest) else Bad
  }

  /** Exactly the zig-zag encodings of 64-bit integers are accepted. */
  lemma IntCanonical(bs: seq<byte>, v: int, rest: seq<byte>)
    ensures ParseInt(bs) == Got(v, rest) <==> IsInt64(v) && bs == IntBytes(v) + rest
  {
    UintCanonical(bs, ZigZag(v), rest);
    if ParseInt(bs) == Got(v, rest) {
      var u := ParseUint(bs);
      UintCanonical(bs, u.value, u.rest);
      assert ZigZag(UnZigZag(u.value)) == u.value;
    }
    assert UnZigZag(ZigZag(v)) == v;
  }

  function BoolBytes(v: bool): seq<byte> {
    if v then [1] else [0]
  }

  function ParseBool(bs: seq<byte>): (p: Parsed<bool>)
    ensures p.Got? ==> |p.rest| < |bs|
  {
    if bs == [] || bs[0] > 1 then Bad else Got(bs[0] == 1, bs[1..])
  }

  lemma BoolCanonical(bs: seq<byte>, v: bool, rest: seq<byte>)
    ensures ParseBool(bs) == Got(v, rest) <==> bs == BoolBytes(v) + rest
  {
    if ParseBool(bs) == Got(v, rest) {
      assert bs == [bs[0]] + bs[1..];
    }
    if bs == BoolBytes(v) + rest {
      assert bs[1..] == rest;
    }
  }

  // ----- bytes -----

  /** A fixed number of bytes, as for IEEE 754 bit patterns. */
  function ParseFixed(bs: seq<byte>, n: nat): (p: Parsed<seq<byte>>)
    ensures p.Got? ==> |p.rest| == |bs| - n
  {
    if |bs| < n then Bad else Got(bs[..n], bs[n..])
  }

  lemma FixedRoundTrip(data: seq<byte>, rest: seq<byte>)
    ensures ParseFixed(data + rest, |data|) == Got(data, rest)
  {
    assert (data + rest)[..|data|] == data && (data + rest)[|data|..] == rest;
  }

  /** Length first, then the bytes. */
  function RawBytes(data: seq<byte>): (bs: seq<byte>)
    ensures |data| < |bs|
  {
    UintBytes(|data|) + data
  }

  /** `rawView`: the length is bounded by the limit and by what remains. */
  function ParseRaw(bs: seq<byte>, limit: nat): (p: Parsed<seq<byte>>)
    ensures p.Got? ==> |p.rest| < |bs|
  {
    var n := ParseUint(bs);
    if n.Bad? || n.value > limit || n.value > |n.rest| then Bad else ParseFixed(n.rest, n.value)
  }

  lemma RawRoundTrip(data: seq<byte>, rest: seq<byte>, limit: nat)
    requires |data| <= limit && |data| < U64
    ensures ParseRaw(RawBytes(data) + rest, limit) == Got(data, rest)
  {
    assert RawBytes(data) + rest == UintBytes(|data|) + (data + rest);
    UintRoundTrip(|data|, data + rest);
    FixedRoundTrip(data, rest);
  }

  /** Accepted length-delimited bytes are exactly the encodings of sequences within the limit. */
  lemma RawCanonical(bs: seq<byte>, data: seq<byte>, rest: seq<byte>, limit: nat)
    requires limit < U64
    ensures ParseRaw(bs, limit) == Got(data, rest) <==> |data| <= limit && bs == RawBytes(data) + rest
  {
    hide UintBytes, ReadUvarint;
    if ParseRaw(bs, limit) == Got(data, rest) {
      var n := ParseUint(bs);
      UintCanonical(bs, n.value, n.rest);
      assert n.rest == data + rest && |data| == n.value;
      assert bs == RawBytes(data) + rest;
    }
    if |data| <= limit && bs == RawBytes(data) + rest {
      RawRoundTrip(data, rest, limit);
    }
  }

  // ----- the encoder and the decoder -----

  class Encoder {
    var data: seq<byte>

    constructor ()
      ensures data == []
    {
      data := [];
    }

    /** Appends a varint group by group. */
    method Uint(value: nat)
      modifies this
      ensures data == old(data) + UintBytes(value)
    {
      var v := value;
      while v >= 128
        invariant data + UintBytes(v) == old(data) + UintBytes(value)
        decreases v
      {
        assert data + UintBytes(v) == (data + [128 + v % 128]) + UintBytes(v / 128);
        data := data + [128 + v % 128];
        v := v / 128;
      }
      data := data + [v];
    }

    method Int(value: int)
      modifies this
      ensures data == old(data) + IntBytes(value)
    {
      Uint(ZigZag(value));
    }

    method Bool(value: bool)
      modifies this
      ensures data == old(data) + BoolBytes(value)
    {
      data := data + (if value then [1] else [0]);
    }

    /** Bytes of fixed length, without a length prefix. */
    method Fixed(value: seq<byte>)
      modifies this
      ensures data == old(data) + value
    {
      data := data + value;
    }

    method Raw(value: seq<byte>)
      modifies this
      ensures data == old(data) + RawBytes(value)
    {
      Uint(|value|);
      data := data + value;
    }
  }

  class Decoder {
    const data: seq<byte>
    const limit: nat
    var offset: nat

    constructor (data: seq<byte>, limit: nat)
      ensures this.data == data && this.limit == limit && offset == 0 && Valid()
    {
      this.data, this.limit, offset := data, limit, 0;
    }

    ghost predicate Valid()
      reads this
    {
      offset <= |data|
    }

    /** What has not been read yet. */
    function Remaining(): seq<byte>
      requires offset <= |data|
      reads this
    {
      data[offset..]
    }

    method Uint() returns (r: Option<nat>)
      requires Valid()
      modifies this
      ensures Valid()
      ensures match ParseUint(old(Remaining()))
              case Bad => r == None && offset == old(offset)
              case Got(v, rest) => r == Some(v) && Remaining() == rest && v < U64
    {
      var raw := ReadUvarint(data[offset..], 0);
      UintBound(data[offset..]);
      if !raw.Read? || UintBytes(raw.value) != data[offset..][..raw.size] {
        return None;
      }
      assert data[offset..][raw.size..] == data[offset + raw.size..];
      offset := offset + raw.size;
      r := Some(raw.value);
    }

    method Int() returns (r: Option<int>)
      requires Valid()
      modifies this
      ensures Valid()
      ensures match ParseInt(old(Remaining()))
              case Bad => r == None && offset == old(offset)
              case Got(v, rest) => r == Some(v) && Remaining() == rest
    {
      var u := Uint();
      r := if u.Some? then Some(UnZigZag(u.value)) else None;
    }

    method Bool() returns (r: Option<bool>)
      requires Valid()
      modifies this
      ensures Valid()
      ensures match ParseBool(old(Remaining()))
              case Bad => r == None
              case Got(v, rest) => r == Some(v) && Remaining() == rest
    {
      if offset >= |data| {
        return None;
      }
      var value := data[offset];
      assert data[offset..][1..] == data[offset + 1..];
      offset := offset + 1;
      r := if value > 1 then None else Some(value == 1);
    }

    method Fixed(size: nat) returns (r: Option<seq<byte>>)
      requires Valid()
      modifies this
      ensures Valid()
      ensures match ParseFixed(old(Remaining()), size)
              case Bad => r == None && offset == old(offset)
              case Got(v, rest) => r == Some(v) && Remaining() == rest
    {
      if size > |data| - offset {
        return None;
      }
      assert data[offset..][..size] == data[offset..offset + size] && data[offset..][size..] == data[offset + size..];
      r := Some(data[offset..offset + size]);
      offset := offset + size;
    }

    method Raw() returns (r: Option<seq<byte>>)
      requires Valid()
      modifies this
      ensures Valid()
      ensures match ParseRaw(old(Remaining()), limit)
              case Bad => r == None
              case Got(v, rest) => r == Some(v) && Remaining() == rest
    {
      var size := Uint();
      if size.None? || size.value > limit || size.value > |data| - offset {
        return None;
      }
      r := Fixed(size.value);
    }
  }

  lemma UintBound(bs: seq<byte>)
    ensures ParseUint(bs).Got? ==> ParseUint(bs).value < U64
  {
    if ParseUint(bs).Got? {
      UintCanonical(bs, ParseUint(bs).value, ParseUint(bs).rest);
    }
  }
}
