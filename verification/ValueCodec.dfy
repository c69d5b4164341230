/** The canonical value codec: `EncodeValues` and `DecodeValues`. */
module ValueCodec {
  import opened Prelude
  import opened Wire
  import opened Values
  import opened Ordering

  const WIRE_NIL: nat := 0
  const WIRE_BOOL: nat := 1
  const WIRE_INT: nat := 2
  const WIRE_UINT: nat := 3
  const WIRE_FLOAT: nat := 4
  const WIRE_COMPLEX: nat := 5
  const WIRE_STRING: nat := 6
  const WIRE_BYTES: nat := 7
  const WIRE_SLICE: nat := 8
  const WIRE_MAP: nat := 9
  const WIRE_STRUCT: nat := 10
  const WIRE_OPTIONAL: nat := 11
  const WIRE_RESOURCE: nat := 12

  // ----- encoding, and the value the encoding stands for -----

  /** A map entry with its encoded key and value, and with its parts in canonical order. */
  datatype PreparedEntry = PreparedEntry(key: seq<byte>, value: seq<byte>, entry: Entry)

  datatype PreparedField = PreparedField(id: nat, value: seq<byte>, field: Field)

  /** Map entries are ordered by their encoded keys. */
  function EntryKey(p: PreparedEntry): seq<int> {
    p.key
  }

  /** Struct fields are ordered by their identifiers. */
  function FieldKey(p: PreparedField): seq<int> {
    [p.id]
  }

  function Encode(v: Value): (bs: seq<byte>)
    ensures 0 < |bs|
  {
    RawBytes(v.typ) + (if v.resource.Some? then EncodeResource(v.resource.value) else EncodeData(v.data))
  }

  function EncodeResource(r: ResourceRef): seq<byte> {
    UintBytes(WIRE_RESOURCE) + (UintBytes(r.epoch) + (UintBytes(r.objectID) + RawBytes(r.typeHash)))
  }

  function EncodeData(d: Data): seq<byte> {
    match d
    case Nil => UintBytes(WIRE_NIL)
    case Bool(b) => UintBytes(WIRE_BOOL) + BoolBytes(b)
    case Int(i) => UintBytes(WIRE_INT) + IntBytes(i)
    case Uint(u) => UintBytes(WIRE_UINT) + UintBytes(u)
    case Float(f) => UintBytes(WIRE_FLOAT) + f
    case Complex(re, im) => UintBytes(WIRE_COMPLEX) + (re + im)
    case String(s) => UintBytes(WIRE_STRING) + RawBytes(s)
    case Bytes(s) => UintBytes(WIRE_BYTES) + RawBytes(s)
    case Slice(items) => UintBytes(WIRE_SLICE) + (UintBytes(|items|) + EncodeItems(items))
    case Map(entries) => UintBytes(WIRE_MAP) + (UintBytes(|entries|) + EntryBlock(Sort(Prepare(entries), EntryKey)))
    case Struct(fields) => UintBytes(WIRE_STRUCT) +
      (UintBytes(|fields|) + FieldBlock(Sort(PrepareFields(fields), FieldKey)))
    case Optional(inner) => UintBytes(WIRE_OPTIONAL) + Encode(inner)
  }

  /** The byte that says what kind of data follows. */
  lemma KindByte(d: Data)
    ensures |EncodeData(d)| > 0 && EncodeData(d)[0] == KindNumber(d)
  {
  }

  function KindNumber(d: Data): nat {
    match d
    case Nil => 0
    case Bool(_) => 1
    case Int(_) => 2
    case Uint(_) => 3
    case Float(_) => 4
    case Complex(_, _) => 5
    case String(_) => 6
    case Bytes(_) => 7
    case Slice(_) => 8
    case Map(_) => 9
    case Struct(_) => 10
    case Optional(_) => 11
  }

  lemma ResourceByte(r: ResourceRef)
    ensures |EncodeResource(r)| > 0 && EncodeResource(r)[0] == 12
  {
  }

  function EncodeItems(items: seq<Value>): seq<byte> {
    if items == [] then [] else Encode(items[0]) + EncodeItems(items[1..])
  }

  function Prepare(entries: seq<Entry>): (ps: seq<PreparedEntry>)
    ensures |ps| == |entries|
  {
    if entries == [] then [] else [PrepareEntry(entries[0])] + Prepare(entries[1..])
  }

  function PrepareEntry(e: Entry): PreparedEntry {
    PreparedEntry(Encode(e.key), Encode(e.value), Entry(Canon(e.key), Canon(e.value)))
  }

  function PrepareFields(fields: seq<Field>): (ps: seq<PreparedField>)
    ensures |ps| == |fields|
  {
    if fields == [] then [] else [PrepareField(fields[0])] + PrepareFields(fields[1..])
  }

  function PrepareField(f: Field): PreparedField {
    PreparedField(f.id, Encode(f.value), Field(f.id, Canon(f.value)))
  }

  function EntryBlock(ps: seq<PreparedEntry>): seq<byte> {
    if ps == [] then [] else (ps[0].key + ps[0].value) + EntryBlock(ps[1..])
  }

  function FieldBlock(ps: seq<PreparedField>): seq<byte> {
    if ps == [] then [] else (UintBytes(ps[0].id) + ps[0].value) + FieldBlock(ps[1..])
  }

  /** The same value with map entries and struct fields in canonical order. */
  function Canon(v: Value): Value {
    if v.resource.Some? then v else v.(data := CanonData(v.data))
  }

  function CanonData(d: Data): Data {
    match d
    case Slice(items) => Slice(CanonItems(items))
    case Map(entries) => Map(Entries(Sort(Prepare(entries), EntryKey)))
    case Struct(fields) => Struct(Fields(Sort(PrepareFields(fields), FieldKey)))
    case Optional(inner) => Optional(Canon(inner))
    case _ => d
  }

  function CanonItems(items: seq<Value>): (cs: seq<Value>)
    ensures |cs| == |items|
  {
    if items == [] then [] else [Canon(items[0])] + CanonItems(items[1..])
  }

  function Entries(ps: seq<PreparedEntry>): seq<Entry> {
    seq(|ps|, i requires 0 <= i < |ps| => ps[i].entry)
  }

  function Fields(ps: seq<PreparedField>): seq<Field> {
    seq(|ps|, i requires 0 <= i < |ps| => ps[i].field)
  }

  // ----- decoding -----

  /** A length-delimited string must be valid UTF-8. */
  function ParseText(bs: seq<byte>, r: Rules): (p: Parsed<Text>)
    ensures p.Got? ==> |p.rest| < |bs|
  {
    var raw := ParseRaw(bs, r.limit);
    if raw.Got? && r.utf8(raw.value) then raw else Bad
  }

  function Decode(bs: seq<byte>, depth: nat, r: Rules): (p: Parsed<Value>)
    ensures p.Got? ==> |p.rest| < |bs|
    decreases |bs|, 0
  {
    if depth > r.depth then Bad
    else
      var typ := ParseText(bs, r);
      if typ.Bad? || typ.value == [] then Bad
      else
        var kind := ParseUint(typ.rest);
        if kind.Bad? then Bad
        else if kind.value == WIRE_RESOURCE then
          var ref := ParseResource(kind.rest, r);
          if ref.Bad? then Bad else Got(Value(typ.value, Nil, Some(ref.value)), ref.rest)
        else
          var data := DecodeData(kind.value, kind.rest, depth, r);
          if data.Bad? then Bad else Got(Value(typ.value, data.value, None), data.rest)
  }

  function ParseResource(bs: seq<byte>, r: Rules): (p: Parsed<ResourceRef>)
    ensures p.Got? ==> |p.rest| < |bs|
  {
    var epoch := ParseUint(bs);
    if epoch.Bad? then Bad
    else
      var id := ParseUint(epoch.rest);
      if id.Bad? then Bad
      else
        var hash := ParseText(id.rest, r);
        if hash.Bad? then Bad
        else
          UintBound(bs);
          UintBound(epoch.rest);
          Got(ResourceRef(epoch.value, id.value, hash.value), hash.rest)
  }

  function DecodeData(kind: nat, bs: seq<byte>, depth: nat, r: Rules): (p: Parsed<Data>)
    ensures p.Got? ==> |p.rest| <= |bs|
    decreases |bs|, 3
  {
    if kind == WIRE_NIL then Got(Nil, bs)
    else if kind == WIRE_BOOL then var b := ParseBool(bs); if b.Bad? then Bad else Got(Bool(b.value), b.rest)
    else if kind == WIRE_INT then
      var i := ParseInt(bs);
      if i.Bad? then Bad else
        IntCanonical(bs, i.value, i.rest);
        Got(Int(i.value), i.rest)
    else if kind == WIRE_UINT then
      var u := ParseUint(bs);
      if u.Bad? then Bad else
        UintBound(bs);
        Got(Uint(u.value), u.rest)
    else if kind == WIRE_FLOAT then var f := ParseFixed(bs, 8); if f.Bad? then Bad else Got(Float(f.value), f.rest)
    else if kind == WIRE_COMPLEX then
      var re := ParseFixed(bs, 8);
      if re.Bad? then Bad else
        var im := ParseFixed(re.rest, 8);
        if im.Bad? then Bad else Got(Complex(re.value, im.value), im.rest)
    else if kind == WIRE_STRING then var s := ParseText(bs, r); if s.Bad? then Bad else Got(String(s.value), s.rest)
    else if kind == WIRE_BYTES then var s := ParseRaw(bs, r.limit); if s.Bad? then Bad else Got(Bytes(s.value), s.rest)
    else if kind == WIRE_OPTIONAL then var v := Decode(bs, depth + 1, r);
      if v.Bad? then Bad else Got(Optional(v.value), v.rest)
    else if kind == WIRE_SLICE || kind == WIRE_MAP || kind == WIRE_STRUCT then
      var n := ParseUint(bs);
      if n.Bad? || n.value > r.elements then Bad
      else if kind == WIRE_SLICE then
        var items := DecodeItems(n.rest, n.value, depth + 1, r);
        if items.Bad? then Bad else Got(Slice(items.value), items.rest)
      else if kind == WIRE_MAP then
        var entries := DecodeEntries(n.rest, n.value, depth + 1, r);
        if entries.Bad? then Bad else Got(Map(entries.value), entries.rest)
      else
        var fields := DecodeFields(n.rest, n.value, depth + 1, r);
        if fields.Bad? then Bad else Got(Struct(fields.value), fields.rest)
    else Bad
  }

  function DecodeItems(bs: seq<byte>, count: nat, depth: nat, r: Rules): (p: Parsed<seq<Value>>)
    ensures p.Got? ==> |p.rest| <= |bs|
    decreases |bs|, 1
  {
    if count == 0 then Got([], bs)
    else
      var first := Decode(bs, depth, r);
      if first.Bad? then Bad
      else
        var rest := DecodeItems(first.rest, count - 1, depth, r);
        if rest.Bad? then Bad else Got([first.value] + rest.value, rest.rest)
  }

  function DecodeEntries(bs: seq<byte>, count: nat, depth: nat, r: Rules): (p: Parsed<seq<Entry>>)
    ensures p.Got? ==> |p.rest| <= |bs|
    decreases |bs|, 1
  {
    if count == 0 then Got([], bs)
    else
      var key := Decode(bs, depth, r);
      if key.Bad? then Bad
      else
        var value := Decode(key.rest, depth, r);
        if value.Bad? then Bad
        else
          var rest := DecodeEntries(value.rest, count - 1, depth, r);
          if rest.Bad? then Bad else Got([Entry(key.value, value.value)] + rest.value, rest.rest)
  }

  function DecodeFields(bs: seq<byte>, count: nat, depth: nat, r: Rules): (p: Parsed<seq<Field>>)
    ensures p.Got? ==> |p.rest| <= |bs|
    decreases |bs|, 1
  {
    if count == 0 then Got([], bs)
    else
      var id := ParseUint(bs);
      if id.Bad? || id.value == 0 || id.value > 0xFFFF_FFFF then Bad
      else
        var value := Decode(id.rest, depth, r);
        if value.Bad? then Bad
        else
          var rest := DecodeFields(value.rest, count - 1, depth, r);
          if rest.Bad? then Bad else Got([Field(id.value, value.value)] + rest.value, rest.rest)
  }

  // ----- decoding what was encoded -----

  /** The hash of a valid resource reference is a type name, so it is valid UTF-8. */
  ghost predicate RulesOk(r: Rules) {
    && r.limit < U64 && r.elements < U64
    && forall t: Text, ref: ResourceRef :: r.resource(t, ref) ==> r.utf8(ref.typeHash)
  }

  /** A value the encoder accepts at this depth: sound, within budget, and with a resource hash that fits. */
  ghost predicate Fits(v: Value, depth: nat, r: Rules) {
    && Sound(v, depth, r) && BytesOf(v) <= r.limit && ElementsOf(v) <= r.elements
    && (v.resource.Some? ==> |v.resource.value.typeHash| <= r.limit)
  }

  ghost predicate HashesFit(items: seq<Value>, r: Rules) {
    forall i | 0 <= i < |items| && items[i].resource.Some? :: |items[i].resource.value.typeHash| <= r.limit
  }

  ghost predicate DataFits(d: Data, depth: nat, r: Rules) {
    SoundData(d, depth, r) && DataBytes(d) <= r.limit && DataElements(d) <= r.elements
  }

  function KindOf(d: Data): nat {
    match d
    case Nil => WIRE_NIL
    case Bool(_) => WIRE_BOOL
    case Int(_) => WIRE_INT
    case Uint(_) => WIRE_UINT
    case Float(_) => WIRE_FLOAT
    case Complex(_, _) => WIRE_COMPLEX
    case String(_) => WIRE_STRING
    case Bytes(_) => WIRE_BYTES
    case Slice(_) => WIRE_SLICE
    case Map(_) => WIRE_MAP
    case Struct(_) => WIRE_STRUCT
    case Optional(_) => WIRE_OPTIONAL
  }

  function BodyOf(d: Data): seq<byte> {
    match d
    case Nil => []
    case Bool(b) => BoolBytes(b)
    case Int(i) => IntBytes(i)
    case Uint(u) => UintBytes(u)
    case Float(f) => f
    case Complex(re, im) => re + im
    case String(s) => RawBytes(s)
    case Bytes(s) => RawBytes(s)
    case Slice(items) => UintBytes(|items|) + EncodeItems(items)
    case Map(entries) => UintBytes(|entries|) + EntryBlock(Sort(Prepare(entries), EntryKey))
    case Struct(fields) => UintBytes(|fields|) + FieldBlock(Sort(PrepareFields(fields), FieldKey))
    case Optional(inner) => Encode(inner)
  }

  lemma DataIsKindAndBody(d: Data)
    ensures EncodeData(d) == UintBytes(KindOf(d)) + BodyOf(d)
  {
    if d.Nil? {
      assert UintBytes(WIRE_NIL) + [] == UintBytes(WIRE_NIL);
    }
  }

  lemma TextRoundTrip(s: Text, rest: seq<byte>, r: Rules)
    requires |s| <= r.limit < U64 && r.utf8(s)
    ensures ParseText(RawBytes(s) + rest, r) == Got(s, rest)
  {
    RawRoundTrip(s, rest, r.limit);
  }

  lemma ResourceRoundTrip(ref: ResourceRef, rest: seq<byte>, r: Rules)
    requires |ref.typeHash| <= r.limit < U64 && r.utf8(ref.typeHash)
    ensures ParseUint(EncodeResource(ref) + rest) ==
      Got(WIRE_RESOURCE, (UintBytes(ref.epoch) + (UintBytes(ref.objectID) + RawBytes(ref.typeHash))) + rest)
    ensures ParseResource((UintBytes(ref.epoch) + (UintBytes(ref.objectID) + RawBytes(ref.typeHash))) + rest, r) ==
      Got(ref, rest)
  {
    hide UintBytes, RawBytes, ParseText, ParseUint;
    var hash := RawBytes(ref.typeHash) + rest;
    var id := UintBytes(ref.objectID) + hash;
    var all := UintBytes(ref.epoch) + id;
    assert (UintBytes(ref.epoch) + (UintBytes(ref.objectID) + RawBytes(ref.typeHash))) + rest == all;
    assert EncodeResource(ref) + rest == UintBytes(WIRE_RESOURCE) + all;
    UintRoundTrip(WIRE_RESOURCE, all);
    UintRoundTrip(ref.epoch, id);
    UintRoundTrip(ref.objectID, hash);
    TextRoundTrip(ref.typeHash, rest, r);
  }

  lemma {:induction false} ItemCount(items: seq<Value>)
    ensures |items| <= ItemElements(items)
  {
    if items != [] {
      ItemCount(items[1..]);
    }
  }

  lemma {:induction false} EntryCount(entries: seq<Entry>)
    ensures |entries| <= EntryElements(entries)
  {
    if entries != [] {
      EntryCount(entries[1..]);
      assert 1 <= ElementsOf(entries[0].key);
    }
  }

  lemma {:induction false} FieldCount(fields: seq<Field>)
    ensures |fields| <= FieldElements(fields)
  {
    if fields != [] {
      FieldCount(fields[1..]);
      assert 1 <= ElementsOf(fields[0].value);
    }
  }

  // ----- what canonical order keeps -----

  function EntryWeight(p: PreparedEntry): nat {
    BytesOfEntry(p.entry)
  }

  function EntryElementWeight(p: PreparedEntry): nat {
    ElementsOfEntry(p.entry)
  }

  function FieldWeight(p: PreparedField): nat {
    BytesOfField(p.field)
  }

  function FieldElementWeight(p: PreparedField): nat {
    ElementsOfField(p.field)
  }

  lemma {:induction false} EntrySums(ps: seq<PreparedEntry>)
    ensures EntryBytes(Entries(ps)) == Sum(ps, EntryWeight) && EntryElements(Entries(ps)) == Sum(ps, EntryElementWeight)
  {
    if ps != [] {
      var n := |ps| - 1;
      EntrySums(ps[..n]);
      assert Entries(ps) == Entries(ps[..n]) + [ps[n].entry];
      EntryAppend(Entries(ps[..n]), ps[n].entry);
    }
  }

  lemma {:induction false} EntryAppend(es: seq<Entry>, e: Entry)
    ensures EntryBytes(es + [e]) == EntryBytes(es) + BytesOfEntry(e)
    ensures EntryElements(es + [e]) == EntryElements(es) + ElementsOfEntry(e)
  {
    hide BytesOfEntry, ElementsOfEntry;
    if es == [] {
      assert [e][1..] == [] && es + [e] == [e];
    } else {
      EntryAppend(es[1..], e);
      assert (es + [e])[1..] == es[1..] + [e];
    }
  }

  lemma {:induction false} FieldSums(ps: seq<PreparedField>)
    ensures FieldBytes(Fields(ps)) == Sum(ps, FieldWeight) && FieldElements(Fields(ps)) == Sum(ps, FieldElementWeight)
  {
    if ps != [] {
      var n := |ps| - 1;
      FieldSums(ps[..n]);
      assert Fields(ps) == Fields(ps[..n]) + [ps[n].field];
      FieldAppend(Fields(ps[..n]), ps[n].field);
    }
  }

  lemma {:induction false} FieldAppend(fs: seq<Field>, f: Field)
    ensures FieldBytes(fs + [f]) == FieldBytes(fs) + BytesOfField(f)
    ensures FieldElements(fs + [f]) == FieldElements(fs) + ElementsOfField(f)
  {
    hide BytesOfField, ElementsOfField;
    if fs == [] {
      assert [f][1..] == [] && fs + [f] == [f];
    } else {
      FieldAppend(fs[1..], f);
      assert (fs + [f])[1..] == fs[1..] + [f];
    }
  }

  /** A value and its rearrangement: same type, same cost, and sound where the value is. */
  ghost predicate Alike(v: Value, w: Value) {
    && w.typ == v.typ && BytesOf(w) == BytesOf(v) && ElementsOf(w) == ElementsOf(v)
    && forall depth: nat, r: Rules :: Sound(v, depth, r) ==> Sound(w, depth, r)
  }

  ghost predicate DataAlike(d: Data, c: Data) {
    && Summarize(c) == Summarize(d) && DataBytes(c) == DataBytes(d) && DataElements(c) == DataElements(d)
    && forall depth: nat, r: Rules :: SoundData(d, depth, r) ==> SoundData(c, depth, r)
  }

  lemma {:induction false} CanonAlike(v: Value)
    ensures Alike(v, Canon(v))
    decreases v
  {
    if v.resource.None? {
      CanonDataAlike(v.data);
      var w := Canon(v);
      forall depth: nat, r: Rules | Sound(v, depth, r)
        ensures Sound(w, depth, r)
      {
        assert SoundData(v.data, depth, r);
        assert SoundData(w.data, depth, r);
      }
    }
  }

  lemma {:induction false} CanonDataAlike(d: Data)
    ensures DataAlike(d, CanonData(d))
    decreases d
  {
    match d {
      case Slice(items) => SliceAlike(items);
      case Map(entries) => MapAlike(entries);
      case Struct(fields) => StructAlike(fields);
      case Optional(inner) =>
        CanonAlike(inner);
        OptionalAlike(inner, Canon(inner));
      case _ =>
    }
  }

  lemma OptionalAlike(v: Value, w: Value)
    requires Alike(v, w)
    ensures DataAlike(Optional(v), Optional(w))
  {
    forall depth: nat, r: Rules | SoundData(Optional(v), depth, r)
      ensures SoundData(Optional(w), depth, r)
    {
      assert Sound(v, depth + 1, r) && Sound(w, depth + 1, r);
    }
  }

  lemma {:induction false} ItemsAlike(items: seq<Value>)
    ensures ItemBytes(CanonItems(items)) == ItemBytes(items) && ItemElements(CanonItems(items)) == ItemElements(items)
    ensures forall i | 0 <= i < |items| :: Alike(items[i], CanonItems(items)[i])
    decreases items, 0
  {
    hide Canon, BytesOf, ElementsOf, Sound;
    if items != [] {
      ItemsAlike(items[1..]);
      CanonAlike(items[0]);
      assert CanonItems(items)[1..] == CanonItems(items[1..]);
    }
  }

  lemma {:induction false} SliceAlike(items: seq<Value>)
    ensures DataAlike(Slice(items), CanonData(Slice(items)))
    decreases items, 1
  {
    hide Canon, BytesOf, ElementsOf, Sound, CanonItems;
    ItemsAlike(items);
    var cs := CanonItems(items);
    forall i | 0 <= i < |items|
      ensures cs[i].typ == items[i].typ
    {
      assert Alike(items[i], cs[i]);
    }
    forall depth: nat, r: Rules | SoundData(Slice(items), depth, r)
      ensures SoundData(Slice(cs), depth, r)
    {
      SliceSound(items, cs, depth, r);
    }
  }

  lemma SliceSound(items: seq<Value>, cs: seq<Value>, depth: nat, r: Rules)
    requires |cs| == |items| && (forall i | 0 <= i < |items| :: Alike(items[i], cs[i]))
    requires SoundData(Slice(items), depth, r)
    ensures SoundData(Slice(cs), depth, r)
  {
    forall i | 0 <= i < |cs|
      ensures Sound(cs[i], depth + 1, r)
    {
      assert Alike(items[i], cs[i]) && Sound(items[i], depth + 1, r);
    }
  }

  ghost predicate EntryAlike(e: Entry, p: PreparedEntry) {
    Alike(e.key, p.entry.key) && Alike(e.value, p.entry.value)
  }

  lemma {:induction false} PrepareAlike(entries: seq<Entry>)
    ensures forall i | 0 <= i < |entries| :: EntryAlike(entries[i], Prepare(entries)[i])
    ensures EntryBytes(Entries(Prepare(entries))) == EntryBytes(entries)
    ensures EntryElements(Entries(Prepare(entries))) == EntryElements(entries)
    decreases entries, 0
  {
    hide Canon, BytesOf, ElementsOf, Sound, Encode;
    if entries != [] {
      PrepareAlike(entries[1..]);
      PrepareEntryAlike(entries[0]);
      assert Entries(Prepare(entries))[1..] == Entries(Prepare(entries[1..]));
    }
  }

  lemma {:induction false} PrepareEntryAlike(e: Entry)
    ensures EntryAlike(e, PrepareEntry(e))
    decreases e
  {
    hide Canon, BytesOf, ElementsOf, Sound, Encode, Alike;
    CanonAlike(e.key);
    CanonAlike(e.value);
  }

  lemma {:induction false} MapAlike(entries: seq<Entry>)
    ensures DataAlike(Map(entries), CanonData(Map(entries)))
    decreases entries, 1
  {
    hide Canon, BytesOf, ElementsOf, Sound, Encode, Sort;
    PrepareAlike(entries);
    var ps := Prepare(entries);
    var sorted := Sort(ps, EntryKey);
    SortKeepsMembers(ps, EntryKey);
    SortSum(ps, EntryKey, EntryWeight);
    SortSum(ps, EntryKey, EntryElementWeight);
    EntrySums(ps);
    EntrySums(sorted);
    MapTypes(entries, ps, sorted);
    forall depth: nat, r: Rules | SoundData(Map(entries), depth, r)
      ensures SoundData(Map(Entries(sorted)), depth, r)
    {
      MapSound(entries, ps, sorted, depth, r);
    }
  }

  /** Each sorted entry is one of the entries with canonical parts. */
  lemma MapSound(entries: seq<Entry>, ps: seq<PreparedEntry>, sorted: seq<PreparedEntry>, depth: nat, r: Rules)
    requires |ps| == |entries| && (forall i | 0 <= i < |entries| :: EntryAlike(entries[i], ps[i]))
    requires forall p | p in sorted :: p in ps
    requires SoundData(Map(entries), depth, r)
    ensures SoundData(Map(Entries(sorted)), depth, r)
  {
    var es := Entries(sorted);
    forall i | 0 <= i < |es|
      ensures Sound(es[i].key, depth + 1, r) && Sound(es[i].value, depth + 1, r)
    {
      assert sorted[i] in ps;
      var k :| 0 <= k < |ps| && ps[k] == sorted[i];
      EntrySound(entries[k], ps[k], depth + 1, r);
    }
  }

  lemma EntrySound(e: Entry, p: PreparedEntry, depth: nat, r: Rules)
    requires EntryAlike(e, p) && Sound(e.key, depth, r) && Sound(e.value, depth, r)
    ensures Sound(p.entry.key, depth, r) && Sound(p.entry.value, depth, r)
  {
  }

  lemma MapTypes(entries: seq<Entry>, ps: seq<PreparedEntry>, sorted: seq<PreparedEntry>)
    requires |ps| == |entries| && (forall i | 0 <= i < |entries| :: EntryAlike(entries[i], ps[i]))
    requires forall p :: p in sorted <==> p in ps
    ensures Summarize(Map(Entries(sorted))) == Summarize(Map(entries))
  {
    hide BytesOf, ElementsOf, Sound;
    var a, b := Summarize(Map(entries)).entries, Summarize(Map(Entries(sorted))).entries;
    forall t | t in a
      ensures t in b
    {
      var k :| 0 <= k < |entries| && t == (entries[k].key.typ, entries[k].value.typ);
      assert EntryAlike(entries[k], ps[k]) && ps[k] in sorted;
      var j :| 0 <= j < |sorted| && sorted[j] == ps[k];
      assert Entries(sorted)[j] == ps[k].entry;
    }
    forall t | t in b
      ensures t in a
    {
      var j :| 0 <= j < |sorted| && t == (Entries(sorted)[j].key.typ, Entries(sorted)[j].value.typ);
      assert sorted[j] in ps;
      var k :| 0 <= k < |ps| && ps[k] == sorted[j];
      assert EntryAlike(entries[k], ps[k]);
    }
    assert a == b;
  }

  ghost predicate FieldAlike(f: Field, p: PreparedField) {
    p.id == f.id && p.field.id == f.id && Alike(f.value, p.field.value)
  }

  lemma {:induction false} PrepareFieldsAlike(fields: seq<Field>)
    ensures forall i | 0 <= i < |fields| :: FieldAlike(fields[i], PrepareFields(fields)[i])
    ensures FieldBytes(Fields(PrepareFields(fields))) == FieldBytes(fields)
    ensures FieldElements(Fields(PrepareFields(fields))) == FieldElements(fields)
    decreases fields, 0
  {
    hide Canon, BytesOf, ElementsOf, Sound, Encode;
    if fields != [] {
      PrepareFieldsAlike(fields[1..]);
      PrepareFieldAlike(fields[0]);
      assert Fields(PrepareFields(fields))[1..] == Fields(PrepareFields(fields[1..]));
    }
  }

  lemma {:induction false} PrepareFieldAlike(f: Field)
    ensures FieldAlike(f, PrepareField(f))
    decreases f
  {
    hide Canon, BytesOf, ElementsOf, Sound, Encode, Alike;
    CanonAlike(f.value);
  }

  lemma {:induction false} StructAlike(fields: seq<Field>)
    ensures DataAlike(Struct(fields), CanonData(Struct(fields)))
    decreases fields, 1
  {
    hide Canon, BytesOf, ElementsOf, Sound, Encode, Sort;
    PrepareFieldsAlike(fields);
    var ps := PrepareFields(fields);
    var sorted := Sort(ps, FieldKey);
    SortKeepsMembers(ps, FieldKey);
    SortSum(ps, FieldKey, FieldWeight);
    SortSum(ps, FieldKey, FieldElementWeight);
    FieldSums(ps);
    FieldSums(sorted);
    forall depth: nat, r: Rules | SoundData(Struct(fields), depth, r)
      ensures SoundData(Struct(Fields(sorted)), depth, r)
    {
      assert SoundFields(fields, depth + 1, r);
      FieldsSound(fields, ps, sorted, depth + 1, r);
    }
  }

  lemma FieldsSound(fields: seq<Field>, ps: seq<PreparedField>, sorted: seq<PreparedField>, depth: nat, r: Rules)
    requires |ps| == |fields| && forall i | 0 <= i < |fields| :: FieldAlike(fields[i], ps[i])
    requires sorted == Sort(ps, FieldKey) && forall p :: p in sorted <==> p in ps
    requires SoundFields(fields, depth, r)
    ensures SoundFields(Fields(sorted), depth, r)
  {
    hide BytesOf, ElementsOf, Sound, Sort;
    forall i, j | 0 <= i < j < |ps|
      ensures FieldKey(ps[i]) != FieldKey(ps[j])
    {
      assert FieldAlike(fields[i], ps[i]) && FieldAlike(fields[j], ps[j]);
    }
    SortDistinct(ps, FieldKey);
    var fs := Fields(sorted);
    forall i | 0 <= i < |fs|
      ensures sorted[i].id == fs[i].id && 0 < fs[i].id < 0x1_0000_0000 && SoundField(fs[i], depth, r)
    {
      assert sorted[i] in ps;
      var k :| 0 <= k < |ps| && ps[k] == sorted[i];
      assert FieldAlike(fields[k], ps[k]) && SoundField(fields[k], depth, r);
    }
    forall i, j | 0 <= i < j < |fs|
      ensures fs[i].id != fs[j].id
    {
      assert FieldKey(sorted[i]) != FieldKey(sorted[j]);
    }
  }

  // ----- whole payloads -----

  function EncodeAll(vs: seq<Value>): seq<byte> {
    UintBytes(|vs|) + EncodeItems(vs)
  }

  /** What `DecodeValues` returns. */
  function DecodeAll(payload: seq<byte>, r: Rules): Option<seq<Value>> {
    if |payload| > r.limit then None
    else
      var n := ParseUint(payload);
      if n.Bad? || n.value > r.elements then None
      else
        var items := DecodeItems(n.rest, n.value, 0, r);
        if items.Bad? || items.rest != [] || !Acceptable(items.value, r) then None else Some(items.value)
  }

  lemma CanonAcceptable(vs: seq<Value>, r: Rules)
    requires Acceptable(vs, r)
    ensures Acceptable(CanonItems(vs), r)
  {
    hide Sound, CanonItems;
    ItemsAlike(vs);
    var cs := CanonItems(vs);
    forall i | 0 <= i < |cs|
      ensures Sound(cs[i], 0, r)
    {
      assert Alike(vs[i], cs[i]) && Sound(vs[i], 0, r);
    }
  }

  // ----- order does not matter -----

  function CanonEntry(e: Entry): Entry {
    Entry(Canon(e.key), Canon(e.value))
  }

  function PreparedCanon(p: PreparedEntry): Entry {
    p.entry
  }

  lemma {:induction false} PrepareIsImage(entries: seq<Entry>)
    ensures Prepare(entries) == Image(entries, PrepareEntry)
  {
    hide PrepareEntry;
    if entries != [] {
      PrepareIsImage(entries[1..]);
    }
  }

  /** A decoded map holds the entries of the original, each with canonical parts, in some order. */
  lemma MapPermuted(entries: seq<Entry>)
    ensures multiset(Entries(Sort(Prepare(entries), EntryKey))) == multiset(Image(entries, CanonEntry))
  {
    hide Sort, Canon, Encode;
    PrepareIsImage(entries);
    var ps := Prepare(entries);
    SortImage(ps, EntryKey, PreparedCanon);
    assert Entries(Sort(ps, EntryKey)) == Image(Sort(ps, EntryKey), PreparedCanon);
    forall i | 0 <= i < |entries|
      ensures Image(ps, PreparedCanon)[i] == Image(entries, CanonEntry)[i]
    {
      assert ps[i] == PrepareEntry(entries[i]);
      assert Image(ps, PreparedCanon)[i] == PreparedCanon(ps[i]);
      assert PreparedCanon(PrepareEntry(entries[i])) == CanonEntry(entries[i]);
    }
    assert Image(ps, PreparedCanon) == Image(entries, CanonEntry);
  }

  /** Maps with the same entries and distinct encoded keys have one encoding. */
  lemma MapOrderIrrelevant(a: seq<Entry>, b: seq<Entry>)
    requires multiset(a) == multiset(b) && DistinctKeys(Prepare(a), EntryKey)
    ensures EncodeData(Map(a)) == EncodeData(Map(b))
  {
    hide Sort, PrepareEntry, EntryBlock, UintBytes;
    PrepareIsImage(a);
    PrepareIsImage(b);
    ImagePermuted(a, b, PrepareEntry);
    var x, y := Sort(Prepare(a), EntryKey), Sort(Prepare(b), EntryKey);
    SortSorts(Prepare(a), EntryKey);
    SortSorts(Prepare(b), EntryKey);
    SortDistinct(Prepare(a), EntryKey);
    AscendingUnique(x, y, EntryKey);
    assert |multiset(a)| == |a| && |multiset(b)| == |b|;
  }

  // ----- the encoder -----

  /** A map entry beside its encoded key. */
  datatype KeyedEntry = KeyedEntry(key: seq<byte>, entry: Entry)

  function KeyedKey(k: KeyedEntry): seq<int> {
    k.key
  }

  function KeyedPrepared(k: KeyedEntry): PreparedEntry {
    PrepareEntry(k.entry)
  }

  function FieldId(f: Field): seq<int> {
    [f.id]
  }

  method EncodeValue(e: Encoder, v: Value)
    modifies e
    ensures e.data == old(e.data) + Encode(v)
    decreases v
  {
    hide UintBytes, RawBytes;
    e.Raw(v.typ);
    if v.resource.Some? {
      var ref := v.resource.value;
      e.Uint(WIRE_RESOURCE);
      e.Uint(ref.epoch);
      e.Uint(ref.objectID);
      e.Raw(ref.typeHash);
    } else {
      EncodeDataTo(e, v.data);
    }
  }

  method EncodeDataTo(e: Encoder, d: Data)
    modifies e
    ensures e.data == old(e.data) + EncodeData(d)
    decreases d, 1
  {
    hide UintBytes, BodyOf, EncodeData;
    DataIsKindAndBody(d);
    e.Uint(KindOf(d));
    EncodeBodyTo(e, d);
    assert old(e.data) + UintBytes(KindOf(d)) + BodyOf(d) == old(e.data) + (UintBytes(KindOf(d)) + BodyOf(d));
  }

  method EncodeBodyTo(e: Encoder, d: Data)
    modifies e
    ensures e.data == old(e.data) + BodyOf(d)
    decreases d, 0
  {
    hide UintBytes, RawBytes, Encode, Sort, EntryBlock, FieldBlock, EncodeItems;
    match d {
      case Nil =>
      case Bool(b) => e.Bool(b);
      case Int(i) => e.Int(i);
      case Uint(u) => e.Uint(u);
      case Float(f) => e.Fixed(f);
      case Complex(re, im) =>
        e.Fixed(re);
        e.Fixed(im);
      case String(s) => e.Raw(s);
      case Bytes(s) => e.Raw(s);
      case Slice(items) =>
        e.Uint(|items|);
        EncodeItemsTo(e, items);
        assert old(e.data) + UintBytes(|items|) + EncodeItems(items) == old(e.data) + BodyOf(d);
      case Map(entries) => EncodeMapTo(e, entries);
      case Struct(fields) => EncodeStructTo(e, fields);
      case Optional(inner) => EncodeValue(e, inner);
    }
  }

  method EncodeItemsTo(e: Encoder, items: seq<Value>)
    modifies e
    ensures e.data == old(e.data) + EncodeItems(items)
    decreases items
  {
    hide Encode;
    var i := 0;
    assert items[0..] == items;
    while i < |items|
      invariant 0 <= i <= |items| && e.data + EncodeItems(items[i..]) == old(e.data) + EncodeItems(items)
    {
      assert items[i..][0] == items[i] && items[i..][1..] == items[i + 1..];
      assert EncodeItems(items[i..]) == Encode(items[i]) + EncodeItems(items[i + 1..]);
      ghost var before := e.data;
      EncodeValue(e, items[i]);
      assert e.data + EncodeItems(items[i + 1..]) == before + EncodeItems(items[i..]);
      i := i + 1;
    }
    assert items[i..] == [];
  }

  /** Entries are ordered by the bytes of their keys before they are written. */
  method EncodeMapTo(e: Encoder, entries: seq<Entry>)
    modifies e
    ensures e.data == old(e.data) + (UintBytes(|entries|) + EntryBlock(Sort(Prepare(entries), EntryKey)))
    decreases entries, 1
  {
    hide UintBytes, Encode, Sort, EntryBlock, Canon;
    var keyed := EncodeKeys(entries);
    var sorted := Sort(keyed, KeyedKey);
    SortKeepsMembers(keyed, KeyedKey);
    SortCommutes(keyed, KeyedKey, KeyedPrepared, EntryKey);
    KeyedImage(entries, keyed);
    e.Uint(|sorted|);
    ghost var start := e.data;
    forall i | 0 <= i < |sorted|
      ensures sorted[i].key == Encode(sorted[i].entry.key) && sorted[i].entry in entries
    {
      assert sorted[i] in keyed;
    }
    EncodeSortedTo(e, entries, sorted);
  }

  lemma KeyedImage(entries: seq<Entry>, keyed: seq<KeyedEntry>)
    requires |keyed| == |entries| && forall i | 0 <= i < |keyed| :: keyed[i].entry == entries[i]
    ensures Image(keyed, KeyedPrepared) == Prepare(entries)
  {
    PrepareIsImage(entries);
  }

  method EncodeKeys(entries: seq<Entry>) returns (keyed: seq<KeyedEntry>)
    ensures |keyed| == |entries|
    ensures forall i | 0 <= i < |keyed| :: keyed[i].entry == entries[i] && keyed[i].key == Encode(entries[i].key)
    decreases entries, 0
  {
    hide Encode;
    keyed := [];
    var i := 0;
    while i < |entries|
      invariant 0 <= i == |keyed| <= |entries|
      invariant forall j | 0 <= j < i :: keyed[j].entry == entries[j] && keyed[j].key == Encode(entries[j].key)
    {
      var bs := EncodeKey(entries[i]);
      keyed := keyed + [KeyedEntry(bs, entries[i])];
      i := i + 1;
    }
  }

  method EncodeKey(entry: Entry) returns (bs: seq<byte>)
    ensures bs == Encode(entry.key)
    decreases entry
  {
    var key := new Encoder();
    EncodeValue(key, entry.key);
    bs := key.data;
  }

  method EncodeSortedTo(e: Encoder, entries: seq<Entry>, sorted: seq<KeyedEntry>)
    requires forall i | 0 <= i < |sorted| :: sorted[i].key == Encode(sorted[i].entry.key) && sorted[i].entry in entries
    modifies e
    ensures e.data == old(e.data) + EntryBlock(Image(sorted, KeyedPrepared))
    decreases entries, 0
  {
    hide Encode, Canon;
    var ps := Image(sorted, KeyedPrepared);
    var i := 0;
    assert ps[0..] == ps;
    while i < |sorted|
      invariant 0 <= i <= |sorted| && e.data + EntryBlock(ps[i..]) == old(e.data) + EntryBlock(ps)
    {
      assert ps[i..][0] == ps[i] && ps[i..][1..] == ps[i + 1..];
      assert EntryBlock(ps[i..]) == (ps[i].key + ps[i].value) + EntryBlock(ps[i + 1..]);
      ghost var before := e.data;
      e.Fixed(sorted[i].key);
      EncodeEntryValue(e, entries, sorted[i].entry);
      assert e.data + EntryBlock(ps[i + 1..]) == before + EntryBlock(ps[i..]);
      i := i + 1;
    }
    assert ps[i..] == [];
  }

  method EncodeEntryValue(e: Encoder, ghost entries: seq<Entry>, entry: Entry)
    requires entry in entries
    modifies e
    ensures e.data == old(e.data) + Encode(entry.value)
    decreases entry
  {
    EncodeValue(e, entry.value);
  }

  /** Fields are ordered by identifier before they are written. */
  method EncodeStructTo(e: Encoder, fields: seq<Field>)
    modifies e
    ensures e.data == old(e.data) + (UintBytes(|fields|) + FieldBlock(Sort(PrepareFields(fields), FieldKey)))
    decreases fields, 1
  {
    hide UintBytes, Encode, Sort, FieldBlock, Canon;
    var sorted := Sort(fields, FieldId);
    SortKeepsMembers(fields, FieldId);
    SortCommutes(fields, FieldId, PrepareField, FieldKey);
    FieldsAreImage(fields);
    e.Uint(|sorted|);
    EncodeFieldsTo(e, fields, sorted);
  }

  lemma {:induction false} FieldsAreImage(fields: seq<Field>)
    ensures PrepareFields(fields) == Image(fields, PrepareField)
  {
    hide PrepareField;
    if fields != [] {
      FieldsAreImage(fields[1..]);
    }
  }

  method EncodeFieldsTo(e: Encoder, fields: seq<Field>, sorted: seq<Field>)
    requires forall f | f in sorted :: f in fields
    modifies e
    ensures e.data == old(e.data) + FieldBlock(Image(sorted, PrepareField))
    decreases fields, 0
  {
    hide Encode, Canon, UintBytes;
    var ps := Image(sorted, PrepareField);
    var i := 0;
    assert ps[0..] == ps;
    while i < |sorted|
      invariant 0 <= i <= |sorted| && e.data + FieldBlock(ps[i..]) == old(e.data) + FieldBlock(ps)
    {
      assert ps[i..][0] == ps[i] && ps[i..][1..] == ps[i + 1..];
      assert FieldBlock(ps[i..]) == (UintBytes(ps[i].id) + ps[i].value) + FieldBlock(ps[i + 1..]);
      ghost var before := e.data;
      assert sorted[i] in fields;
      e.Uint(sorted[i].id);
      EncodeFieldValue(e, sorted[i]);
      assert e.data == before + (UintBytes(ps[i].id) + ps[i].value);
      assert e.data + FieldBlock(ps[i + 1..]) == before + FieldBlock(ps[i..]);
      i := i + 1;
    }
    assert ps[i..] == [];
  }

  method EncodeFieldValue(e: Encoder, f: Field)
    modifies e
    ensures e.data == old(e.data) + Encode(f.value)
    decreases f
  {
    EncodeValue(e, f.value);
  }

  /** `EncodeValues`: accepted values whose encoding fits the message limit. */
  method EncodeValues(vs: seq<Value>, r: Rules) returns (encoded: Option<seq<byte>>)
    ensures encoded == if Acceptable(vs, r) && |EncodeAll(vs)| <= r.limit then Some(EncodeAll(vs)) else None
  {
    var ok := ValidateValues(vs, r);
    if !ok {
      return None;
    }
    hide UintBytes, EncodeItems, Acceptable;
    var e := new Encoder();
    e.Uint(|vs|);
    EncodeItemsTo(e, vs);
    assert e.data == EncodeAll(vs);
    encoded := if |e.data| > r.limit then None else Some(e.data);
  }

  // ----- the decoder -----

  /** The decoder has read what the specification reads, or refuses where it refuses. */
  ghost predicate Follows<T>(d: Decoder, p: Parsed<T>, r: Option<T>)
    reads d
  {
    d.Valid() && match p case Bad => r == None case Got(v, rest) => r == Some(v) && d.Remaining() == rest
  }

  method DecodeText(d: Decoder, r: Rules) returns (s: Option<Text>)
    requires d.Valid() && d.limit == r.limit
    modifies d
    ensures Follows(d, ParseText(old(d.Remaining()), r), s)
  {
    s := d.Raw();
    if s.Some? && !r.utf8(s.value) {
      s := None;
    }
  }

  method DecodeValue(d: Decoder, depth: nat, r: Rules) returns (v: Option<Value>)
    requires d.Valid() && d.limit == r.limit
    modifies d
    ensures Follows(d, Decode(old(d.Remaining()), depth, r), v)
    decreases |d.data| - d.offset, 0
  {
    hide DecodeData, ParseText, ParseResource, ParseUint;
    if depth > r.depth {
      return None;
    }
    var typ := DecodeText(d, r);
    if typ.None? || typ.value == [] {
      return None;
    }
    var kind := d.Uint();
    if kind.None? {
      return None;
    }
    if kind.value == WIRE_RESOURCE {
      var ref := DecodeResource(d, r);
      v := if ref.None? then None else Some(Value(typ.value, Nil, Some(ref.value)));
    } else {
      var data := DecodeDataFrom(d, kind.value, depth, r);
      v := if data.None? then None else Some(Value(typ.value, data.value, None));
    }
  }

  method DecodeResource(d: Decoder, r: Rules) returns (ref: Option<ResourceRef>)
    requires d.Valid() && d.limit == r.limit
    modifies d
    ensures Follows(d, ParseResource(old(d.Remaining()), r), ref)
  {
    hide ParseText, ParseUint;
    var epoch := d.Uint();
    if epoch.None? {
      return None;
    }
    var id := d.Uint();
    if id.None? {
      return None;
    }
    var hash := DecodeText(d, r);
    ref := if hash.None? then None else Some(ResourceRef(epoch.value, id.value, hash.value));
  }

  method DecodeDataFrom(d: Decoder, kind: nat, depth: nat, r: Rules) returns (data: Option<Data>)
    requires d.Valid() && d.limit == r.limit
    modifies d
    ensures Follows(d, DecodeData(kind, old(d.Remaining()), depth, r), data)
    decreases |d.data| - d.offset, 3
  {
    hide ParseText, ParseUint, ParseRaw, Decode, DecodeItems, DecodeEntries, DecodeFields;
    ghost var bs := d.Remaining();
    data := None;
    if kind == WIRE_NIL {
      data := Some(Nil);
    } else if kind == WIRE_BOOL {
      var b := d.Bool();
      data := if b.None? then None else Some(Bool(b.value));
    } else if kind == WIRE_INT {
      var i := d.Int();
      if i.Some? {
        IntCanonical(bs, i.value, d.Remaining());
        data := Some(Int(i.value));
      }
    } else if kind == WIRE_UINT {
      var u := d.Uint();
      data := if u.None? then None else Some(Uint(u.value));
    } else if kind == WIRE_FLOAT {
      var f := d.Fixed(8);
      data := if f.None? then None else Some(Float(f.value));
    } else if kind == WIRE_COMPLEX {
      var re := d.Fixed(8);
      if re.Some? {
        var im := d.Fixed(8);
        data := if im.None? then None else Some(Complex(re.value, im.value));
      }
    } else if kind == WIRE_STRING {
      var s := DecodeText(d, r);
      data := if s.None? then None else Some(String(s.value));
    } else if kind == WIRE_BYTES {
      var s := d.Raw();
      data := if s.None? then None else Some(Bytes(s.value));
    } else if kind == WIRE_OPTIONAL {
      var v := DecodeValue(d, depth + 1, r);
      data := if v.None? then None else Some(Optional(v.value));
    } else if kind == WIRE_SLICE || kind == WIRE_MAP || kind == WIRE_STRUCT {
      data := DecodeList(d, kind, depth, r);
    }
  }

  method DecodeList(d: Decoder, kind: nat, depth: nat, r: Rules) returns (data: Option<Data>)
    requires d.Valid() && d.limit == r.limit && (kind == WIRE_SLICE || kind == WIRE_MAP || kind == WIRE_STRUCT)
    modifies d
    ensures Follows(d, DecodeData(kind, old(d.Remaining()), depth, r), data)
    decreases |d.data| - d.offset, 2
  {
    hide ParseUint, Decode, DecodeItems, DecodeEntries, DecodeFields;
    data := None;
    var n := d.Uint();
    if n.None? || n.value > r.elements {
      return;
    }
    if kind == WIRE_SLICE {
      var items := DecodeItemsFrom(d, n.value, depth + 1, r);
      data := if items.None? then None else Some(Slice(items.value));
    } else if kind == WIRE_MAP {
      var entries := DecodeEntriesFrom(d, n.value, depth + 1, r);
      data := if entries.None? then None else Some(Map(entries.value));
    } else {
      var fields := DecodeFieldsFrom(d, n.value, depth + 1, r);
      data := if fields.None? then None else Some(Struct(fields.value));
    }
  }

  /** `whole` is what was read before followed by what `rest` reads. */
  ghost predicate Continues<T(!new)>(whole: Parsed<seq<T>>, done: seq<T>, rest: Parsed<seq<T>>) {
    whole == if rest.Bad? then Bad else Got(done + rest.value, rest.rest)
  }

  method DecodeItemsFrom(d: Decoder, count: nat, depth: nat, r: Rules) returns (items: Option<seq<Value>>)
    requires d.Valid() && d.limit == r.limit
    modifies d
    ensures Follows(d, DecodeItems(old(d.Remaining()), count, depth, r), items)
    decreases |d.data| - d.offset, 1
  {
    hide Decode;
    ghost var whole := DecodeItems(d.Remaining(), count, depth, r);
    var done, i := [], 0;
    assert whole.Got? ==> [] + whole.value == whole.value;
    while i < count
      invariant 0 <= i <= count && d.Valid() && d.offset >= old(d.offset)
      invariant Continues(whole, done, DecodeItems(d.Remaining(), count - i, depth, r))
    {
      ghost var rest := DecodeItems(d.Remaining(), count - i, depth, r);
      var v := DecodeValue(d, depth, r);
      if v.None? {
        return None;
      }
      assert rest.Got? ==> done + rest.value == (done + [v.value]) + rest.value[1..];
      done := done + [v.value];
      i := i + 1;
    }
    assert done + [] == done;
    items := Some(done);
  }

  method DecodeEntriesFrom(d: Decoder, count: nat, depth: nat, r: Rules) returns (entries: Option<seq<Entry>>)
    requires d.Valid() && d.limit == r.limit
    modifies d
    ensures Follows(d, DecodeEntries(old(d.Remaining()), count, depth, r), entries)
    decreases |d.data| - d.offset, 1
  {
    hide Decode;
    ghost var whole := DecodeEntries(d.Remaining(), count, depth, r);
    var done, i := [], 0;
    assert whole.Got? ==> [] + whole.value == whole.value;
    while i < count
      invariant 0 <= i <= count && d.Valid() && d.offset >= old(d.offset)
      invariant Continues(whole, done, DecodeEntries(d.Remaining(), count - i, depth, r))
    {
      ghost var rest := DecodeEntries(d.Remaining(), count - i, depth, r);
      var key := DecodeValue(d, depth, r);
      if key.None? {
        return None;
      }
      var value := DecodeValue(d, depth, r);
      if value.None? {
        return None;
      }
      assert rest.Got? ==> done + rest.value == (done + [Entry(key.value, value.value)]) + rest.value[1..];
      done := done + [Entry(key.value, value.value)];
      i := i + 1;
    }
    assert done + [] == done;
    entries := Some(done);
  }

  method DecodeFieldsFrom(d: Decoder, count: nat, depth: nat, r: Rules) returns (fields: Option<seq<Field>>)
    requires d.Valid() && d.limit == r.limit
    modifies d
    ensures Follows(d, DecodeFields(old(d.Remaining()), count, depth, r), fields)
    decreases |d.data| - d.offset, 1
  {
    hide Decode, ParseUint;
    ghost var whole := DecodeFields(d.Remaining(), count, depth, r);
    var done, i := [], 0;
    assert whole.Got? ==> [] + whole.value == whole.value;
    while i < count
      invariant 0 <= i <= count && d.Valid() && d.offset >= old(d.offset)
      invariant Continues(whole, done, DecodeFields(d.Remaining(), count - i, depth, r))
    {
      ghost var rest := DecodeFields(d.Remaining(), count - i, depth, r);
      var id := d.Uint();
      if id.None? || id.value == 0 || id.value > 0xFFFF_FFFF {
        return None;
      }
      var value := DecodeValue(d, depth, r);
      if value.None? {
        return None;
      }
      assert rest.Got? ==> done + rest.value == (done + [Field(id.value, value.value)]) + rest.value[1..];
      done := done + [Field(id.value, value.value)];
      i := i + 1;
    }
    assert done + [] == done;
    fields := Some(done);
  }

  /** `DecodeValues`. */
  method DecodeValues(payload: seq<byte>, r: Rules) returns (vs: Option<seq<Value>>)
    ensures vs == DecodeAll(payload, r)
  {
    hide ParseUint, DecodeItems, Acceptable;
    if |payload| > r.limit {
      return None;
    }
    var d := new Decoder(payload, r.limit);
    assert d.Remaining() == payload;
    var n := d.Uint();
    if n.None? || n.value > r.elements {
      return None;
    }
    var items := DecodeItemsFrom(d, n.value, 0, r);
    if items.None? || d.offset != |d.data| {
      return None;
    }
    var ok := ValidateValues(items.value, r);
    vs := if ok then items else None;
  }
}
