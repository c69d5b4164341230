/** When decoded values encode to the bytes they came from. */
module CanonicalForm {
  import opened Prelude
  import opened Wire
  import opened Values
  import opened Ordering
  import opened ValueCodec

  // ----- writing a value as it stands -----

  /** The bytes of a value with map entries and struct fields in the order they have. */
  function Spell(v: Value): seq<byte> {
    RawBytes(v.typ) + (if v.resource.Some? then EncodeResource(v.resource.value) else SpellData(v.data))
  }

  function SpellData(d: Data): seq<byte>
    decreases d, 1
  {
    UintBytes(KindOf(d)) + SpellBody(d)
  }

  function SpellBody(d: Data): seq<byte>
    decreases d, 0
  {
    match d
    case Nil => []
    case Bool(b) => BoolBytes(b)
    case Int(i) => IntBytes(i)
    case Uint(u) => UintBytes(u)
    case Float(f) => f
    case Complex(re, im) => re + im
    case String(s) => RawBytes(s)
    case Bytes(s) => RawBytes(s)
    case Slice(items) => UintBytes(|items|) + SpellItems(items)
    case Map(entries) => UintBytes(|entries|) + SpellEntries(entries)
    case Struct(fields) => UintBytes(|fields|) + SpellFields(fields)
    case Optional(inner) => Spell(inner)
  }

  function SpellItems(items: seq<Value>): seq<byte> {
    if items == [] then [] else Spell(items[0]) + SpellItems(items[1..])
  }

  function SpellEntries(entries: seq<Entry>): seq<byte> {
    if entries == [] then [] else SpellEntry(entries[0]) + SpellEntries(entries[1..])
  }

  function SpellEntry(e: Entry): seq<byte> {
    Spell(e.key) + Spell(e.value)
  }

  function SpellFields(fields: seq<Field>): seq<byte> {
    if fields == [] then [] else SpellField(fields[0]) + SpellFields(fields[1..])
  }

  function SpellField(f: Field): seq<byte> {
    UintBytes(f.id) + Spell(f.value)
  }

  // ----- the decoder reads exactly that -----

  lemma TextSpelled(bs: seq<byte>, r: Rules, s: Text, rest: seq<byte>)
    requires r.limit < U64 && ParseText(bs, r) == Got(s, rest)
    ensures bs == RawBytes(s) + rest
  {
    RawCanonical(bs, s, rest, r.limit);
  }

  lemma ResourceSpelled(bs: seq<byte>, r: Rules, ref: ResourceRef, rest: seq<byte>)
    requires r.limit < U64 && ParseResource(bs, r) == Got(ref, rest)
    ensures bs == UintBytes(ref.epoch) + (UintBytes(ref.objectID) + RawBytes(ref.typeHash)) + rest
  {
    hide UintBytes, RawBytes, ParseText, ParseUint;
    var epoch := ParseUint(bs);
    UintCanonical(bs, epoch.value, epoch.rest);
    var id := ParseUint(epoch.rest);
    UintCanonical(epoch.rest, id.value, id.rest);
    TextSpelled(id.rest, r, ref.typeHash, rest);
  }

  lemma FixedSpelled(bs: seq<byte>, n: nat, data: seq<byte>, rest: seq<byte>)
    requires ParseFixed(bs, n) == Got(data, rest)
    ensures bs == data + rest
  {
  }

  /** What decodes to a value is that value as it stands. */
  lemma {:induction false} DecodedIsSpelled(bs: seq<byte>, depth: nat, r: Rules, v: Value, rest: seq<byte>)
    requires r.limit < U64 && Decode(bs, depth, r) == Got(v, rest)
    ensures bs == Spell(v) + rest
    decreases |bs|, 0
  {
    hide UintBytes, RawBytes, ParseText, ParseUint, ParseResource, DecodeData, SpellBody;
    var typ := ParseText(bs, r);
    TextSpelled(bs, r, typ.value, typ.rest);
    var kind := ParseUint(typ.rest);
    UintCanonical(typ.rest, kind.value, kind.rest);
    if kind.value == WIRE_RESOURCE {
      ResourceSpelled(kind.rest, r, v.resource.value, rest);
    } else {
      DataSpelled(kind.value, kind.rest, depth, r, v.data, rest);
    }
  }

  lemma {:induction false} DataSpelled(kind: nat, bs: seq<byte>, depth: nat, r: Rules, d: Data, rest: seq<byte>)
    requires r.limit < U64 && DecodeData(kind, bs, depth, r) == Got(d, rest)
    ensures kind == KindOf(d) && bs == SpellBody(d) + rest
    decreases |bs|, 3
  {
    hide UintBytes, RawBytes, ParseText, ParseUint, ParseRaw, Decode, Spell;
    if kind == WIRE_BOOL {
      BoolCanonical(bs, d.flag, rest);
    } else if kind == WIRE_INT {
      IntCanonical(bs, d.signed, rest);
    } else if kind == WIRE_UINT {
      UintCanonical(bs, d.unsigned, rest);
    } else if kind == WIRE_FLOAT {
      FixedSpelled(bs, 8, d.number, rest);
    } else if kind == WIRE_COMPLEX {
      var re := ParseFixed(bs, 8);
      FixedSpelled(bs, 8, re.value, re.rest);
      FixedSpelled(re.rest, 8, d.im, rest);
    } else if kind == WIRE_STRING {
      TextSpelled(bs, r, d.text, rest);
    } else if kind == WIRE_BYTES {
      RawCanonical(bs, d.raw, rest, r.limit);
    } else if kind == WIRE_OPTIONAL {
      DecodedIsSpelled(bs, depth + 1, r, d.inner, rest);
    } else if kind != WIRE_NIL {
      ListSpelled(kind, bs, depth, r, d, rest);
    }
  }

  lemma {:induction false} ListSpelled(kind: nat, bs: seq<byte>, depth: nat, r: Rules, d: Data, rest: seq<byte>)
    requires r.limit < U64 && DecodeData(kind, bs, depth, r) == Got(d, rest)
    requires kind == WIRE_SLICE || kind == WIRE_MAP || kind == WIRE_STRUCT
    ensures kind == KindOf(d) && bs == SpellBody(d) + rest
    decreases |bs|, 2
  {
    hide UintBytes, ParseUint, DecodeItems, DecodeEntries, DecodeFields, SpellItems, SpellEntries, SpellFields;
    var n := ParseUint(bs);
    UintCanonical(bs, n.value, n.rest);
    if kind == WIRE_SLICE {
      ItemsSpelled(n.rest, n.value, depth + 1, r, d.items, rest);
    } else if kind == WIRE_MAP {
      EntriesSpelled(n.rest, n.value, depth + 1, r, d.entries, rest);
    } else {
      FieldsSpelled(n.rest, n.value, depth + 1, r, d.fields, rest);
    }
  }

  lemma {:induction false} ItemsSpelled(bs: seq<byte>, n: nat, depth: nat, r: Rules, items: seq<Value>,
      rest: seq<byte>)
    requires r.limit < U64 && DecodeItems(bs, n, depth, r) == Got(items, rest)
    ensures |items| == n && bs == SpellItems(items) + rest
    decreases |bs|, 1
  {
    hide Decode, Spell;
    if n > 0 {
      var first := Decode(bs, depth, r);
      DecodedIsSpelled(bs, depth, r, first.value, first.rest);
      ItemsSpelled(first.rest, n - 1, depth, r, items[1..], rest);
    }
  }

  lemma {:induction false} EntriesSpelled(bs: seq<byte>, n: nat, depth: nat, r: Rules, entries: seq<Entry>,
      rest: seq<byte>)
    requires r.limit < U64 && DecodeEntries(bs, n, depth, r) == Got(entries, rest)
    ensures |entries| == n && bs == SpellEntries(entries) + rest
    decreases |bs|, 1
  {
    hide Decode, Spell;
    if n > 0 {
      var key := Decode(bs, depth, r);
      DecodedIsSpelled(bs, depth, r, key.value, key.rest);
      var value := Decode(key.rest, depth, r);
      DecodedIsSpelled(key.rest, depth, r, value.value, value.rest);
      EntriesSpelled(value.rest, n - 1, depth, r, entries[1..], rest);
    }
  }

  lemma {:induction false} FieldsSpelled(bs: seq<byte>, n: nat, depth: nat, r: Rules, fields: seq<Field>,
      rest: seq<byte>)
    requires r.limit < U64 && DecodeFields(bs, n, depth, r) == Got(fields, rest)
    ensures |fields| == n && bs == SpellFields(fields) + rest
    decreases |bs|, 1
  {
    hide Decode, Spell, UintBytes, ParseUint;
    if n > 0 {
      var id := ParseUint(bs);
      UintCanonical(bs, id.value, id.rest);
      var value := Decode(id.rest, depth, r);
      DecodedIsSpelled(id.rest, depth, r, value.value, value.rest);
      FieldsSpelled(value.rest, n - 1, depth, r, fields[1..], rest);
    }
  }

  // ----- and accepts every arrangement -----

  /** Bytes that decode to a value whatever follows them. */
  ghost predicate Decodes(bs: seq<byte>, v: Value, depth: nat, r: Rules) {
    forall rest: seq<byte> :: Decode(bs + rest, depth, r) == Got(v, rest)
  }

  /** Head of a value: type name and kind. */
  lemma HeadDecodes(v: Value, depth: nat, rest: seq<byte>, r: Rules)
    requires RulesOk(r) && Fits(v, depth, r) && v.resource.None?
    requires DecodeData(KindOf(v.data), SpellBody(v.data) + rest, depth, r) == Got(v.data, rest)
    ensures Decode(Spell(v) + rest, depth, r) == Got(v, rest)
  {
    hide UintBytes, RawBytes, ParseText, ParseUint, DecodeData, SpellBody, SoundData;
    var body := SpellBody(v.data) + rest;
    var kind := UintBytes(KindOf(v.data)) + body;
    assert Spell(v) + rest == RawBytes(v.typ) + kind;
    TextRoundTrip(v.typ, kind, r);
    UintRoundTrip(KindOf(v.data), body);
  }

  lemma ResourceDecodes(v: Value, depth: nat, rest: seq<byte>, r: Rules)
    requires RulesOk(r) && Fits(v, depth, r) && v.resource.Some?
    ensures Decode(Spell(v) + rest, depth, r) == Got(v, rest)
  {
    hide UintBytes, RawBytes, ParseText, ParseUint, ParseResource, EncodeResource;
    var ref := v.resource.value;
    assert Spell(v) + rest == RawBytes(v.typ) + (EncodeResource(ref) + rest);
    TextRoundTrip(v.typ, EncodeResource(ref) + rest, r);
    ResourceRoundTrip(ref, rest, r);
  }

  /** Whatever follows, a value as it stands decodes to itself. */
  lemma {:induction false} SpelledDecodes(v: Value, depth: nat, r: Rules)
    requires RulesOk(r) && Fits(v, depth, r)
    ensures Decodes(Spell(v), v, depth, r)
    decreases v
  {
    forall rest: seq<byte>
      ensures Decode(Spell(v) + rest, depth, r) == Got(v, rest)
    {
      if v.resource.Some? {
        ResourceDecodes(v, depth, rest, r);
      } else {
        BodyDecodes(v.data, depth, rest, r);
        HeadDecodes(v, depth, rest, r);
      }
    }
  }

  lemma {:induction false} BodyDecodes(d: Data, depth: nat, rest: seq<byte>, r: Rules)
    requires RulesOk(r) && DataFits(d, depth, r)
    ensures DecodeData(KindOf(d), SpellBody(d) + rest, depth, r) == Got(d, rest)
    decreases d
  {
    hide UintBytes, ParseUint, RawBytes, ParseRaw, Decode, Spell;
    match d {
      case Nil => assert [] + rest == rest;
      case Bool(b) => BoolCanonical(BoolBytes(b) + rest, b, rest);
      case Int(i) => IntCanonical(IntBytes(i) + rest, i, rest);
      case Uint(u) => UintRoundTrip(u, rest);
      case Float(f) => FixedRoundTrip(f, rest);
      case Complex(re, im) =>
        assert re + im + rest == re + (im + rest);
        FixedRoundTrip(re, im + rest);
        FixedRoundTrip(im, rest);
      case String(s) => TextRoundTrip(s, rest, r);
      case Bytes(s) => RawRoundTrip(s, rest, r.limit);
      case Slice(items) => SliceDecodes(items, depth, rest, r);
      case Map(entries) => MapDecodes(entries, depth, rest, r);
      case Struct(fields) => StructDecodes(fields, depth, rest, r);
      case Optional(inner) =>
        SpelledDecodes(inner, depth + 1, r);
        assert Decode(Spell(inner) + rest, depth + 1, r) == Got(inner, rest);
    }
  }

  lemma {:induction false} SliceDecodes(items: seq<Value>, depth: nat, rest: seq<byte>, r: Rules)
    requires RulesOk(r) && DataFits(Slice(items), depth, r)
    ensures DecodeData(WIRE_SLICE, SpellBody(Slice(items)) + rest, depth, r) == Got(Slice(items), rest)
    decreases items, 1
  {
    hide UintBytes, ParseUint, Decode, Spell, SpellItems, DecodeItems;
    ItemCount(items);
    var body := SpellItems(items) + rest;
    assert SpellBody(Slice(items)) + rest == UintBytes(|items|) + body;
    UintRoundTrip(|items|, body);
    ItemsDecode(items, depth + 1, rest, r);
  }

  lemma {:induction false} ItemsDecode(items: seq<Value>, depth: nat, rest: seq<byte>, r: Rules)
    requires RulesOk(r) && (forall i | 0 <= i < |items| :: Sound(items[i], depth, r)) && HashesFit(items, r)
    requires ItemBytes(items) <= r.limit && ItemElements(items) <= r.elements
    ensures DecodeItems(SpellItems(items) + rest, |items|, depth, r) == Got(items, rest)
    decreases items, 0
  {
    hide Decode, Spell;
    if items == [] {
      assert SpellItems(items) + rest == rest;
    } else {
      ItemsDecode(items[1..], depth, rest, r);
      SpelledDecodes(items[0], depth, r);
      var tail := SpellItems(items[1..]) + rest;
      assert SpellItems(items) + rest == Spell(items[0]) + tail;
      assert Decode(Spell(items[0]) + tail, depth, r) == Got(items[0], tail);
      assert [items[0]] + items[1..] == items;
    }
  }

  lemma {:induction false} MapDecodes(entries: seq<Entry>, depth: nat, rest: seq<byte>, r: Rules)
    requires RulesOk(r) && DataFits(Map(entries), depth, r)
    ensures DecodeData(WIRE_MAP, SpellBody(Map(entries)) + rest, depth, r) == Got(Map(entries), rest)
    decreases entries, 1
  {
    hide UintBytes, ParseUint, Decode, Spell, SpellEntries, DecodeEntries;
    EntryCount(entries);
    var body := SpellEntries(entries) + rest;
    assert SpellBody(Map(entries)) + rest == UintBytes(|entries|) + body;
    UintRoundTrip(|entries|, body);
    EntriesDecode(entries, depth + 1, rest, r);
  }

  lemma {:induction false} EntriesDecode(entries: seq<Entry>, depth: nat, rest: seq<byte>, r: Rules)
    requires RulesOk(r) && 0 < depth
    requires forall i | 0 <= i < |entries| :: Sound(entries[i].key, depth, r) && Sound(entries[i].value, depth, r)
    requires EntryBytes(entries) <= r.limit && EntryElements(entries) <= r.elements
    ensures DecodeEntries(SpellEntries(entries) + rest, |entries|, depth, r) == Got(entries, rest)
    decreases entries, 0
  {
    hide Decode, Spell, Sound;
    if entries == [] {
      assert SpellEntries(entries) + rest == rest;
    } else {
      EntriesDecode(entries[1..], depth, rest, r);
      EntryDecodes(entries[0], depth, r);
      var e, tail := entries[0], SpellEntries(entries[1..]) + rest;
      assert SpellEntries(entries) + rest == Spell(e.key) + (Spell(e.value) + tail);
      assert Decode(Spell(e.key) + (Spell(e.value) + tail), depth, r) == Got(e.key, Spell(e.value) + tail);
      assert Decode(Spell(e.value) + tail, depth, r) == Got(e.value, tail);
      assert [e] + entries[1..] == entries;
    }
  }

  lemma {:induction false} EntryDecodes(e: Entry, depth: nat, r: Rules)
    requires RulesOk(r) && 0 < depth && Sound(e.key, depth, r) && Sound(e.value, depth, r)
    requires BytesOfEntry(e) <= r.limit && ElementsOfEntry(e) <= r.elements
    ensures Decodes(Spell(e.key), e.key, depth, r) && Decodes(Spell(e.value), e.value, depth, r)
    decreases e
  {
    hide Decode, Spell, Decodes;
    SpelledDecodes(e.key, depth, r);
    SpelledDecodes(e.value, depth, r);
  }

  lemma {:induction false} StructDecodes(fields: seq<Field>, depth: nat, rest: seq<byte>, r: Rules)
    requires RulesOk(r) && DataFits(Struct(fields), depth, r)
    ensures DecodeData(WIRE_STRUCT, SpellBody(Struct(fields)) + rest, depth, r) == Got(Struct(fields), rest)
    decreases fields, 1
  {
    hide UintBytes, ParseUint, Decode, Spell, SpellFields, DecodeFields;
    FieldCount(fields);
    assert SoundFields(fields, depth + 1, r);
    var body := SpellFields(fields) + rest;
    assert SpellBody(Struct(fields)) + rest == UintBytes(|fields|) + body;
    UintRoundTrip(|fields|, body);
    FieldsDecode(fields, depth + 1, rest, r);
  }

  lemma {:induction false} FieldsDecode(fields: seq<Field>, depth: nat, rest: seq<byte>, r: Rules)
    requires RulesOk(r) && 0 < depth
    requires forall i | 0 <= i < |fields| :: 0 < fields[i].id < 0x1_0000_0000 && SoundField(fields[i], depth, r)
    requires FieldBytes(fields) <= r.limit && FieldElements(fields) <= r.elements
    ensures DecodeFields(SpellFields(fields) + rest, |fields|, depth, r) == Got(fields, rest)
    decreases fields, 0
  {
    hide Decode, Spell, SoundField, UintBytes, ParseUint;
    if fields == [] {
      assert SpellFields(fields) + rest == rest;
    } else {
      FieldsDecode(fields[1..], depth, rest, r);
      FieldDecodes(fields[0], depth, r);
      var f, tail := fields[0], SpellFields(fields[1..]) + rest;
      assert SpellFields(fields) + rest == UintBytes(f.id) + (Spell(f.value) + tail);
      UintRoundTrip(f.id, Spell(f.value) + tail);
      assert Decode(Spell(f.value) + tail, depth, r) == Got(f.value, tail);
      assert [f] + fields[1..] == fields;
    }
  }

  lemma {:induction false} FieldDecodes(f: Field, depth: nat, r: Rules)
    requires RulesOk(r) && 0 < depth && SoundField(f, depth, r)
    requires BytesOfField(f) <= r.limit && ElementsOfField(f) <= r.elements
    ensures Decodes(Spell(f.value), f.value, depth, r)
    decreases f
  {
    hide Decode, Spell, Decodes;
    SpelledDecodes(f.value, depth, r);
  }

  // ----- the encoder writes the canonical arrangement as it stands -----

  lemma {:induction false} EncodeIsSpelled(v: Value)
    ensures Encode(v) == Spell(Canon(v))
    decreases v
  {
    if v.resource.None? {
      DataIsKindAndBody(v.data);
      BodyIsSpelled(v.data);
    }
  }

  lemma {:induction false} BodyIsSpelled(d: Data)
    ensures BodyOf(d) == SpellBody(CanonData(d)) && KindOf(CanonData(d)) == KindOf(d)
    decreases d
  {
    hide Encode, Spell, Canon;
    match d {
      case Slice(items) => ItemsAreSpelled(items);
      case Map(entries) => MapIsSpelled(entries);
      case Struct(fields) => StructIsSpelled(fields);
      case Optional(inner) => EncodeIsSpelled(inner);
      case _ =>
    }
  }

  lemma {:induction false} ItemsAreSpelled(items: seq<Value>)
    ensures EncodeItems(items) == SpellItems(CanonItems(items))
    decreases items
  {
    hide Encode, Spell, Canon;
    if items != [] {
      EncodeIsSpelled(items[0]);
      ItemsAreSpelled(items[1..]);
      assert CanonItems(items)[1..] == CanonItems(items[1..]);
    }
  }

  /** A prepared entry carries the bytes of its canonical parts. */
  predicate EntrySpelled(p: PreparedEntry) {
    p.key == Spell(p.entry.key) && p.value == Spell(p.entry.value)
  }

  predicate FieldSpelled(p: PreparedField) {
    p.field.id == p.id && p.value == Spell(p.field.value)
  }

  lemma {:induction false} PreparedSpelled(entries: seq<Entry>)
    ensures forall i | 0 <= i < |entries| ::
      EntrySpelled(Prepare(entries)[i]) && Prepare(entries)[i] == PrepareEntry(entries[i])
    decreases entries, 0
  {
    hide Encode, Spell, Canon;
    if entries != [] {
      PreparedSpelled(entries[1..]);
      EntryIsSpelled(entries[0]);
    }
  }

  lemma {:induction false} EntryIsSpelled(e: Entry)
    ensures EntrySpelled(PrepareEntry(e))
    decreases e
  {
    EncodeIsSpelled(e.key);
    EncodeIsSpelled(e.value);
  }

  lemma {:induction false} EntryBlockSpelled(ps: seq<PreparedEntry>)
    requires forall i | 0 <= i < |ps| :: EntrySpelled(ps[i])
    ensures EntryBlock(ps) == SpellEntries(Entries(ps))
  {
    hide Spell;
    if ps != [] {
      EntryBlockSpelled(ps[1..]);
      assert Entries(ps)[1..] == Entries(ps[1..]);
      assert EntrySpelled(ps[0]);
    }
  }

  /** The canonical entries of a map: spelled, and in ascending order of their keys. */
  lemma {:induction false} SortedSpelled(entries: seq<Entry>)
    ensures var ps := Sort(Prepare(entries), EntryKey);
            |ps| == |entries| && Ascending(ps, EntryKey) && forall i | 0 <= i < |ps| :: EntrySpelled(ps[i])
    decreases entries, 1
  {
    hide EntrySpelled, PrepareEntry;
    PreparedSpelled(entries);
    var all := Prepare(entries);
    var ps := Sort(all, EntryKey);
    SortSorts(all, EntryKey);
    SortKeepsMembers(all, EntryKey);
    hide Sort, Prepare;
    forall i | 0 <= i < |ps|
      ensures EntrySpelled(ps[i])
    {
      assert ps[i] in all;
    }
  }

  lemma {:induction false} MapIsSpelled(entries: seq<Entry>)
    ensures EntryBlock(Sort(Prepare(entries), EntryKey)) == SpellEntries(Entries(Sort(Prepare(entries), EntryKey)))
    ensures |Sort(Prepare(entries), EntryKey)| == |entries|
    decreases entries, 2
  {
    SortedSpelled(entries);
    hide Sort, Prepare, EntrySpelled;
    EntryBlockSpelled(Sort(Prepare(entries), EntryKey));
  }

  lemma {:induction false} PreparedFieldsSpelled(fields: seq<Field>)
    ensures forall i | 0 <= i < |fields| ::
      FieldSpelled(PrepareFields(fields)[i]) && PrepareFields(fields)[i] == PrepareField(fields[i])
    decreases fields, 0
  {
    hide Encode, Spell, Canon;
    if fields != [] {
      PreparedFieldsSpelled(fields[1..]);
      FieldIsSpelled(fields[0]);
    }
  }

  lemma {:induction false} FieldIsSpelled(f: Field)
    ensures FieldSpelled(PrepareField(f))
    decreases f
  {
    EncodeIsSpelled(f.value);
  }

  lemma {:induction false} FieldBlockSpelled(ps: seq<PreparedField>)
    requires forall i | 0 <= i < |ps| :: FieldSpelled(ps[i])
    ensures FieldBlock(ps) == SpellFields(Fields(ps))
  {
    hide Spell;
    if ps != [] {
      FieldBlockSpelled(ps[1..]);
      assert Fields(ps)[1..] == Fields(ps[1..]);
      assert FieldSpelled(ps[0]);
    }
  }

  lemma {:induction false} SortedFieldsSpelled(fields: seq<Field>)
    ensures var ps := Sort(PrepareFields(fields), FieldKey);
            |ps| == |fields| && Ascending(ps, FieldKey) && forall i | 0 <= i < |ps| :: FieldSpelled(ps[i])
    decreases fields, 1
  {
    hide FieldSpelled, PrepareField;
    PreparedFieldsSpelled(fields);
    var all := PrepareFields(fields);
    var ps := Sort(all, FieldKey);
    SortSorts(all, FieldKey);
    SortKeepsMembers(all, FieldKey);
    hide Sort, PrepareFields;
    forall i | 0 <= i < |ps|
      ensures FieldSpelled(ps[i])
    {
      assert ps[i] in all;
    }
  }

  lemma {:induction false} StructIsSpelled(fields: seq<Field>)
    ensures FieldBlock(Sort(PrepareFields(fields), FieldKey)) ==
      SpellFields(Fields(Sort(PrepareFields(fields), FieldKey)))
    ensures |Sort(PrepareFields(fields), FieldKey)| == |fields|
    decreases fields, 2
  {
    SortedFieldsSpelled(fields);
    hide Sort, PrepareFields, FieldSpelled;
    FieldBlockSpelled(Sort(PrepareFields(fields), FieldKey));
  }

  // ----- ascending order throughout -----

  /** In every map the bytes of the keys ascend, and in every struct the identifiers. */
  ghost predicate Ordered(v: Value) {
    v.resource.None? ==> OrderedData(v.data)
  }

  ghost predicate OrderedData(d: Data) {
    match d
    case Slice(items) => forall i | 0 <= i < |items| :: Ordered(items[i])
    case Map(entries) => KeysAscend(entries) && forall i | 0 <= i < |entries| :: OrderedEntry(entries[i])
    case Struct(fields) => IdsAscend(fields) && forall i | 0 <= i < |fields| :: OrderedField(fields[i])
    case Optional(inner) => Ordered(inner)
    case _ => true
  }

  ghost predicate OrderedEntry(e: Entry) {
    Ordered(e.key) && Ordered(e.value)
  }

  ghost predicate OrderedField(f: Field) {
    Ordered(f.value)
  }

  ghost predicate KeysAscend(entries: seq<Entry>) {
    forall i, j | 0 <= i < j < |entries| :: LexLe(Spell(entries[i].key), Spell(entries[j].key))
  }

  ghost predicate IdsAscend(fields: seq<Field>) {
    forall i, j | 0 <= i < j < |fields| :: fields[i].id <= fields[j].id
  }

  /** The canonical arrangement is in ascending order throughout. */
  lemma {:induction false} CanonOrdered(v: Value)
    ensures Ordered(Canon(v))
    decreases v
  {
    if v.resource.None? {
      CanonDataOrdered(v.data);
    }
  }

  lemma {:induction false} CanonDataOrdered(d: Data)
    ensures OrderedData(CanonData(d))
    decreases d
  {
    match d {
      case Slice(items) => CanonItemsOrdered(items);
      case Map(entries) => CanonMapOrdered(entries);
      case Struct(fields) => CanonStructOrdered(fields);
      case Optional(inner) => CanonOrdered(inner);
      case _ =>
    }
  }

  lemma {:induction false} CanonItemsOrdered(items: seq<Value>)
    ensures forall i | 0 <= i < |items| :: Ordered(CanonItems(items)[i])
    decreases items
  {
    hide Ordered, Canon;
    if items != [] {
      CanonOrdered(items[0]);
      CanonItemsOrdered(items[1..]);
    }
  }

  lemma {:induction false} PreparedOrdered(entries: seq<Entry>)
    ensures forall i | 0 <= i < |entries| :: OrderedEntry(Prepare(entries)[i].entry)
    decreases entries, 0
  {
    hide Ordered, Canon, Encode;
    if entries != [] {
      PreparedOrdered(entries[1..]);
      EntryOrdered(entries[0]);
    }
  }

  lemma {:induction false} EntryOrdered(e: Entry)
    ensures OrderedEntry(PrepareEntry(e).entry)
    decreases e
  {
    CanonOrdered(e.key);
    CanonOrdered(e.value);
  }

  lemma {:induction false} CanonMapOrdered(entries: seq<Entry>)
    ensures OrderedData(CanonData(Map(entries)))
    decreases entries, 1
  {
    SortedSpelled(entries);
    PreparedOrdered(entries);
    var all := Prepare(entries);
    var ps := Sort(all, EntryKey);
    SortKeepsMembers(all, EntryKey);
    hide Sort, Prepare, OrderedEntry, Spell, LexLe;
    forall i | 0 <= i < |ps|
      ensures OrderedEntry(Entries(ps)[i])
    {
      assert ps[i] in all;
    }
    forall i, j | 0 <= i < j < |ps|
      ensures LexLe(Spell(Entries(ps)[i].key), Spell(Entries(ps)[j].key))
    {
      assert LexLe(EntryKey(ps[i]), EntryKey(ps[j])) && EntrySpelled(ps[i]) && EntrySpelled(ps[j]);
    }
  }

  lemma {:induction false} PreparedFieldsOrdered(fields: seq<Field>)
    ensures forall i | 0 <= i < |fields| :: OrderedField(PrepareFields(fields)[i].field)
    decreases fields, 0
  {
    hide Ordered, Canon, Encode;
    if fields != [] {
      PreparedFieldsOrdered(fields[1..]);
      FieldOrdered(fields[0]);
    }
  }

  lemma {:induction false} FieldOrdered(f: Field)
    ensures OrderedField(PrepareField(f).field)
    decreases f
  {
    CanonOrdered(f.value);
  }

  lemma {:induction false} CanonStructOrdered(fields: seq<Field>)
    ensures OrderedData(CanonData(Struct(fields)))
    decreases fields, 1
  {
    SortedFieldsSpelled(fields);
    PreparedFieldsOrdered(fields);
    var all := PrepareFields(fields);
    var ps := Sort(all, FieldKey);
    SortKeepsMembers(all, FieldKey);
    hide Sort, PrepareFields, OrderedField, Spell;
    forall i | 0 <= i < |ps|
      ensures OrderedField(Fields(ps)[i])
    {
      assert ps[i] in all;
    }
    forall i, j | 0 <= i < j < |ps|
      ensures Fields(ps)[i].id <= Fields(ps)[j].id
    {
      assert LexLe(FieldKey(ps[i]), FieldKey(ps[j])) && FieldSpelled(ps[i]) && FieldSpelled(ps[j]);
    }
  }

  /** A value in ascending order throughout is its own canonical arrangement. */
  lemma {:induction false} OrderedIsCanon(v: Value)
    requires Ordered(v)
    ensures Canon(v) == v
    decreases v
  {
    if v.resource.None? {
      OrderedDataIsCanon(v.data);
    }
  }

  lemma {:induction false} OrderedDataIsCanon(d: Data)
    requires OrderedData(d)
    ensures CanonData(d) == d
    decreases d
  {
    match d {
      case Slice(items) => OrderedItemsAreCanon(items);
      case Map(entries) => OrderedMapIsCanon(entries);
      case Struct(fields) => OrderedStructIsCanon(fields);
      case Optional(inner) => OrderedIsCanon(inner);
      case _ =>
    }
  }

  lemma {:induction false} OrderedItemsAreCanon(items: seq<Value>)
    requires forall i | 0 <= i < |items| :: Ordered(items[i])
    ensures CanonItems(items) == items
    decreases items
  {
    hide Ordered, Canon;
    if items != [] {
      OrderedIsCanon(items[0]);
      OrderedItemsAreCanon(items[1..]);
    }
  }

  lemma {:induction false} OrderedEntriesAreCanon(entries: seq<Entry>)
    requires forall i | 0 <= i < |entries| :: OrderedEntry(entries[i])
    ensures forall i | 0 <= i < |entries| :: Prepare(entries)[i].entry == entries[i]
    decreases entries, 0
  {
    hide Ordered, Canon, Encode;
    if entries != [] {
      OrderedEntriesAreCanon(entries[1..]);
      OrderedEntryIsCanon(entries[0]);
    }
  }

  lemma {:induction false} OrderedEntryIsCanon(e: Entry)
    requires OrderedEntry(e)
    ensures PrepareEntry(e).entry == e
    decreases e
  {
    OrderedIsCanon(e.key);
    OrderedIsCanon(e.value);
  }

  lemma {:induction false} OrderedMapIsCanon(entries: seq<Entry>)
    requires OrderedData(Map(entries))
    ensures CanonData(Map(entries)) == Map(entries)
    decreases entries, 1
  {
    OrderedEntriesAreCanon(entries);
    PreparedSpelled(entries);
    var ps := Prepare(entries);
    hide Prepare, PrepareEntry, OrderedEntry, Spell, LexLe;
    forall i, j | 0 <= i < j < |ps|
      ensures LexLe(EntryKey(ps[i]), EntryKey(ps[j]))
    {
      assert EntrySpelled(ps[i]) && EntrySpelled(ps[j]);
    }
    SortAscending(ps, EntryKey);
    assert Entries(ps) == entries;
  }

  lemma {:induction false} OrderedFieldsAreCanon(fields: seq<Field>)
    requires forall i | 0 <= i < |fields| :: OrderedField(fields[i])
    ensures forall i | 0 <= i < |fields| :: PrepareFields(fields)[i].field == fields[i]
    decreases fields, 0
  {
    hide Ordered, Canon, Encode;
    if fields != [] {
      OrderedFieldsAreCanon(fields[1..]);
      OrderedFieldIsCanon(fields[0]);
    }
  }

  lemma {:induction false} OrderedFieldIsCanon(f: Field)
    requires OrderedField(f)
    ensures PrepareField(f).field == f
    decreases f
  {
    OrderedIsCanon(f.value);
  }

  lemma {:induction false} OrderedStructIsCanon(fields: seq<Field>)
    requires OrderedData(Struct(fields))
    ensures CanonData(Struct(fields)) == Struct(fields)
    decreases fields, 1
  {
    OrderedFieldsAreCanon(fields);
    PreparedFieldsSpelled(fields);
    var ps := PrepareFields(fields);
    hide PrepareFields, PrepareField, OrderedField, Spell;
    forall i, j | 0 <= i < j < |ps|
      ensures LexLe(FieldKey(ps[i]), FieldKey(ps[j]))
    {
      assert FieldSpelled(ps[i]) && FieldSpelled(ps[j]);
    }
    SortAscending(ps, FieldKey);
    assert Fields(ps) == fields;
  }

  // ----- whole messages -----

  function SpellAll(vs: seq<Value>): seq<byte> {
    UintBytes(|vs|) + SpellItems(vs)
  }

  lemma {:induction false} HashesInPayload(items: seq<Value>, r: Rules)
    requires |SpellItems(items)| <= r.limit
    ensures HashesFit(items, r)
  {
    if items != [] {
      HashesInPayload(items[1..], r);
      if items[0].resource.Some? {
        HashInSpelling(items[0]);
      }
    }
  }

  lemma HashInSpelling(v: Value)
    requires v.resource.Some?
    ensures |v.resource.value.typeHash| <= |Spell(v)|
  {
    hide UintBytes, RawBytes;
  }

  /** A payload decodes to values if and only if it is the values as they stand, accepted and within the limit. */
  lemma DecodesExactly(payload: seq<byte>, r: Rules, vs: seq<Value>)
    requires RulesOk(r)
    ensures DecodeAll(payload, r) == Some(vs) <==>
      payload == SpellAll(vs) && |payload| <= r.limit && Acceptable(vs, r)
  {
    hide UintBytes, ParseUint, DecodeItems, SpellItems, Sound;
    assert r.limit < U64 && SpellItems(vs) + [] == SpellItems(vs);
    if DecodeAll(payload, r) == Some(vs) {
      var n := ParseUint(payload);
      UintCanonical(payload, n.value, n.rest);
      ItemsSpelled(n.rest, n.value, 0, r, vs, []);
    }
    if payload == SpellAll(vs) && |payload| <= r.limit && Acceptable(vs, r) {
      ItemCount(vs);
      UintRoundTrip(|vs|, SpellItems(vs));
      HashesInPayload(vs, r);
      ItemsDecode(vs, 0, [], r);
    }
  }

  /** Whatever follows, the encoding of a value decodes to the value in canonical order. */
  lemma RoundTrip(v: Value, depth: nat, r: Rules)
    requires RulesOk(r) && Fits(v, depth, r)
    ensures Decodes(Encode(v), Canon(v), depth, r)
  {
    EncodeIsSpelled(v);
    CanonAlike(v);
    hide Encode, Spell, Decodes, RulesOk;
    SpelledDecodes(Canon(v), depth, r);
  }

  /** Whatever `EncodeValues` accepts, `DecodeValues` returns in canonical order under the same rules. */
  lemma ValuesRoundTrip(vs: seq<Value>, r: Rules)
    requires RulesOk(r) && Acceptable(vs, r) && |EncodeAll(vs)| <= r.limit
    ensures DecodeAll(EncodeAll(vs), r) == Some(CanonItems(vs))
  {
    hide UintBytes, EncodeItems, SpellItems, CanonItems, Acceptable, RulesOk, DecodeAll;
    ItemsAreSpelled(vs);
    CanonAcceptable(vs, r);
    DecodesExactly(EncodeAll(vs), r, CanonItems(vs));
  }

  /**
    * Decoded values encode to the bytes they came from if and only if every map and every struct among them is in
    * ascending order.
    */
  lemma DecodedCanonicalIff(payload: seq<byte>, r: Rules, vs: seq<Value>)
    requires RulesOk(r) && DecodeAll(payload, r) == Some(vs)
    ensures EncodeAll(vs) == payload <==> forall i | 0 <= i < |vs| :: Ordered(vs[i])
  {
    hide UintBytes, DecodeAll, Ordered, EncodeItems, SpellItems, CanonItems, RulesOk, Acceptable;
    DecodesExactly(payload, r, vs);
    ItemsAreSpelled(vs);
    if forall i | 0 <= i < |vs| :: Ordered(vs[i]) {
      OrderedItemsAreCanon(vs);
    }
    if EncodeAll(vs) == payload {
      ValuesRoundTrip(vs, r);
      CanonItemsOrdered(vs);
    }
  }

  // ----- a payload that is accepted out of order -----

  /** Rules that accept every name. */
  function Lenient(): Rules {
    Rules(4, 100, 100, s => true, (t, s) => true, (t, ref) => false)
  }

  function Backward(x: Value): Value {
    Value([120], Struct([Field(2, x), Field(1, x)]), None)
  }

  lemma ShortUint(v: nat)
    requires v < 128
    ensures |UintBytes(v)| == 1
  {
  }

  lemma TwoFields(a: Field, b: Field)
    ensures SpellFields([a, b]) == SpellField(a) + SpellField(b)
    ensures FieldBytes([a, b]) == BytesOfField(a) + BytesOfField(b)
    ensures FieldElements([a, b]) == ElementsOfField(a) + ElementsOfField(b)
  {
    hide SpellField, BytesOfField, ElementsOfField;
    var all, last := [a, b], [b];
    assert all[1..] == last && last[1..] == [];
    assert SpellFields(last) == SpellField(b) + [];
    assert FieldBytes(last) == BytesOfField(b) && FieldElements(last) == ElementsOfField(b);
  }

  lemma BackwardSpell(x: Value)
    ensures Spell(Backward(x)) == RawBytes([120]) + SpellData(Struct([Field(2, x), Field(1, x)]))
  {
    hide UintBytes, RawBytes, SpellData;
  }

  lemma BackwardLength(x: Value)
    requires |Spell(x)| <= 30
    ensures |SpellAll([Backward(x)])| <= 100
  {
    var fields := [Field(2, x), Field(1, x)];
    hide UintBytes, Spell;
    ShortUint(1);
    ShortUint(2);
    ShortUint(WIRE_STRUCT);
    TwoFields(fields[0], fields[1]);
    assert |SpellBody(Struct(fields))| <= 63;
    BackwardSpell(x);
    assert [Backward(x)][1..] == [];
    assert SpellItems([Backward(x)]) == Spell(Backward(x)) + [];
  }

  lemma NothingFits()
    ensures var x := Value([120], Nil, None);
            |Spell(x)| <= 30 && Sound(x, 1, Lenient()) && BytesOf(x) <= 40 && ElementsOf(x) == 1
  {
    ShortUint(1);
    ShortUint(WIRE_NIL);
    hide UintBytes;
  }

  lemma BackwardAcceptable(x: Value)
    requires Sound(x, 1, Lenient()) && BytesOf(x) <= 40 && ElementsOf(x) == 1
    ensures Acceptable([Backward(x)], Lenient())
  {
    var v, fields := Backward(x), [Field(2, x), Field(1, x)];
    hide Sound, BytesOf, ElementsOf;
    TwoFields(fields[0], fields[1]);
    assert FieldBytes(fields) <= 80 && FieldElements(fields) == 2;
    assert SoundFields(fields, 1, Lenient());
    BackwardSound(x);
    var all := [v];
    assert all[0] == v && all[1..] == [] && ItemBytes(all[1..]) == 0 && ItemElements(all[1..]) == 0;
    assert ItemBytes(all) == BytesOf(v) && ItemElements(all) == ElementsOf(v);
  }

  lemma BackwardSound(x: Value)
    requires SoundFields([Field(2, x), Field(1, x)], 1, Lenient())
    ensures Sound(Backward(x), 0, Lenient())
    ensures BytesOf(Backward(x)) <= FieldBytes([Field(2, x), Field(1, x)]) + 10
    ensures ElementsOf(Backward(x)) == 1 + FieldElements([Field(2, x), Field(1, x)])
  {
    hide SoundFields, FieldBytes, FieldElements;
  }

  /** A struct whose fields come backward is accepted, and encodes to other bytes than it came from. */
  lemma BackwardAccepted()
    ensures var v := Backward(Value([120], Nil, None));
            DecodeAll(SpellAll([v]), Lenient()) == Some([v]) && EncodeAll([v]) != SpellAll([v])
  {
    var x := Value([120], Nil, None);
    var v := Backward(x);
    NothingFits();
    BackwardLength(x);
    BackwardAcceptable(x);
    assert v.data.fields[1].id < v.data.fields[0].id;
    assert !IdsAscend(v.data.fields) && v == [v][0];
    assert !Ordered(v);
    hide Spell, SpellAll, EncodeAll, DecodeAll, Acceptable, Ordered, Sound;
    DecodesExactly(SpellAll([v]), Lenient(), [v]);
    DecodedCanonicalIff(SpellAll([v]), Lenient(), [v]);
  }
}
