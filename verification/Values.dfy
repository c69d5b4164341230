/** RPC values and what `validateValues` accepts. */
module Values {
  import opened Prelude
  import opened Wire

  type Text = seq<byte>

  type Uint64 = n: nat | n < U64

  type Int64 = i: int | IsInt64(i)

  /** An IEEE 754 bit pattern as its little-endian bytes. */
  type Float64 = s: seq<byte> | |s| == 8 witness [0, 0, 0, 0, 0, 0, 0, 0]

  datatype ResourceRef = ResourceRef(epoch: Uint64, objectID: Uint64, typeHash: Text)

  datatype Value = Value(typ: Text, data: Data, resource: Option<ResourceRef>)

  datatype Data =
    | Nil
    | Bool(flag: bool)
    | Int(signed: Int64)
    | Uint(unsigned: Uint64)
    | Float(number: Float64)
    | Complex(re: Float64, im: Float64)
    | String(text: Text)
    | Bytes(raw: seq<byte>)
    | Slice(items: seq<Value>)
    | Map(entries: seq<Entry>)
    | Struct(fields: seq<Field>)
    | Optional(inner: Value)

  datatype Entry = Entry(key: Value, value: Value)

  datatype Field = Field(id: nat, value: Value)

  /** What a type name is checked against: the kind of data and the set of types of its parts. */
  datatype Summary =
    | NilShape
    | BoolShape
    | IntShape(signed: Int64)
    | UintShape
    | FloatShape
    | ComplexShape
    | StringShape
    | BytesShape
    | SliceShape(items: set<Text>)
    | MapShape(entries: set<(Text, Text)>)
    | StructShape
    | OptionalShape(inner: Text)

  /**
    * Limits and the checks that are not modelled: UTF-8 validity, the grammar of type names and the form of resource
    * references. `limit` bounds bytes, `elements` values, `depth` nesting.
    */
  datatype Rules = Rules(depth: nat, limit: nat, elements: nat, utf8: Text -> bool, shape: (Text, Summary) -> bool,
                         resource: (Text, ResourceRef) -> bool)

  function Summarize(d: Data): Summary {
    match d
    case Nil => NilShape
    case Bool(_) => BoolShape
    case Int(i) => IntShape(i)
    case Uint(_) => UintShape
    case Float(_) => FloatShape
    case Complex(_, _) => ComplexShape
    case String(_) => StringShape
    case Bytes(_) => BytesShape
    case Slice(items) => SliceShape(set i | 0 <= i < |items| :: items[i].typ)
    case Map(entries) => MapShape(set i | 0 <= i < |entries| :: (entries[i].key.typ, entries[i].value.typ))
    case Struct(_) => StructShape
    case Optional(inner) => OptionalShape(inner.typ)
  }

  // ----- the budgets, as totals -----

  /** Bytes a value counts: its type names, strings and raw bytes. */
  function BytesOf(v: Value): nat {
    |v.typ| + if v.resource.Some? then 0 else DataBytes(v.data)
  }

  function DataBytes(d: Data): nat {
    match d
    case String(s) => |s|
    case Bytes(s) => |s|
    case Slice(items) => ItemBytes(items)
    case Map(entries) => EntryBytes(entries)
    case Struct(fields) => FieldBytes(fields)
    case Optional(inner) => BytesOf(inner)
    case _ => 0
  }

  function ItemBytes(items: seq<Value>): nat {
    if items == [] then 0 else BytesOf(items[0]) + ItemBytes(items[1..])
  }

  function EntryBytes(entries: seq<Entry>): nat {
    if entries == [] then 0 else BytesOfEntry(entries[0]) + EntryBytes(entries[1..])
  }

  function BytesOfEntry(e: Entry): nat {
    BytesOf(e.key) + BytesOf(e.value)
  }

  function FieldBytes(fields: seq<Field>): nat {
    if fields == [] then 0 else BytesOfField(fields[0]) + FieldBytes(fields[1..])
  }

  function BytesOfField(f: Field): nat {
    BytesOf(f.value)
  }

  function ElementsOf(v: Value): nat {
    1 + if v.resource.Some? then 0 else DataElements(v.data)
  }

  function DataElements(d: Data): nat {
    match d
    case Slice(items) => ItemElements(items)
    case Map(entries) => EntryElements(entries)
    case Struct(fields) => FieldElements(fields)
    case Optional(inner) => ElementsOf(inner)
    case _ => 0
  }

  function ItemElements(items: seq<Value>): nat {
    if items == [] then 0 else ElementsOf(items[0]) + ItemElements(items[1..])
  }

  function EntryElements(entries: seq<Entry>): nat {
    if entries == [] then 0 else ElementsOfEntry(entries[0]) + EntryElements(entries[1..])
  }

  function ElementsOfEntry(e: Entry): nat {
    ElementsOf(e.key) + ElementsOf(e.value)
  }

  function FieldElements(fields: seq<Field>): nat {
    if fields == [] then 0 else ElementsOfField(fields[0]) + FieldElements(fields[1..])
  }

  function ElementsOfField(f: Field): nat {
    ElementsOf(f.value)
  }

  // ----- the structural rules -----

  predicate DistinctIds(fields: seq<Field>) {
    forall i, j | 0 <= i < j < |fields| :: fields[i].id != fields[j].id
  }

  /** Everything `validateValues` demands of a value at some depth, apart from the budgets. */
  predicate Sound(v: Value, depth: nat, r: Rules) {
    && v.typ != [] && r.utf8(v.typ) && depth <= r.depth
    && if v.resource.Some? then depth == 0 && v.data.Nil? && r.resource(v.typ, v.resource.value)
       else r.shape(v.typ, Summarize(v.data)) && SoundData(v.data, depth, r)
  }

  predicate SoundData(d: Data, depth: nat, r: Rules) {
    match d
    case String(s) => r.utf8(s)
    case Slice(items) => forall i | 0 <= i < |items| :: Sound(items[i], depth + 1, r)
    case Map(entries) => forall i | 0 <= i < |entries| ::
      Sound(entries[i].key, depth + 1, r) && Sound(entries[i].value, depth + 1, r)
    case Struct(fields) => SoundFields(fields, depth + 1, r)
    case Optional(inner) => Sound(inner, depth + 1, r)
    case _ => true
  }

  predicate SoundFields(fields: seq<Field>, depth: nat, r: Rules) {
    && DistinctIds(fields)
    && (forall i | 0 <= i < |fields| :: 0 < fields[i].id < 0x1_0000_0000)
    && (forall i | 0 <= i < |fields| :: SoundField(fields[i], depth, r))
  }

  predicate SoundField(f: Field, depth: nat, r: Rules) {
    Sound(f.value, depth, r)
  }

  /** What `validateValues` accepts. */
  predicate Acceptable(vs: seq<Value>, r: Rules) {
    (forall i | 0 <= i < |vs| :: Sound(vs[i], 0, r)) && ItemBytes(vs) <= r.limit && ItemElements(vs) <= r.elements
  }

  // ----- `validateValues` -----

  /** The running byte and element counters of one validation. */
  class Budget {
    const rules: Rules
    var bytes: nat
    var elements: nat

    constructor (rules: Rules)
      ensures this.rules == rules && bytes == 0 && elements == 0
    {
      this.rules, bytes, elements := rules, 0, 0;
    }

    predicate Within()
      reads this
    {
      bytes <= rules.limit && elements <= rules.elements
    }

    /** The counters end at the totals; the answer is the structural rules and the two budgets together. */
    method Validate(v: Value, depth: nat) returns (ok: bool)
      requires Within()
      modifies this
      ensures ok <==>
        Sound(v, depth, rules) && old(bytes) + BytesOf(v) <= rules.limit
          && old(elements) + ElementsOf(v) <= rules.elements
      ensures ok ==> bytes == old(bytes) + BytesOf(v) && elements == old(elements) + ElementsOf(v)
      decreases v
    {
      if v.typ == [] || !rules.utf8(v.typ) || depth > rules.depth {
        return false;
      }
      bytes := bytes + |v.typ|;
      elements := elements + 1;
      if !Within() {
        return false;
      }
      if v.resource.Some? {
        ok := depth == 0 && v.data.Nil? && rules.resource(v.typ, v.resource.value);
        return;
      }
      if !rules.shape(v.typ, Summarize(v.data)) {
        return false;
      }
      ok := ValidateData(v.data, depth);
    }

    method ValidateData(d: Data, depth: nat) returns (ok: bool)
      requires Within()
      modifies this
      ensures ok <==>
        SoundData(d, depth, rules) && old(bytes) + DataBytes(d) <= rules.limit
          && old(elements) + DataElements(d) <= rules.elements
      ensures ok ==> bytes == old(bytes) + DataBytes(d) && elements == old(elements) + DataElements(d)
      decreases d
    {
      match d {
        case String(s) =>
          if !rules.utf8(s) {
            return false;
          }
          bytes := bytes + |s|;
          ok := Within();
        case Bytes(s) =>
          bytes := bytes + |s|;
          ok := Within();
        case Slice(items) =>
          ok := ValidateItems(items, depth + 1);
        case Map(entries) =>
          ok := ValidateEntries(entries, depth + 1);
        case Struct(fields) =>
          ok := ValidateFields(fields, depth + 1);
        case Optional(inner) =>
          ok := Validate(inner, depth + 1);
        case _ =>
          ok := true;
      }
    }

    /** The sum of what is counted and what is left never changes. */
    ghost predicate Counted(b0: nat, e0: nat, b: nat, e: nat)
      reads this
    {
      Within() && bytes + b == b0 && elements + e == e0
    }

    method ValidateItems(items: seq<Value>, depth: nat) returns (ok: bool)
      requires Within()
      modifies this
      ensures var sound := forall i | 0 <= i < |items| :: Sound(items[i], depth, rules);
              ok <==>
                sound && old(bytes) + ItemBytes(items) <= rules.limit
                  && old(elements) + ItemElements(items) <= rules.elements
      ensures ok ==> bytes == old(bytes) + ItemBytes(items) && elements == old(elements) + ItemElements(items)
      decreases items
    {
      ghost var b0, e0 := bytes + ItemBytes(items), elements + ItemElements(items);
      var i := 0;
      assert items[0..] == items;
      while i < |items|
        invariant 0 <= i <= |items| && Counted(b0, e0, ItemBytes(items[i..]), ItemElements(items[i..]))
        invariant forall j | 0 <= j < i :: Sound(items[j], depth, rules)
      {
        assert items[i..][0] == items[i] && items[i..][1..] == items[i + 1..];
        ok := Validate(items[i], depth);
        if !ok {
          return;
        }
        i := i + 1;
      }
      assert items[i..] == [];
      ok := true;
    }

    method ValidateEntries(entries: seq<Entry>, depth: nat) returns (ok: bool)
      requires Within()
      modifies this
      ensures var sound := forall i | 0 <= i < |entries| ::
        Sound(entries[i].key, depth, rules) && Sound(entries[i].value, depth, rules);
              ok <==>
                sound && old(bytes) + EntryBytes(entries) <= rules.limit
                  && old(elements) + EntryElements(entries) <= rules.elements
      ensures ok ==> bytes == old(bytes) + EntryBytes(entries) && elements == old(elements) + EntryElements(entries)
      decreases entries
    {
      ghost var b0, e0 := bytes + EntryBytes(entries), elements + EntryElements(entries);
      var i := 0;
      assert entries[0..] == entries;
      while i < |entries|
        invariant 0 <= i <= |entries| && Counted(b0, e0, EntryBytes(entries[i..]), EntryElements(entries[i..]))
        invariant forall j | 0 <= j < i :: Sound(entries[j].key, depth, rules) && Sound(entries[j].value, depth, rules)
      {
        assert entries[i..][0] == entries[i] && entries[i..][1..] == entries[i + 1..];
        ok := ValidateEntry(entries[i], depth);
        if !ok {
          return;
        }
        i := i + 1;
      }
      assert entries[i..] == [];
      ok := true;
    }

    method ValidateEntry(e: Entry, depth: nat) returns (ok: bool)
      requires Within()
      modifies this
      ensures ok <==>
        Sound(e.key, depth, rules) && Sound(e.value, depth, rules) && old(bytes) + BytesOfEntry(e) <= rules.limit
          && old(elements) + ElementsOfEntry(e) <= rules.elements
      ensures ok ==> bytes == old(bytes) + BytesOfEntry(e) && elements == old(elements) + ElementsOfEntry(e)
      decreases e
    {
      ok := Validate(e.key, depth);
      if ok {
        ok := Validate(e.value, depth);
      }
    }

    /** Field identifiers must be present and distinct. */
    method ValidateFields(fields: seq<Field>, depth: nat) returns (ok: bool)
      requires Within()
      modifies this
      ensures ok <==>
        SoundFields(fields, depth, rules) && old(bytes) + FieldBytes(fields) <= rules.limit
          && old(elements) + FieldElements(fields) <= rules.elements
      ensures ok ==> bytes == old(bytes) + FieldBytes(fields) && elements == old(elements) + FieldElements(fields)
      decreases fields
    {
      ghost var b0, e0 := bytes + FieldBytes(fields), elements + FieldElements(fields);
      var seen: set<nat>, i := {}, 0;
      assert fields[0..] == fields;
      while i < |fields|
        invariant 0 <= i <= |fields| && Counted(b0, e0, FieldBytes(fields[i..]), FieldElements(fields[i..]))
        invariant SoundFields(fields[..i], depth, rules)
        invariant forall id :: id in seen <==> exists j :: 0 <= j < i && fields[j].id == id
      {
        assert fields[i..][0] == fields[i] && fields[i..][1..] == fields[i + 1..];
        if fields[i].id == 0 || fields[i].id >= 0x1_0000_0000 || fields[i].id in seen {
          return false;
        }
        seen := seen + {fields[i].id};
        ok := ValidateField(fields[i], depth);
        if !ok {
          return;
        }
        assert fields[..i + 1] == fields[..i] + [fields[i]];
        i := i + 1;
      }
      assert fields[i..] == [] && fields[..i] == fields;
      ok := true;
    }

    method ValidateField(f: Field, depth: nat) returns (ok: bool)
      requires Within()
      modifies this
      ensures ok <==>
        Sound(f.value, depth, rules) && old(bytes) + BytesOfField(f) <= rules.limit
          && old(elements) + ElementsOfField(f) <= rules.elements
      ensures ok ==> bytes == old(bytes) + BytesOfField(f) && elements == old(elements) + ElementsOfField(f)
      decreases f
    {
      ok := Validate(f.value, depth);
    }
  }

  method ValidateValues(vs: seq<Value>, r: Rules) returns (ok: bool)
    ensures ok <==> Acceptable(vs, r)
  {
    var budget := new Budget(r);
    ok := budget.ValidateItems(vs, 0);
  }
}
