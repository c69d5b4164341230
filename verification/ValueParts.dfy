/** What `validateValues` accepts, value by value: every value inside the arguments, once, with how deep it lies. */
module ValueParts {
  import opened Prelude
  import opened Values

  datatype Part = Part(value: Value, level: nat)

  /** The value itself, then everything in it. */
  function Parts(v: Value, level: nat): seq<Part> {
    [Part(v, level)] + (if v.resource.Some? then [] else Inside(v.data, level + 1))
  }

  function Inside(d: Data, level: nat): seq<Part> {
    match d
    case Slice(items) => OfItems(items, level)
    case Map(entries) => OfEntries(entries, level)
    case Struct(fields) => OfFields(fields, level)
    case Optional(inner) => Parts(inner, level)
    case _ => []
  }

  function OfItems(items: seq<Value>, level: nat): seq<Part> {
    if items == [] then [] else Parts(items[0], level) + OfItems(items[1..], level)
  }

  function OfEntry(e: Entry, level: nat): seq<Part> {
    Parts(e.key, level) + Parts(e.value, level)
  }

  function OfEntries(entries: seq<Entry>, level: nat): seq<Part> {
    if entries == [] then [] else OfEntry(entries[0], level) + OfEntries(entries[1..], level)
  }

  function OfField(f: Field, level: nat): seq<Part> {
    Parts(f.value, level)
  }

  function OfFields(fields: seq<Field>, level: nat): seq<Part> {
    if fields == [] then [] else OfField(fields[0], level) + OfFields(fields[1..], level)
  }

  /** The bytes a value counts by itself: its type name, and its text or raw bytes. */
  function OwnBytes(v: Value): nat {
    |v.typ| +
    if v.resource.Some? then 0 else if v.data.String? then |v.data.text| else if v.data.Bytes? then |v.data.raw| else 0
  }

  function Total(parts: seq<Part>): nat {
    if parts == [] then 0 else OwnBytes(parts[0].value) + Total(parts[1..])
  }

  predicate GoodIds(fields: seq<Field>) {
    DistinctIds(fields) && forall i | 0 <= i < |fields| :: 0 < fields[i].id < 0x1_0000_0000
  }

  /** What a value has to meet by itself. */
  predicate OwnRules(p: Part, r: Rules) {
    var v := p.value;
    && v.typ != [] && r.utf8(v.typ) && p.level <= r.depth
    && if v.resource.Some? then p.level == 0 && v.data.Nil? && r.resource(v.typ, v.resource.value)
       else
         && r.shape(v.typ, Summarize(v.data)) && (v.data.String? ==> r.utf8(v.data.text))
         && (v.data.Struct? ==> GoodIds(v.data.fields))
  }

  predicate AllObey(parts: seq<Part>, r: Rules) {
    forall i | 0 <= i < |parts| :: OwnRules(parts[i], r)
  }

  lemma {:induction false} TotalAppend(a: seq<Part>, b: seq<Part>)
    ensures Total(a + b) == Total(a) + Total(b)
  {
    if a == [] {
      assert a + b == b;
    } else {
      TotalAppend(a[1..], b);
      assert (a + b)[1..] == a[1..] + b;
    }
  }

  lemma ObeyAppend(a: seq<Part>, b: seq<Part>, r: Rules)
    ensures AllObey(a + b, r) <==> AllObey(a, r) && AllObey(b, r)
  {
    hide OwnRules;
    if AllObey(a + b, r) {
      assert forall i | 0 <= i < |a| :: (a + b)[i] == a[i];
      forall i | 0 <= i < |b|
        ensures OwnRules(b[i], r)
      {
        assert (a + b)[|a| + i] == b[i];
      }
    }
  }

  /** The counters are the sums over the parts, and the rules are the rules of each part. */
  ghost predicate Agree(parts: seq<Part>, bytes: nat, elements: nat, sound: bool, r: Rules) {
    Total(parts) == bytes && |parts| == elements && (AllObey(parts, r) <==> sound)
  }

  lemma AgreeAppend(a: seq<Part>, b: seq<Part>, ab: nat, ae: nat, p: bool, bb: nat, be: nat, q: bool, r: Rules)
    requires Agree(a, ab, ae, p, r) && Agree(b, bb, be, q, r)
    ensures Agree(a + b, ab + bb, ae + be, p && q, r)
  {
    TotalAppend(a, b);
    ObeyAppend(a, b, r);
  }

  lemma {:induction false} ValueAgrees(v: Value, level: nat, r: Rules)
    ensures Agree(Parts(v, level), BytesOf(v), ElementsOf(v), Sound(v, level, r), r)
    decreases v, 1
  {
    var own := [Part(v, level)];
    var inside := if v.resource.Some? then [] else Inside(v.data, level + 1);
    assert Total(own) == OwnBytes(v);
    if v.resource.None? {
      DataAgrees(v, level, r);
    }
    TotalAppend(own, inside);
    ObeyAppend(own, inside, r);
    assert AllObey(own, r) <==> OwnRules(own[0], r);
  }

  lemma {:induction false} DataAgrees(v: Value, level: nat, r: Rules)
    requires v.resource.None?
    ensures Total(Inside(v.data, level + 1)) + OwnBytes(v) == BytesOf(v)
    ensures |Inside(v.data, level + 1)| + 1 == ElementsOf(v)
    ensures OwnRules(Part(v, level), r) && AllObey(Inside(v.data, level + 1), r) <==> Sound(v, level, r)
    decreases v, 0
  {
    match v.data
    case Slice(items) => ItemsAgree(items, level + 1, r);
    case Map(entries) =>
      EntriesAgree(entries, level + 1, r);
      assert SoundData(v.data, level, r) <==> SoundEntries(entries, level + 1, r);
    case Struct(fields) =>
      FieldsAgree(fields, level + 1, r);
      assert SoundData(v.data, level, r) <==> GoodIds(fields) && SoundInside(fields, level + 1, r);
    case Optional(inner) => ValueAgrees(inner, level + 1, r);
    case _ =>
  }

  lemma {:induction false} ItemsAgree(items: seq<Value>, level: nat, r: Rules)
    ensures Agree(OfItems(items, level), ItemBytes(items), ItemElements(items),
      forall i | 0 <= i < |items| :: Sound(items[i], level, r), r)
    decreases items
  {
    if items != [] {
      ValueAgrees(items[0], level, r);
      ItemsAgree(items[1..], level, r);
      var rest := forall i | 0 <= i < |items[1..]| :: Sound(items[1..][i], level, r);
      AgreeAppend(Parts(items[0], level), OfItems(items[1..], level), BytesOf(items[0]), ElementsOf(items[0]),
        Sound(items[0], level, r), ItemBytes(items[1..]), ItemElements(items[1..]), rest, r);
      hide Sound, Agree;
      assert (forall i | 0 <= i < |items| :: Sound(items[i], level, r)) <==> Sound(items[0], level, r) && rest;
    }
  }

  predicate SoundEntries(entries: seq<Entry>, level: nat, r: Rules) {
    forall i | 0 <= i < |entries| :: Sound(entries[i].key, level, r) && Sound(entries[i].value, level, r)
  }

  lemma {:induction false} EntryAgrees(e: Entry, level: nat, r: Rules)
    ensures Agree(OfEntry(e, level), BytesOfEntry(e), ElementsOfEntry(e),
      Sound(e.key, level, r) && Sound(e.value, level, r), r)
    decreases e
  {
    ValueAgrees(e.key, level, r);
    ValueAgrees(e.value, level, r);
    AgreeAppend(Parts(e.key, level), Parts(e.value, level), BytesOf(e.key), ElementsOf(e.key), Sound(e.key, level, r),
      BytesOf(e.value), ElementsOf(e.value), Sound(e.value, level, r), r);
  }

  lemma {:induction false} EntriesAgree(entries: seq<Entry>, level: nat, r: Rules)
    ensures Agree(OfEntries(entries, level), EntryBytes(entries), EntryElements(entries),
      SoundEntries(entries, level, r), r)
    decreases entries
  {
    if entries != [] {
      var first := Sound(entries[0].key, level, r) && Sound(entries[0].value, level, r);
      EntryAgrees(entries[0], level, r);
      EntriesAgree(entries[1..], level, r);
      AgreeAppend(OfEntry(entries[0], level), OfEntries(entries[1..], level), BytesOfEntry(entries[0]),
        ElementsOfEntry(entries[0]), first, EntryBytes(entries[1..]), EntryElements(entries[1..]),
        SoundEntries(entries[1..], level, r), r);
      hide Sound, Agree;
      assert SoundEntries(entries, level, r) <==> first && SoundEntries(entries[1..], level, r);
    }
  }

  predicate SoundInside(fields: seq<Field>, level: nat, r: Rules) {
    forall i | 0 <= i < |fields| :: SoundField(fields[i], level, r)
  }

  lemma {:induction false} FieldAgrees(f: Field, level: nat, r: Rules)
    ensures Agree(OfField(f, level), BytesOfField(f), ElementsOfField(f), SoundField(f, level, r), r)
    decreases f
  {
    ValueAgrees(f.value, level, r);
  }

  lemma {:induction false} FieldsAgree(fields: seq<Field>, level: nat, r: Rules)
    ensures Agree(OfFields(fields, level), FieldBytes(fields), FieldElements(fields), SoundInside(fields, level, r), r)
    decreases fields
  {
    if fields != [] {
      FieldAgrees(fields[0], level, r);
      FieldsAgree(fields[1..], level, r);
      AgreeAppend(OfField(fields[0], level), OfFields(fields[1..], level), BytesOfField(fields[0]),
        ElementsOfField(fields[0]), SoundField(fields[0], level, r), FieldBytes(fields[1..]),
        FieldElements(fields[1..]), SoundInside(fields[1..], level, r), r);
      hide SoundField, Agree;
      assert SoundInside(fields, level, r) <==> SoundField(fields[0], level, r) && SoundInside(fields[1..], level, r);
    }
  }

  /**
    * Arguments are acceptable if and only if every value in them, however deep, obeys the rules at its depth, and
    * taken together they are not too many and do not count too many bytes.
    */
  lemma AcceptableIff(vs: seq<Value>, r: Rules)
    ensures var parts := OfItems(vs, 0);
      Acceptable(vs, r) <==> AllObey(parts, r) && Total(parts) <= r.limit && |parts| <= r.elements
  {
    ItemsAgree(vs, 0, r);
  }
}
