/** Building the storage layout of a type: where its references and dynamic values lie. */
module Layouts {
  import opened Prelude
  import opened HeapWords

  type Key = string

  /** The width of a numeric type, kept in 16 bits. */
  type Bits = n: nat | n < 0x1_0000

  /** What the builder asks of a resolved type. */
  datatype Shape =
    | BoolShape
    | NumericShape(bits: Bits)
    | TextShape
    | DynamicShape
    | SliceShape(elem: Key)
    | PointerShape
    | HandleShape
    | ArrayShape(length: nat, elem: Key)
    | StructShape(fields: seq<Key>)
    | UnresolvedShape

  type Types = map<Key, Shape>

  const SCALAR_BYTES: nat := 8
  const BYTE_BYTES: nat := 1
  const REFERENCE_BYTES: nat := 8
  const DYNAMIC_BYTES: nat := 24
  const TEXT_BYTES: nat := 24
  const SLICE_BYTES: nat := 32
  const POINTER_BYTES: nat := 24

  datatype Built = Built(layout: Layout) | Recursive | Unavailable

  function ShapeOf(types: Types, key: Key): Shape {
    if key in types then types[key] else UnresolvedShape
  }

  function NumericBytes(bits: Bits): (n: nat)
    ensures 0 < n < U32
    ensures if bits < 8 then n == 8 else 8 * n <= bits < 8 * n + 8
  {
    if bits / 8 == 0 then SCALAR_BYTES else bits / 8
  }

  function RoundUp(n: nat): (r: nat)
    ensures n <= r < n + 8 && r % 8 == 0
  {
    if n % 8 == 0 then n else n + (8 - n % 8)
  }

  function Shifted(offsets: seq<nat>, base: nat): seq<nat> {
    seq(|offsets|, i requires 0 <= i < |offsets| => base + offsets[i])
  }

  // ----- the layout over unbounded numbers -----

  /** The exact layout, and the widest type met on the way; or why there is none. */
  datatype Plan =
    | Plan(width: nat, references: seq<nat>, dynamics: seq<nat>, peak: nat)
    | RecursivePlan(peak: nat)
    | UnavailablePlan(peak: nat)

  function Max(a: nat, b: nat): nat {
    if a < b then b else a
  }

  /** The offsets of `n` elements laid side by side. */
  function Repeated(offsets: seq<nat>, width: nat, n: nat): seq<nat> {
    if n == 0 then [] else Repeated(offsets, width, n - 1) + Shifted(offsets, ElementBase(width, n - 1))
  }

  function ArrayPlan(element: Plan, n: nat): Plan {
    if !element.Plan? then element
    else
      var width := if ElementBase(element.width, n) == 0 then SCALAR_BYTES else ElementBase(element.width, n);
      Plan(width, Repeated(element.references, element.width, n), Repeated(element.dynamics, element.width, n),
        Max(element.peak, width))
  }

  function AppendField(before: Plan, field: Plan): Plan {
    if !before.Plan? then before
    else if field.RecursivePlan? then RecursivePlan(Max(before.peak, field.peak))
    else if field.UnavailablePlan? then UnavailablePlan(Max(before.peak, field.peak))
    else
      var at := RoundUp(before.width);
      Plan(at + field.width, before.references + Shifted(field.references, at),
        before.dynamics + Shifted(field.dynamics, at),
           Max(Max(before.peak, field.peak), at + field.width))
  }

  /** A slice needs no room for its elements; only a hard failure of the element type stops it. */
  function SlicePlan(element: Plan): Plan {
    if element.UnavailablePlan? then element else Plan(SLICE_BYTES, [0], [], Max(element.peak, SLICE_BYTES))
  }

  function Ideal(types: Types, key: Key, active: set<Key>): Plan
    decreases |types.Keys - active|, 0
  {
    if key in active then RecursivePlan(0)
    else
      match ShapeOf(types, key)
      case BoolShape => Plan(BYTE_BYTES, [], [], BYTE_BYTES)
      case NumericShape(bits) => Plan(NumericBytes(bits), [], [], NumericBytes(bits))
      case TextShape => Plan(TEXT_BYTES, [0], [], TEXT_BYTES)
      case DynamicShape => Plan(DYNAMIC_BYTES, [], [0], DYNAMIC_BYTES)
      case PointerShape => Plan(POINTER_BYTES, [0], [], POINTER_BYTES)
      case HandleShape => Plan(REFERENCE_BYTES, [0], [], REFERENCE_BYTES)
      case SliceShape(elem) =>
        KeysShrink(types, key, active);
        SlicePlan(Ideal(types, elem, active + {key}))
      case ArrayShape(n, elem) =>
        KeysShrink(types, key, active);
        ArrayPlan(Ideal(types, elem, active + {key}), n)
      case StructShape(fields) =>
        KeysShrink(types, key, active);
        StructPlan(IdealFields(types, fields, active + {key}))
      case UnresolvedShape => UnavailablePlan(0)
  }

  function StructPlan(fields: Plan): Plan {
    if fields.Plan? && fields.width == 0 then fields.(width := SCALAR_BYTES, peak := Max(fields.peak, SCALAR_BYTES))
      else fields
  }

  function IdealFields(types: Types, fields: seq<Key>, active: set<Key>): Plan
    decreases |types.Keys - active|, |fields| + 1
  {
    if fields == [] then Plan(0, [], [], 0)
    else AppendField(IdealFields(types, fields[..|fields| - 1], active), Ideal(types, fields[|fields| - 1], active))
  }

  lemma KeysShrink(types: Types, key: Key, active: set<Key>)
    requires key !in active && key in types
    ensures |types.Keys - (active + {key})| < |types.Keys - active|
  {
    assert types.Keys - (active + {key}) == (types.Keys - active) - {key};
  }

  // ----- the exact layout is well formed -----

  /** Offsets are ordered, in bounds, and no reference meets a dynamic value. */
  ghost predicate WellSpaced(p: Plan) {
    p.Plan? ==>
      && Spaced(p.references, 8, p.width) && Spaced(p.dynamics, 24, p.width)
      && (forall i, j | 0 <= i < |p.references| && 0 <= j < |p.dynamics| ::
            p.references[i] + 8 <= p.dynamics[j] || p.dynamics[j] + 24 <= p.references[i])
  }

  lemma ShiftedSpaced(offsets: seq<nat>, base: nat, width: nat, bound: nat)
    requires Spaced(offsets, width, bound)
    ensures Spaced(Shifted(offsets, base), width, base + bound)
  {
  }

  lemma ConcatSpaced(a: seq<nat>, b: seq<nat>, at: nat, width: nat, bound: nat)
    requires Spaced(a, width, at) && Spaced(b, width, bound) && (forall i | 0 <= i < |b| :: at <= b[i]) && at <= bound
    ensures Spaced(a + b, width, bound)
  {
  }

  lemma FieldSpaced(before: Plan, field: Plan)
    requires WellSpaced(before) && WellSpaced(field)
    ensures WellSpaced(AppendField(before, field))
  {
    if before.Plan? && field.Plan? {
      var at := RoundUp(before.width);
      SideBySide(before.references, field.references, before.width, at, 8, field.width);
      SideBySide(before.dynamics, field.dynamics, before.width, at, 24, field.width);
      ApartAppend(before.references, before.dynamics, field.references, field.dynamics, before.width, at, field.width);
    }
  }

  lemma SideBySide(a: seq<nat>, b: seq<nat>, end: nat, at: nat, width: nat, bound: nat)
    requires Spaced(a, width, end) && Spaced(b, width, bound) && end <= at
    ensures Spaced(a + Shifted(b, at), width, at + bound)
  {
    ShiftedSpaced(b, at, width, bound);
    ConcatSpaced(a, Shifted(b, at), at, width, at + bound);
  }

  /** References and dynamic values of the two parts stay apart. */
  ghost predicate Apart(refs: seq<nat>, dyns: seq<nat>) {
    forall i, j | 0 <= i < |refs| && 0 <= j < |dyns| :: refs[i] + 8 <= dyns[j] || dyns[j] + 24 <= refs[i]
  }

  lemma ApartAppend(refs: seq<nat>, dyns: seq<nat>, refs': seq<nat>, dyns': seq<nat>, end: nat, at: nat, bound: nat)
    requires Apart(refs, dyns) && Apart(refs', dyns') && end <= at
    requires Spaced(refs, 8, end) && Spaced(dyns, 24, end)
    ensures Apart(refs + Shifted(refs', at), dyns + Shifted(dyns', at))
  {
  }

  lemma {:induction false} RepeatedSpaced(p: Plan, n: nat)
    requires p.Plan? && WellSpaced(p)
    ensures Spaced(Repeated(p.references, p.width, n), 8, ElementBase(p.width, n))
    ensures Spaced(Repeated(p.dynamics, p.width, n), 24, ElementBase(p.width, n))
    ensures Apart(Repeated(p.references, p.width, n), Repeated(p.dynamics, p.width, n))
  {
    if n > 0 {
      RepeatedSpaced(p, n - 1);
      var at := ElementBase(p.width, n - 1);
      SideBySide(Repeated(p.references, p.width, n - 1), p.references, at, at, 8, p.width);
      SideBySide(Repeated(p.dynamics, p.width, n - 1), p.dynamics, at, at, 24, p.width);
      ApartAppend(Repeated(p.references, p.width, n - 1), Repeated(p.dynamics, p.width, n - 1), p.references,
                  p.dynamics, at, at, p.width);
    }
  }

  lemma {:induction false} IdealSpaced(types: Types, key: Key, active: set<Key>)
    ensures WellSpaced(Ideal(types, key, active))
    ensures Ideal(types, key, active).Plan? ==> 0 < Ideal(types, key, active).width <= Ideal(types, key, active).peak
    decreases |types.Keys - active|, 0
  {
    hide Repeated, Shifted, IdealFields;
    if key !in active && key in types {
      KeysShrink(types, key, active);
      match types[key] {
        case ArrayShape(n, elem) =>
          IdealSpaced(types, elem, active + {key});
          var element := Ideal(types, elem, active + {key});
          if element.Plan? {
            RepeatedSpaced(element, n);
          }
        case StructShape(fields) =>
          FieldsSpaced(types, fields, active + {key});
        case _ =>
      }
    }
  }

  lemma {:induction false} FieldsSpaced(types: Types, fields: seq<Key>, active: set<Key>)
    ensures WellSpaced(IdealFields(types, fields, active))
    ensures IdealFields(types, fields, active).Plan? ==>
      IdealFields(types, fields, active).width <= IdealFields(types, fields, active).peak
    decreases |types.Keys - active|, |fields| + 1
  {
    if fields != [] {
      var n := |fields| - 1;
      FieldsSpaced(types, fields[..n], active);
      IdealSpaced(types, fields[n], active);
      FieldSpaced(IdealFields(types, fields[..n], active), Ideal(types, fields[n], active));
    }
  }

  // ----- the layout with 32-bit offsets -----

  /** Offsets moved by a base, as 32-bit numbers. */
  function Moved(offsets: seq<nat>, base: nat): seq<nat> {
    seq(|offsets|, i requires 0 <= i < |offsets| => (base + offsets[i]) % U32)
  }

  /** The 32-bit offsets of `n` elements laid side by side. */
  function MovedAll(offsets: seq<nat>, stride: nat, n: nat): seq<nat> {
    if n == 0 then [] else MovedAll(offsets, stride, n - 1) + Moved(offsets, ElementBase(stride, n - 1))
  }

  /** The next 8-byte boundary as a 32-bit number. */
  function FieldStart(offset: nat): nat {
    RoundUp(offset) % U32
  }

  /** The running 32-bit offset after one more field. */
  function NextOffset(offset: nat, stride: nat): (next: nat)
    ensures next < U32
  {
    (FieldStart(offset) + stride) % U32
  }

  function PreparedArray(element: Built, n: nat): Built {
    if !element.Built? then element
    else if ElementBase(element.layout.stride, n) > MAX_U32 then Unavailable
    else
      Built(Layout(if ElementBase(element.layout.stride, n) == 0 then SCALAR_BYTES
                   else ElementBase(element.layout.stride, n),
                   MovedAll(element.layout.references, element.layout.stride, n),
                   MovedAll(element.layout.dynamics, element.layout.stride, n)))
  }

  /** The fields so far and one more; the stride is the running offset. */
  function PreparedField(before: Built, field: Built): Built {
    if !before.Built? then before
    else if !field.Built? then field
    else
      var at := FieldStart(before.layout.stride);
      Built(Layout(NextOffset(before.layout.stride, field.layout.stride),
                   before.layout.references + Moved(field.layout.references, at),
                   before.layout.dynamics + Moved(field.layout.dynamics, at)))
  }

  function PreparedStruct(fields: Built): Built {
    if fields.Built? && fields.layout.stride == 0 then Built(fields.layout.(stride := SCALAR_BYTES)) else fields
  }

  function PreparedSlice(element: Built): Built {
    if element.Unavailable? then Unavailable else Built(Layout(SLICE_BYTES, [0], []))
  }

  /** The layout the builder is to compute, wrap-around included; it is never empty. */
  function Prepared(types: Types, key: Key, active: set<Key>): (r: Built)
    ensures r.Built? ==> 0 < r.layout.stride < U32
    decreases |types.Keys - active|, 0
  {
    if key in active then Recursive
    else
      match ShapeOf(types, key)
      case BoolShape => Built(Layout(BYTE_BYTES, [], []))
      case NumericShape(bits) => Built(Layout(NumericBytes(bits), [], []))
      case TextShape => Built(Layout(TEXT_BYTES, [0], []))
      case DynamicShape => Built(Layout(DYNAMIC_BYTES, [], [0]))
      case PointerShape => Built(Layout(POINTER_BYTES, [0], []))
      case HandleShape => Built(Layout(REFERENCE_BYTES, [0], []))
      case SliceShape(elem) =>
        KeysShrink(types, key, active);
        PreparedSlice(Prepared(types, elem, active + {key}))
      case ArrayShape(n, elem) =>
        KeysShrink(types, key, active);
        PreparedArray(Prepared(types, elem, active + {key}), n)
      case StructShape(fields) =>
        KeysShrink(types, key, active);
        PreparedStruct(PreparedFields(types, fields, active + {key}))
      case UnresolvedShape => Unavailable
  }

  function PreparedFields(types: Types, fields: seq<Key>, active: set<Key>): (r: Built)
    ensures r.Built? ==> r.layout.stride < U32
    decreases |types.Keys - active|, |fields| + 1
  {
    if fields == [] then Built(Layout(0, [], []))
    else
      PreparedField(PreparedFields(types, fields[..|fields| - 1], active),
                    Prepared(types, fields[|fields| - 1], active))
  }

  // ----- the builder -----

  /** An array is refused exactly when its bytes do not fit 32 bits. */
  lemma OverflowCheck(length: nat, stride: nat)
    requires 0 < stride
    ensures length > MAX_U32 / stride <==> ElementBase(stride, length) > MAX_U32
  {
    ElementBaseIsProduct(stride, length);
    var q := MAX_U32 / stride;
    assert q * stride <= MAX_U32 < (q + 1) * stride;
    if length > q {
      assert (q + 1) * stride <= length * stride;
    } else {
      assert length * stride <= q * stride;
    }
  }

  /** The offset loop of an array. */
  method RepeatOffsets(offsets: seq<nat>, stride: nat, length: nat) returns (all: seq<nat>)
    ensures all == MovedAll(offsets, stride, length)
  {
    all := [];
    var index, base := 0, 0;
    while index < length
      invariant 0 <= index <= length && base == ElementBase(stride, index) && all == MovedAll(offsets, stride, index)
    {
      all := MoveOffsets(all, offsets, base);
      index, base := index + 1, base + stride;
    }
  }

  /** Appends offsets, each moved by the base. */
  method MoveOffsets(before: seq<nat>, offsets: seq<nat>, base: nat) returns (all: seq<nat>)
    ensures all == before + Moved(offsets, base)
  {
    all := before;
    var k := 0;
    while k < |offsets|
      invariant 0 <= k <= |offsets| && all == before + Moved(offsets[..k], base)
    {
      all := all + [(base + offsets[k]) % U32];
      k := k + 1;
    }
    assert offsets[..k] == offsets;
  }

  method BuildArray(element: Layout, length: nat) returns (r: Built)
    requires 0 < element.stride
    ensures r == PreparedArray(Built(element), length)
  {
    OverflowCheck(length, element.stride);
    if length > MAX_U32 / element.stride {
      return Unavailable;
    }
    var stride := ElementBase(element.stride, length);
    var references := RepeatOffsets(element.references, element.stride, length);
    var dynamics := RepeatOffsets(element.dynamics, element.stride, length);
    r := Built(Layout(if stride == 0 then SCALAR_BYTES else stride, references, dynamics));
  }

  /** The field loop of a struct; the running offset is a 32-bit number. */
  method BuildStruct(types: Types, fields: seq<Key>, active: set<Key>) returns (r: Built)
    ensures r == PreparedStruct(PreparedFields(types, fields, active))
    decreases |types.Keys - active|, 1
  {
    hide Prepared, Moved, NextOffset, FieldStart;
    var offset: nat, references: seq<nat>, dynamics: seq<nat> := 0, [], [];
    var i := 0;
    while i < |fields|
      invariant 0 <= i <= |fields|
      invariant PreparedFields(types, fields[..i], active) == Built(Layout(offset, references, dynamics))
    {
      var field := Build(types, fields[i], active);
      assert fields[..i + 1][..i] == fields[..i];
      if !field.Built? {
        FieldsStop(types, fields, active, i);
        return field;
      }
      var at := FieldStart(offset);
      references := MoveOffsets(references, field.layout.references, at);
      dynamics := MoveOffsets(dynamics, field.layout.dynamics, at);
      offset := NextOffset(offset, field.layout.stride);
      i := i + 1;
    }
    assert fields[..i] == fields;
    r := Built(Layout(if offset == 0 then SCALAR_BYTES else offset, references, dynamics));
  }

  /** The first field that cannot be built decides. */
  lemma {:induction false} FieldsStop(types: Types, fields: seq<Key>, active: set<Key>, k: nat)
    requires k < |fields| && PreparedFields(types, fields[..k], active).Built?
    requires !Prepared(types, fields[k], active).Built?
    ensures PreparedFields(types, fields, active) == Prepared(types, fields[k], active)
    decreases |fields|
  {
    hide Prepared;
    var n := |fields| - 1;
    if k < n {
      assert fields[..n][..k] == fields[..k];
      FieldsStop(types, fields[..n], active, k);
    }
  }

  /** `buildPreparedValueLayout`: the types under construction bound the recursion. */
  method Build(types: Types, key: Key, active: set<Key>) returns (r: Built)
    ensures r == Prepared(types, key, active)
    decreases |types.Keys - active|, 0
  {
    if key in active {
      return Recursive;
    }
    match ShapeOf(types, key) {
      case BoolShape => r := Built(Layout(BYTE_BYTES, [], []));
      case NumericShape(bits) => r := Built(Layout(NumericBytes(bits), [], []));
      case TextShape => r := Built(Layout(TEXT_BYTES, [0], []));
      case DynamicShape => r := Built(Layout(DYNAMIC_BYTES, [], [0]));
      case PointerShape => r := Built(Layout(POINTER_BYTES, [0], []));
      case HandleShape => r := Built(Layout(REFERENCE_BYTES, [0], []));
      case UnresolvedShape => r := Unavailable;
      case SliceShape(elem) =>
        KeysShrink(types, key, active);
        var element := Build(types, elem, active + {key});
        r := if element.Unavailable? then Unavailable else Built(Layout(SLICE_BYTES, [0], []));
      case ArrayShape(n, elem) =>
        KeysShrink(types, key, active);
        var element := Build(types, elem, active + {key});
        r := element;
        if element.Built? {
          r := BuildArray(element.layout, n);
        }
      case StructShape(fields) =>
        KeysShrink(types, key, active);
        r := BuildStruct(types, fields, active + {key});
    }
  }

  // ----- when the builder is exact -----

  /** The layout is the one over unbounded numbers. */
  predicate Exact(r: Built, p: Plan) {
    p.Plan? && r == Built(Layout(p.width, p.references, p.dynamics))
  }

  lemma MovedExact(offsets: seq<nat>, base: nat, size: nat, bound: nat)
    requires Spaced(offsets, size, bound) && 0 < size && base + bound <= U32
    ensures Moved(offsets, base) == Shifted(offsets, base)
  {
  }

  lemma {:induction false} MovedAllExact(offsets: seq<nat>, size: nat, width: nat, n: nat)
    requires Spaced(offsets, size, width) && 0 < size && ElementBase(width, n) <= MAX_U32
    ensures MovedAll(offsets, width, n) == Repeated(offsets, width, n)
  {
    if n > 0 {
      MovedAllExact(offsets, size, width, n - 1);
      MovedExact(offsets, ElementBase(width, n - 1), size, width);
    }
  }

  /** An array of an exact element is built exactly if and only if it fits 32 bits. */
  lemma ArrayExactIff(element: Built, p: Plan, n: nat)
    requires Exact(element, p) && WellSpaced(p) && 0 < p.width
    ensures Exact(PreparedArray(element, n), ArrayPlan(p, n)) <==> ArrayPlan(p, n).width < U32
  {
    if ElementBase(p.width, n) <= MAX_U32 {
      MovedAllExact(p.references, 8, p.width, n);
      MovedAllExact(p.dynamics, 24, p.width, n);
    }
  }

  /** Every field by itself is built exactly. */
  ghost predicate FieldsExact(types: Types, fields: seq<Key>, active: set<Key>) {
    forall i | 0 <= i < |fields| :: Exact(Prepared(types, fields[i], active), Ideal(types, fields[i], active))
  }

  lemma FieldExact(before: Built, p: Plan, field: Built, q: Plan)
    requires Exact(before, p) && Exact(field, q) && WellSpaced(q) && RoundUp(p.width) + q.width < U32
    ensures Exact(PreparedField(before, field), AppendField(p, q))
  {
    var at := RoundUp(p.width);
    MovedExact(q.references, at, 8, q.width);
    MovedExact(q.dynamics, at, 24, q.width);
  }

  lemma {:induction false} FieldsExactIff(types: Types, fields: seq<Key>, active: set<Key>)
    requires FieldsExact(types, fields, active)
    ensures IdealFields(types, fields, active).Plan? && PreparedFields(types, fields, active).Built?
    ensures PreparedFields(types, fields, active).layout.stride < U32
    ensures IdealFields(types, fields, active).width < U32 ==>
      Exact(PreparedFields(types, fields, active), IdealFields(types, fields, active))
  {
    hide Ideal, Prepared, Moved, Shifted;
    if fields != [] {
      var n := |fields| - 1;
      assert Exact(Prepared(types, fields[n], active), Ideal(types, fields[n], active));
      FieldsExactIff(types, fields[..n], active);
      IdealSpaced(types, fields[n], active);
      if IdealFields(types, fields, active).width < U32 {
        FieldExact(PreparedFields(types, fields[..n], active), IdealFields(types, fields[..n], active),
                   Prepared(types, fields[n], active), Ideal(types, fields[n], active));
      }
    }
  }

  /** A struct whose fields are built exactly is itself built exactly if and only if its width fits 32 bits. */
  lemma StructBuiltIff(types: Types, key: Key, active: set<Key>)
    requires key !in active && ShapeOf(types, key).StructShape?
    requires FieldsExact(types, ShapeOf(types, key).fields, active + {key})
    ensures Ideal(types, key, active).Plan? && Prepared(types, key, active).Built?
    ensures Exact(Prepared(types, key, active), Ideal(types, key, active)) <==> Ideal(types, key, active).width < U32
    ensures Prepared(types, key, active).layout.stride == Ideal(types, key, active).width <==>
      Ideal(types, key, active).width < U32
  {
    FieldsExactIff(types, ShapeOf(types, key).fields, active + {key});
    hide IdealFields, PreparedFields;
  }

  /** A type whose parts, elements of slices included, stay below 4 GiB is built as over unbounded numbers. */
  ghost predicate Realizes(r: Built, p: Plan) {
    match p
    case Plan(_, _, _, _) => Exact(r, p)
    case RecursivePlan(_) => r.Recursive?
    case UnavailablePlan(_) => r.Unavailable?
  }

  lemma {:induction false} PreparedRealizes(types: Types, key: Key, active: set<Key>)
    requires Ideal(types, key, active).peak < U32
    ensures Realizes(Prepared(types, key, active), Ideal(types, key, active))
    decreases |types.Keys - active|, 0
  {
    hide Repeated, Shifted, Moved, MovedAll, IdealFields, PreparedFields;
    if key !in active && key in types {
      KeysShrink(types, key, active);
      match types[key] {
        case SliceShape(elem) => PreparedRealizes(types, elem, active + {key});
        case ArrayShape(n, elem) =>
          PreparedRealizes(types, elem, active + {key});
          var element := Ideal(types, elem, active + {key});
          IdealSpaced(types, elem, active + {key});
          if element.Plan? {
            ArrayExactIff(Prepared(types, elem, active + {key}), element, n);
          }
        case StructShape(fields) => FieldsRealize(types, fields, active + {key});
        case _ =>
      }
    }
  }

  lemma {:induction false} FieldsRealize(types: Types, fields: seq<Key>, active: set<Key>)
    requires IdealFields(types, fields, active).peak < U32
    ensures Realizes(PreparedFields(types, fields, active), IdealFields(types, fields, active))
    decreases |types.Keys - active|, |fields| + 1
  {
    hide Ideal, Prepared, Shifted, Moved;
    if fields != [] {
      var n := |fields| - 1;
      FieldsRealize(types, fields[..n], active);
      if IdealFields(types, fields[..n], active).Plan? {
        PreparedRealizes(types, fields[n], active);
        IdealSpaced(types, fields[n], active);
        if Ideal(types, fields[n], active).Plan? {
          FieldExact(PreparedFields(types, fields[..n], active), IdealFields(types, fields[..n], active),
                     Prepared(types, fields[n], active), Ideal(types, fields[n], active));
        }
      }
    }
  }

  /** Such a type gets a layout the collector can trace, apart and in bounds. */
  lemma BuiltLayoutValid(types: Types, key: Key)
    requires Ideal(types, key, {}).Plan? && Ideal(types, key, {}).peak < U32
    ensures var r := Prepared(types, key, {});
            && r.Built? && r.layout.stride == Ideal(types, key, {}).width
            && ValidLayout(r.layout) && Apart(r.layout.references, r.layout.dynamics)
  {
    IdealSpaced(types, key, {});
    PreparedRealizes(types, key, {});
  }

  // ----- a struct whose 32-bit offset wraps -----

  const HALF: nat := 0x8000_0000

  function WideTypes(): Types {
    map["byte" := NumericShape(8), "half" := ArrayShape(HALF, "byte"), "text" := TextShape,
        "wide" := StructShape(["text", "half", "half"])]
  }

  lemma HalfIdeal()
    ensures Ideal(WideTypes(), "half", {"wide"}) == Plan(HALF, [], [], HALF)
  {
    var types := WideTypes();
    var one := Ideal(types, "byte", {"wide"} + {"half"});
    assert one == Plan(1, [], [], 1);
    ElementBaseIsProduct(1, HALF);
    RepeatedNone(1, HALF);
    hide Repeated, ElementBase;
    assert Ideal(types, "half", {"wide"}) == ArrayPlan(one, HALF);
  }

  lemma {:induction false} RepeatedNone(width: nat, n: nat)
    ensures Repeated([], width, n) == []
  {
    if n > 0 {
      RepeatedNone(width, n - 1);
    }
  }

  lemma WideOffsets()
    ensures NextOffset(0, 24) == 24 && NextOffset(24, HALF) == 24 + HALF && NextOffset(24 + HALF, HALF) == 24
  {
  }

  lemma WideNames()
    ensures ["text"][..0] == [] && ["text", "half"][..1] == ["text"]
    ensures ["text", "half", "half"][..2] == ["text", "half"]
  {
  }

  lemma HalfPrepared()
    ensures Prepared(WideTypes(), "half", {"wide"}) == Built(Layout(HALF, [], []))
  {
    var types := WideTypes();
    var one := Prepared(types, "byte", {"wide"} + {"half"});
    assert one == Built(Layout(1, [], []));
    ElementBaseIsProduct(1, HALF);
    MovedNone(1, HALF);
    hide MovedAll, ElementBase;
    assert Prepared(types, "half", {"wide"}) == PreparedArray(one, HALF);
  }

  lemma {:induction false} MovedNone(width: nat, n: nat)
    ensures MovedAll([], width, n) == []
  {
    if n > 0 {
      MovedNone(width, n - 1);
    }
  }

  lemma WideFields()
    ensures PreparedFields(WideTypes(), ["text", "half", "half"], {"wide"}).Built?
    ensures PreparedFields(WideTypes(), ["text", "half", "half"], {"wide"}).layout.stride == 24
  {
    var types, wide := WideTypes(), {"wide"};
    HalfPrepared();
    WideOffsets();
    WideNames();
    assert Prepared(types, "text", wide) == Built(Layout(24, [0], []));
    hide Prepared, WideTypes, NextOffset, Moved;
    assert PreparedFields(types, [], wide) == Built(Layout(0, [], []));
    assert PreparedFields(types, ["text"], wide).layout.stride == 24;
    assert PreparedFields(types, ["text", "half"], wide).layout.stride == 24 + HALF;
  }

  lemma WideWidth()
    ensures IdealFields(WideTypes(), ["text", "half", "half"], {"wide"}).Plan?
    ensures IdealFields(WideTypes(), ["text", "half", "half"], {"wide"}).width == 24 + HALF + HALF
  {
    hide Ideal, IdealFields, WideTypes, AppendField;
    var types, wide := WideTypes(), {"wide"};
    HalfIdeal();
    TextIdeal();
    ThreeFields(types, "text", "half", "half", wide);
    var text, half := Ideal(types, "text", wide), Ideal(types, "half", wide);
    var none := Plan(0, [], [], 0);
    AppendWidth(none, text);
    AppendWidth(AppendField(none, text), half);
    AppendWidth(AppendField(AppendField(none, text), half), half);
  }

  lemma TextIdeal()
    ensures Ideal(WideTypes(), "text", {"wide"}) == Plan(24, [0], [], 24)
  {
  }

  lemma ThreeFields(types: Types, a: Key, b: Key, c: Key, active: set<Key>)
    ensures var first := AppendField(Plan(0, [], [], 0), Ideal(types, a, active));
            IdealFields(types, [a, b, c], active) ==
              AppendField(AppendField(first, Ideal(types, b, active)), Ideal(types, c, active))
  {
    hide Ideal, AppendField;
    assert [a, b, c][..2] == [a, b] && [a, b][..1] == [a] && [a][..0] == [];
    assert IdealFields(types, [a], active) == AppendField(IdealFields(types, [], active), Ideal(types, a, active));
    assert IdealFields(types, [a, b], active) == AppendField(IdealFields(types, [a], active), Ideal(types, b, active));
  }

  lemma AppendWidth(before: Plan, field: Plan)
    requires before.Plan? && field.Plan? && before.width % 8 == 0
    ensures AppendField(before, field).Plan? && AppendField(before, field).width == before.width + field.width
  {
  }

  /** Two half-address-space fields after a string: the builder returns 24 bytes for a type of more than 4 GiB. */
  method WideStructWraps() returns (r: Built)
    ensures Ideal(WideTypes(), "wide", {}).Plan? && Ideal(WideTypes(), "wide", {}).width == 24 + HALF + HALF
    ensures r.Built? && r.layout.stride == 24
  {
    WideFields();
    WideWidth();
    assert {} + {"wide"} == {"wide"};
    hide IdealFields, PreparedFields;
    r := Build(WideTypes(), "wide", {});
  }
}
