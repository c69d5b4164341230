/**
  * What a layout has to list: the places of a value of the type that hold a reference or a dynamic value, found by
  * walking through fields and elements.
  */
module LayoutPlaces {
  import opened Prelude
  import opened HeapWords
  import opened Layouts

  /** One step into a value: a field of a struct or an element of an array. */
  datatype Stop = Field(i: nat) | Element(j: nat)

  function Width(types: Types, key: Key, active: set<Key>): nat {
    if Ideal(types, key, active).Plan? then Ideal(types, key, active).width else 0
  }

  /** Fields follow each other, each at the next multiple of eight. */
  function FieldOffset(types: Types, fields: seq<Key>, active: set<Key>, i: nat): nat
    requires i <= |fields|
  {
    if i == 0 then 0
    else RoundUp(FieldOffset(types, fields, active, i - 1) + Width(types, fields[i - 1], active))
  }

  /** Walking along the path from the start of a value leads, `at` bytes on, to a reference or a dynamic value. */
  ghost predicate Leaf(types: Types, key: Key, active: set<Key>, path: seq<Stop>, at: nat, dynamic: bool)
    decreases |path|
  {
    key !in active &&
    match ShapeOf(types, key)
    case TextShape => path == [] && at == 0 && !dynamic
    case PointerShape => path == [] && at == 0 && !dynamic
    case HandleShape => path == [] && at == 0 && !dynamic
    case SliceShape(_) => path == [] && at == 0 && !dynamic
    case DynamicShape => path == [] && at == 0 && dynamic
    case ArrayShape(n, elem) =>
      && path != [] && path[0].Element? && path[0].j < n
      && var base := path[0].j * Width(types, elem, active + {key});
      base <= at && Leaf(types, elem, active + {key}, path[1..], at - base, dynamic)
    case StructShape(fields) =>
      && path != [] && path[0].Field? && path[0].i < |fields|
      && var base := FieldOffset(types, fields, active + {key}, path[0].i);
      base <= at && Leaf(types, fields[path[0].i], active + {key}, path[1..], at - base, dynamic)
    case _ => false
  }

  /** The offsets of one kind that a plan lists. */
  function Listed(p: Plan, dynamic: bool): seq<nat> {
    if !p.Plan? then [] else if dynamic then p.dynamics else p.references
  }

  /** Offset `at` is offset `at - base` of the part that starts at `base`. */
  predicate Within(offsets: seq<nat>, base: nat, at: nat) {
    base <= at && at - base in offsets
  }

  lemma ShiftedMember(offsets: seq<nat>, base: nat, at: nat)
    ensures at in Shifted(offsets, base) <==> Within(offsets, base, at)
  {
    if Within(offsets, base, at) {
      var i :| 0 <= i < |offsets| && offsets[i] == at - base;
      assert Shifted(offsets, base)[i] == at;
    }
  }

  lemma {:induction false} RepeatedMember(offsets: seq<nat>, width: nat, n: nat, at: nat)
    ensures at in Repeated(offsets, width, n) <==> exists j: nat :: j < n && Within(offsets, j * width, at)
  {
    if n > 0 {
      RepeatedMember(offsets, width, n - 1, at);
      ElementBaseIsProduct(width, n - 1);
      ShiftedMember(offsets, (n - 1) * width, at);
      hide Within;
    }
  }

  lemma {:induction false} OffsetPrefix(types: Types, fields: seq<Key>, active: set<Key>, n: nat, i: nat)
    requires i <= n <= |fields|
    ensures FieldOffset(types, fields[..n], active, i) == FieldOffset(types, fields, active, i)
  {
    hide Width, RoundUp;
    if i > 0 {
      OffsetPrefix(types, fields, active, n, i - 1);
    }
  }

  /** The fields before the last one, and the last one behind them. */
  lemma FieldsLast(types: Types, fields: seq<Key>, active: set<Key>)
    requires fields != [] && IdealFields(types, fields, active).Plan?
    ensures var before, last := IdealFields(types, fields[..|fields| - 1], active),
        Ideal(types, fields[|fields| - 1], active);
      && before.Plan? && last.Plan? && IdealFields(types, fields, active) == AppendField(before, last)
  {
    hide Ideal;
  }

  lemma {:induction false} FieldsWidth(types: Types, fields: seq<Key>, active: set<Key>)
    requires IdealFields(types, fields, active).Plan?
    ensures RoundUp(IdealFields(types, fields, active).width) == FieldOffset(types, fields, active, |fields|)
    decreases |fields|
  {
    hide Ideal;
    if fields != [] {
      var n := |fields| - 1;
      FieldsLast(types, fields, active);
      FieldsWidth(types, fields[..n], active);
      OffsetPrefix(types, fields, active, n, n);
      hide IdealFields, RoundUp, Shifted;
    }
  }

  /** Offset `at` of the struct lies in field `i`. */
  ghost predicate InField(types: Types, fields: seq<Key>, active: set<Key>, i: nat, at: nat, dynamic: bool) {
    i < |fields|
    && Within(Listed(Ideal(types, fields[i], active), dynamic), FieldOffset(types, fields, active, i), at)
  }

  lemma {:induction false} FieldsMember(types: Types, fields: seq<Key>, active: set<Key>, at: nat, dynamic: bool)
    requires IdealFields(types, fields, active).Plan?
    ensures at in Listed(IdealFields(types, fields, active), dynamic) <==>
      exists i: nat :: InField(types, fields, active, i, at, dynamic)
    decreases |fields|
  {
    hide Ideal;
    if fields != [] {
      var n := |fields| - 1;
      FieldsLast(types, fields, active);
      FieldsWidth(types, fields[..n], active);
      FieldsMember(types, fields[..n], active, at, dynamic);
      OffsetPrefix(types, fields, active, n, n);
      ShiftedMember(Listed(Ideal(types, fields[n], active), dynamic), FieldOffset(types, fields, active, n), at);
      hide IdealFields, FieldOffset, Shifted, Within, RoundUp;
      assert at in Listed(IdealFields(types, fields, active), dynamic) <==>
        || at in Listed(IdealFields(types, fields[..n], active), dynamic)
        || InField(types, fields, active, n, at, dynamic);
      forall i: nat
        ensures InField(types, fields, active, i, at, dynamic) <==>
          || InField(types, fields[..n], active, i, at, dynamic)
          || (i == n && InField(types, fields, active, n, at, dynamic))
      {
        if i < n {
          OffsetPrefix(types, fields, active, n, i);
        }
      }
      hide InField;
    }
  }

  // ----- a layout lists exactly the leaves -----

  lemma ArrayLeaf(types: Types, key: Key, active: set<Key>, j: nat, path: seq<Stop>, at: nat, dynamic: bool)
    requires key !in active && ShapeOf(types, key).ArrayShape? && j < ShapeOf(types, key).length
    requires var elem := ShapeOf(types, key).elem; var base := j * Width(types, elem, active + {key});
      base <= at && Leaf(types, elem, active + {key}, path, at - base, dynamic)
    ensures Leaf(types, key, active, [Element(j)] + path, at, dynamic)
  {
    assert ([Element(j)] + path)[1..] == path;
  }

  lemma StructLeaf(types: Types, key: Key, active: set<Key>, i: nat, path: seq<Stop>, at: nat, dynamic: bool)
    requires key !in active && ShapeOf(types, key).StructShape? && i < |ShapeOf(types, key).fields|
    requires var fields := ShapeOf(types, key).fields; var base := FieldOffset(types, fields, active + {key}, i);
      base <= at && Leaf(types, fields[i], active + {key}, path, at - base, dynamic)
    ensures Leaf(types, key, active, [Field(i)] + path, at, dynamic)
  {
    hide FieldOffset, Ideal;
    assert ([Field(i)] + path)[1..] == path;
  }

  lemma ArrayListed(types: Types, key: Key, active: set<Key>, at: nat, dynamic: bool)
    requires key !in active && ShapeOf(types, key).ArrayShape? && Ideal(types, key, active).Plan?
    ensures var n, element := ShapeOf(types, key).length, Ideal(types, ShapeOf(types, key).elem, active + {key});
      && element.Plan?
      && (at in Listed(Ideal(types, key, active), dynamic) <==>
        exists j: nat :: j < n && Within(Listed(element, dynamic), j * element.width, at))
  {
    var n, element := ShapeOf(types, key).length, Ideal(types, ShapeOf(types, key).elem, active + {key});
    RepeatedMember(Listed(element, dynamic), element.width, n, at);
    hide Repeated, Within;
  }

  lemma StructListed(types: Types, key: Key, active: set<Key>, at: nat, dynamic: bool)
    requires key !in active && ShapeOf(types, key).StructShape? && Ideal(types, key, active).Plan?
    ensures var fields, inner := ShapeOf(types, key).fields, active + {key};
      && (forall i | 0 <= i < |fields| :: Ideal(types, fields[i], inner).Plan?)
      && (at in Listed(Ideal(types, key, active), dynamic) <==>
        exists i: nat :: InField(types, fields, inner, i, at, dynamic))
  {
    var fields, inner := ShapeOf(types, key).fields, active + {key};
    assert Listed(Ideal(types, key, active), dynamic) == Listed(IdealFields(types, fields, inner), dynamic);
    assert IdealFields(types, fields, inner).Plan?;
    hide Ideal, IdealFields, InField;
    FieldsMember(types, fields, inner, at, dynamic);
    FieldsPlanned(types, fields, inner);
  }

  lemma {:induction false} FieldsPlanned(types: Types, fields: seq<Key>, active: set<Key>)
    requires IdealFields(types, fields, active).Plan?
    ensures forall i | 0 <= i < |fields| :: Ideal(types, fields[i], active).Plan?
    decreases |fields|
  {
    hide Ideal;
    if fields != [] {
      FieldsLast(types, fields, active);
      FieldsPlanned(types, fields[..|fields| - 1], active);
    }
  }

  lemma BasicListed(types: Types, key: Key, active: set<Key>, path: seq<Stop>, at: nat, dynamic: bool)
    requires Ideal(types, key, active).Plan? && !ShapeOf(types, key).ArrayShape? && !ShapeOf(types, key).StructShape?
    ensures at in Listed(Ideal(types, key, active), dynamic) <==> Leaf(types, key, active, [], at, dynamic)
    ensures Leaf(types, key, active, path, at, dynamic) ==> path == []
  {
  }

  lemma PlanIsOpen(types: Types, key: Key, active: set<Key>)
    requires Ideal(types, key, active).Plan?
    ensures key !in active && key in types
  {
  }

  /** Whatever the layout lists is a leaf. */
  lemma {:induction false} ListedIsLeaf(types: Types, key: Key, active: set<Key>, at: nat, dynamic: bool)
    returns (path: seq<Stop>)
    requires Ideal(types, key, active).Plan? && at in Listed(Ideal(types, key, active), dynamic)
    ensures Leaf(types, key, active, path, at, dynamic)
    decreases |types.Keys - active|
  {
    hide Ideal, Leaf, FieldOffset, Listed;
    PlanIsOpen(types, key, active);
    KeysShrink(types, key, active);
    match ShapeOf(types, key)
    case ArrayShape(n, elem) =>
      ArrayListed(types, key, active, at, dynamic);
      var element := Ideal(types, elem, active + {key});
      var j: nat :| j < n && Within(Listed(element, dynamic), j * element.width, at);
      var rest := ListedIsLeaf(types, elem, active + {key}, at - j * element.width, dynamic);
      ArrayLeaf(types, key, active, j, rest, at, dynamic);
      path := [Element(j)] + rest;
    case StructShape(fields) =>
      StructListed(types, key, active, at, dynamic);
      var i: nat :| InField(types, fields, active + {key}, i, at, dynamic);
      var base := FieldOffset(types, fields, active + {key}, i);
      var rest := ListedIsLeaf(types, fields[i], active + {key}, at - base, dynamic);
      StructLeaf(types, key, active, i, rest, at, dynamic);
      path := [Field(i)] + rest;
    case _ =>
      BasicListed(types, key, active, [], at, dynamic);
      path := [];
  }

  /** Where a leaf of an array or of a struct lies. */
  lemma LeafDown(types: Types, key: Key, active: set<Key>, path: seq<Stop>, at: nat, dynamic: bool)
    requires Leaf(types, key, active, path, at, dynamic)
    ensures ShapeOf(types, key).ArrayShape? ==>
      && path != [] && path[0].Element? && path[0].j < ShapeOf(types, key).length
      && var base := path[0].j * Width(types, ShapeOf(types, key).elem, active + {key});
      base <= at && Leaf(types, ShapeOf(types, key).elem, active + {key}, path[1..], at - base, dynamic)
    ensures ShapeOf(types, key).StructShape? ==>
      && path != [] && path[0].Field? && path[0].i < |ShapeOf(types, key).fields|
      && var base := FieldOffset(types, ShapeOf(types, key).fields, active + {key}, path[0].i);
      && base <= at
      && Leaf(types, ShapeOf(types, key).fields[path[0].i], active + {key}, path[1..], at - base, dynamic)
  {
    hide FieldOffset, Ideal;
  }

  /** Every leaf is listed. */
  lemma {:induction false} LeafIsListed(types: Types, key: Key, active: set<Key>, path: seq<Stop>, at: nat,
      dynamic: bool)
    requires Ideal(types, key, active).Plan? && Leaf(types, key, active, path, at, dynamic)
    ensures at in Listed(Ideal(types, key, active), dynamic)
    decreases |path|
  {
    hide Ideal, Leaf, FieldOffset, Listed;
    PlanIsOpen(types, key, active);
    LeafDown(types, key, active, path, at, dynamic);
    match ShapeOf(types, key)
    case ArrayShape(n, elem) =>
      ArrayListed(types, key, active, at, dynamic);
      var element := Ideal(types, elem, active + {key});
      var base := path[0].j * element.width;
      LeafIsListed(types, elem, active + {key}, path[1..], at - base, dynamic);
      assert Within(Listed(element, dynamic), path[0].j * element.width, at);
    case StructShape(fields) =>
      StructListed(types, key, active, at, dynamic);
      var i := path[0].i;
      LeafIsListed(types, fields[i], active + {key}, path[1..], at - FieldOffset(types, fields, active + {key}, i),
        dynamic);
      assert InField(types, fields, active + {key}, i, at, dynamic);
    case _ => BasicListed(types, key, active, path, at, dynamic);
  }

  /**
    * The exact layout lists exactly the places of a value of the type that hold a reference, and exactly those that
    * hold a dynamic value, through any nesting of structs and arrays.
    */
  lemma ListsLeaves(types: Types, key: Key, active: set<Key>, at: nat)
    requires Ideal(types, key, active).Plan?
    ensures at in Ideal(types, key, active).references <==> exists path :: Leaf(types, key, active, path, at, false)
    ensures at in Ideal(types, key, active).dynamics <==> exists path :: Leaf(types, key, active, path, at, true)
  {
    hide Ideal, Leaf;
    if at in Ideal(types, key, active).references {
      var path := ListedIsLeaf(types, key, active, at, false);
    }
    if at in Ideal(types, key, active).dynamics {
      var path := ListedIsLeaf(types, key, active, at, true);
    }
    if path :| Leaf(types, key, active, path, at, false) {
      LeafIsListed(types, key, active, path, at, false);
    }
    if path :| Leaf(types, key, active, path, at, true) {
      LeafIsListed(types, key, active, path, at, true);
    }
  }

  /** So does the 32-bit layout of a type whose parts stay below 4 GiB. */
  lemma PreparedListsLeaves(types: Types, key: Key, at: nat)
    requires Ideal(types, key, {}).Plan? && Ideal(types, key, {}).peak < U32
    ensures Prepared(types, key, {}).Built?
    ensures at in Prepared(types, key, {}).layout.references <==> exists path :: Leaf(types, key, {}, path, at, false)
    ensures at in Prepared(types, key, {}).layout.dynamics <==> exists path :: Leaf(types, key, {}, path, at, true)
  {
    PreparedRealizes(types, key, {});
    ListsLeaves(types, key, {}, at);
    hide Ideal, Prepared, Leaf;
  }

  /** How wide a value is. */
  predicate WidthFor(types: Types, key: Key, active: set<Key>, w: nat) {
    match ShapeOf(types, key)
    case BoolShape => w == 1
    case NumericShape(bits) => if bits < 8 then w == 8 else 8 * w <= bits < 8 * w + 8
    case TextShape => w == 24
    case DynamicShape => w == 24
    case PointerShape => w == 24
    case HandleShape => w == 8
    case SliceShape(_) => w == 32
    case ArrayShape(n, elem) =>
      var sum := n * Width(types, elem, active + {key});
      w == if sum == 0 then 8 else sum
    case StructShape(fields) =>
      if fields == [] then w == 8
      else
        var last := |fields| - 1;
        w == FieldOffset(types, fields, active + {key}, last) + Width(types, fields[last], active + {key})
    case UnresolvedShape => false
  }

  lemma WidthIs(types: Types, key: Key, active: set<Key>)
    requires Ideal(types, key, active).Plan?
    ensures WidthFor(types, key, active, Width(types, key, active))
  {
    match ShapeOf(types, key)
    case ArrayShape(n, elem) => ElementBaseIsProduct(Width(types, elem, active + {key}), n);
    case StructShape(fields) =>
      if fields != [] {
        StructWidth(types, fields, active + {key});
      }
    case _ =>
  }

  /** Every type has some width. */
  lemma {:induction false} WidthPositive(types: Types, key: Key, active: set<Key>)
    requires Ideal(types, key, active).Plan?
    ensures Ideal(types, key, active).width > 0
  {
    hide Repeated, Shifted;
  }

  lemma StructWidth(types: Types, fields: seq<Key>, active: set<Key>)
    requires fields != [] && IdealFields(types, fields, active).Plan?
    ensures IdealFields(types, fields, active).width ==
      FieldOffset(types, fields, active, |fields| - 1) + Width(types, fields[|fields| - 1], active) > 0
  {
    var n := |fields| - 1;
    FieldsLast(types, fields, active);
    FieldsWidth(types, fields[..n], active);
    OffsetPrefix(types, fields, active, n, n);
    WidthPositive(types, fields[n], active);
    hide Ideal, IdealFields, FieldOffset, Shifted;
  }
}
