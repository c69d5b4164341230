/** Type tables as the linker reads them. */
module LinkTypes {
  import opened Prelude

  // ----- strings -----

  /** White space as `strings.TrimSpace` sees it. */
  predicate IsSpace(c: char) {
    var n := c as int;
    || 9 <= n <= 13 || n == 32 || n == 0x85 || n == 0xA0 || n == 0x1680 || 0x2000 <= n <= 0x200A
    || n == 0x2028 || n == 0x2029 || n == 0x202F || n == 0x205F || n == 0x3000
  }

  function TrimSpace(s: string): string {
    if s == "" then ""
    else if IsSpace(s[0]) then TrimSpace(s[1..])
    else if IsSpace(s[|s| - 1]) then TrimSpace(s[..|s| - 1])
    else s
  }

  /** A trimmed path, or the module's own path when nothing is left. */
  function OwnerPath(path: string, own: string): string {
    if TrimSpace(path) == "" then own else TrimSpace(path)
  }

  // ----- the type algebra -----

  datatype Kind =
    | InvalidKind | Void | Any | Primitive | NamedKind | SliceKind | ArrayKind | MapKind | Pointer | Waitable
    | FunctionKind | TupleKind | StructKind | Interface | TypeParameter | Instance

  datatype PrimitiveKind = PrimitiveInvalid | PrimitiveError | PrimitiveString | PrimitiveOther(code: nat)

  datatype TypeKey = TypeKey(modulePath: string, declID: string) {
    predicate Empty() {
      modulePath == "" && declID == ""
    }

    predicate Complete() {
      modulePath != "" && declID != ""
    }
  }

  datatype TypeRef = TypeRef(kind: Kind, primitive: PrimitiveKind, named: TypeKey, node: string) {
    predicate Valid() {
      match kind
      case Void => primitive.PrimitiveInvalid? && named.Empty() && node == ""
      case Any => primitive.PrimitiveInvalid? && named.Empty() && node == ""
      case Primitive => !primitive.PrimitiveInvalid? && named.Empty() && node == ""
      case NamedKind => named.Complete() || node != ""
      case _ => node != "" && primitive.PrimitiveInvalid? && named.Empty()
    }

    predicate IsError() {
      kind.Primitive? && primitive.PrimitiveError?
    }
  }

  /** A signature with the text that identifies it across tables. */
  datatype Signature = Signature(params: seq<TypeRef>, results: seq<TypeRef>, text: string)

  datatype Method = Method(name: string, receiver: TypeRef, signature: Signature, functionID: string,
    modulePath: string)

  datatype TypeNode = TypeNode(
    id: string, kind: Kind, identity: TypeKey, alias: bool, aliasTarget: TypeRef, underlying: TypeRef, elem: TypeRef,
    key: TypeRef, signature: Option<Signature>, tuple: seq<TypeRef>, fields: seq<TypeRef>, methods: seq<Method>,
    terms: seq<TypeRef>, constraint: TypeRef, base: TypeRef, typeArgs: seq<TypeRef>)

  /**
    * A module's table. `errorText` is the text of the signature of the predeclared `Error` method and `strings` holds
    * the references identical to `string`; both come from parts that are not modelled.
    */
  datatype TypeTable = TypeTable(nodes: seq<TypeNode>, errorText: string, strings: set<TypeRef>) {
    /** Whether the table can be indexed: identifiers present and distinct, identities distinct. */
    predicate Indexed() {
      && (forall i | 0 <= i < |nodes| :: nodes[i].id != "")
      && (forall i, j | 0 <= i < j < |nodes| :: nodes[i].id != nodes[j].id)
      && (forall i, j | 0 <= i < j < |nodes| :: nodes[i].identity.Empty() || nodes[i].identity != nodes[j].identity)
    }

    function Node(ref: TypeRef): Option<TypeNode> {
      if ref.node == "" || !Indexed() then None else NodeWithId(nodes, ref.node)
    }

    function Named(key: TypeKey): Option<TypeNode> {
      if !Indexed() || key.Empty() then None else NodeWithIdentity(nodes, key)
    }

    function NodeForRef(ref: TypeRef): Option<TypeNode> {
      if ref.kind.NamedKind? && ref.node == "" then Named(ref.named) else Node(ref)
    }

    /** The underlying type, after at most one step more than the table has nodes. */
    function Underlying(ref: TypeRef): TypeRef {
      UnderlyingWithin(ref, |nodes| + 1)
    }

    function UnderlyingWithin(ref: TypeRef, steps: nat): TypeRef
      decreases steps
    {
      if !ref.kind.NamedKind? || steps == 0 then ref
      else match NodeForRef(ref)
           case None => ref
           case Some(node) =>
             if node.alias then
               if node.aliasTarget.Valid() then UnderlyingWithin(node.aliasTarget, steps - 1) else ref
             else if node.underlying.Valid() then UnderlyingWithin(node.underlying, steps - 1)
             else ref
    }

    /** The methods of an interface type, or none when the type is not an interface. */
    function InterfaceMethods(ref: TypeRef): Option<seq<Method>> {
      var underlying := Underlying(ref);
      if ref.kind.NamedKind? && underlying.kind.Any? then Some([])
      else if !underlying.kind.Interface? then None
      else match NodeForRef(underlying)
           case None => None
           case Some(shape) =>
             if ref.kind.NamedKind? && NodeForRef(ref).Some? && NodeForRef(ref).value.methods != []
             then Some(NodeForRef(ref).value.methods)
             else Some(shape.methods)
    }

    /** Every reference held by a node of the table. */
    ghost function Refs(): set<TypeRef> {
      set i, r | 0 <= i < |nodes| && r in NodeRefs(nodes[i]) + MethodRefs(nodes[i].methods) :: r
    }
  }

  function NodeWithId(nodes: seq<TypeNode>, id: string): (r: Option<TypeNode>)
    ensures r.Some? ==> r.value in nodes && r.value.id == id
  {
    if nodes == [] then None
    else if nodes[0].id == id then Some(nodes[0])
    else NodeWithId(nodes[1..], id)
  }

  function NodeWithIdentity(nodes: seq<TypeNode>, key: TypeKey): (r: Option<TypeNode>)
    ensures r.Some? ==> r.value in nodes && r.value.identity == key
  {
    if nodes == [] then None
    else if nodes[0].identity == key then Some(nodes[0])
    else NodeWithIdentity(nodes[1..], key)
  }

  function SignatureRefs(signature: Signature): seq<TypeRef> {
    signature.params + signature.results
  }

  /** The references a type visit follows from a node. */
  function NodeRefs(node: TypeNode): seq<TypeRef> {
    [node.underlying, node.aliasTarget, node.elem, node.key, node.constraint, node.base]
    + (if node.signature.Some? then SignatureRefs(node.signature.value) else [])
    + node.tuple + node.fields + node.terms + node.typeArgs
  }

  function MethodRefs(methods: seq<Method>): seq<TypeRef> {
    if methods == [] then [] else SignatureRefs(methods[0].signature) + MethodRefs(methods[1..])
  }

  lemma {:induction false} MethodRefsMember(methods: seq<Method>, i: nat, r: TypeRef)
    requires i < |methods| && r in SignatureRefs(methods[i].signature)
    ensures r in MethodRefs(methods)
  {
    if i > 0 {
      MethodRefsMember(methods[1..], i - 1, r);
    }
  }

  lemma NodeRefsListed(table: TypeTable, node: TypeNode)
    requires node in table.nodes
    ensures forall r | r in NodeRefs(node) || r in MethodRefs(node.methods) :: r in table.Refs()
  {
    var i :| 0 <= i < |table.nodes| && table.nodes[i] == node;
    forall r | r in NodeRefs(node) || r in MethodRefs(node.methods)
      ensures r in table.Refs()
    {
      assert r in NodeRefs(table.nodes[i]) + MethodRefs(table.nodes[i].methods);
    }
  }

  // ----- what one type contributes -----

  /** The node a type visit opens. */
  function TypeNodeOf(table: TypeTable, ref: TypeRef): (r: Option<TypeNode>)
    ensures r.Some? ==> r.value in table.nodes
  {
    if table.Node(ref).None? && ref.kind.NamedKind? then table.Named(ref.named) else table.Node(ref)
  }

  function TypeChildren(table: TypeTable, ref: TypeRef): seq<TypeRef> {
    var node := TypeNodeOf(table, ref);
    if node.None? then [] else NodeRefs(node.value)
  }

  /** A method some interface calls for: a name and the text of its signature. */
  datatype Requirement = Requirement(name: string, signature: string)

  function ErrorRequirement(table: TypeTable, ref: TypeRef): seq<Requirement> {
    if ref.IsError() then [Requirement("Error", table.errorText)] else []
  }

  /** An interface with the single method `Error() string` counts as an error. */
  function ErrorInterface(table: TypeTable, ref: TypeRef): seq<Requirement> {
    var methods := table.InterfaceMethods(ref);
    if methods.Some? && |methods.value| == 1 then
      var m := methods.value[0];
      if m.name == "Error" && m.signature.params == [] && |m.signature.results| == 1
        && m.signature.results[0] in table.strings
      then [Requirement("Error", m.signature.text)] else []
    else []
  }

  function TypeRequirements(table: TypeTable, ref: TypeRef): seq<Requirement> {
    ErrorRequirement(table, ref) + ErrorInterface(table, ref)
  }

  function MethodRequirements(methods: seq<Method>): seq<Requirement> {
    seq(|methods|, i requires 0 <= i < |methods| => Requirement(methods[i].name, methods[i].signature.text))
  }

  function InterfaceRequirements(table: TypeTable, ref: TypeRef): seq<Requirement> {
    var methods := table.InterfaceMethods(ref);
    ErrorRequirement(table, ref) + (if methods.Some? then MethodRequirements(methods.value) else [])
  }

  function InterfaceChildren(table: TypeTable, ref: TypeRef): seq<TypeRef> {
    var methods, node := table.InterfaceMethods(ref), table.Node(table.Underlying(ref));
    (if methods.Some? then MethodRefs(methods.value) else []) + (if node.Some? then NodeRefs(node.value) else [])
  }

  lemma TypeChildrenListed(table: TypeTable, ref: TypeRef)
    ensures forall r | r in TypeChildren(table, ref) :: r in table.Refs()
  {
    var node := TypeNodeOf(table, ref);
    if node.Some? {
      NodeRefsListed(table, node.value);
    }
  }

  lemma InterfaceChildrenListed(table: TypeTable, ref: TypeRef)
    ensures forall r | r in InterfaceChildren(table, ref) :: r in table.Refs()
  {
    var methods, node, underlying :=
      table.InterfaceMethods(ref), table.Node(table.Underlying(ref)), table.Underlying(ref);
    if node.Some? {
      NodeRefsListed(table, node.value);
    }
    if table.NodeForRef(underlying).Some? {
      NodeRefsListed(table, table.NodeForRef(underlying).value);
    }
    if table.NodeForRef(ref).Some? {
      NodeRefsListed(table, table.NodeForRef(ref).value);
    }
  }

  /** `namedReceiverType`: the declared type behind a receiver, through pointers and instances. */
  function NamedReceiver(table: TypeTable, ref: TypeRef, seen: set<TypeRef>): (r: Option<TypeKey>)
    ensures r.Some? ==> r.value.Complete()
    decreases |table.Refs() - seen|, if ref in table.Refs() then 0 else 1
  {
    if !ref.Valid() || ref in seen then None
    else if ref.kind.NamedKind? && ref.named.Complete() then Some(ref.named)
    else
      match table.Node(ref)
      case None => None
      case Some(node) =>
        if node.identity.Complete() then Some(node.identity)
        else if node.kind.Pointer? then
          NodeRefsListed(table, node);
          RefsShrink(table, ref, seen);
          NamedReceiver(table, node.elem, seen + {ref})
        else if node.kind.Instance? then
          NodeRefsListed(table, node);
          RefsShrink(table, ref, seen);
          NamedReceiver(table, node.base, seen + {ref})
        else None
  }

  lemma RefsShrink(table: TypeTable, ref: TypeRef, seen: set<TypeRef>)
    requires ref !in seen
    ensures ref in table.Refs() ==> |table.Refs() - (seen + {ref})| < |table.Refs() - seen|
    ensures |table.Refs() - (seen + {ref})| <= |table.Refs() - seen|
  {
    var all := table.Refs();
    assert all - (seen + {ref}) == (all - seen) - {ref};
  }

  function Receiver(table: TypeTable, ref: TypeRef): Option<TypeKey> {
    NamedReceiver(table, ref, {})
  }

  // ----- the receiver behind a chain of pointers and instances -----

  /** The declared type a reference names by itself. */
  function NameOf(table: TypeTable, ref: TypeRef): Option<TypeKey> {
    if !ref.Valid() then None
    else if ref.kind.NamedKind? && ref.named.Complete() then Some(ref.named)
    else
      match table.Node(ref)
      case None => None
      case Some(node) => if node.identity.Complete() then Some(node.identity) else None
  }

  /** What a pointer points to and an instance instantiates. */
  function Behind(table: TypeTable, ref: TypeRef): Option<TypeRef> {
    if !ref.Valid() then None
    else
      match table.Node(ref)
      case None => None
      case Some(node) =>
        if node.kind.Pointer? then Some(node.elem) else if node.kind.Instance? then Some(node.base) else None
  }

  /** References each behind the one before, of which only the last names a declared type. */
  ghost predicate Chain(table: TypeTable, path: seq<TypeRef>, k: TypeKey) {
    && path != [] && NameOf(table, path[|path| - 1]) == Some(k)
    && (forall i | 0 <= i < |path| - 1 :: NameOf(table, path[i]) == None && Behind(table, path[i]) == Some(path[i + 1]))
  }

  /** Such a chain never comes back to a reference: it would go round for ever. */
  lemma {:induction false} ChainDistinct(table: TypeTable, path: seq<TypeRef>, k: TypeKey, i: nat, j: nat)
    requires Chain(table, path, k) && i < j < |path|
    ensures path[i] != path[j]
    decreases |path| - j
  {
    if path[i] == path[j] && j < |path| - 1 {
      ChainDistinct(table, path, k, i + 1, j + 1);
    }
  }

  lemma {:induction false} ReceiverByChain(table: TypeTable, ref: TypeRef, seen: set<TypeRef>, k: TypeKey,
      path: seq<TypeRef>)
    requires Chain(table, path, k) && path[0] == ref && forall i | 0 <= i < |path| :: path[i] !in seen
    ensures NamedReceiver(table, ref, seen) == Some(k)
    decreases |path|
  {
    if |path| > 1 {
      var rest := path[1..];
      assert Chain(table, rest, k);
      forall i | 0 <= i < |rest|
        ensures rest[i] !in seen + {ref}
      {
        ChainDistinct(table, path, k, 0, i + 1);
      }
      ReceiverByChain(table, path[1], seen + {ref}, k, rest);
    }
  }

  lemma {:induction false} ChainOfReceiver(table: TypeTable, ref: TypeRef, seen: set<TypeRef>, k: TypeKey)
    returns (path: seq<TypeRef>)
    requires NamedReceiver(table, ref, seen) == Some(k)
    ensures Chain(table, path, k) && path[0] == ref
    decreases |table.Refs() - seen|, if ref in table.Refs() then 0 else 1
  {
    path := [ref];
    if NameOf(table, ref).None? {
      ReceiverBehind(table, ref, seen, k);
      hide NamedReceiver, Behind;
      var rest := ChainOfReceiver(table, Behind(table, ref).value, seen + {ref}, k);
      ChainLonger(table, ref, rest, k);
      path := [ref] + rest;
    }
  }

  lemma ReceiverBehind(table: TypeTable, ref: TypeRef, seen: set<TypeRef>, k: TypeKey)
    requires NamedReceiver(table, ref, seen) == Some(k) && NameOf(table, ref).None?
    ensures Behind(table, ref).Some? && NamedReceiver(table, Behind(table, ref).value, seen + {ref}) == Some(k)
    ensures |table.Refs() - (seen + {ref})| <= |table.Refs() - seen| && Behind(table, ref).value in table.Refs()
    ensures ref in table.Refs() ==> |table.Refs() - (seen + {ref})| < |table.Refs() - seen|
  {
    NodeRefsListed(table, table.Node(ref).value);
    RefsShrink(table, ref, seen);
  }

  lemma ChainLonger(table: TypeTable, ref: TypeRef, rest: seq<TypeRef>, k: TypeKey)
    requires Chain(table, rest, k) && NameOf(table, ref).None? && Behind(table, ref) == Some(rest[0])
    ensures Chain(table, [ref] + rest, k)
  {
    hide NameOf, Behind;
  }

  /** A receiver is a declared type if and only if pointers and instances lead to a reference that names it. */
  lemma ReceiverIff(table: TypeTable, ref: TypeRef, k: TypeKey)
    ensures Receiver(table, ref) == Some(k) <==> exists path :: Chain(table, path, k) && path[0] == ref
  {
    if Receiver(table, ref) == Some(k) {
      var path := ChainOfReceiver(table, ref, {}, k);
    }
    if path :| Chain(table, path, k) && path[0] == ref {
      ReceiverByChain(table, ref, {}, k, path);
    }
  }
}
