/**
  * The reachability rules of the linker in terms of the fields of types, instructions and declarations: what a used
  * type, a called interface and a kept body lead to, and why each thing that is kept has to be.
  */
module LinkRules {
  import opened Prelude
  import opened LinkTypes
  import opened LinkProgram

  // ----- types -----

  /** The node with the reference's identifier, or for a named reference without one, the node it names. */
  predicate Opens(table: TypeTable, t: TypeRef, node: TypeNode) {
    && table.Indexed() && node in table.nodes
    && (|| (t.node != "" && node.id == t.node)
        || (t.kind.NamedKind? && !t.named.Empty() && node.identity == t.named
          && (t.node == "" || forall other | other in table.nodes :: other.id != t.node)))
  }

  /** A part of the type: what it stands for, is made of, takes, returns, contains, is limited by or is applied to. */
  predicate Mentions(node: TypeNode, r: TypeRef) {
    || r == node.underlying || r == node.aliasTarget || r == node.elem || r == node.key
    || r == node.constraint || r == node.base
    || (node.signature.Some? && (r in node.signature.value.params || r in node.signature.value.results))
    || r in node.tuple || r in node.fields || r in node.terms || r in node.typeArgs
  }

  lemma MentionsIff(node: TypeNode, r: TypeRef)
    ensures r in NodeRefs(node) <==> Mentions(node, r)
  {
  }

  lemma {:induction false} IdFound(nodes: seq<TypeNode>, node: TypeNode)
    requires node in nodes && forall a, b | a in nodes && b in nodes && a.id == b.id :: a == b
    ensures NodeWithId(nodes, node.id) == Some(node)
  {
    if nodes[0].id != node.id {
      IdFound(nodes[1..], node);
    }
  }

  lemma {:induction false} IdMissing(nodes: seq<TypeNode>, id: string)
    ensures NodeWithId(nodes, id).None? <==> forall node | node in nodes :: node.id != id
  {
    if nodes != [] {
      IdMissing(nodes[1..], id);
      assert nodes == [nodes[0]] + nodes[1..];
    }
  }

  lemma {:induction false} IdentityFound(nodes: seq<TypeNode>, node: TypeNode)
    requires node in nodes
    requires forall a, b | a in nodes && b in nodes && a.identity == b.identity == node.identity :: a == b
    ensures NodeWithIdentity(nodes, node.identity) == Some(node)
  {
    if nodes[0].identity != node.identity {
      IdentityFound(nodes[1..], node);
    }
  }

  lemma IndexedUnique(table: TypeTable, a: TypeNode, b: TypeNode)
    requires table.Indexed() && a in table.nodes && b in table.nodes
    ensures a.id == b.id ==> a == b
    ensures a.identity == b.identity && !a.identity.Empty() ==> a == b
  {
  }

  /** A type visit opens this node and no other. */
  lemma OpensIff(table: TypeTable, t: TypeRef, node: TypeNode)
    ensures TypeNodeOf(table, t) == Some(node) <==> Opens(table, t, node)
  {
    if table.Indexed() {
      forall a, b | a in table.nodes && b in table.nodes
        ensures a.id == b.id ==> a == b
        ensures a.identity == b.identity && !a.identity.Empty() ==> a == b
      {
        IndexedUnique(table, a, b);
      }
      IdMissing(table.nodes, t.node);
      if Opens(table, t, node) {
        if node.id == t.node {
          IdFound(table.nodes, node);
        } else {
          IdentityFound(table.nodes, node);
        }
      }
    }
  }

  /** Pointers and instances lead from the reference to the declared type. */
  ghost predicate NamesType(table: TypeTable, t: TypeRef, k: TypeKey) {
    exists path :: Chain(table, path, k) && path[0] == t
  }

  // ----- instructions -----

  const REFLECT_VALUE: set<string> :=
    {"method.Value.NumMethod", "method.Value.Method", "method.Value.MethodByName", "method.Value.Methods"}
  const REFLECT_TYPE: set<string> := {"NumMethod", "Method", "MethodByName", "Methods"}

  /** The module a path names: without its surrounding space, and the function's own when nothing is left. */
  predicate NamesModule(path: string, own: string, owner: string) {
    owner == TrimSpace(path) != "" || (TrimSpace(path) == "" && owner == own)
  }

  /** Position `i` is the last declaration of that name. */
  predicate LastTypedAt(items: seq<Typed>, id: string, t: TypeRef, i: nat) {
    i < |items| && items[i] == Typed(id, t) && forall j | i < j < |items| :: items[j].id != id
  }

  ghost predicate LastTyped(items: seq<Typed>, id: string, t: TypeRef) {
    exists i: nat :: LastTypedAt(items, id, t, i)
  }

  predicate LastExportAt(exports: seq<Export>, name: string, e: Export, i: nat) {
    i < |exports| && exports[i] == e && e.name == name && forall j | i < j < |exports| :: exports[j].name != name
  }

  ghost predicate LastExport(exports: seq<Export>, name: string, e: Export) {
    exists i: nat :: LastExportAt(exports, name, e, i)
  }

  /** A last item of another name does not matter. */
  lemma TypedShorter(items: seq<Typed>, id: string, t: TypeRef, i: nat)
    requires items != [] && items[|items| - 1].id != id
    ensures LastTypedAt(items[..|items| - 1], id, t, i) <==> LastTypedAt(items, id, t, i)
  {
    var n := |items| - 1;
    assert forall j | 0 <= j < n :: items[..n][j] == items[j];
  }

  lemma ExportShorter(exports: seq<Export>, name: string, e: Export, i: nat)
    requires exports != [] && exports[|exports| - 1].name != name
    ensures LastExportAt(exports[..|exports| - 1], name, e, i) <==> LastExportAt(exports, name, e, i)
  {
    var n := |exports| - 1;
    assert forall j | 0 <= j < n :: exports[..n][j] == exports[j];
  }

  lemma {:induction false} TypedFound(items: seq<Typed>, id: string, t: TypeRef)
    ensures FindTyped(items, id) == Some(t) <==> LastTyped(items, id, t)
  {
    if items != [] {
      var n := |items| - 1;
      if items[n].id == id {
        assert items[n].t == t ==> LastTypedAt(items, id, t, n);
        assert forall i: nat | LastTypedAt(items, id, t, i) :: i == n;
      } else {
        TypedFound(items[..n], id, t);
        hide LastTypedAt;
        forall i: nat
          ensures LastTypedAt(items[..n], id, t, i) <==> LastTypedAt(items, id, t, i)
        {
          TypedShorter(items, id, t, i);
        }
      }
    }
  }

  lemma {:induction false} ExportFound(exports: seq<Export>, name: string, e: Export)
    ensures FindExport(exports, name) == Some(e) <==> LastExport(exports, name, e)
  {
    if exports != [] {
      var n := |exports| - 1;
      if exports[n].name == name {
        assert exports[n] == e ==> LastExportAt(exports, name, e, n);
        assert forall i: nat | LastExportAt(exports, name, e, i) :: i == n;
      } else {
        ExportFound(exports[..n], name, e);
        hide LastExportAt;
        forall i: nat
          ensures LastExportAt(exports[..n], name, e, i) <==> LastExportAt(exports, name, e, i)
        {
          ExportShorter(exports, name, e, i);
        }
      }
    }
  }

  function NamedRef(node: TypeNode): TypeRef {
    TypeRef(NamedKind, PrimitiveInvalid, node.identity, node.id)
  }

  /** The type declared under this key, as a reference to it. */
  ghost predicate Declared(table: TypeTable, key: TypeKey, t: TypeRef) {
    && table.Indexed() && !key.Empty()
    && exists node :: node in table.nodes && node.identity == key && t == NamedRef(node)
  }

  lemma DeclaredIff(table: TypeTable, key: TypeKey, t: TypeRef)
    ensures Declared(table, key, t) <==>
      table.Named(key).Some? && t == NamedRef(table.Named(key).value)
  {
    if Declared(table, key, t) {
      var node :| node in table.nodes && node.identity == key && t == NamedRef(node);
      forall a, b | a in table.nodes && b in table.nodes && a.identity == b.identity == key
        ensures a == b
      {
        IndexedUnique(table, a, b);
      }
      IdentityFound(table.nodes, node);
    }
  }

  /** The instruction makes this type of this module used. */
  ghost predicate UsesType(p: Program, own: string, op: Instruction, m: string, t: TypeRef)
    requires own in p
  {
    match op
    case UseType(u) => m == own && t == u
    case TypeDispatch(cases) => m == own && t in cases
    case CallIntrinsic(result) =>
      result.Complete() && m == result.modulePath && m in p && Declared(p[m].table, result, t)
    case LoadExport(path, name) => m == path && m in p && exists e :: LastExport(p[m].exports, name, e) && t == e.t
    case CallInterface(u, _) => m == own && t == u
    case LoadConst(id) => m == own && LastTyped(p[own].constants, id, t)
    case LoadGlobal(id) => m == own && LastTyped(p[own].globals, id, t)
    case AddressOf(kind, global, path, name) =>
      || (kind == "global" && m == own && LastTyped(p[own].globals, global, t))
      || (kind == "export" && m == path && m in p
        && exists e :: LastExport(p[m].exports, name, e) && e.kind == "global" && t == e.t)
    case _ => false
  }

  /** The instruction makes this function kept. */
  ghost predicate CallsFunction(p: Program, own: string, op: Instruction, f: FunctionRef) {
    match op
    case CallDirect(path, callee) => NamesModule(path, own, f.modulePath) && f.id == callee
    case MakeClosure(path, callee) => NamesModule(path, own, f.modulePath) && f.id == callee
    case LoadExport(path, name) =>
      && f.modulePath == path && path in p
      && exists e :: LastExport(p[path].exports, name, e) && e.kind == "function" && f.id == e.id
    case _ => false
  }

  /** The instruction asks, from outside the reflect module, for the methods of a value or a type. */
  ghost predicate AsksForMethods(p: Program, own: string, op: Instruction)
    requires own in p
  {
    && own != "reflect"
    && match op
       case CallDirect(path, callee) => NamesModule(path, own, "reflect") && callee in REFLECT_VALUE
       case CallInterface(t, callee) =>
         callee in REFLECT_TYPE && NamesType(p[own].table, t, TypeKey("reflect", "Type"))
       case _ => false
  }

  ghost predicate Reaches(p: Program, own: string, op: Instruction, e: Effect)
    requires own in p
  {
    match e
    case ReachType(m, t) => UsesType(p, own, op, m, t)
    case ReachInterface(m, t) => m == own && op.CallInterface? && op.interfaceType == t
    case KeepFunction(f) => CallsFunction(p, own, op, f)
    case EnableReflect => AsksForMethods(p, own, op)
  }

  /** The linker can follow the instruction: it can be decoded, and what it loads or returns is there. */
  ghost predicate Followable(p: Program, own: string, op: Instruction)
    requires own in p
  {
    match op
    case CallIntrinsic(result) =>
      result.Complete() ==> result.modulePath in p && exists t :: Declared(p[result.modulePath].table, result, t)
    case LoadExport(path, name) => path in p && exists e :: LastExport(p[path].exports, name, e)
    case AddressOf(kind, _, path, name) =>
      kind == "export" && path in p ==> exists e :: LastExport(p[path].exports, name, e) && e.kind == "global"
    case Undecodable => false
    case Mistyped => false
    case _ => true
  }

  lemma TypesIff(p: Program, own: string, op: Instruction, m: string, t: TypeRef)
    requires own in p
    ensures ReachType(m, t) in EffectsOf(p, own, op) <==> UsesType(p, own, op, m, t)
  {
    hide FindExport, FindTyped, LastExport, LastTyped, Declared, NamedReceiver, TrimSpace;
    match op
    case TypeDispatch(cases) =>
      if i :| 0 <= i < |cases| && cases[i] == t {
        assert ReachAll(own, cases)[i] == ReachType(own, t);
      }
    case CallIntrinsic(result) =>
      if result.modulePath in p {
        DeclaredIff(p[result.modulePath].table, result, t);
      }
    case LoadExport(path, name) =>
      if path in p {
        forall e { ExportFound(p[path].exports, name, e); }
      }
    case LoadConst(id) => TypedFound(p[own].constants, id, t);
    case LoadGlobal(id) => TypedFound(p[own].globals, id, t);
    case AddressOf(kind, global, path, name) =>
      TypedFound(p[own].globals, global, t);
      if path in p {
        forall e { ExportFound(p[path].exports, name, e); }
      }
    case _ =>
  }

  lemma CallsIff(p: Program, own: string, op: Instruction, f: FunctionRef)
    requires own in p
    ensures KeepFunction(f) in EffectsOf(p, own, op) <==> CallsFunction(p, own, op, f)
  {
    hide FindExport, FindTyped, LastExport, LastTyped, NamedReceiver, TrimSpace;
    if op.LoadExport? && op.modulePath in p {
      forall e { ExportFound(p[op.modulePath].exports, op.member, e); }
    }
  }

  lemma ReflectIff(p: Program, own: string, op: Instruction)
    requires own in p
    ensures EnableReflect in EffectsOf(p, own, op) <==> AsksForMethods(p, own, op)
  {
    hide FindExport, FindTyped, NamedReceiver, TrimSpace, Chain;
    if op.CallInterface? {
      ReceiverIff(p[own].table, op.interfaceType, TypeKey("reflect", "Type"));
    }
  }

  lemma InterfacesIff(p: Program, own: string, op: Instruction, m: string, t: TypeRef)
    requires own in p
    ensures ReachInterface(m, t) in EffectsOf(p, own, op) <==> m == own && op.CallInterface? && op.interfaceType == t
  {
    hide FindExport, FindTyped, NamedReceiver, TrimSpace;
  }

  /** What one instruction reaches, exactly. */
  lemma EffectsIff(p: Program, own: string, op: Instruction, e: Effect)
    requires own in p
    ensures e in EffectsOf(p, own, op) <==> Reaches(p, own, op, e)
  {
    match e
    case ReachType(m, t) => TypesIff(p, own, op, m, t);
    case ReachInterface(m, t) => InterfacesIff(p, own, op, m, t);
    case KeepFunction(f) => CallsIff(p, own, op, f);
    case EnableReflect => ReflectIff(p, own, op);
    hide EffectsOf, UsesType, CallsFunction, AsksForMethods;
  }

  /** The linker refuses exactly the instructions it cannot follow. */
  lemma FollowableIff(p: Program, own: string, op: Instruction)
    requires own in p
    ensures InstructionEffects(p, own, op).Some? <==> Followable(p, own, op)
  {
    hide FindExport, FindTyped, LastExport, LastTyped, Declared, NamedReceiver, TrimSpace;
    match op
    case CallIntrinsic(result) =>
      if result.modulePath in p {
        forall t { DeclaredIff(p[result.modulePath].table, result, t); }
        var node := p[result.modulePath].table.Named(result);
        if node.Some? {
          assert Declared(p[result.modulePath].table, result, NamedRef(node.value));
        }
      }
    case LoadExport(path, name) =>
      if path in p {
        forall e { ExportFound(p[path].exports, name, e); }
      }
    case AddressOf(kind, global, path, name) =>
      if path in p {
        forall e { ExportFound(p[path].exports, name, e); }
      }
    case _ =>
  }

  // ----- interfaces -----

  /** The node a reference stands for when its underlying type is looked up. */
  predicate StandsFor(table: TypeTable, t: TypeRef, node: TypeNode) {
    && table.Indexed() && node in table.nodes
    && if t.kind.NamedKind? && t.node == "" then !t.named.Empty() && node.identity == t.named
       else t.node != "" && node.id == t.node
  }

  lemma StandsForIff(table: TypeTable, t: TypeRef, node: TypeNode)
    ensures table.NodeForRef(t) == Some(node) <==> StandsFor(table, t, node)
  {
    if StandsFor(table, t, node) {
      forall a, b | a in table.nodes && b in table.nodes
        ensures a.id == b.id ==> a == b
        ensures a.identity == b.identity && !a.identity.Empty() ==> a == b
      {
        IndexedUnique(table, a, b);
      }
      if t.kind.NamedKind? && t.node == "" {
        IdentityFound(table.nodes, node);
      } else {
        IdFound(table.nodes, node);
      }
    }
  }

  /** An alias leads to its target, any other type to what it is declared as. */
  function Target(node: TypeNode): TypeRef {
    if node.alias then node.aliasTarget else node.underlying
  }

  predicate LeadsTo(table: TypeTable, a: TypeRef, b: TypeRef) {
    && a.kind.NamedKind? && b.Valid()
    && exists node :: node in table.nodes && StandsFor(table, a, node) && b == Target(node)
  }

  ghost predicate Bottom(table: TypeTable, a: TypeRef) {
    forall b :: !LeadsTo(table, a, b)
  }

  /** From a type to its underlying type: each leads to the next, and the last to none. */
  ghost predicate Descent(table: TypeTable, path: seq<TypeRef>) {
    && path != [] && (forall i | 0 <= i < |path| - 1 :: LeadsTo(table, path[i], path[i + 1]))
    && Bottom(table, path[|path| - 1])
  }

  function StepDown(table: TypeTable, a: TypeRef): Option<TypeRef> {
    if !a.kind.NamedKind? then None
    else match table.NodeForRef(a)
         case None => None
         case Some(node) =>
           if Target(node).Valid() then Some(Target(node)) else None
  }

  lemma StepDownIff(table: TypeTable, a: TypeRef, b: TypeRef)
    ensures StepDown(table, a) == Some(b) <==> LeadsTo(table, a, b)
  {
    if table.NodeForRef(a).Some? {
      StandsForIff(table, a, table.NodeForRef(a).value);
    }
    if LeadsTo(table, a, b) {
      var node :| node in table.nodes && StandsFor(table, a, node) && b == Target(node);
      StandsForIff(table, a, node);
    }
  }

  lemma WithinSteps(table: TypeTable, ref: TypeRef, steps: nat)
    ensures table.UnderlyingWithin(ref, steps) ==
      if steps == 0 || StepDown(table, ref).None? then ref
      else table.UnderlyingWithin(StepDown(table, ref).value, steps - 1)
  {
  }

  lemma BottomIff(table: TypeTable, a: TypeRef)
    ensures Bottom(table, a) <==> StepDown(table, a).None?
  {
    if StepDown(table, a).Some? {
      StepDownIff(table, a, StepDown(table, a).value);
    } else {
      forall b
        ensures !LeadsTo(table, a, b)
      {
        StepDownIff(table, a, b);
      }
    }
  }

  /** A descent does not come back to a node: it would go round for ever. */
  lemma {:induction false} DescentDistinct(table: TypeTable, path: seq<TypeRef>, i: nat, j: nat)
    requires Descent(table, path) && i < j < |path| - 1
    ensures table.NodeForRef(path[i]) != table.NodeForRef(path[j])
    decreases |path| - j
  {
    StepDownIff(table, path[i], path[i + 1]);
    StepDownIff(table, path[j], path[j + 1]);
    BottomIff(table, path[|path| - 1]);
    if table.NodeForRef(path[i]) == table.NodeForRef(path[j]) {
      assert path[i + 1] == path[j + 1];
      if j + 1 < |path| - 1 {
        DescentDistinct(table, path, i + 1, j + 1);
      } else {
        StepDownIff(table, path[i + 1], path[i + 2]);
      }
    }
  }

  lemma {:induction false} DistinctCount(nodes: seq<TypeNode>)
    requires Distinct(nodes)
    ensures |set node | node in nodes| == |nodes|
  {
    if nodes != [] {
      var n := |nodes| - 1;
      DistinctCount(nodes[..n]);
      assert (set node | node in nodes) == (set node | node in nodes[..n]) + {nodes[n]};
    }
  }

  lemma {:induction false} NodesCount(nodes: seq<TypeNode>, some: set<TypeNode>)
    requires forall node | node in some :: node in nodes
    ensures |some| <= |nodes|
  {
    if nodes == [] {
      assert some == {};
    } else {
      NodesCount(nodes[1..], some - {nodes[0]});
    }
  }

  lemma DescentShort(table: TypeTable, path: seq<TypeRef>)
    requires Descent(table, path)
    ensures |path| - 1 <= |table.nodes|
  {
    var n := |path| - 1;
    forall i | 0 <= i < n
      ensures table.NodeForRef(path[i]).Some? && table.NodeForRef(path[i]).value in table.nodes
    {
      StepDownIff(table, path[i], path[i + 1]);
    }
    var met := seq(n, i requires 0 <= i < n => table.NodeForRef(path[i]).value);
    forall i, j | 0 <= i < j < n
      ensures met[i] != met[j]
    {
      DescentDistinct(table, path, i, j);
    }
    DistinctCount(met);
    NodesCount(table.nodes, set node | node in met);
  }

  lemma {:induction false} WithinDescent(table: TypeTable, path: seq<TypeRef>, steps: nat)
    requires Descent(table, path) && |path| - 1 <= steps
    ensures table.UnderlyingWithin(path[0], steps) == path[|path| - 1]
    decreases |path|
  {
    WithinSteps(table, path[0], steps);
    if |path| == 1 {
      BottomIff(table, path[0]);
    } else {
      StepDownIff(table, path[0], path[1]);
      var rest := path[1..];
      assert forall i | 0 <= i < |rest| :: rest[i] == path[i + 1];
      assert Descent(table, rest) by { hide LeadsTo, Bottom; }
      WithinDescent(table, rest, steps - 1);
    }
  }

  /** The underlying type is where the descent ends. */
  lemma UnderlyingIs(table: TypeTable, path: seq<TypeRef>)
    requires Descent(table, path)
    ensures table.Underlying(path[0]) == path[|path| - 1]
  {
    DescentShort(table, path);
    WithinDescent(table, path, |table.nodes| + 1);
  }

  lemma {:induction false} DescentOf(table: TypeTable, ref: TypeRef, steps: nat) returns (path: seq<TypeRef>)
    requires !table.UnderlyingWithin(ref, steps).kind.NamedKind?
    ensures Descent(table, path) && path[0] == ref && path[|path| - 1] == table.UnderlyingWithin(ref, steps)
    decreases steps
  {
    WithinSteps(table, ref, steps);
    path := [ref];
    if StepDown(table, ref).None? {
      BottomIff(table, ref);
    } else {
      var next := StepDown(table, ref).value;
      StepDownIff(table, ref, next);
      var rest := DescentOf(table, next, steps - 1);
      path := [ref] + rest;
      DescentLonger(table, ref, rest);
    }
  }

  lemma DescentLonger(table: TypeTable, ref: TypeRef, rest: seq<TypeRef>)
    requires Descent(table, rest) && LeadsTo(table, ref, rest[0])
    ensures Descent(table, [ref] + rest)
  {
    hide LeadsTo, Bottom;
  }

  /** The type is an interface with these methods: those of its own node if it lists any, else of its underlying one. */
  ghost predicate InterfaceWith(table: TypeTable, t: TypeRef, methods: seq<Method>) {
    exists path ::
      && Descent(table, path) && path[0] == t
      && InterfaceAt(table, t, path[|path| - 1], methods)
  }

  ghost predicate InterfaceAt(table: TypeTable, t: TypeRef, underlying: TypeRef, methods: seq<Method>) {
    if t.kind.NamedKind? && underlying.kind.Any? then methods == []
    else
      && underlying.kind.Interface?
      && exists shape :: StandsFor(table, underlying, shape) && MethodsOf(table, t, shape, methods)
  }

  ghost predicate MethodsOf(table: TypeTable, t: TypeRef, shape: TypeNode, methods: seq<Method>) {
    if t.kind.NamedKind? && exists node :: StandsFor(table, t, node) && node.methods != []
    then exists node :: StandsFor(table, t, node) && methods == node.methods
    else methods == shape.methods
  }

  lemma MethodsOfIff(table: TypeTable, t: TypeRef, shape: TypeNode, methods: seq<Method>)
    ensures MethodsOf(table, t, shape, methods) <==>
      methods == (if t.kind.NamedKind? && table.NodeForRef(t).Some? && table.NodeForRef(t).value.methods != []
        then table.NodeForRef(t).value.methods else shape.methods)
  {
    forall node
      ensures StandsFor(table, t, node) <==> table.NodeForRef(t) == Some(node)
    {
      StandsForIff(table, t, node);
    }
  }

  lemma InterfaceIff(table: TypeTable, t: TypeRef, methods: seq<Method>)
    ensures table.InterfaceMethods(t) == Some(methods) <==> InterfaceWith(table, t, methods)
  {
    var u := table.Underlying(t);
    hide StandsFor, LeadsTo, Bottom, MethodsOf;
    forall shape
      ensures StandsFor(table, u, shape) <==> table.NodeForRef(u) == Some(shape)
      ensures MethodsOf(table, t, shape, methods) <==>
        methods == (if t.kind.NamedKind? && table.NodeForRef(t).Some? && table.NodeForRef(t).value.methods != []
          then table.NodeForRef(t).value.methods else shape.methods)
    {
      StandsForIff(table, u, shape);
      MethodsOfIff(table, t, shape, methods);
    }
    assert InterfaceAt(table, t, u, methods) <==> table.InterfaceMethods(t) == Some(methods);
    if table.InterfaceMethods(t) == Some(methods) {
      var path := DescentOf(table, t, |table.nodes| + 1);
    }
    if path :| Descent(table, path) && path[0] == t && InterfaceAt(table, t, path[|path| - 1], methods) {
      UnderlyingIs(table, path);
    }
  }
}
