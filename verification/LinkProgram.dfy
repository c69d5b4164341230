/** Linked programs, what each function body reaches, and the reachability rules as a closure. */
module LinkProgram {
  import opened Prelude
  import opened LinkTypes

  datatype FunctionRef = FunctionRef(modulePath: string, id: string)

  /**
    * Instructions that mention a type, a function, an export or a variable; the others are `Other`. `Undecodable`
    * stands for code that cannot be decoded or a linking payload of the wrong shape, `Mistyped` for any other payload
    * of the wrong shape.
    */
  datatype Instruction =
    | UseType(t: TypeRef)
    | TypeDispatch(cases: seq<TypeRef>)
    | CallDirect(modulePath: string, callee: string)
    | CallIntrinsic(result: TypeKey)
    | MakeClosure(modulePath: string, callee: string)
    | LoadExport(modulePath: string, member: string)
    | CallInterface(interfaceType: TypeRef, called: string)
    | LoadConst(constant: string)
    | LoadGlobal(global: string)
    | AddressOf(kind: string, global: string, modulePath: string, member: string)
    | Undecodable
    | Mistyped
    | Other

  /** `types` lists parameters, results, locals, upvalues and code types in that order. */
  datatype Function = Function(id: string, types: seq<TypeRef>, constants: seq<nat>, code: seq<Instruction>)

  datatype Typed = Typed(id: string, t: TypeRef)

  datatype Export = Export(name: string, kind: string, id: string, t: TypeRef)

  datatype Import = Import(kind: string, modulePath: string, exports: seq<string>)

  datatype Artifact = Artifact(
    path: string, table: TypeTable, constants: seq<Typed>, globals: seq<Typed>, functions: seq<Function>,
    exports: seq<Export>, requirements: seq<Import>)

  type Program = map<string, Artifact>

  const SOURCE := "source"
  const INIT := "fn.init"

  // ----- lookups; a later declaration replaces an earlier one -----

  function FindFunction(functions: seq<Function>, id: string): (r: Option<Function>)
    ensures r.Some? ==> r.value in functions && r.value.id == id
    ensures r.None? ==> forall f | f in functions :: f.id != id
  {
    if functions == [] then None
    else
      var last := functions[|functions| - 1];
      if last.id == id then Some(last)
      else
        assert functions == functions[..|functions| - 1] + [last];
        FindFunction(functions[..|functions| - 1], id)
  }

  function FindTyped(items: seq<Typed>, id: string): Option<TypeRef> {
    if items == [] then None
    else if items[|items| - 1].id == id then Some(items[|items| - 1].t)
    else FindTyped(items[..|items| - 1], id)
  }

  function FindExport(exports: seq<Export>, name: string): (r: Option<Export>)
    ensures r.Some? ==> r.value in exports && r.value.name == name
    ensures r.None? ==> forall e | e in exports :: e.name != name
  {
    if exports == [] then None
    else
      var last := exports[|exports| - 1];
      if last.name == name then Some(last)
      else
        assert exports == exports[..|exports| - 1] + [last];
        FindExport(exports[..|exports| - 1], name)
  }

  function Lookup(p: Program, f: FunctionRef): Option<Function> {
    if f.modulePath in p then FindFunction(p[f.modulePath].functions, f.id) else None
  }

  // ----- what a body reaches -----

  datatype Effect =
    | ReachType(modulePath: string, t: TypeRef)
    | ReachInterface(modulePath: string, t: TypeRef)
    | KeepFunction(f: FunctionRef)
    | EnableReflect

  function ReachAll(modulePath: string, refs: seq<TypeRef>): seq<Effect> {
    seq(|refs|, i requires 0 <= i < |refs| => ReachType(modulePath, refs[i]))
  }

  function ReflectCall(caller: string, modulePath: string, callee: string): seq<Effect> {
    if modulePath == "reflect" && caller != "reflect"
       && callee in {"method.Value.NumMethod", "method.Value.Method", "method.Value.MethodByName",
         "method.Value.Methods"}
    then [EnableReflect] else []
  }

  function ReflectInterface(table: TypeTable, caller: string, t: TypeRef, callee: string): seq<Effect> {
    if caller != "reflect" && Receiver(table, t) == Some(TypeKey("reflect", "Type"))
       && callee in {"NumMethod", "Method", "MethodByName", "Methods"}
    then [EnableReflect] else []
  }

  /** What one instruction of a function of `own` reaches, or nothing when the linker must refuse it. */
  function InstructionEffects(p: Program, own: string, op: Instruction): Option<seq<Effect>>
    requires own in p
  {
    var a := p[own];
    match op
    case UseType(t) => Some([ReachType(own, t)])
    case TypeDispatch(cases) => Some(ReachAll(own, cases))
    case CallDirect(path, callee) =>
      var owner := OwnerPath(path, own);
      Some([KeepFunction(FunctionRef(owner, callee))] + ReflectCall(own, owner, callee))
    case CallIntrinsic(result) =>
      if !result.Complete() then Some([])
      else if result.modulePath !in p then None
      else
        var node := p[result.modulePath].table.Named(result);
        if node.None? then None
        else Some([ReachType(result.modulePath,
          TypeRef(NamedKind, PrimitiveInvalid, node.value.identity, node.value.id))])
    case MakeClosure(path, callee) => Some([KeepFunction(FunctionRef(OwnerPath(path, own), callee))])
    case LoadExport(path, name) =>
      if path !in p then None
      else
        var found := FindExport(p[path].exports, name);
        if found.None? then None
        else
          Some([ReachType(path, found.value.t)]
               + (if found.value.kind == "function" then [KeepFunction(FunctionRef(path, found.value.id))] else []))
    case CallInterface(t, callee) =>
      Some([ReachType(own, t), ReachInterface(own, t)] + ReflectInterface(a.table, own, t, callee))
    case LoadConst(id) =>
      Some(if FindTyped(a.constants, id).Some? then [ReachType(own, FindTyped(a.constants, id).value)] else [])
    case LoadGlobal(id) =>
      Some(if FindTyped(a.globals, id).Some? then [ReachType(own, FindTyped(a.globals, id).value)] else [])
    case AddressOf(kind, global, path, name) =>
      if kind == "global" then
        Some(if FindTyped(a.globals, global).Some? then [ReachType(own, FindTyped(a.globals, global).value)] else [])
      else if kind == "export" && path in p then
        var found := FindExport(p[path].exports, name);
        if found.None? || found.value.kind != "global" then None else Some([ReachType(path, found.value.t)])
      else Some([])
    case Undecodable => None
    case Mistyped => None
    case Other => Some([])
  }

  /** The effects an instruction has when it is accepted. */
  function EffectsOf(p: Program, own: string, op: Instruction): seq<Effect>
    requires own in p
  {
    var effects := InstructionEffects(p, own, op);
    if effects.Some? then effects.value else []
  }

  /** `f` is in the program and `e` is one of the things its body reaches. */
  ghost predicate BodyReaches(p: Program, f: FunctionRef, e: Effect) {
    && Lookup(p, f).Some?
    && var body, a := Lookup(p, f).value, p[f.modulePath];
    || (e.ReachType? && e.modulePath == f.modulePath && e.t in body.types)
    || (e.ReachType? && e.modulePath == f.modulePath
        && exists c :: c in body.constants && c < |a.constants| && e.t == a.constants[c].t)
    || (exists op :: op in body.code && e in EffectsOf(p, f.modulePath, op))
  }

  /** A reference the linker must report: no such function, or a body it cannot follow. */
  ghost predicate Broken(p: Program, f: FunctionRef) {
    || Lookup(p, f).None?
    || (var body, a := Lookup(p, f).value, p[f.modulePath];
        || (exists c :: c in body.constants && |a.constants| <= c)
        || (exists op :: op in body.code && InstructionEffects(p, f.modulePath, op).None?))
  }

  // ----- declared methods -----

  datatype MethodRef = MethodRef(name: string, ref: FunctionRef, signature: string, receiver: TypeKey)

  /** The receiver key of a method; empty when the receiver has no declared type. */
  function ReceiverKey(table: TypeTable, ref: TypeRef): TypeKey {
    if Receiver(table, ref).Some? then Receiver(table, ref).value else TypeKey("", "")
  }

  function MethodEntry(own: string, table: TypeTable, d: Method): MethodRef {
    MethodRef(d.name, FunctionRef(OwnerPath(d.modulePath, own), d.functionID), d.signature.text,
              ReceiverKey(table, d.receiver))
  }

  /** Non-alias named types the artifact declares itself. */
  predicate DefinesType(a: Artifact, node: TypeNode) {
    && node in a.table.nodes && node.kind.NamedKind? && !node.alias
    && node.identity.modulePath == TrimSpace(a.path) && node.identity.declID != ""
  }

  /** Method `d` of the type is backed by a function and is listed as `m`. */
  predicate ListedAs(own: string, a: Artifact, node: TypeNode, d: Method, m: MethodRef) {
    DefinesType(a, node) && d in node.methods && d.functionID != "" && m == MethodEntry(own, a.table, d)
  }

  ghost predicate DeclaredIn(own: string, a: Artifact, m: MethodRef) {
    exists node, d :: ListedAs(own, a, node, d, m)
  }

  ghost predicate Declares(p: Program, m: MethodRef) {
    exists own :: own in p && DeclaredIn(own, p[own], m)
  }

  // ----- the rules -----

  datatype TypeUse = TypeUse(modulePath: string, t: TypeRef)

  /** Everything the linker records while it follows a program. */
  datatype Facts = Facts(
    keep: set<FunctionRef>, types: set<TypeUse>, interfaces: set<TypeUse>, receivers: set<TypeKey>,
    requirements: set<Requirement>, reflect: bool)

  ghost predicate Holds(b: Facts, e: Effect) {
    match e
    case ReachType(m, t) => t.Valid() ==> TypeUse(m, t) in b.types
    case ReachInterface(m, t) => t.Valid() ==> TypeUse(m, t) in b.interfaces
    case KeepFunction(f) => f in b.keep
    case EnableReflect => b.reflect
  }

  ghost predicate RootsKept(p: Program, entries: seq<FunctionRef>, b: Facts) {
    && (forall own | own in p && FindFunction(p[own].functions, INIT).Some? :: FunctionRef(own, INIT) in b.keep)
    && (forall i | 0 <= i < |entries| :: entries[i] in b.keep)
  }

  /** Each of these bodies has been followed. */
  ghost predicate BodiesFollowed(p: Program, b: Facts, done: set<FunctionRef>) {
    forall f, e | f in done && BodyReaches(p, f, e) :: Holds(b, e)
  }

  ghost predicate TypeFollowed(p: Program, b: Facts, u: TypeUse)
    requires u.modulePath in p
  {
    var table := p[u.modulePath].table;
    && (Receiver(table, u.t).Some? ==> Receiver(table, u.t).value in b.receivers)
    && (forall r | r in TypeRequirements(table, u.t) :: r in b.requirements)
    && (forall c | c in TypeChildren(table, u.t) :: Holds(b, ReachType(u.modulePath, c)))
  }

  ghost predicate InterfaceFollowed(p: Program, b: Facts, u: TypeUse)
    requires u.modulePath in p
  {
    var table := p[u.modulePath].table;
    && (forall r | r in InterfaceRequirements(table, u.t) :: r in b.requirements)
    && (forall c | c in InterfaceChildren(table, u.t) :: Holds(b, ReachInterface(u.modulePath, c)))
  }

  ghost predicate TypesFollowed(p: Program, b: Facts, open: set<TypeUse>) {
    forall u | u in b.types && u !in open && u.modulePath in p :: TypeFollowed(p, b, u)
  }

  ghost predicate InterfacesFollowed(p: Program, b: Facts, open: set<TypeUse>) {
    forall u | u in b.interfaces && u !in open && u.modulePath in p :: InterfaceFollowed(p, b, u)
  }

  /** A method is wanted when its receiver is reachable and it is required by name and signature, or by reflection. */
  predicate Wanted(b: Facts, m: MethodRef) {
    && m.receiver in b.receivers
    && (Requirement(m.name, m.signature) in b.requirements || (b.reflect && m.receiver.Complete()))
  }

  ghost predicate MethodsKept(p: Program, b: Facts) {
    forall m | Declares(p, m) && Wanted(b, m) :: m.ref in b.keep
  }

  /** Facts that satisfy every rule. */
  ghost predicate Closed(p: Program, entries: seq<FunctionRef>, b: Facts) {
    && RootsKept(p, entries, b) && BodiesFollowed(p, b, b.keep) && MethodsKept(p, b)
    && TypesFollowed(p, b, {}) && InterfacesFollowed(p, b, {})
  }

  ghost predicate Below(a: Facts, b: Facts) {
    && a.keep <= b.keep && a.types <= b.types && a.interfaces <= b.interfaces && a.receivers <= b.receivers
    && a.requirements <= b.requirements && (a.reflect ==> b.reflect)
  }

  /** Contained in every solution of the rules. */
  ghost predicate Necessary(p: Program, entries: seq<FunctionRef>, a: Facts) {
    forall b: Facts | Closed(p, entries, b) :: Below(a, b)
  }

  /** The least solution of the rules. */
  ghost predicate Least(p: Program, entries: seq<FunctionRef>, a: Facts) {
    Closed(p, entries, a) && Necessary(p, entries, a)
  }

  /** There is only one, so the order of discovery cannot matter. */
  lemma LeastUnique(p: Program, entries: seq<FunctionRef>, a: Facts, b: Facts)
    requires Least(p, entries, a) && Least(p, entries, b)
    ensures a == b
  {
    assert Below(a, b) && Below(b, a);
  }

  /** Functions every solution keeps. */
  ghost predicate MustKeep(p: Program, entries: seq<FunctionRef>, f: FunctionRef) {
    forall b: Facts | Closed(p, entries, b) :: f in b.keep
  }
}
