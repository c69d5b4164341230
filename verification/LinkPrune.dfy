/** The rewrite after the search, and the check that the result still links. */
module LinkPrune {
  import opened Prelude
  import opened LinkTypes
  import opened LinkProgram
  import opened LinkReach
  import opened LinkByFields
  import opened LinkWorklist

  // ----- what the rewrite leaves -----

  function KeptFunctions(own: string, functions: seq<Function>, keep: set<FunctionRef>): seq<Function> {
    if functions == [] then []
    else
      var n := |functions| - 1;
      KeptFunctions(own, functions[..n], keep) +
        (if FunctionRef(own, functions[n].id) in keep then [functions[n]] else [])
  }

  predicate ExportStays(own: string, e: Export, keep: set<FunctionRef>) {
    e.kind == "function" ==> FunctionRef(own, e.id) in keep
  }

  function KeptExports(own: string, exports: seq<Export>, keep: set<FunctionRef>): seq<Export> {
    if exports == [] then []
    else
      var n := |exports| - 1;
      KeptExports(own, exports[..n], keep) + (if ExportStays(own, exports[n], keep) then [exports[n]] else [])
  }

  /** A method whose function is gone stays in the type without it. */
  function RewrittenMethod(own: string, d: Method, keep: set<FunctionRef>): Method {
    if d.functionID == "" || FunctionRef(OwnerPath(d.modulePath, own), d.functionID) in keep then d
      else d.(functionID := "")
  }

  function RewrittenMethods(own: string, methods: seq<Method>, keep: set<FunctionRef>): seq<Method> {
    seq(|methods|, i requires 0 <= i < |methods| => RewrittenMethod(own, methods[i], keep))
  }

  function RewrittenNode(own: string, node: TypeNode, keep: set<FunctionRef>): TypeNode {
    if node.kind.NamedKind? then node.(methods := RewrittenMethods(own, node.methods, keep)) else node
  }

  function RewrittenNodes(own: string, nodes: seq<TypeNode>, keep: set<FunctionRef>): seq<TypeNode> {
    seq(|nodes|, i requires 0 <= i < |nodes| => RewrittenNode(own, nodes[i], keep))
  }

  function RewrittenTable(own: string, table: TypeTable, keep: set<FunctionRef>): TypeTable {
    table.(nodes := RewrittenNodes(own, table.nodes, keep))
  }

  /** Whether an imported name survives: only the first function export of that name decides. */
  predicate NameStays(from: string, exports: seq<Export>, name: string, keep: set<FunctionRef>) {
    if exports == [] then true
    else if exports[0].name == name && exports[0].kind == "function" then FunctionRef(from, exports[0].id) in keep
    else NameStays(from, exports[1..], name, keep)
  }

  function KeptNames(from: string, exports: seq<Export>, names: seq<string>, keep: set<FunctionRef>): seq<string> {
    if names == [] then []
    else
      var n := |names| - 1;
      KeptNames(from, exports, names[..n], keep) + (if NameStays(from, exports, names[n], keep) then [names[n]] else [])
  }

  function RewrittenImport(p: Program, r: Import, keep: set<FunctionRef>): Import {
    if r.kind == SOURCE && r.modulePath in p then r.(exports :=
      KeptNames(r.modulePath, p[r.modulePath].exports, r.exports, keep))
    else r
  }

  function RewrittenImports(p: Program, rs: seq<Import>, keep: set<FunctionRef>): seq<Import> {
    seq(|rs|, i requires 0 <= i < |rs| => RewrittenImport(p, rs[i], keep))
  }

  function RewrittenArtifact(p: Program, own: string, keep: set<FunctionRef>): Artifact
    requires own in p
  {
    var a := p[own];
    a.(functions := KeptFunctions(own, a.functions, keep), exports := KeptExports(own, a.exports, keep),
       table := RewrittenTable(own, a.table, keep), requirements := RewrittenImports(p, a.requirements, keep))
  }

  function Pruned(p: Program, keep: set<FunctionRef>): Program {
    map own | own in p :: RewrittenArtifact(p, own, keep)
  }

  // ----- linking -----

  /** The literal target of a call or closure: an empty path means the module itself. */
  function LiteralPath(path: string, own: string): string {
    if path == "" then own else path
  }

  predicate TargetPresent(p: Program, own: string, path: string, callee: string) {
    callee != "" ==> Lookup(p, FunctionRef(LiteralPath(path, own), callee)).Some?
  }

  predicate InstructionLinks(p: Program, own: string, op: Instruction) {
    match op
    case CallDirect(path, callee) => TargetPresent(p, own, path, callee)
    case MakeClosure(path, callee) => TargetPresent(p, own, path, callee)
    case LoadExport(path, name) => path in p && FindExport(p[path].exports, name).Some?
    case AddressOf(_, _, path, name) =>
      path != "" ==>
        path in p && FindExport(p[path].exports, name).Some? && FindExport(p[path].exports, name).value.kind == "global"
    case Undecodable => false
    case _ => true
  }

  predicate ImportLinks(p: Program, r: Import) {
    r.kind == SOURCE ==>
      && r.modulePath in p
      && forall i | 0 <= i < |r.exports| ::
           || FindExport(p[r.modulePath].exports, r.exports[i]).Some?
           || p[r.modulePath].table.Named(TypeKey(r.modulePath, r.exports[i])).Some?
  }

  predicate ModuleLinks(p: Program, own: string)
    requires own in p
  {
    && (forall i | 0 <= i < |p[own].requirements| :: ImportLinks(p, p[own].requirements[i]))
    && (forall i, j | 0 <= i < |p[own].functions| && 0 <= j < |p[own].functions[i].code| ::
          InstructionLinks(p, own, p[own].functions[i].code[j]))
  }

  /** What `validateLinkedReferences` accepts. */
  ghost predicate Links(p: Program) {
    forall own | own in p :: ModuleLinks(p, own)
  }

  // ----- lists after filtering -----

  lemma {:induction false} KeptFunctionsMembers(own: string, functions: seq<Function>, keep: set<FunctionRef>)
    ensures forall f :: f in KeptFunctions(own, functions, keep) <==> f in functions && FunctionRef(own, f.id) in keep
  {
    if functions != [] {
      var n := |functions| - 1;
      KeptFunctionsMembers(own, functions[..n], keep);
      assert functions == functions[..n] + [functions[n]];
    }
  }

  lemma {:induction false} KeptExportsFind(own: string, exports: seq<Export>, keep: set<FunctionRef>, name: string)
    requires FindExport(exports, name).Some? && ExportStays(own, FindExport(exports, name).value, keep)
    ensures FindExport(KeptExports(own, exports, keep), name) == FindExport(exports, name)
  {
    var n := |exports| - 1;
    var kept := KeptExports(own, exports[..n], keep);
    FindExportAppend(kept, exports[n], name);
    assert KeptExports(own, exports, keep) == if ExportStays(own, exports[n], keep) then kept + [exports[n]] else kept;
    hide ExportStays, KeptExports;
    if exports[n].name != name {
      KeptExportsFind(own, exports[..n], keep, name);
    }
  }

  lemma FindExportAppend(exports: seq<Export>, e: Export, name: string)
    ensures FindExport(exports + [e], name) == if e.name == name then Some(e) else FindExport(exports, name)
  {
    assert (exports + [e])[..|exports|] == exports;
  }

  lemma {:induction false} KeptExportsMembers(own: string, exports: seq<Export>, keep: set<FunctionRef>)
    ensures forall e :: e in KeptExports(own, exports, keep) <==> e in exports && ExportStays(own, e, keep)
  {
    if exports != [] {
      var n := |exports| - 1;
      KeptExportsMembers(own, exports[..n], keep);
      assert exports == exports[..n] + [exports[n]];
    }
  }

  lemma {:induction false} KeptNamesMembers(from: string, exports: seq<Export>, names: seq<string>,
      keep: set<FunctionRef>)
    ensures forall name :: name in KeptNames(from, exports, names, keep) <==>
      name in names && NameStays(from, exports, name, keep)
  {
    if names != [] {
      var n := |names| - 1;
      KeptNamesMembers(from, exports, names[..n], keep);
      assert names == names[..n] + [names[n]];
    }
  }

  /** A surviving imported name still has an export, if it had one. */
  lemma {:induction false} NameStaysExport(from: string, exports: seq<Export>, name: string, keep: set<FunctionRef>)
    requires NameStays(from, exports, name, keep) && exists e :: e in exports && e.name == name
    ensures exists e :: e in exports && e.name == name && ExportStays(from, e, keep)
  {
    if exports[0].name == name {
      if exports[0].kind == "function" {
        assert exports[0] in exports;
      } else {
        assert exports[0] in exports && ExportStays(from, exports[0], keep);
      }
    } else {
      var e :| e in exports && e.name == name;
      assert e in exports[1..];
      NameStaysExport(from, exports[1..], name, keep);
      var kept :| kept in exports[1..] && kept.name == name && ExportStays(from, kept, keep);
      assert kept in exports;
    }
  }

  lemma {:induction false} NamedStays(own: string, table: TypeTable, key: TypeKey, keep: set<FunctionRef>)
    requires table.Named(key).Some?
    ensures RewrittenTable(own, table, keep).Named(key).Some?
  {
    var after := RewrittenTable(own, table, keep);
    assert after.Indexed();
    IdentityStays(own, table.nodes, key, keep);
  }

  lemma {:induction false} IdentityStays(own: string, nodes: seq<TypeNode>, key: TypeKey, keep: set<FunctionRef>)
    requires NodeWithIdentity(nodes, key).Some?
    ensures NodeWithIdentity(RewrittenNodes(own, nodes, keep), key).Some?
  {
    if nodes[0].identity != key {
      IdentityStays(own, nodes[1..], key, keep);
      assert RewrittenNodes(own, nodes, keep)[1..] == RewrittenNodes(own, nodes[1..], keep);
    }
  }

  // ----- linking after the rewrite -----

  /** Function identifiers are unique in each artifact, as its validation demands. */
  ghost predicate UniqueIds(p: Program) {
    forall own, i, j | own in p && 0 <= i < j < |p[own].functions| :: p[own].functions[i].id != p[own].functions[j].id
  }

  lemma {:induction false} FindUnique(functions: seq<Function>, k: nat)
    requires k < |functions| && forall i, j | 0 <= i < j < |functions| :: functions[i].id != functions[j].id
    ensures FindFunction(functions, functions[k].id) == Some(functions[k])
  {
    if k < |functions| - 1 {
      FindUnique(functions[..|functions| - 1], k);
    }
  }

  lemma PrunedLookup(p: Program, keep: set<FunctionRef>, r: FunctionRef)
    ensures Lookup(Pruned(p, keep), r).Some? <==> Lookup(p, r).Some? && r in keep
  {
    if r.modulePath in p {
      var before, after := p[r.modulePath].functions, Pruned(p, keep)[r.modulePath].functions;
      KeptFunctionsMembers(r.modulePath, before, keep);
      if Lookup(p, r).Some? && r in keep {
        assert Lookup(p, r).value in after;
      }
      if FindFunction(after, r.id).Some? {
        assert FindFunction(after, r.id).value in before;
      }
    }
  }

  /** A call or closure whose module path carries white space around it. */
  predicate PaddedSite(op: Instruction) {
    (op.CallDirect? || op.MakeClosure?) && op.callee != "" && TrimSpace(op.modulePath) != op.modulePath
  }

  /** Whenever a kept body names a function through a padded path, the function of that very path is kept too. */
  ghost predicate PaddedTargetsKept(p: Program, keep: set<FunctionRef>) {
    forall f, op | f in keep && Lookup(p, f).Some? && op in Lookup(p, f).value.code && PaddedSite(op) ::
      FunctionRef(op.modulePath, op.callee) in keep
  }

  /** One kept instruction: it linked before, its effects hold, so it links after. */
  lemma KeptInstructionLinks(p: Program, b: Facts, f: FunctionRef, op: Instruction)
    requires Lookup(p, f).Some? && f in b.keep && op in Lookup(p, f).value.code && InstructionLinks(p, f.modulePath, op)
    requires forall e | BodyReaches(p, f, e) :: Holds(b, e)
    requires PaddedSite(op) ==> FunctionRef(op.modulePath, op.callee) in b.keep
    ensures InstructionLinks(Pruned(p, b.keep), f.modulePath, op)
  {
    var own := f.modulePath;
    if (op.CallDirect? || op.MakeClosure?) && op.callee != "" {
      var target := FunctionRef(LiteralPath(op.modulePath, own), op.callee);
      if !PaddedSite(op) {
        assert KeepFunction(target) in EffectsOf(p, own, op);
        assert BodyReaches(p, f, KeepFunction(target)) && Holds(b, KeepFunction(target));
      }
      PrunedLookup(p, b.keep, target);
    } else if op.LoadExport? {
      KeptExportLinks(p, b, f, op);
    } else if op.AddressOf? && op.modulePath != "" {
      KeptExportsFind(op.modulePath, p[op.modulePath].exports, b.keep, op.member);
    }
  }

  lemma KeptExportLinks(p: Program, b: Facts, f: FunctionRef, op: Instruction)
    requires Lookup(p, f).Some? && op in Lookup(p, f).value.code && op.LoadExport?
    requires InstructionLinks(p, f.modulePath, op)
    requires forall e | BodyReaches(p, f, e) :: Holds(b, e)
    ensures InstructionLinks(Pruned(p, b.keep), f.modulePath, op)
  {
    var found := FindExport(p[op.modulePath].exports, op.member).value;
    if found.kind == "function" {
      var e := KeepFunction(FunctionRef(op.modulePath, found.id));
      assert e in EffectsOf(p, f.modulePath, op);
      assert BodyReaches(p, f, e) && Holds(b, e);
    }
    KeptExportsFind(op.modulePath, p[op.modulePath].exports, b.keep, op.member);
  }

  lemma KeptImportLinks(p: Program, keep: set<FunctionRef>, r: Import)
    requires ImportLinks(p, r)
    ensures ImportLinks(Pruned(p, keep), RewrittenImport(p, r, keep))
  {
    if r.kind == SOURCE {
      var from, after := r.modulePath, RewrittenImport(p, r, keep);
      KeptNamesMembers(from, p[from].exports, r.exports, keep);
      forall i | 0 <= i < |after.exports|
        ensures FindExport(Pruned(p, keep)[from].exports, after.exports[i]).Some?
             || Pruned(p, keep)[from].table.Named(TypeKey(from, after.exports[i])).Some?
      {
        var name := after.exports[i];
        assert name in r.exports && NameStays(from, p[from].exports, name, keep);
        KeptNameLinks(p, keep, from, name);
      }
    }
  }

  lemma KeptNameLinks(p: Program, keep: set<FunctionRef>, from: string, name: string)
    requires from in p && NameStays(from, p[from].exports, name, keep)
    requires FindExport(p[from].exports, name).Some? || p[from].table.Named(TypeKey(from, name)).Some?
    ensures FindExport(Pruned(p, keep)[from].exports, name).Some?
      || Pruned(p, keep)[from].table.Named(TypeKey(from, name)).Some?
  {
    if FindExport(p[from].exports, name).Some? {
      var before := FindExport(p[from].exports, name).value;
      NameStaysExport(from, p[from].exports, name, keep);
      KeptExportsMembers(from, p[from].exports, keep);
      var e :| e in p[from].exports && e.name == name && ExportStays(from, e, keep);
      assert e in KeptExports(from, p[from].exports, keep);
    } else {
      NamedStays(from, p[from].table, TypeKey(from, name), keep);
    }
  }

  /** Each body left in the result is the one the search followed. */
  lemma KeptBody(p: Program, keep: set<FunctionRef>, own: string, i: nat)
    requires UniqueIds(p) && own in p && i < |Pruned(p, keep)[own].functions|
    ensures var body, f := Pruned(p, keep)[own].functions[i], FunctionRef(own, Pruned(p, keep)[own].functions[i].id);
            f in keep && Lookup(p, f) == Some(body) && body in p[own].functions
  {
    var body := Pruned(p, keep)[own].functions[i];
    KeptFunctionsMembers(own, p[own].functions, keep);
    assert body in KeptFunctions(own, p[own].functions, keep);
    var k :| 0 <= k < |p[own].functions| && p[own].functions[k] == body;
    FindUnique(p[own].functions, k);
  }

  /**
    * Pruning keeps a linkable program linkable exactly when no kept body relies on a padded path to a dropped
    * function.
    */
  lemma PrunedLinksIff(p: Program, entries: seq<FunctionRef>, b: Facts)
    requires Links(p) && UniqueIds(p) && Least(p, entries, b) && forall f | f in b.keep :: !Broken(p, f)
    ensures Links(Pruned(p, b.keep)) <==> PaddedTargetsKept(p, b.keep)
  {
    if PaddedTargetsKept(p, b.keep) {
      forall own | own in p
        ensures ModuleLinks(Pruned(p, b.keep), own)
      {
        PrunedModuleLinks(p, entries, b, own);
      }
    }
    if Links(Pruned(p, b.keep)) {
      forall f, op | f in b.keep && Lookup(p, f).Some? && op in Lookup(p, f).value.code && PaddedSite(op)
        ensures FunctionRef(op.modulePath, op.callee) in b.keep
      {
        PaddedSiteLinks(p, b.keep, f, op);
      }
    }
  }

  lemma PrunedModuleLinks(p: Program, entries: seq<FunctionRef>, b: Facts, own: string)
    requires Links(p) && UniqueIds(p) && Closed(p, entries, b) && PaddedTargetsKept(p, b.keep) && own in p
    ensures ModuleLinks(Pruned(p, b.keep), own)
  {
    var after := Pruned(p, b.keep);
    hide Closed, RewrittenTable, BodyReaches, ImportLinks, InstructionLinks;
    assert ModuleLinks(p, own);
    forall i | 0 <= i < |after[own].requirements|
      ensures ImportLinks(after, after[own].requirements[i])
    {
      KeptImportLinks(p, b.keep, p[own].requirements[i]);
    }
    forall i, j | 0 <= i < |after[own].functions| && 0 <= j < |after[own].functions[i].code|
      ensures InstructionLinks(after, own, after[own].functions[i].code[j])
    {
      var body := after[own].functions[i];
      KeptBody(p, b.keep, own, i);
      ClosedFollows(p, entries, b, FunctionRef(own, body.id));
      KeptInstructionLinks(p, b, FunctionRef(own, body.id), body.code[j]);
    }
  }

  lemma ClosedFollows(p: Program, entries: seq<FunctionRef>, b: Facts, f: FunctionRef)
    requires Closed(p, entries, b) && f in b.keep
    ensures forall e | BodyReaches(p, f, e) :: Holds(b, e)
  {
  }

  lemma PaddedSiteLinks(p: Program, keep: set<FunctionRef>, f: FunctionRef, op: Instruction)
    requires Links(Pruned(p, keep)) && f in keep && Lookup(p, f).Some? && op in Lookup(p, f).value.code
    requires PaddedSite(op)
    ensures FunctionRef(op.modulePath, op.callee) in keep
  {
    var own, after := f.modulePath, Pruned(p, keep);
    var body := Lookup(p, f).value;
    KeptFunctionsMembers(own, p[own].functions, keep);
    var i :| 0 <= i < |after[own].functions| && after[own].functions[i] == body;
    var j :| 0 <= j < |body.code| && body.code[j] == op;
    assert ModuleLinks(after, own);
    assert InstructionLinks(after, own, after[own].functions[i].code[j]);
    PrunedLookup(p, keep, FunctionRef(op.modulePath, op.callee));
  }

  /** Without padded paths pruning always keeps the program linkable. */
  lemma TrimmedProgramLinks(p: Program, entries: seq<FunctionRef>, b: Facts)
    requires Links(p) && UniqueIds(p) && Least(p, entries, b) && forall f | f in b.keep :: !Broken(p, f)
    requires forall f, op | Lookup(p, f).Some? && op in Lookup(p, f).value.code :: !PaddedSite(op)
    ensures Links(Pruned(p, b.keep))
  {
    PrunedLinksIff(p, entries, b);
  }

  /**
    * The same as a condition on the input: what every solution keeps behind a padded path is kept under that very
    * path.
    */
  ghost predicate PaddedTargetsNeeded(p: Program, entries: seq<FunctionRef>) {
    forall f, op | MustKeep(p, entries, f) && Lookup(p, f).Some? && op in Lookup(p, f).value.code && PaddedSite(op) ::
      MustKeep(p, entries, FunctionRef(op.modulePath, op.callee))
  }

  lemma LeastIsNeeded(p: Program, entries: seq<FunctionRef>, b: Facts, f: FunctionRef)
    requires Least(p, entries, b)
    ensures f in b.keep <==> MustKeep(p, entries, f)
  {
    hide Closed;
  }

  /**
    * Pruning keeps a linkable program linkable if and only if every necessary padded reference has a necessary
    * target.
    */
  lemma LinksAfterPruningIff(p: Program, entries: seq<FunctionRef>, b: Facts)
    requires Links(p) && UniqueIds(p) && Least(p, entries, b) && forall f | f in b.keep :: !Broken(p, f)
    ensures Links(Pruned(p, b.keep)) <==> PaddedTargetsNeeded(p, entries)
  {
    PrunedLinksIff(p, entries, b);
    hide Links, Least, Broken, MustKeep, Lookup, PaddedSite;
    forall f
      ensures f in b.keep <==> MustKeep(p, entries, f)
    {
      LeastIsNeeded(p, entries, b, f);
    }
  }

  // ----- the loops -----

  method KeepFunctions(own: string, functions: seq<Function>, keep: set<FunctionRef>) returns (retained: seq<Function>)
    ensures retained == KeptFunctions(own, functions, keep)
  {
    retained := [];
    var i := 0;
    while i < |functions|
      invariant 0 <= i <= |functions| && retained == KeptFunctions(own, functions[..i], keep)
    {
      assert functions[..i + 1][..i] == functions[..i];
      if FunctionRef(own, functions[i].id) in keep {
        retained := retained + [functions[i]];
      }
      i := i + 1;
    }
    assert functions[..i] == functions;
  }

  method KeepExports(own: string, exports: seq<Export>, keep: set<FunctionRef>) returns (retained: seq<Export>)
    ensures retained == KeptExports(own, exports, keep)
  {
    retained := [];
    var i := 0;
    while i < |exports|
      invariant 0 <= i <= |exports| && retained == KeptExports(own, exports[..i], keep)
    {
      assert exports[..i + 1][..i] == exports[..i];
      if exports[i].kind != "function" || FunctionRef(own, exports[i].id) in keep {
        retained := retained + [exports[i]];
      }
      i := i + 1;
    }
    assert exports[..i] == exports;
  }

  method RewriteNodes(own: string, nodes: seq<TypeNode>, keep: set<FunctionRef>) returns (after: seq<TypeNode>)
    ensures after == RewrittenNodes(own, nodes, keep)
  {
    after := [];
    var i := 0;
    while i < |nodes|
      invariant 0 <= i <= |nodes| && after == RewrittenNodes(own, nodes[..i], keep)
    {
      var node := nodes[i];
      if node.kind.NamedKind? {
        var methods := RewriteMethods(own, node.methods, keep);
        node := node.(methods := methods);
      }
      after := after + [node];
      i := i + 1;
    }
    assert nodes[..i] == nodes;
  }

  method RewriteMethods(own: string, methods: seq<Method>, keep: set<FunctionRef>) returns (after: seq<Method>)
    ensures after == RewrittenMethods(own, methods, keep)
  {
    after := [];
    var i := 0;
    while i < |methods|
      invariant 0 <= i <= |methods| && after == RewrittenMethods(own, methods[..i], keep)
    {
      var d := methods[i];
      if d.functionID != "" && FunctionRef(OwnerPath(d.modulePath, own), d.functionID) !in keep {
        d := d.(functionID := "");
      }
      after := after + [d];
      i := i + 1;
    }
    assert methods[..i] == methods;
  }

  /** Whether one imported name survives; the search stops at the first function export of that name. */
  method RetainName(from: string, exports: seq<Export>, name: string, keep: set<FunctionRef>) returns (retain: bool)
    ensures retain == NameStays(from, exports, name, keep)
  {
    var i := 0;
    while i < |exports|
      invariant 0 <= i <= |exports| && NameStays(from, exports, name, keep) == NameStays(from, exports[i..], name, keep)
    {
      if exports[i].name == name && exports[i].kind == "function" {
        return FunctionRef(from, exports[i].id) in keep;
      }
      assert exports[i..][1..] == exports[i + 1..];
      i := i + 1;
    }
    retain := true;
  }

  method RetainNames(from: string, exports: seq<Export>, names: seq<string>, keep: set<FunctionRef>)
      returns (retained: seq<string>)
    ensures retained == KeptNames(from, exports, names, keep)
  {
    retained := [];
    var i := 0;
    while i < |names|
      invariant 0 <= i <= |names| && retained == KeptNames(from, exports, names[..i], keep)
    {
      assert names[..i + 1][..i] == names[..i];
      var retain := RetainName(from, exports, names[i], keep);
      if retain {
        retained := retained + [names[i]];
      }
      i := i + 1;
    }
    assert names[..i] == names;
  }

  /** The requirement loop; any kind but a source requirement is refused. */
  method RewriteImports(p: Program, rs: seq<Import>, keep: set<FunctionRef>) returns (ok: bool, after: seq<Import>)
    ensures ok <==> forall i | 0 <= i < |rs| :: rs[i].kind == SOURCE
    ensures ok ==> after == RewrittenImports(p, rs, keep)
  {
    after := [];
    var i := 0;
    while i < |rs|
      invariant 0 <= i <= |rs| && after == RewrittenImports(p, rs[..i], keep)
      invariant forall j | 0 <= j < i :: rs[j].kind == SOURCE
    {
      if rs[i].kind != SOURCE {
        return false, [];
      }
      var r := rs[i];
      if r.modulePath in p {
        var names := RetainNames(r.modulePath, p[r.modulePath].exports, r.exports, keep);
        r := r.(exports := names);
      }
      after := after + [r];
      i := i + 1;
    }
    assert rs[..i] == rs;
    ok := true;
  }

  /** An artifact the rewrite can carry over: its table indexes and its requirements are all of source kind. */
  ghost predicate Rewritable(a: Artifact) {
    a.table.Indexed() && forall i | 0 <= i < |a.requirements| :: a.requirements[i].kind == SOURCE
  }

  method RewriteModule(p: Program, own: string, keep: set<FunctionRef>) returns (r: Option<Artifact>)
    requires own in p
    ensures r.Some? <==> Rewritable(p[own])
    ensures r.Some? ==> r.value == RewrittenArtifact(p, own, keep)
  {
    hide RewrittenNodes, RewrittenImports, KeptFunctions, KeptExports;
    var a := p[own];
    var functions := KeepFunctions(own, a.functions, keep);
    var exports := KeepExports(own, a.exports, keep);
    var nodes := RewriteNodes(own, a.table.nodes, keep);
    var table := a.table.(nodes := nodes);
    RewrittenIndexed(own, a.table, keep);
    if !table.Indexed() {
      return None;
    }
    var ok, requirements := RewriteImports(p, a.requirements, keep);
    if !ok {
      return None;
    }
    r := Some(a.(functions := functions, exports := exports, table := table, requirements := requirements));
  }

  lemma RewrittenIndexed(own: string, table: TypeTable, keep: set<FunctionRef>)
    ensures RewrittenTable(own, table, keep).Indexed() <==> table.Indexed()
  {
    var after := RewrittenTable(own, table, keep);
    assert forall i | 0 <= i < |table.nodes| ::
        after.nodes[i].id == table.nodes[i].id && after.nodes[i].identity == table.nodes[i].identity;
  }

  /** The last loop of `retainReachableCode`, over the modules in any order. */
  method Rewrite(p: Program, keep: set<FunctionRef>) returns (r: Option<Program>)
    ensures r.Some? <==> forall own | own in p :: Rewritable(p[own])
    ensures r.Some? ==> r.value == Pruned(p, keep)
  {
    hide Rewritable, RewrittenArtifact;
    var after: Program, rest := map[], p.Keys;
    while rest != {}
      invariant rest <= p.Keys && after.Keys == p.Keys - rest
      invariant forall own | own in after :: after[own] == RewrittenArtifact(p, own, keep) && Rewritable(p[own])
      decreases rest
    {
      var own :| own in rest;
      var one := RewriteModule(p, own, keep);
      if one.None? {
        return None;
      }
      after := after[own := one.value];
      rest := rest - {own};
    }
    r := Some(after);
  }

  /** `retainReachableCode`: refused exactly for a broken necessary function or an artifact it cannot rewrite. */
  method RetainReachableCode(p: Program, entries: seq<FunctionRef>) returns (r: Option<Program>, ghost b: Facts)
    ensures r.Some? ==> Least(p, entries, b) && LeastByFields(p, entries, b) && r.value == Pruned(p, b.keep)
    ensures r.Some? ==> (forall f | f in b.keep :: !Broken(p, f)) && forall own | own in p :: Rewritable(p[own])
    ensures r.Some? <==>
      (forall f :: MustKeep(p, entries, f) ==> !Broken(p, f)) && forall own | own in p :: Rewritable(p[own])
  {
    hide Broken, Rewritable, LeastByFields;
    var search := new Reachability(p, entries);
    var ok, culprit := search.Run();
    b := search.Found();
    if !ok {
      return None, b;
    }
    r := Rewrite(p, search.keep);
  }

  method ValidateModule(p: Program, own: string) returns (ok: bool)
    requires own in p
    ensures ok <==> ModuleLinks(p, own)
  {
    hide ImportLinks, InstructionLinks;
    var rs, functions := p[own].requirements, p[own].functions;
    var i := 0;
    while i < |rs|
      invariant 0 <= i <= |rs| && forall k | 0 <= k < i :: ImportLinks(p, rs[k])
    {
      if !ImportLinks(p, rs[i]) {
        return false;
      }
      i := i + 1;
    }
    i := 0;
    while i < |functions|
      invariant 0 <= i <= |functions|
      invariant forall k, j | 0 <= k < i && 0 <= j < |functions[k].code| ::
        InstructionLinks(p, own, functions[k].code[j])
    {
      var j := 0;
      while j < |functions[i].code|
        invariant 0 <= j <= |functions[i].code|
        invariant forall k | 0 <= k < j :: InstructionLinks(p, own, functions[i].code[k])
      {
        if !InstructionLinks(p, own, functions[i].code[j]) {
          return false;
        }
        j := j + 1;
      }
      i := i + 1;
    }
    ok := true;
  }

  /** `validateLinkedReferences` without the package-local checks. */
  method ValidateLinkedReferences(p: Program) returns (ok: bool)
    ensures ok <==> Links(p)
  {
    hide ModuleLinks;
    var rest := p.Keys;
    while rest != {}
      invariant rest <= p.Keys && forall own | own in p && own !in rest :: ModuleLinks(p, own)
      decreases rest
    {
      var own :| own in rest;
      ok := ValidateModule(p, own);
      if !ok {
        return;
      }
      rest := rest - {own};
    }
    ok := true;
  }

  // ----- a linkable program that pruning breaks -----

  const LIB := "lib"
  const PADDED := " lib"

  const RUN := FunctionRef("main", "run")

  function Bare(path: string, functions: seq<Function>, requirements: seq<Import>): Artifact {
    Artifact(path, TypeTable([], "", {}), [], [], functions, [], requirements)
  }

  /** Two modules whose paths differ only by a leading space, both required, and a call through the padded one. */
  function PaddedProgram(): Program {
    map["main" := Bare("main", [Function("run", [], [], [CallDirect(PADDED, "f")])],
      [Import(SOURCE, LIB, []), Import(SOURCE, PADDED, [])]),
        LIB := Bare(LIB, [Function("f", [], [], [])], []),
        PADDED := Bare(PADDED, [Function("f", [], [], [])], [])]
  }

  lemma PaddedTrim()
    ensures TrimSpace(PADDED) == LIB && TrimSpace(PADDED) != PADDED
  {
    assert PADDED[1..] == LIB;
  }

  function PaddedFacts(): Facts {
    Facts({RUN, FunctionRef(LIB, "f")}, {}, {}, {}, {}, false)
  }

  lemma PaddedClosed()
    ensures Closed(PaddedProgram(), [RUN], PaddedFacts())
  {
    PaddedTrim();
    var p, b := PaddedProgram(), PaddedFacts();
    forall f, e | f in b.keep && BodyReaches(p, f, e)
      ensures Holds(b, e)
    {
      var op :| op in Lookup(p, f).value.code && e in EffectsOf(p, f.modulePath, op);
      assert op == CallDirect(PADDED, "f");
    }
  }

  lemma PaddedLookups()
    ensures var p := PaddedProgram();
            && Lookup(p, RUN) == Some(Function("run", [], [], [CallDirect(PADDED, "f")]))
            && Lookup(p, FunctionRef(PADDED, "f")).Some?
            && Lookup(p, FunctionRef(LIB, "f")) == Some(Function("f", [], [], []))
  {
  }

  lemma PaddedLinks()
    ensures Links(PaddedProgram()) && UniqueIds(PaddedProgram())
    ensures forall own | own in PaddedProgram() :: Rewritable(PaddedProgram()[own])
  {
    var p := PaddedProgram();
    PaddedMainLinks();
    assert ModuleLinks(p, LIB);
    assert ModuleLinks(p, PADDED);
    hide ModuleLinks;
    assert p.Keys == {"main", LIB, PADDED};
  }

  lemma PaddedMainLinks()
    ensures ModuleLinks(PaddedProgram(), "main")
  {
    var p := PaddedProgram();
    PaddedLookups();
    hide Lookup;
    var a := p["main"];
    assert InstructionLinks(p, "main", CallDirect(PADDED, "f"));
    assert ImportLinks(p, a.requirements[0]) && ImportLinks(p, a.requirements[1]);
    hide InstructionLinks, ImportLinks;
    forall i, j | 0 <= i < |a.functions| && 0 <= j < |a.functions[i].code|
      ensures InstructionLinks(p, "main", a.functions[i].code[j])
    {
      assert i == 0 && j == 0;
    }
  }

  lemma UnbrokenBody(p: Program, f: FunctionRef)
    requires Lookup(p, f).Some? && Lookup(p, f).value.constants == []
    requires forall op | op in Lookup(p, f).value.code :: InstructionEffects(p, f.modulePath, op).Some?
    ensures !Broken(p, f)
  {
  }

  /** The search has nothing to complain about. */
  lemma PaddedUnbroken(f: FunctionRef)
    requires MustKeep(PaddedProgram(), [RUN], f)
    ensures !Broken(PaddedProgram(), f)
  {
    PaddedClosed();
    PaddedLookups();
    PaddedEffects();
    assert f in PaddedFacts().keep;
    hide Closed, Lookup, InstructionEffects, MustKeep, Broken, PaddedProgram;
    assert f == RUN || f == FunctionRef(LIB, "f");
    UnbrokenBody(PaddedProgram(), f);
  }

  lemma PaddedEffects()
    ensures "main" in PaddedProgram() && InstructionEffects(PaddedProgram(), "main", CallDirect(PADDED, "f")).Some?
  {
  }

  lemma PaddedNeeds()
    ensures MustKeep(PaddedProgram(), [RUN], RUN) && !MustKeep(PaddedProgram(), [RUN], FunctionRef(PADDED, "f"))
  {
    PaddedClosed();
    assert FunctionRef(PADDED, "f") !in PaddedFacts().keep;
    hide PaddedProgram;
    forall b: Facts | Closed(PaddedProgram(), [RUN], b)
      ensures RUN in b.keep
    {
      assert [RUN][0] in b.keep;
    }
  }

  /** The condition fails: the call through the padded path is necessary and its literal target is not. */
  lemma PaddedTargetLost()
    ensures !PaddedTargetsNeeded(PaddedProgram(), [RUN])
  {
    PaddedNeeds();
    PaddedLookups();
    PaddedTrim();
    hide PaddedProgram, MustKeep, Lookup;
    var op := CallDirect(PADDED, "f");
    assert op in Lookup(PaddedProgram(), RUN).value.code && PaddedSite(op);
  }
}
