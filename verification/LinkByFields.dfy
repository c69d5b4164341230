/**
  * The linker's rules stated on the fields of the program alone, their equivalence with the rules the worklist
  * follows, and what follows for a program: which types are used, and which methods are kept.
  */
module LinkByFields {
  import opened Prelude
  import opened LinkTypes
  import opened LinkProgram
  import opened LinkRules

  // ----- what types and interfaces ask for -----

  predicate AsksForError(table: TypeTable, t: TypeRef, r: Requirement) {
    t.IsError() && r == Requirement("Error", table.errorText)
  }

  /** `Error() string`. */
  predicate ErrorMethod(table: TypeTable, m: Method) {
    && m.name == "Error" && m.signature.params == [] && |m.signature.results| == 1
    && m.signature.results[0] in table.strings
  }

  /** A used type asks for this method: it is the error type, or an interface with the one method `Error() string`. */
  ghost predicate TypeAsks(table: TypeTable, t: TypeRef, r: Requirement) {
    || AsksForError(table, t, r)
    || exists m :: InterfaceWith(table, t, [m]) && ErrorMethod(table, m) && r == Requirement("Error", m.signature.text)
  }

  /** A called interface asks for each of its methods. */
  ghost predicate InterfaceAsks(table: TypeTable, t: TypeRef, r: Requirement) {
    || AsksForError(table, t, r)
    || exists methods: seq<Method>, m: Method ::
         InterfaceWith(table, t, methods) && m in methods && r == Requirement(m.name, m.signature.text)
  }

  /** A called interface leads to what its methods take and return, and to the parts of its underlying type. */
  ghost predicate InterfaceLeads(table: TypeTable, t: TypeRef, c: TypeRef) {
    || (exists methods: seq<Method>, m: Method ::
          InterfaceWith(table, t, methods) && m in methods && (c in m.signature.params || c in m.signature.results))
    || (exists node ::
          node in table.nodes && table.Indexed() && node.id == table.Underlying(t).node != "" && Mentions(node, c))
  }

  lemma TypeAsksIff(table: TypeTable, t: TypeRef, r: Requirement)
    ensures r in TypeRequirements(table, t) <==> TypeAsks(table, t, r)
  {
    hide InterfaceWith;
    var methods := table.InterfaceMethods(t);
    forall m
      ensures InterfaceWith(table, t, [m]) <==> methods == Some([m])
    {
      InterfaceIff(table, t, [m]);
    }
    if methods.Some? && |methods.value| == 1 {
      assert methods.value == [methods.value[0]];
    }
  }

  lemma InterfaceAsksIff(table: TypeTable, t: TypeRef, r: Requirement)
    ensures r in InterfaceRequirements(table, t) <==> InterfaceAsks(table, t, r)
  {
    hide InterfaceWith;
    var found := table.InterfaceMethods(t);
    if found.Some? {
      InterfaceIff(table, t, found.value);
      if m :| m in found.value && r == Requirement(m.name, m.signature.text) {
        var i :| 0 <= i < |found.value| && found.value[i] == m;
        assert MethodRequirements(found.value)[i] == r;
      }
    }
    if methods: seq<Method>, m: Method :|
      InterfaceWith(table, t, methods) && m in methods && r == Requirement(m.name, m.signature.text)
    {
      InterfaceIff(table, t, methods);
    }
  }

  lemma {:induction false} MethodRefsIff(methods: seq<Method>, c: TypeRef)
    ensures c in MethodRefs(methods) <==>
      exists m :: m in methods && (c in m.signature.params || c in m.signature.results)
  {
    if methods != [] {
      MethodRefsIff(methods[1..], c);
      assert methods == [methods[0]] + methods[1..];
      if c in SignatureRefs(methods[0].signature) {
        assert methods[0] in methods;
      }
    }
  }

  lemma InterfaceLeadsIff(table: TypeTable, t: TypeRef, c: TypeRef)
    ensures c in InterfaceChildren(table, t) <==> InterfaceLeads(table, t, c)
  {
    hide InterfaceWith, Mentions, NodeRefs;
    var found, under := table.InterfaceMethods(t), table.Node(table.Underlying(t));
    if found.Some? {
      InterfaceIff(table, t, found.value);
      MethodRefsIff(found.value, c);
    }
    if methods: seq<Method>, m: Method :|
      InterfaceWith(table, t, methods) && m in methods && (c in m.signature.params || c in m.signature.results)
    {
      InterfaceIff(table, t, methods);
    }
    if under.Some? {
      MentionsIff(under.value, c);
    }
    if node :|
      node in table.nodes && table.Indexed() && node.id == table.Underlying(t).node != "" && Mentions(node, c)
    {
      forall a, b | a in table.nodes && b in table.nodes && a.id == b.id
        ensures a == b
      {
        IndexedUnique(table, a, b);
      }
      IdFound(table.nodes, node);
      MentionsIff(node, c);
    }
  }

  // ----- bodies -----

  predicate LastFunctionAt(functions: seq<Function>, id: string, f: Function, i: nat) {
    i < |functions| && functions[i] == f && f.id == id && forall j | i < j < |functions| :: functions[j].id != id
  }

  ghost predicate LastFunction(functions: seq<Function>, id: string, f: Function) {
    exists i: nat :: LastFunctionAt(functions, id, f, i)
  }

  lemma {:induction false} FunctionFound(functions: seq<Function>, id: string, f: Function)
    ensures FindFunction(functions, id) == Some(f) <==> LastFunction(functions, id, f)
  {
    if functions != [] {
      var n := |functions| - 1;
      if functions[n].id == id {
        assert functions[n] == f ==> LastFunctionAt(functions, id, f, n);
        assert forall i: nat | LastFunctionAt(functions, id, f, i) :: i == n;
      } else {
        FunctionFound(functions[..n], id, f);
        forall i: nat
          ensures LastFunctionAt(functions[..n], id, f, i) <==> LastFunctionAt(functions, id, f, i)
        {
          assert forall j | 0 <= j < n :: functions[..n][j] == functions[j];
        }
        hide LastFunctionAt;
      }
    }
  }

  /** What a body leads to: the types it declares, the constants it loads, and what its instructions reach. */
  ghost predicate BodyLeads(p: Program, own: string, body: Function, e: Effect)
    requires own in p
  {
    || (e.ReachType? && e.modulePath == own && e.t in body.types)
    || (e.ReachType? && e.modulePath == own
      && exists c :: c in body.constants && c < |p[own].constants| && e.t == p[own].constants[c].t)
    || (exists op :: op in body.code && Reaches(p, own, op, e))
  }

  ghost predicate FunctionLeads(p: Program, f: FunctionRef, e: Effect) {
    f.modulePath in p
    && exists body :: LastFunction(p[f.modulePath].functions, f.id, body) && BodyLeads(p, f.modulePath, body, e)
  }

  lemma FunctionLeadsIff(p: Program, f: FunctionRef, e: Effect)
    ensures BodyReaches(p, f, e) <==> FunctionLeads(p, f, e)
  {
    if f.modulePath in p {
      hide FindFunction, LastFunction, EffectsOf, Reaches;
      forall body
        ensures FindFunction(p[f.modulePath].functions, f.id) == Some(body) <==>
          LastFunction(p[f.modulePath].functions, f.id, body)
      {
        FunctionFound(p[f.modulePath].functions, f.id, body);
      }
      forall op
        ensures e in EffectsOf(p, f.modulePath, op) <==> Reaches(p, f.modulePath, op, e)
      {
        EffectsIff(p, f.modulePath, op, e);
      }
    }
  }

  // ----- the rules -----

  /** Entries and initialisers are kept. */
  ghost predicate RootsIn(p: Program, entries: seq<FunctionRef>, b: Facts) {
    && (forall own, f | own in p && f in p[own].functions && f.id == INIT :: FunctionRef(own, INIT) in b.keep)
    && (forall f | f in entries :: f in b.keep)
  }

  ghost predicate BodiesIn(p: Program, b: Facts) {
    forall f, e | f in b.keep && FunctionLeads(p, f, e) :: Holds(b, e)
  }

  /** Every valid part of a used type is used; its receiver and what it asks for are known. */
  ghost predicate TypesIn(p: Program, b: Facts) {
    forall u | u in b.types && u.modulePath in p :: TypeIn(p[u.modulePath].table, b, u)
  }

  ghost predicate TypeIn(table: TypeTable, b: Facts, u: TypeUse) {
    && (forall node, c | Opens(table, u.t, node) && Mentions(node, c) && c.Valid() ::
      TypeUse(u.modulePath, c) in b.types)
    && (forall k | NamesType(table, u.t, k) :: k in b.receivers)
    && (forall r | TypeAsks(table, u.t, r) :: r in b.requirements)
  }

  ghost predicate InterfacesIn(p: Program, b: Facts) {
    forall u | u in b.interfaces && u.modulePath in p :: InterfaceIn(p[u.modulePath].table, b, u)
  }

  ghost predicate InterfaceIn(table: TypeTable, b: Facts, u: TypeUse) {
    && (forall c | InterfaceLeads(table, u.t, c) && c.Valid() :: TypeUse(u.modulePath, c) in b.interfaces)
    && (forall r | InterfaceAsks(table, u.t, r) :: r in b.requirements)
  }

  /** Method `d` of a declared type: where it is, and the declared type behind its receiver, if there is one. */
  ghost predicate Backs(p: Program, own: string, node: TypeNode, d: Method, f: FunctionRef) {
    && own in p && DefinesType(p[own], node) && d in node.methods && d.functionID != ""
    && NamesModule(d.modulePath, own, f.modulePath) && f.id == d.functionID
  }

  /** A method of a known receiver is kept when it is asked for by name and signature, and when methods are listed. */
  ghost predicate MethodsIn(p: Program, b: Facts) {
    forall own, node, d: Method, f, k |
      own in p && Backs(p, own, node, d, f) && NamesType(p[own].table, d.receiver, k) && k in b.receivers
      && (b.reflect || Requirement(d.name, d.signature.text) in b.requirements) :: f in b.keep
  }

  ghost predicate ClosedByFields(p: Program, entries: seq<FunctionRef>, b: Facts) {
    RootsIn(p, entries, b) && BodiesIn(p, b) && TypesIn(p, b) && InterfacesIn(p, b) && MethodsIn(p, b)
  }

  lemma RootsIff(p: Program, entries: seq<FunctionRef>, b: Facts)
    ensures RootsKept(p, entries, b) <==> RootsIn(p, entries, b)
  {
  }

  lemma BodiesIff(p: Program, b: Facts)
    ensures BodiesFollowed(p, b, b.keep) <==> BodiesIn(p, b)
  {
    hide BodyReaches, FunctionLeads, Holds;
    forall f, e
      ensures BodyReaches(p, f, e) <==> FunctionLeads(p, f, e)
    {
      FunctionLeadsIff(p, f, e);
    }
  }

  lemma PartsIff(table: TypeTable, t: TypeRef, c: TypeRef)
    ensures c in TypeChildren(table, t) <==> exists node :: Opens(table, t, node) && Mentions(node, c)
  {
    hide Opens, Mentions, NodeRefs;
    var found := TypeNodeOf(table, t);
    if found.Some? {
      OpensIff(table, t, found.value);
      MentionsIff(found.value, c);
    }
    if node :| Opens(table, t, node) && Mentions(node, c) {
      OpensIff(table, t, node);
      MentionsIff(node, c);
    }
  }

  lemma TypeInIff(p: Program, b: Facts, u: TypeUse)
    requires u.modulePath in p
    ensures TypeFollowed(p, b, u) <==> TypeIn(p[u.modulePath].table, b, u)
  {
    var table := p[u.modulePath].table;
    hide TypeRequirements, TypeAsks, NamedReceiver, NamesType, Opens, Mentions, TypeChildren;
    forall r
      ensures r in TypeRequirements(table, u.t) <==> TypeAsks(table, u.t, r)
    {
      TypeAsksIff(table, u.t, r);
    }
    forall k
      ensures Receiver(table, u.t) == Some(k) <==> NamesType(table, u.t, k)
    {
      NamesTypeIff(table, u.t, k);
    }
    forall c
      ensures c in TypeChildren(table, u.t) <==> exists node :: Opens(table, u.t, node) && Mentions(node, c)
    {
      PartsIff(table, u.t, c);
    }
    if TypeIn(table, b, u) {
      if Receiver(table, u.t).Some? {
        assert NamesType(table, u.t, Receiver(table, u.t).value);
      }
      forall c | c in TypeChildren(table, u.t)
        ensures Holds(b, ReachType(u.modulePath, c))
      {
        var node :| Opens(table, u.t, node) && Mentions(node, c);
      }
    }
    if TypeFollowed(p, b, u) {
      forall node, c | Opens(table, u.t, node) && Mentions(node, c) && c.Valid()
        ensures TypeUse(u.modulePath, c) in b.types
      {
        assert c in TypeChildren(table, u.t);
        assert Holds(b, ReachType(u.modulePath, c));
      }
    }
  }

  lemma NamesTypeIff(table: TypeTable, t: TypeRef, k: TypeKey)
    ensures Receiver(table, t) == Some(k) <==> NamesType(table, t, k)
  {
    ReceiverIff(table, t, k);
    hide NamedReceiver;
  }

  lemma InterfaceInIff(p: Program, b: Facts, u: TypeUse)
    requires u.modulePath in p
    ensures InterfaceFollowed(p, b, u) <==> InterfaceIn(p[u.modulePath].table, b, u)
  {
    var table := p[u.modulePath].table;
    hide InterfaceRequirements, InterfaceAsks, InterfaceChildren, InterfaceLeads;
    forall r
      ensures r in InterfaceRequirements(table, u.t) <==> InterfaceAsks(table, u.t, r)
    {
      InterfaceAsksIff(table, u.t, r);
    }
    forall c
      ensures c in InterfaceChildren(table, u.t) <==> InterfaceLeads(table, u.t, c)
    {
      InterfaceLeadsIff(table, u.t, c);
    }
  }

  lemma TypesInIff(p: Program, b: Facts)
    ensures TypesFollowed(p, b, {}) <==> TypesIn(p, b)
    ensures InterfacesFollowed(p, b, {}) <==> InterfacesIn(p, b)
  {
    hide TypeFollowed, TypeIn, InterfaceFollowed, InterfaceIn;
    forall u: TypeUse | u.modulePath in p
      ensures TypeFollowed(p, b, u) <==> TypeIn(p[u.modulePath].table, b, u)
      ensures InterfaceFollowed(p, b, u) <==> InterfaceIn(p[u.modulePath].table, b, u)
    {
      TypeInIff(p, b, u);
      InterfaceInIff(p, b, u);
    }
  }

  /** Keys of declared types only. */
  ghost function Proper(b: Facts): Facts {
    b.(receivers := set k | k in b.receivers && k.Complete())
  }

  lemma MethodsFromFields(p: Program, b: Facts)
    requires MethodsIn(p, b)
    ensures MethodsKept(p, Proper(b))
  {
    hide NamedReceiver, TrimSpace;
    forall m | Declares(p, m) && Wanted(Proper(b), m)
      ensures m.ref in Proper(b).keep
    {
      var own :| own in p && DeclaredIn(own, p[own], m);
      var node, d :| ListedAs(own, p[own], node, d, m);
      NamesTypeIff(p[own].table, d.receiver, m.receiver);
      assert Backs(p, own, node, d, m.ref);
    }
  }

  lemma MethodsToFields(p: Program, b: Facts)
    requires MethodsKept(p, b)
    ensures MethodsIn(p, b)
  {
    hide NamedReceiver, TrimSpace;
    forall own, node, d: Method, f, k | Backs(p, own, node, d, f) && NamesType(p[own].table, d.receiver, k)
      && k in b.receivers && (b.reflect || Requirement(d.name, d.signature.text) in b.requirements)
      ensures f in b.keep
    {
      NamesTypeIff(p[own].table, d.receiver, k);
      var m := MethodEntry(own, p[own].table, d);
      assert ListedAs(own, p[own], node, d, m) && DeclaredIn(own, p[own], m) && Declares(p, m);
      assert m.ref == f && m.receiver == k && k.Complete();
    }
  }

  /** A solution of the worklist's rules solves the rules on the fields. */
  lemma ClosedToFields(p: Program, entries: seq<FunctionRef>, b: Facts)
    requires Closed(p, entries, b)
    ensures ClosedByFields(p, entries, b)
  {
    RootsIff(p, entries, b);
    BodiesIff(p, b);
    TypesInIff(p, b);
    MethodsToFields(p, b);
    hide RootsKept, RootsIn, BodiesFollowed, BodiesIn, TypesFollowed, TypesIn, InterfacesFollowed, InterfacesIn;
    hide MethodsKept, MethodsIn;
  }

  lemma ProperIn(p: Program, entries: seq<FunctionRef>, b: Facts)
    requires RootsIn(p, entries, b) && BodiesIn(p, b) && TypesIn(p, b) && InterfacesIn(p, b)
    ensures RootsIn(p, entries, Proper(b)) && BodiesIn(p, Proper(b)) && TypesIn(p, Proper(b))
      && InterfacesIn(p, Proper(b))
  {
    hide FunctionLeads, Opens, Mentions, NamesType, TypeAsks, InterfaceLeads, InterfaceAsks;
    forall u, k | u in b.types && u.modulePath in p && NamesType(p[u.modulePath].table, u.t, k)
      ensures k in Proper(b).receivers
    {
      NamesTypeIff(p[u.modulePath].table, u.t, k);
      assert TypeIn(p[u.modulePath].table, b, u);
    }
    forall u | u in b.types && u.modulePath in p
      ensures TypeIn(p[u.modulePath].table, Proper(b), u)
    {
      assert TypeIn(p[u.modulePath].table, b, u);
    }
    forall u | u in b.interfaces && u.modulePath in p
      ensures InterfaceIn(p[u.modulePath].table, Proper(b), u)
    {
      assert InterfaceIn(p[u.modulePath].table, b, u);
    }
  }

  lemma FieldsToClosed(p: Program, entries: seq<FunctionRef>, b: Facts)
    requires ClosedByFields(p, entries, b)
    ensures Closed(p, entries, Proper(b)) && Below(Proper(b), b)
  {
    ProperIn(p, entries, b);
    var b' := Proper(b);
    RootsIff(p, entries, b');
    BodiesIff(p, b');
    TypesInIff(p, b');
    MethodsFromFields(p, b);
    hide RootsKept, RootsIn, BodiesFollowed, BodiesIn, TypesFollowed, TypesIn, InterfacesFollowed, InterfacesIn;
    hide MethodsKept, MethodsIn;
  }

  /** The least solution of the rules on the fields. */
  ghost predicate LeastByFields(p: Program, entries: seq<FunctionRef>, a: Facts) {
    ClosedByFields(p, entries, a) && forall b: Facts | ClosedByFields(p, entries, b) :: Below(a, b)
  }

  /** What the worklist computes is the least solution of the rules on the fields. */
  lemma LeastIsByFields(p: Program, entries: seq<FunctionRef>, a: Facts)
    requires Least(p, entries, a)
    ensures LeastByFields(p, entries, a)
  {
    ClosedToFields(p, entries, a);
    hide ClosedByFields, Closed;
    forall b: Facts | ClosedByFields(p, entries, b)
      ensures Below(a, b)
    {
      FieldsToClosed(p, entries, b);
      assert Below(a, Proper(b));
    }
  }

  // ----- which types are used -----

  /** `c` is a valid part of the type. */
  ghost predicate Part(table: TypeTable, t: TypeRef, c: TypeRef) {
    c.Valid() && exists node :: Opens(table, t, node) && Mentions(node, c)
  }

  /** Types of one table, each a part of the one before. */
  ghost predicate PartPath(table: TypeTable, path: seq<TypeRef>) {
    path != [] && path[0].Valid() && forall i | 0 < i < |path| :: Part(table, path[i - 1], path[i])
  }

  /** The type is a part, of a part, and so on, of a type that a kept body mentions. */
  ghost predicate Reached(p: Program, keep: set<FunctionRef>, m: string, t: TypeRef, f: FunctionRef,
      path: seq<TypeRef>)
  {
    && f in keep && m in p && PartPath(p[m].table, path) && path[|path| - 1] == t
    && FunctionLeads(p, f, ReachType(m, path[0]))
  }

  lemma LeadsInside(p: Program, f: FunctionRef, e: Effect)
    requires FunctionLeads(p, f, e) && e.ReachType?
    ensures e.modulePath in p
  {
  }

  lemma {:induction false} PathUsed(p: Program, b: Facts, m: string, path: seq<TypeRef>)
    requires TypesIn(p, b) && m in p && PartPath(p[m].table, path) && TypeUse(m, path[0]) in b.types
    ensures TypeUse(m, path[|path| - 1]) in b.types
    decreases |path|
  {
    if |path| > 1 {
      hide Part, TypeIn;
      var n := |path| - 1;
      PathUsed(p, b, m, path[..n]);
      PartUsed(p, b, m, path[n - 1], path[n]);
    }
  }

  lemma PartUsed(p: Program, b: Facts, m: string, t: TypeRef, c: TypeRef)
    requires TypesIn(p, b) && m in p && TypeUse(m, t) in b.types && Part(p[m].table, t, c)
    ensures TypeUse(m, c) in b.types
  {
    hide Opens, Mentions;
    assert TypeIn(p[m].table, b, TypeUse(m, t));
  }

  /** The used types that are reached that way. */
  ghost function OnlyReached(p: Program, b: Facts): Facts {
    b.(types := set u | u in b.types && exists f, path :: Reached(p, b.keep, u.modulePath, u.t, f, path))
  }

  lemma ReachedPart(p: Program, b: Facts, u: TypeUse, c: TypeRef)
    requires u in OnlyReached(p, b).types && u.modulePath in p && Part(p[u.modulePath].table, u.t, c)
    requires TypeUse(u.modulePath, c) in b.types
    ensures TypeUse(u.modulePath, c) in OnlyReached(p, b).types
  {
    hide Part, FunctionLeads;
    var f, path :| Reached(p, b.keep, u.modulePath, u.t, f, path);
    assert PartPath(p[u.modulePath].table, path + [c]);
    assert Reached(p, b.keep, u.modulePath, c, f, path + [c]);
  }

  lemma ReachedTypes(p: Program, b: Facts)
    requires TypesIn(p, b)
    ensures TypesIn(p, OnlyReached(p, b))
  {
    var b' := OnlyReached(p, b);
    hide Opens, Mentions, NamesType, TypeAsks, Reached;
    forall u | u in b'.types && u.modulePath in p
      ensures TypeIn(p[u.modulePath].table, b', u)
    {
      assert TypeIn(p[u.modulePath].table, b, u);
      forall node, c | Opens(p[u.modulePath].table, u.t, node) && Mentions(node, c) && c.Valid()
        ensures TypeUse(u.modulePath, c) in b'.types
      {
        assert TypeUse(u.modulePath, c) in b.types;
        ReachedPart(p, b, u, c);
      }
    }
  }

  lemma ReachedBodies(p: Program, b: Facts)
    requires BodiesIn(p, b)
    ensures BodiesIn(p, OnlyReached(p, b))
  {
    var b' := OnlyReached(p, b);
    hide FunctionLeads;
    forall f, e | f in b'.keep && FunctionLeads(p, f, e)
      ensures Holds(b', e)
    {
      assert Holds(b, e);
      if e.ReachType? && e.t.Valid() {
        LeadsInside(p, f, e);
        assert PartPath(p[e.modulePath].table, [e.t]);
        assert Reached(p, b.keep, e.modulePath, e.t, f, [e.t]);
      }
    }
  }

  /** Facts that agree on interfaces and requirements follow interfaces alike. */
  lemma SameInterfaces(p: Program, a: Facts, b: Facts)
    requires InterfacesIn(p, a) && a.interfaces == b.interfaces && a.requirements == b.requirements
    ensures InterfacesIn(p, b)
  {
    hide InterfaceLeads, InterfaceAsks;
    forall u | u in b.interfaces && u.modulePath in p
      ensures InterfaceIn(p[u.modulePath].table, b, u)
    {
      assert InterfaceIn(p[u.modulePath].table, a, u);
    }
  }

  lemma OnlyReachedClosed(p: Program, entries: seq<FunctionRef>, b: Facts)
    requires ClosedByFields(p, entries, b)
    ensures ClosedByFields(p, entries, OnlyReached(p, b))
  {
    ReachedTypes(p, b);
    ReachedBodies(p, b);
    SameInterfaces(p, b, OnlyReached(p, b));
    hide TypesIn, BodiesIn, InterfacesIn, Backs, NamesType, Reached;
  }

  /**
    * A type is used if and only if it is reached, part by part, from a type that a kept body declares, loads or
    * mentions: through what it stands for, its elements and keys, its signature, tuple items, fields, terms,
    * constraint, base or type arguments.
    */
  lemma UsedIff(p: Program, entries: seq<FunctionRef>, b: Facts, m: string, t: TypeRef)
    requires LeastByFields(p, entries, b)
    ensures TypeUse(m, t) in b.types <==> exists f, path :: Reached(p, b.keep, m, t, f, path)
  {
    OnlyReachedClosed(p, entries, b);
    hide FunctionLeads, Part, TypesIn, InterfacesIn, MethodsIn, RootsIn;
    assert Below(b, OnlyReached(p, b));
    if TypeUse(m, t) in b.types {
      assert TypeUse(m, t) in OnlyReached(p, b).types;
    }
    if f, path :| Reached(p, b.keep, m, t, f, path) {
      assert Holds(b, ReachType(m, path[0]));
      PathUsed(p, b, m, path);
    }
  }

  // ----- which methods are kept -----

  /** An interface that a kept body calls asks for each of its methods. */
  lemma CalledInterfaceAsks(p: Program, entries: seq<FunctionRef>, b: Facts, f: FunctionRef, body: Function,
      op: Instruction, methods: seq<Method>, d: Method)
    requires ClosedByFields(p, entries, b) && f in b.keep && f.modulePath in p
    requires LastFunction(p[f.modulePath].functions, f.id, body) && op in body.code && op.CallInterface?
    requires op.interfaceType.Valid() && InterfaceWith(p[f.modulePath].table, op.interfaceType, methods) && d in methods
    ensures Requirement(d.name, d.signature.text) in b.requirements
  {
    var own, u := f.modulePath, TypeUse(f.modulePath, op.interfaceType);
    hide LastFunction, InterfaceWith;
    assert Reaches(p, own, op, ReachInterface(own, op.interfaceType));
    assert BodyLeads(p, own, body, ReachInterface(own, op.interfaceType));
    assert FunctionLeads(p, f, ReachInterface(own, op.interfaceType));
    assert Holds(b, ReachInterface(own, op.interfaceType));
    assert u in b.interfaces && InterfaceIn(p[own].table, b, u);
    assert InterfaceAsks(p[own].table, op.interfaceType, Requirement(d.name, d.signature.text));
  }

  /**
    * A declared method that is asked for by name and signature is kept as soon as its receiver is the declared type
    * behind some part, however deep, of a type that a kept body mentions.
    */
  lemma RequiredMethodKept(p: Program, entries: seq<FunctionRef>, b: Facts, m: string, t: TypeRef, g: FunctionRef,
      path: seq<TypeRef>, own: string, node: TypeNode, d: Method, f: FunctionRef, k: TypeKey)
    requires LeastByFields(p, entries, b) && Reached(p, b.keep, m, t, g, path) && NamesType(p[m].table, t, k)
    requires Backs(p, own, node, d, f) && NamesType(p[own].table, d.receiver, k)
    requires b.reflect || Requirement(d.name, d.signature.text) in b.requirements
    ensures f in b.keep
  {
    UsedIff(p, entries, b, m, t);
    hide Reached, Backs, NamesType, Opens, Mentions, TypeAsks, RootsIn, BodiesIn, InterfacesIn;
    assert TypeIn(p[m].table, b, TypeUse(m, t));
  }

  // ----- why each fact is there -----

  /** A known receiver whose method `f` is asked for. */
  ghost predicate WantedBy(p: Program, b: Facts, f: FunctionRef, own: string, node: TypeNode, d: Method, k: TypeKey) {
    && own in p && Backs(p, own, node, d, f) && NamesType(p[own].table, d.receiver, k) && k in b.receivers
    && (b.reflect || Requirement(d.name, d.signature.text) in b.requirements)
  }

  predicate Initialises(p: Program, f: FunctionRef) {
    f.modulePath in p && f.id == INIT && exists g :: g in p[f.modulePath].functions && g.id == INIT
  }

  /** An entry, an initialiser, what a kept body calls, or a wanted method. */
  ghost predicate KeptFor(p: Program, entries: seq<FunctionRef>, b: Facts, f: FunctionRef) {
    || f in entries || Initialises(p, f)
    || (exists g :: g in b.keep && FunctionLeads(p, g, KeepFunction(f)))
    || (exists own, node, d, k :: WantedBy(p, b, f, own, node, d, k))
  }

  ghost predicate ReceiverFor(p: Program, b: Facts, k: TypeKey) {
    exists u :: u in b.types && u.modulePath in p && NamesType(p[u.modulePath].table, u.t, k)
  }

  ghost predicate RequiredFor(p: Program, b: Facts, r: Requirement) {
    || (exists u :: u in b.types && u.modulePath in p && TypeAsks(p[u.modulePath].table, u.t, r))
    || (exists u :: u in b.interfaces && u.modulePath in p && InterfaceAsks(p[u.modulePath].table, u.t, r))
  }

  ghost predicate ReflectedFor(p: Program, b: Facts) {
    exists f :: f in b.keep && FunctionLeads(p, f, EnableReflect)
  }

  /** The facts that have such a reason. */
  ghost function Founded(p: Program, entries: seq<FunctionRef>, b: Facts): Facts {
    var keep := set f | f in b.keep && KeptFor(p, entries, b, f);
    var receivers := set k | k in b.receivers && ReceiverFor(p, b, k);
    var requirements := set r | r in b.requirements && RequiredFor(p, b, r);
    Facts(keep, b.types, b.interfaces, receivers, requirements, b.reflect && ReflectedFor(p, b))
  }

  lemma FoundedBodies(p: Program, entries: seq<FunctionRef>, b: Facts)
    requires RootsIn(p, entries, b) && BodiesIn(p, b)
    ensures RootsIn(p, entries, Founded(p, entries, b)) && BodiesIn(p, Founded(p, entries, b))
  {
    var b' := Founded(p, entries, b);
    hide FunctionLeads, WantedBy, ReceiverFor, RequiredFor;
    forall own, f | own in p && f in p[own].functions && f.id == INIT
      ensures FunctionRef(own, INIT) in b'.keep
    {
      assert Initialises(p, FunctionRef(own, INIT));
    }
    forall f, e | f in b'.keep && FunctionLeads(p, f, e)
      ensures Holds(b', e)
    {
      assert Holds(b, e);
    }
  }

  lemma FoundedTypes(p: Program, entries: seq<FunctionRef>, b: Facts)
    requires TypesIn(p, b) && InterfacesIn(p, b)
    ensures TypesIn(p, Founded(p, entries, b)) && InterfacesIn(p, Founded(p, entries, b))
  {
    var b' := Founded(p, entries, b);
    hide KeptFor, ReflectedFor, Opens, Mentions, NamesType, TypeAsks, InterfaceLeads, InterfaceAsks;
    forall u | u in b'.types && u.modulePath in p
      ensures TypeIn(p[u.modulePath].table, b', u)
    {
      assert TypeIn(p[u.modulePath].table, b, u);
    }
    forall u | u in b'.interfaces && u.modulePath in p
      ensures InterfaceIn(p[u.modulePath].table, b', u)
    {
      assert InterfaceIn(p[u.modulePath].table, b, u);
    }
  }

  lemma FoundedMethods(p: Program, entries: seq<FunctionRef>, b: Facts)
    requires MethodsIn(p, b)
    ensures MethodsIn(p, Founded(p, entries, b))
  {
    var b' := Founded(p, entries, b);
    hide Backs, NamesType, FunctionLeads, ReceiverFor, RequiredFor, ReflectedFor, Initialises;
    forall own, node, d: Method, f, k | own in p && Backs(p, own, node, d, f) && NamesType(p[own].table, d.receiver, k)
      && k in b'.receivers && (b'.reflect || Requirement(d.name, d.signature.text) in b'.requirements)
      ensures f in b'.keep
    {
      assert WantedBy(p, b, f, own, node, d, k);
    }
  }

  /** Every fact of the least solution has a reason, and whatever has one is a fact. */
  lemma FactsFounded(p: Program, entries: seq<FunctionRef>, b: Facts)
    requires LeastByFields(p, entries, b)
    ensures forall f :: f in b.keep <==> KeptFor(p, entries, b, f)
    ensures forall k :: k in b.receivers <==> ReceiverFor(p, b, k)
    ensures forall r :: r in b.requirements <==> RequiredFor(p, b, r)
    ensures b.reflect <==> ReflectedFor(p, b)
  {
    FoundedBodies(p, entries, b);
    FoundedTypes(p, entries, b);
    FoundedMethods(p, entries, b);
    assert Below(b, Founded(p, entries, b)) by {
      hide RootsIn, BodiesIn, TypesIn, InterfacesIn, MethodsIn;
    }
    ReasonsHold(p, entries, b);
    hide LeastByFields, KeptFor, ReceiverFor, RequiredFor, ReflectedFor;
  }

  lemma ReasonsHold(p: Program, entries: seq<FunctionRef>, b: Facts)
    requires ClosedByFields(p, entries, b)
    ensures forall f | KeptFor(p, entries, b, f) :: f in b.keep
    ensures forall k | ReceiverFor(p, b, k) :: k in b.receivers
    ensures forall r | RequiredFor(p, b, r) :: r in b.requirements
    ensures ReflectedFor(p, b) ==> b.reflect
  {
    hide FunctionLeads, Backs, NamesType, Opens, Mentions, TypeAsks, InterfaceAsks, InterfaceLeads;
    forall k | ReceiverFor(p, b, k)
      ensures k in b.receivers
    {
      var u :| u in b.types && u.modulePath in p && NamesType(p[u.modulePath].table, u.t, k);
      assert TypeIn(p[u.modulePath].table, b, u);
    }
    forall r | RequiredFor(p, b, r)
      ensures r in b.requirements
    {
      if u :| u in b.types && u.modulePath in p && TypeAsks(p[u.modulePath].table, u.t, r) {
        assert TypeIn(p[u.modulePath].table, b, u);
      } else {
        var u :| u in b.interfaces && u.modulePath in p && InterfaceAsks(p[u.modulePath].table, u.t, r);
        assert InterfaceIn(p[u.modulePath].table, b, u);
      }
    }
    forall f | KeptFor(p, entries, b, f)
      ensures f in b.keep
    {
      if g :| g in b.keep && FunctionLeads(p, g, KeepFunction(f)) {
        assert Holds(b, KeepFunction(f));
      }
    }
    if ReflectedFor(p, b) {
      var f :| f in b.keep && FunctionLeads(p, f, EnableReflect);
      assert Holds(b, EnableReflect);
    }
  }
}
