/** The linker's worklist, as the fields and methods of one run. */
module LinkReach {
  import opened Prelude
  import opened LinkTypes
  import opened LinkProgram

  // ----- facts that every solution holds -----

  /** Every solution of the rules holds `e`. */
  ghost predicate Forced(p: Program, entries: seq<FunctionRef>, e: Effect) {
    forall b: Facts | Closed(p, entries, b) :: Holds(b, e)
  }

  lemma ForcedKeep(p: Program, entries: seq<FunctionRef>, a: Facts, f: FunctionRef)
    requires Necessary(p, entries, a) && Forced(p, entries, KeepFunction(f))
    ensures Necessary(p, entries, a.(keep := a.keep + {f}))
  {
    forall b: Facts | Closed(p, entries, b)
      ensures Below(a.(keep := a.keep + {f}), b)
    {
      assert Below(a, b) && Holds(b, KeepFunction(f));
    }
  }

  lemma WantedForced(p: Program, entries: seq<FunctionRef>, a: Facts, m: MethodRef)
    requires Necessary(p, entries, a) && Declares(p, m) && Wanted(a, m)
    ensures Forced(p, entries, KeepFunction(m.ref))
  {
    forall b: Facts | Closed(p, entries, b)
      ensures Holds(b, KeepFunction(m.ref))
    {
      assert Below(a, b) && Wanted(b, m);
    }
  }

  lemma KeptForced(p: Program, entries: seq<FunctionRef>, a: Facts, f: FunctionRef)
    requires Necessary(p, entries, a) && f in a.keep
    ensures Forced(p, entries, KeepFunction(f)) && MustKeep(p, entries, f)
  {
    forall b: Facts | Closed(p, entries, b)
      ensures Holds(b, KeepFunction(f)) && f in b.keep
    {
      assert Below(a, b);
    }
  }

  /** What the body of a necessary function reaches is necessary. */
  lemma BodyForced(p: Program, entries: seq<FunctionRef>, a: Facts, f: FunctionRef, e: Effect)
    requires Necessary(p, entries, a) && f in a.keep && BodyReaches(p, f, e)
    ensures Forced(p, entries, e)
  {
    forall b: Facts | Closed(p, entries, b)
      ensures Holds(b, e)
    {
      assert Below(a, b) && f in b.keep;
    }
  }

  lemma RootForced(p: Program, entries: seq<FunctionRef>, f: FunctionRef)
    requires f in entries || (f.modulePath in p && f.id == INIT && FindFunction(p[f.modulePath].functions, INIT).Some?)
    ensures Forced(p, entries, KeepFunction(f))
  {
    if f in entries {
      var i :| 0 <= i < |entries| && entries[i] == f;
    }
  }

  lemma TypeForced(p: Program, entries: seq<FunctionRef>, a: Facts, u: TypeUse)
    requires Necessary(p, entries, a) && Forced(p, entries, ReachType(u.modulePath, u.t)) && u.t.Valid()
    ensures Necessary(p, entries, a.(types := a.types + {u}))
  {
    forall b: Facts | Closed(p, entries, b)
      ensures Below(a.(types := a.types + {u}), b)
    {
      assert Below(a, b) && Holds(b, ReachType(u.modulePath, u.t));
    }
  }

  lemma TypeChildForced(p: Program, entries: seq<FunctionRef>, a: Facts, u: TypeUse, c: TypeRef)
    requires Necessary(p, entries, a) && u in a.types && u.modulePath in p
    requires c in TypeChildren(p[u.modulePath].table, u.t)
    ensures Forced(p, entries, ReachType(u.modulePath, c))
  {
    forall b: Facts | Closed(p, entries, b)
      ensures Holds(b, ReachType(u.modulePath, c))
    {
      assert Below(a, b) && u in b.types && TypeFollowed(p, b, u);
    }
  }

  lemma ReceiverForced(p: Program, entries: seq<FunctionRef>, a: Facts, u: TypeUse, k: TypeKey)
    requires Necessary(p, entries, a) && u in a.types && u.modulePath in p
    requires Receiver(p[u.modulePath].table, u.t) == Some(k)
    ensures Necessary(p, entries, a.(receivers := a.receivers + {k}))
  {
    forall b: Facts | Closed(p, entries, b)
      ensures Below(a.(receivers := a.receivers + {k}), b)
    {
      assert Below(a, b) && u in b.types && TypeFollowed(p, b, u);
    }
  }

  /** One of the visits asks for this method. */
  ghost predicate Asked(p: Program, a: Facts, u: TypeUse, r: Requirement) {
    && u.modulePath in p
    && ((u in a.types && r in TypeRequirements(p[u.modulePath].table, u.t))
        || (u in a.interfaces && r in InterfaceRequirements(p[u.modulePath].table, u.t)))
  }

  lemma AskedGrows(p: Program, a: Facts, b: Facts, u: TypeUse, r: Requirement)
    requires Asked(p, a, u, r) && Below(a, b)
    ensures Asked(p, b, u, r)
  {
  }

  lemma RequirementForced(p: Program, entries: seq<FunctionRef>, a: Facts, u: TypeUse, r: Requirement)
    requires Necessary(p, entries, a) && Asked(p, a, u, r)
    ensures Necessary(p, entries, a.(requirements := a.requirements + {r}))
  {
    forall b: Facts | Closed(p, entries, b)
      ensures Below(a.(requirements := a.requirements + {r}), b)
    {
      assert Below(a, b);
      if u in a.types && r in TypeRequirements(p[u.modulePath].table, u.t) {
        assert TypeFollowed(p, b, u);
      } else {
        assert InterfaceFollowed(p, b, u);
      }
    }
  }

  lemma InterfaceForced(p: Program, entries: seq<FunctionRef>, a: Facts, u: TypeUse)
    requires Necessary(p, entries, a) && Forced(p, entries, ReachInterface(u.modulePath, u.t)) && u.t.Valid()
    ensures Necessary(p, entries, a.(interfaces := a.interfaces + {u}))
  {
    forall b: Facts | Closed(p, entries, b)
      ensures Below(a.(interfaces := a.interfaces + {u}), b)
    {
      assert Below(a, b) && Holds(b, ReachInterface(u.modulePath, u.t));
    }
  }

  lemma InterfaceChildForced(p: Program, entries: seq<FunctionRef>, a: Facts, u: TypeUse, c: TypeRef)
    requires Necessary(p, entries, a) && u in a.interfaces && u.modulePath in p
    requires c in InterfaceChildren(p[u.modulePath].table, u.t)
    ensures Forced(p, entries, ReachInterface(u.modulePath, c))
  {
    forall b: Facts | Closed(p, entries, b)
      ensures Holds(b, ReachInterface(u.modulePath, c))
    {
      assert Below(a, b) && u in b.interfaces && InterfaceFollowed(p, b, u);
    }
  }

  lemma ReflectForced(p: Program, entries: seq<FunctionRef>, a: Facts)
    requires Necessary(p, entries, a) && Forced(p, entries, EnableReflect)
    ensures Necessary(p, entries, a.(reflect := true))
  {
    forall b: Facts | Closed(p, entries, b)
      ensures Below(a.(reflect := true), b)
    {
      assert Below(a, b) && Holds(b, EnableReflect);
    }
  }

  // ----- facts only grow -----

  lemma HoldsGrows(a: Facts, b: Facts, e: Effect)
    requires Below(a, b) && Holds(a, e)
    ensures Holds(b, e)
  {
  }

  lemma TypesGrow(p: Program, a: Facts, b: Facts, open: set<TypeUse>)
    requires TypesFollowed(p, a, open) && Below(a, b) && b.types - open <= a.types
    ensures TypesFollowed(p, b, open)
  {
    forall u | u in b.types && u !in open && u.modulePath in p
      ensures TypeFollowed(p, b, u)
    {
      assert TypeFollowed(p, a, u);
    }
  }

  lemma InterfacesGrow(p: Program, a: Facts, b: Facts, open: set<TypeUse>)
    requires InterfacesFollowed(p, a, open) && Below(a, b) && b.interfaces - open <= a.interfaces
    ensures InterfacesFollowed(p, b, open)
  {
    forall u | u in b.interfaces && u !in open && u.modulePath in p
      ensures InterfaceFollowed(p, b, u)
    {
      assert InterfaceFollowed(p, a, u);
    }
  }

  lemma BodiesGrow(p: Program, a: Facts, b: Facts, done: set<FunctionRef>)
    requires BodiesFollowed(p, a, done) && Below(a, b)
    ensures BodiesFollowed(p, b, done)
  {
    forall f, e | f in done && BodyReaches(p, f, e)
      ensures Holds(b, e)
    {
      HoldsGrows(a, b, e);
    }
  }

  ghost function SeenIn(uses: set<TypeUse>, m: string): set<TypeRef> {
    set u | u in uses && u.modulePath == m :: u.t
  }

  /** How many references of the table are still unseen. */
  ghost function Unseen(table: TypeTable, uses: set<TypeUse>, m: string): nat {
    |table.Refs() - SeenIn(uses, m)|
  }

  lemma UnseenShrinks(table: TypeTable, a: set<TypeUse>, b: set<TypeUse>, u: TypeUse)
    requires u !in a && a + {u} <= b
    ensures Unseen(table, b, u.modulePath) <= Unseen(table, a, u.modulePath)
    ensures u.t in table.Refs() ==> Unseen(table, b, u.modulePath) < Unseen(table, a, u.modulePath)
  {
    var before, after := table.Refs() - SeenIn(a, u.modulePath), table.Refs() - SeenIn(b, u.modulePath);
    assert after <= before;
    SubsetCount(after, before);
    if u.t in table.Refs() {
      assert u.t in before && u.t !in after;
      assert after <= before - {u.t};
      SubsetCount(after, before - {u.t});
    }
  }

  lemma SubsetCount<T>(a: set<T>, b: set<T>)
    requires a <= b
    ensures |a| <= |b|
  {
    assert b == a + (b - a);
  }

  ghost function FunctionKeys(p: Program): set<FunctionRef> {
    set m, i | m in p && 0 <= i < |p[m].functions| :: FunctionRef(m, p[m].functions[i].id)
  }

  lemma LookupKey(p: Program, f: FunctionRef)
    requires Lookup(p, f).Some?
    ensures f in FunctionKeys(p)
  {
    var body := Lookup(p, f).value;
    var i :| 0 <= i < |p[f.modulePath].functions| && p[f.modulePath].functions[i] == body;
  }

  // ----- wanted methods after one more fact -----

  lemma RequirementMatched(p: Program, a: Facts, r: Requirement, known: set<FunctionRef>)
    requires MethodsKept(p, a) && a.keep <= known
    requires forall m | Declares(p, m) && m.name == r.name && m.signature == r.signature && m.receiver in a.receivers ::
      m.ref in known
    ensures MethodsKept(p, a.(keep := known, requirements := a.requirements + {r}))
  {
  }

  lemma ReceiverMatched(p: Program, a: Facts, k: TypeKey, known: set<FunctionRef>)
    requires MethodsKept(p, a) && a.keep <= known
    requires forall m | Declares(p, m) && m.receiver == k && Wanted(a.(receivers := a.receivers + {k}), m) ::
      m.ref in known
    ensures MethodsKept(p, a.(keep := known, receivers := a.receivers + {k}))
  {
  }

  lemma ReflectMatched(p: Program, a: Facts, known: set<FunctionRef>)
    requires MethodsKept(p, a) && a.keep <= known
    requires forall m | Declares(p, m) && m.receiver in a.receivers && m.receiver.Complete() :: m.ref in known
    ensures MethodsKept(p, a.(keep := known, reflect := true))
  {
  }

  // ----- a type under visit -----

  /** The type's requirements and receiver are recorded, and its first `n` children are visited. */
  ghost predicate TypeStarted(p: Program, b: Facts, u: TypeUse, n: nat)
    requires u.modulePath in p
  {
    var table := p[u.modulePath].table;
    && n <= |TypeChildren(table, u.t)|
    && (Receiver(table, u.t).Some? ==> Receiver(table, u.t).value in b.receivers)
    && (forall r | r in TypeRequirements(table, u.t) :: r in b.requirements)
    && (forall i | 0 <= i < n :: Holds(b, ReachType(u.modulePath, TypeChildren(table, u.t)[i])))
  }

  lemma TypeStartedGrows(p: Program, a: Facts, b: Facts, u: TypeUse, n: nat)
    requires u.modulePath in p && TypeStarted(p, a, u, n) && Below(a, b)
    requires n < |TypeChildren(p[u.modulePath].table, u.t)|
    requires Holds(b, ReachType(u.modulePath, TypeChildren(p[u.modulePath].table, u.t)[n]))
    ensures TypeStarted(p, b, u, n + 1)
  {
  }

  lemma TypeDone(p: Program, b: Facts, u: TypeUse, open: set<TypeUse>)
    requires u.modulePath in p && TypeStarted(p, b, u, |TypeChildren(p[u.modulePath].table, u.t)|)
    requires TypesFollowed(p, b, open + {u})
    ensures TypesFollowed(p, b, open)
  {
    assert TypeFollowed(p, b, u);
  }

  ghost predicate InterfaceStarted(p: Program, b: Facts, u: TypeUse, n: nat)
    requires u.modulePath in p
  {
    var table := p[u.modulePath].table;
    && n <= |InterfaceChildren(table, u.t)|
    && (forall r | r in InterfaceRequirements(table, u.t) :: r in b.requirements)
    && (forall i | 0 <= i < n :: Holds(b, ReachInterface(u.modulePath, InterfaceChildren(table, u.t)[i])))
  }

  lemma InterfaceStartedGrows(p: Program, a: Facts, b: Facts, u: TypeUse, n: nat)
    requires u.modulePath in p && InterfaceStarted(p, a, u, n) && Below(a, b)
    requires n < |InterfaceChildren(p[u.modulePath].table, u.t)|
    requires Holds(b, ReachInterface(u.modulePath, InterfaceChildren(p[u.modulePath].table, u.t)[n]))
    ensures InterfaceStarted(p, b, u, n + 1)
  {
  }

  lemma InterfaceDone(p: Program, b: Facts, u: TypeUse, open: set<TypeUse>)
    requires u.modulePath in p && InterfaceStarted(p, b, u, |InterfaceChildren(p[u.modulePath].table, u.t)|)
    requires InterfacesFollowed(p, b, open + {u})
    ensures InterfacesFollowed(p, b, open)
  {
    assert InterfaceFollowed(p, b, u);
  }

  // ----- a body under scan -----

  lemma EffectModules(p: Program, own: string, op: Instruction, e: Effect)
    requires own in p && e in EffectsOf(p, own, op) && (e.ReachType? || e.ReachInterface?)
    ensures e.modulePath in p
  {
  }

  /** The first `n` constants of the body are in range and their types are reached. */
  ghost predicate ConstantsFollowed(p: Program, b: Facts, f: FunctionRef, n: nat)
    requires Lookup(p, f).Some? && n <= |Lookup(p, f).value.constants|
  {
    var body, a := Lookup(p, f).value, p[f.modulePath];
    forall i | 0 <= i < n ::
      body.constants[i] < |a.constants| && Holds(b, ReachType(f.modulePath, a.constants[body.constants[i]].t))
  }

  /** The first `n` instructions of the body are accepted and followed. */
  ghost predicate CodeFollowed(p: Program, b: Facts, f: FunctionRef, n: nat)
    requires Lookup(p, f).Some? && n <= |Lookup(p, f).value.code|
  {
    var body := Lookup(p, f).value;
    forall i | 0 <= i < n ::
      && InstructionEffects(p, f.modulePath, body.code[i]).Some?
      && (forall e | e in EffectsOf(p, f.modulePath, body.code[i]) :: Holds(b, e))
  }

  lemma ConstantsGrow(p: Program, a: Facts, b: Facts, f: FunctionRef, n: nat)
    requires Lookup(p, f).Some? && n <= |Lookup(p, f).value.constants| && Below(a, b) && ConstantsFollowed(p, a, f, n)
    ensures ConstantsFollowed(p, b, f, n)
  {
  }

  lemma CodeGrows(p: Program, a: Facts, b: Facts, f: FunctionRef, n: nat)
    requires Lookup(p, f).Some? && n <= |Lookup(p, f).value.code| && Below(a, b) && CodeFollowed(p, a, f, n)
    ensures CodeFollowed(p, b, f, n)
  {
    forall i, e | 0 <= i < n && e in EffectsOf(p, f.modulePath, Lookup(p, f).value.code[i])
      ensures Holds(b, e)
    {
      HoldsGrows(a, b, e);
    }
  }

  lemma BodyFollowed(p: Program, b: Facts, f: FunctionRef)
    requires Lookup(p, f).Some?
    requires forall t | t in Lookup(p, f).value.types :: Holds(b, ReachType(f.modulePath, t))
    requires ConstantsFollowed(p, b, f, |Lookup(p, f).value.constants|)
    requires CodeFollowed(p, b, f, |Lookup(p, f).value.code|)
    ensures !Broken(p, f) && forall e | BodyReaches(p, f, e) :: Holds(b, e)
  {
    hide InstructionEffects, Holds;
  }
}
