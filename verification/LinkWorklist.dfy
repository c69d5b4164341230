/** `retainReachableCode`: the worklist that finds the functions to keep. */
module LinkWorklist {
  import opened Prelude
  import opened LinkTypes
  import opened LinkProgram
  import opened LinkReach
  import opened LinkByFields

  /** Requirements grouped by method name, as a set. */
  ghost function RequirementSet(byName: map<string, set<string>>): set<Requirement> {
    set n, s | n in byName && s in byName[n] :: Requirement(n, s)
  }

  lemma RequirementAdded(byName: map<string, set<string>>, r: Requirement)
    ensures RequirementSet(byName[r.name := (if r.name in byName then byName[r.name] else {}) + {r.signature}])
         == RequirementSet(byName) + {r}
  {
  }

  /** The lists by method name hold declared methods of that name. */
  ghost predicate OnlyNamed(p: Program, ms: map<string, seq<MethodRef>>) {
    forall n, i | n in ms && 0 <= i < |ms[n]| :: Declares(p, ms[n][i]) && ms[n][i].name == n
  }

  /** The lists by receiver hold declared methods of that receiver. */
  ghost predicate OnlyReceived(p: Program, ms: map<TypeKey, seq<MethodRef>>) {
    forall k, i | k in ms && 0 <= i < |ms[k]| :: Declares(p, ms[k][i]) && ms[k][i].receiver == k && k.Complete()
  }

  lemma NamedAdded(p: Program, ms: map<string, seq<MethodRef>>, m: MethodRef)
    requires OnlyNamed(p, ms) && Declares(p, m)
    ensures var after := ms[m.name := (if m.name in ms then ms[m.name] else []) + [m]];
            OnlyNamed(p, after) && m in after[m.name] && forall n, o | n in ms && o in ms[n] ::
              n in after && o in after[n]
  {
    var list := (if m.name in ms then ms[m.name] else []) + [m];
    var after := ms[m.name := list];
    assert list[|list| - 1] == m;
    forall n, i | n in after && 0 <= i < |after[n]|
      ensures Declares(p, after[n][i]) && after[n][i].name == n
    {
      if n != m.name || i < |list| - 1 {
        assert after[n][i] == ms[n][i];
      }
    }
  }

  lemma ReceivedAdded(p: Program, ms: map<TypeKey, seq<MethodRef>>, m: MethodRef)
    requires OnlyReceived(p, ms) && Declares(p, m) && m.receiver.Complete()
    ensures var after := ms[m.receiver := (if m.receiver in ms then ms[m.receiver] else []) + [m]];
            OnlyReceived(p, after) && m in after[m.receiver] && forall k, o | k in ms && o in ms[k] ::
              k in after && o in after[k]
  {
    var list := (if m.receiver in ms then ms[m.receiver] else []) + [m];
    var after := ms[m.receiver := list];
    assert list[|list| - 1] == m;
    forall k, i | k in after && 0 <= i < |after[k]|
      ensures Declares(p, after[k][i]) && after[k][i].receiver == k && k.Complete()
    {
      if k != m.receiver || i < |list| - 1 {
        assert after[k][i] == ms[k][i];
      }
    }
  }

  class Reachability {
    const p: Program
    const entries: seq<FunctionRef>
    // methods by name and by receiver
    var methods: map<string, seq<MethodRef>>
    var methodsByReceiver: map<TypeKey, seq<MethodRef>>
    // the worklist
    var queue: seq<FunctionRef>
    var next: nat
    var queued: set<FunctionRef>
    var keep: set<FunctionRef>
    // what has been reached
    var types: set<TypeUse>
    var interfaces: set<TypeUse>
    var receivers: set<TypeKey>
    var requirements: map<string, set<string>>
    var reflect: bool

    constructor (p: Program, entries: seq<FunctionRef>)
      ensures this.p == p && this.entries == entries
      ensures methods == map[] && methodsByReceiver == map[] && queue == [] && next == 0 && queued == {} && keep == {}
      ensures types == {} && interfaces == {} && receivers == {} && requirements == map[] && !reflect
    {
      this.p, this.entries := p, entries;
      methods, methodsByReceiver, queue, next, queued, keep := map[], map[], [], 0, {}, {};
      types, interfaces, receivers, requirements, reflect := {}, {}, {}, map[], false;
    }

    ghost function Known(): set<FunctionRef>
      reads this`keep, this`queued
    {
      keep + queued
    }

    /** What has been recorded, counting queued functions as kept. */
    ghost function Found(): Facts
      reads this`keep, this`queued, this`types, this`interfaces, this`receivers, this`requirements, this`reflect
    {
      Facts(Known(), types, interfaces, receivers, RequirementSet(requirements), reflect)
    }

    ghost predicate QueueOk()
      reads this`queue, this`next, this`queued, this`keep
    {
      && next <= |queue| && Distinct(queue)
      && (forall f :: f in queued <==> f in queue[next..])
      && (forall f | f in queue[..next] :: f in keep)
      && (forall f | f in keep :: f in queue[..next])
    }

    /** The two method tables hold exactly the declared methods. */
    ghost predicate Indexed()
      reads this`methods, this`methodsByReceiver
    {
      && (forall m: MethodRef :: Declares(p, m) ==> m.name in methods && m in methods[m.name])
      && (forall m: MethodRef :: Declares(p, m) && m.receiver.Complete() ==>
            m.receiver in methodsByReceiver && m in methodsByReceiver[m.receiver])
      && OnlyNamed(p, methods) && OnlyReceived(p, methodsByReceiver)
    }

    /** Nothing recorded is superfluous, and every wanted method is queued or kept. */
    ghost predicate Sound()
      reads this
    {
      QueueOk() && Indexed() && Necessary(p, entries, Found()) && MethodsKept(p, Found())
    }

    method Enqueue(f: FunctionRef)
      requires QueueOk()
      modifies this`queue, this`queued
      ensures QueueOk() && Known() == old(Known()) + {f}
      ensures old(queue) <= queue
    {
      if f in keep || f in queued {
        return;
      }
      queued := queued + {f};
      queue := queue + [f];
      assert old(queue) == old(queue)[..next] + old(queue)[next..];
      assert queue[next..] == old(queue)[next..] + [f] && queue[..next] == old(queue)[..next];
    }

    /** Queues a declared method that the facts so far ask for. */
    method EnqueueWanted(m: MethodRef)
      requires QueueOk() && Necessary(p, entries, Found()) && Declares(p, m) && Wanted(Found(), m)
      modifies this`queue, this`queued
      ensures QueueOk() && Necessary(p, entries, Found()) && Known() == old(Known()) + {m.ref}
    {
      WantedForced(p, entries, Found(), m);
      ForcedKeep(p, entries, Found(), m.ref);
      ghost var a := Found();
      Enqueue(m.ref);
      assert Found() == a.(keep := a.keep + {m.ref});
    }

    /** The candidate loop of `requireInterfaceMethod`. */
    method EnqueueRequired(r: Requirement)
      requires QueueOk() && Indexed() && Necessary(p, entries, Found()) && r in Found().requirements
      modifies this`queue, this`queued
      ensures QueueOk() && Necessary(p, entries, Found()) && old(Known()) <= Known()
      ensures forall m | Declares(p, m) && m.name == r.name && m.signature == r.signature && m.receiver in receivers ::
        m.ref in Known()
    {
      hide Declares, Necessary, QueueOk, RequirementSet;
      if r.name !in methods {
        return;
      }
      var candidates := methods[r.name];
      var i := 0;
      while i < |candidates|
        invariant 0 <= i <= |candidates|
        invariant QueueOk() && Necessary(p, entries, Found()) && old(Known()) <= Known()
        invariant forall j | 0 <= j < i && candidates[j].signature == r.signature
          && candidates[j].receiver in receivers ::
          candidates[j].ref in Known()
      {
        var m := candidates[i];
        if m.signature == r.signature && m.receiver in receivers {
          EnqueueWanted(m);
        }
        i := i + 1;
      }
    }

    /** `requireInterfaceMethod`. */
    method RequireMethod(r: Requirement, ghost u: TypeUse)
      requires Sound() && Asked(p, Found(), u, r)
      modifies this`requirements, this`queue, this`queued
      ensures Sound() && Below(old(Found()), Found()) && r in Found().requirements
    {
      hide Declares, Necessary, QueueOk, RequirementSet, Indexed, MethodsKept, Asked;
      ghost var a := Found();
      RequirementForced(p, entries, a, u, r);
      RequirementAdded(requirements, r);
      requirements := requirements[r.name :=
        (if r.name in requirements then requirements[r.name] else {}) + {r.signature}];
      assert Found() == a.(requirements := a.requirements + {r});
      EnqueueRequired(r);
      RequirementMatched(p, a, r, Known());
    }

    /** The first part of a newly reachable receiver: all of its methods when reflection is on. */
    method EnqueueReflected(k: TypeKey)
      requires QueueOk() && Indexed() && Necessary(p, entries, Found()) && k in receivers && reflect
      modifies this`queue, this`queued
      ensures QueueOk() && Necessary(p, entries, Found()) && old(Known()) <= Known()
      ensures forall m | Declares(p, m) && m.receiver == k && k.Complete() :: m.ref in Known()
    {
      hide Declares, Necessary, QueueOk, RequirementSet;
      if k !in methodsByReceiver {
        return;
      }
      var candidates := methodsByReceiver[k];
      var i := 0;
      while i < |candidates|
        invariant 0 <= i <= |candidates|
        invariant QueueOk() && Necessary(p, entries, Found()) && old(Known()) <= Known()
        invariant forall j | 0 <= j < i :: candidates[j].ref in Known()
      {
        EnqueueWanted(candidates[i]);
        i := i + 1;
      }
    }

    /** The candidates of one required name that have the receiver. */
    method EnqueueNamed(name: string, k: TypeKey)
      requires QueueOk() && Indexed() && Necessary(p, entries, Found()) && k in receivers && name in requirements
      modifies this`queue, this`queued
      ensures QueueOk() && Necessary(p, entries, Found()) && old(Known()) <= Known()
      ensures forall m | Declares(p, m) && m.receiver == k && m.name == name && m.signature in requirements[name] ::
        m.ref in Known()
    {
      hide Declares, Necessary, QueueOk;
      if name !in methods {
        return;
      }
      var candidates := methods[name];
      var i := 0;
      while i < |candidates|
        invariant 0 <= i <= |candidates|
        invariant QueueOk() && Necessary(p, entries, Found()) && old(Known()) <= Known()
        invariant forall j | 0 <= j < i && candidates[j].receiver == k
          && candidates[j].signature in requirements[name] ::
          candidates[j].ref in Known()
      {
        var m := candidates[i];
        if m.receiver == k && m.signature in requirements[name] {
          assert Requirement(m.name, m.signature) in Found().requirements;
          EnqueueWanted(m);
        }
        i := i + 1;
      }
    }

    /** A newly reachable receiver meets the requirements found so far, in whatever order the names come. */
    method EnqueueReceiver(k: TypeKey)
      requires QueueOk() && Indexed() && Necessary(p, entries, Found()) && k in receivers
      modifies this`queue, this`queued
      ensures QueueOk() && Necessary(p, entries, Found()) && old(Known()) <= Known()
      ensures forall m | Declares(p, m) && m.receiver == k && Wanted(Found(), m) :: m.ref in Known()
    {
      if reflect {
        EnqueueReflected(k);
      }
      hide Declares, Necessary, QueueOk, Indexed;
      var names := requirements.Keys;
      while names != {}
        invariant names <= requirements.Keys
        invariant QueueOk() && Necessary(p, entries, Found()) && old(Known()) <= Known()
        invariant reflect ==> forall m | Declares(p, m) && m.receiver == k && k.Complete() :: m.ref in Known()
        invariant forall m | Declares(p, m) && m.receiver == k && m.name in requirements && m.name !in names
                             && m.signature in requirements[m.name] :: m.ref in Known()
        decreases names
      {
        var name :| name in names;
        EnqueueNamed(name, k);
        names := names - {name};
      }
    }

    /** A type visit reaches a receiver. */
    method AddReceiver(k: TypeKey, ghost u: TypeUse)
      requires Sound() && u in types && u.modulePath in p && Receiver(p[u.modulePath].table, u.t) == Some(k)
      modifies this`receivers, this`queue, this`queued
      ensures Sound() && Below(old(Found()), Found()) && k in receivers
    {
      hide Declares, RequirementSet, Indexed, QueueOk, Necessary;
      if k in receivers {
        return;
      }
      ghost var a := Found();
      ReceiverForced(p, entries, a, u, k);
      receivers := receivers + {k};
      assert Found() == a.(receivers := a.receivers + {k});
      EnqueueReceiver(k);
      ReceiverMatched(p, a, k, Known());
    }

    /** `enableReflectMethods`. */
    method EnableReflection()
      requires Sound() && Forced(p, entries, EnableReflect)
      modifies this`reflect, this`queue, this`queued
      ensures Sound() && Below(old(Found()), Found()) && reflect
    {
      hide Declares, RequirementSet, Indexed, QueueOk, Necessary, MethodsKept;
      if reflect {
        return;
      }
      ghost var a := Found();
      ReflectForced(p, entries, a);
      reflect := true;
      assert Found() == a.(reflect := true);
      var rest := receivers;
      while rest != {}
        invariant rest <= receivers && reflect
        invariant QueueOk() && Necessary(p, entries, Found()) && old(Known()) <= Known()
        invariant forall m | Declares(p, m) && m.receiver in receivers && m.receiver !in rest
          && m.receiver.Complete() :: m.ref in Known()
        decreases rest
      {
        var k :| k in rest;
        EnqueueReflected(k);
        rest := rest - {k};
      }
      ReflectMatched(p, a, Known());
    }

    // ----- type visits -----

    /** `enqueueReachableType`, one visit; the types in `open` are still being visited. */
    method VisitType(m: string, t: TypeRef, ghost open: set<TypeUse>)
      requires m in p && Sound() && TypesFollowed(p, Found(), open) && Forced(p, entries, ReachType(m, t))
      modifies this`types, this`receivers, this`requirements, this`queue, this`queued
      ensures Sound() && TypesFollowed(p, Found(), open)
      ensures Below(old(Found()), Found()) && Holds(Found(), ReachType(m, t))
      decreases Unseen(p[m].table, types, m), if t in p[m].table.Refs() then 0 else 1
    {
      var u := TypeUse(m, t);
      if !t.Valid() || u in types {
        return;
      }
      AddType(u, open);
      var table := p[m].table;
      ghost var added := Found();
      RequireAll(TypeRequirements(table, t), u);
      TypesGrow(p, added, Found(), open + {u});
      var receiver := Receiver(table, t);
      if receiver.Some? {
        VisitReceiver(receiver.value, u, open + {u});
      }
      var children := TypeChildren(table, t);
      TypeChildrenListed(table, t);
      var i := 0;
      while i < |children|
        invariant 0 <= i <= |children| && u in types && old(types) <= types
        invariant Sound() && TypesFollowed(p, Found(), open + {u}) && Below(old(Found()), Found())
        invariant TypeStarted(p, Found(), u, i)
      {
        TypeChildForced(p, entries, Found(), u, children[i]);
        UnseenShrinks(table, old(types), types, u);
        ghost var a := Found();
        VisitType(m, children[i], open + {u});
        TypeStartedGrows(p, a, Found(), u, i);
        i := i + 1;
      }
      TypeDone(p, Found(), u, open);
    }

    method AddType(u: TypeUse, ghost open: set<TypeUse>)
      requires Sound() && TypesFollowed(p, Found(), open) && Forced(p, entries, ReachType(u.modulePath, u.t))
      requires u.t.Valid()
      modifies this`types
      ensures Sound() && types == old(types) + {u} && TypesFollowed(p, Found(), open + {u})
      ensures Below(old(Found()), Found())
    {
      ghost var a := Found();
      TypeForced(p, entries, a, u);
      types := types + {u};
      assert Found() == a.(types := a.types + {u});
      TypesGrow(p, a, Found(), open + {u});
    }

    method RequireAll(rs: seq<Requirement>, ghost u: TypeUse)
      requires Sound() && forall r | r in rs :: Asked(p, Found(), u, r)
      modifies this`requirements, this`queue, this`queued
      ensures Sound() && Below(old(Found()), Found())
      ensures forall r | r in rs :: r in Found().requirements
    {
      var i := 0;
      while i < |rs|
        invariant 0 <= i <= |rs|
        invariant Sound() && Below(old(Found()), Found())
        invariant forall j | 0 <= j < i :: rs[j] in Found().requirements
      {
        assert rs[i] in rs;
        AskedGrows(p, old(Found()), Found(), u, rs[i]);
        RequireMethod(rs[i], u);
        i := i + 1;
      }
    }

    method VisitReceiver(k: TypeKey, ghost u: TypeUse, ghost open: set<TypeUse>)
      requires Sound() && TypesFollowed(p, Found(), open)
      requires u in types && u.modulePath in p && Receiver(p[u.modulePath].table, u.t) == Some(k)
      modifies this`receivers, this`queue, this`queued
      ensures Sound() && TypesFollowed(p, Found(), open) && Below(old(Found()), Found()) && k in receivers
    {
      AddReceiver(k, u);
      TypesGrow(p, old(Found()), Found(), open);
    }

    /** `enqueueInterfaceMethods`, one visit. */
    method VisitInterface(m: string, t: TypeRef, ghost open: set<TypeUse>)
      requires m in p && Sound() && InterfacesFollowed(p, Found(), open) && Forced(p, entries, ReachInterface(m, t))
      modifies this`interfaces, this`requirements, this`queue, this`queued
      ensures Sound() && InterfacesFollowed(p, Found(), open)
      ensures Below(old(Found()), Found()) && Holds(Found(), ReachInterface(m, t))
      decreases Unseen(p[m].table, interfaces, m), if t in p[m].table.Refs() then 0 else 1
    {
      var u := TypeUse(m, t);
      if !t.Valid() || u in interfaces {
        return;
      }
      AddInterface(u, open);
      var table := p[m].table;
      ghost var added := Found();
      RequireAll(InterfaceRequirements(table, t), u);
      InterfacesGrow(p, added, Found(), open + {u});
      var children := InterfaceChildren(table, t);
      InterfaceChildrenListed(table, t);
      var i := 0;
      while i < |children|
        invariant 0 <= i <= |children| && u in interfaces && old(interfaces) <= interfaces
        invariant Sound() && InterfacesFollowed(p, Found(), open + {u}) && Below(old(Found()), Found())
        invariant InterfaceStarted(p, Found(), u, i)
      {
        InterfaceChildForced(p, entries, Found(), u, children[i]);
        UnseenShrinks(table, old(interfaces), interfaces, u);
        ghost var a := Found();
        VisitInterface(m, children[i], open + {u});
        InterfaceStartedGrows(p, a, Found(), u, i);
        i := i + 1;
      }
      InterfaceDone(p, Found(), u, open);
    }

    method AddInterface(u: TypeUse, ghost open: set<TypeUse>)
      requires Sound() && InterfacesFollowed(p, Found(), open)
      requires Forced(p, entries, ReachInterface(u.modulePath, u.t)) && u.t.Valid()
      modifies this`interfaces
      ensures Sound() && interfaces == old(interfaces) + {u}
      ensures InterfacesFollowed(p, Found(), open + {u}) && Below(old(Found()), Found())
    {
      ghost var a := Found();
      InterfaceForced(p, entries, a, u);
      interfaces := interfaces + {u};
      assert Found() == a.(interfaces := a.interfaces + {u});
      InterfacesGrow(p, a, Found(), open + {u});
    }

    // ----- bodies -----

    /** Between two visits: nothing is half done. */
    ghost predicate Rested()
      reads this
    {
      Sound() && TypesFollowed(p, Found(), {}) && InterfacesFollowed(p, Found(), {})
    }

    /** Records one thing a body reaches. */
    method Apply(e: Effect)
      requires Rested() && Forced(p, entries, e)
      requires (e.ReachType? || e.ReachInterface?) ==> e.modulePath in p
      modifies this`types, this`interfaces, this`receivers, this`requirements, this`reflect, this`queue, this`queued
      ensures Rested() && Below(old(Found()), Found()) && Holds(Found(), e)
    {
      hide Sound, TypesFollowed, InterfacesFollowed, Forced;
      ghost var a := Found();
      match e {
        case ReachType(m, t) =>
          VisitType(m, t, {});
        case ReachInterface(m, t) =>
          VisitInterface(m, t, {});
        case KeepFunction(f) =>
          KeepOne(f);
        case EnableReflect =>
          EnableReflection();
      }
      if !e.ReachType? {
        TypesGrow(p, a, Found(), {});
      }
      if !e.ReachInterface? {
        InterfacesGrow(p, a, Found(), {});
      }
    }

    method KeepOne(f: FunctionRef)
      requires Sound() && Forced(p, entries, KeepFunction(f))
      modifies this`queue, this`queued
      ensures Sound() && Known() == old(Known()) + {f}
    {
      ghost var a := Found();
      ForcedKeep(p, entries, a, f);
      Enqueue(f);
      assert Found() == a.(keep := a.keep + {f});
    }

    method ApplyAll(effects: seq<Effect>)
      requires Rested() && forall i | 0 <= i < |effects| :: Forced(p, entries, effects[i])
      requires forall i | 0 <= i < |effects| ::
        (effects[i].ReachType? || effects[i].ReachInterface? ==> effects[i].modulePath in p)
      modifies this`types, this`interfaces, this`receivers, this`requirements, this`reflect, this`queue, this`queued
      ensures Rested() && Below(old(Found()), Found())
      ensures forall i | 0 <= i < |effects| :: Holds(Found(), effects[i])
    {
      hide Rested, Forced;
      var i := 0;
      while i < |effects|
        invariant 0 <= i <= |effects| && Rested() && Below(old(Found()), Found())
        invariant forall j | 0 <= j < i :: Holds(Found(), effects[j])
      {
        Apply(effects[i]);
        i := i + 1;
      }
    }

    /** The signature, locals, upvalues and code types of a body. */
    method FollowTypes(f: FunctionRef)
      requires Rested() && f in keep && Lookup(p, f).Some?
      modifies this`types, this`interfaces, this`receivers, this`requirements, this`reflect, this`queue, this`queued
      ensures Rested() && Below(old(Found()), Found())
      ensures forall t | t in Lookup(p, f).value.types :: Holds(Found(), ReachType(f.modulePath, t))
    {
      var refs := Lookup(p, f).value.types;
      var effects := ReachAll(f.modulePath, refs);
      forall i | 0 <= i < |effects|
        ensures Forced(p, entries, effects[i])
      {
        BodyForced(p, entries, Found(), f, effects[i]);
      }
      hide Rested, Forced, Lookup;
      ApplyAll(effects);
      forall t | t in refs
        ensures Holds(Found(), ReachType(f.modulePath, t))
      {
        var i :| 0 <= i < |refs| && refs[i] == t;
        assert Holds(Found(), effects[i]);
      }
    }

    /** The constant operands of a body. */
    method FollowConstants(f: FunctionRef) returns (ok: bool)
      requires Rested() && f in keep && Lookup(p, f).Some?
      modifies this`types, this`interfaces, this`receivers, this`requirements, this`reflect, this`queue, this`queued
      ensures Rested() && Below(old(Found()), Found())
      ensures ok ==> ConstantsFollowed(p, Found(), f, |Lookup(p, f).value.constants|)
      ensures !ok ==> Broken(p, f)
    {
      var body, own := Lookup(p, f).value, p[f.modulePath].constants;
      var i := 0;
      while i < |body.constants|
        invariant 0 <= i <= |body.constants| && Rested() && Below(old(Found()), Found())
        invariant ConstantsFollowed(p, Found(), f, i)
      {
        var c := body.constants[i];
        if |own| <= c {
          assert c in body.constants;
          return false;
        }
        FollowConstant(f, c);
        i := i + 1;
      }
      ok := true;
    }

    method FollowConstant(f: FunctionRef, c: nat)
      requires Rested() && f in keep && Lookup(p, f).Some? && c in Lookup(p, f).value.constants
      requires c < |p[f.modulePath].constants|
      modifies this`types, this`interfaces, this`receivers, this`requirements, this`reflect, this`queue, this`queued
      ensures Rested() && Below(old(Found()), Found())
      ensures Holds(Found(), ReachType(f.modulePath, p[f.modulePath].constants[c].t))
    {
      var e := ReachType(f.modulePath, p[f.modulePath].constants[c].t);
      assert BodyReaches(p, f, e);
      BodyForced(p, entries, Found(), f, e);
      Apply(e);
    }

    /** The instruction loop. */
    method FollowCode(f: FunctionRef) returns (ok: bool)
      requires Rested() && f in keep && Lookup(p, f).Some?
      modifies this`types, this`interfaces, this`receivers, this`requirements, this`reflect, this`queue, this`queued
      ensures Rested() && Below(old(Found()), Found())
      ensures ok ==> CodeFollowed(p, Found(), f, |Lookup(p, f).value.code|)
      ensures !ok ==> Broken(p, f)
    {
      hide Rested, Forced, InstructionEffects, Holds;
      var code := Lookup(p, f).value.code;
      var i := 0;
      while i < |code|
        invariant 0 <= i <= |code| && Rested() && Below(old(Found()), Found())
        invariant CodeFollowed(p, Found(), f, i)
      {
        ghost var a := Found();
        ok := FollowInstruction(f, code[i]);
        if !ok {
          return;
        }
        CodeGrows(p, a, Found(), f, i);
        i := i + 1;
      }
      ok := true;
    }

    method FollowInstruction(f: FunctionRef, op: Instruction) returns (ok: bool)
      requires Rested() && f in keep && Lookup(p, f).Some? && op in Lookup(p, f).value.code
      modifies this`types, this`interfaces, this`receivers, this`requirements, this`reflect, this`queue, this`queued
      ensures Rested() && Below(old(Found()), Found())
      ensures ok <==> InstructionEffects(p, f.modulePath, op).Some?
      ensures ok ==> forall e | e in EffectsOf(p, f.modulePath, op) :: Holds(Found(), e)
    {
      hide InstructionEffects, Rested;
      var effects := InstructionEffects(p, f.modulePath, op);
      if effects.None? {
        return false;
      }
      forall i | 0 <= i < |effects.value|
        ensures Forced(p, entries, effects.value[i])
        ensures effects.value[i].ReachType? || effects.value[i].ReachInterface? ==> effects.value[i].modulePath in p
      {
        var e := effects.value[i];
        assert e in EffectsOf(p, f.modulePath, op) && BodyReaches(p, f, e);
        NecessaryNow();
        BodyForced(p, entries, Found(), f, e);
        if e.ReachType? || e.ReachInterface? {
          EffectModules(p, f.modulePath, op, e);
        }
      }
      ApplyAll(effects.value);
      ok := true;
    }

    lemma NecessaryNow()
      requires Rested()
      ensures Necessary(p, entries, Found())
    {
    }

    /** One turn of the worklist for a function that exists. */
    method FollowBody(f: FunctionRef) returns (ok: bool)
      requires Rested() && f in keep && Lookup(p, f).Some?
      modifies this`types, this`interfaces, this`receivers, this`requirements, this`reflect, this`queue, this`queued
      ensures Rested() && Below(old(Found()), Found())
      ensures ok <==> !Broken(p, f)
      ensures ok ==> forall e | BodyReaches(p, f, e) :: Holds(Found(), e)
    {
      hide Rested, Holds, InstructionEffects;
      FollowTypes(f);
      ghost var a := Found();
      ok := FollowConstants(f);
      if !ok {
        return;
      }
      ghost var b := Found();
      ok := FollowCode(f);
      if !ok {
        return;
      }
      forall t | t in Lookup(p, f).value.types
        ensures Holds(Found(), ReachType(f.modulePath, t))
      {
        HoldsGrows(a, Found(), ReachType(f.modulePath, t));
      }
      ConstantsGrow(p, b, Found(), f, |Lookup(p, f).value.constants|);
      BodyFollowed(p, Found(), f);
    }

    // ----- the method tables -----

    ghost predicate Lists(m: MethodRef)
      reads this`methods, this`methodsByReceiver
    {
      && m.name in methods && m in methods[m.name]
      && (m.receiver.Complete() ==> m.receiver in methodsByReceiver && m in methodsByReceiver[m.receiver])
    }

    /** Nothing but declared methods is listed. */
    ghost predicate ListsOnlyDeclared()
      reads this`methods, this`methodsByReceiver
    {
      OnlyNamed(p, methods) && OnlyReceived(p, methodsByReceiver)
    }

    method ListMethod(m: MethodRef)
      requires ListsOnlyDeclared() && Declares(p, m)
      modifies this`methods, this`methodsByReceiver
      ensures ListsOnlyDeclared() && Lists(m) && forall o | old(Lists(o)) :: Lists(o)
    {
      hide Declares, OnlyNamed, OnlyReceived;
      NamedAdded(p, methods, m);
      methods := methods[m.name := (if m.name in methods then methods[m.name] else []) + [m]];
      if m.receiver.Complete() {
        ReceivedAdded(p, methodsByReceiver, m);
        methodsByReceiver := methodsByReceiver[m.receiver :=
          (if m.receiver in methodsByReceiver then methodsByReceiver[m.receiver] else []) + [m]];
      }
    }

    /** The methods of one defined type. */
    method ListType(own: string, node: TypeNode)
      requires own in p && DefinesType(p[own], node) && ListsOnlyDeclared()
      modifies this`methods, this`methodsByReceiver
      ensures ListsOnlyDeclared() && forall o | old(Lists(o)) :: Lists(o)
      ensures forall d, m | ListedAs(own, p[own], node, d, m) :: Lists(m)
    {
      var i := 0;
      while i < |node.methods|
        invariant 0 <= i <= |node.methods| && ListsOnlyDeclared() && forall o | old(Lists(o)) :: Lists(o)
        invariant forall j | 0 <= j < i && node.methods[j].functionID != "" ::
          Lists(MethodEntry(own, p[own].table, node.methods[j]))
      {
        var d := node.methods[i];
        if d.functionID != "" {
          assert ListedAs(own, p[own], node, d, MethodEntry(own, p[own].table, d));
          assert DeclaredIn(own, p[own], MethodEntry(own, p[own].table, d));
          ListMethod(MethodEntry(own, p[own].table, d));
        }
        i := i + 1;
      }
    }

    method ListModule(own: string)
      requires own in p && ListsOnlyDeclared()
      modifies this`methods, this`methodsByReceiver
      ensures ListsOnlyDeclared() && forall o | old(Lists(o)) :: Lists(o)
      ensures forall m | DeclaredIn(own, p[own], m) :: Lists(m)
    {
      hide Lists, ListsOnlyDeclared;
      var nodes := p[own].table.nodes;
      var i := 0;
      while i < |nodes|
        invariant 0 <= i <= |nodes| && ListsOnlyDeclared() && forall o | old(Lists(o)) :: Lists(o)
        invariant forall j, d, m | 0 <= j < i && ListedAs(own, p[own], nodes[j], d, m) :: Lists(m)
      {
        if DefinesType(p[own], nodes[i]) {
          ListType(own, nodes[i]);
        }
        i := i + 1;
      }
    }

    /** The loop over the modules, in any order: the method tables and the initializers. */
    method Prepare()
      requires methods == map[] && methodsByReceiver == map[] && queue == [] && next == 0 && queued == {} && keep == {}
      requires types == {} && interfaces == {} && receivers == {} && requirements == map[] && !reflect
      modifies this`methods, this`methodsByReceiver, this`queue, this`queued
      ensures Rested() && RootsKept(p, entries, Found())
      ensures keep == {}
    {
      ListModules();
      hide Indexed;
      EnqueueInits();
      EnqueueEntries();
    }

    method ListModules()
      requires methods == map[] && methodsByReceiver == map[]
      modifies this`methods, this`methodsByReceiver
      ensures Indexed()
    {
      hide Lists, DeclaredIn, Declares;
      var rest := p.Keys;
      while rest != {}
        invariant rest <= p.Keys && ListsOnlyDeclared()
        invariant forall own, m | own in p && own !in rest && DeclaredIn(own, p[own], m) :: Lists(m)
        decreases rest
      {
        var own :| own in rest;
        ListModule(own);
        rest := rest - {own};
      }
      AllListed();
    }

    method EnqueueInits()
      requires QueueOk() && Necessary(p, entries, Found())
      modifies this`queue, this`queued
      ensures QueueOk() && Necessary(p, entries, Found()) && old(Known()) <= Known()
      ensures forall own | own in p && FindFunction(p[own].functions, INIT).Some? :: FunctionRef(own, INIT) in Known()
    {
      var rest := p.Keys;
      while rest != {}
        invariant rest <= p.Keys && QueueOk() && Necessary(p, entries, Found()) && old(Known()) <= Known()
        invariant forall own | own in p && own !in rest && FindFunction(p[own].functions, INIT).Some? ::
          FunctionRef(own, INIT) in Known()
        decreases rest
      {
        var own :| own in rest;
        if FindFunction(p[own].functions, INIT).Some? {
          EnqueueRoot(FunctionRef(own, INIT));
        }
        rest := rest - {own};
      }
    }

    lemma AllListed()
      requires ListsOnlyDeclared() && forall own, m | own in p && DeclaredIn(own, p[own], m) :: Lists(m)
      ensures Indexed()
    {
      hide OnlyNamed, OnlyReceived, DeclaredIn;
      forall m: MethodRef | Declares(p, m)
        ensures Lists(m)
      {
        var own :| own in p && DeclaredIn(own, p[own], m);
      }
      hide Declares;
    }

    method EnqueueRoot(f: FunctionRef)
      requires QueueOk() && Necessary(p, entries, Found())
      requires f in entries || (f.modulePath in p && f.id == INIT
        && FindFunction(p[f.modulePath].functions, INIT).Some?)
      modifies this`queue, this`queued
      ensures QueueOk() && Necessary(p, entries, Found()) && Known() == old(Known()) + {f}
    {
      ghost var a := Found();
      RootForced(p, entries, f);
      ForcedKeep(p, entries, a, f);
      Enqueue(f);
      assert Found() == a.(keep := a.keep + {f});
    }

    method EnqueueEntries()
      requires QueueOk() && Necessary(p, entries, Found())
      modifies this`queue, this`queued
      ensures QueueOk() && Necessary(p, entries, Found()) && old(Known()) <= Known()
      ensures forall i | 0 <= i < |entries| :: entries[i] in Known()
    {
      var i := 0;
      while i < |entries|
        invariant 0 <= i <= |entries| && QueueOk() && Necessary(p, entries, Found()) && old(Known()) <= Known()
        invariant forall j | 0 <= j < i :: entries[j] in Known()
      {
        EnqueueRoot(entries[i]);
        i := i + 1;
      }
    }

    // ----- the worklist -----

    /** Takes the next reference off the queue and keeps it. */
    method Pop() returns (f: FunctionRef)
      requires QueueOk() && next < |queue|
      modifies this`next, this`queued, this`keep
      ensures QueueOk() && f == old(queue[next]) && f !in old(keep) && keep == old(keep) + {f}
      ensures Known() == old(Known())
      ensures next == old(next) + 1
    {
      f := queue[next];
      assert queue[next..] == [f] + queue[next + 1..] && queue[..next + 1] == queue[..next] + [f];
      queued := queued - {f};
      keep := keep + {f};
      next := next + 1;
    }

    /** Every body in `keep` is sound and followed. */
    ghost predicate Progress()
      reads this
    {
      && Rested() && RootsKept(p, entries, Found()) && BodiesFollowed(p, Found(), keep)
      && keep <= FunctionKeys(p) && forall f | f in keep :: !Broken(p, f)
    }

    /** One turn: fails exactly on a reference the linker must report. */
    method Turn() returns (ok: bool, ghost culprit: FunctionRef)
      requires Progress() && next < |queue|
      modifies this`next, this`queued, this`keep, this`types, this`interfaces, this`receivers, this`requirements,
        this`reflect, this`queue
      ensures ok ==> Progress() && next <= |queue| && |FunctionKeys(p) - keep| < old(|FunctionKeys(p) - keep|)
      ensures !ok ==> MustKeep(p, entries, culprit) && Broken(p, culprit)
    {
      hide Necessary, Closed, TypesFollowed, InterfacesFollowed, MethodsKept, BodyReaches, Broken;
      ghost var done, a := keep, Found();
      var f := Pop();
      assert Found() == a;
      culprit := f;
      KeptForced(p, entries, a, f);
      if Lookup(p, f).None? {
        MissingBroken(p, f);
        return false, f;
      }
      LookupKey(p, f);
      ok := FollowBody(f);
      if !ok {
        return;
      }
      BodiesGrow(p, a, Found(), done);
      assert FunctionKeys(p) - keep == (FunctionKeys(p) - done) - {f};
    }

    /**
      * The whole search. It succeeds exactly when no function that every solution keeps is broken, and then it has
      * found the least solution, whatever the order in which modules, receivers and requirements came.
      */
    method Run() returns (ok: bool, ghost culprit: FunctionRef)
      requires methods == map[] && methodsByReceiver == map[] && queue == [] && next == 0 && queued == {} && keep == {}
      requires types == {} && interfaces == {} && receivers == {} && requirements == map[] && !reflect
      modifies this
      ensures ok ==> Least(p, entries, Found()) && Found().keep == keep && forall f | f in keep :: !Broken(p, f)
      ensures ok ==> LeastByFields(p, entries, Found())
      ensures !ok ==> MustKeep(p, entries, culprit) && Broken(p, culprit)
    {
      hide Progress, Least, Broken, LeastByFields;
      Start();
      culprit := FunctionRef("", "");
      while next < |queue|
        invariant Progress() && next <= |queue|
        decreases |FunctionKeys(p) - keep|
      {
        ok, culprit := Turn();
        if !ok {
          return;
        }
      }
      Finished();
      LeastIsByFields(p, entries, Found());
      ok := true;
    }

    method Start()
      requires methods == map[] && methodsByReceiver == map[] && queue == [] && next == 0 && queued == {} && keep == {}
      requires types == {} && interfaces == {} && receivers == {} && requirements == map[] && !reflect
      modifies this`methods, this`methodsByReceiver, this`queue, this`queued
      ensures Progress() && next <= |queue|
    {
      Prepare();
      hide Broken, BodyReaches, Necessary, MethodsKept, TypesFollowed, InterfacesFollowed;
    }

    /** With an empty queue what has been found is the least solution. */
    lemma Finished()
      requires Progress() && next == |queue|
      ensures Least(p, entries, Found()) && Found().keep == keep && forall f | f in keep :: !Broken(p, f)
    {
      hide Broken, BodyReaches, Necessary, MethodsKept, TypesFollowed, InterfacesFollowed;
      assert queue[next..] == [];
      assert Found().keep == keep;
    }
  }

  lemma MissingBroken(p: Program, f: FunctionRef)
    requires Lookup(p, f).None?
    ensures Broken(p, f)
  {
  }
}
