/** Module closure, dependency order and the binding of requirement hashes. */
module LinkOrder {
  import opened Prelude
  import opened LinkTypes
  import opened LinkProgram
  import opened LinkPrune
  import opened Ordering

  // ----- the requirement graph -----

  /** The modules an artifact requires as source. */
  function Dependencies(rs: seq<Import>): seq<string> {
    if rs == [] then []
    else Dependencies(rs[..|rs| - 1]) + (if rs[|rs| - 1].kind == SOURCE then [rs[|rs| - 1].modulePath] else [])
  }

  function Requires(p: Program, m: string): seq<string> {
    if m in p then Dependencies(p[m].requirements) else []
  }

  /** Each module of the walk requires the next. */
  ghost predicate Walk(p: Program, walk: seq<string>) {
    forall i | 0 <= i < |walk| - 1 :: walk[i + 1] in Requires(p, walk[i])
  }

  ghost predicate Acyclic(p: Program) {
    forall walk: seq<string> | |walk| >= 2 && Walk(p, walk) :: walk[0] != walk[|walk| - 1]
  }

  /** Every required module is part of the program. */
  ghost predicate Complete(p: Program) {
    forall m, d | m in p && d in Requires(p, m) :: d in p
  }

  ghost predicate ReachesModule(p: Program, root: string, m: string) {
    exists walk: seq<string> :: |walk| >= 1 && Walk(p, walk) && walk[0] == root && walk[|walk| - 1] == m
  }

  lemma WalkStep(p: Program, root: string, m: string, d: string)
    requires ReachesModule(p, root, m) && d in Requires(p, m)
    ensures ReachesModule(p, root, d)
  {
    var walk: seq<string> :| |walk| >= 1 && Walk(p, walk) && walk[0] == root && walk[|walk| - 1] == m;
    assert Walk(p, walk + [d]);
    assert (walk + [d])[0] == root && (walk + [d])[|walk|] == d;
  }

  lemma {:induction false} ClosedHoldsWalk(p: Program, walk: seq<string>, s: set<string>)
    requires |walk| >= 1 && Walk(p, walk) && walk[0] in s
    requires forall m, d | m in s && d in Requires(p, m) :: d in s
    ensures walk[|walk| - 1] in s
    decreases |walk|
  {
    if |walk| > 1 {
      ClosedHoldsWalk(p, walk[..|walk| - 1], s);
      assert walk[|walk| - 1] in Requires(p, walk[|walk| - 2]);
    }
  }

  // ----- `retainReachableModules` -----

  /** The collecting loop over the requirements of one artifact. */
  method SourceModules(rs: seq<Import>) returns (paths: seq<string>)
    ensures paths == Dependencies(rs)
  {
    paths := [];
    var i := 0;
    while i < |rs|
      invariant 0 <= i <= |rs| && paths == Dependencies(rs[..i])
    {
      assert rs[..i + 1][..i] == rs[..i];
      if rs[i].kind == SOURCE {
        paths := paths + [rs[i].modulePath];
      }
      i := i + 1;
    }
    assert rs[..i] == rs;
  }

  /** What is queued or retained is reachable, and the requirements of what is retained are queued or retained. */
  ghost predicate ModulesSound(p: Program, root: string, retained: Program, queue: seq<string>, next: nat) {
    && next <= |queue|
    && (root in retained || root in queue[next..])
    && (forall m | m in retained :: m in p && retained[m] == p[m] && ReachesModule(p, root, m))
    && (forall m | m in queue[next..] :: ReachesModule(p, root, m))
    && (forall m, d | m in retained && d in Requires(p, m) :: d in retained || d in queue[next..])
  }

  /** Keeps exactly the modules reachable from the root; fails exactly when one of them is missing. */
  method RetainReachableModules(p: Program, root: string) returns (r: Option<Program>, ghost missing: string)
    ensures r.None? ==> ReachesModule(p, root, missing) && missing !in p
    ensures r.Some? ==> forall m :: m in r.value <==> ReachesModule(p, root, m)
    ensures r.Some? ==> forall m | m in r.value :: m in p && r.value[m] == p[m]
    ensures r.Some? ==> Complete(r.value)
  {
    hide ModulesSound, ReachesModule, Requires, Complete;
    var retained: Program, queue, next := map[], [root], 0;
    missing := root;
    ModulesStart(p, root);
    while next < |queue|
      invariant ModulesSound(p, root, retained, queue, next) && next <= |queue|
      decreases |p.Keys - retained.Keys|, |queue| - next
    {
      var m := queue[next];
      ModuleNext(p, root, retained, queue, next);
      if m in retained {
        next := next + 1;
      } else if m !in p {
        return None, m;
      } else {
        var dependencies := SourceModules(p[m].requirements);
        RequiresHere(p, m);
        ModuleTaken(p, root, retained, queue, next, dependencies);
        assert p.Keys - (retained.Keys + {m}) == (p.Keys - retained.Keys) - {m};
        retained, queue, next := retained[m := p[m]], queue + dependencies, next + 1;
      }
    }
    ModulesDone(p, root, retained, queue, next);
    r := Some(retained);
  }

  lemma RequiresHere(p: Program, m: string)
    requires m in p
    ensures Requires(p, m) == Dependencies(p[m].requirements)
  {
  }

  lemma ModulesStart(p: Program, root: string)
    ensures ModulesSound(p, root, map[], [root], 0)
  {
    assert Walk(p, [root]) && [root][0] == root;
    assert ReachesModule(p, root, root);
  }

  lemma ModuleNext(p: Program, root: string, retained: Program, queue: seq<string>, next: nat)
    requires ModulesSound(p, root, retained, queue, next) && next < |queue|
    ensures ReachesModule(p, root, queue[next])
    ensures queue[next] in retained ==> ModulesSound(p, root, retained, queue, next + 1)
    ensures forall m | m in retained :: m in p && retained[m] == p[m]
  {
    hide ReachesModule, Requires;
    assert queue[next..] == [queue[next]] + queue[next + 1..];
  }

  lemma ModuleTaken(p: Program, root: string, retained: Program, queue: seq<string>, next: nat,
      dependencies: seq<string>)
    requires ModulesSound(p, root, retained, queue, next) && next < |queue| && queue[next] in p
    requires queue[next] !in retained
    requires dependencies == Requires(p, queue[next])
    ensures ModulesSound(p, root, retained[queue[next] := p[queue[next]]], queue + dependencies, next + 1)
  {
    var m, queue' := queue[next], queue + dependencies;
    assert queue[next..] == [m] + queue[next + 1..];
    assert queue'[next + 1..] == queue[next + 1..] + dependencies;
    forall d | d in dependencies
      ensures ReachesModule(p, root, d)
    {
      WalkStep(p, root, m, d);
    }
  }

  lemma ModulesDone(p: Program, root: string, retained: Program, queue: seq<string>, next: nat)
    requires ModulesSound(p, root, retained, queue, next) && next == |queue|
    ensures forall m :: m in retained <==> ReachesModule(p, root, m)
    ensures forall m | m in retained :: m in p && retained[m] == p[m]
    ensures Complete(retained)
  {
    hide Walk;
    assert queue[next..] == [];
    RetainedComplete(p, retained);
    hide Complete, Requires;
    forall m | ReachesModule(p, root, m)
      ensures m in retained
    {
      var walk: seq<string> :| |walk| >= 1 && Walk(p, walk) && walk[0] == root && walk[|walk| - 1] == m;
      ClosedHoldsWalk(p, walk, retained.Keys);
    }
  }

  lemma RetainedComplete(p: Program, retained: Program)
    requires forall m | m in retained :: m in p && retained[m] == p[m]
    requires forall m, d | m in retained && d in Requires(p, m) :: d in retained
    ensures Complete(retained)
  {
    forall m | m in retained
      ensures Requires(retained, m) == Requires(p, m)
    {
    }
  }

  // ----- `dependencyOrder` -----

  function PathKey(s: string): seq<int> {
    seq(|s|, i requires 0 <= i < |s| => s[i] as int)
  }

  /** Every requirement of a listed module is listed before it. */
  ghost predicate Ordered(p: Program, order: seq<string>) {
    forall i, d | 0 <= i < |order| && d in Requires(p, order[i]) :: d in order[..i]
  }

  /** Coming back to a module that is still open closes a cycle. */
  lemma OpenIsCycle(p: Program, open: seq<string>, m: string)
    requires Walk(p, open + [m])
    ensures Acyclic(p) ==> m !in open
  {
    if m in open {
      var k :| 0 <= k < |open| && open[k] == m;
      var cycle := (open + [m])[k..];
      forall i | 0 <= i < |cycle| - 1
        ensures cycle[i + 1] in Requires(p, cycle[i])
      {
        assert (open + [m])[k + i + 1] in Requires(p, (open + [m])[k + i]);
      }
      assert Walk(p, cycle) && cycle[0] == cycle[|cycle| - 1];
    }
  }

  lemma WalkOn(p: Program, open: seq<string>, m: string, d: string)
    requires Walk(p, open + [m]) && d in Requires(p, m)
    ensures Walk(p, open + [m] + [d])
  {
    hide Requires;
    var walk := open + [m] + [d];
    forall i | 0 <= i < |walk| - 1
      ensures walk[i + 1] in Requires(p, walk[i])
    {
      if i < |open| {
        assert (open + [m])[i + 1] in Requires(p, (open + [m])[i]);
      }
    }
  }

  lemma CompleteStep(p: Program, m: string, d: string)
    requires m in p && d in Requires(p, m)
    ensures Complete(p) ==> d in p
  {
  }

  lemma OrderedAppend(p: Program, order: seq<string>, m: string)
    requires Ordered(p, order) && forall d | d in Requires(p, m) :: d in order
    ensures Ordered(p, order + [m])
  {
    hide Requires;
    var after := order + [m];
    forall i, d | 0 <= i < |after| && d in Requires(p, after[i])
      ensures d in after[..i]
    {
      assert after[..i] == order[..i];
    }
  }

  class DependencySearch {
    const p: Program
    var seen: set<string>
    var order: seq<string>

    constructor (p: Program)
      ensures this.p == p && seen == {} && order == []
    {
      this.p, seen, order := p, {}, [];
    }

    /** Seen modules of the program are listed or still open, and nothing is listed twice. */
    ghost predicate Sound(open: seq<string>)
      reads this
    {
      && Distinct(order)
      && (forall m | m in order :: m in p && m in seen && m !in open)
      && (forall m | m in open :: m in seen)
      && (forall m | m in seen && m in p :: m in order || m in open)
      && (Acyclic(p) && Complete(p) ==> Ordered(p, order))
    }

    /** One visit; `open` is the chain of modules whose visits are under way. */
    method Visit(m: string, ghost open: seq<string>)
      requires Sound(open) && Walk(p, open + [m])
      modifies this
      ensures Sound(open) && m in seen && old(seen) <= seen
      ensures Acyclic(p) && m in p ==> m in order
      ensures forall x | x in old(order) :: x in order
      decreases p.Keys - seen, 0
    {
      if m in seen {
        OpenIsCycle(p, open, m);
        return;
      }
      seen := seen + {m};
      if m !in p {
        return;
      }
      var found := SourceModules(p[m].requirements);
      var dependencies := Sort(found, PathKey);
      SortKeepsMembers(found, PathKey);
      VisitAll(m, dependencies, open);
      ListLast(m, open);
    }

    method VisitAll(m: string, dependencies: seq<string>, ghost open: seq<string>)
      requires Sound(open + [m]) && m in p && Walk(p, open + [m]) && forall d | d in dependencies :: d in Requires(p, m)
      modifies this
      ensures Sound(open + [m]) && old(seen) <= seen
      ensures forall x | x in old(order) :: x in order
      ensures Acyclic(p) && Complete(p) ==> forall d | d in dependencies :: d in order
      decreases p.Keys - seen, 1
    {
      hide Sound, Acyclic, Complete, Requires;
      var i := 0;
      while i < |dependencies|
        invariant 0 <= i <= |dependencies| && Sound(open + [m]) && old(seen) <= seen
        invariant forall x | x in old(order) :: x in order
        invariant Acyclic(p) && Complete(p) ==> forall j | 0 <= j < i :: dependencies[j] in order
      {
        assert dependencies[i] in dependencies;
        WalkOn(p, open, m, dependencies[i]);
        CompleteStep(p, m, dependencies[i]);
        Visit(dependencies[i], open + [m]);
        i := i + 1;
      }
    }

    method ListLast(m: string, ghost open: seq<string>)
      requires Sound(open + [m]) && m in p && m !in open
      requires Acyclic(p) && Complete(p) ==> forall d | d in Requires(p, m) :: d in order
      modifies this`order
      ensures Sound(open) && order == old(order) + [m]
    {
      assert m in open + [m];
      if Acyclic(p) && Complete(p) {
        OrderedAppend(p, order, m);
      }
      hide Ordered, Acyclic, Complete;
      order := order + [m];
    }

    /** The preferred modules first, then the rest in path order. */
    method Run(preferred: seq<string>)
      requires seen == {} && order == []
      modifies this
      ensures Distinct(order) && forall m :: m in order <==> m in p
      ensures Acyclic(p) && Complete(p) ==> Ordered(p, order)
    {
      VisitRoots(preferred);
      var rest := Remaining(p.Keys - seen);
      VisitRoots(rest);
      assert forall m | m in p :: m in seen;
    }

    method VisitRoots(roots: seq<string>)
      requires Sound([])
      modifies this
      ensures Sound([]) && old(seen) <= seen && forall m | m in roots :: m in seen
    {
      var i := 0;
      while i < |roots|
        invariant 0 <= i <= |roots| && Sound([]) && old(seen) <= seen
        invariant forall j | 0 <= j < i :: roots[j] in seen
      {
        assert Walk(p, [] + [roots[i]]);
        Visit(roots[i], []);
        i := i + 1;
      }
    }

    /** The unseen modules, collected in any order and sorted. */
    method Remaining(unseen: set<string>) returns (rest: seq<string>)
      ensures forall m :: m in rest <==> m in unseen
      ensures Ascending(rest, PathKey)
    {
      var left := unseen;
      rest := [];
      while left != {}
        invariant left <= unseen && forall m :: m in rest <==> m in unseen && m !in left
        decreases left
      {
        var m :| m in left;
        rest := rest + [m];
        left := left - {m};
      }
      SortKeepsMembers(rest, PathKey);
      SortSorts(rest, PathKey);
      rest := Sort(rest, PathKey);
    }
  }

  // ----- binding the hashes -----

  /** The hashing loop of `linkProgram`: it fails when a requirement has no hash yet. */
  method BindHashes(p: Program, order: seq<string>) returns (ok: bool)
    requires forall m | m in order :: m in p
    ensures ok <==> Ordered(p, order)
  {
    var hashed: set<string>, i := {}, 0;
    while i < |order|
      invariant 0 <= i <= |order| && (forall m :: m in hashed <==> m in order[..i])
      invariant forall k, d | 0 <= k < i && d in Requires(p, order[k]) :: d in order[..k]
    {
      var dependencies := SourceModules(p[order[i]].requirements);
      var j := 0;
      while j < |dependencies|
        invariant 0 <= j <= |dependencies| && forall k | 0 <= k < j :: dependencies[k] in order[..i]
      {
        if dependencies[j] !in hashed {
          assert dependencies[j] in Requires(p, order[i]);
          return false;
        }
        j := j + 1;
      }
      hashed := hashed + {order[i]};
      assert order[..i + 1] == order[..i] + [order[i]];
      i := i + 1;
    }
    ok := true;
  }

  ghost function Position(order: seq<string>, m: string): (i: nat)
    requires m in order
    ensures i < |order| && order[i] == m
  {
    var i :| 0 <= i < |order| && order[i] == m;
    i
  }

  /** Along a walk the position in a complete order strictly falls. */
  lemma {:induction false} WalkFalls(p: Program, order: seq<string>, walk: seq<string>)
    requires Ordered(p, order) && Distinct(order) && (forall m :: m in order <==> m in p)
    requires |walk| >= 2 && Walk(p, walk)
    ensures walk[0] in order && walk[|walk| - 1] in order
    ensures Position(order, walk[|walk| - 1]) < Position(order, walk[0])
    decreases |walk|
  {
    var n := |walk| - 1;
    assert walk[n] in Requires(p, walk[n - 1]);
    var at := Position(order, walk[n - 1]);
    assert walk[n] in order[..at];
    if n > 1 {
      WalkFalls(p, order, walk[..n]);
    }
  }

  /** An order of all modules with every requirement first exists only for a complete and acyclic program. */
  lemma OrderedOnlyIfAcyclic(p: Program, order: seq<string>)
    requires Ordered(p, order) && Distinct(order) && (forall m :: m in order <==> m in p)
    ensures Acyclic(p) && Complete(p)
  {
    forall walk: seq<string> | |walk| >= 2 && Walk(p, walk)
      ensures walk[0] != walk[|walk| - 1]
    {
      WalkFalls(p, order, walk);
    }
    forall m, d | m in p && d in Requires(p, m)
      ensures d in p
    {
      assert d in order[..Position(order, m)];
    }
  }

  /** Hash binding succeeds exactly on complete, acyclic programs, whatever modules are preferred. */
  method OrderAndBind(p: Program, preferred: seq<string>) returns (order: seq<string>, ok: bool)
    ensures Distinct(order) && forall m :: m in order <==> m in p
    ensures ok <==> Acyclic(p) && Complete(p)
  {
    var search := new DependencySearch(p);
    search.Run(preferred);
    order := search.order;
    ok := BindHashes(p, order);
    if ok {
      OrderedOnlyIfAcyclic(p, order);
    }
  }

  // ----- pruning and the requirement graph -----

  lemma {:induction false} DependenciesStay(p: Program, rs: seq<Import>, keep: set<FunctionRef>)
    ensures Dependencies(RewrittenImports(p, rs, keep)) == Dependencies(rs)
  {
    if rs != [] {
      var n := |rs| - 1;
      assert RewrittenImports(p, rs, keep)[..n] == RewrittenImports(p, rs[..n], keep);
      DependenciesStay(p, rs[..n], keep);
    }
  }

  /** Pruning functions leaves the requirement graph as it was. */
  lemma PruningKeepsGraph(p: Program, keep: set<FunctionRef>)
    ensures forall m :: Requires(Pruned(p, keep), m) == Requires(p, m)
    ensures Acyclic(Pruned(p, keep)) <==> Acyclic(p)
    ensures Complete(Pruned(p, keep)) <==> Complete(p)
  {
    forall m
      ensures Requires(Pruned(p, keep), m) == Requires(p, m)
    {
      if m in p {
        DependenciesStay(p, p[m].requirements, keep);
      }
    }
    assert Pruned(p, keep).Keys == p.Keys;
    hide Requires, Pruned;
    SameGraph(p, Pruned(p, keep));
  }

  lemma SameGraph(p: Program, q: Program)
    requires p.Keys == q.Keys && forall m :: Requires(q, m) == Requires(p, m)
    ensures Acyclic(q) <==> Acyclic(p)
    ensures Complete(q) <==> Complete(p)
  {
    hide Requires;
    forall walk: seq<string>
      ensures Walk(q, walk) <==> Walk(p, walk)
    {
    }
    hide Walk;
  }

  // ----- the stages of `linkProgram` -----

  datatype LinkOutcome =
    Linked(program: Program) | MissingModule | BadReference | NotRetained | BadAfterPruning | NoHash

  /**
    * Which stage stops a program: a missing module, a reference that does not link, a necessary function that is
    * broken or an artifact that cannot be rewritten, a necessary padded path with an unnecessary target, or a cycle
    * of requirements.
    */
  method Link(p: Program, root: string, entries: seq<FunctionRef>, preferred: seq<string>)
    returns (outcome: LinkOutcome, ghost modules: Program, ghost b: Facts)
    requires UniqueIds(p)
    ensures outcome == MissingModule <==> exists m :: ReachesModule(p, root, m) && m !in p
    ensures outcome != MissingModule ==> forall m :: m in modules <==> ReachesModule(p, root, m)
    ensures outcome != MissingModule ==> forall m | m in modules :: m in p && modules[m] == p[m]
    ensures outcome != MissingModule ==> (outcome == BadReference <==> !Links(modules))
    ensures outcome !in {MissingModule, BadReference} ==>
      (outcome == NotRetained <==>
        (exists f :: MustKeep(modules, entries, f) && Broken(modules, f)) || exists own ::
          own in modules && !Rewritable(modules[own]))
    ensures outcome !in {MissingModule, BadReference, NotRetained} ==> Least(modules, entries, b)
    ensures outcome !in {MissingModule, BadReference, NotRetained} ==>
      (outcome == BadAfterPruning <==> !PaddedTargetsNeeded(modules, entries))
    ensures outcome !in {MissingModule, BadReference, NotRetained, BadAfterPruning} ==>
      (outcome == NoHash <==> !Acyclic(modules))
    ensures outcome.Linked? ==> Acyclic(modules) && Links(outcome.program) && outcome.program == Pruned(modules, b.keep)
  {
    hide Links, Least, Acyclic, Pruned, PaddedTargetsNeeded, Broken, Rewritable, ReachesModule, MustKeep;
    b := Facts({}, {}, {}, {}, {}, false);
    modules := map[];
    var retained, missing := RetainReachableModules(p, root);
    if retained.None? {
      return MissingModule, modules, b;
    }
    modules := retained.value;
    UniqueBelow(p, modules);
    var ok := ValidateLinkedReferences(retained.value);
    if !ok {
      return BadReference, modules, b;
    }
    var pruned, facts := RetainReachableCode(retained.value, entries);
    b := facts;
    if pruned.None? {
      return NotRetained, modules, b;
    }
    LinksAfterPruningIff(modules, entries, b);
    ok := ValidateLinkedReferences(pruned.value);
    if !ok {
      return BadAfterPruning, modules, b;
    }
    PruningKeepsGraph(modules, b.keep);
    var order;
    order, ok := OrderAndBind(pruned.value, preferred);
    outcome := if ok then Linked(pruned.value) else NoHash;
  }

  lemma UniqueBelow(p: Program, q: Program)
    requires UniqueIds(p) && forall m | m in q :: m in p && q[m] == p[m]
    ensures UniqueIds(q)
  {
  }

  // ----- a program that only the second validation refuses -----

  lemma {:induction false} OnlyProgramModules(p: Program, root: string, m: string)
    requires root in p && Complete(p) && ReachesModule(p, root, m)
    ensures m in p
  {
    var walk: seq<string> :| |walk| >= 1 && Walk(p, walk) && walk[0] == root && walk[|walk| - 1] == m;
    ClosedHoldsWalk(p, walk, p.Keys);
  }

  lemma PaddedGraph()
    ensures Requires(PaddedProgram(), "main") == [LIB, PADDED] && Complete(PaddedProgram())
  {
    var rs := PaddedProgram()["main"].requirements;
    assert rs[..1] == [Import(SOURCE, LIB, [])] && rs[..1][..0] == [];
    assert Dependencies(rs[..1]) == [LIB];
  }

  lemma PaddedModules(modules: Program)
    requires forall m :: m in modules <==> ReachesModule(PaddedProgram(), "main", m)
    requires forall m | m in modules :: m in PaddedProgram() && modules[m] == PaddedProgram()[m]
    ensures modules == PaddedProgram()
  {
    PaddedGraph();
    hide Requires, Complete;
    var p := PaddedProgram();
    assert p.Keys == {"main", LIB, PADDED};
    assert ReachesModule(p, "main", "main") by {
      assert Walk(p, ["main"]);
    }
    WalkStep(p, "main", "main", LIB);
    WalkStep(p, "main", "main", PADDED);
    hide ReachesModule;
    assert modules.Keys == p.Keys;
  }

  /** Linking it passes every stage up to the second validation, which refuses it. */
  method PaddedPathBreaks(preferred: seq<string>) returns (outcome: LinkOutcome)
    ensures outcome == BadAfterPruning
  {
    PaddedLinks();
    PaddedTargetLost();
    PaddedGraph();
    forall f | MustKeep(PaddedProgram(), [RUN], f)
      ensures !Broken(PaddedProgram(), f)
    {
      PaddedUnbroken(f);
    }
    forall m | ReachesModule(PaddedProgram(), "main", m)
      ensures m in PaddedProgram()
    {
      OnlyProgramModules(PaddedProgram(), "main", m);
    }
    hide Links, Least, Acyclic, Pruned, PaddedTargetsNeeded, Broken, Rewritable, ReachesModule, MustKeep, Complete,
      UniqueIds;
    ghost var modules: Program, b: Facts;
    outcome, modules, b := Link(PaddedProgram(), "main", [RUN], preferred);
    if outcome != MissingModule {
      PaddedModules(modules);
    }
  }
}
