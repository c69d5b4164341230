/**
  * Ownership of exported resources in one local route set. Each locked region of a call, a drop, a result decision or
  * a cleanup is one step; a run is any list of steps.
  */
module Resources {
  import opened Prelude

  type Id = nat
  type Call = nat
  type WorkId = nat

  datatype Mode = Open | Draining | Cleaning | Closed

  /** A resource that has not been detached; the borrow count is the number of borrowers. */
  datatype Resource = Resource(active: bool, borrowers: set<WorkId>)

  /**
    * How far a thread is with the first resource of its list: not begun, attempt registered, or inside the resource's
    * own close.
    */
  datatype Phase = Idle | Claimed | Closing

  datatype Releaser = Releaser(todo: seq<Id>, phase: Phase)

  /**
    * What runs beside the others: a handler; a handler that has returned; one whose result is about to be published;
    * the release of a list of resources for a failed call, an abandoned result or a discarded one; a drop.
    */
  datatype Work =
    | Running(call: Call, borrows: set<Id>)
    | Returned(call: Call)
    | Snapped(call: Call)
    | Releasing(r: Releaser, owner: Option<Call>)
    | Dropping(r: Releaser)

  datatype Closer = Worker(w: WorkId) | Cleaner

  datatype State = State(
    mode: Mode, resources: map<Id, Resource>,
    // registered attempts: `false` while one is under way, `true` when it has failed and may be replaced
    attempts: map<Id, bool>,
    provisional: map<Call, seq<Id>>, order: seq<Id>,
    // what a successful result carries, and the results that are not finished
    objects: map<Call, seq<Id>>, owners: set<Call>,
    works: map<WorkId, Work>, settling: set<Id>, cleanup: Option<Releaser>, nextResource: Id,
    // history: close attempts made, successful closes, resources no list names any more, resources exported between a
    // result and its decision, calls started, calls decided or failed, workers used
    attempted: set<Id>, closed: set<Id>, lost: set<Id>, late: set<Id>, calls: set<Call>, decided: set<Call>,
      used: set<WorkId>)

  datatype Step =
    | StartCall(w: WorkId, call: Call, borrows: set<Id>, service: bool)
    | Export(call: Call)
    | ReturnBorrows(w: WorkId)
    | TakeResult(w: WorkId, failed: bool)
    | RejectResult(w: WorkId)
    | PublishResult(w: WorkId)
    | Decide(call: Call, w: WorkId, accept: bool)
    | ReleaseAbandoned(w: WorkId, call: Call)
    | Drop(w: WorkId, id: Id)
    | SettleDrop(id: Id)
    | BeginAttempt(who: Closer)
    | StartClose(who: Closer)
    | EndClose(who: Closer, ok: bool)
    | FinishWork(w: WorkId)
    | CloseSet
    | BeginCleanup(force: bool, list: seq<Id>)
    | EndCleanup

  function Initial(): State {
    State(Open, map[], map[], map[], [], map[], {}, map[], {}, None, 0, {}, {}, {}, {}, {}, {}, {})
  }

  predicate Accepting(m: Mode) {
    m == Open || m == Draining
  }

  /** The releasing part of a thread, if it has one. */
  function ReleaserOf(s: State, who: Closer): Option<Releaser> {
    match who
    case Cleaner => s.cleanup
    case Worker(w) => if w in s.works && (s.works[w].Releasing? || s.works[w].Dropping?) then Some(s.works[w].r)
      else None
  }

  function WithReleaser(s: State, who: Closer, r: Releaser): State
    requires ReleaserOf(s, who).Some?
  {
    match who
    case Cleaner => s.(cleanup := Some(r))
    case Worker(w) => s.(works := s.works[w := s.works[w].(r := r)])
  }

  predicate IsDrop(s: State, who: Closer) {
    who.Worker? && who.w in s.works && s.works[who.w].Dropping?
  }

  /** The thread has a resource to go on with, in this phase. */
  predicate Ready(s: State, who: Closer, phase: Phase) {
    ReleaserOf(s, who).Some? && ReleaserOf(s, who).value.todo != [] && ReleaserOf(s, who).value.phase == phase
  }

  function Head(s: State, who: Closer): Id
    requires ReleaserOf(s, who).Some? && ReleaserOf(s, who).value.todo != []
  {
    ReleaserOf(s, who).value.todo[0]
  }

  /** The waits of a cleanup: no counted work and no open result is left. */
  predicate Quiet(s: State) {
    s.works == map[] && s.owners == {}
  }

  function Without(xs: seq<Id>, id: Id): (r: seq<Id>)
    ensures forall x :: x in r <==> x in xs && x != id
  {
    if xs == [] then [] else (if xs[0] == id then [] else [xs[0]]) + Without(xs[1..], id)
  }

  function Provisional(s: State, c: Call): seq<Id> {
    if c in s.provisional then s.provisional[c] else []
  }

  /** Those of the identifiers that are still there. */
  function Present(ids: seq<Id>, resources: map<Id, Resource>): (r: seq<Id>)
    ensures forall x :: x in r <==> x in ids && x in resources
  {
    if ids == [] then [] else (if ids[0] in resources then [ids[0]] else []) + Present(ids[1..], resources)
  }

  /** The list a forced cleanup takes over: everything in order and everything provisional. */
  ghost predicate Snapshot(s: State, list: seq<Id>) {
    forall id :: id in list <==> id in s.order || exists c :: c in s.provisional && id in s.provisional[c]
  }

  // ----- the steps -----

  /** A call may borrow only active resources that no close attempt has claimed. */
  predicate Borrowable(s: State, ids: set<Id>) {
    forall id | id in ids :: id in s.resources && s.resources[id].active && id !in s.attempts
  }

  function Borrowed(s: State, ids: set<Id>, w: WorkId): map<Id, Resource> {
    map id | id in s.resources :: if id in ids then s.resources[id].(borrowers := s.resources[id].borrowers + {w})
      else s.resources[id]
  }

  function Given(s: State, ids: set<Id>, w: WorkId): map<Id, Resource> {
    map id | id in s.resources :: if id in ids then s.resources[id].(borrowers := s.resources[id].borrowers - {w})
      else s.resources[id]
  }

  function Activated(s: State, ids: seq<Id>): map<Id, Resource> {
    map id | id in s.resources :: if id in ids then s.resources[id].(active := true) else s.resources[id]
  }

  /** What the call exported and its result does not carry; nothing names these once the provisional list is deleted. */
  function Dropped(s: State, c: Call): set<Id>
    requires c in s.objects
  {
    if Accepting(s.mode) then set id | id in Provisional(s, c) && id !in s.objects[c] else {}
  }

  function Start(s: State, w: WorkId, c: Call, borrows: set<Id>, service: bool): State {
    if w in s.used || c in s.calls || !Borrowable(s, borrows)
      || !(if service then s.mode == Open else Accepting(s.mode)) then s
    else s.(resources := Borrowed(s, borrows, w), works := s.works[w := Running(c, borrows)], calls :=
      s.calls + {c}, used := s.used + {w})
  }

  /** An export is tied to its call for ever, not to the handler that runs it. */
  function ExportOne(s: State, c: Call): State {
    if c !in s.calls || !Accepting(s.mode) then s
    else
      var id := s.nextResource + 1;
      s.(nextResource := id, resources := s.resources[id := Resource(false, {})], provisional :=
        s.provisional[c := Provisional(s, c) + [id]],
      late := if c in s.objects && c !in s.decided then s.late + {id} else s.late)
  }

  function GiveBack(s: State, w: WorkId): State {
    if w !in s.works || !s.works[w].Running? then s
    else s.(resources := Given(s, s.works[w].borrows, w), works := s.works[w := Returned(s.works[w].call)])
  }

  /** A failed call releases what it exported; a successful one notes it for its result. */
  function Take(s: State, w: WorkId, failed: bool): State {
    if w !in s.works || !s.works[w].Returned? then s
    else
      var c := s.works[w].call;
      if failed then
        s.(provisional := s.provisional - {c}, decided := s.decided + {c}, works :=
          s.works[w := Releasing(Releaser(Provisional(s, c), Idle), None)])
      else s.(objects := s.objects[c := Provisional(s, c)], works := s.works[w := Snapped(c)])
  }

  /** A result that cannot be used is released again. */
  function Reject(s: State, w: WorkId): State {
    if w !in s.works || !s.works[w].Snapped? || s.works[w].call !in s.objects then s
    else
      var c := s.works[w].call;
      s.(provisional := s.provisional - {c}, lost := s.lost + Dropped(s, c), decided := s.decided + {c},
      works := s.works[w := Releasing(Releaser(s.objects[c], Idle), None)])
  }

  function Publish(s: State, w: WorkId): State {
    if w !in s.works || !s.works[w].Snapped? then s
      else s.(owners := s.owners + {s.works[w].call}, works := s.works - {w})
  }

  /**
    * Accepting activates the resources of the result; any other decision, and one that comes too late, releases them.
    */
  function DecideResult(s: State, c: Call, w: WorkId, accept: bool): State {
    if c !in s.owners || c !in s.objects || c in s.decided || w in s.used then s
    else if c !in s.provisional then s.(owners := s.owners - {c}, decided := s.decided + {c})
    else if accept && Accepting(s.mode) then
      s.(provisional := s.provisional - {c}, lost := s.lost + Dropped(s, c), decided := s.decided + {c}, owners :=
        s.owners - {c},
      resources := Activated(s, s.objects[c]), order := s.order + Present(s.objects[c], s.resources))
    else
      s.(provisional := s.provisional - {c}, lost := s.lost + Dropped(s, c), decided := s.decided + {c},
      works := s.works[w := Releasing(Releaser(s.objects[c], Idle), Some(c))], used := s.used + {w})
  }

  /** A decided result that nobody waits for is released. */
  function Abandon(s: State, w: WorkId, c: Call): State {
    if w in s.used || !Accepting(s.mode) || c !in s.objects || c !in s.decided then s
    else s.(works := s.works[w := Releasing(Releaser(s.objects[c], Idle), None)], used := s.used + {w})
  }

  function BeginDrop(s: State, w: WorkId, id: Id): State {
    if w in s.used || !Accepting(s.mode) || id !in s.resources || !s.resources[id].active
      || (id in s.attempts && !s.attempts[id]) then s
    else s.(attempts := s.attempts[id := false], works := s.works[w := Dropping(Releaser([id], Claimed))], used :=
      s.used + {w})
  }

  /** A failed drop reports only after its work is over. */
  function Settle(s: State, id: Id): State {
    if id !in s.settling then s
    else s.(settling := s.settling - {id}, attempts := if id in s.attempts then s.attempts[id := true] else s.attempts)
  }

  /**
    * The first resource of the list is claimed, or passed over if it is gone; an attempt under way makes the thread
    * wait.
    */
  function Begin(s: State, who: Closer): State {
    if !Ready(s, who, Idle) || (who.Cleaner? && !Quiet(s))
      || (Head(s, who) in s.attempts && !s.attempts[Head(s, who)]) then s
    else if Head(s, who) in s.resources
    then WithReleaser(s, who, ReleaserOf(s, who).value.(phase := Claimed)).(attempts :=
      s.attempts[Head(s, who) := false])
    else WithReleaser(s, who, Releaser(ReleaserOf(s, who).value.todo[1..], Idle))
  }

  /** The resource's own close starts when its last borrow has been given back. */
  function Enter(s: State, who: Closer): State {
    if !Ready(s, who, Claimed) || Head(s, who) !in s.resources || s.resources[Head(s, who)].borrowers != {} then s
    else WithReleaser(s, who, ReleaserOf(s, who).value.(phase := Closing)).(attempted := s.attempted + {Head(s, who)})
  }

  /** The thread goes on to the rest of its list; a drop is over. */
  function Advance(s: State, who: Closer): State
    requires ReleaserOf(s, who).Some? && ReleaserOf(s, who).value.todo != []
  {
    if IsDrop(s, who) then s.(works := s.works - {who.w})
    else WithReleaser(s, who, Releaser(ReleaserOf(s, who).value.todo[1..], Idle))
  }

  /**
    * The close has returned: a success or a failure during cleanup detaches the resource, any other failure keeps it
    * for a retry.
    */
  function End(s: State, who: Closer, ok: bool): State {
    if !Ready(s, who, Closing) then s
    else
      var id := Head(s, who);
      if ok || (!IsDrop(s, who) && !Accepting(s.mode)) then
        Advance(s, who).(resources := s.resources - {id}, attempts := s.attempts - {id}, order := Without(s.order, id),
        closed := if ok then s.closed + {id} else s.closed)
      else if IsDrop(s, who) then Advance(s, who).(settling := s.settling + {id})
      else Advance(s, who).(attempts := s.attempts[id := true], order := if id in s.order then s.order
        else s.order + [id])
  }

  function Finish(s: State, w: WorkId): State {
    if w !in s.works || !s.works[w].Releasing? || s.works[w].r.todo != [] then s
    else s.(works := s.works - {w}, owners := if s.works[w].owner.Some? then s.owners - {s.works[w].owner.value}
      else s.owners)
  }

  /** A forced cleanup takes the lists over; an idle route set has nothing left to release. */
  ghost function Clean(s: State, force: bool, list: seq<Id>): State {
    if !Accepting(s.mode) || (force && !Snapshot(s, list)) then s
    else if force then s.(mode := Cleaning, cleanup := Some(Releaser(list, Idle)))
    else if s.mode == Draining && (forall w | w in s.works :: s.works[w].Releasing?) && s.owners == {}
      && s.resources == map[]
    then s.(mode := Cleaning, cleanup := Some(Releaser([], Idle)))
    else s
  }

  function EndClean(s: State): State {
    if s.mode != Cleaning || s.cleanup.None? || s.cleanup.value.todo != [] || !Quiet(s) then s
    else s.(mode := Closed, resources := map[], attempts := map[], provisional := map[], order := [])
  }

  /** One step; a step that is not possible changes nothing. */
  ghost function Apply(s: State, step: Step): State {
    match step
    case StartCall(w, call, borrows, service) => Start(s, w, call, borrows, service)
    case Export(call) => ExportOne(s, call)
    case ReturnBorrows(w) => GiveBack(s, w)
    case TakeResult(w, failed) => Take(s, w, failed)
    case RejectResult(w) => Reject(s, w)
    case PublishResult(w) => Publish(s, w)
    case Decide(call, w, accept) => DecideResult(s, call, w, accept)
    case ReleaseAbandoned(w, call) => Abandon(s, w, call)
    case Drop(w, id) => BeginDrop(s, w, id)
    case SettleDrop(id) => Settle(s, id)
    case BeginAttempt(who) => Begin(s, who)
    case StartClose(who) => Enter(s, who)
    case EndClose(who, ok) => End(s, who, ok)
    case FinishWork(w) => Finish(s, w)
    case CloseSet => if s.mode == Open then s.(mode := Draining) else s
    case BeginCleanup(force, list) => Clean(s, force, list)
    case EndCleanup => EndClean(s)
  }

  ghost function Run(steps: seq<Step>): State {
    if steps == [] then Initial() else Apply(Run(steps[..|steps| - 1]), steps[|steps| - 1])
  }

  // ----- what every step keeps -----

  /** Identifiers and workers come from where the steps put them. */
  ghost predicate Named(s: State) {
    && (forall id | id in s.resources || id in s.attempted :: 0 < id <= s.nextResource)
    && s.works.Keys <= s.used
    && (s.cleanup.Some? <==> !Accepting(s.mode))
    && s.attempts.Keys <= s.resources.Keys
    && s.closed <= s.attempted && s.closed !! s.resources.Keys
    && (s.mode == Closed ==> Quiet(s) && s.cleanup.Some? && s.cleanup.value.todo == [] && s.resources == map[])
    && (forall w | w in s.works && s.works[w].Dropping? :: |s.works[w].r.todo| == 1 && s.works[w].r.phase != Idle)
  }

  /** Borrowers of a resource are exactly the handlers that borrow it, and what they borrow is still there. */
  ghost predicate BorrowsMatch(s: State) {
    && (forall w, id | w in s.works && s.works[w].Running? && id in s.works[w].borrows ::
      id in s.resources && w in s.resources[id].borrowers)
    && (forall w, id | id in s.resources && w in s.resources[id].borrowers ::
      w in s.works && s.works[w].Running? && id in s.works[w].borrows)
  }

  function Todo(s: State, who: Closer): seq<Id> {
    if ReleaserOf(s, who).Some? then ReleaserOf(s, who).value.todo else []
  }

  function PhaseOf(s: State, who: Closer): Phase {
    if Todo(s, who) != [] then ReleaserOf(s, who).value.phase else Idle
  }

  /** The resource a thread is at; identifiers start at one. */
  function Current(s: State, who: Closer): Id {
    if Todo(s, who) != [] then Todo(s, who)[0] else 0
  }

  /** An attempt under way belongs to one thread, or to a drop that has still to report its failure. */
  ghost predicate AttemptsMatch(s: State) {
    && (forall who | PhaseOf(s, who) != Idle ::
      Current(s, who) in s.attempts && !s.attempts[Current(s, who)] && Current(s, who) !in s.settling)
    && (forall a, b | PhaseOf(s, a) != Idle && PhaseOf(s, b) != Idle && Current(s, a) == Current(s, b) :: a == b)
    && (forall id | id in s.settling && s.mode != Closed :: id in s.attempts && !s.attempts[id])
  }

  /** Nobody borrows a resource that is being closed. */
  ghost predicate ClosingUnborrowed(s: State) {
    forall who | PhaseOf(s, who) == Closing ::
      Current(s, who) in s.resources && s.resources[Current(s, who)].borrowers == {} && Current(s, who) in s.attempted
  }

  predicate InCall(work: Work) {
    work.Running? || work.Returned? || work.Snapped?
  }

  /** One handler per call, and its result is taken, published and decided in that order. */
  ghost predicate Staged(s: State) {
    && (forall w | w in s.works && InCall(s.works[w]) ::
          s.works[w].call in s.calls && s.works[w].call !in s.decided && s.works[w].call !in s.owners
            && (s.works[w].call in s.objects <==> s.works[w].Snapped?))
    && (forall v, w | v in s.works && w in s.works && InCall(s.works[v]) && InCall(s.works[w])
      && s.works[v].call == s.works[w].call :: v == w)
    && s.owners <= s.objects.Keys <= s.calls && s.decided <= s.calls && s.provisional.Keys <= s.calls
  }

  /** A provisional resource is known to its call only: nothing releases, drops or lists it. */
  ghost predicate Apart(s: State, c: Call, id: Id) {
    && id in s.resources && !s.resources[id].active && id !in s.order && id !in s.attempted && id !in s.attempts
    && id !in s.lost
    && (forall who :: id !in Todo(s, who))
    && (forall d | d in s.provisional && id in s.provisional[d] :: d == c)
    && (forall d | d in s.objects && id in s.objects[d] :: d == c && c !in s.decided)
  }

  ghost predicate ProvisionalApart(s: State) {
    Accepting(s.mode) ==> forall c, id | c in s.provisional && id in s.provisional[c] :: Apart(s, c, id)
  }

  /** Nothing names the resource. */
  ghost predicate Forgotten(s: State, id: Id) {
    && 0 < id <= s.nextResource && id !in s.order && id !in s.attempted && id !in s.attempts
    && (id in s.resources ==> !s.resources[id].active)
    && (forall who :: id !in Todo(s, who))
    && (forall c | c in s.provisional :: id !in s.provisional[c])
    && (forall c | c in s.objects :: id !in s.objects[c])
  }

  ghost predicate LostApart(s: State) {
    forall id | id in s.lost :: Forgotten(s, id)
  }

  /** What a result carries existed when it was taken. */
  ghost predicate ObjectsNamed(s: State) {
    && (forall c, id | c in s.objects && id in s.objects[c] :: 0 < id <= s.nextResource)
    && (forall who, id | id in Todo(s, who) :: 0 < id <= s.nextResource)
    && (forall id | id in s.order :: 0 < id <= s.nextResource)
    && (forall c, id | c in s.provisional && id in s.provisional[c] :: 0 < id <= s.nextResource)
  }

  /** Only an export between a result and its decision is missing from the result. */
  ghost predicate LateOnly(s: State) {
    && s.lost <= s.late
    && (forall c, id | c in s.objects && c !in s.decided && c in s.provisional && id in s.provisional[c]
      && id !in s.objects[c] :: id in s.late)
  }

  /** Some list that a release or a cleanup will go through names the resource. */
  ghost predicate Tracked(s: State, id: Id) {
    || (exists who :: id in Todo(s, who))
    || (Accepting(s.mode) && (id in s.order || exists c :: c in s.provisional && id in s.provisional[c]))
  }

  /** Every resource has had a close attempt, is lost, or is still there and on some list. */
  ghost predicate Accounted(s: State) {
    forall id | 0 < id <= s.nextResource && id !in s.attempted && id !in s.lost :: id in s.resources && Tracked(s, id)
  }

  ghost predicate Threads(s: State) {
    Named(s) && BorrowsMatch(s) && Staged(s)
  }

  ghost predicate Attempting(s: State) {
    AttemptsMatch(s) && ClosingUnborrowed(s)
  }

  ghost predicate Lists(s: State) {
    ProvisionalApart(s) && LostApart(s) && ObjectsNamed(s) && LateOnly(s) && Accounted(s)
  }

  ghost predicate Inv(s: State) {
    Threads(s) && Attempting(s) && Lists(s)
  }

  // ----- how a step changes the threads that release something -----

  ghost predicate SameReleasers(s: State, t: State) {
    forall who :: Todo(t, who) == Todo(s, who) && PhaseOf(t, who) == PhaseOf(s, who)
      && Current(t, who) == Current(s, who)
  }

  ghost predicate OneReleaser(s: State, t: State, one: Closer, todo: seq<Id>, phase: Phase) {
    && Todo(t, one) == todo && PhaseOf(t, one) == phase && Current(t, one) == (if todo == [] then 0 else todo[0])
    && (forall who | who != one ::
      Todo(t, who) == Todo(s, who) && PhaseOf(t, who) == PhaseOf(s, who) && Current(t, who) == Current(s, who))
  }

  /** What a step may do beside the attempts: nothing claimed goes away, is borrowed again or gets settled. */
  ghost predicate SameAttempts(s: State, t: State) {
    && t.attempts == s.attempts && t.settling == s.settling && (s.mode == Closed ==> t.mode == Closed)
    && s.attempted <= t.attempted
    && (forall id | id in s.resources && id in s.attempts && s.resources[id].borrowers == {} ::
      id in t.resources && t.resources[id].borrowers == {})
  }

  ghost predicate SameLists(s: State, t: State) {
    && Accepting(t.mode) == Accepting(s.mode) && t.provisional == s.provisional && t.order == s.order
    && t.objects == s.objects
    && t.lost == s.lost && t.late == s.late && t.decided == s.decided && t.attempted == s.attempted
    && t.nextResource == s.nextResource
    && t.resources.Keys == s.resources.Keys
    && (forall id | id in s.resources :: t.resources[id].active == s.resources[id].active)
    && t.attempts.Keys == s.attempts.Keys
  }

  lemma AttemptsCarry(s: State, t: State)
    requires Attempting(s) && SameReleasers(s, t) && SameAttempts(s, t)
    ensures Attempting(t)
  {
  }

  /** A thread that takes up a new list has claimed nothing yet. */
  lemma AttemptsJoin(s: State, t: State, who: Closer, todo: seq<Id>)
    requires Attempting(s) && OneReleaser(s, t, who, todo, Idle) && SameAttempts(s, t)
    ensures Attempting(t)
  {
  }

  lemma ListsCarry(s: State, t: State)
    requires Lists(s) && SameReleasers(s, t) && SameLists(s, t)
    ensures Lists(t)
  {
    forall id | 0 < id <= t.nextResource && id !in t.attempted && id !in t.lost
      ensures id in t.resources && Tracked(t, id)
    {
      assert Tracked(s, id);
    }
  }

  // ----- calls -----

  lemma StartBorrows(s: State, w: WorkId, c: Call, borrows: set<Id>, service: bool)
    requires Named(s) && BorrowsMatch(s)
    ensures BorrowsMatch(Start(s, w, c, borrows, service))
  {
  }

  lemma StartStaged(s: State, w: WorkId, c: Call, borrows: set<Id>, service: bool)
    requires Named(s) && Staged(s)
    ensures Named(Start(s, w, c, borrows, service)) && Staged(Start(s, w, c, borrows, service))
  {
  }

  lemma StartReleasers(s: State, w: WorkId, c: Call, borrows: set<Id>, service: bool)
    requires Named(s)
    ensures SameReleasers(s, Start(s, w, c, borrows, service))
  {
  }

  /** What a new call borrows is not claimed by any attempt. */
  lemma StartSame(s: State, w: WorkId, c: Call, borrows: set<Id>, service: bool)
    ensures SameAttempts(s, Start(s, w, c, borrows, service)) && SameLists(s, Start(s, w, c, borrows, service))
  {
  }

  lemma StartKeeps(s: State, w: WorkId, c: Call, borrows: set<Id>, service: bool)
    requires Inv(s)
    ensures Inv(Start(s, w, c, borrows, service))
  {
    StartBorrows(s, w, c, borrows, service);
    StartStaged(s, w, c, borrows, service);
    StartReleasers(s, w, c, borrows, service);
    StartSame(s, w, c, borrows, service);
    hide Named, BorrowsMatch, Staged, Attempting, Lists, SameReleasers, SameAttempts, SameLists, Start;
    AttemptsCarry(s, Start(s, w, c, borrows, service));
    ListsCarry(s, Start(s, w, c, borrows, service));
  }

  lemma GiveBackBorrows(s: State, w: WorkId)
    requires BorrowsMatch(s)
    ensures BorrowsMatch(GiveBack(s, w))
  {
  }

  lemma GiveBackStaged(s: State, w: WorkId)
    requires Named(s) && Staged(s)
    ensures Named(GiveBack(s, w)) && Staged(GiveBack(s, w))
  {
  }

  lemma GiveBackReleasers(s: State, w: WorkId)
    ensures SameReleasers(s, GiveBack(s, w))
  {
  }

  lemma GiveBackSame(s: State, w: WorkId)
    ensures SameAttempts(s, GiveBack(s, w)) && SameLists(s, GiveBack(s, w))
  {
  }

  lemma GiveBackKeeps(s: State, w: WorkId)
    requires Inv(s)
    ensures Inv(GiveBack(s, w))
  {
    GiveBackBorrows(s, w);
    GiveBackStaged(s, w);
    GiveBackReleasers(s, w);
    GiveBackSame(s, w);
    hide Named, BorrowsMatch, Staged, Attempting, Lists, SameReleasers, SameAttempts, SameLists, GiveBack;
    AttemptsCarry(s, GiveBack(s, w));
    ListsCarry(s, GiveBack(s, w));
  }

  lemma ExportThreads(s: State, c: Call)
    requires Threads(s)
    ensures Threads(ExportOne(s, c))
  {
  }

  lemma ExportApart(s: State, c: Call, d: Call, id: Id)
    requires Named(s) && Lists(s) && c in s.calls && Accepting(s.mode)
    requires var t := ExportOne(s, c); d in t.provisional && id in t.provisional[d]
    ensures Apart(ExportOne(s, c), d, id)
  {
    var t := ExportOne(s, c);
    assert SameReleasers(s, t);
    if id != t.nextResource {
      assert Apart(s, d, id);
    }
  }

  lemma ExportForgotten(s: State, c: Call, id: Id)
    requires Forgotten(s, id)
    ensures Forgotten(ExportOne(s, c), id)
  {
    assert SameReleasers(s, ExportOne(s, c));
  }

  lemma ExportLists(s: State, c: Call)
    requires Named(s) && Staged(s) && Lists(s)
    ensures Lists(ExportOne(s, c))
  {
    var t := ExportOne(s, c);
    if t != s {
      assert SameReleasers(s, t);
      hide Apart, Forgotten;
      forall d, id | d in t.provisional && id in t.provisional[d]
        ensures Apart(t, d, id)
      {
        ExportApart(s, c, d, id);
      }
      forall id | id in t.lost
        ensures Forgotten(t, id)
      {
        ExportForgotten(s, c, id);
      }
      forall id | 0 < id <= t.nextResource && id !in t.attempted && id !in t.lost
        ensures id in t.resources && Tracked(t, id)
      {
        if id == t.nextResource {
          assert id in t.provisional[c];
        } else {
          assert Tracked(s, id);
          if d :| d in s.provisional && id in s.provisional[d] {
            assert d in t.provisional && id in t.provisional[d];
          }
        }
      }
    }
  }

  lemma ExportKeeps(s: State, c: Call)
    requires Inv(s)
    ensures Inv(ExportOne(s, c))
  {
    var t := ExportOne(s, c);
    assert SameReleasers(s, t);
    assert SameAttempts(s, t);
    ExportThreads(s, c);
    ExportLists(s, c);
    AttemptsCarry(s, t);
  }

  /** A call is over: its provisional list goes, and a thread starts to release some of what it exported. */
  ghost predicate Released(s: State, t: State, w: WorkId, c: Call, ids: seq<Id>) {
    && t.mode == s.mode && t.resources == s.resources && t.attempts == s.attempts && t.order == s.order
    && t.objects == s.objects && t.settling == s.settling
    && t.attempted == s.attempted && t.nextResource == s.nextResource && t.late == s.late
    && t.decided == s.decided + {c}
    && t.provisional == s.provisional - {c} && Todo(s, Worker(w)) == [] && OneReleaser(s, t, Worker(w), ids, Idle)
    && (forall id | id in ids :: id in Provisional(s, c) || (c in s.objects && id in s.objects[c]))
    && t.lost == s.lost + (if Accepting(s.mode) then set id | id in Provisional(s, c) && id !in ids else {})
    && (forall id | id in Provisional(s, c) && id !in ids :: c in s.objects && c !in s.decided && id !in s.objects[c])
  }

  lemma ReleasedApart(s: State, t: State, w: WorkId, c: Call, ids: seq<Id>, d: Call, id: Id)
    requires Lists(s) && Released(s, t, w, c, ids) && Accepting(s.mode) && d in t.provisional && id in t.provisional[d]
    ensures Apart(t, d, id)
  {
    assert Apart(s, d, id);
  }

  lemma ReleasedForgotten(s: State, t: State, w: WorkId, c: Call, ids: seq<Id>, id: Id)
    requires Named(s) && Lists(s) && Released(s, t, w, c, ids) && id in t.lost
    ensures Forgotten(t, id)
  {
    if id in s.lost {
      assert Forgotten(s, id);
    } else {
      assert Apart(s, c, id);
    }
  }

  lemma ReleasedAccounted(s: State, t: State, w: WorkId, c: Call, ids: seq<Id>, id: Id)
    requires Lists(s) && Released(s, t, w, c, ids) && 0 < id <= t.nextResource && id !in t.attempted && id !in t.lost
    ensures id in t.resources && Tracked(t, id)
  {
    assert Tracked(s, id);
    if who :| id in Todo(s, who) {
      assert id in Todo(t, who);
    } else if Accepting(s.mode) && id !in s.order {
      var d :| d in s.provisional && id in s.provisional[d];
      if d == c {
        assert id in Todo(t, Worker(w));
      } else {
        assert d in t.provisional && id in t.provisional[d];
      }
    }
  }

  lemma ReleasedLists(s: State, t: State, w: WorkId, c: Call, ids: seq<Id>)
    requires Named(s) && Lists(s) && Released(s, t, w, c, ids)
    ensures Lists(t)
  {
    hide Apart, Forgotten, Named;
    forall d, id | Accepting(t.mode) && d in t.provisional && id in t.provisional[d]
      ensures Apart(t, d, id)
    {
      ReleasedApart(s, t, w, c, ids, d, id);
    }
    forall id | id in t.lost
      ensures Forgotten(t, id)
    {
      ReleasedForgotten(s, t, w, c, ids, id);
    }
    forall id | 0 < id <= t.nextResource && id !in t.attempted && id !in t.lost
      ensures id in t.resources && Tracked(t, id)
    {
      ReleasedAccounted(s, t, w, c, ids, id);
    }
  }

  lemma TakeThreads(s: State, w: WorkId, failed: bool)
    requires Threads(s)
    ensures Threads(Take(s, w, failed))
  {
  }

  /** A successful result carries exactly what its call has exported so far. */
  lemma TakeResultLists(s: State, w: WorkId)
    requires Named(s) && Staged(s) && Lists(s)
    ensures Lists(Take(s, w, false))
  {
    var t := Take(s, w, false);
    if t != s {
      TakeReleasers(s, w);
      hide Named;
      forall c, id | Accepting(t.mode) && c in t.provisional && id in t.provisional[c]
        ensures Apart(t, c, id)
      {
        assert Apart(s, c, id);
      }
      forall id | id in t.lost
        ensures Forgotten(t, id)
      {
        assert Forgotten(s, id);
      }
      hide Apart, Forgotten;
      forall id | 0 < id <= t.nextResource && id !in t.attempted && id !in t.lost
        ensures id in t.resources && Tracked(t, id)
      {
        assert Tracked(s, id);
      }
    }
  }

  lemma TakeFailedLists(s: State, w: WorkId)
    requires Named(s) && Attempting(s) && Lists(s)
    ensures Attempting(Take(s, w, true)) && Lists(Take(s, w, true))
  {
    hide Named, Attempting, Lists;
    var t := Take(s, w, true);
    if t != s {
      var c := s.works[w].call;
      assert OneReleaser(s, t, Worker(w), Provisional(s, c), Idle);
      assert Released(s, t, w, c, Provisional(s, c));
      ReleasedLists(s, t, w, c, Provisional(s, c));
      AttemptsJoin(s, t, Worker(w), Provisional(s, c));
    }
  }

  lemma TakeReleasers(s: State, w: WorkId)
    ensures SameReleasers(s, Take(s, w, false))
  {
  }

  lemma TakeKeeps(s: State, w: WorkId, failed: bool)
    requires Inv(s)
    ensures Inv(Take(s, w, failed))
  {
    TakeThreads(s, w, failed);
    hide Named, BorrowsMatch, Staged, Attempting, Lists, SameReleasers;
    if failed {
      TakeFailedLists(s, w);
    } else {
      TakeResultLists(s, w);
      TakeReleasers(s, w);
      AttemptsCarry(s, Take(s, w, false));
    }
  }

  lemma RejectThreads(s: State, w: WorkId)
    requires Threads(s)
    ensures Threads(Reject(s, w))
  {
  }

  lemma RejectKeeps(s: State, w: WorkId)
    requires Inv(s)
    ensures Inv(Reject(s, w))
  {
    RejectThreads(s, w);
    var t := Reject(s, w);
    if t != s {
      var c := s.works[w].call;
      assert c !in s.decided;
      hide Named, BorrowsMatch, Staged, Attempting, Lists;
      assert OneReleaser(s, t, Worker(w), s.objects[c], Idle);
      assert Released(s, t, w, c, s.objects[c]);
      ReleasedLists(s, t, w, c, s.objects[c]);
      AttemptsJoin(s, t, Worker(w), s.objects[c]);
    }
  }

  lemma PublishThreads(s: State, w: WorkId)
    requires Threads(s)
    ensures Threads(Publish(s, w))
  {
  }

  lemma PublishReleasers(s: State, w: WorkId)
    ensures SameReleasers(s, Publish(s, w))
  {
  }

  lemma PublishSame(s: State, w: WorkId)
    ensures SameAttempts(s, Publish(s, w)) && SameLists(s, Publish(s, w))
  {
  }

  lemma PublishKeeps(s: State, w: WorkId)
    requires Inv(s)
    ensures Inv(Publish(s, w))
  {
    PublishThreads(s, w);
    PublishReleasers(s, w);
    PublishSame(s, w);
    hide Named, BorrowsMatch, Staged, Attempting, Lists, SameReleasers, SameAttempts, SameLists, Publish;
    AttemptsCarry(s, Publish(s, w));
    ListsCarry(s, Publish(s, w));
  }

  lemma DecideThreads(s: State, c: Call, w: WorkId, accept: bool)
    requires Threads(s)
    ensures Threads(DecideResult(s, c, w, accept))
  {
    hide Present, Dropped;
  }

  lemma AcceptApart(s: State, c: Call, w: WorkId, d: Call, id: Id)
    requires Named(s) && Lists(s) && Accepting(s.mode) && d in DecideResult(s, c, w, true).provisional
    requires id in DecideResult(s, c, w, true).provisional[d]
    ensures Apart(DecideResult(s, c, w, true), d, id)
  {
    assert SameReleasers(s, DecideResult(s, c, w, true));
    assert Apart(s, d, id);
  }

  lemma AcceptForgotten(s: State, c: Call, w: WorkId, id: Id)
    requires Named(s) && Lists(s) && Accepting(s.mode) && id in DecideResult(s, c, w, true).lost
    ensures Forgotten(DecideResult(s, c, w, true), id)
  {
    assert SameReleasers(s, DecideResult(s, c, w, true));
    if id in s.lost {
      assert Forgotten(s, id);
    } else {
      assert Apart(s, c, id);
    }
  }

  lemma AcceptAccounted(s: State, c: Call, w: WorkId, id: Id)
    requires Lists(s) && Accepting(s.mode)
    requires var t := DecideResult(s, c, w, true); 0 < id <= t.nextResource && id !in t.attempted && id !in t.lost
    ensures id in DecideResult(s, c, w, true).resources && Tracked(DecideResult(s, c, w, true), id)
  {
    var t := DecideResult(s, c, w, true);
    assert SameReleasers(s, t);
    assert Tracked(s, id);
    if d :| d in s.provisional && id in s.provisional[d] {
      if d == c && t != s {
        assert id in s.objects[c];
        assert id in t.order;
      } else {
        assert d in t.provisional && id in t.provisional[d];
      }
    }
  }

  lemma AcceptLists(s: State, c: Call, w: WorkId)
    requires Named(s) && Lists(s) && Accepting(s.mode)
    ensures Lists(DecideResult(s, c, w, true))
  {
    var t := DecideResult(s, c, w, true);
    assert SameReleasers(s, t);
    hide Apart, Forgotten, Named, Tracked, DecideResult;
    forall d, id | d in t.provisional && id in t.provisional[d]
      ensures Apart(t, d, id)
    {
      AcceptApart(s, c, w, d, id);
    }
    forall id | id in t.lost
      ensures Forgotten(t, id)
    {
      AcceptForgotten(s, c, w, id);
    }
    forall id | 0 < id <= t.nextResource && id !in t.attempted && id !in t.lost
      ensures id in t.resources && Tracked(t, id)
    {
      AcceptAccounted(s, c, w, id);
    }
  }

  lemma DecideKeeps(s: State, c: Call, w: WorkId, accept: bool)
    requires Inv(s)
    ensures Inv(DecideResult(s, c, w, accept))
  {
    DecideThreads(s, c, w, accept);
    DecideAttempts(s, c, w, accept);
    if accept && Accepting(s.mode) {
      AcceptLists(s, c, w);
    } else {
      DiscardLists(s, c, w, accept);
    }
  }

  lemma DiscardAttempts(s: State, c: Call, w: WorkId, accept: bool)
    requires Named(s) && Attempting(s) && c in s.provisional && !(accept && Accepting(s.mode))
    ensures Attempting(DecideResult(s, c, w, accept))
  {
    var t := DecideResult(s, c, w, accept);
    if t != s {
      assert w !in s.works;
      hide Named, Attempting, Dropped;
      assert OneReleaser(s, t, Worker(w), s.objects[c], Idle);
      AttemptsJoin(s, t, Worker(w), s.objects[c]);
    }
  }

  lemma DecideAttempts(s: State, c: Call, w: WorkId, accept: bool)
    requires Named(s) && Attempting(s)
    ensures Attempting(DecideResult(s, c, w, accept))
  {
    hide Named, Attempting, Present, Dropped;
    if c in s.provisional && !(accept && Accepting(s.mode)) {
      DiscardAttempts(s, c, w, accept);
    } else {
      var t := DecideResult(s, c, w, accept);
      assert SameReleasers(s, t);
      AttemptsCarry(s, t);
    }
  }

  /** A result whose provisional list is already gone only counts as decided. */
  lemma NothingToDecide(s: State, c: Call, w: WorkId, accept: bool)
    requires Lists(s) && c !in s.provisional
    ensures Lists(DecideResult(s, c, w, accept))
  {
    var t := DecideResult(s, c, w, accept);
    assert SameReleasers(s, t);
    forall d, id | Accepting(t.mode) && d in t.provisional && id in t.provisional[d]
      ensures Apart(t, d, id)
    {
      assert Apart(s, d, id);
    }
    forall id | id in t.lost
      ensures Forgotten(t, id)
    {
      assert Forgotten(s, id);
    }
    hide Apart, Forgotten;
    forall id | 0 < id <= t.nextResource && id !in t.attempted && id !in t.lost
      ensures id in t.resources && Tracked(t, id)
    {
      assert Tracked(s, id);
    }
  }

  lemma DiscardLists(s: State, c: Call, w: WorkId, accept: bool)
    requires Named(s) && Lists(s) && !(accept && Accepting(s.mode))
    ensures Lists(DecideResult(s, c, w, accept))
  {
    var t := DecideResult(s, c, w, accept);
    if c !in s.provisional {
      NothingToDecide(s, c, w, accept);
    } else if t != s {
      assert w !in s.works;
      hide Named, Lists;
      assert OneReleaser(s, t, Worker(w), s.objects[c], Idle);
      assert Released(s, t, w, c, s.objects[c]);
      ReleasedLists(s, t, w, c, s.objects[c]);
    }
  }

  // ----- releases -----

  lemma AbandonThreads(s: State, w: WorkId, c: Call)
    requires Threads(s)
    ensures Threads(Abandon(s, w, c))
  {
  }

  lemma AbandonLists(s: State, w: WorkId, c: Call)
    requires Named(s) && Lists(s)
    ensures Lists(Abandon(s, w, c))
  {
    var t := Abandon(s, w, c);
    if t != s {
      assert OneReleaser(s, t, Worker(w), s.objects[c], Idle);
      assert Todo(s, Worker(w)) == [];
      forall d, id | d in t.provisional && id in t.provisional[d]
        ensures Apart(t, d, id)
      {
        assert Apart(s, d, id);
      }
      forall id | id in t.lost
        ensures Forgotten(t, id)
      {
        assert Forgotten(s, id);
      }
      hide Apart, Forgotten;
      forall id | 0 < id <= t.nextResource && id !in t.attempted && id !in t.lost
        ensures id in t.resources && Tracked(t, id)
      {
        assert Tracked(s, id);
      }
    }
  }

  lemma AbandonKeeps(s: State, w: WorkId, c: Call)
    requires Inv(s)
    ensures Inv(Abandon(s, w, c))
  {
    AbandonThreads(s, w, c);
    AbandonLists(s, w, c);
    var t := Abandon(s, w, c);
    if t != s {
      assert w !in s.works;
      hide Named, BorrowsMatch, Staged, Attempting, Lists;
      assert OneReleaser(s, t, Worker(w), s.objects[c], Idle);
      AttemptsJoin(s, t, Worker(w), s.objects[c]);
    }
  }

  lemma DropThreads(s: State, w: WorkId, id: Id)
    requires Threads(s)
    ensures Threads(BeginDrop(s, w, id))
  {
  }

  lemma DropAttempts(s: State, w: WorkId, id: Id)
    requires Named(s) && Attempting(s)
    ensures Attempting(BeginDrop(s, w, id))
  {
    var t := BeginDrop(s, w, id);
    if t != s {
      assert OneReleaser(s, t, Worker(w), [id], Claimed);
      assert t.attempts == s.attempts[id := false];
    }
  }

  /** Only an active resource is dropped, and an active one is neither provisional nor lost. */
  lemma DropLists(s: State, w: WorkId, id: Id)
    requires Named(s) && Lists(s)
    ensures Lists(BeginDrop(s, w, id))
  {
    var t := BeginDrop(s, w, id);
    if t != s {
      assert OneReleaser(s, t, Worker(w), [id], Claimed);
      assert Todo(s, Worker(w)) == [];
      forall d, x | d in t.provisional && x in t.provisional[d]
        ensures Apart(t, d, x)
      {
        assert Apart(s, d, x);
      }
      forall x | x in t.lost
        ensures Forgotten(t, x)
      {
        assert Forgotten(s, x);
      }
      hide Apart, Forgotten;
      forall x | 0 < x <= t.nextResource && x !in t.attempted && x !in t.lost
        ensures x in t.resources && Tracked(t, x)
      {
        assert Tracked(s, x);
      }
    }
  }

  lemma DropKeeps(s: State, w: WorkId, id: Id)
    requires Inv(s)
    ensures Inv(BeginDrop(s, w, id))
  {
    DropThreads(s, w, id);
    DropAttempts(s, w, id);
    DropLists(s, w, id);
  }

  lemma SettleReleasers(s: State, id: Id)
    ensures SameReleasers(s, Settle(s, id))
  {
  }

  lemma SettleAttempts(s: State, id: Id)
    requires Attempting(s)
    ensures Attempting(Settle(s, id))
  {
    SettleReleasers(s, id);
  }

  lemma SettleThreads(s: State, id: Id)
    requires Threads(s)
    ensures Threads(Settle(s, id))
  {
  }

  lemma SettleKeeps(s: State, id: Id)
    requires Inv(s)
    ensures Inv(Settle(s, id))
  {
    SettleThreads(s, id);
    SettleAttempts(s, id);
    SettleReleasers(s, id);
    assert SameLists(s, Settle(s, id));
    hide Named, BorrowsMatch, Staged, Attempting, Lists, SameReleasers, SameLists, Settle;
    ListsCarry(s, Settle(s, id));
  }

  lemma ReleaserChange(s: State, t: State, who: Closer, r: Releaser)
    requires ReleaserOf(s, who).Some? && t.works == WithReleaser(s, who, r).works
    requires t.cleanup == WithReleaser(s, who, r).cleanup
    ensures OneReleaser(s, t, who, r.todo, if r.todo == [] then Idle else r.phase)
  {
  }

  lemma ReleaserGone(s: State, t: State, w: WorkId)
    requires w in s.works && t.works == s.works - {w} && t.cleanup == s.cleanup
    ensures OneReleaser(s, t, Worker(w), [], Idle)
  {
  }

  /** Changing what one thread still has to release changes nothing for the handlers. */
  lemma ReleaserThreads(s: State, who: Closer, r: Releaser)
    requires Threads(s) && ReleaserOf(s, who).Some? && (IsDrop(s, who) ==> |r.todo| == 1 && r.phase != Idle)
    requires who.Cleaner? && s.mode == Closed ==> r.todo == []
    ensures Threads(WithReleaser(s, who, r))
  {
  }

  lemma AttemptThreads(s: State, attempts: map<Id, bool>, order: seq<Id>, settling: set<Id>)
    requires Threads(s) && attempts.Keys <= s.resources.Keys
    ensures Threads(s.(attempts := attempts, order := order, settling := settling))
  {
  }

  lemma BeginThreads(s: State, who: Closer)
    requires Threads(s)
    ensures Threads(Begin(s, who))
  {
    if Begin(s, who) != s {
      var r := ReleaserOf(s, who).value;
      if Head(s, who) in s.resources {
        var u := WithReleaser(s, who, r.(phase := Claimed));
        ReleaserThreads(s, who, r.(phase := Claimed));
        AttemptThreads(u, s.attempts[Head(s, who) := false], s.order, s.settling);
        hide Threads;
        assert Begin(s, who) == u.(attempts := s.attempts[Head(s, who) := false], order := s.order, settling :=
          s.settling);
      } else {
        ReleaserThreads(s, who, Releaser(r.todo[1..], Idle));
      }
    }
  }

  /**
    * What a thread that begins an attempt has done: claimed the first resource of its list, or passed over one that
    * is gone.
    */
  lemma BeginChange(s: State, who: Closer)
    ensures var t := Begin(s, who);
            || t == s
            || (Todo(s, who) != [] && Current(s, who) in s.resources
              && (Current(s, who) in s.attempts ==> s.attempts[Current(s, who)])
                && OneReleaser(s, t, who, Todo(s, who), Claimed) && PhaseOf(s, who) == Idle
                && t == s.(works := t.works, cleanup := t.cleanup, attempts := s.attempts[Current(s, who) := false]))
            || (Todo(s, who) != [] && Current(s, who) !in s.resources && OneReleaser(s, t, who, Todo(s, who)[1..], Idle)
                && t == s.(works := t.works, cleanup := t.cleanup))
  {
    var t := Begin(s, who);
    if t != s {
      var r := ReleaserOf(s, who).value;
      ReleaserChange(s, t, who,
                     if Head(s, who) in s.resources then r.(phase := Claimed) else Releaser(r.todo[1..], Idle));
    }
    hide OneReleaser;
  }

  lemma BeginAttempts(s: State, who: Closer)
    requires Named(s) && Attempting(s)
    ensures Attempting(Begin(s, who))
  {
    BeginChange(s, who);
    hide Begin;
  }

  lemma BeginLists(s: State, who: Closer)
    requires Lists(s)
    ensures Lists(Begin(s, who))
  {
    BeginChange(s, who);
    var t := Begin(s, who);
    hide Begin;
    if t != s {
      forall y, x | x in Todo(t, y)
        ensures x in Todo(s, y)
      {
      }
      forall d, x | Accepting(t.mode) && d in t.provisional && x in t.provisional[d]
        ensures Apart(t, d, x)
      {
        assert Apart(s, d, x);
      }
      forall x | x in t.lost
        ensures Forgotten(t, x)
      {
        assert Forgotten(s, x);
      }
      hide Apart, Forgotten;
      forall x | 0 < x <= t.nextResource && x !in t.attempted && x !in t.lost
        ensures x in t.resources && Tracked(t, x)
      {
        assert Tracked(s, x);
        if y :| x in Todo(s, y) {
          assert x in Todo(t, y);
        }
      }
    }
  }

  lemma EnterThreads(s: State, who: Closer)
    requires Threads(s)
    ensures Threads(Enter(s, who))
  {
  }

  lemma EnterChange(s: State, who: Closer)
    ensures var t := Enter(s, who);
            || t == s
            || (Todo(s, who) != [] && Current(s, who) in s.resources && s.resources[Current(s, who)].borrowers == {}
                && OneReleaser(s, t, who, Todo(s, who), Closing) && PhaseOf(s, who) == Claimed
                && t == s.(works := t.works, cleanup := t.cleanup, attempted := s.attempted + {Current(s, who)}))
  {
  }

  lemma EnterAttempts(s: State, who: Closer)
    requires Attempting(s)
    ensures Attempting(Enter(s, who))
  {
    EnterChange(s, who);
    hide Enter;
  }

  lemma EnterLists(s: State, who: Closer)
    requires Lists(s)
    ensures Lists(Enter(s, who))
  {
    EnterChange(s, who);
    var t := Enter(s, who);
    hide Enter;
    if t != s {
      forall d, x | Accepting(t.mode) && d in t.provisional && x in t.provisional[d]
        ensures Apart(t, d, x)
      {
        assert Apart(s, d, x);
      }
      forall x | x in t.lost
        ensures Forgotten(t, x)
      {
        assert Forgotten(s, x);
      }
      hide Apart, Forgotten;
      forall x | 0 < x <= t.nextResource && x !in t.attempted && x !in t.lost
        ensures x in t.resources && Tracked(t, x)
      {
        assert Tracked(s, x);
        if y :| x in Todo(s, y) {
          assert x in Todo(t, y);
        }
      }
    }
  }

  /** A resource leaves the route set only when nobody borrows it. */
  lemma DetachThreads(s: State, id: Id, done: set<Id>, order: seq<Id>)
    requires Threads(s) && id in s.resources && s.resources[id].borrowers == {} && done <= s.attempted
    requires done <= s.closed + {id}
    ensures Threads(s.(resources := s.resources - {id}, attempts := s.attempts - {id}, order := order, closed := done))
  {
  }

  lemma AdvanceThreads(s: State, who: Closer)
    requires Threads(s) && Ready(s, who, Closing)
    ensures Threads(Advance(s, who))
  {
    if !IsDrop(s, who) {
      ReleaserThreads(s, who, Releaser(ReleaserOf(s, who).value.todo[1..], Idle));
    }
  }

  lemma ClosingFacts(s: State, who: Closer)
    requires Attempting(s) && Ready(s, who, Closing)
    ensures var id := Head(s, who);
      id in s.attempts && id in s.resources && s.resources[id].borrowers == {} && id in s.attempted
  {
    assert PhaseOf(s, who) == Closing && Current(s, who) == Head(s, who);
  }

  lemma EndThreads(s: State, who: Closer, ok: bool)
    requires Threads(s) && Attempting(s)
    ensures Threads(End(s, who, ok))
  {
    if Ready(s, who, Closing) {
      ClosingFacts(s, who);
      AdvanceThreads(s, who);
      var id, u := Head(s, who), Advance(s, who);
      assert s.attempts.Keys <= s.resources.Keys;
      hide Attempting, Threads, Without;
      if ok || (!IsDrop(s, who) && !Accepting(s.mode)) {
        DetachThreads(u, id, if ok then s.closed + {id} else s.closed, Without(s.order, id));
      } else if IsDrop(s, who) {
        AttemptThreads(u, s.attempts, s.order, s.settling + {id});
        assert End(s, who, ok) == u.(attempts := s.attempts, order := s.order, settling := s.settling + {id});
      } else {
        var order := if id in s.order then s.order else s.order + [id];
        AttemptThreads(u, s.attempts[id := true], order, s.settling);
        assert End(s, who, ok) == u.(attempts := s.attempts[id := true], order := order, settling := s.settling);
      }
    }
  }

  /**
    * What the end of a close has done: the resource is detached, its drop has still to report, or it is kept for a
    * retry.
    */
  ghost predicate Concluded(s: State, t: State, who: Closer) {
    && Todo(s, who) != [] && OneReleaser(s, t, who, Todo(s, who)[1..], Idle) && PhaseOf(s, who) == Closing
    && t == s.(works := t.works, cleanup := t.cleanup, resources := t.resources, attempts := t.attempts, order :=
      t.order,
               closed := t.closed, settling := t.settling)
    && (|| (&& t.resources == s.resources - {Current(s, who)} && t.attempts == s.attempts - {Current(s, who)}
            && t.settling == s.settling && t.order == Without(s.order, Current(s, who)))
        || (t.resources == s.resources && t.attempts == s.attempts && t.settling == s.settling + {Current(s, who)}
          && t.order == s.order)
        || (&& t.resources == s.resources && t.attempts == s.attempts[Current(s, who) := true]
          && t.settling == s.settling
            && Accepting(s.mode) && (t.order == s.order || t.order == s.order + [Current(s, who)])))
  }

  lemma EndChange(s: State, who: Closer, ok: bool)
    requires Named(s)
    ensures End(s, who, ok) == s || Concluded(s, End(s, who, ok), who)
  {
    var t := End(s, who, ok);
    if t != s {
      if IsDrop(s, who) {
        ReleaserGone(s, t, who.w);
      } else {
        ReleaserChange(s, t, who, Releaser(ReleaserOf(s, who).value.todo[1..], Idle));
      }
      hide OneReleaser, Without;
    }
  }

  lemma EndAttempts(s: State, who: Closer, ok: bool)
    requires Named(s) && Attempting(s)
    ensures Attempting(End(s, who, ok))
  {
    EndChange(s, who, ok);
    hide End, Named, Attempting, Concluded;
    if End(s, who, ok) != s {
      ConcludedAttempts(s, End(s, who, ok), who);
    }
  }

  lemma ConcludedAttempts(s: State, t: State, who: Closer)
    requires Attempting(s) && Concluded(s, t, who)
    ensures Attempting(t)
  {
    hide Without;
    var id := Current(s, who);
    forall y | PhaseOf(t, y) != Idle
      ensures y != who && PhaseOf(s, y) != Idle && Current(t, y) == Current(s, y) != id
    {
    }
  }

  lemma ConcludedApart(s: State, t: State, who: Closer, d: Call, x: Id)
    requires Lists(s) && Concluded(s, t, who) && Accepting(t.mode) && d in t.provisional && x in t.provisional[d]
    ensures Apart(t, d, x)
  {
    assert Apart(s, d, x);
  }

  lemma ConcludedForgotten(s: State, t: State, who: Closer, x: Id)
    requires Lists(s) && Concluded(s, t, who) && x in t.lost
    ensures Forgotten(t, x)
  {
    assert Forgotten(s, x);
  }

  lemma ConcludedTracked(s: State, t: State, who: Closer, x: Id)
    requires Lists(s) && Concluded(s, t, who) && Current(s, who) in s.attempted
    requires 0 < x <= t.nextResource && x !in t.attempted && x !in t.lost
    ensures x in t.resources && Tracked(t, x)
  {
    assert Tracked(s, x);
    if y :| x in Todo(s, y) {
      assert x in Todo(t, y);
    }
  }

  lemma ConcludedNamed(s: State, t: State, who: Closer)
    requires Lists(s) && Concluded(s, t, who)
    ensures ObjectsNamed(t) && LateOnly(t)
  {
    forall y, x | x in Todo(t, y)
      ensures x in Todo(s, y)
    {
    }
    assert Current(s, who) in Todo(s, who);
  }

  lemma EndLists(s: State, who: Closer, ok: bool)
    requires Named(s) && Attempting(s) && Lists(s)
    ensures Lists(End(s, who, ok))
  {
    EndChange(s, who, ok);
    var t := End(s, who, ok);
    hide End, Apart, Forgotten, Named;
    if t != s {
      assert Current(s, who) in s.attempted;
      ConcludedNamed(s, t, who);
      hide Concluded, Attempting, Tracked;
      forall d, x | Accepting(t.mode) && d in t.provisional && x in t.provisional[d]
        ensures Apart(t, d, x)
      {
        ConcludedApart(s, t, who, d, x);
      }
      forall x | x in t.lost
        ensures Forgotten(t, x)
      {
        ConcludedForgotten(s, t, who, x);
      }
      forall x | 0 < x <= t.nextResource && x !in t.attempted && x !in t.lost
        ensures x in t.resources && Tracked(t, x)
      {
        ConcludedTracked(s, t, who, x);
      }
    }
  }

  lemma BeginKeeps(s: State, who: Closer)
    requires Inv(s)
    ensures Inv(Begin(s, who))
  {
    BeginThreads(s, who);
    BeginAttempts(s, who);
    BeginLists(s, who);
  }

  lemma EnterKeeps(s: State, who: Closer)
    requires Inv(s)
    ensures Inv(Enter(s, who))
  {
    EnterThreads(s, who);
    EnterAttempts(s, who);
    EnterLists(s, who);
  }

  lemma EndKeeps(s: State, who: Closer, ok: bool)
    requires Inv(s)
    ensures Inv(End(s, who, ok))
  {
    EndThreads(s, who, ok);
    EndAttempts(s, who, ok);
    EndLists(s, who, ok);
  }

  lemma FinishThreads(s: State, w: WorkId)
    requires Threads(s)
    ensures Threads(Finish(s, w))
  {
  }

  lemma FinishReleasers(s: State, w: WorkId)
    ensures SameReleasers(s, Finish(s, w))
  {
    if Finish(s, w) != s {
      ReleaserGone(s, Finish(s, w), w);
    }
  }

  lemma FinishSame(s: State, w: WorkId)
    ensures SameAttempts(s, Finish(s, w)) && SameLists(s, Finish(s, w))
  {
  }

  lemma FinishKeeps(s: State, w: WorkId)
    requires Inv(s)
    ensures Inv(Finish(s, w))
  {
    FinishThreads(s, w);
    FinishReleasers(s, w);
    FinishSame(s, w);
    hide Named, BorrowsMatch, Staged, Attempting, Lists, SameReleasers, SameAttempts, SameLists, Finish;
    AttemptsCarry(s, Finish(s, w));
    ListsCarry(s, Finish(s, w));
  }

  // ----- the route set -----

  lemma CloseSetKeeps(s: State)
    requires Inv(s) && s.mode == Open
    ensures Inv(s.(mode := Draining))
  {
    var t := s.(mode := Draining);
    assert Threads(t);
    hide Named, BorrowsMatch, Staged, Attempting, Lists;
    assert SameReleasers(s, t);
    AttemptsCarry(s, t);
    ListsCarry(s, t);
  }

  lemma CleanThreads(s: State, force: bool, list: seq<Id>)
    requires Threads(s)
    ensures Threads(Clean(s, force, list))
  {
  }

  lemma CleanChange(s: State, force: bool, list: seq<Id>)
    requires Named(s)
    ensures var t := Clean(s, force, list);
            || t == s
            || (Accepting(s.mode) && t == s.(mode := Cleaning, cleanup := t.cleanup) && Todo(s, Cleaner) == []
                && ((force && Snapshot(s, list) && OneReleaser(s, t, Cleaner, list, Idle))
                  || (s.resources == map[] && OneReleaser(s, t, Cleaner, [], Idle))))
  {
  }

  /** Whatever a list named before cleanup, the cleanup or a release under way names now. */
  lemma CleanLists(s: State, force: bool, list: seq<Id>)
    requires Named(s) && Lists(s)
    ensures Lists(Clean(s, force, list))
  {
    CleanChange(s, force, list);
    var t := Clean(s, force, list);
    hide Clean;
    if t != s {
      forall x | x in t.lost
        ensures Forgotten(t, x)
      {
        assert Forgotten(s, x);
      }
      hide Apart, Forgotten, Named;
      forall x | 0 < x <= t.nextResource && x !in t.attempted && x !in t.lost
        ensures x in t.resources && Tracked(t, x)
      {
        assert x in s.resources && Tracked(s, x);
        if y :| x in Todo(s, y) {
          assert x in Todo(t, y);
        } else {
          assert x in Todo(t, Cleaner);
        }
      }
    }
  }

  lemma CleanKeeps(s: State, force: bool, list: seq<Id>)
    requires Inv(s)
    ensures Inv(Clean(s, force, list))
  {
    CleanThreads(s, force, list);
    CleanLists(s, force, list);
    CleanChange(s, force, list);
    var t := Clean(s, force, list);
    hide Clean, Named, BorrowsMatch, Staged, Attempting, Lists, Snapshot;
    if t != s {
      AttemptsJoin(s, t, Cleaner, Todo(t, Cleaner));
    }
  }

  lemma EndCleanThreads(s: State)
    requires Threads(s)
    ensures Threads(EndClean(s))
  {
  }

  /** When the cleanup is over no thread holds a list, so nothing can be left on one. */
  lemma EndCleanLists(s: State)
    requires Lists(s)
    ensures Lists(EndClean(s))
  {
    var t := EndClean(s);
    if t != s {
      assert forall who :: Todo(s, who) == [] && Todo(t, who) == [];
      forall x | x in t.lost
        ensures Forgotten(t, x)
      {
        assert Forgotten(s, x);
      }
      hide Apart, Forgotten;
      forall x: Id | 0 < x <= t.nextResource && x !in t.attempted
        ensures x in t.lost
      {
        assert x !in t.lost ==> Tracked(s, x);
      }
    }
  }

  lemma EndCleanKeeps(s: State)
    requires Inv(s)
    ensures Inv(EndClean(s))
  {
    EndCleanThreads(s);
    EndCleanLists(s);
    var t := EndClean(s);
    if t != s {
      hide Named, BorrowsMatch, Staged, Lists;
      assert forall who :: PhaseOf(t, who) == Idle;
    }
  }

  lemma InitialInv()
    ensures Inv(Initial())
  {
    assert forall who :: Todo(Initial(), who) == [] && PhaseOf(Initial(), who) == Idle;
  }

  lemma StepInv(s: State, step: Step)
    requires Inv(s)
    ensures Inv(Apply(s, step))
  {
    hide Inv;
    match step
    case StartCall(w, call, borrows, service) => StartKeeps(s, w, call, borrows, service);
    case Export(call) => ExportKeeps(s, call);
    case ReturnBorrows(w) => GiveBackKeeps(s, w);
    case TakeResult(w, failed) => TakeKeeps(s, w, failed);
    case RejectResult(w) => RejectKeeps(s, w);
    case PublishResult(w) => PublishKeeps(s, w);
    case Decide(call, w, accept) => DecideKeeps(s, call, w, accept);
    case ReleaseAbandoned(w, call) => AbandonKeeps(s, w, call);
    case Drop(w, id) => DropKeeps(s, w, id);
    case SettleDrop(id) => SettleKeeps(s, id);
    case BeginAttempt(who) => BeginKeeps(s, who);
    case StartClose(who) => EnterKeeps(s, who);
    case EndClose(who, ok) => EndKeeps(s, who, ok);
    case FinishWork(w) => FinishKeeps(s, w);
    case CloseSet =>
      if s.mode == Open {
        CloseSetKeeps(s);
      }
    case BeginCleanup(force, list) => CleanKeeps(s, force, list);
    case EndCleanup => EndCleanKeeps(s);
  }

  lemma {:induction false} RunInv(steps: seq<Step>)
    ensures Inv(Run(steps))
    decreases |steps|
  {
    hide Inv;
    if steps == [] {
      InitialInv();
    } else {
      RunInv(steps[..|steps| - 1]);
      StepInv(Run(steps[..|steps| - 1]), steps[|steps| - 1]);
    }
  }

  // ----- what holds in every reachable state -----

  /** While a resource's close runs, no handler borrows it. */
  lemma NoCloseWhileBorrowed(steps: seq<Step>, who: Closer, w: WorkId)
    requires var s := Run(steps);
             PhaseOf(s, who) == Closing && w in s.works && s.works[w].Running?
    ensures Current(Run(steps), who) !in Run(steps).works[w].borrows
  {
    RunInv(steps);
    hide Run;
    var s := Run(steps);
    var id := Current(s, who);
    assert s.resources[id].borrowers == {};
  }

  /** Two close attempts on one resource never run at the same time. */
  lemma CloseExclusive(steps: seq<Step>, a: Closer, b: Closer)
    requires var s := Run(steps); PhaseOf(s, a) == Closing && PhaseOf(s, b) == Closing && Current(s, a) == Current(s, b)
    ensures a == b
  {
    RunInv(steps);
    hide Run;
  }

  /** Only the end of a close adds to the closed resources. */
  lemma StepClosed(s: State, step: Step)
    ensures s.closed <= Apply(s, step).closed
  {
    CallHistory(s, step);
    CloseHistory(s, step);
    hide Apply;
  }

  predicate CallStep(step: Step) {
    step.StartCall? || step.Export? || step.ReturnBorrows? || step.TakeResult? || step.RejectResult?
      || step.PublishResult? || step.Decide?
  }

  /** A call closes nothing, and only an export can be late. */
  lemma CallHistory(s: State, step: Step)
    ensures CallStep(step) ==> Apply(s, step).closed == s.closed
    ensures CallStep(step) && (step.Export? ==> step.call in s.objects ==> step.call in s.decided) ==>
      Apply(s, step).late == s.late
  {
    hide Dropped, Present, Activated, Borrowable, Borrowed, Given, Provisional, Without;
  }

  lemma CloseHistory(s: State, step: Step)
    ensures !CallStep(step) ==> s.closed <= Apply(s, step).closed && Apply(s, step).late == s.late
  {
    CloseSame(s, step);
    hide Apply;
  }

  lemma RunOne(steps: seq<Step>, step: Step)
    ensures Run(steps + [step]) == Apply(Run(steps), step)
  {
    assert (steps + [step])[..|steps|] == steps;
  }

  lemma {:induction false} ClosedGrows(steps: seq<Step>, n: nat)
    requires n <= |steps|
    ensures Run(steps[..n]).closed <= Run(steps).closed
    decreases |steps| - n
  {
    hide Run, Apply;
    if n < |steps| {
      ClosedGrows(steps, n + 1);
      assert steps[..n + 1] == steps[..n] + [steps[n]];
      RunOne(steps[..n], steps[n]);
      StepClosed(Run(steps[..n]), steps[n]);
    } else {
      assert steps[..n] == steps;
    }
  }

  /** A resource whose close has succeeded is never closed again, whatever happens afterwards. */
  lemma NeverClosedAgain(steps: seq<Step>, n: nat, who: Closer)
    requires n <= |steps| && PhaseOf(Run(steps), who) == Closing
    ensures Current(Run(steps), who) !in Run(steps[..n]).closed
  {
    ClosedGrows(steps, n);
    RunInv(steps);
    hide Run;
  }

  /**
    * When the route set is closed, a resource has had a close attempt if and only if no deletion of a provisional
    * list lost it.
    */
  lemma ClosedExactly(steps: seq<Step>, id: Id)
    requires Run(steps).mode == Closed && 0 < id <= Run(steps).nextResource
    ensures id in Run(steps).attempted <==> id !in Run(steps).lost
  {
    RunInv(steps);
    hide Run;
    var s := Run(steps);
    assert id in s.lost ==> Forgotten(s, id);
    assert id !in s.lost && id !in s.attempted ==> id in s.resources;
  }

  /** An export is late when the result of its call has been taken and is not decided yet. */
  ghost predicate InTime(steps: seq<Step>) {
    forall n | 0 <= n < |steps| && steps[n].Export? :: steps[n].call in Run(steps[..n]).objects ==>
      steps[n].call in Run(steps[..n]).decided
  }

  lemma NotLateStep(s: State, step: Step)
    requires step.Export? ==> step.call in s.objects ==> step.call in s.decided
    ensures Apply(s, step).late == s.late
  {
    CallHistory(s, step);
    CloseHistory(s, step);
    hide Apply;
  }

  lemma {:induction false} InTimeNotLate(steps: seq<Step>)
    requires InTime(steps)
    ensures Run(steps).late == {}
    decreases |steps|
  {
    hide Apply;
    if steps != [] {
      var before := steps[..|steps| - 1];
      forall n | 0 <= n < |before| && before[n].Export?
        ensures before[n].call in Run(before[..n]).objects ==> before[n].call in Run(before[..n]).decided
      {
        assert before[..n] == steps[..n] && before[n] == steps[n];
      }
      InTimeNotLate(before);
      NotLateStep(Run(before), steps[|steps| - 1]);
    }
  }

  /**
    * When no export is late, every resource that was ever exported has had a close attempt when the route set is
    * closed.
    */
  lemma EveryResourceAttempted(steps: seq<Step>)
    requires InTime(steps) && Run(steps).mode == Closed
    ensures forall id | 0 < id <= Run(steps).nextResource :: id in Run(steps).attempted
  {
    InTimeNotLate(steps);
    RunInv(steps);
    forall id | 0 < id <= Run(steps).nextResource
      ensures id in Run(steps).attempted
    {
      ClosedExactly(steps, id);
    }
    hide Run;
  }

  /** The state in which the result of a call is published and carries nothing. */
  function Taken(w: WorkId, c: Call): State {
    Initial().(works := map[], calls := {c}, used := {w}, objects := map[c := []], owners := {c})
  }

  lemma LateTaken(w: WorkId, c: Call)
    ensures Publish(Take(GiveBack(Start(Initial(), w, c, {}, true), w), w, false), w) == Taken(w, c)
  {
    var s1 := Start(Initial(), w, c, {}, true);
    assert s1 == Initial().(works := map[w := Running(c, {})], calls := {c}, used := {w});
    var s2 := GiveBack(s1, w);
    assert s2 == s1.(works := map[w := Returned(c)]);
    var s3 := Take(s2, w, false);
    assert s3 == s1.(works := map[w := Snapped(c)], objects := map[c := []]);
  }

  lemma LateDecided(w: WorkId, x: WorkId, c: Call)
    requires w != x
    ensures var s := EndClean(Clean(DecideResult(ExportOne(Taken(w, c), c), c, x, true), true, []));
            s.mode == Closed && s.nextResource == 1 && 1 !in s.attempted
  {
    var s1 := ExportOne(Taken(w, c), c);
    assert Provisional(Taken(w, c), c) + [1] == [1];
    assert s1.provisional == map[c := [1]] && s1.objects == map[c := []] && s1.owners == {c} && s1.works == map[]
      && s1.mode == Open;
    var s2 := DecideResult(s1, c, x, true);
    assert s2.provisional == map[] && s2.order == [] && s2.owners == {} && s2.works == map[] && s2.mode == Open;
    assert Snapshot(s2, []);
  }

  lemma RunFour(steps: seq<Step>, a: Step, b: Step, c: Step, d: Step)
    ensures Run(steps + [a, b, c, d]) == Apply(Apply(Apply(Apply(Run(steps), a), b), c), d)
  {
    hide Run, Apply;
    assert steps + [a, b, c, d] == steps + [a] + [b] + [c] + [d];
    RunOne(steps, a);
    RunOne(steps + [a], b);
    RunOne(steps + [a] + [b], c);
    RunOne(steps + [a] + [b] + [c], d);
  }

  /** A handler that returns, exports once more and has its result accepted: that resource is never closed. */
  lemma LateExportIsLost(w: WorkId, x: WorkId, c: Call)
    requires w != x
    ensures var s := Run([StartCall(w, c, {}, true), ReturnBorrows(w), TakeResult(w, false), PublishResult(w)]
                         + [Export(c), Decide(c, x, true), BeginCleanup(true, []), EndCleanup]);
            s.mode == Closed && s.nextResource == 1 && 1 !in s.attempted
  {
    hide Run, Start, GiveBack, Take, Publish, ExportOne, DecideResult, Clean, EndClean, Taken;
    var first := [StartCall(w, c, {}, true), ReturnBorrows(w), TakeResult(w, false), PublishResult(w)];
    assert Run(first) == Taken(w, c) by {
      assert [] + first == first;
      RunNone();
      RunFour([], StartCall(w, c, {}, true), ReturnBorrows(w), TakeResult(w, false), PublishResult(w));
      LateTaken(w, c);
    }
    RunFour(first, Export(c), Decide(c, x, true), BeginCleanup(true, []), EndCleanup);
    LateDecided(w, x, c);
  }

  lemma RunNone()
    ensures Run([]) == Initial()
  {
  }

  // ----- which resources are lost -----

  /** The result of the call is taken and undecided, and does not carry this resource of the call. */
  predicate Missing(s: State, c: Call, id: Id) {
    Accepting(s.mode) && c in s.objects && c !in s.decided && id in Provisional(s, c) && id !in s.objects[c]
  }

  /** An export of the call now would be late and get this identifier. */
  predicate LateNow(s: State, c: Call, id: Id) {
    Accepting(s.mode) && c in s.calls && c in s.objects && c !in s.decided && id == s.nextResource + 1
  }

  predicate SameCalls(s: State, t: State) {
    && t.objects == s.objects && t.decided == s.decided && t.lost == s.lost && t.late == s.late && s.closed <= t.closed
    && t.mode == s.mode && t.provisional == s.provisional
  }

  lemma WithReleaserSame(s: State, who: Closer, r: Releaser)
    requires ReleaserOf(s, who).Some?
    ensures SameCalls(s, WithReleaser(s, who, r))
  {
  }

  lemma BeginSame(s: State, who: Closer)
    ensures SameCalls(s, Begin(s, who))
  {
    if ReleaserOf(s, who).Some? && ReleaserOf(s, who).value.todo != [] {
      WithReleaserSame(s, who, ReleaserOf(s, who).value.(phase := Claimed));
      WithReleaserSame(s, who, Releaser(ReleaserOf(s, who).value.todo[1..], Idle));
    }
    hide WithReleaser, Quiet;
  }

  lemma EnterSame(s: State, who: Closer)
    ensures SameCalls(s, Enter(s, who))
  {
    if ReleaserOf(s, who).Some? {
      WithReleaserSame(s, who, ReleaserOf(s, who).value.(phase := Closing));
    }
    hide WithReleaser;
  }

  lemma EndSame(s: State, who: Closer, ok: bool)
    ensures SameCalls(s, End(s, who, ok))
  {
    if ReleaserOf(s, who).Some? && ReleaserOf(s, who).value.todo != [] {
      WithReleaserSame(s, who, Releaser(ReleaserOf(s, who).value.todo[1..], Idle));
    }
    hide WithReleaser, Without;
  }

  lemma WorkSame(s: State, w: WorkId, c: Call, id: Id)
    ensures SameCalls(s, Abandon(s, w, c)) && SameCalls(s, BeginDrop(s, w, id)) && SameCalls(s, Settle(s, id))
    ensures SameCalls(s, Finish(s, w))
  {
  }

  /** The route set leaves the results alone and stops accepting. */
  predicate Stops(s: State, t: State) {
    && t.objects == s.objects && t.decided == s.decided && t.lost == s.lost && t.late == s.late && s.closed <= t.closed
    && (Accepting(t.mode) ==> Accepting(s.mode) && t.provisional == s.provisional)
  }

  lemma SetStops(s: State, force: bool, list: seq<Id>)
    ensures Stops(s, Clean(s, force, list)) && Stops(s, EndClean(s))
  {
    hide Snapshot, Quiet;
  }

  /** Releases and the route set itself leave the calls alone, except that the route set stops accepting. */
  lemma CloseSame(s: State, step: Step)
    ensures !CallStep(step) ==> Stops(s, Apply(s, step))
  {
    match step
    case BeginAttempt(who) => BeginSame(s, who);
    case StartClose(who) => EnterSame(s, who);
    case EndClose(who, ok) => EndSame(s, who, ok);
    case ReleaseAbandoned(w, c) => WorkSame(s, w, c, 0);
    case Drop(w, id) => WorkSame(s, w, 0, id);
    case SettleDrop(id) => WorkSame(s, 0, 0, id);
    case FinishWork(w) => WorkSame(s, w, 0, 0);
    case BeginCleanup(force, list) => SetStops(s, force, list);
    case EndCleanup => SetStops(s, false, []);
    case _ =>
  }

  lemma CallMonotone(s: State, step: Step)
    ensures CallStep(step) ==>
      s.lost <= Apply(s, step).lost && s.decided <= Apply(s, step).decided && Apply(s, step).mode == s.mode
  {
    hide Present, Activated, Borrowable, Borrowed, Given, Without, Provisional, Dropped;
  }

  lemma StepMonotone(s: State, step: Step)
    ensures s.lost <= Apply(s, step).lost && s.decided <= Apply(s, step).decided
    ensures (Accepting(Apply(s, step).mode) ==> Accepting(s.mode))
  {
    CloseSame(s, step);
    CallMonotone(s, step);
    hide Apply;
  }

  lemma CallBecomesMissing(s: State, step: Step, c: Call, id: Id)
    requires CallStep(step) && Missing(Apply(s, step), c, id)
    ensures Missing(s, c, id) || (step == Export(c) && LateNow(s, c, id))
  {
    hide Present, Activated, Borrowable, Borrowed, Given, Dropped;
  }

  /** Only a late export makes a resource missing. */
  lemma BecomesMissing(s: State, step: Step, c: Call, id: Id)
    requires Missing(Apply(s, step), c, id)
    ensures Missing(s, c, id) || (step == Export(c) && LateNow(s, c, id))
  {
    CloseSame(s, step);
    if CallStep(step) {
      CallBecomesMissing(s, step, c, id);
    }
    hide Apply;
  }

  lemma CallStaysMissing(s: State, step: Step, c: Call, id: Id)
    requires CallStep(step) && Staged(s) && Missing(s, c, id)
    ensures var t := Apply(s, step); Missing(t, c, id) || (c in t.decided && id in t.lost)
  {
    hide Present, Activated, Borrowable, Borrowed, Given;
  }

  /** A missing resource stays missing until its call is decided, which loses it, or the route set stops accepting. */
  lemma StaysMissing(s: State, step: Step, c: Call, id: Id)
    requires Staged(s) && Missing(s, c, id)
    ensures var t := Apply(s, step); Missing(t, c, id) || (c in t.decided && id in t.lost) || !Accepting(t.mode)
  {
    CloseSame(s, step);
    if CallStep(step) {
      CallStaysMissing(s, step, c, id);
    }
    hide Apply, Staged;
  }

  /** What one step loses was missing from a call that it decides. */
  lemma BecomesLost(s: State, step: Step, id: Id) returns (c: Call)
    requires Staged(s) && id in Apply(s, step).lost && id !in s.lost
    ensures Missing(s, c, id) && c in Apply(s, step).decided
  {
    CloseSame(s, step);
    hide Present, Activated, Borrowable, Borrowed, Given, Without;
    c := 0;
    if step.RejectResult? {
      c := s.works[step.w].call;
    } else if step.Decide? {
      c := step.call;
    }
  }

  lemma LateIsMissing(s: State, c: Call, id: Id)
    requires Inv(s) && LateNow(s, c, id)
    ensures Missing(Apply(s, Export(c)), c, id)
  {
    assert ObjectsNamed(s);
    hide Threads, Attempting, Lists;
  }

  /** The step at `i` is a late export that creates the resource. */
  ghost predicate LateExport(steps: seq<Step>, i: nat, id: Id) {
    i < |steps| && steps[i].Export? && LateNow(Run(steps[..i]), steps[i].call, id)
  }

  /** The step at `j` decides the call, or rejects its result, while the route set still accepts. */
  ghost predicate DecidedAt(steps: seq<Step>, j: nat, c: Call) {
    && j < |steps| && Accepting(Run(steps[..j + 1]).mode) && c in Run(steps[..j]).objects
    && c !in Run(steps[..j]).decided
    && c in Run(steps[..j + 1]).decided
  }

  lemma RunNext(steps: seq<Step>, j: nat)
    requires j < |steps|
    ensures Run(steps[..j + 1]) == Apply(Run(steps[..j]), steps[j])
  {
    assert steps[..j + 1] == steps[..j] + [steps[j]];
    RunOne(steps[..j], steps[j]);
  }

  lemma {:induction false} MissingFrom(steps: seq<Step>, n: nat, c: Call, id: Id) returns (i: nat)
    requires n <= |steps| && Missing(Run(steps[..n]), c, id)
    ensures i < n && LateExport(steps, i, id) && steps[i].call == c
    decreases n
  {
    RunZero();
    hide Run, Apply, Missing;
    assert steps[..0] == [];
    NothingMissing(c, id);
    RunNext(steps, n - 1);
    BecomesMissing(Run(steps[..n - 1]), steps[n - 1], c, id);
    if Missing(Run(steps[..n - 1]), c, id) {
      i := MissingFrom(steps, n - 1, c, id);
    } else {
      i := n - 1;
    }
  }

  lemma RunZero()
    ensures Run([]) == Initial()
  {
  }

  lemma NothingMissing(c: Call, id: Id)
    ensures !Missing(Initial(), c, id) && Initial().lost == {}
  {
  }

  /** A lost resource was exported late and its call was decided afterwards, before the route set stopped accepting. */
  lemma {:induction false} LostFrom(steps: seq<Step>, n: nat, id: Id) returns (i: nat, j: nat)
    requires n <= |steps| && id in Run(steps[..n]).lost
    ensures i < j < n && LateExport(steps, i, id) && DecidedAt(steps, j, steps[i].call)
    decreases n
  {
    RunZero();
    hide Run, Apply, Missing;
    assert steps[..0] == [];
    NothingMissing(0, id);
    RunNext(steps, n - 1);
    RunInv(steps[..n - 1]);
    var s := Run(steps[..n - 1]);
    if id in s.lost {
      i, j := LostFrom(steps, n - 1, id);
    } else {
      var c := BecomesLost(s, steps[n - 1], id);
      i := MissingFrom(steps, n - 1, c, id);
      j := n - 1;
      LosingAccepts(s, steps[j], c, id);
    }
  }

  lemma LosingAccepts(s: State, step: Step, c: Call, id: Id)
    requires Missing(s, c, id) && c in Apply(s, step).decided
    ensures c in s.objects && c !in s.decided && Accepting(Apply(s, step).mode)
  {
    CloseSame(s, step);
    CallMonotone(s, step);
    hide Apply;
  }

  lemma {:induction false} LateUntil(steps: seq<Step>, i: nat, id: Id, n: nat)
    requires LateExport(steps, i, id) && i < n <= |steps| && Accepting(Run(steps[..n]).mode)
    ensures Missing(Run(steps[..n]), steps[i].call, id)
      || (steps[i].call in Run(steps[..n]).decided && id in Run(steps[..n]).lost)
    decreases n
  {
    hide Run, Apply, Missing, LateNow;
    RunNext(steps, n - 1);
    var s, c := Run(steps[..n - 1]), steps[i].call;
    RunInv(steps[..n - 1]);
    if n - 1 == i {
      LateIsMissing(s, c, id);
    } else {
      StepMonotone(s, steps[n - 1]);
      LateUntil(steps, i, id, n - 1);
      if Missing(s, c, id) {
        StaysMissing(s, steps[n - 1], c, id);
      }
    }
  }

  lemma {:induction false} LostStays(steps: seq<Step>, n: nat, id: Id)
    requires n <= |steps| && id in Run(steps[..n]).lost
    ensures id in Run(steps).lost
    decreases |steps| - n
  {
    hide Run, Apply;
    if n < |steps| {
      RunNext(steps, n);
      StepMonotone(Run(steps[..n]), steps[n]);
      LostStays(steps, n + 1, id);
    } else {
      assert steps[..n] == steps;
    }
  }

  lemma LateAndDecidedLost(steps: seq<Step>, i: nat, j: nat, id: Id)
    requires i < j && LateExport(steps, i, id) && DecidedAt(steps, j, steps[i].call)
    ensures id in Run(steps).lost
  {
    hide Run, Apply, Missing, LateNow;
    LateUntil(steps, i, id, j + 1);
    MissingUndecided(Run(steps[..j + 1]), steps[i].call, id);
    LostStays(steps, j + 1, id);
  }

  /**
    * A resource is lost if and only if it was exported late and its call was decided afterwards while the route set
    * accepted.
    */
  lemma LostExactly(steps: seq<Step>, id: Id)
    ensures id in Run(steps).lost <==>
      exists i: nat, j: nat :: i < j && LateExport(steps, i, id) && DecidedAt(steps, j, steps[i].call)
  {
    hide Run, DecidedAt, LateNow;
    if id in Run(steps).lost {
      assert steps[..|steps|] == steps;
      var i, j := LostFrom(steps, |steps|, id);
    }
    if i: nat, j: nat :| i < j && LateExport(steps, i, id) && DecidedAt(steps, j, steps[i].call) {
      LateAndDecidedLost(steps, i, j, id);
    }
  }

  lemma MissingUndecided(s: State, c: Call, id: Id)
    ensures Missing(s, c, id) ==> c !in s.decided
  {
  }

  /**
    * When the route set is closed, exactly those resources have had no close attempt that were exported after their
    * result was taken and whose call was then decided or rejected while the route set still accepted.
    */
  lemma UnattemptedExactly(steps: seq<Step>, id: Id)
    requires Run(steps).mode == Closed && 0 < id <= Run(steps).nextResource
    ensures id !in Run(steps).attempted <==>
      exists i: nat, j: nat :: i < j && LateExport(steps, i, id) && DecidedAt(steps, j, steps[i].call)
  {
    ClosedExactly(steps, id);
    LostExactly(steps, id);
    hide Run, LateExport, DecidedAt;
  }
}
