/**
 * The commit explanation controller as a transition system: the locked data, the workers that were spawned and the
 * one request that may have given the lock up. Each event is one critical section, so a run is one interleaving.
 */
module ExplanationSystem {
  import opened Prelude
  import opened ExplanationModel

  datatype Worker = AtPop | Executing(task: Task)

  /** A request between its locked sections: it still has to set the scope, or only to retake the lock. */
  datatype InFlight = InFlight(dispatch: Dispatch, scoped: bool)

  datatype System = System(data: Data, workers: seq<Worker>, inFlight: Option<InFlight>)

  datatype Event =
    | RequestBegins(dispatch: Dispatch, notReady: Option<Code>, audit: Option<Code>, blockAudit: Option<Code>)
    | RequestScopes
    | RequestResumes(blockAudit: Option<Code>)
    | Cancels(cancel: CancelRequest, audit: Option<Code>)
    | ScopeChanges(scope: Scope)
    | ShutdownBegins(audit: Option<Code>)
    | WorkerPops(worker: nat, audit: Option<Code>)
    | WorkerFinishes(worker: nat, outcome: ExecutorOutcome, audit: Option<Code>)

  /** The admission mutex lets one request run at a time; a worker event needs a worker at that place. */
  predicate Enabled(s: System, e: Event) {
    match e
    case RequestBegins(_, _, _, _) => s.inFlight.None?
    case RequestScopes => s.inFlight.Some? && !s.inFlight.value.scoped
    case RequestResumes(_) => s.inFlight.Some? && s.inFlight.value.scoped
    case WorkerPops(w, _) => w < |s.workers| && s.workers[w].AtPop?
    case WorkerFinishes(w, _, _) => w < |s.workers| && s.workers[w].Executing?
    case _ => true
  }

  /** The data after a section; a worker is spawned exactly when the section set `worker_running`. */
  function AfterSection(s: System, d: Data): System {
    System(d, if !s.data.workerRunning && d.workerRunning then s.workers + [AtPop] else s.workers, None)
  }

  function Step(limits: Limits, s: System, e: Event): System
    requires Enabled(s, e)
  {
    match e
    case RequestBegins(dispatch, notReady, audit, blockAudit) =>
      var section := BeginRequest(s.data, limits, dispatch, notReady, audit, blockAudit);
      if section.reply.ScopePending? then s.(data := section.data, inFlight := Some(InFlight(dispatch, false)))
      else AfterSection(s, section.data)
    case RequestScopes =>
      var section := SetScope(s.data, ScopeOf(s.inFlight.value.dispatch.request));
      if section.reply.Refused? then s.(inFlight := None)
      else s.(data := section.data, inFlight := Some(s.inFlight.value.(scoped := true)))
    case RequestResumes(blockAudit) =>
      AfterSection(s, Admit(s.data, limits, s.inFlight.value.dispatch, blockAudit).data)
    case Cancels(cancel, audit) => s.(data := CancelTask(s.data, cancel, audit).data)
    case ScopeChanges(scope) => s.(data := SetScope(s.data, scope).data)
    case ShutdownBegins(audit) => s.(data := BeginShutdown(s.data, audit))
    case WorkerPops(w, audit) =>
      var workers :=
        if s.data.queue == [] then s.workers[..w] + s.workers[w + 1..]
        else if audit.None? then s.workers[w := Executing(s.data.queue[0])]
        else s.workers;
      s.(data := PopTask(s.data, audit), workers := workers)
    case WorkerFinishes(w, outcome, audit) =>
      s.(data := FinishTask(s.data, limits, s.workers[w].task, outcome, audit), workers := s.workers[w := AtPop])
  }

  /** The states of a run, oldest first: `states[i + 1]` follows `states[i]` by `events[i]`. */
  ghost predicate Run(limits: Limits, states: seq<System>, events: seq<Event>) {
    && |states| == |events| + 1
    && forall i :: 0 <= i < |events| ==> Follows(limits, states[i], events[i], states[i + 1])
  }

  ghost predicate Follows(limits: Limits, s: System, e: Event, s': System) {
    Enabled(s, e) && s' == Step(limits, s, e)
  }

  /** A freshly constructed controller; settings and counters come from disk. */
  ghost predicate Initial(s: System) {
    && s.workers == [] && s.inFlight.None?
    && s.data.scope.None? && s.data.generations == map[]
    && s.data.states == map[] && s.data.queue == [] && s.data.active.None?
    && !s.data.workerRunning && !s.data.shuttingDown
    && s.data.cache == map[] && s.data.cacheOrder == []
  }

  // ----- the invariant ------------------------------------------------------------------------------------

  /** The part of the data that lifecycle states speak about. */
  datatype Book = Book(states: map<Key, Lifecycle>, queue: seq<Task>, active: Option<ActiveTask>, cache: map<Key, Cached>)

  function BookOf(d: Data): Book {
    Book(d.states, d.queue, d.active, d.cache)
  }

  /** Some queued task has the key and carries the request. */
  ghost predicate Waiting(queue: seq<Task>, key: Key, request: Request) {
    exists i :: 0 <= i < |queue| && queue[i].key == key && queue[i].dispatch.request == request
  }

  /** What a recorded lifecycle state promises about the queue, the active slot and the cache. */
  ghost predicate Backed(b: Book, k: Key, state: Lifecycle) {
    && KeyOf(state.request) == k
    && state.status != NotGenerated
    && (state.presentationAvailable <==> state.status == Generated)
    && (state.status == Queued ==> Waiting(b.queue, k, state.request))
    && (state.status == Running ==>
          b.active.Some? && b.active.value.task.key == k && b.active.value.task.dispatch.request == state.request)
    && (state.status == Generated ==> k in b.cache && b.cache[k].request == state.request)
  }

  ghost predicate StateBacked(b: Book, k: Key) {
    k in b.states ==> Backed(b, k, b.states[k])
  }

  ghost predicate StatesBacked(b: Book) {
    forall k :: StateBacked(b, k)
  }

  ghost predicate QueueKeyed(queue: seq<Task>) {
    forall i :: 0 <= i < |queue| ==> KeyOf(queue[i].dispatch.request) == queue[i].key
  }

  /** The active task has a state, and that state is not Generated. */
  ghost predicate ActiveHasState(b: Book) {
    b.active.Some? ==>
      && KeyOf(b.active.value.task.dispatch.request) == b.active.value.task.key
      && b.active.value.task.key in b.states
      && b.states[b.active.value.task.key].status != Generated
  }

  ghost predicate BookInv(b: Book) {
    StatesBacked(b) && QueueKeyed(b.queue) && ActiveHasState(b)
  }

  ghost predicate Listed(order: seq<Key>, cache: map<Key, Cached>) {
    && Distinct(order)
    && forall k :: k in order <==> k in cache
  }

  ghost predicate CacheKeyed(cache: map<Key, Cached>) {
    forall k :: k in cache ==> KeyOf(cache[k].request) == k
  }

  ghost predicate ScopeRecorded(scope: Option<Scope>, generations: map<Id, nat>) {
    scope.Some? ==>
      scope.value.workspaceId in generations && generations[scope.value.workspaceId] == scope.value.generation
  }

  function OutstandingCount(d: Data): nat {
    |d.queue| + (if d.active.Some? then 1 else 0)
  }

  ghost predicate WithinLimits(d: Data, limits: Limits) {
    && OutstandingCount(d) <= limits.queueLimit + 1
    && |d.cacheOrder| <= limits.cacheLimit
    && (d.shuttingDown ==> d.queue == [])
  }

  ghost predicate DataInv(d: Data, limits: Limits) {
    && BookInv(BookOf(d))
    && Listed(d.cacheOrder, d.cache) && CacheKeyed(d.cache)
    && ScopeRecorded(d.scope, d.generations)
    && WithinLimits(d, limits)
  }

  /** One worker at most; it runs whenever there is work; it executes exactly the active task. */
  ghost predicate WorkerInv(s: System) {
    && |s.workers| == (if s.data.workerRunning then 1 else 0)
    && (s.data.queue != [] || s.data.active.Some? ==> s.data.workerRunning)
    && (s.data.active.Some? <==> s.workers != [] && s.workers[0].Executing?)
    && (s.data.active.Some? ==>
          && s.workers[0].task.key == s.data.active.value.task.key
          && s.workers[0].task.dispatch.request.requestId == s.data.active.value.executorRequestId)
  }

  ghost predicate SystemInv(limits: Limits, s: System) {
    && DataInv(s.data, limits)
    && WorkerInv(s)
    && (s.inFlight.Some? && s.inFlight.value.scoped ==> s.data.scope.Some?)
  }
}
