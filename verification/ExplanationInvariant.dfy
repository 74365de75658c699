/** Every critical section keeps the controller invariant, hence every reachable state satisfies it. */
module ExplanationInvariant {
  import opened Prelude
  import opened ExplanationModel
  import opened ExplanationSystem

  lemma InitialData(d: Data, limits: Limits)
    requires Initial(System(d, [], None))
    ensures DataInv(d, limits)
  {
  }

  // ----- books --------------------------------------------------------------------------------------------

  /** Only what concerns `key` changed. */
  ghost predicate OnlyKeyChanged(b: Book, b': Book, key: Key) {
    && (forall k :: k in b'.states && k != key ==> k in b.states && b'.states[k] == b.states[k])
    && (forall k :: k in b.cache && k != key ==> k in b'.cache && b'.cache[k] == b.cache[k])
    && (forall k, r :: k != key && Waiting(b.queue, k, r) ==> Waiting(b'.queue, k, r))
    && (b'.active == b.active || (b.active.Some? ==> b.active.value.task.key == key))
  }

  lemma KeyFrame(b: Book, b': Book, key: Key)
    requires StatesBacked(b) && OnlyKeyChanged(b, b', key) && StateBacked(b', key)
    ensures StatesBacked(b')
  {
    forall k ensures StateBacked(b', k) {
      assert StateBacked(b, k);
    }
  }

  /** The state of one key is replaced by a backed one. */
  lemma StateFrame(b: Book, key: Key, state: Lifecycle)
    requires BookInv(b) && Backed(b, key, state)
    requires b.active.Some? && b.active.value.task.key == key ==> state.status != Generated
    ensures BookInv(b.(states := b.states[key := state]))
  {
    KeyFrame(b, b.(states := b.states[key := state]), key);
  }

  lemma WaitingAfterUpdate(queue: seq<Task>, position: nat, task: Task, k: Key, request: Request)
    requires position < |queue| && queue[position].key != k
    requires Waiting(queue, k, request)
    ensures Waiting(queue[position := task], k, request)
  {
    var i :| 0 <= i < |queue| && queue[i].key == k && queue[i].dispatch.request == request;
    assert queue[position := task][i] == queue[i];
  }

  lemma WaitingAfterRemoval(queue: seq<Task>, position: nat, k: Key, request: Request)
    requires position < |queue| && queue[position].key != k
    requires Waiting(queue, k, request)
    ensures Waiting(queue[..position] + queue[position + 1..], k, request)
  {
    var i :| 0 <= i < |queue| && queue[i].key == k && queue[i].dispatch.request == request;
    var rest := queue[..position] + queue[position + 1..];
    assert rest[if i < position then i else i - 1] == queue[i];
  }

  lemma WaitingAfterAppend(queue: seq<Task>, task: Task, k: Key, request: Request)
    ensures Waiting(queue, k, request) ==> Waiting(queue + [task], k, request)
    ensures task.key == k && task.dispatch.request == request ==> Waiting(queue + [task], k, request)
  {
    if Waiting(queue, k, request) {
      var i :| 0 <= i < |queue| && queue[i].key == k && queue[i].dispatch.request == request;
      assert (queue + [task])[i] == queue[i];
    }
    assert (queue + [task])[|queue|] == task;
  }

  /** Taking the task at `position` out of the queue and giving its key a backed state. */
  lemma RemovalFrame(b: Book, position: nat, state: Lifecycle, active: Option<ActiveTask>)
    requires BookInv(b) && position < |b.queue|
    requires active == b.active || b.active.None?
    requires var b' := Book(b.states[b.queue[position].key := state], RemoveAt(b.queue, position), active, b.cache);
             Backed(b', b.queue[position].key, state) && ActiveHasState(b')
    ensures BookInv(Book(b.states[b.queue[position].key := state], RemoveAt(b.queue, position), active, b.cache))
  {
    var key := b.queue[position].key;
    var b' := Book(b.states[key := state], RemoveAt(b.queue, position), active, b.cache);
    forall k, r | k != key && Waiting(b.queue, k, r) ensures Waiting(b'.queue, k, r) {
      WaitingAfterRemoval(b.queue, position, k, r);
    }
    KeyFrame(b, b', key);
  }

  /** A task whose key has no state can leave the queue without further ado. */
  lemma StatelessRemoval(b: Book, position: nat)
    requires BookInv(b) && position < |b.queue| && b.queue[position].key !in b.states
    ensures BookInv(b.(queue := RemoveAt(b.queue, position)))
  {
    var key := b.queue[position].key;
    forall k, r | k != key && Waiting(b.queue, k, r) ensures Waiting(RemoveAt(b.queue, position), k, r) {
      WaitingAfterRemoval(b.queue, position, k, r);
    }
    KeyFrame(b, b.(queue := RemoveAt(b.queue, position)), key);
  }

  // ----- request ------------------------------------------------------------------------------------------

  lemma BlockKeeps(
    d: Data, limits: Limits, request: Request, reason: Code, retryable: bool, audit: Option<Code>)
    requires DataInv(d, limits)
    ensures DataInv(Block(d, request, reason, retryable, audit).data, limits)
  {
    StateFrame(BookOf(d), KeyOf(request), BlockedState(request, reason, retryable, audit));
  }

  /** A live state of the key the dispatch asks for: the only states `Rebind` is called on. */
  ghost predicate Rebindable(d: Data, limits: Limits, dispatch: Dispatch, existing: Lifecycle) {
    && DataInv(d, limits)
    && KeyOf(dispatch.request) in d.states && d.states[KeyOf(dispatch.request)] == existing
    && !Over(existing.status)
  }

  lemma RebindQueuedKeeps(d: Data, limits: Limits, dispatch: Dispatch, existing: Lifecycle)
    requires Rebindable(d, limits, dispatch, existing) && existing.status == Queued
    ensures var section := Rebind(d, dispatch, existing);
            DataInv(section.data, limits) && section.reply == Answered(existing.(request := dispatch.request))
  {
    var key := KeyOf(dispatch.request);
    assert StateBacked(BookOf(d), key);
    var position := FirstWithKey(d.queue, key);
    FirstWithKeyFinds(d.queue, key, 0);
    var queue' := d.queue[position := Task(key, dispatch)];
    assert queue'[position] == Task(key, dispatch);
    forall k, r | k != key && Waiting(d.queue, k, r) ensures Waiting(queue', k, r) {
      WaitingAfterUpdate(d.queue, position, Task(key, dispatch), k, r);
    }
    KeyFrame(BookOf(d), BookOf(Rebind(d, dispatch, existing).data), key);
  }

  lemma RebindOtherKeeps(d: Data, limits: Limits, dispatch: Dispatch, existing: Lifecycle)
    requires Rebindable(d, limits, dispatch, existing) && (existing.status == Running || existing.status == Generated)
    ensures var section := Rebind(d, dispatch, existing);
            DataInv(section.data, limits) && section.reply == Answered(existing.(request := dispatch.request))
  {
    assert StateBacked(BookOf(d), KeyOf(dispatch.request));
    KeyFrame(BookOf(d), BookOf(Rebind(d, dispatch, existing).data), KeyOf(dispatch.request));
  }

  lemma RelabelKeeps(d: Data, limits: Limits, request: Request)
    requires DataInv(d, limits)
    requires KeyOf(request) in d.states && Over(d.states[KeyOf(request)].status)
    ensures DataInv(d.(states := d.states[KeyOf(request) := d.states[KeyOf(request)].(request := request)]), limits)
  {
    var key := KeyOf(request);
    assert StateBacked(BookOf(d), key);
    StateFrame(BookOf(d), key, d.states[key].(request := request));
  }

  lemma EnqueuedBook(b: Book, task: Task, state: Lifecycle)
    requires BookInv(b) && KeyOf(task.dispatch.request) == task.key
    requires state == Fresh(task.dispatch.request, Queued)
    ensures BookInv(b.(states := b.states[task.key := state], queue := b.queue + [task]))
  {
    var b' := b.(states := b.states[task.key := state], queue := b.queue + [task]);
    forall k, r ensures Waiting(b.queue, k, r) ==> Waiting(b'.queue, k, r) {
      WaitingAfterAppend(b.queue, task, k, r);
    }
    WaitingAfterAppend(b.queue, task, task.key, state.request);
    KeyFrame(b, b', task.key);
  }

  lemma EnqueueKeeps(d: Data, limits: Limits, dispatch: Dispatch, blockAudit: Option<Code>)
    requires DataInv(d, limits) && !d.shuttingDown
    ensures DataInv(Enqueue(d, limits, dispatch, blockAudit).data, limits)
  {
    if OutstandingCount(d) < limits.queueLimit + 1 {
      EnqueuedBook(BookOf(d), Task(KeyOf(dispatch.request), dispatch), Fresh(dispatch.request, Queued));
    } else {
      BlockKeeps(d, limits, dispatch.request, QueueFullCode, true, blockAudit);
    }
  }

  lemma AdmitScopedKeeps(d: Data, limits: Limits, dispatch: Dispatch, blockAudit: Option<Code>)
    requires DataInv(d, limits) && !d.shuttingDown
    ensures var section := AdmitScoped(d, limits, dispatch, blockAudit);
            && DataInv(section.data, limits)
            && section.reply != Refused(StateMissingCode) && !section.reply.ScopePending?
  {
    var request := dispatch.request;
    var key := KeyOf(request);
    if key !in d.states {
      EnqueueKeeps(d, limits, dispatch, blockAudit);
    } else if CanRebind(d.states[key], request) {
      assert StateBacked(BookOf(d), key);
      if d.states[key].status == Queued {
        RebindQueuedKeeps(d, limits, dispatch, d.states[key]);
      } else if !Over(d.states[key].status) {
        RebindOtherKeeps(d, limits, dispatch, d.states[key]);
      } else if request.trigger != UserRetry {
        RelabelKeeps(d, limits, request);
      } else {
        EnqueueKeeps(d, limits, dispatch, blockAudit);
      }
    }
  }

  ghost predicate GenerationRecorded(d: Data, request: Request) {
    request.workspaceId in d.generations && d.generations[request.workspaceId] == request.generation
  }

  /** A request is admitted with its generation recorded, or under a scope that someone set. */
  lemma AdmitKeeps(d: Data, limits: Limits, dispatch: Dispatch, blockAudit: Option<Code>)
    requires DataInv(d, limits)
    requires d.scope.Some? || GenerationRecorded(d, dispatch.request)
    ensures var section := Admit(d, limits, dispatch, blockAudit);
            && DataInv(section.data, limits)
            && section.reply != Refused(StateMissingCode) && !section.reply.ScopePending?
  {
    var request := dispatch.request;
    if d.shuttingDown {
      BlockKeeps(d, limits, request, ShutdownCode, false, blockAudit);
    } else if d.scope.Some? && !ScopeMatches(d.scope.value, request) {
      BlockKeeps(d, limits, request, WorkspaceStaleCode, true, blockAudit);
    } else {
      AdmitScopedKeeps(d.(scope := Some(ScopeOf(request))), limits, dispatch, blockAudit);
    }
  }

  lemma CheckGenerationKeeps(d: Data, limits: Limits, dispatch: Dispatch, blockAudit: Option<Code>)
    requires DataInv(d, limits)
    ensures var section := CheckGeneration(d, limits, dispatch, blockAudit);
            DataInv(section.data, limits) && section.reply != Refused(StateMissingCode)
  {
    var request := dispatch.request;
    if request.workspaceId !in d.generations {
      AdmitKeeps(d.(generations := d.generations[request.workspaceId := request.generation]), limits, dispatch, blockAudit);
    } else if d.generations[request.workspaceId] > request.generation {
      BlockKeeps(d, limits, request, WorkspaceStaleCode, true, blockAudit);
    } else if d.generations[request.workspaceId] == request.generation {
      AdmitKeeps(d, limits, dispatch, blockAudit);
    }
  }

  lemma BeginRequestKeeps(
    d: Data, limits: Limits, dispatch: Dispatch, notReady: Option<Code>,
    audit: Option<Code>, blockAudit: Option<Code>)
    requires DataInv(d, limits)
    ensures var section := BeginRequest(d, limits, dispatch, notReady, audit, blockAudit);
            DataInv(section.data, limits) && section.reply != Refused(StateMissingCode)
  {
    var request := dispatch.request;
    var d1 := d.(control := PersistAudit(CountAttempt(d.control), audit));
    var gate := GateReason(d1.control, notReady);
    if audit.Some? {
      BlockKeeps(d1, limits, request, audit.value, true, blockAudit);
    } else if gate.Some? {
      BlockKeeps(d1, limits, request, gate.value, true, blockAudit);
    } else if d1.shuttingDown {
      BlockKeeps(d1, limits, request, ShutdownCode, false, blockAudit);
    } else {
      CheckGenerationKeeps(d1, limits, dispatch, blockAudit);
    }
  }

  // ----- cancel and shutdown ------------------------------------------------------------------------------

  lemma CancelActiveKeeps(d: Data, limits: Limits, audit: Option<Code>)
    requires DataInv(d, limits) && d.active.Some?
    ensures DataInv(CancelActive(d, audit).data, limits)
  {
    var key := d.active.value.task.key;
    assert StateBacked(BookOf(d), key);
    var b1 := BookOf(d).(states := d.states[key := CanceledWith(d.states[key], CanceledCode)]);
    StateFrame(BookOf(d), key, b1.states[key]);
    KeyFrame(b1, b1.(active := Some(d.active.value.(canceled := true))), key);
  }

  lemma CancelQueuedKeeps(d: Data, limits: Limits, position: nat, audit: Option<Code>)
    requires DataInv(d, limits) && position < |d.queue|
    ensures DataInv(CancelQueued(d, position, audit).data, limits)
  {
    var key := d.queue[position].key;
    assert StateBacked(BookOf(d), key);
    if key in d.states {
      RemovalFrame(BookOf(d), position, CanceledWith(d.states[key], CanceledCode), d.active);
    } else {
      StatelessRemoval(BookOf(d), position);
    }
  }

  lemma CancelKeeps(d: Data, limits: Limits, cancel: CancelRequest, audit: Option<Code>)
    requires DataInv(d, limits)
    ensures DataInv(CancelTask(d, cancel, audit).data, limits)
  {
    if NamesActive(d, cancel) {
      CancelActiveKeeps(d, limits, audit);
    } else if FirstNamed(d.queue, cancel) < |d.queue| {
      CancelQueuedKeeps(d, limits, FirstNamed(d.queue, cancel), audit);
    }
  }

  lemma BeginShutdownKeeps(d: Data, limits: Limits, audit: Option<Code>)
    requires DataInv(d, limits)
    ensures DataInv(BeginShutdown(d, audit), limits)
  {
    var b := BookOf(d);
    var b' := BookOf(BeginShutdown(d, audit));
    forall k ensures StateBacked(b', k) {
      assert StateBacked(b, k);
      if k in d.states && Waiting(d.queue, k, d.states[k].request) {
        var i :| 0 <= i < |d.queue| && d.queue[i].key == k && d.queue[i].dispatch.request == d.states[k].request;
        assert d.queue[i] in d.queue;
        assert Outstanding(d.queue, d.active, k);
      }
    }
  }

  // ----- worker -------------------------------------------------------------------------------------------

  lemma PopKeeps(d: Data, limits: Limits, audit: Option<Code>)
    requires DataInv(d, limits) && d.active.None?
    ensures DataInv(PopTask(d, audit), limits)
  {
    if d.queue != [] {
      var task := d.queue[0];
      assert RemoveAt(d.queue, 0) == d.queue[1..];
      if audit.None? {
        RemovalFrame(BookOf(d), 0, Fresh(task.dispatch.request, Running),
                     Some(ActiveTask(task, task.dispatch.request.requestId, false)));
      } else {
        RemovalFrame(BookOf(d), 0, Terminal(task.dispatch.request, Unavailable, true, audit.value), None);
      }
    }
  }

  // ----- cache --------------------------------------------------------------------------------------------

  /** Cutting a duplicate-free listing in two gives two disjoint duplicate-free listings. */
  lemma CutListing(order: seq<Key>, cut: nat)
    requires Distinct(order) && cut <= |order|
    ensures Distinct(order[cut..])
    ensures forall k :: k in order[cut..] <==> k in order && k !in order[..cut]
  {
    assert order == order[..cut] + order[cut..];
  }

  lemma RememberListed(d: Data, key: Key, cached: Cached)
    requires Listed(d.cacheOrder, d.cache)
    ensures var d' := Remember(d, key, cached);
            && Listed(d'.cacheOrder, d'.cache)
            && d'.cacheOrder != [] && d'.cacheOrder[|d'.cacheOrder| - 1] == key
            && key in d'.cache && d'.cache[key] == cached
            && (CacheKeyed(d.cache) && KeyOf(cached.request) == key ==> CacheKeyed(d'.cache))
  {
    WithoutKeepsDistinct(d.cacheOrder, key);
  }

  lemma EvictListed(d: Data, count: nat)
    requires Listed(d.cacheOrder, d.cache) && count <= |d.cacheOrder|
    ensures var d' := Evict(d, count); Listed(d'.cacheOrder, d'.cache) && |d'.cacheOrder| == |d.cacheOrder| - count
    ensures CacheKeyed(d.cache) ==> CacheKeyed(Evict(d, count).cache)
  {
    CutListing(d.cacheOrder, count);
  }

  lemma NewestSurvives(d: Data, count: nat, key: Key)
    requires Listed(d.cacheOrder, d.cache) && count < |d.cacheOrder| && d.cacheOrder[|d.cacheOrder| - 1] == key
    ensures key in Evict(d, count).cache && Evict(d, count).cache[key] == d.cache[key]
  {
    CutListing(d.cacheOrder, count);
    assert d.cacheOrder[count..][|d.cacheOrder| - 1 - count] == key;
  }

  /** Eviction keeps a duplicate-free listing within the limit and never drops the key just inserted. */
  lemma InsertCacheKeeps(d: Data, key: Key, cached: Cached, limit: nat)
    requires Listed(d.cacheOrder, d.cache) && CacheKeyed(d.cache) && KeyOf(cached.request) == key && limit >= 1
    ensures var d' := InsertCache(d, key, cached, limit);
            && Listed(d'.cacheOrder, d'.cache) && CacheKeyed(d'.cache)
            && |d'.cacheOrder| <= limit
            && key in d'.cache && d'.cache[key] == cached
  {
    hide Remember, Evict, Listed, CacheKeyed;
    var d1 := Remember(d, key, cached);
    RememberListed(d, key, cached);
    if |d1.cacheOrder| > limit {
      EvictListed(d1, |d1.cacheOrder| - limit);
      NewestSurvives(d1, |d1.cacheOrder| - limit, key);
    } else {
      EvictListed(d1, 0);
      NewestSurvives(d1, 0, key);
    }
  }

  lemma CacheSize(order: seq<Key>, cache: map<Key, Cached>)
    requires Listed(order, cache)
    ensures |cache| == |order|
  {
    ListingSize(order, cache.Keys);
  }

  lemma EvictNone(d: Data)
    ensures Evict(d, 0) == d
  {
    assert d.cacheOrder[..0] == [];
  }

  lemma EvictFirst(d: Data)
    requires d.cacheOrder != []
    ensures var k := d.cacheOrder[0]; var d' := Evict(d, 1);
            && d'.cache == d.cache - {k}
            && d'.states == (if k in d.states && d.states[k].status == Generated then d.states - {k} else d.states)
  {
    assert d.cacheOrder[..1] == [d.cacheOrder[0]];
  }

  /** Evicting one more entry is evicting the then oldest one. */
  lemma EvictOneMore(d: Data, count: nat)
    requires count < |d.cacheOrder|
    ensures Evict(Evict(d, count), 1) == Evict(d, count + 1)
  {
    var once, twice := Evict(d, count), Evict(d, count + 1);
    assert once.cacheOrder[..1] == [d.cacheOrder[count]];
    assert d.cacheOrder[..count + 1] == d.cacheOrder[..count] + [d.cacheOrder[count]];
    assert Evict(once, 1).cache == twice.cache;
    assert Evict(once, 1).states == twice.states;
  }

  // ----- finish -------------------------------------------------------------------------------------------

  /** Every key but `key` is backed, and nothing is running: the books a worker records an outcome into. */
  ghost predicate OthersBacked(b: Book, key: Key) {
    b.active.None? && QueueKeyed(b.queue) && forall k :: k != key ==> StateBacked(b, k)
  }

  lemma Released(b: Book)
    requires BookInv(b) && b.active.Some?
    ensures OthersBacked(b.(active := None), b.active.value.task.key)
  {
    forall k | k != b.active.value.task.key ensures StateBacked(b.(active := None), k) {
      assert StateBacked(b, k);
    }
  }

  lemma Recorded(b: Book, key: Key, state: Lifecycle)
    requires OthersBacked(b, key) && Backed(b, key, state)
    ensures BookInv(b.(states := b.states[key := state]))
  {
    var b' := b.(states := b.states[key := state]);
    forall k ensures StateBacked(b', k) {
      if k != key {
        assert StateBacked(b, k);
      }
    }
  }

  lemma RememberOthers(d: Data, key: Key, cached: Cached)
    requires OthersBacked(BookOf(d), key)
    ensures OthersBacked(BookOf(Remember(d, key, cached)), key)
  {
    forall k | k != key ensures StateBacked(BookOf(Remember(d, key, cached)), k) {
      assert StateBacked(BookOf(d), k);
    }
  }

  lemma EvictOthers(d: Data, key: Key, count: nat)
    requires OthersBacked(BookOf(d), key) && count <= |d.cacheOrder|
    ensures OthersBacked(BookOf(Evict(d, count)), key)
  {
    forall k | k != key ensures StateBacked(BookOf(Evict(d, count)), k) {
      assert StateBacked(BookOf(d), k);
    }
  }

  lemma InsertCacheOthers(d: Data, key: Key, cached: Cached, limit: nat)
    requires OthersBacked(BookOf(d), key)
    ensures OthersBacked(BookOf(InsertCache(d, key, cached, limit)), key)
  {
    var d1 := Remember(d, key, cached);
    RememberOthers(d, key, cached);
    if |d1.cacheOrder| > limit {
      EvictOthers(d1, key, |d1.cacheOrder| - limit);
    } else {
      EvictOthers(d1, key, 0);
    }
  }

  /** The parts of the invariant that are not about lifecycle states. */
  ghost predicate ShelfInv(d: Data, limits: Limits) {
    && Listed(d.cacheOrder, d.cache) && CacheKeyed(d.cache)
    && ScopeRecorded(d.scope, d.generations)
    && WithinLimits(d, limits)
  }

  ghost predicate ReadyToRecord(d: Data, limits: Limits, key: Key) {
    OthersBacked(BookOf(d), key) && ShelfInv(d, limits) && limits.cacheLimit >= 1
  }

  lemma SuccessKeeps(d: Data, limits: Limits, task: Task, request: Request, result: ExplainResult)
    requires ReadyToRecord(d, limits, task.key) && KeyOf(request) == task.key && Matching(task, result)
    ensures DataInv(RecordOutcome(d, limits, task, request, Ok(result)), limits)
    ensures RecordOutcome(d, limits, task, request, Ok(result)).active.None?
  {
    InsertCacheOthers(d, task.key, Cached(request, result), limits.cacheLimit);
    InsertCacheKeeps(d, task.key, Cached(request, result), limits.cacheLimit);
    var d1 := InsertCache(d, task.key, Cached(request, result), limits.cacheLimit);
    Recorded(BookOf(d1), task.key, Fresh(request, Generated).(presentationAvailable := true));
  }

  lemma StaleKeeps(d: Data, limits: Limits, task: Task, request: Request, result: ExplainResult)
    requires ReadyToRecord(d, limits, task.key) && KeyOf(request) == task.key && !Matching(task, result)
    ensures DataInv(RecordOutcome(d, limits, task, request, Ok(result)), limits)
    ensures RecordOutcome(d, limits, task, request, Ok(result)).active.None?
  {
    Recorded(BookOf(d), task.key, Terminal(request, Failed, true, ResultStaleCode));
  }

  lemma ErrorKeeps(d: Data, limits: Limits, task: Task, request: Request, error: RuntimeError)
    requires ReadyToRecord(d, limits, task.key) && KeyOf(request) == task.key
    ensures DataInv(RecordOutcome(d, limits, task, request, Err(error)), limits)
    ensures RecordOutcome(d, limits, task, request, Err(error)).active.None?
  {
    Recorded(BookOf(d), task.key, Terminal(request, ErrorStatus(error), true, ErrorCode(error)));
  }

  /** A failed audit save takes the new cache entry back and leaves the task Unavailable. */
  lemma UnsavedKeeps(d: Data, limits: Limits, key: Key, request: Request, code: Code)
    requires DataInv(d, limits) && d.active.None? && KeyOf(request) == key
    ensures DataInv(Unsaved(d, key, request, code), limits) && Unsaved(d, key, request, code).active.None?
  {
    WithoutKeepsDistinct(d.cacheOrder, key);
    var b' := BookOf(Unsaved(d, key, request, code));
    forall k ensures StateBacked(b', k) {
      assert StateBacked(BookOf(d), k);
    }
  }

  lemma DiscardKeeps(d: Data, limits: Limits)
    requires DataInv(d, limits) && d.active.Some? && d.active.value.task.key in d.states
    requires d.states[d.active.value.task.key].status == Canceled
    ensures DataInv(d.(active := None), limits)
  {
    var key := d.active.value.task.key;
    Released(BookOf(d));
    assert StateBacked(BookOf(d), key);
    Recorded(BookOf(d).(active := None), key, d.states[key]);
    assert d.states[key := d.states[key]] == d.states;
  }

  lemma RecordKeeps(d: Data, limits: Limits, task: Task, request: Request, outcome: ExecutorOutcome)
    requires ReadyToRecord(d, limits, task.key) && KeyOf(request) == task.key
    ensures DataInv(RecordOutcome(d, limits, task, request, outcome), limits)
    ensures RecordOutcome(d, limits, task, request, outcome).active.None?
  {
    match outcome
    case Ok(result) =>
      if Matching(task, result) {
        SuccessKeeps(d, limits, task, request, result);
      } else {
        StaleKeeps(d, limits, task, request, result);
      }
    case Err(error) => ErrorKeeps(d, limits, task, request, error);
  }

  lemma FinishKeeps(d: Data, limits: Limits, task: Task, outcome: ExecutorOutcome, audit: Option<Code>)
    requires DataInv(d, limits) && limits.cacheLimit >= 1
    requires d.active.Some? && d.active.value.task.key == task.key
    requires d.active.value.executorRequestId == task.dispatch.request.requestId
    ensures DataInv(FinishTask(d, limits, task, outcome, audit), limits)
    ensures FinishTask(d, limits, task, outcome, audit).active.None?
  {
    var request := d.active.value.task.dispatch.request;
    if Discarded(d, task) {
      DiscardKeeps(d, limits);
    } else {
      Released(BookOf(d));
      RecordKeeps(d.(active := None), limits, task, request, outcome);
      if audit.Some? {
        UnsavedKeeps(RecordOutcome(d.(active := None), limits, task, request, outcome), limits, task.key, request, audit.value);
      }
    }
  }
}
