/**
 * Latest rebind wins: while a key has an undisturbed task, each accepted request only ever raises the selection
 * version, never turns a user request into an automatic one, and the last one is what the result is shown under.
 */
module ExplanationRebind {
  import opened Prelude
  import opened ExplanationModel
  import opened ExplanationSystem
  import opened ExplanationInvariant
  import opened ExplanationRuns
  import opened ExplanationSafety

  // ----- one key at a time --------------------------------------------------------------------------------

  /** The requests of the queued tasks with this key, in order. */
  function TasksOf(queue: seq<Task>, k: Key): seq<Request> {
    if queue == [] then []
    else (if queue[0].key == k then [queue[0].dispatch.request] else []) + TasksOf(queue[1..], k)
  }

  lemma {:induction false} TasksOfConcat(q: seq<Task>, r: seq<Task>, k: Key)
    ensures TasksOf(q + r, k) == TasksOf(q, k) + TasksOf(r, k)
  {
    if q == [] {
      assert q + r == r;
    } else {
      assert (q + r)[1..] == q[1..] + r;
      TasksOfConcat(q[1..], r, k);
    }
  }

  lemma TasksOfSingle(task: Task, k: Key)
    ensures TasksOf([task], k) == if task.key == k then [task.dispatch.request] else []
  {
  }

  lemma TasksOfSplit(q: seq<Task>, p: nat, k: Key)
    requires p < |q|
    ensures TasksOf(q, k) == TasksOf(q[..p], k) + TasksOf([q[p]], k) + TasksOf(q[p + 1..], k)
  {
    assert q == q[..p] + [q[p]] + q[p + 1..];
    TasksOfConcat(q[..p] + [q[p]], q[p + 1..], k);
    TasksOfConcat(q[..p], [q[p]], k);
  }

  lemma TasksOfUpdate(q: seq<Task>, p: nat, task: Task, k: Key)
    requires p < |q| && task.key == q[p].key
    ensures TasksOf(q[p := task], k) == TasksOf(q[..p], k) + TasksOf([task], k) + TasksOf(q[p + 1..], k)
  {
    var q' := q[p := task];
    TasksOfSplit(q', p, k);
    assert q'[..p] == q[..p] && q'[p + 1..] == q[p + 1..];
  }

  lemma TasksOfRemoval(q: seq<Task>, p: nat, k: Key)
    requires p < |q|
    ensures TasksOf(RemoveAt(q, p), k) == TasksOf(q[..p], k) + TasksOf(q[p + 1..], k)
  {
    TasksOfConcat(q[..p], q[p + 1..], k);
  }

  /** Everything the data says about one key's task: its state, its queued requests and its active request. */
  datatype Trace = Trace(state: Option<Lifecycle>, waiting: seq<Request>, running: Option<Request>)

  function TraceOf(d: Data, k: Key): Trace {
    Trace(if k in d.states then Some(d.states[k]) else None,
          TasksOf(d.queue, k),
          if d.active.Some? && d.active.value.task.key == k then Some(d.active.value.task.dispatch.request) else None)
  }

  /** At most one task, and the state of the key is exactly that task's. */
  ghost predicate Tracked(t: Trace) {
    && (t.running.None? || t.waiting == []) && |t.waiting| <= 1
    && (|t.waiting| == 1 ==> t.state.Some? && t.state.value.status == Queued && t.state.value.request == t.waiting[0])
    && (t.running.Some? ==> t.state.Some? && t.state.value.status == Running && t.state.value.request == t.running.value)
  }

  ghost predicate Live(t: Trace) {
    t.waiting != [] || t.running.Some?
  }

  // ----- requests -----------------------------------------------------------------------------------------

  /** The section a request event runs, if it is one. */
  function SectionOf(limits: Limits, s: System, e: Event): Section
    requires Enabled(s, e) && (e.RequestBegins? || e.RequestResumes?)
  {
    if e.RequestBegins? then BeginRequest(s.data, limits, e.dispatch, e.notReady, e.audit, e.blockAudit)
    else Admit(s.data, limits, s.inFlight.value.dispatch, e.blockAudit)
  }

  function RequestOf(s: System, e: Event): Request
    requires Enabled(s, e) && (e.RequestBegins? || e.RequestResumes?)
  {
    if e.RequestBegins? then e.dispatch.request else s.inFlight.value.dispatch.request
  }

  /** The event answers a request for this key with a state that carries that request. */
  ghost predicate Accepts(limits: Limits, s: System, e: Event, k: Key) {
    && Enabled(s, e) && (e.RequestBegins? || e.RequestResumes?)
    && KeyOf(RequestOf(s, e)) == k
    && var reply := SectionOf(limits, s, e).reply; reply.Answered? && reply.state.request == RequestOf(s, e)
  }

  /** The event blocks a request for this key, or cancels its task. */
  ghost predicate Disturbs(limits: Limits, s: System, e: Event, k: Key)
    requires Enabled(s, e)
  {
    match e
    case RequestBegins(_, _, _, _) => KeyOf(RequestOf(s, e)) == k && SectionOf(limits, s, e).reply.Blocked?
    case RequestResumes(_) => KeyOf(RequestOf(s, e)) == k && SectionOf(limits, s, e).reply.Blocked?
    case Cancels(cancel, _) =>
      if NamesActive(s.data, cancel) then s.data.active.value.task.key == k
      else var p := FirstNamed(s.data.queue, cancel); p < |s.data.queue| && s.data.queue[p].key == k
    case ShutdownBegins(_) => true
    case _ => false
  }

  /** A later request may not lower the version, nor replace a user's trigger by the automatic one. */
  ghost predicate Supersedes(later: Request, earlier: Request) {
    && earlier.selectionVersion <= later.selectionVersion
    && (earlier.trigger != AutoVerifiedCommit ==> later.trigger != AutoVerifiedCommit)
  }

  /** How a section for a request may move the trace of a key. */
  ghost predicate RequestMoves(t: Trace, t': Trace, request: Request, reply: Reply, k: Key) {
    if KeyOf(request) != k then t' == t
    else if reply.Answered? && reply.state.request == request then AcceptedMoves(t, t', request)
    else reply.Blocked? || t' == t
  }

  ghost predicate AcceptedMoves(t: Trace, t': Trace, request: Request) {
    && Tracked(t')
    && t'.state.Some? && t'.state.value.request == request
    && (t.state.Some? ==> Supersedes(request, t.state.value.request))
    && (Live(t) ==> Live(t'))
  }

  /** Rebinding the first queued task of a key leaves one task of that key, with the new request, and other keys alone. */
  lemma RebindQueuedTasks(queue: seq<Task>, dispatch: Dispatch, k: Key)
    requires FirstWithKey(queue, KeyOf(dispatch.request)) < |queue|
    ensures var queue' := queue[FirstWithKey(queue, KeyOf(dispatch.request)) := Task(KeyOf(dispatch.request), dispatch)];
            && (KeyOf(dispatch.request) != k ==> TasksOf(queue', k) == TasksOf(queue, k))
            && (KeyOf(dispatch.request) == k && |TasksOf(queue, k)| <= 1 ==>
                  |TasksOf(queue, k)| == 1 && TasksOf(queue', k) == [dispatch.request])
  {
    var key := KeyOf(dispatch.request);
    var position := FirstWithKey(queue, key);
    FirstWithKeyFinds(queue, key, 0);
    TasksOfSplit(queue, position, k);
    TasksOfUpdate(queue, position, Task(key, dispatch), k);
    TasksOfSingle(queue[position], k);
    TasksOfSingle(Task(key, dispatch), k);
    hide TasksOf, FirstWithKey;
    if key == k && |TasksOf(queue, k)| <= 1 {
      assert TasksOf(queue[..position], k) == [] && TasksOf(queue[position + 1..], k) == [];
    }
  }

  lemma RebindQueuedMoves(d: Data, dispatch: Dispatch, existing: Lifecycle, k: Key)
    requires KeyOf(dispatch.request) in d.states && d.states[KeyOf(dispatch.request)] == existing
    requires CanRebind(existing, dispatch.request) && Tracked(TraceOf(d, k))
    requires existing.status == Queued && FirstWithKey(d.queue, KeyOf(dispatch.request)) < |d.queue|
    ensures var section := Rebind(d, dispatch, existing);
            RequestMoves(TraceOf(d, k), TraceOf(section.data, k), dispatch.request, section.reply, k)
  {
    RebindQueuedTasks(d.queue, dispatch, k);
    hide TasksOf, FirstWithKey;
  }

  lemma RebindMoves(d: Data, dispatch: Dispatch, existing: Lifecycle, k: Key)
    requires KeyOf(dispatch.request) in d.states && d.states[KeyOf(dispatch.request)] == existing
    requires CanRebind(existing, dispatch.request) && Tracked(TraceOf(d, k))
    ensures var section := Rebind(d, dispatch, existing);
            RequestMoves(TraceOf(d, k), TraceOf(section.data, k), dispatch.request, section.reply, k)
  {
    hide TasksOf, FirstWithKey;
    if existing.status == Queued && FirstWithKey(d.queue, KeyOf(dispatch.request)) < |d.queue| {
      RebindQueuedMoves(d, dispatch, existing, k);
    }
  }

  lemma EnqueuedMoves(d: Data, dispatch: Dispatch, k: Key)
    requires KeyOf(dispatch.request) == k && k in d.states ==> CanRebind(d.states[k], dispatch.request) && Over(d.states[k].status)
    requires Tracked(TraceOf(d, k))
    ensures var t' := TraceOf(Enqueued(d, dispatch), k);
            if KeyOf(dispatch.request) == k then AcceptedMoves(TraceOf(d, k), t', dispatch.request)
            else t' == TraceOf(d, k)
  {
    TasksOfConcat(d.queue, [Task(KeyOf(dispatch.request), dispatch)], k);
  }

  lemma EnqueueMoves(d: Data, limits: Limits, dispatch: Dispatch, blockAudit: Option<Code>, k: Key)
    requires KeyOf(dispatch.request) == k && k in d.states ==> CanRebind(d.states[k], dispatch.request) && Over(d.states[k].status)
    requires Tracked(TraceOf(d, k))
    ensures var section := Enqueue(d, limits, dispatch, blockAudit);
            RequestMoves(TraceOf(d, k), TraceOf(section.data, k), dispatch.request, section.reply, k)
  {
    EnqueuedMoves(d, dispatch, k);
    BlockMoves(d, dispatch.request, QueueFullCode, true, blockAudit, k);
  }

  lemma BlockMoves(d: Data, request: Request, reason: Code, retryable: bool, audit: Option<Code>, k: Key)
    ensures var section := Block(d, request, reason, retryable, audit);
            RequestMoves(TraceOf(d, k), TraceOf(section.data, k), request, section.reply, k)
  {
  }

  lemma AdmitScopedMoves(d: Data, limits: Limits, dispatch: Dispatch, blockAudit: Option<Code>, k: Key)
    requires Tracked(TraceOf(d, k))
    ensures var section := AdmitScoped(d, limits, dispatch, blockAudit);
            RequestMoves(TraceOf(d, k), TraceOf(section.data, k), dispatch.request, section.reply, k)
  {
    var key := KeyOf(dispatch.request);
    if key in d.states {
      var existing := d.states[key];
      if CanRebind(existing, dispatch.request) {
        if !Over(existing.status) {
          RebindMoves(d, dispatch, existing, k);
        } else if dispatch.request.trigger == UserRetry {
          EnqueueMoves(d, limits, dispatch, blockAudit, k);
        } else {
          RelabelMoves(d, dispatch.request, k);
        }
      }
    } else if dispatch.request.trigger != UserRetry {
      EnqueueMoves(d, limits, dispatch, blockAudit, k);
    }
  }

  lemma RelabelMoves(d: Data, request: Request, k: Key)
    requires Tracked(TraceOf(d, k)) && KeyOf(request) in d.states
    requires Over(d.states[KeyOf(request)].status) && CanRebind(d.states[KeyOf(request)], request)
    ensures var rebound := d.states[KeyOf(request)].(request := request);
            RequestMoves(TraceOf(d, k), TraceOf(d.(states := d.states[KeyOf(request) := rebound]), k), request, Answered(rebound), k)
  {
  }

  lemma AdmitMoves(d: Data, limits: Limits, dispatch: Dispatch, blockAudit: Option<Code>, k: Key)
    requires Tracked(TraceOf(d, k))
    ensures var section := Admit(d, limits, dispatch, blockAudit);
            RequestMoves(TraceOf(d, k), TraceOf(section.data, k), dispatch.request, section.reply, k)
  {
    if !d.shuttingDown && (d.scope.Some? ==> ScopeMatches(d.scope.value, dispatch.request)) {
      AdmitScopedMoves(d.(scope := Some(ScopeOf(dispatch.request))), limits, dispatch, blockAudit, k);
    }
  }

  lemma CheckGenerationMoves(d: Data, limits: Limits, dispatch: Dispatch, blockAudit: Option<Code>, k: Key)
    requires Tracked(TraceOf(d, k))
    ensures var section := CheckGeneration(d, limits, dispatch, blockAudit);
            RequestMoves(TraceOf(d, k), TraceOf(section.data, k), dispatch.request, section.reply, k)
  {
    var workspace := dispatch.request.workspaceId;
    if workspace !in d.generations {
      AdmitMoves(d.(generations := d.generations[workspace := dispatch.request.generation]), limits, dispatch, blockAudit, k);
    } else if d.generations[workspace] == dispatch.request.generation {
      AdmitMoves(d, limits, dispatch, blockAudit, k);
    }
  }

  lemma BeginRequestMoves(
    d: Data, limits: Limits, dispatch: Dispatch, notReady: Option<Code>, audit: Option<Code>, blockAudit: Option<Code>, k: Key)
    requires Tracked(TraceOf(d, k))
    ensures var section := BeginRequest(d, limits, dispatch, notReady, audit, blockAudit);
            RequestMoves(TraceOf(d, k), TraceOf(section.data, k), dispatch.request, section.reply, k)
  {
    var d1 := d.(control := PersistAudit(CountAttempt(d.control), audit));
    var gate := GateReason(d1.control, notReady);
    if audit.Some? {
      BlockMoves(d1, dispatch.request, audit.value, true, blockAudit, k);
    } else if gate.Some? {
      BlockMoves(d1, dispatch.request, gate.value, true, blockAudit, k);
    } else if !d1.shuttingDown {
      CheckGenerationMoves(d1, limits, dispatch, blockAudit, k);
    }
  }

  lemma SectionMoves(limits: Limits, s: System, e: Event, k: Key)
    requires Enabled(s, e) && (e.RequestBegins? || e.RequestResumes?) && Tracked(TraceOf(s.data, k))
    ensures var section := SectionOf(limits, s, e);
            RequestMoves(TraceOf(s.data, k), TraceOf(section.data, k), RequestOf(s, e), section.reply, k)
  {
    if e.RequestBegins? {
      BeginRequestMoves(s.data, limits, e.dispatch, e.notReady, e.audit, e.blockAudit, k);
    } else {
      AdmitMoves(s.data, limits, s.inFlight.value.dispatch, e.blockAudit, k);
    }
  }

  // ----- the other events ---------------------------------------------------------------------------------

  lemma CancelMoves(d: Data, cancel: CancelRequest, audit: Option<Code>, k: Key)
    requires NamesActive(d, cancel) ==> d.active.value.task.key != k
    requires !NamesActive(d, cancel) && FirstNamed(d.queue, cancel) < |d.queue| ==>
               d.queue[FirstNamed(d.queue, cancel)].key != k
    ensures TraceOf(CancelTask(d, cancel, audit).data, k) == TraceOf(d, k)
  {
    var position := FirstNamed(d.queue, cancel);
    if NamesActive(d, cancel) {
      MarkMoves(d, d.active.value.task.key, d.queue, Some(d.active.value.(canceled := true)), audit, k);
    } else if position < |d.queue| {
      TasksOfSplit(d.queue, position, k);
      TasksOfRemoval(d.queue, position, k);
      assert TasksOf([d.queue[position]], k) == [];
      MarkMoves(d, d.queue[position].key, RemoveAt(d.queue, position), d.active, audit, k);
    }
  }

  lemma MarkMoves(
    d: Data, key: Key, queue: seq<Task>, active: Option<ActiveTask>, audit: Option<Code>, k: Key)
    requires key != k && TasksOf(queue, k) == TasksOf(d.queue, k)
    requires active == d.active || (d.active.Some? && active == Some(d.active.value.(canceled := true)))
    ensures TraceOf(MarkCanceled(d, key, queue, active, audit).data, k) == TraceOf(d, k)
  {
    var d' := MarkCanceled(d, key, queue, active, audit).data;
    assert d'.queue == queue && d'.active == active;
    if key in d.states {
      assert d'.states == d.states[key := CanceledWith(d.states[key], CanceledCode)];
    }
  }

  lemma PopMoves(d: Data, audit: Option<Code>, k: Key)
    requires d.active.None? && Tracked(TraceOf(d, k))
    ensures Tracked(TraceOf(PopTask(d, audit), k))
    ensures Live(TraceOf(PopTask(d, audit), k)) ==>
              Live(TraceOf(d, k)) && PopTask(d, audit).states[k].request == d.states[k].request
  {
    if d.queue != [] {
      assert TasksOf(d.queue, k) == (if d.queue[0].key == k then [d.queue[0].dispatch.request] else []) + TasksOf(d.queue[1..], k);
    }
  }

  /** Recording an outcome for another key can only take a Generated state of `k` away. */
  lemma InsertOther(d: Data, key: Key, cached: Cached, limit: nat, k: Key)
    requires k in d.states && d.states[k].status != Generated
    ensures k in InsertCache(d, key, cached, limit).states && InsertCache(d, key, cached, limit).states[k] == d.states[k]
    ensures InsertCache(d, key, cached, limit).queue == d.queue && InsertCache(d, key, cached, limit).active == d.active
  {
  }

  lemma RecordOther(d: Data, limits: Limits, task: Task, request: Request, outcome: ExecutorOutcome, k: Key)
    requires task.key != k && k in d.states && d.states[k].status != Generated
    ensures var d' := RecordOutcome(d, limits, task, request, outcome);
            k in d'.states && d'.states[k] == d.states[k] && d'.queue == d.queue && d'.active == d.active
  {
    if outcome.Ok? && Matching(task, outcome.value) {
      InsertOther(d, task.key, Cached(request, outcome.value), limits.cacheLimit, k);
    }
  }

  lemma FinishMoves(d: Data, limits: Limits, task: Task, outcome: ExecutorOutcome, audit: Option<Code>, k: Key)
    requires d.active.Some? && d.active.value.task.key == task.key && Owned(d, task).Some?
    requires Tracked(TraceOf(d, k))
    ensures var t := TraceOf(d, k); var t' := TraceOf(FinishTask(d, limits, task, outcome, audit), k);
            && Tracked(t') && (Live(t') ==> t' == t && task.key != k)
  {
    FinishEffect(d, limits, task, outcome, audit);
    var t := TraceOf(d, k);
    if Live(t) && task.key != k {
      if !Discarded(d, task) {
        RecordOther(d.(active := None), limits, task, d.active.value.task.dispatch.request, outcome, k);
      }
    }
    FinishEmptiesSlot(d, limits, task, outcome, audit);
  }

  lemma FinishEmptiesSlot(d: Data, limits: Limits, task: Task, outcome: ExecutorOutcome, audit: Option<Code>)
    requires Owned(d, task).Some?
    ensures FinishTask(d, limits, task, outcome, audit).active.None?
  {
    if !Discarded(d, task) {
      RecordKeepsSlot(d.(active := None), limits, task, d.active.value.task.dispatch.request, outcome);
    }
  }

  lemma RecordKeepsSlot(d: Data, limits: Limits, task: Task, request: Request, outcome: ExecutorOutcome)
    ensures RecordOutcome(d, limits, task, request, outcome).active == d.active
  {
  }

  // ----- runs ---------------------------------------------------------------------------------------------

  /** One undisturbed step: the key stays tracked, and its request only changes to one that was just accepted. */
  lemma StepTracks(limits: Limits, s: System, e: Event, k: Key)
    requires SystemInv(limits, s) && Enabled(s, e) && limits.cacheLimit >= 1
    requires Tracked(TraceOf(s.data, k)) && !Disturbs(limits, s, e, k)
    ensures var t := TraceOf(s.data, k); var t' := TraceOf(Step(limits, s, e).data, k);
            && Tracked(t')
            && (Accepts(limits, s, e, k) ==> t'.state.Some? && t'.state.value.request == RequestOf(s, e)
                                             && (t.state.Some? ==> Supersedes(RequestOf(s, e), t.state.value.request)))
            && (!Accepts(limits, s, e, k) && Live(t') ==> Live(t) && t'.state.value.request == t.state.value.request)
  {
    hide DataInv, BeginRequest, Admit, CancelTask, PopTask, FinishTask;
    match e
    case RequestBegins(_, _, _, _) => SectionMoves(limits, s, e, k);
    case RequestResumes(_) => SectionMoves(limits, s, e, k);
    case Cancels(cancel, audit) => CancelMoves(s.data, cancel, audit, k);
    case WorkerPops(_, audit) => PopMoves(s.data, audit, k);
    case WorkerFinishes(w, outcome, audit) => FinishMoves(s.data, limits, s.workers[w].task, outcome, audit, k);
    case _ =>
  }

  /** No event before the `j`-th blocks a request for the key, cancels its task or begins the shutdown. */
  ghost predicate Undisturbed(limits: Limits, states: seq<System>, events: seq<Event>, j: nat, k: Key) {
    && Run(limits, states, events) && j <= |events|
    && forall m :: 0 <= m < j ==> Enabled(states[m], events[m]) && !Disturbs(limits, states[m], events[m], k)
  }

  lemma {:induction false} UndisturbedIsTracked(limits: Limits, states: seq<System>, events: seq<Event>, j: nat, k: Key)
    requires Reached(limits, states, events, j) && Undisturbed(limits, states, events, j, k)
    ensures Tracked(TraceOf(states[j].data, k))
  {
    if j > 0 {
      UndisturbedIsTracked(limits, states, events, j - 1, k);
      ReachedInvariant(limits, states, events, j - 1);
      assert Follows(limits, states[j - 1], events[j - 1], states[j]);
      StepTracks(limits, states[j - 1], events[j - 1], k);
    }
  }

  /** The key has a task in all states from `i` to `j`. */
  ghost predicate LiveThroughout(states: seq<System>, i: nat, j: nat, k: Key) {
    i <= j < |states| && forall m :: i <= m <= j ==> Live(TraceOf(states[m].data, k))
  }

  /** The last request accepted for the key after state `i`, or the one its state carried there. */
  ghost function LatestAccepted(limits: Limits, states: seq<System>, events: seq<Event>, i: nat, j: nat, k: Key): Request
    requires i <= j < |states| && |states| == |events| + 1 && k in states[i].data.states
  {
    if j == i then states[i].data.states[k].request
    else if Accepts(limits, states[j - 1], events[j - 1], k) then RequestOf(states[j - 1], events[j - 1])
    else LatestAccepted(limits, states, events, i, j - 1, k)
  }

  /** While the key has an undisturbed task, its state carries the last accepted request, and that only moves up. */
  lemma {:induction false} StateCarriesLatest(
    limits: Limits, states: seq<System>, events: seq<Event>, i: nat, j: nat, k: Key)
    requires Reached(limits, states, events, j) && Undisturbed(limits, states, events, j, k)
    requires LiveThroughout(states, i, j, k)
    ensures k in states[i].data.states && k in states[j].data.states
    ensures states[j].data.states[k].request == LatestAccepted(limits, states, events, i, j, k)
    ensures Supersedes(LatestAccepted(limits, states, events, i, j, k), states[i].data.states[k].request)
  {
    hide SystemInv, Step, Accepts, Disturbs;
    UndisturbedIsTracked(limits, states, events, j, k);
    if i < j {
      StateCarriesLatest(limits, states, events, i, j - 1, k);
      UndisturbedIsTracked(limits, states, events, j - 1, k);
      ReachedInvariant(limits, states, events, j - 1);
      assert Follows(limits, states[j - 1], events[j - 1], states[j]);
      StepTracks(limits, states[j - 1], events[j - 1], k);
    }
  }

  /** The data shows this result for the key under this request, and can present it. */
  ghost predicate ShownUnder(d: Data, k: Key, request: Request, result: ExplainResult) {
    && k in d.states && d.states[k] == Lifecycle(request, Generated, false, true, None)
    && k in d.cache && d.cache[k] == Cached(request, result)
  }

  lemma SuccessShowsOwned(d: Data, limits: Limits, task: Task, result: ExplainResult)
    requires !Discarded(d, task) && Matching(task, result)
    requires limits.cacheLimit >= 1 && Listed(d.cacheOrder, d.cache) && CacheKeyed(d.cache)
    requires KeyOf(Owned(d, task).value) == task.key
    ensures ShownUnder(FinishTask(d, limits, task, Ok(result), None), task.key, Owned(d, task).value, result)
  {
    InsertCacheKeeps(d.(active := None), task.key, Cached(Owned(d, task).value, result), limits.cacheLimit);
  }

  /** The worker is about to finish the key's task with a result that belongs to it and that will be saved. */
  ghost predicate Succeeds(s: System, e: Event, k: Key, result: ExplainResult) {
    && e == WorkerFinishes(0, Ok(result), None)
    && s.workers != [] && s.workers[0].Executing? && s.workers[0].task.key == k && Matching(s.workers[0].task, result)
  }

  /**
   * Latest rebind wins. The key has an undisturbed task from state `i` to state `j`, where the worker finishes it
   * with a result that is saved. Then the Generated state and the cache entry carry the last accepted request,
   * although the executor was given, and answered with, the request id the task was started under.
   */
  lemma LatestRebindWins(
    limits: Limits, states: seq<System>, events: seq<Event>, i: nat, j: nat, k: Key, result: ExplainResult)
    requires Reached(limits, states, events, j) && Undisturbed(limits, states, events, j, k)
    requires LiveThroughout(states, i, j, k) && j < |events| && Succeeds(states[j], events[j], k, result)
    ensures k in states[i].data.states
    ensures ShownUnder(states[j + 1].data, k, LatestAccepted(limits, states, events, i, j, k), result)
    ensures Supersedes(LatestAccepted(limits, states, events, i, j, k), states[i].data.states[k].request)
    ensures result.requestId == states[j].workers[0].task.dispatch.request.requestId
  {
    ReachedInvariant(limits, states, events, j);
    StateCarriesLatest(limits, states, events, i, j, k);
    UndisturbedIsTracked(limits, states, events, j, k);
    assert Follows(limits, states[j], events[j], states[j + 1]);
    SuccessShowsOwned(states[j].data, limits, states[j].workers[0].task, result);
  }
}
