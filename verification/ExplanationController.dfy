/**
 * The controller as the object the program keeps behind its lock: each method is one critical section, updates the
 * fields in place, and is proved to have exactly the effect of the section function the protocol proofs speak about.
 */
module ExplanationController {
  import opened Prelude
  import M = ExplanationModel
  import S = ExplanationSystem
  import I = ExplanationInvariant

  class Controller {
    const limits: M.Limits
    var scope: Option<M.Scope>
    var generations: map<M.Id, nat>
    var states: map<M.Key, M.Lifecycle>
    var queue: seq<M.Task>
    var active: Option<M.ActiveTask>
    var workerRunning: bool
    var shuttingDown: bool
    var cache: map<M.Key, M.Cached>
    var cacheOrder: seq<M.Key>
    var control: M.Control

    function View(): M.Data
      reads this
    {
      M.Data(scope, generations, states, queue, active, workerRunning, shuttingDown, cache, cacheOrder, control)
    }

    ghost predicate Valid()
      reads this
    {
      S.DataInv(View(), limits) && limits.cacheLimit >= 1
    }

    /** The cache limit is raised to one: an explanation that was just generated can always be presented. */
    constructor (queueLimit: nat, cacheLimit: nat, control: M.Control)
      ensures Valid()
      ensures limits == M.Limits(queueLimit, if cacheLimit < 1 then 1 else cacheLimit)
      ensures S.Initial(S.System(View(), [], None)) && this.control == control
    {
      limits := M.Limits(queueLimit, if cacheLimit < 1 then 1 else cacheLimit);
      scope, generations, states, queue, active := None, map[], map[], [], None;
      workerRunning, shuttingDown, cache, cacheOrder := false, false, map[], [];
      this.control := control;
      new;
      I.InitialData(View(), limits);
    }

    method Block(request: M.Request, reason: M.Code, retryable: bool, audit: Option<M.Code>) returns (reply: M.Reply)
      modifies this`states, this`control
      ensures View() == M.Block(old(View()), request, reason, retryable, audit).data
      ensures reply == M.Block(old(View()), request, reason, retryable, audit).reply
    {
      control := M.PersistAudit(M.CountBlocked(control), audit);
      var persistedReason := if audit.Some? then audit.value else reason;
      var state := M.Terminal(request, M.Unavailable, retryable, persistedReason);
      states := states[M.KeyOf(request) := state];
      reply := M.Blocked(state);
    }

    method BeginRequest(
      dispatch: M.Dispatch, notReady: Option<M.Code>, audit: Option<M.Code>, blockAudit: Option<M.Code>)
      returns (reply: M.Reply)
      requires Valid()
      modifies this
      ensures Valid()
      ensures View() == M.BeginRequest(old(View()), limits, dispatch, notReady, audit, blockAudit).data
      ensures reply == M.BeginRequest(old(View()), limits, dispatch, notReady, audit, blockAudit).reply
      ensures reply != M.Refused(M.StateMissingCode)
    {
      hide S.DataInv, M.Admit, M.Block, M.GateReason, M.CountAttempt, M.PersistAudit;
      I.BeginRequestKeeps(View(), limits, dispatch, notReady, audit, blockAudit);
      var request := dispatch.request;
      control := M.PersistAudit(M.CountAttempt(control), audit);
      if audit.Some? {
        reply := Block(request, audit.value, true, blockAudit);
        return;
      }
      var gate := M.GateReason(control, notReady);
      if gate.Some? {
        reply := Block(request, gate.value, true, blockAudit);
        return;
      }
      if shuttingDown {
        reply := Block(request, M.ShutdownCode, false, blockAudit);
        return;
      }
      if request.workspaceId in generations {
        if generations[request.workspaceId] > request.generation {
          reply := Block(request, M.WorkspaceStaleCode, true, blockAudit);
          return;
        }
        if generations[request.workspaceId] < request.generation {
          reply := M.ScopePending;
          return;
        }
      } else {
        generations := generations[request.workspaceId := request.generation];
      }
      reply := Admit(dispatch, blockAudit);
    }

    method Admit(dispatch: M.Dispatch, blockAudit: Option<M.Code>) returns (reply: M.Reply)
      modifies this
      ensures View() == M.Admit(old(View()), limits, dispatch, blockAudit).data
      ensures reply == M.Admit(old(View()), limits, dispatch, blockAudit).reply
    {
      var request := dispatch.request;
      if shuttingDown {
        reply := Block(request, M.ShutdownCode, false, blockAudit);
        return;
      }
      if scope.None? {
        scope := Some(M.ScopeOf(request));
      } else if !M.ScopeMatches(scope.value, request) {
        reply := Block(request, M.WorkspaceStaleCode, true, blockAudit);
        return;
      }
      var key := M.KeyOf(request);
      if key in states {
        var existing := states[key];
        if !M.CanRebind(existing, request) {
          return M.Answered(existing);
        }
        if !M.Over(existing.status) {
          reply := Rebind(dispatch, existing);
          return;
        }
        if request.trigger != M.UserRetry {
          var rebound := existing.(request := request);
          states := states[key := rebound];
          return M.Answered(rebound);
        }
      } else if request.trigger == M.UserRetry {
        return M.Refused(M.RetryStateCode);
      }
      reply := Enqueue(dispatch, blockAudit);
    }

    method Rebind(dispatch: M.Dispatch, existing: M.Lifecycle) returns (reply: M.Reply)
      modifies this`states, this`queue, this`active, this`cache
      ensures View() == M.Rebind(old(View()), dispatch, existing).data
      ensures reply == M.Rebind(old(View()), dispatch, existing).reply
    {
      var key := M.KeyOf(dispatch.request);
      var applied := false;
      if existing.status == M.Queued {
        var position := 0;
        while position < |queue| && queue[position].key != key
          invariant position <= |queue|
          invariant M.FirstWithKey(queue, key, 0) == M.FirstWithKey(queue, key, position)
        {
          position := position + 1;
        }
        if position < |queue| {
          queue := queue[position := M.Task(key, dispatch)];
          applied := true;
        }
      } else if existing.status == M.Running {
        if active.Some? && active.value.task.key == key {
          active := Some(active.value.(task := M.Task(key, dispatch)));
          applied := true;
        }
      } else if existing.status == M.Generated {
        if key in cache {
          cache := cache[key := cache[key].(request := dispatch.request)];
          applied := true;
        }
      }
      if !applied {
        return M.Refused(M.StateMissingCode);
      }
      var rebound := existing.(request := dispatch.request);
      states := states[key := rebound];
      reply := M.Answered(rebound);
    }

    method Enqueue(dispatch: M.Dispatch, blockAudit: Option<M.Code>) returns (reply: M.Reply)
      modifies this`states, this`queue, this`workerRunning, this`control
      ensures View() == M.Enqueue(old(View()), limits, dispatch, blockAudit).data
      ensures reply == M.Enqueue(old(View()), limits, dispatch, blockAudit).reply
    {
      var outstanding := |queue| + if active.Some? then 1 else 0;
      if outstanding >= limits.queueLimit + 1 {
        reply := Block(dispatch.request, M.QueueFullCode, true, blockAudit);
        return;
      }
      var key := M.KeyOf(dispatch.request);
      var state := M.Fresh(dispatch.request, M.Queued);
      states := states[key := state];
      queue := queue + [M.Task(key, dispatch)];
      if !workerRunning {
        workerRunning := true;
      }
      reply := M.Answered(state);
    }

    /** `request` after it set the scope itself: the lock was free in between, so the scope may be another one. */
    method ResumeRequest(dispatch: M.Dispatch, blockAudit: Option<M.Code>) returns (reply: M.Reply)
      requires Valid() && scope.Some?
      modifies this
      ensures Valid()
      ensures View() == M.Admit(old(View()), limits, dispatch, blockAudit).data
      ensures reply == M.Admit(old(View()), limits, dispatch, blockAudit).reply
      ensures reply != M.Refused(M.StateMissingCode)
    {
      I.AdmitKeeps(View(), limits, dispatch, blockAudit);
      reply := Admit(dispatch, blockAudit);
    }

    method SetScope(newScope: M.Scope) returns (reply: M.Reply)
      requires Valid()
      modifies this`scope, this`generations
      ensures Valid()
      ensures View() == M.SetScope(old(View()), newScope).data
      ensures reply == M.SetScope(old(View()), newScope).reply
    {
      if newScope.workspaceId in generations && generations[newScope.workspaceId] > newScope.generation {
        return M.Refused(M.WorkspaceStaleCode);
      }
      generations := generations[newScope.workspaceId := newScope.generation];
      scope := Some(newScope);
      reply := M.NothingFound;
    }

    /**
     * Also tells which execution to stop, when the canceled task is the active one. A cancel that names no task changes
     * nothing and shows some state of that request id, if there is one.
     */
    method Cancel(cancel: M.CancelRequest, audit: Option<M.Code>) returns (reply: M.Reply, execution: Option<M.Id>)
      requires Valid()
      modifies this
      ensures Valid()
      ensures View() == M.CancelTask(old(View()), cancel, audit).data
      ensures CancelReplies(reply, M.CancelTask(old(View()), cancel, audit).reply, old(states), cancel.requestId)
      ensures execution == if M.NamesActive(old(View()), cancel) then Some(old(active).value.executorRequestId) else None
    {
      hide S.DataInv, M.MarkCanceled, M.CancelTask, Shows;
      ghost var start := View();
      I.CancelKeeps(start, limits, cancel, audit);
      CancelPaths(start, cancel, audit);
      execution := None;
      var key: M.Key;
      if active.Some? && M.Names(cancel, active.value.task.dispatch.request) {
        key := active.value.task.key;
        execution := Some(active.value.executorRequestId);
        active := Some(active.value.(canceled := true));
      } else {
        var position := 0;
        while position < |queue| && !M.Names(cancel, queue[position].dispatch.request)
          invariant position <= |queue|
          invariant M.FirstNamed(queue, cancel, 0) == M.FirstNamed(queue, cancel, position)
        {
          position := position + 1;
        }
        if position == |queue| {
          reply := FindState(cancel.requestId);
          return;
        }
        key := queue[position].key;
        queue := queue[..position] + queue[position + 1..];
        assert queue == M.RemoveAt(start.queue, position);
      }
      MarkingIgnoresOldTasks(start, View(), key, audit);
      reply := RecordCanceled(key, audit);
    }

    /** Looks for a state of the request id; which one is open when several keys show it. */
    method FindState(requestId: M.Id) returns (reply: M.Reply)
      ensures Shows(reply, states, requestId)
    {
      var remaining := states.Keys;
      while remaining != {}
        invariant remaining <= states.Keys
        invariant forall k :: k in states && states[k].request.requestId == requestId ==> k in remaining
        decreases |remaining|
      {
        var key :| key in remaining;
        if states[key].request.requestId == requestId {
          return M.Answered(states[key]);
        }
        remaining := remaining - {key};
      }
      reply := M.NothingFound;
    }

    method RecordCanceled(key: M.Key, audit: Option<M.Code>) returns (reply: M.Reply)
      modifies this`states, this`control
      ensures View() == M.MarkCanceled(old(View()), key, queue, active, audit).data
      ensures reply == M.MarkCanceled(old(View()), key, queue, active, audit).reply
    {
      if key !in states {
        return M.Refused(M.StateMissingCode);
      }
      var state := M.CanceledWith(states[key], M.CanceledCode);
      states := states[key := state];
      control := M.PersistAudit(M.CountCanceled(control, 1), audit);
      reply := if audit.Some? then M.Refused(audit.value) else M.Answered(state);
    }

    /** Marks the state of every drained task; counts the entries that still had one. */
    method CancelDrained(drained: seq<M.Task>) returns (changed: nat)
      modifies this`states
      ensures states.Keys == old(states).Keys
      ensures forall k :: k in states ==>
                states[k] == if Drained(drained, k) then M.CanceledWith(old(states)[k], M.ShutdownCode) else old(states)[k]
      ensures changed == M.DrainedWithState(drained, old(states))
    {
      changed := 0;
      var i := 0;
      while i < |drained|
        invariant i <= |drained|
        invariant states.Keys == old(states).Keys
        invariant forall k :: k in states ==>
                    states[k] == if Drained(drained[..i], k) then M.CanceledWith(old(states)[k], M.ShutdownCode) else old(states)[k]
        invariant changed + M.DrainedWithState(drained[i..], old(states)) == M.DrainedWithState(drained, old(states))
      {
        var key := drained[i].key;
        DrainedNext(drained, i);
        if key in states {
          states := states[key := M.CanceledWith(states[key], M.ShutdownCode)];
          changed := changed + 1;
        }
        i := i + 1;
      }
      assert drained[..i] == drained;
    }

    /** Drains the queue task by task; tells which execution to stop. */
    method BeginShutdown(audit: Option<M.Code>) returns (execution: Option<M.Id>)
      requires Valid()
      modifies this
      ensures View() == M.BeginShutdown(old(View()), audit)
      ensures Valid()
      ensures execution == if old(active).Some? then Some(old(active).value.executorRequestId) else None
    {
      hide S.DataInv, M.CanceledForShutdown, M.DrainedWithState, M.CountCanceled, M.PersistAudit;
      I.BeginShutdownKeeps(View(), limits, audit);
      shuttingDown := true;
      var changed := CancelOutstanding();
      execution := if active.Some? then Some(active.value.executorRequestId) else None;
      if changed > 0 {
        control := M.CountCanceled(control, changed);
      }
      control := M.PersistAudit(control, audit);
    }

    method CancelOutstanding() returns (changed: nat)
      modifies this`queue, this`states, this`active
      ensures queue == [] && states == M.CanceledForShutdown(old(states), old(queue), old(active))
      ensures active == if old(active).Some? then Some(old(active).value.(canceled := true)) else None
      ensures changed == M.DrainedWithState(old(queue), old(states))
                       + (if old(active).Some? && old(active).value.task.key in old(states) then 1 else 0)
    {
      var drained := queue;
      queue := [];
      changed := CancelDrained(drained);
      if active.Some? {
        var more := CancelActiveForShutdown();
        changed := changed + more;
      }
    }

    method CancelActiveForShutdown() returns (changed: nat)
      requires active.Some?
      modifies this`active, this`states
      ensures active == Some(old(active).value.(canceled := true))
      ensures var key := old(active).value.task.key;
              if key in old(states)
              then states == old(states)[key := M.CanceledWith(old(states)[key], M.ShutdownCode)] && changed == 1
              else states == old(states) && changed == 0
    {
      active := Some(active.value.(canceled := true));
      var key := active.value.task.key;
      changed := 0;
      if key in states {
        states := states[key := M.CanceledWith(states[key], M.ShutdownCode)];
        changed := 1;
      }
    }

    method PopTask(audit: Option<M.Code>) returns (started: Option<M.Task>)
      requires Valid() && active.None?
      modifies this
      ensures View() == M.PopTask(old(View()), audit)
      ensures Valid()
      ensures started == if old(queue) != [] && audit.None? then Some(old(queue)[0]) else None
    {
      hide S.DataInv, M.Fresh, M.Terminal, M.CountStart, M.CountBlocked, M.PersistAudit;
      I.PopKeeps(View(), limits, audit);
      if queue == [] {
        workerRunning := false;
        return None;
      }
      var task := queue[0];
      queue := queue[1..];
      var request := task.dispatch.request;
      states := states[task.key := M.Fresh(request, M.Running)];
      control := M.CountStart(control);
      active := Some(M.ActiveTask(task, request.requestId, false));
      if audit.Some? {
        control := M.CountBlocked(M.PersistAudit(control, audit));
        active := None;
        states := states[task.key := M.Terminal(request, M.Unavailable, true, audit.value)];
        assert states == old(states)[task.key := M.Terminal(request, M.Unavailable, true, audit.value)];
        return None;
      }
      started := Some(task);
    }

    method FinishTask(task: M.Task, outcome: M.ExecutorOutcome, audit: Option<M.Code>)
      requires Valid() && active.Some? && active.value.task.key == task.key
      requires active.value.executorRequestId == task.dispatch.request.requestId
      modifies this
      ensures View() == M.FinishTask(old(View()), limits, task, outcome, audit)
      ensures Valid() && active.None?
    {
      hide M.RecordOutcome, M.FinishTask, M.Terminal, M.CountBlocked, M.PersistAudit, S.BookInv, S.CacheKeyed,
           S.ScopeRecorded, S.WithinLimits;
      I.FinishKeeps(View(), limits, task, outcome, audit);
      FinishPaths(View(), limits, task, outcome, audit);
      var request := active.value.task.dispatch.request;
      active := None;
      if task.key in states && states[task.key].status == M.Canceled {
        return;
      }
      RecordOutcome(task, request, outcome);
      if audit.Some? {
        control := M.CountBlocked(M.PersistAudit(control, audit));
        cache := cache - {task.key};
        cacheOrder := Without(cacheOrder, task.key);
        states := states[task.key := M.Terminal(request, M.Unavailable, true, audit.value)];
      }
    }

    method RecordOutcome(task: M.Task, request: M.Request, outcome: M.ExecutorOutcome)
      requires S.Listed(cacheOrder, cache)
      modifies this`cache, this`cacheOrder, this`states, this`control
      ensures View() == M.RecordOutcome(old(View()), limits, task, request, outcome)
    {
      match outcome
      case Ok(result) =>
        if M.Matching(task, result) {
          InsertCache(task.key, M.Cached(request, result));
          states := states[task.key := M.Fresh(request, M.Generated).(presentationAvailable := true)];
          control := M.CountResult(control, true, result);
        } else {
          states := states[task.key := M.Terminal(request, M.Failed, true, M.ResultStaleCode)];
          control := M.CountResult(control, false, result);
        }
      case Err(error) =>
        states := states[task.key := M.Terminal(request, M.ErrorStatus(error), true, M.ErrorCode(error))];
        control := M.CountError(control, error);
    }

    method InsertCache(key: M.Key, cached: M.Cached)
      requires S.Listed(cacheOrder, cache)
      modifies this`cache, this`cacheOrder, this`states
      ensures View() == M.InsertCache(old(View()), key, cached, limits.cacheLimit)
    {
      hide M.Evict;
      I.RememberListed(View(), key, cached);
      cacheOrder := Without(cacheOrder, key) + [key];
      cache := cache[key := cached];
      EvictSurplus();
    }

    /** Pops the oldest key until the cache fits again. */
    method EvictSurplus()
      requires S.Listed(cacheOrder, cache)
      modifies this`cache, this`cacheOrder, this`states
      ensures View() == M.Evict(old(View()), M.Surplus(old(cacheOrder), limits.cacheLimit))
    {
      hide M.Evict;
      ghost var start := View();
      ghost var gone := 0;
      I.EvictNone(start);
      I.CacheSize(cacheOrder, cache);
      while |cache| > limits.cacheLimit && cacheOrder != []
        invariant gone <= |start.cacheOrder| && View() == M.Evict(start, gone)
        invariant |cacheOrder| == |start.cacheOrder| - gone == |cache|
        invariant S.Listed(cacheOrder, cache)
        invariant gone > 0 ==> |cacheOrder| >= limits.cacheLimit
      {
        I.EvictOneMore(start, gone);
        EvictOldest();
        I.CacheSize(cacheOrder, cache);
        gone := gone + 1;
      }
    }

    method EvictOldest()
      requires S.Listed(cacheOrder, cache) && cacheOrder != []
      modifies this`cache, this`cacheOrder, this`states
      ensures View() == M.Evict(old(View()), 1)
      ensures S.Listed(cacheOrder, cache) && |cacheOrder| == |old(cacheOrder)| - 1
    {
      I.EvictListed(View(), 1);
      I.EvictFirst(View());
      var oldest := cacheOrder[0];
      cacheOrder := cacheOrder[1..];
      cache := cache - {oldest};
      if oldest in states && states[oldest].status == M.Generated {
        states := states - {oldest};
      }
    }

    /** Finds a cache entry for the shown request; which one is open when several locales share the request id. */
    method Present(workspaceId: M.Id, generation: nat, evidenceId: M.Id, requestId: M.Id) returns (found: Option<M.Cached>)
      ensures found.Some? ==>
                exists k :: k in cache && cache[k] == found.value && k.workspaceId == workspaceId && k.generation == generation
                            && k.evidenceId == evidenceId && found.value.request.requestId == requestId
      ensures found.None? ==>
                forall k :: k in cache && k.workspaceId == workspaceId && k.generation == generation && k.evidenceId == evidenceId ==>
                              cache[k].request.requestId != requestId
    {
      var remaining := cache.Keys;
      while remaining != {}
        invariant remaining <= cache.Keys
        invariant forall k :: M.Presents(View(), workspaceId, generation, evidenceId, requestId, k) ==> k in remaining
        decreases |remaining|
      {
        var key :| key in remaining;
        if M.Presents(View(), workspaceId, generation, evidenceId, requestId, key) {
          return Some(cache[key]);
        }
        remaining := remaining - {key};
      }
      found := None;
      forall k | k in cache && k.workspaceId == workspaceId && k.generation == generation && k.evidenceId == evidenceId
        ensures cache[k].request.requestId != requestId
      {
        assert !M.Presents(View(), workspaceId, generation, evidenceId, requestId, k);
      }
    }
  }

  /** The reply shows a state of the request id, or says that there is none. */
  ghost predicate Shows(reply: M.Reply, states: map<M.Key, M.Lifecycle>, requestId: M.Id) {
    || (reply == M.NothingFound && forall k :: k in states ==> states[k].request.requestId != requestId)
    || (reply.Answered? && exists k :: k in states && states[k] == reply.state && states[k].request.requestId == requestId)
  }

  /** What a section answered, except that a cancel that names no task shows a state instead. */
  ghost predicate CancelReplies(reply: M.Reply, section: M.Reply, states: map<M.Key, M.Lifecycle>, requestId: M.Id) {
    if section == M.NothingFound then Shows(reply, states, requestId) else reply == section
  }

  lemma FinishPaths(d: M.Data, limits: M.Limits, task: M.Task, outcome: M.ExecutorOutcome, audit: Option<M.Code>)
    requires M.Owned(d, task).Some?
    ensures var d1 := d.(active := None);
            M.FinishTask(d, limits, task, outcome, audit) ==
            if task.key in d.states && d.states[task.key].status == M.Canceled then d1
            else
              var d2 := M.RecordOutcome(d1, limits, task, M.Owned(d, task).value, outcome);
              if audit.None? then d2 else M.Unsaved(d2, task.key, M.Owned(d, task).value, audit.value)
  {
    hide M.RecordOutcome, M.Unsaved;
  }

  lemma CancelPaths(d: M.Data, cancel: M.CancelRequest, audit: Option<M.Code>)
    ensures var position := M.FirstNamed(d.queue, cancel);
            M.CancelTask(d, cancel, audit) ==
            if M.NamesActive(d, cancel) then
              M.MarkCanceled(d, d.active.value.task.key, d.queue, Some(d.active.value.(canceled := true)), audit)
            else if position < |d.queue| then
              M.MarkCanceled(d, d.queue[position].key, M.RemoveAt(d.queue, position), d.active, audit)
            else M.Section(d, M.NothingFound)
    ensures M.CancelTask(d, cancel, audit).reply == M.NothingFound
            <==> !M.NamesActive(d, cancel) && M.FirstNamed(d.queue, cancel) >= |d.queue|
  {
  }

  lemma MarkingIgnoresOldTasks(d: M.Data, d': M.Data, key: M.Key, audit: Option<M.Code>)
    requires d' == d.(queue := d'.queue, active := d'.active)
    ensures M.MarkCanceled(d', key, d'.queue, d'.active, audit) == M.MarkCanceled(d, key, d'.queue, d'.active, audit)
  {
  }

  ghost predicate Drained(tasks: seq<M.Task>, k: M.Key) {
    exists task :: task in tasks && task.key == k
  }

  lemma DrainedNext(tasks: seq<M.Task>, i: nat)
    requires i < |tasks|
    ensures forall k :: Drained(tasks[..i + 1], k) <==> Drained(tasks[..i], k) || tasks[i].key == k
  {
    assert tasks[..i + 1] == tasks[..i] + [tasks[i]];
    forall k ensures Drained(tasks[..i + 1], k) <==> Drained(tasks[..i], k) || tasks[i].key == k {
      if tasks[i].key == k {
        assert tasks[i] in tasks[..i + 1];
      }
    }
  }
}
