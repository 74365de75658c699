/** Two quantities that summarise a whole run: the token totals and the contents of the explanation cache. */
module ExplanationAccounting {
  import opened Prelude
  import opened ExplanationModel
  import opened ExplanationSystem
  import opened ExplanationInvariant
  import opened ExplanationRuns
  import opened ExplanationSafety

  // ----- tokens -------------------------------------------------------------------------------------------

  /** The equation that loaded counters satisfy and every recorded result keeps. */
  ghost predicate Accounted(u: Usage) {
    u.totalTokens == u.inputTokens + u.outputTokens <= MAX_SAFE_COUNTER
  }

  /** Clipping input and output one after the other never loses a token that still fits the total. */
  lemma AddUsageIsExact(u: Usage, result: ExplainResult)
    requires Accounted(u)
    ensures Accounted(AddUsage(u, result))
    ensures AddUsage(u, result).totalTokens
         == Min(MAX_SAFE_COUNTER, u.totalTokens + result.inputTokens + result.outputTokens)
    ensures var u' := AddUsage(u, result);
            && u'.inputTokens == u.inputTokens + Min(result.inputTokens, 9_007_199_254_740_991 - u.totalTokens)
            && u'.outputTokens == u.outputTokens + Min(result.outputTokens, 9_007_199_254_740_991 - u.outputTokens - u'.inputTokens)
            && u'.totalLatencyMs == Min(9_007_199_254_740_991, u.totalLatencyMs + result.latencyMs)
  {
  }

  /** The tokens a step reports: those of the result it records, shown or not. */
  function Reported(s: System, e: Event): nat {
    if e.WorkerFinishes? && e.outcome.Ok? && e.worker < |s.workers| && s.workers[e.worker].Executing?
       && !Discarded(s.data, s.workers[e.worker].task)
    then e.outcome.value.inputTokens + e.outcome.value.outputTokens
    else 0
  }

  ghost predicate SameTokens(u: Usage, u': Usage) {
    u'.inputTokens == u.inputTokens && u'.outputTokens == u.outputTokens && u'.totalTokens == u.totalTokens
  }

  lemma RequestTokens(d: Data, limits: Limits, dispatch: Dispatch, blockAudit: Option<Code>)
    ensures SameTokens(d.control.usage, CheckGeneration(d, limits, dispatch, blockAudit).data.control.usage)
    ensures SameTokens(d.control.usage, Admit(d, limits, dispatch, blockAudit).data.control.usage)
  {
    AdmitTokens(d, limits, dispatch, blockAudit);
    var w := dispatch.request.workspaceId;
    AdmitTokens(d.(generations := d.generations[w := dispatch.request.generation]), limits, dispatch, blockAudit);
  }

  lemma AdmitTokens(d: Data, limits: Limits, dispatch: Dispatch, blockAudit: Option<Code>)
    ensures SameTokens(d.control.usage, Admit(d, limits, dispatch, blockAudit).data.control.usage)
  {
    AdmitScopedTokens(d.(scope := Some(ScopeOf(dispatch.request))), limits, dispatch, blockAudit);
  }

  lemma RebindTokens(d: Data, dispatch: Dispatch, existing: Lifecycle)
    ensures SameTokens(d.control.usage, Rebind(d, dispatch, existing).data.control.usage)
  {
  }

  lemma EnqueueTokens(d: Data, limits: Limits, dispatch: Dispatch, blockAudit: Option<Code>)
    ensures SameTokens(d.control.usage, Enqueue(d, limits, dispatch, blockAudit).data.control.usage)
  {
  }

  lemma AdmitScopedTokens(d: Data, limits: Limits, dispatch: Dispatch, blockAudit: Option<Code>)
    ensures SameTokens(d.control.usage, AdmitScoped(d, limits, dispatch, blockAudit).data.control.usage)
  {
    hide Rebind, Enqueue;
    var key := KeyOf(dispatch.request);
    if key in d.states {
      RebindTokens(d, dispatch, d.states[key]);
    }
    EnqueueTokens(d, limits, dispatch, blockAudit);
  }

  /** The total moves by exactly what was reported, clipped at the safe maximum. */
  ghost predicate TokensMove(u: Usage, u': Usage, reported: nat) {
    Accounted(u') && u'.totalTokens == Min(MAX_SAFE_COUNTER, u.totalTokens + reported)
  }

  lemma ResultTokens(c: Control, matching: bool, result: ExplainResult)
    requires Accounted(c.usage)
    ensures TokensMove(c.usage, CountResult(c, matching, result).usage, result.inputTokens + result.outputTokens)
  {
  }

  lemma RecordTokens(d: Data, limits: Limits, task: Task, request: Request, outcome: ExecutorOutcome)
    ensures RecordOutcome(d, limits, task, request, outcome).control
         == (match outcome case Ok(result) => CountResult(d.control, Matching(task, result), result)
                           case Err(error) => CountError(d.control, error))
  {
  }

  function TokensIn(outcome: ExecutorOutcome): nat {
    if outcome.Ok? then outcome.value.inputTokens + outcome.value.outputTokens else 0
  }

  lemma FinishTokens(d: Data, limits: Limits, task: Task, outcome: ExecutorOutcome, audit: Option<Code>)
    requires Accounted(d.control.usage)
    ensures TokensMove(d.control.usage, FinishTask(d, limits, task, outcome, audit).control.usage,
                       if Discarded(d, task) then 0 else TokensIn(outcome))
  {
    hide RecordOutcome, CountResult;
    if !Discarded(d, task) {
      RecordTokens(d.(active := None), limits, task, Owned(d, task).value, outcome);
      if outcome.Ok? {
        ResultTokens(d.control, Matching(task, outcome.value), outcome.value);
      }
    }
  }

  lemma QuietRequest(limits: Limits, s: System, e: Event)
    requires Enabled(s, e) && (e.RequestBegins? || e.RequestResumes?)
    ensures SameTokens(s.data.control.usage, Step(limits, s, e).data.control.usage)
  {
    hide CheckGeneration, Admit;
    if e.RequestBegins? {
      RequestTokens(s.data.(control := PersistAudit(CountAttempt(s.data.control), e.audit)), limits, e.dispatch, e.blockAudit);
    } else {
      RequestTokens(s.data, limits, s.inFlight.value.dispatch, e.blockAudit);
    }
  }

  /** A cancel touches the tokens and the cache order no more than it grows the queue. */
  lemma MarkCanceledQuiet(d: Data, key: Key, queue: seq<Task>, active: Option<ActiveTask>, audit: Option<Code>)
    ensures SameTokens(d.control.usage, MarkCanceled(d, key, queue, active, audit).data.control.usage)
    ensures MarkCanceled(d, key, queue, active, audit).data.cacheOrder == d.cacheOrder
  {
  }

  lemma QuietCancel(d: Data, cancel: CancelRequest, audit: Option<Code>)
    ensures SameTokens(d.control.usage, CancelTask(d, cancel, audit).data.control.usage)
    ensures CancelTask(d, cancel, audit).data.cacheOrder == d.cacheOrder
  {
    hide MarkCanceled, RemoveAt, FirstNamed;
    if NamesActive(d, cancel) {
      MarkCanceledQuiet(d, d.active.value.task.key, d.queue, Some(d.active.value.(canceled := true)), audit);
    } else {
      var position := FirstNamed(d.queue, cancel);
      if position < |d.queue| {
        MarkCanceledQuiet(d, d.queue[position].key, RemoveAt(d.queue, position), d.active, audit);
      }
    }
  }

  lemma QuietStep(limits: Limits, s: System, e: Event)
    requires Enabled(s, e) && !e.WorkerFinishes?
    ensures SameTokens(s.data.control.usage, Step(limits, s, e).data.control.usage)
  {
    match e
    case RequestBegins(_, _, _, _) => QuietRequest(limits, s, e);
    case RequestResumes(_) => QuietRequest(limits, s, e);
    case Cancels(cancel, audit) => QuietCancel(s.data, cancel, audit);
    case _ =>
  }

  lemma StepTokens(limits: Limits, s: System, e: Event, s': System)
    requires Follows(limits, s, e, s') && Accounted(s.data.control.usage)
    ensures TokensMove(s.data.control.usage, s'.data.control.usage, Reported(s, e))
  {
    if e.WorkerFinishes? {
      FinishTokens(s.data, limits, s.workers[e.worker].task, e.outcome, e.audit);
    } else {
      QuietStep(limits, s, e);
    }
  }

  /** All tokens reported by the first `n` steps of a run. */
  function ReportedBy(states: seq<System>, events: seq<Event>, n: nat): nat
    requires n <= |events| && |states| == |events| + 1
  {
    if n == 0 then 0 else ReportedBy(states, events, n - 1) + Reported(states[n - 1], events[n - 1])
  }

  function UsageAt(states: seq<System>, n: nat): Usage
    requires n < |states|
  {
    states[n].data.control.usage
  }

  lemma {:induction false} TotalsAddUp(states: seq<System>, events: seq<Event>, n: nat)
    requires |states| == |events| + 1 && n <= |events| && Accounted(UsageAt(states, 0))
    requires forall m :: 0 <= m < n && Accounted(UsageAt(states, m)) ==>
               TokensMove(UsageAt(states, m), UsageAt(states, m + 1), Reported(states[m], events[m]))
    ensures TokensMove(UsageAt(states, 0), UsageAt(states, n), ReportedBy(states, events, n))
  {
    if n > 0 {
      TotalsAddUp(states, events, n - 1);
      assert TokensMove(UsageAt(states, n - 1), UsageAt(states, n - 1 + 1), Reported(states[n - 1], events[n - 1]));
    }
  }

  /** The total is the initial total plus everything reported, clipped once at the safe maximum. */
  lemma TokenTotalIsExact(limits: Limits, states: seq<System>, events: seq<Event>, n: nat)
    requires Run(limits, states, events) && n <= |events| && Accounted(UsageAt(states, 0))
    ensures Accounted(UsageAt(states, n))
    ensures UsageAt(states, n).totalTokens
         == Min(MAX_SAFE_COUNTER, UsageAt(states, 0).totalTokens + ReportedBy(states, events, n))
  {
    forall m | 0 <= m < n && Accounted(UsageAt(states, m))
      ensures TokensMove(UsageAt(states, m), UsageAt(states, m + 1), Reported(states[m], events[m]))
    {
      StepTokens(limits, states[m], events[m], states[m + 1]);
    }
    TotalsAddUp(states, events, n);
  }

  // ----- cache --------------------------------------------------------------------------------------------

  /** The key a step generates an explanation for, if it does. */
  function GeneratedKey(s: System, e: Event): Option<Key> {
    if e.WorkerFinishes? && e.outcome.Ok? && e.worker < |s.workers| && s.workers[e.worker].Executing?
       && !Discarded(s.data, s.workers[e.worker].task) && Matching(s.workers[e.worker].task, e.outcome.value)
    then Some(s.workers[e.worker].task.key)
    else None
  }

  /** The generated keys of the first `n` steps, oldest first, with repetitions. */
  function GeneratedLog(states: seq<System>, events: seq<Event>, n: nat): seq<Key>
    requires n <= |events| && |states| == |events| + 1
  {
    if n == 0 then []
    else
      var log := GeneratedLog(states, events, n - 1);
      var generated := GeneratedKey(states[n - 1], events[n - 1]);
      if generated.Some? then log + [generated.value] else log
  }

  /** The distinct keys of a log, ordered by their last occurrence. */
  function Recency(log: seq<Key>): seq<Key> {
    if log == [] then [] else Without(Recency(log[..|log| - 1]), log[|log| - 1]) + [log[|log| - 1]]
  }

  lemma {:induction false} RecencyLists(log: seq<Key>)
    ensures Distinct(Recency(log))
    ensures forall k :: k in Recency(log) <==> k in log
  {
    if log != [] {
      var front := log[..|log| - 1];
      RecencyLists(front);
      WithoutKeepsDistinct(Recency(front), log[|log| - 1]);
      assert log == front + [log[|log| - 1]];
    }
  }

  /** The position of the last occurrence of a key in a log. */
  ghost function LastIndex(log: seq<Key>, k: Key): nat
    requires k in log
  {
    if log[|log| - 1] == k then |log| - 1 else LastIndex(log[..|log| - 1], k)
  }

  lemma {:induction false} LastIndexBound(log: seq<Key>, k: Key)
    requires k in log
    ensures LastIndex(log, k) < |log| && log[LastIndex(log, k)] == k
    ensures log[|log| - 1] != k ==> LastIndex(log, k) < |log| - 1
  {
    if log[|log| - 1] != k {
      assert log == log[..|log| - 1] + [log[|log| - 1]];
      LastIndexBound(log[..|log| - 1], k);
    }
  }

  /** Later in the recency order means generated later. */
  lemma {:induction false} RecencyIsOrdered(log: seq<Key>, a: nat, b: nat)
    requires a < b < |Recency(log)|
    ensures Recency(log)[a] in log && Recency(log)[b] in log
    ensures LastIndex(log, Recency(log)[a]) < LastIndex(log, Recency(log)[b])
  {
    RecencyLists(log);
    var front, newest := log[..|log| - 1], log[|log| - 1];
    var order := Without(Recency(front), newest);
    assert Recency(log) == order + [newest];
    var k := Recency(log)[a];
    assert order[a] == k && k in order;
    LastIndexBound(log, k);
    if b < |order| {
      var l := order[b];
      assert l in order;
      var a', b' := WithoutPositions(Recency(front), newest, a, b);
      RecencyIsOrdered(front, a', b');
    }
  }

  /** Elements keep their relative order when another one is taken out. */
  lemma {:induction false} WithoutPositions(s: seq<Key>, x: Key, a: nat, b: nat) returns (a': nat, b': nat)
    requires a < b < |Without(s, x)|
    ensures a' < b' < |s| && s[a'] == Without(s, x)[a] && s[b'] == Without(s, x)[b]
  {
    if s[0] == x {
      a', b' := WithoutPositions(s[1..], x, a, b);
      a', b' := a' + 1, b' + 1;
    } else if a > 0 {
      a', b' := WithoutPositions(s[1..], x, a - 1, b - 1);
      a', b' := a' + 1, b' + 1;
    } else {
      b' := WithoutPosition(s[1..], x, b - 1);
      a', b' := 0, b' + 1;
    }
  }

  lemma {:induction false} WithoutPosition(s: seq<Key>, x: Key, b: nat) returns (b': nat)
    requires b < |Without(s, x)|
    ensures b' < |s| && s[b'] == Without(s, x)[b]
  {
    if s[0] == x {
      b' := WithoutPosition(s[1..], x, b);
      b' := b' + 1;
    } else if b > 0 {
      b' := WithoutPosition(s[1..], x, b - 1);
      b' := b' + 1;
    } else {
      b' := 0;
    }
  }

  /** The last `n` elements, or all of them when there are fewer. */
  function Newest(s: seq<Key>, n: nat): seq<Key> {
    if |s| <= n then s else s[|s| - n..]
  }

  lemma NewestOfConcat(aged: seq<Key>, recent: seq<Key>, limit: nat)
    requires |recent| >= limit
    ensures Newest(aged + recent, limit) == Newest(recent, limit)
  {
  }

  /** Truncating before a key is moved to the back makes no difference to the truncated result. */
  lemma TruncationCommutes(order: seq<Key>, k: Key, limit: nat)
    requires Distinct(order) && limit >= 1
    ensures Newest(Without(Newest(order, limit), k) + [k], limit) == Newest(Without(order, k) + [k], limit)
  {
    if |order| > limit {
      var aged, recent := order[..|order| - limit], order[|order| - limit..];
      assert order == aged + recent;
      hide Without, Newest;
      WithoutAppend(aged, recent, k);
      WithoutKeepsDistinct(recent, k);
      assert Without(order, k) + [k] == Without(aged, k) + (Without(recent, k) + [k]);
      NewestOfConcat(Without(aged, k), Without(recent, k) + [k], limit);
      assert Newest(order, limit) == recent by {
        NewestCuts(order, limit);
      }
    } else {
      assert Newest(order, limit) == order;
    }
  }

  lemma NewestCuts(order: seq<Key>, limit: nat)
    requires |order| > limit
    ensures Newest(order, limit) == order[|order| - limit..]
  {
  }

  /** Only a worker that finishes changes which keys are cached and in which order. */
  lemma RequestOrder(d: Data, limits: Limits, dispatch: Dispatch, blockAudit: Option<Code>)
    ensures CheckGeneration(d, limits, dispatch, blockAudit).data.cacheOrder == d.cacheOrder
    ensures Admit(d, limits, dispatch, blockAudit).data.cacheOrder == d.cacheOrder
  {
    AdmitOrder(d, limits, dispatch, blockAudit);
    var w := dispatch.request.workspaceId;
    AdmitOrder(d.(generations := d.generations[w := dispatch.request.generation]), limits, dispatch, blockAudit);
  }

  lemma AdmitOrder(d: Data, limits: Limits, dispatch: Dispatch, blockAudit: Option<Code>)
    ensures Admit(d, limits, dispatch, blockAudit).data.cacheOrder == d.cacheOrder
  {
    AdmitScopedOrder(d.(scope := Some(ScopeOf(dispatch.request))), limits, dispatch, blockAudit);
  }

  lemma AdmitScopedOrder(d: Data, limits: Limits, dispatch: Dispatch, blockAudit: Option<Code>)
    ensures AdmitScoped(d, limits, dispatch, blockAudit).data.cacheOrder == d.cacheOrder
  {
  }

  lemma FinishOrder(d: Data, limits: Limits, task: Task, outcome: ExecutorOutcome)
    ensures FinishTask(d, limits, task, outcome, None).cacheOrder
         == (if outcome.Ok? && !Discarded(d, task) && Matching(task, outcome.value)
             then Newest(Without(d.cacheOrder, task.key) + [task.key], limits.cacheLimit) else d.cacheOrder)
  {
    if !Discarded(d, task) {
      RecordOrder(d.(active := None), limits, task, Owned(d, task).value, outcome);
    }
  }

  lemma RecordOrder(d: Data, limits: Limits, task: Task, request: Request, outcome: ExecutorOutcome)
    ensures RecordOutcome(d, limits, task, request, outcome).cacheOrder
         == (if outcome.Ok? && Matching(task, outcome.value)
             then Newest(Without(d.cacheOrder, task.key) + [task.key], limits.cacheLimit) else d.cacheOrder)
  {
  }

  lemma StepOrder(limits: Limits, s: System, e: Event)
    requires Enabled(s, e) && (e.WorkerFinishes? ==> e.audit.None?)
    ensures Step(limits, s, e).data.cacheOrder
         == (if GeneratedKey(s, e).Some?
             then Newest(Without(s.data.cacheOrder, GeneratedKey(s, e).value) + [GeneratedKey(s, e).value], limits.cacheLimit)
             else s.data.cacheOrder)
  {
    hide CheckGeneration, Admit, CancelTask, FinishTask, Newest;
    match e
    case Cancels(cancel, audit) => QuietCancel(s.data, cancel, audit);
    case RequestBegins(dispatch, _, audit, blockAudit) =>
      RequestOrder(s.data.(control := PersistAudit(CountAttempt(s.data.control), audit)), limits, dispatch, blockAudit);
    case RequestResumes(blockAudit) => RequestOrder(s.data, limits, s.inFlight.value.dispatch, blockAudit);
    case WorkerFinishes(w, outcome, audit) => FinishOrder(s.data, limits, s.workers[w].task, outcome);
    case _ =>
  }

  /** In every reachable state the order list names each cached key once, and at most as many as the limit. */
  lemma OrderListsCache(limits: Limits, states: seq<System>, events: seq<Event>, i: nat)
    requires Reached(limits, states, events, i)
    ensures var d := states[i].data;
            && Distinct(d.cacheOrder) && (forall k :: k in d.cacheOrder <==> k in d.cache)
            && |d.cache| == |d.cacheOrder| <= limits.cacheLimit
  {
    ReachedInvariant(limits, states, events, i);
    CacheSize(states[i].data.cacheOrder, states[i].data.cache);
  }

  ghost predicate AllSaved(events: seq<Event>, n: nat)
    requires n <= |events|
  {
    forall i :: 0 <= i < n && events[i].WorkerFinishes? ==> events[i].audit.None?
  }

  lemma RecencyGrows(log: seq<Key>, k: Key)
    ensures Recency(log + [k]) == Without(Recency(log), k) + [k]
  {
    assert (log + [k])[..|log|] == log;
  }

  lemma {:induction false} OrderIsTheMostRecent(limits: Limits, states: seq<System>, events: seq<Event>, n: nat)
    requires Run(limits, states, events) && Initial(states[0]) && limits.cacheLimit >= 1
    requires n <= |events| && AllSaved(events, n)
    ensures states[n].data.cacheOrder == Newest(Recency(GeneratedLog(states, events, n)), limits.cacheLimit)
  {
    hide Step, GeneratedKey;
    if n > 0 {
      hide Newest, Without, Recency;
      OrderIsTheMostRecent(limits, states, events, n - 1);
      var s, e := states[n - 1], events[n - 1];
      assert Follows(limits, s, e, states[n]);
      StepOrder(limits, s, e);
      var log := GeneratedLog(states, events, n - 1);
      if GeneratedKey(s, e).Some? {
        var k := GeneratedKey(s, e).value;
        RecencyLists(log);
        TruncationCommutes(Recency(log), k, limits.cacheLimit);
        RecencyGrows(log, k);
      }
    }
  }

  /**
   * In a run whose outcomes are all saved, the eviction order is the recency order of everything generated so far,
   * truncated to the limit, and the cache holds exactly those keys.
   */
  lemma CacheHoldsTheMostRecent(limits: Limits, states: seq<System>, events: seq<Event>, n: nat)
    requires Reached(limits, states, events, n) && AllSaved(events, n)
    ensures states[n].data.cacheOrder == Newest(Recency(GeneratedLog(states, events, n)), limits.cacheLimit)
    ensures forall k :: k in states[n].data.cache <==> k in Newest(Recency(GeneratedLog(states, events, n)), limits.cacheLimit)
    ensures |states[n].data.cache| == Min(limits.cacheLimit, |Recency(GeneratedLog(states, events, n))|)
  {
    hide Step, Recency, GeneratedLog, StatesBacked, QueueKeyed;
    OrderIsTheMostRecent(limits, states, events, n);
    OrderListsCache(limits, states, events, n);
  }
}
