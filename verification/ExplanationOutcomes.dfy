/**
 * How a task ends: what a cancel and a shutdown do to it, how long that lasts, and how the worker starts a task and records
 * its outcome. The laws speak about steps and runs of the system, with every status, flag and code written out.
 */
module ExplanationOutcomes {
  import opened Prelude
  import opened ExplanationModel
  import opened ExplanationSystem
  import opened ExplanationInvariant
  import opened ExplanationRuns
  import opened ExplanationSafety
  import opened ExplanationRebind
  import opened ExplanationAccounting
  import opened ExplanationDecisions

  // ----- cancel -------------------------------------------------------------------------------------------

  ghost predicate NamedBy(request: Request, cancel: CancelRequest) {
    && request.requestId == cancel.requestId && request.generation == cancel.generation
    && request.selectionVersion == cancel.selectionVersion
  }

  ghost predicate ActiveNamed(d: Data, cancel: CancelRequest) {
    d.active.Some? && NamedBy(d.active.value.task.dispatch.request, cancel)
  }

  /** The first queued task the cancel names. */
  ghost predicate FirstNamedAt(queue: seq<Task>, cancel: CancelRequest, p: nat) {
    && p < |queue| && NamedBy(queue[p].dispatch.request, cancel)
    && forall j :: 0 <= j < p ==> !NamedBy(queue[j].dispatch.request, cancel)
  }

  ghost predicate OthersStay(d: Data, d': Data) {
    && d'.scope == d.scope && d'.generations == d.generations && d'.cache == d.cache && d'.cacheOrder == d.cacheOrder
    && d'.workerRunning == d.workerRunning && d'.shuttingDown == d.shuttingDown
  }

  /** The key is Canceled and says so; without a state there is nothing to record. */
  ghost predicate MarkedCanceled(d: Data, d': Data, reply: Reply, k: Key, audit: Option<Code>) {
    if k in d.states then
      var state := Lifecycle(d.states[k].request, Canceled, true, false, Some(CanceledCode));
      && d'.states == d.states[k := state]
      && OneMore(d.control.usage.canceled, d'.control.usage.canceled)
      && reply == (if audit.Some? then Refused(audit.value) else Answered(state))
      && (audit.Some? ==> SwitchedOff(d'.control, audit.value))
    else d'.states == d.states && d'.control == d.control && reply == Refused(StateMissingCode)
  }

  /** What a cancel does: to the active task it names, or else to the first queued one, or else nothing. */
  ghost predicate CancelDecided(d: Data, d': Data, reply: Reply, cancel: CancelRequest, audit: Option<Code>) {
    && OthersStay(d, d')
    && (ActiveNamed(d, cancel) ==>
          && MarkedCanceled(d, d', reply, d.active.value.task.key, audit)
          && d'.queue == d.queue
          && d'.active == Some(ActiveTask(d.active.value.task, d.active.value.executorRequestId, true)))
    && (forall p: nat | !ActiveNamed(d, cancel) && FirstNamedAt(d.queue, cancel, p) ::
          && MarkedCanceled(d, d', reply, d.queue[p].key, audit)
          && d'.queue == d.queue[..p] + d.queue[p + 1..] && d'.active == d.active)
    && (!ActiveNamed(d, cancel) && (forall task :: task in d.queue ==> !NamedBy(task.dispatch.request, cancel)) ==>
          d' == d && reply == NothingFound)
  }

  lemma {:induction false} FirstNamedFinds(queue: seq<Task>, cancel: CancelRequest, from: nat)
    requires from <= |queue|
    ensures from <= FirstNamed(queue, cancel, from) <= |queue|
    ensures FirstNamed(queue, cancel, from) < |queue| ==>
              NamedBy(queue[FirstNamed(queue, cancel, from)].dispatch.request, cancel)
    ensures forall j :: from <= j < FirstNamed(queue, cancel, from) ==> !NamedBy(queue[j].dispatch.request, cancel)
    decreases |queue| - from
  {
    if from < |queue| && !Names(cancel, queue[from].dispatch.request) {
      FirstNamedFinds(queue, cancel, from + 1);
    }
  }

  lemma MarkLaw(d: Data, key: Key, queue: seq<Task>, active: Option<ActiveTask>, audit: Option<Code>)
    ensures var section := MarkCanceled(d, key, queue, active, audit);
            && MarkedCanceled(d, section.data, section.reply, key, audit) && OthersStay(d, section.data)
            && section.data.queue == queue && section.data.active == active
  {
  }

  lemma CancelLaw(d: Data, cancel: CancelRequest, audit: Option<Code>)
    ensures var section := CancelTask(d, cancel, audit); CancelDecided(d, section.data, section.reply, cancel, audit)
  {
    FirstNamedFinds(d.queue, cancel, 0);
    var position := FirstNamed(d.queue, cancel);
    if NamesActive(d, cancel) {
      MarkLaw(d, d.active.value.task.key, d.queue, Some(d.active.value.(canceled := true)), audit);
    } else if position < |d.queue| {
      MarkLaw(d, d.queue[position].key, RemoveAt(d.queue, position), d.active, audit);
      assert d.queue[position] in d.queue;
      forall p: nat | FirstNamedAt(d.queue, cancel, p) ensures p == position {
      }
    }
    hide MarkCanceled, MarkedCanceled, FirstNamed;
  }

  /** What every cancel of a run does and answers; the state of an active task is never missing. */
  lemma CancelsAreDecided(limits: Limits, states: seq<System>, events: seq<Event>, i: nat)
    requires Reached(limits, states, events, i) && i < |events| && events[i].Cancels?
    ensures var d, e := states[i].data, events[i]; var section := CancelTask(d, e.cancel, e.audit);
            && states[i + 1] == states[i].(data := section.data)
            && CancelDecided(d, section.data, section.reply, e.cancel, e.audit)
            && (ActiveNamed(d, e.cancel) ==> d.active.value.task.key in d.states)
  {
    ReachedInvariant(limits, states, events, i);
    assert Follows(limits, states[i], events[i], states[i + 1]);
    CancelLaw(states[i].data, events[i].cancel, events[i].audit);
    hide CancelTask, CancelDecided;
  }

  // ----- shutdown -----------------------------------------------------------------------------------------

  ghost predicate DrainedKey(d: Data, k: Key) {
    (exists i :: 0 <= i < |d.queue| && d.queue[i].key == k) || (d.active.Some? && d.active.value.task.key == k)
  }

  /** The drained entries that still have a state, the active one included. */
  ghost function DrainedEntries(d: Data): nat {
    |set i: nat | i < |d.queue| && d.queue[i].key in d.states| + (if d.active.Some? && d.active.value.task.key in d.states then 1 else 0)
  }

  ghost predicate ShutdownDecided(d: Data, d': Data, audit: Option<Code>) {
    && d'.shuttingDown && d'.queue == [] && d'.workerRunning == d.workerRunning
    && d'.scope == d.scope && d'.generations == d.generations && d'.cache == d.cache && d'.cacheOrder == d.cacheOrder
    && d'.active == (if d.active.Some? then Some(ActiveTask(d.active.value.task, d.active.value.executorRequestId, true)) else None)
    && d'.states.Keys == d.states.Keys
    && (forall k :: k in d.states ==>
          d'.states[k] == if DrainedKey(d, k) then Lifecycle(d.states[k].request, Canceled, true, false, Some(ShutdownCode)) else d.states[k])
    && (DrainedEntries(d) == 0 ==> d'.control.usage == d.control.usage)
    && (DrainedEntries(d) > 0 ==>
          d'.control.usage.canceled == Min(9_007_199_254_740_991, d.control.usage.canceled + DrainedEntries(d)))
    && (audit.Some? ==> SwitchedOff(d'.control, audit.value))
  }

  lemma {:induction false} ShiftedSize(s: set<nat>, t: set<nat>)
    requires forall n :: n in t <==> n > 0 && n - 1 in s
    ensures |t| == |s|
  {
    if s == {} {
      assert t == {};
    } else {
      var n :| n in s;
      assert n + 1 in t;
      ShiftedSize(s - {n}, t - {n + 1});
    }
  }

  lemma {:induction false} DrainedSize(queue: seq<Task>, states: map<Key, Lifecycle>)
    ensures DrainedWithState(queue, states) == |set i: nat | i < |queue| && queue[i].key in states|
  {
    var all := set i: nat | i < |queue| && queue[i].key in states;
    if queue == [] {
      assert all == {};
    } else {
      var rest := set i: nat | i < |queue[1..]| && queue[1..][i].key in states;
      var later := all - {0};
      forall n ensures n in later <==> n > 0 && n - 1 in rest {
      }
      ShiftedSize(rest, later);
      DrainedSize(queue[1..], states);
      assert queue[0].key in states ==> all == later + {0};
      assert queue[0].key !in states ==> all == later;
    }
  }

  lemma OutstandingIsDrained(d: Data, k: Key)
    ensures Outstanding(d.queue, d.active, k) <==> DrainedKey(d, k)
  {
    if exists i :: 0 <= i < |d.queue| && d.queue[i].key == k {
      var i :| 0 <= i < |d.queue| && d.queue[i].key == k;
      assert d.queue[i] in d.queue;
    }
  }

  lemma ShutdownStates(d: Data)
    ensures var states := CanceledForShutdown(d.states, d.queue, d.active);
            && states.Keys == d.states.Keys
            && forall k :: k in d.states ==>
                 states[k] == if DrainedKey(d, k) then Lifecycle(d.states[k].request, Canceled, true, false, Some(ShutdownCode)) else d.states[k]
  {
    var states := CanceledForShutdown(d.states, d.queue, d.active);
    forall k | k in d.states
      ensures states[k] == if DrainedKey(d, k) then Lifecycle(d.states[k].request, Canceled, true, false, Some(ShutdownCode)) else d.states[k]
    {
      OutstandingIsDrained(d, k);
    }
  }

  lemma ShutdownLaw(d: Data, audit: Option<Code>)
    ensures ShutdownDecided(d, BeginShutdown(d, audit), audit)
  {
    ShutdownStates(d);
    DrainedSize(d.queue, d.states);
    hide CanceledForShutdown, DrainedWithState, DrainedKey;
  }

  // ----- a canceled task stays canceled -------------------------------------------------------------------

  ghost predicate IsCanceled(d: Data, k: Key) {
    k in d.states && d.states[k].status == Canceled
  }

  ghost predicate RunsKey(d: Data, k: Key) {
    d.active.Some? && d.active.value.task.key == k
  }

  ghost predicate QueuesKey(d: Data, k: Key) {
    exists i :: 0 <= i < |d.queue| && d.queue[i].key == k
  }

  ghost predicate RequestFor(s: System, e: Event, k: Key)
    requires Enabled(s, e)
  {
    IsRequest(e) && DispatchOf(s, e).request.workspaceId == k.workspaceId && DispatchOf(s, e).request.generation == k.generation
    && DispatchOf(s, e).request.evidenceId == k.evidenceId && DispatchOf(s, e).request.locale == k.locale
  }

  /** No request for the key among the steps from `i` up to `j`. */
  ghost predicate Unrequested(states: seq<System>, events: seq<Event>, i: nat, j: nat, k: Key) {
    i <= j <= |events| < |states| && forall m :: i <= m < j ==> Enabled(states[m], events[m]) && !RequestFor(states[m], events[m], k)
  }

  /** The same cached results in the same order, and the same tokens. */
  ghost predicate SameResults(d: Data, d': Data) {
    && d'.cacheOrder == d.cacheOrder && d'.cache.Keys == d.cache.Keys
    && (forall l :: l in d.cache ==> d'.cache[l].result == d.cache[l].result)
    && d'.control.usage.inputTokens == d.control.usage.inputTokens
    && d'.control.usage.outputTokens == d.control.usage.outputTokens
    && d'.control.usage.totalTokens == d.control.usage.totalTokens
  }

  /** The task of the key is canceled, and no other one of that key waits to be started. */
  ghost predicate StaysCanceled(d: Data, k: Key) {
    IsCanceled(d, k) && (RunsKey(d, k) || !QueuesKey(d, k))
  }

  ghost predicate OthersTouched(d: Data, d': Data, k: Key) {
    && (k in d.states ==> k in d'.states && d'.states[k] == d.states[k])
    && (forall j :: |d.queue| <= j < |d'.queue| ==> d'.queue[j].key != k)
    && (forall j :: 0 <= j < |d.queue| && j < |d'.queue| ==> d'.queue[j].key == d.queue[j].key)
  }

  lemma BlockedElsewhere(d: Data, d': Data, reply: Reply, request: Request, reason: Code, retryable: bool, audit: Option<Code>, k: Key)
    requires KeyOf(request) != k
    ensures BlockedBy(d, d', reply, request, reason, retryable, audit) ==> OthersTouched(d, d', k) && d'.cache == d.cache
  {
  }

  ghost predicate SameCached(d: Data, d': Data) {
    d'.cache.Keys == d.cache.Keys && forall l :: l in d.cache ==> d'.cache[l].result == d.cache[l].result
  }

  lemma RepointedElsewhere(d: Data, d': Data, reply: Reply, dispatch: Dispatch, k: Key)
    requires KeyOf(dispatch.request) != k
    ensures Repoints(d, d', reply, dispatch) ==> OthersTouched(d, d', k) && SameCached(d, d')
  {
    if Repoints(d, d', reply, dispatch) {
      var l := KeyOf(dispatch.request);
      if d.states[l].status == Queued {
        var p :| RepointsTask(d.queue, d'.queue, p, Task(l, dispatch));
      }
    }
  }

  lemma DecidedElsewhere(limits: Limits, d: Data, d': Data, reply: Reply, dispatch: Dispatch, audit: Option<Code>, k: Key)
    requires KeyOf(dispatch.request) != k
    requires Decided(limits, d, d', reply, dispatch, audit)
    ensures OthersTouched(d, d', k) && SameCached(d, d')
  {
    var r := dispatch.request;
    BlockedElsewhere(d, d', reply, r, ShutdownCode, false, audit, k);
    BlockedElsewhere(d, d', reply, r, WorkspaceStaleCode, true, audit, k);
    BlockedElsewhere(d, d', reply, r, QueueFullCode, true, audit, k);
    RepointedElsewhere(d, d', reply, dispatch, k);
    hide BlockedBy, Repoints, InScope, HasRoom, Outranked;
  }

  lemma BeginsElsewhere(
    limits: Limits, d: Data, d': Data, reply: Reply, dispatch: Dispatch, notReady: Option<Code>, audit: Option<Code>, blockAudit: Option<Code>,
    k: Key)
    requires KeyOf(dispatch.request) != k
    requires Checked(limits, d, d', reply, dispatch, notReady, audit, blockAudit)
    ensures OthersTouched(d, d', k) && SameCached(d, d')
  {
    var r := dispatch.request;
    GateLaw(d.control, notReady);
    BlockedElsewhere(d, d', reply, r, ShutdownCode, false, blockAudit, k);
    BlockedElsewhere(d, d', reply, r, WorkspaceStaleCode, true, blockAudit, k);
    if audit.Some? {
      BlockedElsewhere(d, d', reply, r, audit.value, true, blockAudit, k);
    } else if GateReason(d.control, notReady).Some? {
      BlockedElsewhere(d, d', reply, r, GateReason(d.control, notReady).value, true, blockAudit, k);
      assert OffBecause(d.control, notReady, GateReason(d.control, notReady).value);
    } else if !d.shuttingDown && !Older(d, r) && !Newer(d, r) {
      DecidedElsewhere(limits, d, d', reply, dispatch, blockAudit, k);
    }
    hide Decided, BlockedBy, GateReason, GateOpen, OneMore, SwitchedOff;
  }

  /** A request for another key leaves this key's state and place alone. */
  lemma RequestElsewhere(limits: Limits, s: System, e: Event, k: Key)
    requires SystemInv(limits, s) && Enabled(s, e) && IsRequest(e) && !RequestFor(s, e, k)
    ensures var d' := Step(limits, s, e).data; OthersTouched(s.data, d', k) && SameCached(s.data, d') && SameSlot(s.data, d')
  {
    var d := s.data;
    assert StateBacked(BookOf(d), KeyOf(DispatchOf(s, e).request));
    if e.RequestBegins? {
      BeginLaw(d, limits, e.dispatch, e.notReady, e.audit, e.blockAudit);
      BeginRequestEffect(d, limits, e.dispatch, e.notReady, e.audit, e.blockAudit);
      var section := BeginRequest(d, limits, e.dispatch, e.notReady, e.audit, e.blockAudit);
      BeginsElsewhere(limits, d, section.data, section.reply, e.dispatch, e.notReady, e.audit, e.blockAudit, k);
    } else {
      AdmitLaw(d, limits, s.inFlight.value.dispatch, e.blockAudit);
      AdmitEffect(d, limits, s.inFlight.value.dispatch, e.blockAudit);
      var section := Admit(d, limits, s.inFlight.value.dispatch, e.blockAudit);
      DecidedElsewhere(limits, d, section.data, section.reply, s.inFlight.value.dispatch, e.blockAudit, k);
    }
    hide BeginRequest, Admit, Checked, Decided, SystemInv, OthersTouched, SameCached, SameSlot, RequestEffect;
  }

  lemma TouchedStays(d: Data, d': Data, k: Key)
    requires OthersTouched(d, d', k) && SameSlot(d, d') && StaysCanceled(d, k)
    ensures StaysCanceled(d', k) && (RunsKey(d, k) ==> RunsKey(d', k)) && (!QueuesKey(d, k) ==> !QueuesKey(d', k))
  {
  }

  lemma MarkStays(d: Data, d': Data, reply: Reply, key: Key, audit: Option<Code>, k: Key)
    requires StaysCanceled(d, k) && MarkedCanceled(d, d', reply, key, audit)
    requires RunsKey(d', k) <==> RunsKey(d, k)
    requires forall task :: task in d'.queue ==> task in d.queue
    ensures StaysCanceled(d', k) && (!QueuesKey(d, k) ==> !QueuesKey(d', k))
  {
    assert IsCanceled(d', k);
    hide MarkedCanceled;
    if QueuesKey(d', k) {
      var i :| 0 <= i < |d'.queue| && d'.queue[i].key == k;
      assert d'.queue[i] in d.queue;
      var j :| 0 <= j < |d.queue| && d.queue[j] == d'.queue[i];
    }
  }

  lemma CancelStays(d: Data, cancel: CancelRequest, audit: Option<Code>, k: Key)
    requires StaysCanceled(d, k)
    ensures var d' := CancelTask(d, cancel, audit).data;
            && StaysCanceled(d', k) && (RunsKey(d, k) ==> RunsKey(d', k)) && (!QueuesKey(d, k) ==> !QueuesKey(d', k))
            && d'.cache == d.cache
  {
    var section := CancelTask(d, cancel, audit);
    CancelLaw(d, cancel, audit);
    FirstNamedFinds(d.queue, cancel, 0);
    var position := FirstNamed(d.queue, cancel);
    hide CancelTask, FirstNamed, MarkedCanceled, StaysCanceled, QueuesKey;
    if ActiveNamed(d, cancel) {
      MarkStays(d, section.data, section.reply, d.active.value.task.key, audit, k);
    } else if position < |d.queue| {
      assert FirstNamedAt(d.queue, cancel, position);
      MarkStays(d, section.data, section.reply, d.queue[position].key, audit, k);
    }
  }

  lemma ShutdownStays(d: Data, audit: Option<Code>, k: Key)
    requires StaysCanceled(d, k)
    ensures var d' := BeginShutdown(d, audit); StaysCanceled(d', k) && (RunsKey(d, k) ==> RunsKey(d', k)) && !QueuesKey(d', k)
  {
    ShutdownLaw(d, audit);
    hide BeginShutdown;
  }

  lemma PopStays(d: Data, audit: Option<Code>, k: Key)
    requires StaysCanceled(d, k) && d.active.None?
    ensures var d' := PopTask(d, audit); StaysCanceled(d', k) && !QueuesKey(d', k)
  {
  }

  lemma RecordStays(d: Data, limits: Limits, task: Task, request: Request, outcome: ExecutorOutcome, k: Key)
    requires IsCanceled(d, k) && task.key != k
    ensures IsCanceled(RecordOutcome(d, limits, task, request, outcome), k)
  {
  }

  lemma FinishStays(d: Data, limits: Limits, task: Task, outcome: ExecutorOutcome, audit: Option<Code>, k: Key)
    requires IsCanceled(d, k) && Owned(d, task).Some?
    ensures var d' := FinishTask(d, limits, task, outcome, audit);
            && IsCanceled(d', k) && d'.queue == d.queue && (task.key == k ==> d' == d.(active := None))
  {
    FinishEffect(d, limits, task, outcome, audit);
    if task.key != k {
      RecordStays(d.(active := None), limits, task, Owned(d, task).value, outcome, k);
    }
    hide RecordOutcome;
  }

  lemma QuietResults(limits: Limits, s: System, e: Event)
    requires Enabled(s, e) && !e.WorkerFinishes? && SameCached(s.data, Step(limits, s, e).data)
    ensures SameResults(s.data, Step(limits, s, e).data)
  {
    QuietStep(limits, s, e);
    StepOrder(limits, s, e);
    hide Step;
  }

  /** A step that is no request for the key leaves its canceled task canceled, and discards what its worker brings. */
  lemma StepStays(limits: Limits, s: System, e: Event, k: Key)
    requires SystemInv(limits, s) && Enabled(s, e) && limits.cacheLimit >= 1
    requires StaysCanceled(s.data, k) && !RequestFor(s, e, k)
    ensures var d, d' := s.data, Step(limits, s, e).data;
            && IsCanceled(d', k) && (!QueuesKey(d, k) ==> !QueuesKey(d', k))
            && (RunsKey(d, k) && !e.WorkerFinishes? ==> RunsKey(d', k))
            && (RunsKey(d, k) && e.WorkerFinishes? ==> d' == d.(active := None))
            && (!e.WorkerFinishes? ==> SameResults(d, d'))
  {
    var d, d' := s.data, Step(limits, s, e).data;
    match e
    case RequestBegins(_, _, _, _) => RequestStays(limits, s, e, k);
    case RequestResumes(_) => RequestStays(limits, s, e, k);
    case Cancels(cancel, audit) => CancelStays(d, cancel, audit, k); QuietByCache(limits, s, e);
    case ShutdownBegins(audit) => ShutdownStays(d, audit, k); QuietByCache(limits, s, e);
    case WorkerPops(_, audit) => PopsKeeps(limits, s, e); PopStays(d, audit, k); QuietByCache(limits, s, e);
    case WorkerFinishes(w, outcome, audit) => FinishesKeeps(limits, s, e); FinishStays(d, limits, s.workers[w].task, outcome, audit, k);
    case _ => QuietByCache(limits, s, e);
    hide SystemInv, CancelTask, FinishTask, BeginRequest, Admit;
  }

  lemma QuietByCache(limits: Limits, s: System, e: Event)
    requires Enabled(s, e) && !e.WorkerFinishes? && !IsRequest(e)
    ensures SameResults(s.data, Step(limits, s, e).data)
  {
    if e.Cancels? {
      CancelLaw(s.data, e.cancel, e.audit);
      hide CancelTask, ActiveNamed, FirstNamedAt, MarkedCanceled;
      QuietResults(limits, s, e);
    } else {
      QuietResults(limits, s, e);
    }
  }

  lemma RequestStays(limits: Limits, s: System, e: Event, k: Key)
    requires SystemInv(limits, s) && Enabled(s, e) && IsRequest(e)
    requires StaysCanceled(s.data, k) && !RequestFor(s, e, k)
    ensures var d, d' := s.data, Step(limits, s, e).data;
            && StaysCanceled(d', k) && (RunsKey(d, k) ==> RunsKey(d', k)) && (!QueuesKey(d, k) ==> !QueuesKey(d', k))
            && SameResults(d, d')
  {
    RequestElsewhere(limits, s, e, k);
    TouchedStays(s.data, Step(limits, s, e).data, k);
    QuietResults(limits, s, e);
    hide Step, SystemInv;
  }

  /** A canceled task stays canceled, over any run without a request for its key, while no other one of its key is queued. */
  lemma {:induction false} CanceledStays(limits: Limits, states: seq<System>, events: seq<Event>, i: nat, j: nat, k: Key)
    requires Reached(limits, states, events, j) && Unrequested(states, events, i, j, k)
    requires IsCanceled(states[i].data, k) && !QueuesKey(states[i].data, k)
    ensures IsCanceled(states[j].data, k) && !QueuesKey(states[j].data, k)
    decreases j - i
  {
    hide SystemInv, Step, IsCanceled, QueuesKey, RunsKey, RequestFor, SameResults, Initial;
    if i < j {
      CanceledStays(limits, states, events, i, j - 1, k);
      ReachedInvariant(limits, states, events, j - 1);
      assert Follows(limits, states[j - 1], events[j - 1], states[j]);
      StepStays(limits, states[j - 1], events[j - 1], k);
    }
  }

  ghost predicate Unfinished(events: seq<Event>, i: nat, j: nat) {
    j <= |events| && forall m :: i <= m < j ==> !events[m].WorkerFinishes?
  }

  /** The task of the key runs canceled, and nothing was recorded since. */
  lemma {:induction false} CanceledRunningStays(
    limits: Limits, states: seq<System>, events: seq<Event>, i: nat, j: nat, k: Key)
    requires Reached(limits, states, events, j) && Unrequested(states, events, i, j, k) && Unfinished(events, i, j)
    requires IsCanceled(states[i].data, k) && RunsKey(states[i].data, k)
    ensures IsCanceled(states[j].data, k) && RunsKey(states[j].data, k) && SameResults(states[i].data, states[j].data)
    decreases j - i
  {
    hide SystemInv, Step, IsCanceled, QueuesKey, RunsKey, RequestFor, Initial;
    if i < j {
      CanceledRunningStays(limits, states, events, i, j - 1, k);
      ReachedInvariant(limits, states, events, j - 1);
      assert Follows(limits, states[j - 1], events[j - 1], states[j]);
      StepStays(limits, states[j - 1], events[j - 1], k);
    }
  }

  /**
   * A cancel of the running task is final: until its worker finishes its key stays Canceled and neither results nor tokens
   * change, and what the worker brings only empties the slot. A request for the key in between is the one exception.
   */
  lemma CancelOutlivesTheExecutor(limits: Limits, states: seq<System>, events: seq<Event>, i: nat, f: nat)
    requires Reached(limits, states, events, f) && i < f < |events|
    requires events[i].Cancels? && ActiveNamed(states[i].data, events[i].cancel)
    requires events[f].WorkerFinishes? && Unfinished(events, i, f)
    requires Unrequested(states, events, i + 1, f, states[i].data.active.value.task.key)
    ensures var k := states[i].data.active.value.task.key;
            && IsCanceled(states[f].data, k) && RunsKey(states[f].data, k)
            && SameResults(states[i].data, states[f].data)
            && states[f + 1].data == states[f].data.(active := None)
  {
    var k := states[i].data.active.value.task.key;
    CancelsAreDecided(limits, states, events, i);
    ReachedInvariant(limits, states, events, i);
    assert Follows(limits, states[i], events[i], states[i + 1]);
    QuietByCache(limits, states[i], events[i]);
    CanceledRunningStays(limits, states, events, i + 1, f, k);
    ReachedInvariant(limits, states, events, f);
    assert Follows(limits, states[f], events[f], states[f + 1]);
    StepStays(limits, states[f], events[f], k);
    hide SystemInv, Step, CancelTask;
  }

  /** A queued task that was canceled stays so, whoever else runs, until its key is requested again. */
  lemma CanceledQueuedStays(limits: Limits, states: seq<System>, events: seq<Event>, i: nat, j: nat, p: nat)
    requires Reached(limits, states, events, j) && i < j && i < |events| && events[i].Cancels?
    requires !ActiveNamed(states[i].data, events[i].cancel) && FirstNamedAt(states[i].data.queue, events[i].cancel, p)
    requires var d := states[i].data; var k := d.queue[p].key;
             && k in d.states && (forall m :: 0 <= m < |d.queue| && m != p ==> d.queue[m].key != k)
             && Unrequested(states, events, i + 1, j, k)
    ensures IsCanceled(states[j].data, states[i].data.queue[p].key) && !QueuesKey(states[j].data, states[i].data.queue[p].key)
  {
    CancelsAreDecided(limits, states, events, i);
    CanceledStays(limits, states, events, i + 1, j, states[i].data.queue[p].key);
  }

  /** What `begin_shutdown` does, and that the keys it drained stay Canceled until one of them is requested again. */
  lemma ShutdownCancels(limits: Limits, states: seq<System>, events: seq<Event>, i: nat)
    requires Reached(limits, states, events, i) && i < |events| && events[i].ShutdownBegins?
    ensures ShutdownDecided(states[i].data, states[i + 1].data, events[i].audit)
  {
    assert Follows(limits, states[i], events[i], states[i + 1]);
    ShutdownLaw(states[i].data, events[i].audit);
    hide BeginShutdown, ShutdownDecided;
  }

  lemma DrainedStay(limits: Limits, states: seq<System>, events: seq<Event>, i: nat, j: nat, k: Key)
    requires Reached(limits, states, events, j) && i < j && i < |events| && events[i].ShutdownBegins?
    requires DrainedKey(states[i].data, k) && k in states[i].data.states && Unrequested(states, events, i + 1, j, k)
    ensures IsCanceled(states[j].data, k) && states[j].data.queue == []
  {
    ShutdownCancels(limits, states, events, i);
    CanceledStays(limits, states, events, i + 1, j, k);
    ShutdownIsFinal(limits, states, events, i + 1, j);
  }

  // ----- scope --------------------------------------------------------------------------------------------

  /** An older generation is refused; any other becomes the recorded one and the scope the active one. */
  ghost predicate ScopeDecided(d: Data, d': Data, reply: Reply, scope: Scope) {
    if scope.workspaceId in d.generations && d.generations[scope.workspaceId] > scope.generation then
      d' == d && reply == Refused(WorkspaceStaleCode)
    else
      && d'.scope == Some(scope) && d'.generations == d.generations[scope.workspaceId := scope.generation]
      && d' == d.(scope := d'.scope, generations := d'.generations) && !reply.Refused?
  }

  lemma ScopeLaw(d: Data, scope: Scope)
    ensures ScopeDecided(d, SetScope(d, scope).data, SetScope(d, scope).reply, scope)
  {
  }

  // ----- the worker ---------------------------------------------------------------------------------------

  /** The head of the queue is started under its own request; without a saved audit it is reported Unavailable. */
  ghost predicate PopDecided(d: Data, d': Data, audit: Option<Code>) {
    if d.queue == [] then d' == d.(workerRunning := false)
    else
      var task := d.queue[0];
      var r := task.dispatch.request;
      && OthersStay(d, d') && d'.queue == d.queue[1..]
      && OneMore(d.control.usage.started, d'.control.usage.started)
      && (audit.None? ==>
            && d'.states == d.states[task.key := Lifecycle(r, Running, false, false, None)]
            && d'.active == Some(ActiveTask(task, r.requestId, false))
            && d'.control == d.control.(usage := d'.control.usage)
            && d'.control.usage == d.control.usage.(started := d'.control.usage.started))
      && (audit.Some? ==>
            && d'.states == d.states[task.key := Lifecycle(r, Unavailable, true, false, Some(audit.value))]
            && d'.active.None? && SwitchedOff(d'.control, audit.value)
            && OneMore(d.control.usage.unavailable, d'.control.usage.unavailable)
            && OneMore(d.control.fallbackTasks, d'.control.fallbackTasks))
  }

  lemma PopLaw(d: Data, audit: Option<Code>)
    ensures PopDecided(d, PopTask(d, audit), audit)
  {
  }

  /** How each runtime error ends a task, and the code shown for it. */
  ghost predicate EndsAs(error: RuntimeError, status: Status, code: Option<Code>) {
    match error
    case RuntimeCanceled => status == Canceled && code == Some(CanceledCode)
    case UnsupportedRelease => status == Unavailable && code == Some(ReleaseUnsupportedCode)
    case Schema => status == Unavailable && code == Some(SchemaUnverifiedCode)
    case PrivateRuntime => status == Unavailable && code == Some(RuntimeUnsafeCode)
    case AuthBridge => status == Unavailable && code == Some(AuthBridgeUnavailableCode)
    case Skill => status == Unavailable && code == Some(SkillInvalidCode)
    case IsolationProbe => status == Unavailable && code == Some(IsolationUnverifiedCode)
    case Policy => status == Unavailable && code == Some(PolicyViolationCode)
    case Process => status == Failed && code == Some(ProcessFailedCode)
    case Protocol => status == Failed && code == Some(ProtocolMismatchCode)
    case Busy => status == Failed && code == Some(BusyCode)
    case AlreadyUsed => status == Failed && code == Some(RuntimeUsedCode)
    case Timeout => status == Failed && code == Some(TimeoutCode)
    case Output => status == Failed && code == Some(OutputInvalidCode)
    case EvidenceRedaction => status == Failed && code == Some(EvidenceRedactionCode)
  }

  ghost predicate SameOutcomes(u: Usage, u': Usage) {
    u'.succeeded == u.succeeded && u'.failed == u.failed && u'.canceled == u.canceled && u'.unavailable == u.unavailable
  }

  /** The answer to what was asked when the task was started. */
  ghost predicate Answers(task: Task, result: ExplainResult) {
    result.requestId == task.dispatch.request.requestId && result.locale == task.dispatch.request.locale
  }

  /** An outcome that was saved, recorded under request `r`: one state and one counter. */
  ghost predicate Recorded(d: Data, d': Data, task: Task, r: Request, outcome: ExecutorOutcome) {
    var k, u, u' := task.key, d.control.usage, d'.control.usage;
    && k in d'.states
    && (outcome.Ok? ==> u'.totalLatencyMs == Min(9_007_199_254_740_991, u.totalLatencyMs + outcome.value.latencyMs))
    && (outcome.Ok? && Answers(task, outcome.value) ==>
          && d'.states[k] == Lifecycle(r, Generated, false, true, None)
          && k in d'.cache && d'.cache[k] == Cached(r, outcome.value)
          && d'.cacheOrder != [] && d'.cacheOrder[|d'.cacheOrder| - 1] == k
          && OneMore(u.succeeded, u'.succeeded) && SameOutcomes(u, u'.(succeeded := u.succeeded)))
    && (outcome.Ok? && !Answers(task, outcome.value) ==>
          && d'.states[k] == Lifecycle(r, Failed, true, false, Some(ResultStaleCode))
          && d'.cache == d.cache && d'.cacheOrder == d.cacheOrder
          && OneMore(u.failed, u'.failed) && SameOutcomes(u, u'.(failed := u.failed)))
    && (outcome.Err? ==>
          && EndsAs(outcome.error, d'.states[k].status, d'.states[k].errorCode)
          && d'.states[k] == Lifecycle(r, d'.states[k].status, true, false, d'.states[k].errorCode)
          && d'.cache == d.cache && d'.cacheOrder == d.cacheOrder
          && match d'.states[k].status
             case Canceled => OneMore(u.canceled, u'.canceled) && SameOutcomes(u, u'.(canceled := u.canceled))
             case Failed => OneMore(u.failed, u'.failed) && SameOutcomes(u, u'.(failed := u.failed))
             case _ => OneMore(u.unavailable, u'.unavailable) && SameOutcomes(u, u'.(unavailable := u.unavailable))
                       && OneMore(d.control.fallbackTasks, d'.control.fallbackTasks))
  }

  /** Other keys keep their states, except that an evicted explanation takes its Generated state along. */
  ghost predicate OtherStatesStay(d: Data, d': Data, k: Key) {
    && (forall l :: l in d.states && l != k ==>
          if l in d'.states then d'.states[l] == d.states[l] else d.states[l].status == Generated && l in d.cache && l !in d'.cache)
    && (forall l :: l in d'.states && l != k ==> l in d.states)
  }

  /** What a finishing worker leaves behind. `r` is the request its task was last repointed to. */
  ghost predicate Finished(d: Data, d': Data, task: Task, r: Request, outcome: ExecutorOutcome, audit: Option<Code>) {
    var k := task.key;
    && d'.active.None? && d'.queue == d.queue && d'.scope == d.scope && d'.generations == d.generations
    && d'.workerRunning == d.workerRunning && d'.shuttingDown == d.shuttingDown
    && (IsCanceled(d, k) ==> d' == d.(active := None))
    && (!IsCanceled(d, k) ==> OtherStatesStay(d, d', k))
    && (!IsCanceled(d, k) && audit.None? ==> Recorded(d, d', task, r, outcome))
    && (!IsCanceled(d, k) && audit.Some? ==>
          && k in d'.states && d'.states[k] == Lifecycle(r, Unavailable, true, false, Some(audit.value))
          && k !in d'.cache && k !in d'.cacheOrder && SwitchedOff(d'.control, audit.value))
  }

  lemma ErrorLaw(c: Control, error: RuntimeError)
    ensures EndsAs(error, ErrorStatus(error), Some(ErrorCode(error)))
    ensures var u, u' := c.usage, CountError(c, error).usage;
            match ErrorStatus(error)
            case Canceled => OneMore(u.canceled, u'.canceled) && SameOutcomes(u, u'.(canceled := u.canceled))
            case Failed => OneMore(u.failed, u'.failed) && SameOutcomes(u, u'.(failed := u.failed))
            case _ => OneMore(u.unavailable, u'.unavailable) && SameOutcomes(u, u'.(unavailable := u.unavailable))
                      && OneMore(c.fallbackTasks, CountError(c, error).fallbackTasks)
  {
  }

  lemma ResultLaw(c: Control, matching: bool, result: ExplainResult)
    ensures var u, u' := c.usage, CountResult(c, matching, result).usage;
            && u'.totalLatencyMs == Min(9_007_199_254_740_991, u.totalLatencyMs + result.latencyMs)
            && if matching then OneMore(u.succeeded, u'.succeeded) && SameOutcomes(u, u'.(succeeded := u.succeeded))
               else OneMore(u.failed, u'.failed) && SameOutcomes(u, u'.(failed := u.failed))
  {
  }

  lemma InsertLaw(d: Data, key: Key, cached: Cached, limit: nat)
    requires Listed(d.cacheOrder, d.cache) && CacheKeyed(d.cache) && KeyOf(cached.request) == key && limit >= 1
    ensures var d' := InsertCache(d, key, cached, limit);
            && OtherStatesStay(d, d', key) && key in d'.cache && d'.cache[key] == cached
            && d'.cacheOrder != [] && d'.cacheOrder[|d'.cacheOrder| - 1] == key
            && d'.control == d.control
  {
    InsertCacheKeeps(d, key, cached, limit);
    RememberListed(d, key, cached);
    var d1 := Remember(d, key, cached);
    var n := Surplus(d1.cacheOrder, limit);
    assert d1.cacheOrder[n..][|d1.cacheOrder| - n - 1] == d1.cacheOrder[|d1.cacheOrder| - 1];
    forall l | l in d1.cacheOrder[..n] ensures l in d1.cache && (l != key ==> l in d.cache) {
      var j :| 0 <= j < n && d1.cacheOrder[..n][j] == l;
      assert l == d1.cacheOrder[j];
    }
  }

  lemma SuccessLaw(d: Data, limits: Limits, task: Task, r: Request, result: ExplainResult)
    requires Listed(d.cacheOrder, d.cache) && CacheKeyed(d.cache) && KeyOf(r) == task.key && limits.cacheLimit >= 1
    requires Answers(task, result)
    ensures var d' := RecordSuccess(d, limits, task.key, r, result);
            Recorded(d, d', task, r, Ok(result)) && OtherStatesStay(d, d', task.key)
  {
    ResultLaw(d.control, true, result);
    InsertLaw(d, task.key, Cached(r, result), limits.cacheLimit);
    hide InsertCache, CountResult, Listed, CacheKeyed, KeyOf, OneMore, SameOutcomes;
  }

  lemma FailureLaw(d: Data, key: Key, state: Lifecycle, control: Control)
    ensures var d' := RecordFailure(d, key, state, control);
            && d' == d.(states := d'.states, control := control) && d'.states == d.states[key := state]
            && OtherStatesStay(d, d', key)
  {
  }

  lemma StaleLaw(d: Data, limits: Limits, task: Task, r: Request, result: ExplainResult)
    requires !Answers(task, result)
    ensures var d' := RecordOutcome(d, limits, task, r, Ok(result));
            Recorded(d, d', task, r, Ok(result)) && OtherStatesStay(d, d', task.key)
  {
    ResultLaw(d.control, false, result);
    FailureLaw(d, task.key, Terminal(r, Failed, true, ResultStaleCode), CountResult(d.control, false, result));
    hide CountResult, OneMore, SameOutcomes, RecordFailure, RecordSuccess, OtherStatesStay;
  }

  lemma ErrorRecordLaw(d: Data, limits: Limits, task: Task, r: Request, error: RuntimeError)
    ensures var d' := RecordOutcome(d, limits, task, r, Err(error));
            Recorded(d, d', task, r, Err(error)) && OtherStatesStay(d, d', task.key)
  {
    ErrorLaw(d.control, error);
    FailureLaw(d, task.key, Terminal(r, ErrorStatus(error), true, ErrorCode(error)), CountError(d.control, error));
    hide CountError, OneMore, SameOutcomes, EndsAs, ErrorStatus, ErrorCode, RecordFailure, OtherStatesStay;
  }

  lemma RecordLaw(d: Data, limits: Limits, task: Task, r: Request, outcome: ExecutorOutcome)
    requires Listed(d.cacheOrder, d.cache) && CacheKeyed(d.cache) && KeyOf(r) == task.key && limits.cacheLimit >= 1
    ensures var d' := RecordOutcome(d, limits, task, r, outcome);
            Recorded(d, d', task, r, outcome) && OtherStatesStay(d, d', task.key)
  {
    match outcome
    case Ok(result) =>
      if Answers(task, result) {
        SuccessLaw(d, limits, task, r, result);
      } else {
        StaleLaw(d, limits, task, r, result);
      }
      hide Recorded, OtherStatesStay, RecordSuccess, Listed, CacheKeyed;
    case Err(error) =>
      ErrorRecordLaw(d, limits, task, r, error);
      hide Recorded, OtherStatesStay, RecordFailure, Listed, CacheKeyed;
  }

  /** The failed save takes the cache entry back. */
  lemma UnsavedLaw(d0: Data, d: Data, key: Key, r: Request, code: Code)
    requires OtherStatesStay(d0, d, key)
    ensures var d' := Unsaved(d, key, r, code);
            && OtherStatesStay(d0, d', key) && key in d'.states
            && d'.states[key] == Lifecycle(r, Unavailable, true, false, Some(code))
            && key !in d'.cache && key !in d'.cacheOrder && SwitchedOff(d'.control, code)
            && OnlyRecorded(d, d') && d'.active == d.active
  {
  }

  lemma FinishLaw(d: Data, limits: Limits, task: Task, outcome: ExecutorOutcome, audit: Option<Code>)
    requires Listed(d.cacheOrder, d.cache) && CacheKeyed(d.cache) && limits.cacheLimit >= 1
    requires Owned(d, task).Some? && KeyOf(d.active.value.task.dispatch.request) == task.key
    ensures Finished(d, FinishTask(d, limits, task, outcome, audit), task, d.active.value.task.dispatch.request, outcome, audit)
  {
    var r, d1 := d.active.value.task.dispatch.request, d.(active := None);
    FinishEffect(d, limits, task, outcome, audit);
    if !IsCanceled(d, task.key) {
      RecordLaw(d1, limits, task, r, outcome);
      RecordKeepsSlot(d1, limits, task, r, outcome);
      var d2 := RecordOutcome(d1, limits, task, r, outcome);
      FromEmptySlot(d, d2, task, r, outcome);
      if audit.Some? {
        UnsavedLaw(d, d2, task.key, r, audit.value);
      }
      hide RecordOutcome, Unsaved, Recorded, OtherStatesStay, SwitchedOff, Listed, CacheKeyed;
    }
  }

  lemma RecordKeepsSlot(d: Data, limits: Limits, task: Task, r: Request, outcome: ExecutorOutcome)
    ensures RecordOutcome(d, limits, task, r, outcome).active == d.active
  {
  }

  lemma FromEmptySlot(d: Data, d': Data, task: Task, r: Request, outcome: ExecutorOutcome)
    requires Recorded(d.(active := None), d', task, r, outcome) && OtherStatesStay(d.(active := None), d', task.key)
    ensures Recorded(d, d', task, r, outcome) && OtherStatesStay(d, d', task.key)
  {
  }

  /** What every pop, every scope change and every finish of a run does. The worker that finishes runs the active task. */
  lemma WorkersAndScopesAreDecided(limits: Limits, states: seq<System>, events: seq<Event>, i: nat)
    requires Reached(limits, states, events, i) && i < |events|
    ensures Enabled(states[i], events[i])
    ensures var s, e := states[i], events[i]; var d, d' := s.data, states[i + 1].data;
            && (e.WorkerPops? ==>
                  && PopDecided(d, d', e.audit)
                  && states[i + 1].workers == (if d.queue == [] then [] else if e.audit.None? then [Executing(d.queue[0])] else [AtPop]))
            && (e.WorkerFinishes? ==>
                  && d.active.Some? && states[i + 1].workers == [AtPop]
                  && Finished(d, d', s.workers[e.worker].task, d.active.value.task.dispatch.request, e.outcome, e.audit))
            && (e.ScopeChanges? ==> ScopeDecided(d, d', SetScope(d, e.scope).reply, e.scope))
            && (e.RequestScopes? ==>
                  var r := s.inFlight.value.dispatch.request; var scope := Scope(r.workspaceId, r.generation, r.locale);
                  && ScopeDecided(d, d', SetScope(d, scope).reply, scope)
                  && states[i + 1].inFlight == (if SetScope(d, scope).reply.Refused? then None else Some(InFlight(s.inFlight.value.dispatch, true))))
  {
    var s, e := states[i], events[i];
    ReachedInvariant(limits, states, events, i);
    assert Follows(limits, s, e, states[i + 1]);
    match e
    case WorkerPops(_, audit) => PopLaw(s.data, audit);
    case WorkerFinishes(w, outcome, audit) =>
      FinishesKeeps(limits, s, e);
      FinishLaw(s.data, limits, s.workers[w].task, outcome, audit);
    case ScopeChanges(scope) => ScopeLaw(s.data, scope);
    case RequestScopes => ScopeLaw(s.data, ScopeOf(s.inFlight.value.dispatch.request));
    case _ =>
    hide PopTask, FinishTask, PopDecided, Finished, ScopeDecided, SetScope, BeginRequest, Admit, CancelTask, BeginShutdown;
  }
}
