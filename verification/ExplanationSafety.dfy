/** What holds in every reachable state of the controller, and what no step can undo. */
module ExplanationSafety {
  import opened Prelude
  import opened ExplanationModel
  import opened ExplanationSystem
  import opened ExplanationInvariant
  import opened ExplanationRuns

  /** The `i`-th state of some run of a fresh controller with these limits. */
  ghost predicate Reached(limits: Limits, states: seq<System>, events: seq<Event>, i: nat) {
    Run(limits, states, events) && Initial(states[0]) && i < |states| && limits.cacheLimit >= 1
  }

  lemma ReachedInvariant(limits: Limits, states: seq<System>, events: seq<Event>, i: nat)
    requires Reached(limits, states, events, i)
    ensures SystemInv(limits, states[i])
  {
    InitialHolds(limits, states[0]);
    RunKeepsInvariant(limits, states, events, i);
  }

  // ----- lifecycle ----------------------------------------------------------------------------------------

  /** Queued means queued, Running means active, available means Generated, and Generated means cached. */
  lemma LifecycleAgrees(limits: Limits, states: seq<System>, events: seq<Event>, i: nat, k: Key)
    requires Reached(limits, states, events, i) && k in states[i].data.states
    ensures var d := states[i].data; var state := d.states[k];
            && KeyOf(state.request) == k
            && (state.status == Queued ==> exists task :: task in d.queue && task.key == k && task.dispatch.request == state.request)
            && (state.status == Running ==>
                  d.active.Some? && d.active.value.task.key == k && d.active.value.task.dispatch.request == state.request)
            && (state.presentationAvailable <==> state.status == Generated)
            && (state.status == Generated ==> k in d.cache && d.cache[k].request == state.request)
  {
    ReachedInvariant(limits, states, events, i);
    var d := states[i].data;
    assert StateBacked(BookOf(d), k);
    if d.states[k].status == Queued {
      var j :| 0 <= j < |d.queue| && d.queue[j].key == k && d.queue[j].dispatch.request == d.states[k].request;
      assert d.queue[j] in d.queue;
    }
  }

  lemma OneRunning(limits: Limits, states: seq<System>, events: seq<Event>, i: nat, k: Key, l: Key)
    requires Reached(limits, states, events, i)
    requires k in states[i].data.states && states[i].data.states[k].status == Running
    requires l in states[i].data.states && states[i].data.states[l].status == Running
    ensures k == l
  {
    LifecycleAgrees(limits, states, events, i, k);
    LifecycleAgrees(limits, states, events, i, l);
  }

  /** The STATE-MISSING branch of `request` is unreachable, whichever of its sections runs next. */
  lemma RequestFindsItsState(
    limits: Limits, states: seq<System>, events: seq<Event>, i: nat, dispatch: Dispatch,
    notReady: Option<Code>, audit: Option<Code>, blockAudit: Option<Code>)
    requires Reached(limits, states, events, i)
    ensures BeginRequest(states[i].data, limits, dispatch, notReady, audit, blockAudit).reply != Refused(StateMissingCode)
    ensures states[i].inFlight.Some? && states[i].inFlight.value.scoped ==>
              Admit(states[i].data, limits, states[i].inFlight.value.dispatch, blockAudit).reply != Refused(StateMissingCode)
  {
    ReachedInvariant(limits, states, events, i);
    BeginRequestKeeps(states[i].data, limits, dispatch, notReady, audit, blockAudit);
    if states[i].inFlight.Some? && states[i].inFlight.value.scoped {
      AdmitKeeps(states[i].data, limits, states[i].inFlight.value.dispatch, blockAudit);
    }
  }

  /** `present` finds a cache entry for the request id that a Generated state shows. */
  lemma GeneratedCanBePresented(limits: Limits, states: seq<System>, events: seq<Event>, i: nat, k: Key)
    requires Reached(limits, states, events, i)
    requires k in states[i].data.states && states[i].data.states[k].status == Generated
    ensures var request := states[i].data.states[k].request;
            Presents(states[i].data, request.workspaceId, request.generation, request.evidenceId, request.requestId, k)
  {
    LifecycleAgrees(limits, states, events, i, k);
  }

  // ----- workers ------------------------------------------------------------------------------------------

  /** No lost wakeup, one worker, one task in flight, and a bound on the outstanding work. */
  lemma SingleFlight(limits: Limits, states: seq<System>, events: seq<Event>, i: nat)
    requires Reached(limits, states, events, i)
    ensures var s := states[i];
            && (s.data.queue != [] || s.data.active.Some? ==> s.data.workerRunning)
            && |s.workers| <= 1 && (s.data.workerRunning <==> |s.workers| == 1)
            && (s.workers == [AtPop] ==> s.data.active.None?)
            && |s.data.queue| + (if s.data.active.Some? then 1 else 0) <= limits.queueLimit + 1
  {
    ReachedInvariant(limits, states, events, i);
  }

  /** A worker that finishes finds the task it started still in the active slot, under its own request id. */
  lemma FinishOwnsItsTask(limits: Limits, states: seq<System>, events: seq<Event>, i: nat)
    requires Reached(limits, states, events, i) && i < |events| && events[i].WorkerFinishes?
    ensures var s := states[i];
            && events[i].worker == 0 && s.workers != [] && s.workers[0].Executing?
            && Owned(s.data, s.workers[0].task).Some?
            && s.data.active.value.task.key == s.workers[0].task.key
            && s.data.active.value.task.key in s.data.states
  {
    ReachedInvariant(limits, states, events, i);
    assert Follows(limits, states[i], events[i], states[i + 1]);
  }

  // ----- scope --------------------------------------------------------------------------------------------

  lemma StepGrowsGenerations(limits: Limits, s: System, e: Event)
    requires Enabled(s, e)
    ensures GenerationsGrow(s.data, Step(limits, s, e).data)
  {
    match e
    case RequestBegins(dispatch, notReady, audit, blockAudit) =>
      BeginRequestEffect(s.data, limits, dispatch, notReady, audit, blockAudit);
    case RequestScopes =>
    case RequestResumes(blockAudit) => AdmitEffect(s.data, limits, s.inFlight.value.dispatch, blockAudit);
    case Cancels(_, _) =>
    case ScopeChanges(_) =>
    case ShutdownBegins(_) =>
    case WorkerPops(_, _) =>
    case WorkerFinishes(w, outcome, audit) => FinishEffect(s.data, limits, s.workers[w].task, outcome, audit);
  }

  /** Recorded generations never decrease along a run. */
  lemma {:induction false} GenerationsNeverDecrease(
    limits: Limits, states: seq<System>, events: seq<Event>, i: nat, j: nat, workspace: Id)
    requires Run(limits, states, events) && i <= j < |states|
    requires workspace in states[i].data.generations
    ensures workspace in states[j].data.generations
    ensures states[j].data.generations[workspace] >= states[i].data.generations[workspace]
  {
    if i < j {
      GenerationsNeverDecrease(limits, states, events, i, j - 1, workspace);
      assert Follows(limits, states[j - 1], events[j - 1], states[j]);
      StepGrowsGenerations(limits, states[j - 1], events[j - 1]);
    }
  }

  lemma ScopeIsRecorded(limits: Limits, states: seq<System>, events: seq<Event>, i: nat)
    requires Reached(limits, states, events, i) && states[i].data.scope.Some?
    ensures var scope := states[i].data.scope.value;
            scope.workspaceId in states[i].data.generations
            && states[i].data.generations[scope.workspaceId] == scope.generation
  {
    ReachedInvariant(limits, states, events, i);
  }

  /** Only requests add tasks, one at the back, and only while shutdown has not begun. */
  lemma OnlyRequestsAddTasks(limits: Limits, s: System, e: Event)
    requires SystemInv(limits, s) && Enabled(s, e)
    ensures |Step(limits, s, e).data.queue| > |s.data.queue| ==>
              && (e.RequestBegins? || e.RequestResumes?)
              && Admitted(s.data, Step(limits, s, e).data,
                          if e.RequestBegins? then e.dispatch.request else s.inFlight.value.dispatch.request)
  {
    match e
    case RequestBegins(dispatch, notReady, audit, blockAudit) =>
      BeginRequestEffect(s.data, limits, dispatch, notReady, audit, blockAudit);
    case RequestResumes(blockAudit) => AdmitEffect(s.data, limits, s.inFlight.value.dispatch, blockAudit);
    case Cancels(cancel, audit) => CancelShrinksQueue(s.data, cancel, audit);
    case WorkerFinishes(w, outcome, audit) => FinishEffect(s.data, limits, s.workers[w].task, outcome, audit);
    case _ =>
  }

  lemma CancelShrinksQueue(d: Data, cancel: CancelRequest, audit: Option<Code>)
    ensures |CancelTask(d, cancel, audit).data.queue| <= |d.queue|
  {
    hide FirstNamed, CanceledWith, CountCanceled, PersistAudit;
  }

  /** The newest task agrees with the active scope, and its generation is the recorded one. */
  ghost predicate NewestMatchesScope(d: Data) {
    d.queue != [] &&
    var newest := d.queue[|d.queue| - 1].key;
    && d.scope == Some(Scope(newest.workspaceId, newest.generation, newest.locale))
    && newest.workspaceId in d.generations && d.generations[newest.workspaceId] == newest.generation
  }

  lemma AdmissionAgrees(limits: Limits, s: System, e: Event)
    requires SystemInv(limits, s) && Enabled(s, e) && limits.cacheLimit >= 1
    ensures |Step(limits, s, e).data.queue| > |s.data.queue| ==> NewestMatchesScope(Step(limits, s, e).data)
  {
    StepKeepsInvariant(limits, s, e);
    OnlyRequestsAddTasks(limits, s, e);
  }

  /**
   * A task that enters the queue agrees with the active scope in workspace, generation and locale at that moment,
   * and its generation is the recorded one, also when another scope change came while `request` had no lock.
   */
  lemma AdmittedTaskMatchesScope(limits: Limits, states: seq<System>, events: seq<Event>, i: nat)
    requires Reached(limits, states, events, i) && i < |events|
    ensures |states[i + 1].data.queue| > |states[i].data.queue| ==> NewestMatchesScope(states[i + 1].data)
  {
    ReachedInvariant(limits, states, events, i);
    assert Follows(limits, states[i], events[i], states[i + 1]);
    AdmissionAgrees(limits, states[i], events[i]);
  }

  // ----- shutdown -----------------------------------------------------------------------------------------

  /** Nothing is queued, active or running, and nothing new will be admitted. */
  ghost predicate Stopped(s: System) {
    s.data.shuttingDown && s.data.queue == [] && s.data.active.None? && s.workers == [] && !s.data.workerRunning
  }

  lemma StepKeepsShutdown(limits: Limits, s: System, e: Event)
    requires SystemInv(limits, s) && Enabled(s, e) && limits.cacheLimit >= 1 && s.data.shuttingDown
    ensures var s' := Step(limits, s, e);
            && s'.data.shuttingDown && s'.data.queue == []
            && (s.data.active.None? ==> s'.data.active.None?)
            && (Stopped(s) ==> Stopped(s'))
  {
    StepKeepsInvariant(limits, s, e);
    match e
    case RequestBegins(dispatch, notReady, audit, blockAudit) =>
      BeginRequestEffect(s.data, limits, dispatch, notReady, audit, blockAudit);
    case RequestResumes(blockAudit) => AdmitEffect(s.data, limits, s.inFlight.value.dispatch, blockAudit);
    case WorkerFinishes(w, outcome, audit) => FinishEffect(s.data, limits, s.workers[w].task, outcome, audit);
    case _ =>
  }

  lemma ShutdownEmptiesQueue(limits: Limits, s: System)
    requires SystemInv(limits, s) && s.data.shuttingDown
    ensures s.data.queue == []
  {
  }

  /** After `begin_shutdown` the queue stays empty and no task starts; an empty slot stays empty. */
  lemma {:induction false} ShutdownIsFinal(limits: Limits, states: seq<System>, events: seq<Event>, i: nat, j: nat)
    requires Reached(limits, states, events, j) && i <= j && states[i].data.shuttingDown
    ensures states[j].data.shuttingDown && states[j].data.queue == []
    ensures states[i].data.active.None? ==> states[j].data.active.None?
    ensures Stopped(states[i]) ==> Stopped(states[j])
  {
    hide Step, Stopped, SystemInv, Initial;
    ReachedInvariant(limits, states, events, j);
    if i == j {
      ShutdownEmptiesQueue(limits, states[j]);
    } else {
      ShutdownIsFinal(limits, states, events, i, j - 1);
      ReachedInvariant(limits, states, events, j - 1);
      assert Follows(limits, states[j - 1], events[j - 1], states[j]);
      StepKeepsShutdown(limits, states[j - 1], events[j - 1]);
    }
  }

  /** Whatever happens after `begin_shutdown`, a worker that pops finds nothing and starts nothing. */
  lemma NothingStartsAfterShutdown(limits: Limits, states: seq<System>, events: seq<Event>, i: nat, j: nat)
    requires Reached(limits, states, events, j) && i < j < |events|
    requires events[i].ShutdownBegins? && events[j].WorkerPops?
    ensures states[j].data.queue == [] && states[j + 1].data.active.None?
    ensures states[j + 1].workers == []
  {
    assert Follows(limits, states[i], events[i], states[i + 1]);
    assert Follows(limits, states[j], events[j], states[j + 1]);
    ShutdownIsFinal(limits, states, events, i + 1, j);
    ReachedInvariant(limits, states, events, j);
  }
}
