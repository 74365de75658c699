/** The invariant over runs, and what follows from it for queueing, scope, shutdown and presentation. */
module ExplanationRuns {
  import opened Prelude
  import opened ExplanationModel
  import opened ExplanationSystem
  import opened ExplanationInvariant

  // ----- what a request section does to the work ----------------------------------------------------------

  ghost predicate SameSlot(d: Data, d': Data) {
    && (d'.active.Some? <==> d.active.Some?)
    && (d.active.Some? ==>
          && d'.active.value.task.key == d.active.value.task.key
          && d'.active.value.executorRequestId == d.active.value.executorRequestId)
  }

  /** One task was appended; it agrees with the active scope and with the recorded generation. */
  ghost predicate Admitted(d: Data, d': Data, request: Request) {
    && !d.shuttingDown && d'.workerRunning
    && |d'.queue| == |d.queue| + 1 && d'.queue[..|d.queue|] == d.queue
    && d'.queue[|d.queue|].dispatch.request == request
    && d'.scope == Some(ScopeOf(request))
  }

  ghost predicate NoTaskAdded(d: Data, d': Data) {
    |d'.queue| == |d.queue| && d'.workerRunning == d.workerRunning
  }

  ghost predicate RequestEffect(d: Data, d': Data, request: Request) {
    && SameSlot(d, d')
    && (Admitted(d, d', request) || NoTaskAdded(d, d'))
    && d'.shuttingDown == d.shuttingDown
    && (d.scope.Some? ==> d'.scope == d.scope)
  }

  /** Recorded generations never decrease. */
  ghost predicate GenerationsGrow(d: Data, d': Data) {
    forall w :: w in d.generations ==> w in d'.generations && d'.generations[w] >= d.generations[w]
  }

  lemma AdmitEffect(d: Data, limits: Limits, dispatch: Dispatch, blockAudit: Option<Code>)
    ensures RequestEffect(d, Admit(d, limits, dispatch, blockAudit).data, dispatch.request)
    ensures Admit(d, limits, dispatch, blockAudit).data.generations == d.generations
    ensures !Admit(d, limits, dispatch, blockAudit).reply.ScopePending?
  {
    if !d.shuttingDown && (d.scope.Some? ==> ScopeMatches(d.scope.value, dispatch.request)) {
      AdmitScopedEffect(d.(scope := Some(ScopeOf(dispatch.request))), limits, dispatch, blockAudit);
    }
  }

  lemma AdmitScopedEffect(d: Data, limits: Limits, dispatch: Dispatch, blockAudit: Option<Code>)
    requires !d.shuttingDown && d.scope == Some(ScopeOf(dispatch.request))
    ensures RequestEffect(d, AdmitScoped(d, limits, dispatch, blockAudit).data, dispatch.request)
    ensures AdmitScoped(d, limits, dispatch, blockAudit).data.generations == d.generations
    ensures !AdmitScoped(d, limits, dispatch, blockAudit).reply.ScopePending?
  {
    var key := KeyOf(dispatch.request);
    if key in d.states && CanRebind(d.states[key], dispatch.request) && !Over(d.states[key].status) {
      RebindEffect(d, dispatch, d.states[key]);
    } else if OutstandingCount(d) < limits.queueLimit + 1 {
      assert (d.queue + [Task(key, dispatch)])[..|d.queue|] == d.queue;
    }
  }

  lemma RebindEffect(d: Data, dispatch: Dispatch, existing: Lifecycle)
    ensures var d' := Rebind(d, dispatch, existing).data;
            && SameSlot(d, d') && NoTaskAdded(d, d')
            && d'.generations == d.generations && d'.scope == d.scope && d'.shuttingDown == d.shuttingDown
  {
  }

  lemma NewWorkspaceEffect(d: Data, limits: Limits, dispatch: Dispatch, blockAudit: Option<Code>)
    requires dispatch.request.workspaceId !in d.generations
    ensures CheckedEffect(d, CheckGeneration(d, limits, dispatch, blockAudit), dispatch.request)
  {
    hide Admit;
    var workspace := dispatch.request.workspaceId;
    AdmitEffect(d.(generations := d.generations[workspace := dispatch.request.generation]), limits, dispatch, blockAudit);
  }

  /** What the section that settles the generation does; a task it adds has its generation recorded. */
  ghost predicate CheckedEffect(d: Data, section: Section, request: Request) {
    && RequestEffect(d, section.data, request)
    && GenerationsGrow(d, section.data)
    && (section.reply.ScopePending? ==> BookOf(section.data) == BookOf(d) && NoTaskAdded(d, section.data))
    && (Admitted(d, section.data, request) ==> GenerationRecorded(section.data, request))
  }

  lemma CheckGenerationEffect(d: Data, limits: Limits, dispatch: Dispatch, blockAudit: Option<Code>)
    ensures CheckedEffect(d, CheckGeneration(d, limits, dispatch, blockAudit), dispatch.request)
  {
    var workspace := dispatch.request.workspaceId;
    if workspace !in d.generations {
      NewWorkspaceEffect(d, limits, dispatch, blockAudit);
    } else if d.generations[workspace] == dispatch.request.generation {
      AdmitEffect(d, limits, dispatch, blockAudit);
    }
  }

  lemma BeginRequestEffect(
    d: Data, limits: Limits, dispatch: Dispatch, notReady: Option<Code>, audit: Option<Code>, blockAudit: Option<Code>)
    ensures CheckedEffect(d, BeginRequest(d, limits, dispatch, notReady, audit, blockAudit), dispatch.request)
  {
    hide CheckGeneration, Admit;
    CheckGenerationEffect(d.(control := PersistAudit(CountAttempt(d.control), audit)), limits, dispatch, blockAudit);
  }

  // ----- the system invariant -----------------------------------------------------------------------------

  lemma {:induction false} RequestBeginsKeeps(limits: Limits, s: System, e: Event)
    requires SystemInv(limits, s) && Enabled(s, e) && e.RequestBegins?
    ensures SystemInv(limits, Step(limits, s, e))
  {
    BeginRequestKeeps(s.data, limits, e.dispatch, e.notReady, e.audit, e.blockAudit);
    BeginRequestEffect(s.data, limits, e.dispatch, e.notReady, e.audit, e.blockAudit);
  }

  lemma {:induction false} RequestResumesKeeps(limits: Limits, s: System, e: Event)
    requires SystemInv(limits, s) && Enabled(s, e) && e.RequestResumes?
    ensures SystemInv(limits, Step(limits, s, e))
  {
    AdmitKeeps(s.data, limits, s.inFlight.value.dispatch, e.blockAudit);
    AdmitEffect(s.data, limits, s.inFlight.value.dispatch, e.blockAudit);
  }

  lemma {:induction false} CancelsKeeps(limits: Limits, s: System, e: Event)
    requires SystemInv(limits, s) && Enabled(s, e) && e.Cancels?
    ensures SystemInv(limits, Step(limits, s, e))
  {
    CancelKeeps(s.data, limits, e.cancel, e.audit);
  }

  lemma {:induction false} PopsKeeps(limits: Limits, s: System, e: Event)
    requires SystemInv(limits, s) && Enabled(s, e) && e.WorkerPops?
    ensures SystemInv(limits, Step(limits, s, e))
    ensures s.data.active.None? && e.worker == 0
  {
    PopKeeps(s.data, limits, e.audit);
  }

  lemma {:induction false} FinishesKeeps(limits: Limits, s: System, e: Event)
    requires SystemInv(limits, s) && Enabled(s, e) && e.WorkerFinishes? && limits.cacheLimit >= 1
    ensures SystemInv(limits, Step(limits, s, e))
    ensures e.worker == 0 && s.data.active.Some? && Owned(s.data, s.workers[e.worker].task).Some?
  {
    var task := s.workers[e.worker].task;
    FinishKeeps(s.data, limits, task, e.outcome, e.audit);
    FinishEffect(s.data, limits, task, e.outcome, e.audit);
  }

  ghost predicate OnlyRecorded(d: Data, d': Data) {
    && d'.queue == d.queue && d'.workerRunning == d.workerRunning && d'.shuttingDown == d.shuttingDown
    && d'.scope == d.scope && d'.generations == d.generations
  }

  lemma RecordEffect(d: Data, limits: Limits, task: Task, request: Request, outcome: ExecutorOutcome)
    ensures OnlyRecorded(d, RecordOutcome(d, limits, task, request, outcome))
  {
  }

  lemma FinishEffect(d: Data, limits: Limits, task: Task, outcome: ExecutorOutcome, audit: Option<Code>)
    ensures OnlyRecorded(d, FinishTask(d, limits, task, outcome, audit))
  {
    if !Discarded(d, task) {
      RecordEffect(d.(active := None), limits, task, d.active.value.task.dispatch.request, outcome);
    }
  }

  lemma StepKeepsInvariant(limits: Limits, s: System, e: Event)
    requires SystemInv(limits, s) && Enabled(s, e) && limits.cacheLimit >= 1
    ensures SystemInv(limits, Step(limits, s, e))
  {
    match e
    case RequestBegins(_, _, _, _) => RequestBeginsKeeps(limits, s, e);
    case RequestScopes =>
    case RequestResumes(_) => RequestResumesKeeps(limits, s, e);
    case Cancels(_, _) => CancelsKeeps(limits, s, e);
    case ScopeChanges(_) =>
    case ShutdownBegins(audit) => BeginShutdownKeeps(s.data, limits, audit);
    case WorkerPops(_, _) => PopsKeeps(limits, s, e);
    case WorkerFinishes(_, _, _) => FinishesKeeps(limits, s, e);
  }

  lemma {:induction false} RunKeepsInvariant(limits: Limits, states: seq<System>, events: seq<Event>, i: nat)
    requires Run(limits, states, events) && i < |states| && limits.cacheLimit >= 1
    requires SystemInv(limits, states[0])
    ensures SystemInv(limits, states[i])
  {
    if i > 0 {
      RunKeepsInvariant(limits, states, events, i - 1);
      assert Follows(limits, states[i - 1], events[i - 1], states[i]);
      StepKeepsInvariant(limits, states[i - 1], events[i - 1]);
    }
  }

  lemma InitialHolds(limits: Limits, s: System)
    requires Initial(s)
    ensures SystemInv(limits, s)
  {
    assert s == System(s.data, [], None);
    InitialData(s.data, limits);
  }
}
