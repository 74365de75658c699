/**
 * What each actor of the controller gets, case by case: who is admitted, blocked or answered, what a cancel and a shutdown
 * do to a task, and how an outcome is recorded. The laws speak about steps of the system in terms of the data alone, with
 * every status, flag and code written out.
 */
module ExplanationDecisions {
  import opened Prelude
  import opened ExplanationModel
  import opened ExplanationSystem
  import opened ExplanationInvariant
  import opened ExplanationRuns
  import opened ExplanationSafety
  import opened ExplanationRebind

  // ----- vocabulary ---------------------------------------------------------------------------------------

  /** One more, up to the largest counter that is exact everywhere. */
  ghost predicate OneMore(before: nat, after: nat) {
    after == if before >= 9_007_199_254_740_991 then 9_007_199_254_740_991 else before + 1
  }

  ghost predicate SameBook(d: Data, d': Data) {
    d'.states == d.states && d'.queue == d.queue && d'.active == d.active && d'.cache == d.cache && d'.cacheOrder == d.cacheOrder
  }

  /** Only the state of one key is replaced. */
  ghost predicate SetsState(d: Data, d': Data, k: Key, state: Lifecycle) {
    && d'.states == d.states[k := state]
    && d'.queue == d.queue && d'.active == d.active && d'.cache == d.cache && d'.cacheOrder == d.cacheOrder
  }

  ghost predicate SwitchedOff(c: Control, code: Code) {
    !c.globalEnabled && !c.explainerEnabled && c.recoveryCode == Some(code)
  }

  /** Blocked: the state says Unavailable with the reason, or with the reason why the audit could not be saved. */
  ghost predicate BlockedBy(
    d: Data, d': Data, reply: Reply, request: Request, reason: Code, retryable: bool, audit: Option<Code>)
  {
    var k := Key(request.workspaceId, request.generation, request.evidenceId, request.locale);
    var state := Lifecycle(request, Unavailable, retryable, false, Some(if audit.Some? then audit.value else reason));
    && SetsState(d, d', k, state) && reply == Blocked(state)
    && OneMore(d.control.usage.unavailable, d'.control.usage.unavailable)
    && OneMore(d.control.fallbackTasks, d'.control.fallbackTasks)
    && (audit.Some? ==> SwitchedOff(d'.control, audit.value))
  }

  ghost predicate InScope(d: Data, request: Request) {
    d.scope.None? || d.scope == Some(Scope(request.workspaceId, request.generation, request.locale))
  }

  ghost predicate HasRoom(d: Data, limits: Limits) {
    |d.queue| + (if d.active.Some? then 1 else 0) < limits.queueLimit + 1
  }

  ghost predicate Ended(status: Status) {
    status == Failed || status == Unavailable || status == Canceled
  }

  /** An older selection never replaces a newer one, nor an automatic request a user's. */
  ghost predicate Outranked(existing: Request, request: Request) {
    || request.selectionVersion < existing.selectionVersion
    || ((existing.trigger == UserRequest || existing.trigger == UserRetry) && request.trigger == AutoVerifiedCommit)
  }

  /** A first request that is no retry, or a user's retry of a task that ended, of no lower version. */
  ghost predicate MayStart(d: Data, request: Request) {
    var k := Key(request.workspaceId, request.generation, request.evidenceId, request.locale);
    if k in d.states then
      Ended(d.states[k].status) && request.selectionVersion >= d.states[k].request.selectionVersion && request.trigger == UserRetry
    else request.trigger != UserRetry
  }

  /** The task is appended, its key is Queued, and a worker runs. */
  ghost predicate Appends(d: Data, d': Data, reply: Reply, dispatch: Dispatch) {
    var r := dispatch.request;
    var k := Key(r.workspaceId, r.generation, r.evidenceId, r.locale);
    var state := Lifecycle(r, Queued, false, false, None);
    && d'.queue == d.queue + [Task(k, dispatch)] && d'.states == d.states[k := state] && reply == Answered(state)
    && d'.active == d.active && d'.cache == d.cache && d'.cacheOrder == d.cacheOrder && d'.workerRunning
  }

  /** The live task or the cache entry of the key, and its state, carry the new request; nothing else changes. */
  ghost predicate Repoints(d: Data, d': Data, reply: Reply, dispatch: Dispatch) {
    var r := dispatch.request;
    var k := Key(r.workspaceId, r.generation, r.evidenceId, r.locale);
    k in d.states &&
    var state := Lifecycle(r, d.states[k].status, d.states[k].retryable, d.states[k].presentationAvailable, d.states[k].errorCode);
    && d'.states == d.states[k := state] && reply == Answered(state) && d'.cacheOrder == d.cacheOrder
    && (if state.status == Queued then
          && d'.active == d.active && d'.cache == d.cache
          && exists p :: RepointsTask(d.queue, d'.queue, p, Task(k, dispatch))
        else if state.status == Running then
          && d'.queue == d.queue && d'.cache == d.cache
          && d.active.Some? && d'.active == Some(ActiveTask(Task(k, dispatch), d.active.value.executorRequestId, d.active.value.canceled))
        else
          && state.status == Generated && d'.queue == d.queue && d'.active == d.active
          && k in d.cache && d'.cache == d.cache[k := Cached(r, d.cache[k].result)])
  }

  /** The first queued task of the key is replaced. */
  ghost predicate RepointsTask(queue: seq<Task>, queue': seq<Task>, p: nat, task: Task) {
    && p < |queue| && queue[p].key == task.key && queue' == queue[p := task]
    && forall j :: 0 <= j < p ==> queue[j].key != task.key
  }

  // ----- the section that admits --------------------------------------------------------------------------

  /** What a request gets once its generation is settled. */
  ghost predicate Decided(limits: Limits, d: Data, d': Data, reply: Reply, dispatch: Dispatch, audit: Option<Code>) {
    var r := dispatch.request;
    var k := Key(r.workspaceId, r.generation, r.evidenceId, r.locale);
    var open := !d.shuttingDown && InScope(d, r);
    && (d.shuttingDown ==> BlockedBy(d, d', reply, r, ShutdownCode, false, audit))
    && (!d.shuttingDown && !InScope(d, r) ==> BlockedBy(d, d', reply, r, WorkspaceStaleCode, true, audit))
    && (open && k in d.states && Outranked(d.states[k].request, r) ==> SameBook(d, d') && reply == Answered(d.states[k]))
    && (open && k in d.states && !Outranked(d.states[k].request, r) && !Ended(d.states[k].status) ==> Repoints(d, d', reply, dispatch))
    && (open && k in d.states && !Outranked(d.states[k].request, r) && Ended(d.states[k].status) && r.trigger != UserRetry ==>
          var state := Lifecycle(r, d.states[k].status, d.states[k].retryable, d.states[k].presentationAvailable, d.states[k].errorCode);
          SetsState(d, d', k, state) && reply == Answered(state))
    && (open && k !in d.states && r.trigger == UserRetry ==> SameBook(d, d') && reply == Refused(RetryStateCode))
    && (open && MayStart(d, r) && HasRoom(d, limits) ==> Appends(d, d', reply, dispatch))
    && (open && MayStart(d, r) && !HasRoom(d, limits) ==> BlockedBy(d, d', reply, r, QueueFullCode, true, audit))
  }

  lemma BlockLaw(d: Data, request: Request, reason: Code, retryable: bool, audit: Option<Code>)
    ensures BlockedBy(d, Block(d, request, reason, retryable, audit).data, Block(d, request, reason, retryable, audit).reply,
                      request, reason, retryable, audit)
  {
  }

  lemma RebindLaw(d: Data, dispatch: Dispatch)
    requires StateBacked(BookOf(d), KeyOf(dispatch.request)) && KeyOf(dispatch.request) in d.states
    requires !Ended(d.states[KeyOf(dispatch.request)].status)
    ensures var section := Rebind(d, dispatch, d.states[KeyOf(dispatch.request)]);
            Repoints(d, section.data, section.reply, dispatch)
  {
    var k := KeyOf(dispatch.request);
    FirstWithKeyFinds(d.queue, k, 0);
    var p := FirstWithKey(d.queue, k);
    if d.states[k].status == Queued {
      var j :| 0 <= j < |d.queue| && d.queue[j].key == k && d.queue[j].dispatch.request == d.states[k].request;
      assert RepointsTask(d.queue, d.queue[p := Task(k, dispatch)], p, Task(k, dispatch));
    }
  }

  lemma EnqueueLaw(d: Data, limits: Limits, dispatch: Dispatch, audit: Option<Code>)
    ensures var section := Enqueue(d, limits, dispatch, audit);
            if HasRoom(d, limits) then Appends(d, section.data, section.reply, dispatch)
            else BlockedBy(d, section.data, section.reply, dispatch.request, QueueFullCode, true, audit)
  {
    BlockLaw(d, dispatch.request, QueueFullCode, true, audit);
  }

  lemma AdmitScopedLaw(d: Data, limits: Limits, dispatch: Dispatch, audit: Option<Code>)
    requires StateBacked(BookOf(d), KeyOf(dispatch.request)) && !d.shuttingDown && InScope(d, dispatch.request)
    ensures var section := AdmitScoped(d, limits, dispatch, audit); Decided(limits, d, section.data, section.reply, dispatch, audit)
  {
    var k := KeyOf(dispatch.request);
    if k in d.states && !Ended(d.states[k].status) {
      RebindLaw(d, dispatch);
    }
    EnqueueLaw(d, limits, dispatch, audit);
    hide Rebind, Enqueue, Repoints, BlockedBy, Appends, StateBacked;
  }

  /** The data agree on everything a decision looks at. */
  ghost predicate Alike(d: Data, d1: Data) {
    && d1.states == d.states && d1.queue == d.queue && d1.active == d.active && d1.cache == d.cache && d1.cacheOrder == d.cacheOrder
    && d1.shuttingDown == d.shuttingDown
    && d1.control.usage.unavailable == d.control.usage.unavailable && d1.control.fallbackTasks == d.control.fallbackTasks
  }

  lemma DecidedAlike(
    limits: Limits, d: Data, d1: Data, d': Data, reply: Reply, dispatch: Dispatch, audit: Option<Code>)
    requires Alike(d, d1) && (InScope(d, dispatch.request) <==> InScope(d1, dispatch.request))
    requires Decided(limits, d1, d', reply, dispatch, audit)
    ensures Decided(limits, d, d', reply, dispatch, audit)
  {
    hide InScope, Outranked, Ended;
  }

  lemma BlockedAlike(
    d: Data, d1: Data, d': Data, reply: Reply, request: Request, reason: Code, retryable: bool, audit: Option<Code>)
    requires Alike(d, d1) && BlockedBy(d1, d', reply, request, reason, retryable, audit)
    ensures BlockedBy(d, d', reply, request, reason, retryable, audit)
  {
  }

  lemma AdmitLaw(d: Data, limits: Limits, dispatch: Dispatch, audit: Option<Code>)
    requires StateBacked(BookOf(d), KeyOf(dispatch.request))
    ensures var section := Admit(d, limits, dispatch, audit); Decided(limits, d, section.data, section.reply, dispatch, audit)
  {
    var r := dispatch.request;
    var section := Admit(d, limits, dispatch, audit);
    if d.shuttingDown {
      BlockLaw(d, r, ShutdownCode, false, audit);
      hide Block, BlockedBy, Appends, Repoints;
    } else if !InScope(d, r) {
      BlockLaw(d, r, WorkspaceStaleCode, true, audit);
      hide Block, BlockedBy, Appends, Repoints;
    } else {
      var d1 := d.(scope := Some(ScopeOf(r)));
      AdmitScopedLaw(d1, limits, dispatch, audit);
      DecidedAlike(limits, d, d1, section.data, section.reply, dispatch, audit);
      hide AdmitScoped, Decided;
    }
  }

  // ----- the section that counts, gates and checks the generation -----------------------------------------

  /** Why the feature is off, the first reason that applies. */
  ghost predicate OffBecause(c: Control, notReady: Option<Code>, reason: Code) {
    || (c.recoveryCode == Some(reason))
    || (c.recoveryCode.None? && !c.globalEnabled && reason == DisabledCode)
    || (c.recoveryCode.None? && c.globalEnabled && !c.explainerEnabled && reason == CommitExplainerDisabledCode)
    || (c.recoveryCode.None? && c.globalEnabled && c.explainerEnabled && notReady == Some(reason))
  }

  ghost predicate GateOpen(c: Control, notReady: Option<Code>) {
    c.recoveryCode.None? && c.globalEnabled && c.explainerEnabled && notReady.None?
  }

  ghost predicate Older(d: Data, r: Request) {
    r.workspaceId in d.generations && d.generations[r.workspaceId] > r.generation
  }

  ghost predicate Newer(d: Data, r: Request) {
    r.workspaceId in d.generations && d.generations[r.workspaceId] < r.generation
  }

  ghost predicate Checked(
    limits: Limits, d: Data, d': Data, reply: Reply, dispatch: Dispatch, notReady: Option<Code>, audit: Option<Code>, blockAudit: Option<Code>)
  {
    var r := dispatch.request;
    var passed := audit.None? && GateOpen(d.control, notReady) && !d.shuttingDown;
    && OneMore(d.control.usage.attempted, d'.control.usage.attempted)
    && (audit.Some? ==> BlockedBy(d, d', reply, r, audit.value, true, blockAudit))
    && (audit.Some? && blockAudit.None? ==> SwitchedOff(d'.control, audit.value))
    && (audit.None? ==> forall reason :: OffBecause(d.control, notReady, reason) ==> BlockedBy(d, d', reply, r, reason, true, blockAudit))
    && (audit.None? && GateOpen(d.control, notReady) && d.shuttingDown ==> BlockedBy(d, d', reply, r, ShutdownCode, false, blockAudit))
    && (passed && Older(d, r) ==> BlockedBy(d, d', reply, r, WorkspaceStaleCode, true, blockAudit))
    && (passed && Newer(d, r) ==> SameBook(d, d') && d'.generations == d.generations && d'.scope == d.scope && reply == ScopePending)
    && (passed && !Older(d, r) && !Newer(d, r) ==> Decided(limits, d, d', reply, dispatch, blockAudit))
  }

  lemma CheckLaw(d: Data, limits: Limits, dispatch: Dispatch, audit: Option<Code>)
    requires StateBacked(BookOf(d), KeyOf(dispatch.request))
    ensures var section := CheckGeneration(d, limits, dispatch, audit); var r := dispatch.request;
            && (Older(d, r) ==> BlockedBy(d, section.data, section.reply, r, WorkspaceStaleCode, true, audit))
            && (Newer(d, r) ==> section == Section(d, ScopePending))
            && (!Older(d, r) && !Newer(d, r) ==> Decided(limits, d, section.data, section.reply, dispatch, audit))
  {
    var r := dispatch.request;
    var section := CheckGeneration(d, limits, dispatch, audit);
    BlockLaw(d, r, WorkspaceStaleCode, true, audit);
    AdmitLaw(d, limits, dispatch, audit);
    var d1 := d.(generations := d.generations[r.workspaceId := r.generation]);
    AdmitLaw(d1, limits, dispatch, audit);
    hide Admit, Block, BlockedBy, StateBacked;
    if r.workspaceId !in d.generations {
      DecidedAlike(limits, d, d1, section.data, section.reply, dispatch, audit);
    }
    hide Decided;
  }

  ghost predicate SameAttempts(d: Data, section: Section) {
    section.data.control.usage.attempted == d.control.usage.attempted
  }

  lemma RebindAttempts(d: Data, limits: Limits, dispatch: Dispatch, existing: Lifecycle, audit: Option<Code>)
    ensures SameAttempts(d, Rebind(d, dispatch, existing)) && SameAttempts(d, Enqueue(d, limits, dispatch, audit))
  {
    hide FirstWithKey;
  }

  lemma AdmitAttempts(d: Data, limits: Limits, dispatch: Dispatch, audit: Option<Code>)
    ensures SameAttempts(d, Admit(d, limits, dispatch, audit))
  {
    var d1 := d.(scope := Some(ScopeOf(dispatch.request)));
    var key := KeyOf(dispatch.request);
    if key in d.states {
      RebindAttempts(d1, limits, dispatch, d1.states[key], audit);
    } else {
      RebindAttempts(d1, limits, dispatch, Fresh(dispatch.request, Queued), audit);
    }
    hide Rebind, Enqueue;
  }

  lemma CheckAttempts(d: Data, limits: Limits, dispatch: Dispatch, audit: Option<Code>)
    ensures SameAttempts(d, CheckGeneration(d, limits, dispatch, audit))
  {
    AdmitAttempts(d, limits, dispatch, audit);
    AdmitAttempts(d.(generations := d.generations[dispatch.request.workspaceId := dispatch.request.generation]), limits, dispatch, audit);
    hide Admit;
  }

  lemma BeginAttempts(
    d: Data, limits: Limits, dispatch: Dispatch, notReady: Option<Code>, audit: Option<Code>, blockAudit: Option<Code>)
    ensures OneMore(d.control.usage.attempted,
                    BeginRequest(d, limits, dispatch, notReady, audit, blockAudit).data.control.usage.attempted)
  {
    CheckAttempts(d.(control := PersistAudit(CountAttempt(d.control), audit)), limits, dispatch, blockAudit);
    hide CheckGeneration;
  }

  /** A closed gate names exactly one reason. */
  lemma GateLaw(c: Control, notReady: Option<Code>)
    ensures GateReason(c, notReady).None? <==> GateOpen(c, notReady)
    ensures forall reason :: OffBecause(c, notReady, reason) <==> GateReason(c, notReady) == Some(reason)
  {
  }

  function Counted(d: Data, audit: Option<Code>): Data {
    d.(control := PersistAudit(CountAttempt(d.control), audit))
  }

  lemma CountedAlike(d: Data, audit: Option<Code>, notReady: Option<Code>)
    ensures var d1 := Counted(d, audit);
            && Alike(d, d1) && d1.scope == d.scope && d1.generations == d.generations
            && (audit.Some? ==> SwitchedOff(d1.control, audit.value))
            && (audit.None? ==> GateReason(d1.control, notReady) == GateReason(d.control, notReady))
  {
  }

  lemma BlockKeepsOff(d: Data, request: Request, reason: Code, retryable: bool, code: Code)
    requires SwitchedOff(d.control, code)
    ensures SwitchedOff(Block(d, request, reason, retryable, None).data.control, code)
  {
  }

  lemma BeginPaths(
    d: Data, limits: Limits, dispatch: Dispatch, notReady: Option<Code>, audit: Option<Code>, blockAudit: Option<Code>)
    ensures var d1 := Counted(d, audit); var gate := GateReason(d1.control, notReady); var r := dispatch.request;
            var section := BeginRequest(d, limits, dispatch, notReady, audit, blockAudit);
            if audit.Some? then section == Block(d1, r, audit.value, true, blockAudit)
            else if gate.Some? then section == Block(d1, r, gate.value, true, blockAudit)
            else if d1.shuttingDown then section == Block(d1, r, ShutdownCode, false, blockAudit)
            else section == CheckGeneration(d1, limits, dispatch, blockAudit)
  {
    hide Block, CheckGeneration, GateReason, PersistAudit, CountAttempt;
  }

  lemma BlockedAt(d: Data, d1: Data, request: Request, reason: Code, retryable: bool, audit: Option<Code>)
    requires Alike(d, d1)
    ensures var section := Block(d1, request, reason, retryable, audit);
            BlockedBy(d, section.data, section.reply, request, reason, retryable, audit)
  {
    BlockLaw(d1, request, reason, retryable, audit);
    hide Block;
    var section := Block(d1, request, reason, retryable, audit);
    BlockedAlike(d, d1, section.data, section.reply, request, reason, retryable, audit);
  }

  lemma BeginLaw(
    d: Data, limits: Limits, dispatch: Dispatch, notReady: Option<Code>, audit: Option<Code>, blockAudit: Option<Code>)
    requires StateBacked(BookOf(d), KeyOf(dispatch.request))
    ensures var section := BeginRequest(d, limits, dispatch, notReady, audit, blockAudit);
            Checked(limits, d, section.data, section.reply, dispatch, notReady, audit, blockAudit)
  {
    var r := dispatch.request;
    var d1 := Counted(d, audit);
    var section := BeginRequest(d, limits, dispatch, notReady, audit, blockAudit);
    BeginAttempts(d, limits, dispatch, notReady, audit, blockAudit);
    BeginPaths(d, limits, dispatch, notReady, audit, blockAudit);
    CountedAlike(d, audit, notReady);
    GateLaw(d.control, notReady);
    hide BeginRequest, CheckGeneration, Decided, BlockedBy, Block, OffBecause, GateOpen, GateReason, Older, Newer, Counted, SwitchedOff, OneMore;
    if audit.Some? {
      BlockedAt(d, d1, r, audit.value, true, blockAudit);
      if blockAudit.None? {
        BlockKeepsOff(d1, r, audit.value, true, audit.value);
      }
    } else if GateReason(d.control, notReady).Some? {
      BlockedAt(d, d1, r, GateReason(d.control, notReady).value, true, blockAudit);
    } else if d.shuttingDown {
      BlockedAt(d, d1, r, ShutdownCode, false, blockAudit);
    } else {
      SettledAlike(limits, d, d1, dispatch, blockAudit);
    }
  }

  lemma SettledAlike(limits: Limits, d: Data, d1: Data, dispatch: Dispatch, audit: Option<Code>)
    requires StateBacked(BookOf(d1), KeyOf(dispatch.request))
    requires Alike(d, d1) && d1.scope == d.scope && d1.generations == d.generations
    ensures var section := CheckGeneration(d1, limits, dispatch, audit); var r := dispatch.request;
            && (Older(d, r) ==> BlockedBy(d, section.data, section.reply, r, WorkspaceStaleCode, true, audit))
            && (Newer(d, r) ==>
                  SameBook(d, section.data) && section.data.generations == d.generations && section.data.scope == d.scope
                  && section.reply == ScopePending)
            && (!Older(d, r) && !Newer(d, r) ==> Decided(limits, d, section.data, section.reply, dispatch, audit))
  {
    CheckLaw(d1, limits, dispatch, audit);
    var section := CheckGeneration(d1, limits, dispatch, audit);
    PassedAlike(limits, d, d1, section.data, section.reply, dispatch, audit);
    hide CheckGeneration, Decided, BlockedBy;
  }

  lemma PassedAlike(limits: Limits, d: Data, d1: Data, d': Data, reply: Reply, dispatch: Dispatch, audit: Option<Code>)
    requires Alike(d, d1) && d1.scope == d.scope
    ensures Decided(limits, d1, d', reply, dispatch, audit) ==> Decided(limits, d, d', reply, dispatch, audit)
    ensures BlockedBy(d1, d', reply, dispatch.request, WorkspaceStaleCode, true, audit) ==>
              BlockedBy(d, d', reply, dispatch.request, WorkspaceStaleCode, true, audit)
  {
    if Decided(limits, d1, d', reply, dispatch, audit) {
      DecidedAlike(limits, d, d1, d', reply, dispatch, audit);
    }
    hide Decided;
  }

  // ----- what a request settles ---------------------------------------------------------------------------

  /** A request that gets to its decision has its generation recorded, and its scope is the active one if it may be. */
  ghost predicate Settles(d: Data, d': Data, r: Request, decided: bool) {
    && d'.generations == (if decided then d.generations[r.workspaceId := r.generation] else d.generations)
    && d'.scope == (if decided && !d.shuttingDown && InScope(d, r) then Some(Scope(r.workspaceId, r.generation, r.locale)) else d.scope)
    && d'.shuttingDown == d.shuttingDown
  }

  lemma AdmitSettles(d: Data, limits: Limits, dispatch: Dispatch, audit: Option<Code>)
    ensures var r, d' := dispatch.request, Admit(d, limits, dispatch, audit).data;
            && d'.generations == d.generations && d'.shuttingDown == d.shuttingDown
            && d'.scope == (if !d.shuttingDown && InScope(d, r) then Some(Scope(r.workspaceId, r.generation, r.locale)) else d.scope)
  {
    AdmitEffect(d, limits, dispatch, audit);
    if !d.shuttingDown && InScope(d, dispatch.request) {
      AdmitScopedEffect(d.(scope := Some(ScopeOf(dispatch.request))), limits, dispatch, audit);
    }
    hide AdmitScoped;
  }

  lemma CheckSettles(d: Data, limits: Limits, dispatch: Dispatch, audit: Option<Code>)
    ensures Settles(d, CheckGeneration(d, limits, dispatch, audit).data, dispatch.request, !Older(d, dispatch.request) && !Newer(d, dispatch.request))
  {
    var r := dispatch.request;
    AdmitSettles(d, limits, dispatch, audit);
    AdmitSettles(d.(generations := d.generations[r.workspaceId := r.generation]), limits, dispatch, audit);
    hide Admit;
  }

  lemma BeginSettles(
    d: Data, limits: Limits, dispatch: Dispatch, notReady: Option<Code>, audit: Option<Code>, blockAudit: Option<Code>)
    ensures var r := dispatch.request;
            Settles(d, BeginRequest(d, limits, dispatch, notReady, audit, blockAudit).data, r,
                    audit.None? && GateOpen(d.control, notReady) && !d.shuttingDown && !Older(d, r) && !Newer(d, r))
  {
    BeginPaths(d, limits, dispatch, notReady, audit, blockAudit);
    CountedAlike(d, audit, notReady);
    GateLaw(d.control, notReady);
    CheckSettles(Counted(d, audit), limits, dispatch, blockAudit);
    hide BeginRequest, CheckGeneration, GateReason, GateOpen, Counted;
  }

  // ----- requests in a run --------------------------------------------------------------------------------

  ghost predicate IsRequest(e: Event) {
    e.RequestBegins? || e.RequestResumes?
  }

  /** The request got past the audit, the gate and the generation check; a resumed one did so before. */
  ghost predicate PastChecks(s: System, e: Event)
    requires Enabled(s, e) && IsRequest(e)
  {
    e.RequestBegins? ==>
      && e.audit.None? && GateOpen(s.data.control, e.notReady)
      && !Older(s.data, e.dispatch.request) && !Newer(s.data, e.dispatch.request)
  }

  function DispatchOf(s: System, e: Event): Dispatch
    requires Enabled(s, e) && (e.RequestBegins? || e.RequestResumes?)
  {
    if e.RequestBegins? then e.dispatch else s.inFlight.value.dispatch
  }

  /** What every request section of a run answers and does, case by case. */
  lemma RequestsAreDecided(limits: Limits, states: seq<System>, events: seq<Event>, i: nat)
    requires Reached(limits, states, events, i) && i < |events| && IsRequest(events[i])
    ensures Enabled(states[i], events[i])
    ensures var s, e := states[i], events[i]; var d, d' := s.data, states[i + 1].data; var section := SectionOf(limits, s, e);
            && d' == section.data
            && (e.RequestBegins? ==> Checked(limits, d, d', section.reply, e.dispatch, e.notReady, e.audit, e.blockAudit))
            && (e.RequestResumes? ==> Decided(limits, d, d', section.reply, s.inFlight.value.dispatch, e.blockAudit))
            && (section.reply == ScopePending <==> states[i + 1].inFlight == Some(InFlight(DispatchOf(s, e), false)))
            && (section.reply != ScopePending ==> states[i + 1].inFlight == None)
  {
    var s, e := states[i], events[i];
    ReachedInvariant(limits, states, events, i);
    assert Follows(limits, s, e, states[i + 1]);
    assert StateBacked(BookOf(s.data), KeyOf(DispatchOf(s, e).request));
    if e.RequestBegins? {
      BeginLaw(s.data, limits, e.dispatch, e.notReady, e.audit, e.blockAudit);
    } else {
      AdmitLaw(s.data, limits, s.inFlight.value.dispatch, e.blockAudit);
      AdmitEffect(s.data, limits, s.inFlight.value.dispatch, e.blockAudit);
    }
    hide BeginRequest, Admit, Checked, Decided, SystemInv;
  }

  /** What every request section of a run does to the generations and the active scope. */
  lemma RequestsSettle(limits: Limits, states: seq<System>, events: seq<Event>, i: nat)
    requires Reached(limits, states, events, i) && i < |events| && IsRequest(events[i])
    ensures Enabled(states[i], events[i])
    ensures var s, e := states[i], events[i]; var d, d', r := s.data, states[i + 1].data, DispatchOf(s, e).request;
            && (e.RequestBegins? ==> Settles(d, d', r, PastChecks(s, e) && !d.shuttingDown))
            && (e.RequestResumes? ==> d'.generations == d.generations)
            && (e.RequestResumes? && !d.shuttingDown && InScope(d, r) ==> d'.scope == Some(Scope(r.workspaceId, r.generation, r.locale)))
            && (e.RequestResumes? && (d.shuttingDown || !InScope(d, r)) ==> d'.scope == d.scope)
  {
    var s, e := states[i], events[i];
    assert Follows(limits, s, e, states[i + 1]);
    if e.RequestBegins? {
      BeginSettles(s.data, limits, e.dispatch, e.notReady, e.audit, e.blockAudit);
    } else {
      AdmitSettles(s.data, limits, s.inFlight.value.dispatch, e.blockAudit);
    }
    hide BeginRequest, Admit, GateOpen, Older, Newer;
  }

  lemma BlockedQueue(
    d: Data, d': Data, reply: Reply, request: Request, reason: Code, retryable: bool, audit: Option<Code>)
    ensures BlockedBy(d, d', reply, request, reason, retryable, audit) ==> d'.queue == d.queue
  {
  }

  lemma RepointsQueue(d: Data, d': Data, reply: Reply, dispatch: Dispatch)
    ensures Repoints(d, d', reply, dispatch) ==> |d'.queue| == |d.queue|
  {
    if Repoints(d, d', reply, dispatch) {
      var k := KeyOf(dispatch.request);
      if d.states[k].status == Queued {
        var p :| RepointsTask(d.queue, d'.queue, p, Task(k, dispatch));
      }
    }
  }

  lemma AppendsExactlyWhen(limits: Limits, d: Data, d': Data, reply: Reply, dispatch: Dispatch, audit: Option<Code>)
    requires Decided(limits, d, d', reply, dispatch, audit)
    ensures var start := !d.shuttingDown && InScope(d, dispatch.request) && HasRoom(d, limits) && MayStart(d, dispatch.request);
            && (|d'.queue| > |d.queue| <==> start)
            && (start ==> Appends(d, d', reply, dispatch))
  {
    var r := dispatch.request;
    BlockedQueue(d, d', reply, r, ShutdownCode, false, audit);
    BlockedQueue(d, d', reply, r, WorkspaceStaleCode, true, audit);
    BlockedQueue(d, d', reply, r, QueueFullCode, true, audit);
    RepointsQueue(d, d', reply, dispatch);
    hide BlockedBy, Repoints, InScope, HasRoom;
  }

  /** Without the checks passed nothing is appended; with them the request is decided. */
  lemma ChecksDecide(
    limits: Limits, d: Data, d': Data, reply: Reply, dispatch: Dispatch, notReady: Option<Code>, audit: Option<Code>, blockAudit: Option<Code>)
    requires Checked(limits, d, d', reply, dispatch, notReady, audit, blockAudit)
    ensures var past := audit.None? && GateOpen(d.control, notReady) && !Older(d, dispatch.request) && !Newer(d, dispatch.request);
            if past && !d.shuttingDown then Decided(limits, d, d', reply, dispatch, blockAudit) else d'.queue == d.queue
  {
    var r := dispatch.request;
    GateLaw(d.control, notReady);
    BlockedQueue(d, d', reply, r, ShutdownCode, false, blockAudit);
    BlockedQueue(d, d', reply, r, WorkspaceStaleCode, true, blockAudit);
    if audit.Some? {
      BlockedQueue(d, d', reply, r, audit.value, true, blockAudit);
    } else if GateReason(d.control, notReady).Some? {
      BlockedQueue(d, d', reply, r, GateReason(d.control, notReady).value, true, blockAudit);
      assert OffBecause(d.control, notReady, GateReason(d.control, notReady).value);
    }
    hide Decided, BlockedBy, GateReason, GateOpen;
  }

  /** The same, for either section of a request. */
  lemma RequestAppends(limits: Limits, s: System, e: Event, d': Data, reply: Reply)
    requires Enabled(s, e) && IsRequest(e)
    requires e.RequestBegins? ==> Checked(limits, s.data, d', reply, e.dispatch, e.notReady, e.audit, e.blockAudit)
    requires e.RequestResumes? ==> Decided(limits, s.data, d', reply, s.inFlight.value.dispatch, e.blockAudit)
    ensures var d, r := s.data, DispatchOf(s, e).request;
            var start := PastChecks(s, e) && !d.shuttingDown && InScope(d, r) && HasRoom(d, limits) && MayStart(d, r);
            && (|d'.queue| > |d.queue| <==> start)
            && (start ==> Appends(d, d', reply, DispatchOf(s, e)))
  {
    hide Decided, Checked, Appends, InScope, HasRoom, MayStart, Older, Newer, GateOpen;
    if e.RequestBegins? {
      ChecksDecide(limits, s.data, d', reply, e.dispatch, e.notReady, e.audit, e.blockAudit);
    }
    if PastChecks(s, e) && !s.data.shuttingDown {
      AppendsExactlyWhen(limits, s.data, d', reply, DispatchOf(s, e), e.blockAudit);
    } else if e.RequestResumes? {
      AppendsExactlyWhen(limits, s.data, d', reply, DispatchOf(s, e), e.blockAudit);
    }
  }

  /**
   * Admission: a request section appends its task exactly when the checks passed, shutdown has not begun, the scope agrees,
   * there is room, and the request may start one. Then its key is Queued and a worker runs.
   */
  lemma AdmittedExactlyWhen(limits: Limits, states: seq<System>, events: seq<Event>, i: nat)
    requires Reached(limits, states, events, i) && i < |events| && IsRequest(events[i])
    ensures Enabled(states[i], events[i])
    ensures var s, e := states[i], events[i]; var d, d' := s.data, states[i + 1].data;
            var dispatch := DispatchOf(s, e); var r := dispatch.request;
            var k := Key(r.workspaceId, r.generation, r.evidenceId, r.locale);
            && (|d'.queue| > |d.queue| <==>
                PastChecks(s, e) && !d.shuttingDown && InScope(d, r) && HasRoom(d, limits) && MayStart(d, r))
            && (|d'.queue| > |d.queue| ==>
                  && d'.queue == d.queue + [Task(k, dispatch)]
                  && k in d'.states && d'.states[k] == Lifecycle(r, Queued, false, false, None)
                  && |states[i + 1].workers| == 1)
  {
    var s, e := states[i], events[i];
    ReachedInvariant(limits, states, events, i);
    assert Follows(limits, s, e, states[i + 1]);
    RequestsAreDecided(limits, states, events, i);
    RequestAppends(limits, s, e, states[i + 1].data, SectionOf(limits, s, e).reply);
    StepKeepsInvariant(limits, s, e);
    if states[i + 1].data.queue != [] {
      WorkerFollows(limits, states[i + 1]);
    }
    hide Decided, Checked, SectionOf, SystemInv, Step, BlockedBy;
  }

  lemma WorkerFollows(limits: Limits, s: System)
    requires SystemInv(limits, s) && s.data.queue != []
    ensures |s.workers| == 1
  {
  }
}
