/**
 * Data of the commit explanation controller and the effect of each of its critical sections.
 *
 * Every section that runs under the `data` lock is a function from the locked data to the new data and the
 * reply. Audit persistence, the readiness verdict and the executor's outcome are inputs: `audit` is `None` when
 * the audit file was saved and `Some(code)` when saving failed with that code.
 */
module ExplanationModel {
  import opened Prelude

  const MAX_SAFE_COUNTER: nat := 9_007_199_254_740_991
  const U64_MAX: nat := 0xFFFF_FFFF_FFFF_FFFF

  /** The `CODEX-SUPPORT-*` codes the controller sets itself; codes of stores and readiness are texts. */
  datatype Code =
    | DisabledCode | CommitExplainerDisabledCode | WorkspaceStaleCode | QueueFullCode | ShutdownCode
    | StateMissingCode | RetryStateCode | CanceledCode | ResultStaleCode
    | ReleaseUnsupportedCode | SchemaUnverifiedCode | RuntimeUnsafeCode | AuthBridgeUnavailableCode
    | SkillInvalidCode | IsolationUnverifiedCode | PolicyViolationCode | ProcessFailedCode | ProtocolMismatchCode
    | BusyCode | RuntimeUsedCode | TimeoutCode | OutputInvalidCode | EvidenceRedactionCode
    | ReportedCode(text: Id)

  /** Identifiers and texts the controller only stores and compares for equality. */
  type Id = nat

  datatype Locale = Ja | En

  datatype Trigger = AutoVerifiedCommit | UserRequest | UserRetry

  datatype Request = Request(
    requestId: Id, workspaceId: Id, generation: nat, evidenceId: Id,
    locale: Locale, selectionVersion: nat, trigger: Trigger)

  datatype Dispatch = Dispatch(request: Request, evidence: Id)

  datatype Key = Key(workspaceId: Id, generation: nat, evidenceId: Id, locale: Locale)

  function KeyOf(request: Request): Key {
    Key(request.workspaceId, request.generation, request.evidenceId, request.locale)
  }

  datatype Status = NotGenerated | Queued | Running | Generated | Failed | Unavailable | Canceled

  /** A lifecycle state. It repeats the identity of the request it belongs to. */
  datatype Lifecycle = Lifecycle(
    request: Request, status: Status, retryable: bool, presentationAvailable: bool, errorCode: Option<Code>)

  datatype Task = Task(key: Key, dispatch: Dispatch)

  datatype ActiveTask = ActiveTask(task: Task, executorRequestId: Id, canceled: bool)

  datatype ExplainResult = ExplainResult(
    requestId: Id, locale: Locale, explanation: Id,
    inputTokens: nat, outputTokens: nat, latencyMs: nat)

  datatype Cached = Cached(request: Request, result: ExplainResult)

  datatype Scope = Scope(workspaceId: Id, generation: nat, locale: Locale)

  datatype Usage = Usage(
    attempted: nat, started: nat, succeeded: nat, failed: nat, canceled: nat, unavailable: nat,
    inputTokens: nat, outputTokens: nat, totalTokens: nat, totalLatencyMs: nat)

  /** Settings and audit counters: what `persist_audit` reads and what a failed save switches off. */
  datatype Control = Control(
    globalEnabled: bool, explainerEnabled: bool, recoveryCode: Option<Code>, usage: Usage, fallbackTasks: nat)

  datatype Data = Data(
    scope: Option<Scope>, generations: map<Id, nat>,
    states: map<Key, Lifecycle>, queue: seq<Task>, active: Option<ActiveTask>,
    workerRunning: bool, shuttingDown: bool,
    cache: map<Key, Cached>, cacheOrder: seq<Key>,
    control: Control)

  datatype Limits = Limits(queueLimit: nat, cacheLimit: nat)

  datatype RuntimeError =
    | RuntimeCanceled
    | UnsupportedRelease | Schema | PrivateRuntime | AuthBridge | Skill | IsolationProbe | Policy
    | Process | Protocol | Busy | AlreadyUsed | Timeout | Output | EvidenceRedaction

  /**
   * What a caller is told. A blocked request is also answered with a state, the Unavailable one it caused.
   * `ScopePending` is the point where `request` gives the lock up to change scope.
   */
  datatype Reply = Answered(state: Lifecycle) | Blocked(state: Lifecycle) | Refused(code: Code) | ScopePending | NothingFound

  datatype Section = Section(data: Data, reply: Reply)

  // ----- counters -----------------------------------------------------------------------------------------

  function SaturatingAdd(a: nat, b: nat): nat {
    if a + b > U64_MAX then U64_MAX else a + b
  }

  function BoundedAdd(counter: nat, amount: nat): nat {
    var sum := SaturatingAdd(counter, amount);
    if sum > MAX_SAFE_COUNTER then MAX_SAFE_COUNTER else sum
  }

  function SaturatingSub(a: nat, b: nat): nat {
    if a < b then 0 else a - b
  }

  function AddUsage(u: Usage, result: ExplainResult): Usage {
    var room := SaturatingSub(MAX_SAFE_COUNTER, u.totalTokens);
    var input := BoundedAdd(u.inputTokens, Min(result.inputTokens, room));
    var left := SaturatingSub(MAX_SAFE_COUNTER, SaturatingAdd(input, u.outputTokens));
    var output := BoundedAdd(u.outputTokens, Min(result.outputTokens, left));
    u.(inputTokens := input, outputTokens := output, totalTokens := SaturatingAdd(input, output),
    totalLatencyMs := BoundedAdd(u.totalLatencyMs, result.latencyMs))
  }

  // ----- lifecycle states ---------------------------------------------------------------------------------

  function Fresh(request: Request, status: Status): Lifecycle {
    Lifecycle(request, status, false, false, None)
  }

  function Terminal(request: Request, status: Status, retryable: bool, code: Code): Lifecycle {
    Fresh(request, status).(retryable := retryable, errorCode := Some(code))
  }

  function CanceledWith(previous: Lifecycle, code: Code): Lifecycle {
    previous.(status := Canceled, retryable := true, presentationAvailable := false, errorCode := Some(code))
  }

  function CanRebind(existing: Lifecycle, incoming: Request): bool {
    && existing.request.selectionVersion <= incoming.selectionVersion
    && !(existing.request.trigger != AutoVerifiedCommit && incoming.trigger == AutoVerifiedCommit)
  }

  function ErrorStatus(error: RuntimeError): Status {
    match error
    case RuntimeCanceled => Canceled
    case UnsupportedRelease | Schema | PrivateRuntime | AuthBridge | Skill | IsolationProbe | Policy => Unavailable
    case Process | Protocol | Busy | AlreadyUsed | Timeout | Output | EvidenceRedaction => Failed
  }

  function ErrorCode(error: RuntimeError): Code {
    match error
    case UnsupportedRelease => ReleaseUnsupportedCode
    case Schema => SchemaUnverifiedCode
    case PrivateRuntime => RuntimeUnsafeCode
    case AuthBridge => AuthBridgeUnavailableCode
    case Skill => SkillInvalidCode
    case IsolationProbe => IsolationUnverifiedCode
    case Process => ProcessFailedCode
    case Protocol => ProtocolMismatchCode
    case Policy => PolicyViolationCode
    case Busy => BusyCode
    case AlreadyUsed => RuntimeUsedCode
    case RuntimeCanceled => CanceledCode
    case Timeout => TimeoutCode
    case Output => OutputInvalidCode
    case EvidenceRedaction => EvidenceRedactionCode
  }

  // ----- audit and blocked outcomes -----------------------------------------------------------------------

  /** A failed save switches the feature off until recovery. */
  function PersistAudit(c: Control, audit: Option<Code>): Control {
    match audit
    case None => c
    case Some(code) => c.(globalEnabled := false, explainerEnabled := false, recoveryCode := Some(code))
  }

  function CountAttempt(c: Control): Control {
    c.(usage := c.usage.(attempted := BoundedAdd(c.usage.attempted, 1)))
  }

  function CountStart(c: Control): Control {
    c.(usage := c.usage.(started := BoundedAdd(c.usage.started, 1)))
  }

  function CountBlocked(c: Control): Control {
    c.(usage := c.usage.(unavailable := BoundedAdd(c.usage.unavailable, 1)),
    fallbackTasks := BoundedAdd(c.fallbackTasks, 1))
  }

  function CountCanceled(c: Control, amount: nat): Control {
    c.(usage := c.usage.(canceled := BoundedAdd(c.usage.canceled, amount)))
  }

  function CountFailed(c: Control): Control {
    c.(usage := c.usage.(failed := BoundedAdd(c.usage.failed, 1)))
  }

  function CountError(c: Control, error: RuntimeError): Control {
    match ErrorStatus(error)
    case Canceled => CountCanceled(c, 1)
    case Unavailable => CountBlocked(c)
    case _ => CountFailed(c)
  }

  /** A result that is shown counts as a success, one that does not belong to the task as a failure. */
  function CountResult(c: Control, matching: bool, result: ExplainResult): Control {
    var c1 := if matching then c.(usage := c.usage.(succeeded := BoundedAdd(c.usage.succeeded, 1))) else CountFailed(c);
    c1.(usage := AddUsage(c1.usage, result))
  }

  function BlockedState(request: Request, reason: Code, retryable: bool, audit: Option<Code>): Lifecycle {
    Terminal(request, Unavailable, retryable, if audit.Some? then audit.value else reason)
  }

  function Block(d: Data, request: Request, reason: Code, retryable: bool, audit: Option<Code>): Section {
    var state := BlockedState(request, reason, retryable, audit);
    Section(d.(states := d.states[KeyOf(request) := state], control := PersistAudit(CountBlocked(d.control), audit)),
            Blocked(state))
  }

  function GateReason(c: Control, notReady: Option<Code>): Option<Code> {
    if c.recoveryCode.Some? then c.recoveryCode
    else if !c.globalEnabled then Some(DisabledCode)
    else if !c.explainerEnabled then Some(CommitExplainerDisabledCode)
    else notReady
  }

  // ----- request ------------------------------------------------------------------------------------------

  /** The first locked section of `request`: counters, gate, generation check. */
  function BeginRequest(
    d: Data, limits: Limits, dispatch: Dispatch, notReady: Option<Code>,
    audit: Option<Code>, blockAudit: Option<Code>): Section
  {
    var request := dispatch.request;
    var d1 := d.(control := PersistAudit(CountAttempt(d.control), audit));
    var gate := GateReason(d1.control, notReady);
    if audit.Some? then Block(d1, request, audit.value, true, blockAudit)
    else if gate.Some? then Block(d1, request, gate.value, true, blockAudit)
    else if d1.shuttingDown then Block(d1, request, ShutdownCode, false, blockAudit)
    else CheckGeneration(d1, limits, dispatch, blockAudit)
  }

  function CheckGeneration(d: Data, limits: Limits, dispatch: Dispatch, blockAudit: Option<Code>): Section {
    var request := dispatch.request;
    if request.workspaceId !in d.generations then
      Admit(d.(generations := d.generations[request.workspaceId := request.generation]), limits, dispatch, blockAudit)
    else if d.generations[request.workspaceId] > request.generation then
      Block(d, request, WorkspaceStaleCode, true, blockAudit)
    else if d.generations[request.workspaceId] < request.generation then Section(d, ScopePending)
    else Admit(d, limits, dispatch, blockAudit)
  }

  /** The section that runs once the generation is settled, possibly after the lock was given up and retaken. */
  function Admit(d: Data, limits: Limits, dispatch: Dispatch, blockAudit: Option<Code>): Section {
    var request := dispatch.request;
    if d.shuttingDown then Block(d, request, ShutdownCode, false, blockAudit)
    else if d.scope.Some? && !ScopeMatches(d.scope.value, request) then
      Block(d, request, WorkspaceStaleCode, true, blockAudit)
    else AdmitScoped(d.(scope := Some(ScopeOf(request))), limits, dispatch, blockAudit)
  }

  function AdmitScoped(d: Data, limits: Limits, dispatch: Dispatch, blockAudit: Option<Code>): Section {
    var request := dispatch.request;
    var key := KeyOf(request);
    if key in d.states then
      var existing := d.states[key];
      if !CanRebind(existing, request) then Section(d, Answered(existing))
      else if !Over(existing.status) then Rebind(d, dispatch, existing)
      else if request.trigger != UserRetry then
        var rebound := existing.(request := request);
        Section(d.(states := d.states[key := rebound]), Answered(rebound))
      else Enqueue(d, limits, dispatch, blockAudit)
    else if request.trigger == UserRetry then Section(d, Refused(RetryStateCode))
    else Enqueue(d, limits, dispatch, blockAudit)
  }

  function ScopeOf(request: Request): Scope {
    Scope(request.workspaceId, request.generation, request.locale)
  }

  predicate ScopeMatches(scope: Scope, request: Request) {
    scope == ScopeOf(request)
  }

  predicate Over(status: Status) {
    status == Failed || status == Unavailable || status == Canceled
  }

  /** Point the live task or cache entry of the key, and its state, at the new request. */
  function Rebind(d: Data, dispatch: Dispatch, existing: Lifecycle): Section {
    var key := KeyOf(dispatch.request);
    var rebound := existing.(request := dispatch.request);
    var position := FirstWithKey(d.queue, key);
    if existing.status == Queued && position < |d.queue| then
      Section(d.(states := d.states[key := rebound], queue := d.queue[position := Task(key, dispatch)]), Answered(rebound))
    else if existing.status == Running && d.active.Some? && d.active.value.task.key == key then
      Section(d.(states := d.states[key := rebound], active := Some(d.active.value.(task := Task(key, dispatch)))),
              Answered(rebound))
    else if existing.status == Generated && key in d.cache then
      Section(d.(states := d.states[key := rebound], cache := d.cache[key := d.cache[key].(request := dispatch.request)]),
              Answered(rebound))
    else Section(d, Refused(StateMissingCode))
  }

  /** The least index at or after `from` whose task has the key, or the queue length. */
  function FirstWithKey(queue: seq<Task>, key: Key, from: nat := 0): nat
    decreases |queue| - from
  {
    if from >= |queue| then |queue|
    else if queue[from].key == key then from
    else FirstWithKey(queue, key, from + 1)
  }

  lemma {:induction false} FirstWithKeyFinds(queue: seq<Task>, key: Key, from: nat)
    requires from <= |queue|
    ensures from <= FirstWithKey(queue, key, from) <= |queue|
    ensures FirstWithKey(queue, key, from) < |queue| ==> queue[FirstWithKey(queue, key, from)].key == key
    ensures forall j :: from <= j < FirstWithKey(queue, key, from) ==> queue[j].key != key
    decreases |queue| - from
  {
    if from < |queue| && queue[from].key != key {
      FirstWithKeyFinds(queue, key, from + 1);
    }
  }

  function Enqueue(d: Data, limits: Limits, dispatch: Dispatch, blockAudit: Option<Code>): Section {
    var outstanding := |d.queue| + (if d.active.Some? then 1 else 0);
    if outstanding >= limits.queueLimit + 1 then
      Block(d, dispatch.request, QueueFullCode, true, blockAudit)
    else Section(Enqueued(d, dispatch), Answered(Fresh(dispatch.request, Queued)))
  }

  function Enqueued(d: Data, dispatch: Dispatch): Data {
    var key := KeyOf(dispatch.request);
    d.(states := d.states[key := Fresh(dispatch.request, Queued)],
    queue := d.queue + [Task(key, dispatch)], workerRunning := true)
  }

  // ----- scope, cancel, shutdown --------------------------------------------------------------------------

  function SetScope(d: Data, scope: Scope): Section {
    if scope.workspaceId in d.generations && d.generations[scope.workspaceId] > scope.generation then
      Section(d, Refused(WorkspaceStaleCode))
    else
      Section(d.(generations := d.generations[scope.workspaceId := scope.generation], scope := Some(scope)), NothingFound)
  }

  datatype CancelRequest = CancelRequest(requestId: Id, generation: nat, selectionVersion: nat)

  predicate Names(cancel: CancelRequest, request: Request) {
    && request.requestId == cancel.requestId
    && request.generation == cancel.generation
    && request.selectionVersion == cancel.selectionVersion
  }

  /** The least index at or after `from` of a queued task the cancel names, or the queue length. */
  function FirstNamed(queue: seq<Task>, cancel: CancelRequest, from: nat := 0): nat
    decreases |queue| - from
  {
    if from >= |queue| then |queue|
    else if Names(cancel, queue[from].dispatch.request) then from
    else FirstNamed(queue, cancel, from + 1)
  }

  predicate NamesActive(d: Data, cancel: CancelRequest) {
    d.active.Some? && Names(cancel, d.active.value.task.dispatch.request)
  }

  /** NothingFound stands for a cancel that names no task; the controller then shows a state of that request id. */
  function CancelTask(d: Data, cancel: CancelRequest, audit: Option<Code>): Section {
    var position := FirstNamed(d.queue, cancel);
    if NamesActive(d, cancel) then CancelActive(d, audit)
    else if position < |d.queue| then CancelQueued(d, position, audit)
    else Section(d, NothingFound)
  }

  function CancelActive(d: Data, audit: Option<Code>): Section
    requires d.active.Some?
  {
    MarkCanceled(d, d.active.value.task.key, d.queue, Some(d.active.value.(canceled := true)), audit)
  }

  function CancelQueued(d: Data, position: nat, audit: Option<Code>): Section
    requires position < |d.queue|
  {
    MarkCanceled(d, d.queue[position].key, RemoveAt(d.queue, position), d.active, audit)
  }

  function RemoveAt(queue: seq<Task>, position: nat): seq<Task>
    requires position < |queue|
  {
    queue[..position] + queue[position + 1..]
  }

  /** The queue and the active slot are already changed when the missing state is noticed. */
  function MarkCanceled(
    d: Data, key: Key, queue: seq<Task>, active: Option<ActiveTask>, audit: Option<Code>): Section
  {
    if key !in d.states then Section(d.(queue := queue, active := active), Refused(StateMissingCode))
    else
      var state := CanceledWith(d.states[key], CanceledCode);
      Section(d.(queue := queue, active := active, states := d.states[key := state],
              control := PersistAudit(CountCanceled(d.control, 1), audit)),
              if audit.Some? then Refused(audit.value) else Answered(state))
  }

  predicate Outstanding(queue: seq<Task>, active: Option<ActiveTask>, key: Key) {
    || (exists task :: task in queue && task.key == key)
    || (active.Some? && active.value.task.key == key)
  }

  /** How many drained entries still had a state, the active task included: the amount `canceled` grows by. */
  function DrainedWithState(queue: seq<Task>, states: map<Key, Lifecycle>): nat {
    if queue == [] then 0
    else (if queue[0].key in states then 1 else 0) + DrainedWithState(queue[1..], states)
  }

  function CanceledForShutdown(
    states: map<Key, Lifecycle>, queue: seq<Task>, active: Option<ActiveTask>): map<Key, Lifecycle>
  {
    map k | k in states :: if Outstanding(queue, active, k) then CanceledWith(states[k], ShutdownCode) else states[k]
  }

  function BeginShutdown(d: Data, audit: Option<Code>): Data {
    var active := if d.active.Some? then Some(d.active.value.(canceled := true)) else None;
    var changed := DrainedWithState(d.queue, d.states)
    + (if d.active.Some? && d.active.value.task.key in d.states then 1 else 0);
    var control := if changed > 0 then CountCanceled(d.control, changed) else d.control;
    d.(shuttingDown := true, queue := [], active := active, states := CanceledForShutdown(d.states, d.queue, d.active),
    control := PersistAudit(control, audit))
  }

  // ----- worker -------------------------------------------------------------------------------------------

  /** The worker's first section: take the head of the queue and make it the active task. */
  function PopTask(d: Data, audit: Option<Code>): Data {
    if d.queue == [] then d.(workerRunning := false)
    else
      var task := d.queue[0];
      var request := task.dispatch.request;
      match audit
      case None =>
        d.(queue := d.queue[1..], states := d.states[task.key := Fresh(request, Running)],
        active := Some(ActiveTask(task, request.requestId, false)), control := CountStart(d.control))
      case Some(code) =>
        d.(queue := d.queue[1..], states := d.states[task.key := Terminal(request, Unavailable, true, code)],
        active := None, control := CountBlocked(PersistAudit(CountStart(d.control), audit)))
  }

  type ExecutorOutcome = Result<ExplainResult, RuntimeError>

  /** The task the finishing worker still owns: the active task, when it was started under the same request id. */
  function Owned(d: Data, task: Task): Option<Request> {
    if d.active.Some? && d.active.value.executorRequestId == task.dispatch.request.requestId
    then Some(d.active.value.task.dispatch.request) else None
  }

  predicate Discarded(d: Data, task: Task) {
    Owned(d, task).None? || (task.key in d.states && d.states[task.key].status == Canceled)
  }

  predicate Matching(task: Task, result: ExplainResult) {
    result.requestId == task.dispatch.request.requestId && result.locale == task.dispatch.request.locale
  }

  /** The worker's last section: record the outcome of the task under the request it was last rebound to. */
  function FinishTask(d: Data, limits: Limits, task: Task, outcome: ExecutorOutcome, audit: Option<Code>): Data {
    var d1 := if Owned(d, task).Some? then d.(active := None) else d;
    if Discarded(d, task) then d1
    else
      var request := Owned(d, task).value;
      var d2 := RecordOutcome(d1, limits, task, request, outcome);
      if audit.None? then d2 else Unsaved(d2, task.key, request, audit.value)
  }

  /** The outcome could not be saved: the cache entry is taken back and the task is reported Unavailable. */
  function Unsaved(d: Data, key: Key, request: Request, code: Code): Data {
    d.(cache := d.cache - {key}, cacheOrder := Without(d.cacheOrder, key),
    states := d.states[key := Terminal(request, Unavailable, true, code)],
    control := CountBlocked(PersistAudit(d.control, Some(code))))
  }

  function RecordOutcome(d: Data, limits: Limits, task: Task, request: Request, outcome: ExecutorOutcome): Data {
    match outcome
    case Ok(result) =>
      if Matching(task, result) then RecordSuccess(d, limits, task.key, request, result)
      else RecordFailure(d, task.key, Terminal(request, Failed, true, ResultStaleCode), CountResult(d.control, false, result))
    case Err(error) =>
      RecordFailure(d, task.key, Terminal(request, ErrorStatus(error), true, ErrorCode(error)), CountError(d.control, error))
  }

  function RecordSuccess(d: Data, limits: Limits, key: Key, request: Request, result: ExplainResult): Data {
    var d1 := InsertCache(d, key, Cached(request, result), limits.cacheLimit);
    d1.(states := d1.states[key := Fresh(request, Generated).(presentationAvailable := true)],
    control := CountResult(d.control, true, result))
  }

  function RecordFailure(d: Data, key: Key, state: Lifecycle, control: Control): Data {
    d.(states := d.states[key := state], control := control)
  }

  /** Insert as the most recent entry, then drop the oldest entries beyond the limit. */
  function InsertCache(d: Data, key: Key, cached: Cached, limit: nat): Data {
    var d1 := Remember(d, key, cached);
    Evict(d1, Surplus(d1.cacheOrder, limit))
  }

  function Surplus(order: seq<Key>, limit: nat): nat {
    if |order| > limit then |order| - limit else 0
  }

  function Remember(d: Data, key: Key, cached: Cached): Data {
    d.(cacheOrder := Without(d.cacheOrder, key) + [key], cache := d.cache[key := cached])
  }

  /** The `count` oldest entries go, together with their Generated states. */
  function Evict(d: Data, count: nat): Data
    requires count <= |d.cacheOrder|
  {
    var oldest := set k | k in d.cacheOrder[..count];
    d.(cacheOrder := d.cacheOrder[count..], cache := d.cache - oldest,
    states := map k | k in d.states && !(k in oldest && d.states[k].status == Generated) :: d.states[k])
  }

  predicate Presents(d: Data, workspaceId: Id, generation: nat, evidenceId: Id, requestId: Id, key: Key) {
    && key in d.cache
    && key.workspaceId == workspaceId && key.generation == generation && key.evidenceId == evidenceId
    && d.cache[key].request.requestId == requestId
  }
}
