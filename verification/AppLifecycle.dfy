/**
 * Quitting the application: the coordinator that prompts, starts, retries and ends a shutdown, and the plan that runs a
 * graceful shutdown once and then the forced cleanups that are still unfinished.
 */
module AppLifecycle {
  import opened Prelude

  type Id = nat

  const MAX_ATTEMPT: nat := 65535

  datatype Outcome = Completed | Failed | TimedOut

  datatype CleanupStep = Graceful | Codex | Narration | Explanation | History

  /** A forced cleanup that was not required has no outcome. */
  datatype Report = Report(
    graceful: Outcome, codex: Option<Outcome>, narration: Option<Outcome>, explanation: Option<Outcome>, history: Option<Outcome>)

  predicate Success(r: Report) {
    || r.graceful == Completed
    || (r.codex == Some(Completed) && r.narration == Some(Completed)
        && r.explanation == Some(Completed) && r.history == Some(Completed))
  }

  datatype Attempt = Attempt(requestId: Id, attempt: nat, previous: Option<Report>)

  datatype State =
    | Open
    | Confirming(requestId: Id)
    | ShuttingDown(current: Attempt)
    | CleanupFailed(failedId: Id, failedAttempt: nat, report: Report)
    | ExitReady

  datatype Lifecycle = Lifecycle(state: State, exitReady: bool, nextId: Id)

  datatype Decision = Prompt(requestId: Id) | BeginShutdown(attempt: Attempt) | ShowFailure(requestId: Id) | AlreadyShuttingDown

  datatype QuitError = StaleRequest | InvalidRequest

  datatype Answer<T> = Answer(reply: T, next: Lifecycle)

  // ----- the coordinator ----------------------------------------------------------------------------------

  function RequestClose(l: Lifecycle, turnActive: bool): Answer<Decision> {
    match l.state
    case Confirming(id) => Answer(Prompt(id), l)
    case ShuttingDown(_) => Answer(AlreadyShuttingDown, l)
    case CleanupFailed(id, _, _) => Answer(ShowFailure(id), l)
    case ExitReady => Answer(AlreadyShuttingDown, l)
    case Open =>
      if turnActive then Answer(Prompt(l.nextId), l.(state := Confirming(l.nextId), nextId := l.nextId + 1))
      else
        var attempt := Attempt(l.nextId, 1, None);
        Answer(BeginShutdown(attempt), l.(state := ShuttingDown(attempt), nextId := l.nextId + 1))
  }

  function CancelQuit(l: Lifecycle, valid: bool, id: Id): Answer<Result<(), QuitError>> {
    if !valid then Answer(Err(InvalidRequest), l)
    else if l.state == Confirming(id) then Answer(Ok(()), l.(state := Open))
    else Answer(Err(StaleRequest), l)
  }

  function ConfirmQuit(l: Lifecycle, valid: bool, id: Id): Answer<Result<Attempt, QuitError>> {
    if !valid then Answer(Err(InvalidRequest), l)
    else if l.state == Confirming(id) then
      var attempt := Attempt(id, 1, None);
      Answer(Ok(attempt), l.(state := ShuttingDown(attempt)))
    else Answer(Err(StaleRequest), l)
  }

  /** Attempts are counted in sixteen bits and saturate. */
  function RetryCleanup(l: Lifecycle, valid: bool, id: Id): Answer<Result<Attempt, QuitError>> {
    if !valid then Answer(Err(InvalidRequest), l)
    else if l.state.CleanupFailed? && l.state.failedId == id then
      var attempt := Attempt(id, Min(l.state.failedAttempt + 1, MAX_ATTEMPT), Some(l.state.report));
      Answer(Ok(attempt), l.(state := ShuttingDown(attempt)))
    else Answer(Err(StaleRequest), l)
  }

  /** Ok(true) ends the application; Ok(false) leaves a failure to retry. */
  function FinishAttempt(l: Lifecycle, attempt: Attempt, report: Report): Answer<Result<bool, QuitError>> {
    if !l.state.ShuttingDown? || l.state.current.requestId != attempt.requestId || l.state.current.attempt != attempt.attempt then
      Answer(Err(StaleRequest), l)
    else if Success(report) then Answer(Ok(true), l.(state := ExitReady, exitReady := true))
    else Answer(Ok(false), l.(state := CleanupFailed(attempt.requestId, attempt.attempt, report)))
  }

  class Coordinator {
    var state: State
    var exitReady: bool
    var nextId: Id

    function View(): Lifecycle
      reads this
    {
      Lifecycle(state, exitReady, nextId)
    }

    constructor ()
      ensures View() == Lifecycle(Open, false, 0)
    {
      state, exitReady, nextId := Open, false, 0;
    }

    method Close(turnActive: bool) returns (decision: Decision)
      modifies this
      ensures Answer(decision, View()) == RequestClose(old(View()), turnActive)
    {
      match state
      case Confirming(id) => return Prompt(id);
      case ShuttingDown(_) => return AlreadyShuttingDown;
      case CleanupFailed(id, _, _) => return ShowFailure(id);
      case ExitReady => return AlreadyShuttingDown;
      case Open =>
        var id := nextId;
        nextId := nextId + 1;
        if !turnActive {
          state := ShuttingDown(Attempt(id, 1, None));
          return BeginShutdown(Attempt(id, 1, None));
        }
        state := Confirming(id);
        decision := Prompt(id);
    }

    method Cancel(valid: bool, id: Id) returns (reply: Result<(), QuitError>)
      modifies this`state
      ensures Answer(reply, View()) == CancelQuit(old(View()), valid, id)
    {
      if !valid {
        return Err(InvalidRequest);
      }
      if state.Confirming? && state.requestId == id {
        state := Open;
        return Ok(());
      }
      reply := Err(StaleRequest);
    }

    method Confirm(valid: bool, id: Id) returns (reply: Result<Attempt, QuitError>)
      modifies this`state
      ensures Answer(reply, View()) == ConfirmQuit(old(View()), valid, id)
    {
      if !valid {
        return Err(InvalidRequest);
      }
      if state.Confirming? && state.requestId == id {
        var attempt := Attempt(id, 1, None);
        state := ShuttingDown(attempt);
        return Ok(attempt);
      }
      reply := Err(StaleRequest);
    }

    method Retry(valid: bool, id: Id) returns (reply: Result<Attempt, QuitError>)
      modifies this`state
      ensures Answer(reply, View()) == RetryCleanup(old(View()), valid, id)
    {
      if !valid {
        return Err(InvalidRequest);
      }
      if state.CleanupFailed? && state.failedId == id {
        var number := if state.failedAttempt >= MAX_ATTEMPT then MAX_ATTEMPT else state.failedAttempt + 1;
        var attempt := Attempt(id, number, Some(state.report));
        state := ShuttingDown(attempt);
        return Ok(attempt);
      }
      reply := Err(StaleRequest);
    }

    method Finish(attempt: Attempt, report: Report) returns (reply: Result<bool, QuitError>)
      modifies this`state, this`exitReady
      ensures Answer(reply, View()) == FinishAttempt(old(View()), attempt, report)
    {
      if !state.ShuttingDown? {
        return Err(StaleRequest);
      }
      if state.current.requestId != attempt.requestId || state.current.attempt != attempt.attempt {
        return Err(StaleRequest);
      }
      if Success(report) {
        state, exitReady := ExitReady, true;
        return Ok(true);
      }
      state := CleanupFailed(attempt.requestId, attempt.attempt, report);
      reply := Ok(false);
    }
  }

  // ----- the plan -----------------------------------------------------------------------------------------

  /** One cleanup that was run, and how it ended. */
  datatype Ran = Ran(cleanup: CleanupStep, outcome: Outcome)

  /** How each cleanup would end if it were run in this attempt. */
  type Ends = CleanupStep -> Outcome

  function OutcomeOf(r: Report, cleanup: CleanupStep): Option<Outcome> {
    match cleanup
    case Graceful => Some(r.graceful)
    case Codex => r.codex
    case Narration => r.narration
    case Explanation => r.explanation
    case History => r.history
  }

  /** A forced cleanup is run unless it completed before. */
  function Again(before: Option<Outcome>, end: Outcome): Option<Outcome> {
    if before == Some(Completed) then before else Some(end)
  }

  /** The report of an attempt: what was unfinished is run, in a fixed order. */
  function Execute(previous: Option<Report>, ends: Ends): Report {
    var r := if previous.Some? then previous.value else Report(ends(Graceful), None, None, None, None);
    if r.graceful == Completed then r
    else
      Report(r.graceful, Again(r.codex, ends(Codex)), Again(r.narration, ends(Narration)),
             Again(r.explanation, ends(Explanation)), Again(r.history, ends(History)))
  }

  function RanStep(before: Option<Outcome>, cleanup: CleanupStep, ends: Ends): seq<Ran> {
    if before == Some(Completed) then [] else [Ran(cleanup, ends(cleanup))]
  }

  function RanForced(r: Report, ends: Ends): seq<Ran> {
    RanStep(r.codex, Codex, ends) + RanStep(r.narration, Narration, ends)
    + RanStep(r.explanation, Explanation, ends) + RanStep(r.history, History, ends)
  }

  /** The cleanups an attempt runs, in order. */
  function Runs(previous: Option<Report>, ends: Ends): seq<Ran> {
    if previous.Some? then if previous.value.graceful == Completed then [] else RanForced(previous.value, ends)
    else
      [Ran(Graceful, ends(Graceful))]
      + (if ends(Graceful) == Completed then [] else RanForced(Report(ends(Graceful), None, None, None, None), ends))
  }

  method ExecuteShutdownPlan(previous: Option<Report>, ends: Ends) returns (report: Report, ran: seq<Ran>)
    ensures report == Execute(previous, ends) && ran == Runs(previous, ends)
  {
    ran := [];
    if previous.Some? {
      report := previous.value;
    } else {
      report := Report(ends(Graceful), None, None, None, None);
      ran := ran + [Ran(Graceful, ends(Graceful))];
    }
    if report.graceful == Completed {
      return;
    }
    if report.codex != Some(Completed) {
      report := report.(codex := Some(ends(Codex)));
      ran := ran + [Ran(Codex, ends(Codex))];
    }
    if report.narration != Some(Completed) {
      report := report.(narration := Some(ends(Narration)));
      ran := ran + [Ran(Narration, ends(Narration))];
    }
    if report.explanation != Some(Completed) {
      report := report.(explanation := Some(ends(Explanation)));
      ran := ran + [Ran(Explanation, ends(Explanation))];
    }
    if report.history != Some(Completed) {
      report := report.(history := Some(ends(History)));
      ran := ran + [Ran(History, ends(History))];
    }
  }
}
