/** Quitting over whole runs: exit is final, retries repeat only unfinished work, and exit means the work was done. */
module AppLifecycleRuns {
  import opened Prelude
  import opened AppLifecycle

  /** The coordinator, the attempt being executed, and every cleanup that was run so far. */
  datatype App = App(lifecycle: Lifecycle, running: Option<Attempt>, log: seq<Ran>)

  datatype Event =
    | Closes(turnActive: bool)
    | Cancels(valid: bool, id: Id)
    | Confirms(valid: bool, id: Id)
    | Retries(valid: bool, id: Id)
    | AttemptEnds(ends: Ends)

  predicate Enabled(a: App, e: Event) {
    e.AttemptEnds? ==> a.running.Some?
  }

  function Step(a: App, e: Event): App
    requires Enabled(a, e)
  {
    match e
    case Closes(turnActive) =>
      var answer := RequestClose(a.lifecycle, turnActive);
      a.(lifecycle := answer.next, running := if answer.reply.BeginShutdown? then Some(answer.reply.attempt) else a.running)
    case Cancels(valid, id) => a.(lifecycle := CancelQuit(a.lifecycle, valid, id).next)
    case Confirms(valid, id) =>
      var answer := ConfirmQuit(a.lifecycle, valid, id);
      a.(lifecycle := answer.next, running := if answer.reply.Ok? then Some(answer.reply.value) else a.running)
    case Retries(valid, id) =>
      var answer := RetryCleanup(a.lifecycle, valid, id);
      a.(lifecycle := answer.next, running := if answer.reply.Ok? then Some(answer.reply.value) else a.running)
    case AttemptEnds(ends) =>
      var attempt := a.running.value;
      App(FinishAttempt(a.lifecycle, attempt, Execute(attempt.previous, ends)).next, None, a.log + Runs(attempt.previous, ends))
  }

  const START := App(Lifecycle(Open, false, 0), None, [])

  ghost predicate Run(states: seq<App>, events: seq<Event>) {
    && |states| == |events| + 1 && states[0] == START
    && forall i :: 0 <= i < |events| ==> Enabled(states[i], events[i]) && states[i + 1] == Step(states[i], events[i])
  }

  // ----- the log ------------------------------------------------------------------------------------------

  /** How the cleanup ended the last time it was run. */
  function LastOutcome(log: seq<Ran>, cleanup: CleanupStep): Option<Outcome> {
    if log == [] then None
    else if log[|log| - 1].cleanup == cleanup then Some(log[|log| - 1].outcome)
    else LastOutcome(log[..|log| - 1], cleanup)
  }

  ghost predicate CompletedIn(log: seq<Ran>, cleanup: CleanupStep) {
    Ran(cleanup, Completed) in log
  }

  /** The shutdown's work is done: gracefully, or by all four forced cleanups. */
  ghost predicate Done(log: seq<Ran>) {
    || CompletedIn(log, Graceful)
    || (CompletedIn(log, Codex) && CompletedIn(log, Narration) && CompletedIn(log, Explanation) && CompletedIn(log, History))
  }

  /** No cleanup runs again after it completed, and the graceful shutdown runs at most once. */
  ghost predicate NothingRepeated(log: seq<Ran>) {
    forall i, j :: 0 <= i < j < |log| && log[i].cleanup == log[j].cleanup ==>
      log[i].outcome != Completed && log[i].cleanup != Graceful
  }

  /** A report says how each cleanup ended last; without one, nothing has been run. */
  ghost predicate Reflects(previous: Option<Report>, log: seq<Ran>) {
    if previous.None? then log == []
    else forall cleanup :: LastOutcome(log, cleanup) == OutcomeOf(previous.value, cleanup)
  }

  lemma LastOfAppend(log: seq<Ran>, ran: Ran, cleanup: CleanupStep)
    ensures LastOutcome(log + [ran], cleanup) == if ran.cleanup == cleanup then Some(ran.outcome) else LastOutcome(log, cleanup)
  {
    assert (log + [ran])[..|log|] == log;
  }

  lemma {:induction false} LastIsCompleted(log: seq<Ran>, cleanup: CleanupStep)
    requires NothingRepeated(log)
    ensures LastOutcome(log, cleanup) == Some(Completed) <==> CompletedIn(log, cleanup)
    ensures LastOutcome(log, cleanup).None? <==> forall ran :: ran in log ==> ran.cleanup != cleanup
  {
    if log != [] {
      var front, last := log[..|log| - 1], log[|log| - 1];
      assert log == front + [last];
      LastIsCompleted(front, cleanup);
      assert forall i :: 0 <= i < |front| ==> log[i] == front[i];
    }
  }

  /** Running a cleanup that has not completed repeats nothing, unless it is a second graceful shutdown. */
  lemma RunKeepsLog(log: seq<Ran>, ran: Ran)
    requires NothingRepeated(log)
    requires LastOutcome(log, ran.cleanup) != Some(Completed)
    requires ran.cleanup == Graceful ==> LastOutcome(log, Graceful).None?
    ensures NothingRepeated(log + [ran])
  {
    LastIsCompleted(log, ran.cleanup);
    var all := log + [ran];
    forall i, j | 0 <= i < j < |all| && all[i].cleanup == all[j].cleanup
      ensures all[i].outcome != Completed && all[i].cleanup != Graceful {
      assert log[i] in log;
    }
  }

  /** One forced cleanup of an attempt, run or left alone. */
  lemma ForcedStep(log: seq<Ran>, before: Option<Outcome>, cleanup: CleanupStep, ends: Ends)
    requires NothingRepeated(log) && cleanup != Graceful && LastOutcome(log, cleanup) == before
    ensures var log' := log + RanStep(before, cleanup, ends);
            && NothingRepeated(log')
            && LastOutcome(log', cleanup) == Again(before, ends(cleanup))
            && forall other :: other != cleanup ==> LastOutcome(log', other) == LastOutcome(log, other)
  {
    if before == Some(Completed) {
      assert log + [] == log;
    } else {
      RunKeepsLog(log, Ran(cleanup, ends(cleanup)));
      forall other ensures LastOutcome(log + [Ran(cleanup, ends(cleanup))], other)
                        == if other == cleanup then Some(ends(cleanup)) else LastOutcome(log, other) {
        LastOfAppend(log, Ran(cleanup, ends(cleanup)), other);
      }
    }
  }

  lemma ForcedSteps(log: seq<Ran>, r: Report, ends: Ends)
    requires NothingRepeated(log) && Reflects(Some(r), log)
    ensures NothingRepeated(log + RanForced(r, ends))
    ensures Reflects(
      Some(Report(r.graceful, Again(r.codex, ends(Codex)), Again(r.narration, ends(Narration)),
                  Again(r.explanation, ends(Explanation)), Again(r.history, ends(History)))),
      log + RanForced(r, ends))
  {
    hide NothingRepeated, LastOutcome, RanStep, Again;
    var log1 := log + RanStep(r.codex, Codex, ends);
    var log2 := log1 + RanStep(r.narration, Narration, ends);
    var log3 := log2 + RanStep(r.explanation, Explanation, ends);
    var log4 := log3 + RanStep(r.history, History, ends);
    ForcedStep(log, r.codex, Codex, ends);
    ForcedStep(log1, r.narration, Narration, ends);
    ForcedStep(log2, r.explanation, Explanation, ends);
    ForcedStep(log3, r.history, History, ends);
    assert log4 == log + RanForced(r, ends);
  }

  /** An attempt keeps the log free of repetitions, and its report reflects the log after it. */
  lemma AttemptKeeps(log: seq<Ran>, previous: Option<Report>, ends: Ends)
    requires NothingRepeated(log) && Reflects(previous, log)
    ensures NothingRepeated(log + Runs(previous, ends))
    ensures Reflects(Some(Execute(previous, ends)), log + Runs(previous, ends))
  {
    if previous.Some? {
      ForcedSteps(log, previous.value, ends);
      assert log + [] == log;
    } else {
      var first := [Ran(Graceful, ends(Graceful))];
      FirstRun(ends(Graceful));
      var r := Report(ends(Graceful), None, None, None, None);
      ForcedSteps(first, r, ends);
      assert log + Runs(previous, ends) == if ends(Graceful) == Completed then first else first + RanForced(r, ends);
    }
  }

  lemma FirstRun(end: Outcome)
    ensures NothingRepeated([Ran(Graceful, end)]) && Reflects(Some(Report(end, None, None, None, None)), [Ran(Graceful, end)])
  {
    forall cleanup ensures LastOutcome([Ran(Graceful, end)], cleanup) == OutcomeOf(Report(end, None, None, None, None), cleanup) {
      LastOfAppend([], Ran(Graceful, end), cleanup);
    }
  }

  /** A report counts as a success exactly when the log shows the work done. */
  lemma SuccessMeansDone(r: Report, log: seq<Ran>)
    requires NothingRepeated(log) && Reflects(Some(r), log)
    ensures Success(r) <==> Done(log)
  {
    LastIsCompleted(log, Graceful);
    LastIsCompleted(log, Codex);
    LastIsCompleted(log, Narration);
    LastIsCompleted(log, Explanation);
    LastIsCompleted(log, History);
    hide LastOutcome, NothingRepeated;
    assert LastOutcome(log, Graceful) == OutcomeOf(r, Graceful);
  }

  // ----- runs ---------------------------------------------------------------------------------------------

  ghost predicate Inv(a: App) {
    var l := a.lifecycle;
    && NothingRepeated(a.log)
    && (l.exitReady <==> l.state.ExitReady?)
    && (a.running.Some? <==> l.state.ShuttingDown?)
    && (l.state.ShuttingDown? ==> a.running == Some(l.state.current) && Reflects(l.state.current.previous, a.log) && !Done(a.log))
    && (l.state.Open? || l.state.Confirming? ==> a.log == [])
    && (l.state.CleanupFailed? ==> Reflects(Some(l.state.report), a.log) && !Done(a.log))
    && (l.state.ExitReady? ==> Done(a.log))
  }

  lemma StepKeeps(a: App, e: Event)
    requires Inv(a) && Enabled(a, e)
    ensures Inv(Step(a, e))
  {
    if e.AttemptEnds? {
      var attempt := a.running.value;
      AttemptKeeps(a.log, attempt.previous, e.ends);
      SuccessMeansDone(Execute(attempt.previous, e.ends), a.log + Runs(attempt.previous, e.ends));
      hide Execute, Runs, NothingRepeated, Reflects, Done, Success;
    } else {
      hide Execute, Runs, NothingRepeated, LastOutcome;
    }
  }

  lemma {:induction false} RunKeeps(states: seq<App>, events: seq<Event>, i: nat)
    requires Run(states, events) && i < |states|
    ensures Inv(states[i])
  {
    hide Step;
    if i == 0 {
      assert Inv(START);
    } else {
      RunKeeps(states, events, i - 1);
      assert Enabled(states[i - 1], events[i - 1]) && states[i - 1 + 1] == Step(states[i - 1], events[i - 1]);
      StepKeeps(states[i - 1], events[i - 1]);
    }
  }

  /** Whatever happens: no cleanup is run again after it completed, and the graceful shutdown runs at most once. */
  lemma RetriesRepeatOnlyUnfinishedWork(states: seq<App>, events: seq<Event>, i: nat)
    requires Run(states, events) && i < |states|
    ensures NothingRepeated(states[i].log)
  {
    RunKeeps(states, events, i);
  }

  /** The application may exit exactly when its state says so, and exactly when the shutdown's work is done. */
  lemma ExitMeansDone(states: seq<App>, events: seq<Event>, i: nat)
    requires Run(states, events) && i < |states|
    ensures states[i].lifecycle.exitReady <==> states[i].lifecycle.state.ExitReady?
    ensures states[i].lifecycle.exitReady <==> Done(states[i].log)
  {
    RunKeeps(states, events, i);
    if states[i].log == [] {
      assert !Done(states[i].log);
    }
  }

  lemma StepKeepsExit(a: App, e: Event)
    requires Inv(a) && Enabled(a, e) && a.lifecycle.exitReady
    ensures Step(a, e) == a
  {
  }

  /** Exit is final: no event changes anything any more. */
  lemma {:induction false} ExitIsFinal(states: seq<App>, events: seq<Event>, i: nat, j: nat)
    requires Run(states, events) && i <= j < |states| && states[i].lifecycle.exitReady
    ensures states[j] == states[i]
  {
    hide Step;
    if i < j {
      ExitIsFinal(states, events, i, j - 1);
      RunKeeps(states, events, j - 1);
      assert Enabled(states[j - 1], events[j - 1]) && states[j - 1 + 1] == Step(states[j - 1], events[j - 1]);
      StepKeepsExit(states[j - 1], events[j - 1]);
    }
  }

  /** A running attempt always belongs to the current state: its result is never refused as stale. */
  lemma FinishIsNeverStale(states: seq<App>, events: seq<Event>, i: nat, report: Report)
    requires Run(states, events) && i < |states| && states[i].running.Some?
    ensures FinishAttempt(states[i].lifecycle, states[i].running.value, report).reply.Ok?
  {
    RunKeeps(states, events, i);
  }
}
