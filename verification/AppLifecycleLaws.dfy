/**
 * What quitting does, told by the log of cleanups that were run: which of them an attempt runs, what each event of the
 * coordinator does and answers, and that a retry whose unfinished cleanups complete lets the application exit.
 */
module AppLifecycleLaws {
  import opened Prelude
  import opened AppLifecycle
  import opened AppLifecycleRuns

  // ----- one attempt --------------------------------------------------------------------------------------

  /** The order in which cleanups run. */
  ghost function Place(cleanup: CleanupStep): nat {
    match cleanup
    case Graceful => 0
    case Codex => 1
    case Narration => 2
    case Explanation => 3
    case History => 4
  }

  ghost predicate RunIn(ran: seq<Ran>, cleanup: CleanupStep) {
    exists i :: 0 <= i < |ran| && ran[i].cleanup == cleanup
  }

  /** Each once, in the fixed order, ending as it would. */
  ghost predicate InOrder(ran: seq<Ran>, ends: Ends) {
    && (forall i :: 0 <= i < |ran| ==> ran[i].outcome == ends(ran[i].cleanup))
    && forall i, j :: 0 <= i < j < |ran| ==> Place(ran[i].cleanup) < Place(ran[j].cleanup)
  }

  /**
   * After `log`, exactly this is run: the graceful shutdown when nothing was run before; unless that completed, every forced
   * cleanup that has not completed.
   */
  ghost predicate RunsWhatIsDue(log: seq<Ran>, ran: seq<Ran>, ends: Ends) {
    && InOrder(ran, ends)
    && (RunIn(ran, Graceful) <==> log == [])
    && forall cleanup :: cleanup != Graceful ==>
         (RunIn(ran, cleanup) <==> !CompletedIn(log + ran, Graceful) && !CompletedIn(log, cleanup))
  }

  lemma RunInSingle(before: Option<Outcome>, cleanup: CleanupStep, ends: Ends, other: CleanupStep)
    ensures RunIn(RanStep(before, cleanup, ends), other) <==> other == cleanup && before != Some(Completed)
  {
    if before != Some(Completed) {
      assert RanStep(before, cleanup, ends)[0].cleanup == cleanup;
    }
  }

  lemma RunInConcat(a: seq<Ran>, b: seq<Ran>, cleanup: CleanupStep)
    ensures RunIn(a + b, cleanup) <==> RunIn(a, cleanup) || RunIn(b, cleanup)
  {
    if RunIn(a, cleanup) {
      var i :| 0 <= i < |a| && a[i].cleanup == cleanup;
      assert (a + b)[i] == a[i];
    }
    if RunIn(b, cleanup) {
      var i :| 0 <= i < |b| && b[i].cleanup == cleanup;
      assert (a + b)[|a| + i] == b[i];
    }
  }

  lemma ForcedInOrder(r: Report, ends: Ends)
    ensures InOrder(RanForced(r, ends), ends)
    ensures forall i :: 0 <= i < |RanForced(r, ends)| ==> RanForced(r, ends)[i].cleanup != Graceful
  {
  }

  lemma ForcedRuns(r: Report, ends: Ends, cleanup: CleanupStep)
    ensures RunIn(RanForced(r, ends), cleanup) <==> cleanup != Graceful && OutcomeOf(r, cleanup) != Some(Completed)
  {
    var a, b := RanStep(r.codex, Codex, ends), RanStep(r.narration, Narration, ends);
    var c, d := RanStep(r.explanation, Explanation, ends), RanStep(r.history, History, ends);
    RunInConcat(a + b + c, d, cleanup);
    RunInConcat(a + b, c, cleanup);
    RunInConcat(a, b, cleanup);
    RunInSingle(r.codex, Codex, ends, cleanup);
    RunInSingle(r.narration, Narration, ends, cleanup);
    RunInSingle(r.explanation, Explanation, ends, cleanup);
    RunInSingle(r.history, History, ends, cleanup);
    hide RunIn, RanStep;
  }

  /** A retry: the report says what completed. */
  lemma RetryRuns(log: seq<Ran>, r: Report, ends: Ends)
    requires NothingRepeated(log) && Reflects(Some(r), log) && log != [] && r.graceful != Completed
    ensures RunsWhatIsDue(log, RanForced(r, ends), ends)
  {
    var ran := RanForced(r, ends);
    ForcedInOrder(r, ends);
    LastIsCompleted(log, Graceful);
    assert LastOutcome(log, Graceful) == OutcomeOf(r, Graceful);
    assert !CompletedIn(log + ran, Graceful);
    hide RanForced, NothingRepeated, RunIn;
    forall cleanup
      ensures RunIn(ran, cleanup) <==> cleanup != Graceful && !CompletedIn(log, cleanup)
    {
      ForcedRuns(r, ends, cleanup);
      LastIsCompleted(log, cleanup);
      assert LastOutcome(log, cleanup) == OutcomeOf(r, cleanup);
    }
  }

  lemma GracefulAlone(ends: Ends)
    requires ends(Graceful) == Completed
    ensures RunsWhatIsDue([], [Ran(Graceful, Completed)], ends)
  {
    var ran := [Ran(Graceful, Completed)];
    assert [] + ran == ran && ran[0].cleanup == Graceful;
    assert CompletedIn(ran, Graceful);
  }

  lemma GracefulFirst(forced: seq<Ran>, ends: Ends)
    requires ends(Graceful) != Completed && InOrder(forced, ends) && !RunIn(forced, Graceful)
    ensures var ran := [Ran(Graceful, ends(Graceful))] + forced; InOrder(ran, ends) && !CompletedIn(ran, Graceful)
  {
    forall i | 0 <= i < |forced| ensures Place(forced[i].cleanup) > 0 {
      assert forced[i].cleanup != Graceful;
    }
    hide RunIn;
  }

  lemma GracefulThenForced(forced: seq<Ran>, ends: Ends)
    requires ends(Graceful) != Completed && InOrder(forced, ends)
    requires forall cleanup :: RunIn(forced, cleanup) <==> cleanup != Graceful
    ensures RunsWhatIsDue([], [Ran(Graceful, ends(Graceful))] + forced, ends)
  {
    var first := [Ran(Graceful, ends(Graceful))];
    var ran := first + forced;
    assert [] + ran == ran && ran[0].cleanup == Graceful;
    GracefulFirst(forced, ends);
    hide InOrder;
    forall cleanup | cleanup != Graceful ensures RunIn(ran, cleanup) {
      RunInConcat(first, forced, cleanup);
    }
  }

  lemma FirstRuns(ends: Ends)
    ensures RunsWhatIsDue([], Runs(None, ends), ends)
  {
    if ends(Graceful) == Completed {
      GracefulAlone(ends);
      assert Runs(None, ends) == [Ran(Graceful, Completed)];
    } else {
      var r := Report(ends(Graceful), None, None, None, None);
      ForcedInOrder(r, ends);
      forall cleanup ensures RunIn(RanForced(r, ends), cleanup) <==> cleanup != Graceful {
        ForcedRuns(r, ends, cleanup);
      }
      GracefulThenForced(RanForced(r, ends), ends);
      assert Runs(None, ends) == [Ran(Graceful, ends(Graceful))] + RanForced(r, ends);
    }
    hide RunsWhatIsDue, RanForced;
  }

  lemma AttemptRuns(log: seq<Ran>, previous: Option<Report>, ends: Ends)
    requires NothingRepeated(log) && Reflects(previous, log) && !Done(log)
    ensures RunsWhatIsDue(log, Runs(previous, ends), ends)
  {
    if previous.None? {
      FirstRuns(ends);
    } else {
      var r := previous.value;
      LastIsCompleted(log, Graceful);
      assert LastOutcome(log, Graceful) == OutcomeOf(r, Graceful);
      assert log != [];
      RetryRuns(log, r, ends);
    }
    hide RunsWhatIsDue, NothingRepeated;
  }

  /** Only an attempt runs cleanups, and it runs exactly what is due. */
  lemma EveryAttemptRunsWhatIsDue(states: seq<App>, events: seq<Event>, i: nat)
    requires AppLifecycleRuns.Run(states, events) && i < |events|
    ensures events[i].AttemptEnds? ==>
              exists ran :: states[i + 1].log == states[i].log + ran && RunsWhatIsDue(states[i].log, ran, events[i].ends)
    ensures !events[i].AttemptEnds? ==> states[i + 1].log == states[i].log
  {
    RunKeeps(states, events, i);
    assert Enabled(states[i], events[i]) && states[i + 1] == Step(states[i], events[i]);
    if events[i].AttemptEnds? {
      AttemptRuns(states[i].log, states[i].running.value.previous, events[i].ends);
    }
    hide RunsWhatIsDue, Runs, Execute;
  }

  // ----- every event --------------------------------------------------------------------------------------

  /** An attempt is under way and everything asked of the coordinator meanwhile leaves the application as it is. */
  ghost predicate Starts(a: App, a': App, attempt: Attempt) {
    && a'.running == Some(attempt) && a'.lifecycle.state == ShuttingDown(attempt)
    && a'.lifecycle.exitReady == a.lifecycle.exitReady && a'.log == a.log
  }

  ghost predicate CloseDecided(a: App, a': App, decision: Decision, turnActive: bool) {
    var l := a.lifecycle;
    match l.state
    case Open =>
      && a'.lifecycle.nextId == l.nextId + 1
      && (turnActive ==> decision == Prompt(l.nextId) && a' == a.(lifecycle := Lifecycle(Confirming(l.nextId), l.exitReady, l.nextId + 1)))
      && (!turnActive ==> decision == BeginShutdown(Attempt(l.nextId, 1, None)) && Starts(a, a', Attempt(l.nextId, 1, None)))
    case Confirming(id) => a' == a && decision == Prompt(id)
    case ShuttingDown(_) => a' == a && decision == AlreadyShuttingDown
    case CleanupFailed(id, _, _) => a' == a && decision == ShowFailure(id)
    case ExitReady => a' == a && decision == AlreadyShuttingDown
  }

  ghost predicate CancelDecided(a: App, a': App, reply: Result<(), QuitError>, valid: bool, id: Id) {
    if valid && a.lifecycle.state == Confirming(id) then
      reply == Ok(()) && a' == a.(lifecycle := Lifecycle(Open, a.lifecycle.exitReady, a.lifecycle.nextId))
    else a' == a && reply == Err(if valid then StaleRequest else InvalidRequest)
  }

  ghost predicate ConfirmDecided(a: App, a': App, reply: Result<Attempt, QuitError>, valid: bool, id: Id) {
    if valid && a.lifecycle.state == Confirming(id) then reply == Ok(Attempt(id, 1, None)) && Starts(a, a', Attempt(id, 1, None))
    else a' == a && reply == Err(if valid then StaleRequest else InvalidRequest)
  }

  ghost predicate RetryDecided(a: App, a': App, reply: Result<Attempt, QuitError>, valid: bool, id: Id) {
    if valid && a.lifecycle.state.CleanupFailed? && a.lifecycle.state.failedId == id then
      var n := a.lifecycle.state.failedAttempt;
      var attempt := Attempt(id, if n >= 65_535 then 65_535 else n + 1, Some(a.lifecycle.state.report));
      reply == Ok(attempt) && Starts(a, a', attempt)
    else a' == a && reply == Err(if valid then StaleRequest else InvalidRequest)
  }

  /** Exit exactly when the work is done; otherwise a failure that remembers the attempt and how every cleanup ended last. */
  ghost predicate EndDecided(a: App, a': App) {
    && a'.running.None? && a.running.Some?
    && (Done(a'.log) ==> a'.lifecycle.state == ExitReady && a'.lifecycle.exitReady)
    && (!Done(a'.log) ==>
          && a'.lifecycle.state.CleanupFailed? && !a'.lifecycle.exitReady
          && a'.lifecycle.state.failedId == a.running.value.requestId
          && a'.lifecycle.state.failedAttempt == a.running.value.attempt
          && Reflects(Some(a'.lifecycle.state.report), a'.log))
  }

  /** What every event does and answers. */
  lemma EventsAreDecided(states: seq<App>, events: seq<Event>, i: nat)
    requires AppLifecycleRuns.Run(states, events) && i < |events|
    ensures var a, a', l := states[i], states[i + 1], states[i].lifecycle;
            match events[i]
            case Closes(turnActive) => CloseDecided(a, a', RequestClose(l, turnActive).reply, turnActive)
            case Cancels(valid, id) => CancelDecided(a, a', CancelQuit(l, valid, id).reply, valid, id)
            case Confirms(valid, id) => ConfirmDecided(a, a', ConfirmQuit(l, valid, id).reply, valid, id)
            case Retries(valid, id) => RetryDecided(a, a', RetryCleanup(l, valid, id).reply, valid, id)
            case AttemptEnds(_) => EndDecided(a, a')
  {
    RunKeeps(states, events, i);
    RunKeeps(states, events, i + 1);
    assert Enabled(states[i], events[i]) && states[i + 1] == Step(states[i], events[i]);
    hide Runs, Execute, NothingRepeated, Done, Reflects, Success;
  }

  // ----- a retry that works -------------------------------------------------------------------------------

  ghost predicate NoAttemptEnds(events: seq<Event>, i: nat, j: nat) {
    j <= |events| && forall m :: i <= m < j ==> !events[m].AttemptEnds?
  }

  /** While an attempt is under way, nothing that is asked changes anything. */
  lemma {:induction false} AttemptIsUndisturbed(states: seq<App>, events: seq<Event>, i: nat, j: nat)
    requires AppLifecycleRuns.Run(states, events) && i <= j < |states| && NoAttemptEnds(events, i, j)
    requires states[i].lifecycle.state.ShuttingDown?
    ensures states[j] == states[i]
    decreases j - i
  {
    if i < j {
      AttemptIsUndisturbed(states, events, i, j - 1);
      EventsAreDecided(states, events, j - 1);
    }
  }

  /**
   * From a failed cleanup, a retry in which every forced cleanup that has not completed yet does complete ends the
   * application, whatever else is asked while it runs.
   */
  lemma SuccessfulRetryExits(states: seq<App>, events: seq<Event>, i: nat, f: nat)
    requires AppLifecycleRuns.Run(states, events) && i < f < |events|
    requires states[i].lifecycle.state.CleanupFailed? && events[i] == Retries(true, states[i].lifecycle.state.failedId)
    requires events[f].AttemptEnds? && NoAttemptEnds(events, i + 1, f)
    requires forall cleanup :: cleanup != Graceful && !CompletedIn(states[i].log, cleanup) ==> events[f].ends(cleanup) == Completed
    ensures states[f + 1].lifecycle.exitReady && states[f + 1].lifecycle.state == ExitReady
  {
    var log, ends := states[i].log, events[f].ends;
    EventsAreDecided(states, events, i);
    AttemptIsUndisturbed(states, events, i + 1, f);
    EventsAreDecided(states, events, f);
    EveryAttemptRunsWhatIsDue(states, events, f);
    var ran :| states[f + 1].log == log + ran && RunsWhatIsDue(log, ran, ends);
    DueAndCompleted(log, ran, ends);
  }

  lemma DueAndCompleted(log: seq<Ran>, ran: seq<Ran>, ends: Ends)
    requires RunsWhatIsDue(log, ran, ends)
    requires forall cleanup :: cleanup != Graceful && !CompletedIn(log, cleanup) ==> ends(cleanup) == Completed
    ensures Done(log + ran)
  {
    if !CompletedIn(log + ran, Graceful) {
      forall cleanup | cleanup != Graceful ensures CompletedIn(log + ran, cleanup) {
        if !CompletedIn(log, cleanup) {
          var i :| 0 <= i < |ran| && ran[i].cleanup == cleanup;
          assert ran[i] in ran;
        }
      }
    }
  }
}
