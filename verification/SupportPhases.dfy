/** What the phase of an owned execution says about its task, when an execution is released, and how a cleaner decides. */
module SupportPhases {
  import opened Prelude
  import opened SupportExecutor
  import opened SupportOwnership

  /** The phases an entry may show while its task is at this place. */
  ghost predicate PhaseFits(phase: Phase, p: Process) {
    match p.task
    case Unstarted => phase == Constructing
    case Preparing => phase == Constructing
    case Constructed => phase == Constructing
    case Explaining => phase == Running
    case Publishing(_) => phase == Constructing || phase == Running
    case Announcing(outcome) => phase == (if outcome.pending then Unconverged else Terminal)
    case _ => p.outcome.Some? && phase == (if p.outcome.value.pending then Unconverged else Terminal)
  }

  /** The entry shows how far the task is, and a caller that returned with a converged cleanup left no entry behind. */
  ghost predicate EntryFits(active: map<Key, Phase>, g: nat, p: Process) {
    var k := Key(p.requestId, g);
    && (k in active ==> PhaseFits(active[k], p))
    && (p.caller.Returned? && p.outcome.Some? && p.outcome.value.converged ==> k !in active)
    && (p.task == Unstarted && p.caller.Drawn? ==> k !in active)
    && (p.caller.Drawn? || p.caller.Entered? ==> p.task == Unstarted)
    && (p.caller.Returned? ==> p.task == Finished)
  }

  ghost predicate EntriesFit(x: Executor) {
    forall g :: g in x.processes ==> g < x.nextGeneration && EntryFits(x.active, g, x.processes[g])
  }

  /** Only the entry of one execution changes, or entries go. */
  ghost predicate SameEntryOrGone(active: map<Key, Phase>, active': map<Key, Phase>, k: Key) {
    k in active' ==> k in active && active'[k] == active[k]
  }

  lemma OtherEntryFits(active: map<Key, Phase>, active': map<Key, Phase>, g: nat, p: Process)
    requires EntryFits(active, g, p) && SameEntryOrGone(active, active', Key(p.requestId, g))
    ensures EntryFits(active', g, p)
  {
  }

  predicate OfCaller(e: Event) {
    e.CallerEnters? || e.CallerSlots? || e.CallerStarts? || e.CallerReturns? || e.CallerDropped?
  }

  lemma CallerEntryFits(x: Executor, confirmed: set<Key>, e: Event)
    requires Enabled(x, e) && OfCaller(e) && e.g in x.processes && EntryFits(x.active, e.g, x.processes[e.g])
    requires ProcessOk(x.active, confirmed, e.g, x.processes[e.g])
    ensures EntryFits(Step(x, e).active, e.g, Step(x, e).processes[e.g])
  {
  }

  lemma TaskEntryFits(x: Executor, confirmed: set<Key>, e: Event)
    requires Enabled(x, e) && TaskEvent(e) && e.g in x.processes && EntryFits(x.active, e.g, x.processes[e.g])
    requires ProcessOk(x.active, confirmed, e.g, x.processes[e.g])
    ensures EntryFits(Step(x, e).active, e.g, Step(x, e).processes[e.g])
  {
  }

  lemma OthersUntouched(x: Executor, e: Event, h: nat)
    requires Enabled(x, e) && h in x.processes && !e.CallerDraws?
    requires (OfCaller(e) || TaskEvent(e)) ==> h != e.g
    ensures h in Step(x, e).processes && Step(x, e).processes[h] == x.processes[h]
    ensures SameEntryOrGone(x.active, Step(x, e).active, Key(x.processes[h].requestId, h))
  {
    if OfCaller(e) {
      hide TaskStep, CleanerStep;
    } else if TaskEvent(e) {
      hide CallerStep, CleanerStep;
    } else {
      hide CallerStep, TaskStep;
    }
  }

  lemma ProcessesStay(x: Executor, e: Event)
    requires Enabled(x, e) && !e.CallerDraws?
    ensures Step(x, e).processes.Keys == x.processes.Keys && Step(x, e).nextGeneration == x.nextGeneration
  {
    if OfCaller(e) {
      hide TaskStep, CleanerStep;
    } else if TaskEvent(e) {
      hide CallerStep, CleanerStep;
    } else {
      hide CallerStep, TaskStep;
    }
  }

  lemma DrawFits(x: Executor, confirmed: set<Key>, e: Event)
    requires Inv(x, confirmed) && Enabled(x, e) && e.CallerDraws? && EntriesFit(x)
    ensures EntriesFit(Step(x, e))
  {
    var k := Key(e.requestId, x.nextGeneration);
    assert k in x.active ==> Owner(k, x.processes);
    hide PhaseFits;
  }

  lemma EntryIsOk(x: Executor, confirmed: set<Key>, g: nat)
    requires Inv(x, confirmed) && g in x.processes
    ensures ProcessOk(x.active, confirmed, g, x.processes[g])
  {
  }

  lemma StepFits(x: Executor, confirmed: set<Key>, e: Event)
    requires Inv(x, confirmed) && Enabled(x, e) && EntriesFit(x)
    ensures EntriesFit(Step(x, e))
  {
    if e.CallerDraws? {
      DrawFits(x, confirmed, e);
    } else {
      ProcessesStay(x, e);
      var x' := Step(x, e);
      assert (OfCaller(e) || TaskEvent(e)) ==> e.g in x.processes;
      hide Inv, Step, Enabled, EntryFits, SameEntryOrGone;
      forall h | h in x'.processes ensures h < x'.nextGeneration && EntryFits(x'.active, h, x'.processes[h]) {
        assert h in x.processes.Keys;
        EntryIsOk(x, confirmed, h);
        if OfCaller(e) && h == e.g {
          CallerEntryFits(x, confirmed, e);
        } else if TaskEvent(e) && h == e.g {
          TaskEntryFits(x, confirmed, e);
        } else {
          OthersUntouched(x, e, h);
          OtherEntryFits(x.active, x'.active, h, x.processes[h]);
        }
      }
    }
  }

  lemma {:induction false} ReachedFits(states: seq<Executor>, events: seq<Event>, i: nat)
    requires Reached(states, events, i)
    ensures EntriesFit(states[i])
  {
    hide Inv, Step, Enabled, EntryFits;
    if i > 0 {
      ReachedFits(states, events, i - 1);
      ReachedInvariant(states, events, i - 1);
      assert Follows(states[i - 1], events[i - 1], states[i]);
      StepFits(states[i - 1], Confirmed(states, events, i - 1), events[i - 1]);
    }
  }

  /** The phase of an owned execution is the one its task has brought it to. */
  lemma PhaseFollowsTask(states: seq<Executor>, events: seq<Event>, i: nat, k: Key)
    requires Reached(states, events, i) && k in states[i].active
    ensures k.generation in states[i].processes && PhaseFits(states[i].active[k], states[i].processes[k.generation])
  {
    ReachedFits(states, events, i);
    ReachedInvariant(states, events, i);
    assert Owner(k, states[i].processes);
  }

  /** When `execute` returned and its cleanup had converged, the execution is owned no more. */
  lemma ReturnedAndConvergedIsReleased(states: seq<Executor>, events: seq<Event>, i: nat, g: nat)
    requires Reached(states, events, i) && CallerAt(states[i], g, Returned)
    requires states[i].processes[g].outcome.Some? && states[i].processes[g].outcome.value.converged
    ensures KeyOf(states[i], g) !in states[i].active
  {
    ReachedFits(states, events, i);
  }

  // ----- cleaners -----------------------------------------------------------------------------------------

  /**
   * A cleaner counts an execution as converged exactly when its task says so or one of the two stops did; then, and only
   * then, it removes the entry, and one that did not converge makes its answer false for good.
   */
  lemma CleanersDecide(x: Executor, e: Event)
    requires Enabled(x, e)
    ensures e.CleanerReadsPhase? ==>
              && x.cleaners[e.c].place.Joined?
              && var place := x.cleaners[e.c].place;
                 Step(x, e).cleaners[e.c].place == Deciding(place.outcome.converged || place.immediate == Some(true) || e.late == Some(true))
    ensures e.CleanerRemoves? ==>
              && x.cleaners[e.c].place.Deciding? && x.cleaners[e.c].todo != []
              && var k, converges := x.cleaners[e.c].todo[0].key, x.cleaners[e.c].place.converges;
                 && Step(x, e).active == (if converges then x.active - {k} else x.active)
                 && Step(x, e).cleaners[e.c].todo == x.cleaners[e.c].todo[1..]
                 && Step(x, e).cleaners[e.c].converged == (x.cleaners[e.c].converged && converges)
    ensures e.CleanerAnswers? ==> Step(x, e).cleaners[e.c].place == Answered(x.cleaners[e.c].converged)
    ensures e.CleanerLatches? ==> Step(x, e).latch == (x.latch || x.cleaners[e.c].only.None?)
    ensures e.CleanerSnapshots? && e.todo == [] && x.cleaners[e.c].only.Some? ==> Step(x, e).cleaners[e.c].place == Answered(false)
    ensures e.CallerEnters? ==>
              && e.g in Step(x, e).processes
              && Step(x, e).processes[e.g].caller == (if x.latch then Refused else Entered)
  {
  }

  /** A cancel works through executions of its own request only. */
  ghost predicate OwnRequest(cleaner: Cleaner) {
    cleaner.only.Some? ==> forall i :: 0 <= i < |cleaner.todo| ==> cleaner.todo[i].key.requestId == cleaner.only.value
  }

  lemma StepKeepsOwnRequest(x: Executor, e: Event, c: nat)
    requires Enabled(x, e) && c in Step(x, e).cleaners
    requires c in x.cleaners ==> OwnRequest(x.cleaners[c])
    ensures OwnRequest(Step(x, e).cleaners[c])
    ensures c in x.cleaners ==> Step(x, e).cleaners[c].only == x.cleaners[c].only
  {
    hide CallerStep, TaskStep;
    if OfCaller(e) || TaskEvent(e) {
      CleanersUntouched(x, e);
      hide Step;
    }
  }

  lemma CleanersUntouched(x: Executor, e: Event)
    requires Enabled(x, e) && (OfCaller(e) || TaskEvent(e))
    ensures Step(x, e).cleaners == x.cleaners
  {
  }

  lemma {:induction false} CleanersKeepToTheirRequest(states: seq<Executor>, events: seq<Event>, i: nat, c: nat)
    requires Reached(states, events, i) && c in states[i].cleaners
    ensures OwnRequest(states[i].cleaners[c])
  {
    hide Step, Enabled, OwnRequest;
    assert i > 0;
    assert Follows(states[i - 1], events[i - 1], states[i]);
    if c in states[i - 1].cleaners {
      CleanersKeepToTheirRequest(states, events, i - 1, c);
    }
    StepKeepsOwnRequest(states[i - 1], events[i - 1], c);
  }

  /** A cancel never takes away an execution of another request. */
  lemma CancelKeepsOtherRequests(states: seq<Executor>, events: seq<Event>, i: nat, k: Key)
    requires Reached(states, events, i + 1) && events[i].CleanerRemoves?
    requires k in states[i].active && k !in states[i + 1].active
    ensures events[i].c in states[i].cleaners
    ensures states[i].cleaners[events[i].c].only.Some? ==> k.requestId == states[i].cleaners[events[i].c].only.value
  {
    assert Follows(states[i], events[i], states[i + 1]);
    CleanersKeepToTheirRequest(states, events, i, events[i].c);
  }
}
