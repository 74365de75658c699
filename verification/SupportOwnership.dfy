/** Who owns an isolated execution, for how long, and what a shutdown that reports success leaves behind. */
module SupportOwnership {
  import opened Prelude
  import opened SupportExecutor

  // ----- runs ---------------------------------------------------------------------------------------------

  ghost predicate Follows(x: Executor, e: Event, x': Executor) {
    Enabled(x, e) && x' == Step(x, e)
  }

  ghost predicate Run(states: seq<Executor>, events: seq<Event>) {
    && |states| == |events| + 1
    && forall i :: 0 <= i < |events| ==> Follows(states[i], events[i], states[i + 1])
  }

  ghost predicate Initial(x: Executor) {
    !x.latch && x.active == map[] && x.processes == map[] && x.cleaners == map[]
  }

  ghost predicate Reached(states: seq<Executor>, events: seq<Event>, i: nat) {
    Run(states, events) && Initial(states[0]) && i < |states|
  }

  /** The execution whose cleanup this event reports as converged: by its own task, or by a cleaner that stopped it. */
  ghost function Confirms(x: Executor, e: Event): set<Key>
    requires Enabled(x, e)
  {
    if (e.TaskEnds? || e.TaskRegisters?) && e.outcome.converged then {KeyOf(x, e.g)}
    else if (e.CleanerStops? && e.immediate == Some(true)) || (e.CleanerReadsPhase? && e.late == Some(true))
    then {x.cleaners[e.c].todo[0].key}
    else {}
  }

  /** The executions some cleanup had reported as converged before the `i`-th state. */
  ghost function Confirmed(states: seq<Executor>, events: seq<Event>, i: nat): set<Key>
    requires Run(states, events) && i < |states|
  {
    if i == 0 then {}
    else
      assert Follows(states[i - 1], events[i - 1], states[i]);
      Confirmed(states, events, i - 1) + Confirms(states[i - 1], events[i - 1])
  }

  // ----- the invariant ------------------------------------------------------------------------------------

  /** The outcome a task has reached and not yet or already announced. */
  function OutcomeOf(p: Process): Option<Outcome> {
    match p.task
    case Publishing(outcome) => Some(outcome)
    case Announcing(outcome) => Some(outcome)
    case _ => p.outcome
  }

  predicate BeforeStart(caller: Caller) {
    caller.Drawn? || caller.Refused? || caller.Entered? || caller.Slotted?
  }

  ghost predicate ProcessOk(active: map<Key, Phase>, confirmed: set<Key>, g: nat, p: Process) {
    var k := Key(p.requestId, g);
    && (p.inserted && p.task != Finished ==> k in active)
    && (!p.inserted ==> k !in active && !p.notified)
    && (p.caller.Drawn? || p.caller.Refused? ==> !p.inserted)
    && (p.caller.Entered? || p.caller.Slotted? || p.caller.Started? ==> p.inserted)
    && (BeforeStart(p.caller) ==> !p.notified)
    && (p.caller.Slotted? || p.notified ==> p.slot)
    && (p.task != Unstarted ==> p.notified)
    && (p.outcome.Some? <==> p.task.Ending? || p.task.Finished?)
    && (OutcomeOf(p).Some? && OutcomeOf(p).value.converged ==> k in confirmed)
  }

  ghost predicate ProcessesOk(active: map<Key, Phase>, confirmed: set<Key>, next: nat, processes: map<nat, Process>) {
    forall g :: g in processes ==> g < next && ProcessOk(active, confirmed, g, processes[g])
  }

  ghost predicate Owner(k: Key, processes: map<nat, Process>) {
    && k.generation in processes
    && processes[k.generation].requestId == k.requestId
    && processes[k.generation].inserted
  }

  ghost predicate ActiveOk(active: map<Key, Phase>, processes: map<nat, Process>) {
    forall k :: k in active ==> Owner(k, processes)
  }

  ghost predicate TodoOwned(todo: seq<Snapshot>, processes: map<nat, Process>) {
    forall i :: 0 <= i < |todo| ==> Owner(todo[i].key, processes)
  }

  predicate Evidence(place: CleanerPlace) {
    match place
    case Waiting(immediate) => immediate == Some(true)
    case Joined(immediate, outcome) => immediate == Some(true) || outcome.converged
    case Deciding(converges) => converges
    case _ => false
  }

  ghost predicate HeadOk(confirmed: set<Key>, processes: map<nat, Process>, cleaner: Cleaner) {
    cleaner.place.Waiting? || cleaner.place.Joined? || cleaner.place.Deciding? ==>
      && cleaner.todo != []
      && Owner(cleaner.todo[0].key, processes)
      && (Evidence(cleaner.place) ==> cleaner.todo[0].key in confirmed)
      && (!cleaner.place.Waiting? ==> processes[cleaner.todo[0].key.generation].task == Finished)
  }

  /** A shutdown past its snapshot still has every owned execution on its list, unless it has already failed. */
  ghost predicate ShutdownOk(latch: bool, active: map<Key, Phase>, cleaner: Cleaner) {
    cleaner.only.None? && !cleaner.place.Called? ==>
      && latch
      && (!cleaner.place.Latched? && cleaner.converged ==> forall k :: k in active ==> Listed(cleaner.todo, k))
      && (cleaner.place == Answered(true) ==> active == map[])
  }

  ghost predicate CleanerOk(x: Executor, confirmed: set<Key>, cleaner: Cleaner) {
    && TodoOwned(cleaner.todo, x.processes)
    && HeadOk(confirmed, x.processes, cleaner)
    && ShutdownOk(x.latch, x.active, cleaner)
  }

  ghost predicate CleanersOk(x: Executor, confirmed: set<Key>) {
    forall c :: c in x.cleaners ==> CleanerOk(x, confirmed, x.cleaners[c])
  }

  ghost predicate Inv(x: Executor, confirmed: set<Key>) {
    && ProcessesOk(x.active, confirmed, x.nextGeneration, x.processes)
    && ActiveOk(x.active, x.processes)
    && CleanersOk(x, confirmed)
  }

  // ----- each step keeps it -------------------------------------------------------------------------------

  /** What a step may do to the parts the cleaners look at: owners stay, finished tasks stay, a latched map only shrinks. */
  ghost predicate Evolves(x: Executor, confirmed: set<Key>, x': Executor, confirmed': set<Key>) {
    && confirmed <= confirmed'
    && (x.latch ==> x'.latch && forall k :: k in x'.active ==> k in x.active)
    && (forall g :: g in x.processes ==> Succeeds(x.processes, x'.processes, g))
  }

  ghost predicate Succeeds(processes: map<nat, Process>, processes': map<nat, Process>, g: nat)
    requires g in processes
  {
    && g in processes'
    && processes'[g].requestId == processes[g].requestId
    && (processes[g].inserted ==> processes'[g].inserted)
    && (processes[g].task == Finished ==> processes'[g].task == Finished)
  }

  lemma CleanerSurvives(x: Executor, confirmed: set<Key>, x': Executor, confirmed': set<Key>, cleaner: Cleaner)
    requires Evolves(x, confirmed, x', confirmed') && CleanerOk(x, confirmed, cleaner)
    ensures CleanerOk(x', confirmed', cleaner)
  {
    forall i | 0 <= i < |cleaner.todo| ensures Owner(cleaner.todo[i].key, x'.processes) {
      assert Owner(cleaner.todo[i].key, x.processes);
      assert Succeeds(x.processes, x'.processes, cleaner.todo[i].key.generation);
    }
    if cleaner.place == Answered(true) && cleaner.only.None? {
      assert x'.active == map[];
    }
  }

  lemma CleanersSurvive(x: Executor, confirmed: set<Key>, x': Executor, confirmed': set<Key>)
    requires Evolves(x, confirmed, x', confirmed') && CleanersOk(x, confirmed) && x'.cleaners == x.cleaners
    ensures CleanersOk(x', confirmed')
  {
    forall c | c in x'.cleaners ensures CleanerOk(x', confirmed', x'.cleaners[c]) {
      CleanerSurvives(x, confirmed, x', confirmed', x.cleaners[c]);
    }
  }

  lemma DrawKeeps(x: Executor, confirmed: set<Key>, e: Event)
    requires Inv(x, confirmed) && Enabled(x, e) && e.CallerDraws?
    ensures Inv(Step(x, e), confirmed)
  {
    CleanersSurvive(x, confirmed, Step(x, e), confirmed);
  }

  /** A step of one caller or task: only its own process and its own entry change, and entries appear with the latch down. */
  ghost predicate Touches(x: Executor, x': Executor, g: nat) {
    && g in x.processes && g in x'.processes
    && x' == Executor(x.nextGeneration, x.latch, x'.active, x.processes[g := x'.processes[g]], x.cleaners)
    && (forall k :: k != KeyOf(x, g) ==> (k in x'.active <==> k in x.active))
    && (x.latch && KeyOf(x, g) in x'.active ==> KeyOf(x, g) in x.active)
    && (KeyOf(x, g) in x'.active ==> x'.processes[g].inserted)
    && Succeeds(x.processes, x'.processes, g)
  }

  lemma OwnStepKeeps(x: Executor, confirmed: set<Key>, x': Executor, confirmed': set<Key>, g: nat)
    requires Inv(x, confirmed) && Touches(x, x', g) && confirmed <= confirmed'
    requires ProcessOk(x'.active, confirmed', g, x'.processes[g])
    ensures Inv(x', confirmed')
  {
    forall h | h in x'.processes && h != g
      ensures h < x'.nextGeneration && ProcessOk(x'.active, confirmed', h, x'.processes[h]) {
      assert ProcessOk(x.active, confirmed, h, x.processes[h]);
    }
    forall k | k in x'.active ensures Owner(k, x'.processes) {
      if k != KeyOf(x, g) {
        assert Owner(k, x.processes);
        assert Succeeds(x.processes, x'.processes, g);
      }
    }
    CleanersSurvive(x, confirmed, x', confirmed');
  }

  /** The caller's own process keeps its part of the invariant. */
  lemma CallerStepLocal(x: Executor, confirmed: set<Key>, e: Event)
    requires Enabled(x, e)
    requires e.CallerEnters? || e.CallerSlots? || e.CallerStarts? || e.CallerReturns? || e.CallerDropped?
    requires e.g in x.processes && ProcessOk(x.active, confirmed, e.g, x.processes[e.g])
    ensures Touches(x, Step(x, e), e.g)
    ensures ProcessOk(Step(x, e).active, confirmed, e.g, Step(x, e).processes[e.g])
  {
  }

  lemma CallerKeeps(x: Executor, confirmed: set<Key>, e: Event)
    requires Inv(x, confirmed) && Enabled(x, e)
    requires e.CallerEnters? || e.CallerSlots? || e.CallerStarts? || e.CallerReturns? || e.CallerDropped?
    ensures Inv(Step(x, e), confirmed)
  {
    assert e.g in x.processes && ProcessOk(x.active, confirmed, e.g, x.processes[e.g]);
    CallerStepLocal(x, confirmed, e);
    OwnStepKeeps(x, confirmed, Step(x, e), confirmed, e.g);
  }

  predicate TaskEvent(e: Event) {
    e.TaskWakes? || e.TaskEnds? || e.TaskConstructs? || e.TaskRegisters? || e.TaskPublishes? || e.TaskAnnounces? || e.TaskFinishes?
  }

  /** The task's own process keeps its part of the invariant. */
  lemma QuietTaskStepLocal(x: Executor, confirmed: set<Key>, e: Event)
    requires Enabled(x, e) && (e.TaskWakes? || e.TaskEnds? || e.TaskConstructs? || e.TaskAnnounces? || e.TaskFinishes?)
    requires e.g in x.processes && ProcessOk(x.active, confirmed, e.g, x.processes[e.g])
    ensures Touches(x, Step(x, e), e.g)
    ensures ProcessOk(Step(x, e).active, confirmed + Confirms(x, e), e.g, Step(x, e).processes[e.g])
  {
  }

  lemma TaskStepLocal(x: Executor, confirmed: set<Key>, e: Event)
    requires Enabled(x, e) && TaskEvent(e)
    requires e.g in x.processes && ProcessOk(x.active, confirmed, e.g, x.processes[e.g])
    ensures Touches(x, Step(x, e), e.g)
    ensures ProcessOk(Step(x, e).active, confirmed + Confirms(x, e), e.g, Step(x, e).processes[e.g])
  {
    if !e.TaskRegisters? && !e.TaskPublishes? {
      hide ProcessOk, Touches, Step, Confirms;
      QuietTaskStepLocal(x, confirmed, e);
    }
  }

  lemma TaskKeeps(x: Executor, confirmed: set<Key>, e: Event)
    requires Inv(x, confirmed) && Enabled(x, e) && TaskEvent(e)
    ensures Inv(Step(x, e), confirmed + Confirms(x, e))
  {
    assert e.g in x.processes && ProcessOk(x.active, confirmed, e.g, x.processes[e.g]);
    TaskStepLocal(x, confirmed, e);
    OwnStepKeeps(x, confirmed, Step(x, e), confirmed + Confirms(x, e), e.g);
  }

  /** A step of one cleaner that removes nothing: only that cleaner changes, and perhaps the latch goes up. */
  ghost predicate Turns(x: Executor, x': Executor, c: nat) {
    && c in x'.cleaners
    && x' == Executor(x.nextGeneration, x'.latch, x.active, x.processes, x.cleaners[c := x'.cleaners[c]])
    && (x.latch ==> x'.latch)
  }

  lemma SnapshotKeeps(x: Executor, confirmed: set<Key>, e: Event)
    requires Inv(x, confirmed) && Enabled(x, e) && e.CleanerSnapshots?
    ensures Turns(x, Step(x, e), e.c)
    ensures CleanerOk(Step(x, e), confirmed, Step(x, e).cleaners[e.c])
  {
    assert CleanerOk(x, confirmed, x.cleaners[e.c]);
  }

  lemma RemovalKeeps(x: Executor, confirmed: set<Key>, e: Event)
    requires Inv(x, confirmed) && Enabled(x, e) && e.CleanerRemoves?
    ensures Inv(Step(x, e), confirmed)
  {
    var x' := Step(x, e);
    var cleaner := x.cleaners[e.c];
    assert CleanerOk(x, confirmed, cleaner);
    forall k | k in x'.active && Listed(cleaner.todo, k) && cleaner.place.converges ensures Listed(cleaner.todo[1..], k) {
      var i :| 0 <= i < |cleaner.todo| && cleaner.todo[i].key == k;
      assert cleaner.todo[1..][i - 1].key == k;
    }
    forall c | c in x'.cleaners && c != e.c ensures CleanerOk(x', confirmed, x'.cleaners[c]) {
      CleanerSurvives(x, confirmed, x', confirmed, x.cleaners[c]);
    }
    assert CleanerOk(x', confirmed, x'.cleaners[e.c]);
  }

  lemma OwnTurnKeeps(x: Executor, confirmed: set<Key>, x': Executor, confirmed': set<Key>, c: nat)
    requires Inv(x, confirmed) && Turns(x, x', c) && confirmed <= confirmed'
    requires CleanerOk(x', confirmed', x'.cleaners[c])
    ensures Inv(x', confirmed')
  {
    forall g | g in x'.processes
      ensures g < x'.nextGeneration && ProcessOk(x'.active, confirmed', g, x'.processes[g]) {
      assert ProcessOk(x.active, confirmed, g, x.processes[g]);
    }
    forall d | d in x'.cleaners && d != c ensures CleanerOk(x', confirmed', x'.cleaners[d]) {
      CleanerSurvives(x, confirmed, x', confirmed', x.cleaners[d]);
    }
  }

  lemma StopTurn(x: Executor, confirmed: set<Key>, e: Event)
    requires Inv(x, confirmed) && Enabled(x, e) && (e.CleanerStops? || e.CleanerReadsPhase?)
    ensures Turns(x, Step(x, e), e.c)
    ensures CleanerOk(Step(x, e), confirmed + Confirms(x, e), Step(x, e).cleaners[e.c])
  {
    assert CleanerOk(x, confirmed, x.cleaners[e.c]);
  }

  lemma JoinTurn(x: Executor, confirmed: set<Key>, e: Event)
    requires Inv(x, confirmed) && Enabled(x, e) && e.CleanerJoins?
    ensures Turns(x, Step(x, e), e.c)
    ensures CleanerOk(Step(x, e), confirmed, Step(x, e).cleaners[e.c])
  {
    assert CleanerOk(x, confirmed, x.cleaners[e.c]);
    var head := x.cleaners[e.c].todo[0].key;
    assert ProcessOk(x.active, confirmed, head.generation, x.processes[head.generation]);
  }

  lemma OtherTurn(x: Executor, confirmed: set<Key>, e: Event)
    requires Inv(x, confirmed) && Enabled(x, e) && (e.CleanerCalled? || e.CleanerLatches? || e.CleanerAnswers?)
    ensures Turns(x, Step(x, e), e.c)
    ensures CleanerOk(Step(x, e), confirmed, Step(x, e).cleaners[e.c])
  {
    assert !e.CleanerCalled? ==> CleanerOk(x, confirmed, x.cleaners[e.c]);
  }

  lemma CleanerKeeps(x: Executor, confirmed: set<Key>, e: Event)
    requires Inv(x, confirmed) && Enabled(x, e)
    requires e.CleanerCalled? || e.CleanerLatches? || e.CleanerSnapshots? || e.CleanerStops? || e.CleanerJoins?
             || e.CleanerReadsPhase? || e.CleanerAnswers?
    ensures Inv(Step(x, e), confirmed + Confirms(x, e))
  {
    hide CleanerOk, Inv;
    if e.CleanerSnapshots? {
      SnapshotKeeps(x, confirmed, e);
    } else if e.CleanerStops? || e.CleanerReadsPhase? {
      StopTurn(x, confirmed, e);
    } else if e.CleanerJoins? {
      JoinTurn(x, confirmed, e);
    } else {
      OtherTurn(x, confirmed, e);
    }
    assert confirmed + {} == confirmed;
    OwnTurnKeeps(x, confirmed, Step(x, e), confirmed + Confirms(x, e), e.c);
  }

  lemma StepKeeps(x: Executor, confirmed: set<Key>, e: Event)
    requires Inv(x, confirmed) && Enabled(x, e)
    ensures Inv(Step(x, e), confirmed + Confirms(x, e))
  {
    hide Inv, Step, Enabled;
    assert confirmed + {} == confirmed;
    if e.CallerDraws? {
      DrawKeeps(x, confirmed, e);
    } else if e.CallerEnters? || e.CallerSlots? || e.CallerStarts? || e.CallerReturns? || e.CallerDropped? {
      CallerKeeps(x, confirmed, e);
    } else if TaskEvent(e) {
      TaskKeeps(x, confirmed, e);
    } else if e.CleanerRemoves? {
      RemovalKeeps(x, confirmed, e);
    } else {
      CleanerKeeps(x, confirmed, e);
    }
  }

  lemma {:induction false} ReachedInvariant(states: seq<Executor>, events: seq<Event>, i: nat)
    requires Reached(states, events, i)
    ensures Inv(states[i], Confirmed(states, events, i))
  {
    if i > 0 {
      ReachedInvariant(states, events, i - 1);
      assert Follows(states[i - 1], events[i - 1], states[i]);
      StepKeeps(states[i - 1], Confirmed(states, events, i - 1), events[i - 1]);
    }
  }

  // ----- the theorems -------------------------------------------------------------------------------------

  /** The branch of `run_owned` that finds its entry gone is dead. */
  lemma RegistrationFindsItsEntry(states: seq<Executor>, events: seq<Event>, i: nat, g: nat)
    requires Reached(states, events, i) && TaskAt(states[i], g, Constructed)
    ensures KeyOf(states[i], g) in states[i].active
  {
    ReachedInvariant(states, events, i);
    assert ProcessOk(states[i].active, Confirmed(states, events, i), g, states[i].processes[g]);
  }

  /** A started execution is owned for as long as its task has not finished. */
  lemma UnfinishedIsOwned(states: seq<Executor>, events: seq<Event>, i: nat, g: nat)
    requires Reached(states, events, i) && g in states[i].processes
    requires states[i].processes[g].inserted && states[i].processes[g].task != Finished
    ensures KeyOf(states[i], g) in states[i].active
  {
    ReachedInvariant(states, events, i);
    assert ProcessOk(states[i].active, Confirmed(states, events, i), g, states[i].processes[g]);
  }

  lemma RemovalByCaller(x: Executor, confirmed: set<Key>, e: Event, k: Key)
    requires Inv(x, confirmed) && Enabled(x, e) && e.CallerReturns?
    requires k in x.active && k !in Step(x, e).active
    ensures Owner(k, x.processes) && x.processes[k.generation].task == Finished && k in confirmed
  {
    hide CleanersOk;
    assert ProcessOk(x.active, confirmed, e.g, x.processes[e.g]);
    assert Owner(k, x.processes);
  }

  lemma RemovalByCleaner(x: Executor, confirmed: set<Key>, e: Event, k: Key)
    requires Inv(x, confirmed) && Enabled(x, e) && e.CleanerRemoves?
    requires k in x.active && k !in Step(x, e).active
    ensures Owner(k, x.processes) && x.processes[k.generation].task == Finished && k in confirmed
  {
    hide ProcessesOk, ShutdownOk, TodoOwned;
    assert CleanerOk(x, confirmed, x.cleaners[e.c]);
  }

  lemma OnlyReturnsAndRemovesShrink(x: Executor, e: Event, k: Key)
    requires Enabled(x, e) && k in x.active && k !in Step(x, e).active
    ensures e.CallerReturns? || e.CleanerRemoves?
  {
  }

  lemma RemovalStep(x: Executor, confirmed: set<Key>, e: Event, k: Key)
    requires Inv(x, confirmed) && Enabled(x, e)
    requires k in x.active && k !in Step(x, e).active
    ensures Owner(k, x.processes) && x.processes[k.generation].task == Finished && k in confirmed
  {
    hide Inv, Step, Enabled;
    OnlyReturnsAndRemovesShrink(x, e, k);
    if e.CallerReturns? {
      RemovalByCaller(x, confirmed, e, k);
    } else {
      RemovalByCleaner(x, confirmed, e, k);
    }
  }

  /** An entry leaves the map only after its task finished and some cleanup of it reported convergence. */
  lemma RemovalNeedsEvidence(states: seq<Executor>, events: seq<Event>, i: nat, k: Key)
    requires Reached(states, events, i + 1)
    requires k in states[i].active && k !in states[i + 1].active
    ensures Owner(k, states[i].processes) && states[i].processes[k.generation].task == Finished
    ensures k in Confirmed(states, events, i)
  {
    ReachedInvariant(states, events, i);
    assert Follows(states[i], events[i], states[i + 1]);
    RemovalStep(states[i], Confirmed(states, events, i), events[i], k);
  }

  lemma EntryStep(x: Executor, e: Event, k: Key)
    requires Enabled(x, e) && k in Step(x, e).active && k !in x.active
    ensures e == CallerEnters(k.generation) && !x.latch
    ensures k.generation in x.processes && x.processes[k.generation].caller.Drawn?
  {
  }

  /** An entry appears only when its caller first takes the lock, and only while the latch is down. */
  lemma EntryNeedsOpenLatch(states: seq<Executor>, events: seq<Event>, i: nat, k: Key)
    requires Reached(states, events, i + 1)
    requires k !in states[i].active && k in states[i + 1].active
    ensures !states[i].latch && events[i] == CallerEnters(k.generation)
    ensures k.generation in states[i].processes && !states[i].processes[k.generation].inserted
  {
    ReachedInvariant(states, events, i);
    assert Follows(states[i], events[i], states[i + 1]);
    EntryStep(states[i], events[i], k);
    assert ProcessOk(states[i].active, Confirmed(states, events, i), k.generation, states[i].processes[k.generation]);
  }

  /** No execution is owned and the latch refuses new ones. */
  ghost predicate Released(x: Executor) {
    x.latch && x.active == map[]
  }

  lemma LatchedOnlyShrinks(x: Executor, e: Event)
    requires Enabled(x, e) && x.latch
    ensures Step(x, e).latch && Step(x, e).active.Keys <= x.active.Keys
  {
  }

  lemma {:induction false} ReleasedIsFinal(states: seq<Executor>, events: seq<Event>, i: nat, j: nat)
    requires Run(states, events) && i <= j < |states|
    ensures states[i].latch ==> states[j].latch
    ensures Released(states[i]) ==> Released(states[j])
  {
    if i < j {
      ReleasedIsFinal(states, events, i, j - 1);
      assert Follows(states[j - 1], events[j - 1], states[j]);
      if states[i].latch {
        LatchedOnlyShrinks(states[j - 1], events[j - 1]);
      }
    }
  }

  /** Once a shutdown has answered true, nothing is owned, in that state and in every later one. */
  lemma SuccessfulShutdownIsFinal(states: seq<Executor>, events: seq<Event>, i: nat, j: nat, c: nat)
    requires Reached(states, events, j) && i <= j
    requires CleanerAt(states[i], c, Answered(true)) && states[i].cleaners[c].only.None?
    ensures Released(states[j])
  {
    ReachedInvariant(states, events, i);
    assert CleanerOk(states[i], Confirmed(states, events, i), states[i].cleaners[c]);
    ReleasedIsFinal(states, events, i, j);
  }
}
