/**
 * Ownership of isolated support executions. The callers of `execute`, the spawned tasks and the cleaners
 * (`cancel`, `shutdown`, `force_shutdown_now`) interleave; each event is one critical section or one wait that ends.
 *
 * What a runtime does is an oracle: it may construct or fail, and every cleanup may converge or not. Cancel and force
 * flags only steer those answers and are left to the oracle.
 */
module SupportExecutor {
  import opened Prelude

  type Id = nat

  datatype Key = Key(requestId: Id, generation: nat)

  datatype Phase = Constructing | Running | Unconverged | Terminal

  /** `pending` is a cleanup kept for later; without one the cleanup has converged. */
  datatype Outcome = Outcome(converged: bool, pending: bool)

  /** Where the caller of `execute` is. It may be dropped before it enters and after it started its task. */
  datatype Caller = Drawn | Refused | Entered | Slotted | Started | Returned | Dropped

  /** Where the spawned task is. */
  datatype TaskPlace =
    | Unstarted
    | Preparing
    | Constructed
    | Explaining
    | Publishing(outcome: Outcome)
    | Announcing(outcome: Outcome)
    | Ending
    | Finished

  datatype Process = Process(
    requestId: Id, caller: Caller, inserted: bool, slot: bool, notified: bool, task: TaskPlace, outcome: Option<Outcome>)

  /** What a cleaner took from the map under the lock. */
  datatype Snapshot = Snapshot(key: Key, phase: Phase)

  datatype CleanerPlace =
    | Called
    | Latched
    | Stopping
    | Waiting(immediate: Option<bool>)
    | Joined(immediate: Option<bool>, outcome: Outcome)
    | Deciding(converges: bool)
    | Answered(answer: bool)

  /** `only` restricts `cancel` to one request id; a cleaner without it is a shutdown and sets the latch. */
  datatype Cleaner = Cleaner(only: Option<Id>, place: CleanerPlace, todo: seq<Snapshot>, converged: bool)

  datatype Executor = Executor(
    nextGeneration: nat, latch: bool, active: map<Key, Phase>, processes: map<nat, Process>, cleaners: map<nat, Cleaner>)

  datatype Event =
    | CallerDraws(requestId: Id)
    | CallerEnters(g: nat)
    | CallerSlots(g: nat)
    | CallerStarts(g: nat)
    | CallerReturns(g: nat)
    | CallerDropped(g: nat)
    | TaskWakes(g: nat)
    | TaskEnds(g: nat, outcome: Outcome)
    | TaskConstructs(g: nat)
    | TaskRegisters(g: nat, outcome: Outcome)
    | TaskPublishes(g: nat)
    | TaskAnnounces(g: nat)
    | TaskFinishes(g: nat)
    | CleanerCalled(c: nat, only: Option<Id>)
    | CleanerLatches(c: nat)
    | CleanerSnapshots(c: nat, todo: seq<Snapshot>)
    | CleanerStops(c: nat, immediate: Option<bool>)
    | CleanerJoins(c: nat)
    | CleanerReadsPhase(c: nat, late: Option<bool>)
    | CleanerRemoves(c: nat)
    | CleanerAnswers(c: nat)

  function KeyOf(x: Executor, g: nat): Key
    requires g in x.processes
  {
    Key(x.processes[g].requestId, g)
  }

  /** A cleanup runs only for a phase that has something to clean. */
  predicate StopAnswers(phase: Phase, answer: Option<bool>) {
    answer.Some? <==> phase == Running || phase == Unconverged
  }

  /** The snapshot lists the selected entries, each once, in some order. */
  ghost predicate Snapshots(active: map<Key, Phase>, only: Option<Id>, todo: seq<Snapshot>) {
    && (forall i :: 0 <= i < |todo| ==> todo[i].key in active && active[todo[i].key] == todo[i].phase
                                        && (only.Some? ==> todo[i].key.requestId == only.value))
    && (forall k :: k in active && (only.Some? ==> k.requestId == only.value) ==> Listed(todo, k))
  }

  ghost predicate Listed(todo: seq<Snapshot>, k: Key) {
    exists i :: 0 <= i < |todo| && todo[i].key == k
  }

  predicate CallerAt(x: Executor, g: nat, caller: Caller) {
    g in x.processes && x.processes[g].caller == caller
  }

  predicate TaskAt(x: Executor, g: nat, task: TaskPlace) {
    g in x.processes && x.processes[g].task == task
  }

  predicate CleanerAt(x: Executor, c: nat, place: CleanerPlace) {
    c in x.cleaners && x.cleaners[c].place == place
  }

  predicate Working(x: Executor, c: nat) {
    c in x.cleaners && x.cleaners[c].todo != [] && x.cleaners[c].todo[0].key.generation in x.processes
  }

  function HeadProcess(x: Executor, c: nat): Process
    requires Working(x, c)
  {
    x.processes[x.cleaners[c].todo[0].key.generation]
  }

  ghost predicate Enabled(x: Executor, e: Event) {
    match e
    case CallerDraws(_) => true
    case CallerEnters(g) => CallerAt(x, g, Drawn)
    case CallerSlots(g) => CallerAt(x, g, Entered)
    case CallerStarts(g) => CallerAt(x, g, Slotted)
    case CallerReturns(g) =>
      CallerAt(x, g, Started) && x.processes[g].outcome.Some? && x.processes[g].task == Finished
    case CallerDropped(g) => CallerAt(x, g, Drawn) || CallerAt(x, g, Started)
    case TaskWakes(g) => TaskAt(x, g, Unstarted) && x.processes[g].notified
    case TaskEnds(g, outcome) =>
      (TaskAt(x, g, Preparing) && (!outcome.pending ==> outcome.converged))
      || (TaskAt(x, g, Explaining) && outcome.pending == !outcome.converged)
    case TaskConstructs(g) => TaskAt(x, g, Preparing)
    case TaskRegisters(g, outcome) => TaskAt(x, g, Constructed) && outcome.pending == !outcome.converged
    case TaskPublishes(g) => g in x.processes && x.processes[g].task.Publishing?
    case TaskAnnounces(g) => g in x.processes && x.processes[g].task.Announcing?
    case TaskFinishes(g) => TaskAt(x, g, Ending)
    case CleanerCalled(c, _) => c !in x.cleaners
    case CleanerLatches(c) => CleanerAt(x, c, Called)
    case CleanerSnapshots(c, todo) => CleanerAt(x, c, Latched) && Snapshots(x.active, x.cleaners[c].only, todo)
    case CleanerStops(c, immediate) =>
      CleanerAt(x, c, Stopping) && Working(x, c) && StopAnswers(x.cleaners[c].todo[0].phase, immediate)
    case CleanerJoins(c) =>
      && Working(x, c) && x.cleaners[c].place.Waiting?
      && HeadProcess(x, c).outcome.Some?
      && (HeadProcess(x, c).slot ==> HeadProcess(x, c).task == Finished)
    case CleanerReadsPhase(c, late) =>
      && Working(x, c) && x.cleaners[c].place.Joined?
      && var k := x.cleaners[c].todo[0].key;
      if x.cleaners[c].place.immediate.None? && k in x.active then StopAnswers(x.active[k], late) else late.None?
    case CleanerRemoves(c) => Working(x, c) && x.cleaners[c].place.Deciding?
    case CleanerAnswers(c) => CleanerAt(x, c, Stopping) && x.cleaners[c].todo == []
  }

  function WithProcess(x: Executor, g: nat, p: Process): Executor {
    x.(processes := x.processes[g := p])
  }

  function WithCleaner(x: Executor, c: nat, cleaner: Cleaner): Executor {
    x.(cleaners := x.cleaners[c := cleaner])
  }

  function CallerStep(x: Executor, g: nat, e: Event): Executor
    requires g in x.processes
  {
    var p := x.processes[g];
    match e
    case CallerEnters(_) =>
      if x.latch then WithProcess(x, g, p.(caller := Refused))
      else x.(active := x.active[KeyOf(x, g) := Constructing],
           processes := x.processes[g := p.(caller := Entered, inserted := true)])
    case CallerSlots(_) => WithProcess(x, g, p.(caller := Slotted, slot := KeyOf(x, g) in x.active))
    case CallerStarts(_) => WithProcess(x, g, p.(caller := Started, notified := true))
    case CallerReturns(_) =>
      x.(active := if p.outcome.Some? && p.outcome.value.converged then x.active - {KeyOf(x, g)} else x.active,
      processes := x.processes[g := p.(caller := Returned)])
    case _ => WithProcess(x, g, p.(caller := Dropped))
  }

  function TaskStep(x: Executor, g: nat, e: Event): Executor
    requires g in x.processes
  {
    var p := x.processes[g];
    var k := KeyOf(x, g);
    match e
    case TaskWakes(_) => WithProcess(x, g, p.(task := Preparing))
    case TaskEnds(_, outcome) => WithProcess(x, g, p.(task := Publishing(outcome)))
    case TaskConstructs(_) => WithProcess(x, g, p.(task := Constructed))
    case TaskRegisters(_, outcome) =>
      if k in x.active then x.(active := x.active[k := Running], processes := x.processes[g := p.(task := Explaining)])
      else WithProcess(x, g, p.(task := Publishing(outcome)))
    case TaskPublishes(_) =>
      if p.task.Publishing? then
        var phase := if p.task.outcome.pending then Unconverged else Terminal;
        x.(active := if k in x.active then x.active[k := phase] else x.active,
        processes := x.processes[g := p.(task := Announcing(p.task.outcome))])
      else x
    case TaskAnnounces(_) =>
      if p.task.Announcing? then WithProcess(x, g, p.(task := Ending, outcome := Some(p.task.outcome))) else x
    case _ => WithProcess(x, g, p.(task := Finished))
  }

  function CleanerStep(x: Executor, c: nat, e: Event): Executor
    requires c in x.cleaners
  {
    var cleaner := x.cleaners[c];
    match e
    case CleanerLatches(_) =>
      x.(latch := x.latch || cleaner.only.None?, cleaners := x.cleaners[c := cleaner.(place := Latched)])
    case CleanerSnapshots(_, todo) =>
      if cleaner.only.Some? && todo == [] then WithCleaner(x, c, cleaner.(place := Answered(false)))
      else WithCleaner(x, c, cleaner.(place := Stopping, todo := todo))
    case CleanerStops(_, immediate) => WithCleaner(x, c, cleaner.(place := Waiting(immediate)))
    case CleanerJoins(_) =>
      if Working(x, c) && cleaner.place.Waiting? && HeadProcess(x, c).outcome.Some?
      then WithCleaner(x, c, cleaner.(place := Joined(cleaner.place.immediate, HeadProcess(x, c).outcome.value))) else x
    case CleanerReadsPhase(_, late) =>
      if cleaner.place.Joined? then
        var place := cleaner.place;
        WithCleaner(x, c, cleaner.(place := Deciding(place.outcome.converged || place.immediate == Some(true) || late == Some(true))))
      else x
    case CleanerRemoves(_) =>
      if cleaner.place.Deciding? && cleaner.todo != [] then
        x.(active := if cleaner.place.converges then x.active - {cleaner.todo[0].key} else x.active,
        cleaners := x.cleaners[c := cleaner.(place := Stopping, todo := cleaner.todo[1..],
                                             converged := cleaner.converged && cleaner.place.converges)])
      else x
    case _ => WithCleaner(x, c, cleaner.(place := Answered(cleaner.converged)))
  }

  ghost function Step(x: Executor, e: Event): Executor
    requires Enabled(x, e)
  {
    if e.CallerDraws? then
      x.(nextGeneration := x.nextGeneration + 1,
      processes := x.processes[x.nextGeneration := Process(e.requestId, Drawn, false, false, false, Unstarted, None)])
    else if e.CleanerCalled? then WithCleaner(x, e.c, Cleaner(e.only, Called, [], true))
    else if e.CallerEnters? || e.CallerSlots? || e.CallerStarts? || e.CallerReturns? || e.CallerDropped? then CallerStep(x, e.g, e)
    else if e.CleanerLatches? || e.CleanerSnapshots? || e.CleanerStops? || e.CleanerJoins? || e.CleanerReadsPhase?
            || e.CleanerRemoves? || e.CleanerAnswers? then CleanerStep(x, e.c, e)
    else TaskStep(x, e.g, e)
  }
}
