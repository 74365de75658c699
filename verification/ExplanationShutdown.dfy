/**
 * The controller and its executor side by side. `shutdown_converged` looks at one after the other, with other steps in
 * between; its verdict still holds afterwards.
 */
module ExplanationShutdown {
  import opened Prelude
  import Model = ExplanationModel
  import System = ExplanationSystem
  import Runs = ExplanationRuns
  import Safety = ExplanationSafety
  import Executor = SupportExecutor
  import Ownership = SupportOwnership

  datatype Joint = Joint(controller: System.System, executor: Executor.Executor)

  /** Either side moves; the other stands still. */
  datatype Event = Controls(control: System.Event) | Executes(execution: Executor.Event)

  ghost predicate Follows(limits: Model.Limits, s: Joint, e: Event, s': Joint) {
    match e
    case Controls(control) => System.Follows(limits, s.controller, control, s'.controller) && s'.executor == s.executor
    case Executes(execution) => Ownership.Follows(s.executor, execution, s'.executor) && s'.controller == s.controller
  }

  ghost predicate Run(limits: Model.Limits, states: seq<Joint>, events: seq<Event>) {
    && |states| == |events| + 1
    && limits.cacheLimit >= 1
    && System.Initial(states[0].controller) && Ownership.Initial(states[0].executor)
    && forall i :: 0 <= i < |events| ==> Follows(limits, states[i], events[i], states[i + 1])
  }

  ghost predicate Sound(limits: Model.Limits, s: Joint) {
    && System.SystemInv(limits, s.controller)
    && exists confirmed :: Ownership.Inv(s.executor, confirmed)
  }

  lemma {:induction false} RunIsSound(limits: Model.Limits, states: seq<Joint>, events: seq<Event>, i: nat)
    requires Run(limits, states, events) && i < |states|
    ensures Sound(limits, states[i])
  {
    if i == 0 {
      Runs.InitialHolds(limits, states[0].controller);
      assert Ownership.Inv(states[0].executor, {});
    } else {
      RunIsSound(limits, states, events, i - 1);
      assert Follows(limits, states[i - 1], events[i - 1], states[i]);
      SoundStep(limits, states[i - 1], events[i - 1], states[i]);
    }
  }

  lemma SoundStep(limits: Model.Limits, s: Joint, e: Event, s': Joint)
    requires Sound(limits, s) && Follows(limits, s, e, s') && limits.cacheLimit >= 1
    ensures Sound(limits, s')
  {
    var confirmed :| Ownership.Inv(s.executor, confirmed);
    match e
    case Controls(control) => Runs.StepKeepsInvariant(limits, s.controller, control);
    case Executes(execution) => Ownership.StepKeeps(s.executor, confirmed, execution);
  }

  /**
   * The moments a `shutdown_converged` that returns true looks at: it began shutdown at `begin`, its executor shutdown
   * had answered true by `answered`, it saw no owned execution at `owned`, and it read the controller at `read`.
   */
  ghost predicate Converged(
    limits: Model.Limits, states: seq<Joint>, events: seq<Event>, begin: nat, answered: nat, owned: nat, read: nat, cleaner: nat)
  {
    && Run(limits, states, events)
    && begin < answered <= owned <= read < |states|
    && events[begin].Controls? && events[begin].control.ShutdownBegins?
    && Executor.CleanerAt(states[answered].executor, cleaner, Executor.Answered(true))
    && states[answered].executor.cleaners[cleaner].only.None?
    && states[owned].executor.active == map[]
    && var d := states[read].controller.data;
    d.queue == [] && d.active.None? && !d.workerRunning
  }

  /** Nothing is queued, active, running or owned, and neither side lets anything new in. */
  ghost predicate Quiet(s: Joint) {
    Safety.Stopped(s.controller) && Ownership.Released(s.executor)
  }

  ghost predicate Closed(s: Joint) {
    s.controller.data.shuttingDown
  }

  lemma StepStaysClosed(limits: Model.Limits, s: Joint, e: Event, s': Joint)
    requires Sound(limits, s) && Follows(limits, s, e, s') && limits.cacheLimit >= 1
    ensures Closed(s) ==> Closed(s')
    ensures Ownership.Released(s.executor) ==> Ownership.Released(s'.executor)
    ensures Safety.Stopped(s.controller) ==> Safety.Stopped(s'.controller)
  {
    match e
    case Controls(control) =>
      if Closed(s) {
        Safety.StepKeepsShutdown(limits, s.controller, control);
      }
    case Executes(execution) =>
      if s.executor.latch {
        Ownership.LatchedOnlyShrinks(s.executor, execution);
      }
  }

  lemma {:induction false} StaysClosed(limits: Model.Limits, states: seq<Joint>, events: seq<Event>, i: nat, j: nat)
    requires Run(limits, states, events) && i <= j < |states|
    ensures Closed(states[i]) ==> Closed(states[j])
    ensures Ownership.Released(states[i].executor) ==> Ownership.Released(states[j].executor)
    ensures Safety.Stopped(states[i].controller) ==> Safety.Stopped(states[j].controller)
  {
    hide Sound, Closed, Follows, Safety.Stopped, Ownership.Released;
    if i < j {
      StaysClosed(limits, states, events, i, j - 1);
      RunIsSound(limits, states, events, j - 1);
      assert Follows(limits, states[j - 1], events[j - 1], states[j]);
      StepStaysClosed(limits, states[j - 1], events[j - 1], states[j]);
    }
  }

  lemma AnsweredReleases(limits: Model.Limits, s: Joint, cleaner: nat)
    requires Sound(limits, s)
    requires Executor.CleanerAt(s.executor, cleaner, Executor.Answered(true)) && s.executor.cleaners[cleaner].only.None?
    ensures Ownership.Released(s.executor)
  {
    var confirmed :| Ownership.Inv(s.executor, confirmed);
    assert Ownership.CleanerOk(s.executor, confirmed, s.executor.cleaners[cleaner]);
  }

  /** When `shutdown_converged` returns true, everything is quiet at its last look and in every later state. */
  lemma ConvergedIsFinal(
    limits: Model.Limits, states: seq<Joint>, events: seq<Event>, begin: nat, answered: nat, owned: nat, read: nat,
    cleaner: nat, j: nat)
    requires Converged(limits, states, events, begin, answered, owned, read, cleaner) && read <= j < |states|
    ensures Quiet(states[read]) && Quiet(states[j])
  {
    assert Follows(limits, states[begin], events[begin], states[begin + 1]);
    StaysClosed(limits, states, events, begin + 1, read);
    RunIsSound(limits, states, events, answered);
    AnsweredReleases(limits, states[answered], cleaner);
    StaysClosed(limits, states, events, answered, read);
    RunIsSound(limits, states, events, read);
    StaysClosed(limits, states, events, read, j);
  }

  /** After `begin_shutdown` the controller half of the verdict says exactly that no worker runs. */
  lemma WorkerGoneMeansStopped(limits: Model.Limits, states: seq<Joint>, events: seq<Event>, begin: nat, j: nat)
    requires Run(limits, states, events) && begin < j < |states|
    requires events[begin].Controls? && events[begin].control.ShutdownBegins?
    ensures Safety.Stopped(states[j].controller) <==> !states[j].controller.data.workerRunning
  {
    assert Follows(limits, states[begin], events[begin], states[begin + 1]);
    StaysClosed(limits, states, events, begin + 1, j);
    RunIsSound(limits, states, events, j);
  }
}
