/**
 * The map of owned executions as the object the executor keeps behind its lock. Each method is one locked section and
 * refines the event of the same name of the ownership protocol, given as a ghost argument the executor it belongs to.
 */
module SupportTables {
  import opened Prelude
  import S = SupportExecutor

  class Tables {
    var nextGeneration: nat
    var latch: bool
    var active: map<S.Key, S.Phase>

    constructor ()
      ensures Shows(S.Executor(1, false, map[], map[], map[]))
    {
      nextGeneration, latch, active := 1, false, map[];
    }

    ghost predicate Shows(x: S.Executor)
      reads this
    {
      nextGeneration == x.nextGeneration && latch == x.latch && active == x.active
    }

    method Draw(requestId: S.Id, ghost x: S.Executor) returns (key: S.Key)
      requires Shows(x)
      modifies this`nextGeneration
      ensures key == S.Key(requestId, x.nextGeneration)
      ensures Shows(S.Step(x, S.CallerDraws(requestId)))
    {
      key := S.Key(requestId, nextGeneration);
      nextGeneration := nextGeneration + 1;
    }

    /** The latch is read under the lock that guards the insertion. */
    method Enter(key: S.Key, ghost x: S.Executor) returns (entered: bool)
      requires Shows(x) && S.CallerAt(x, key.generation, S.Drawn) && S.KeyOf(x, key.generation) == key
      modifies this`active
      ensures Shows(S.Step(x, S.CallerEnters(key.generation)))
      ensures S.CallerAt(S.Step(x, S.CallerEnters(key.generation)), key.generation, if entered then S.Entered else S.Refused)
    {
      entered := !latch;
      if entered {
        active := active[key := S.Constructing];
      }
    }

    method Register(key: S.Key, ghost outcome: S.Outcome, ghost x: S.Executor) returns (registered: bool)
      requires Shows(x) && S.TaskAt(x, key.generation, S.Constructed) && S.KeyOf(x, key.generation) == key
      requires S.Enabled(x, S.TaskRegisters(key.generation, outcome))
      modifies this`active
      ensures Shows(S.Step(x, S.TaskRegisters(key.generation, outcome)))
      ensures registered == S.TaskAt(S.Step(x, S.TaskRegisters(key.generation, outcome)), key.generation, S.Explaining)
    {
      registered := key in active;
      if registered {
        active := active[key := S.Running];
      }
    }

    method Publish(key: S.Key, outcome: S.Outcome, ghost x: S.Executor)
      requires Shows(x) && S.TaskAt(x, key.generation, S.Publishing(outcome)) && S.KeyOf(x, key.generation) == key
      modifies this`active
      ensures Shows(S.Step(x, S.TaskPublishes(key.generation)))
    {
      if key in active {
        active := active[key := if outcome.pending then S.Unconverged else S.Terminal];
      }
    }

    /** The end of `execute`: a converged execution is given up, another one stays owned. */
    method Return(key: S.Key, outcome: S.Outcome, ghost x: S.Executor)
      requires Shows(x) && S.Enabled(x, S.CallerReturns(key.generation)) && S.KeyOf(x, key.generation) == key
      requires x.processes[key.generation].outcome == Some(outcome)
      modifies this`active
      ensures Shows(S.Step(x, S.CallerReturns(key.generation)))
    {
      if outcome.converged {
        active := active - {key};
      }
    }

    method Latch(c: nat, ghost x: S.Executor)
      requires Shows(x) && S.CleanerAt(x, c, S.Called) && x.cleaners[c].only.None?
      modifies this`latch
      ensures Shows(S.Step(x, S.CleanerLatches(c)))
    {
      latch := true;
    }

    /** Lists the selected executions, each once. */
    method TakeSnapshot(only: Option<S.Id>) returns (todo: seq<S.Snapshot>)
      ensures S.Snapshots(active, only, todo)
      ensures forall i, j :: 0 <= i < j < |todo| ==> todo[i].key != todo[j].key
    {
      todo := [];
      var remaining := active.Keys;
      while remaining != {}
        invariant remaining <= active.Keys
        invariant forall i :: 0 <= i < |todo| ==> Selected(active, only, todo[i]) && todo[i].key !in remaining
        invariant forall i, j :: 0 <= i < j < |todo| ==> todo[i].key != todo[j].key
        invariant forall k :: k in active && k !in remaining && (only.Some? ==> k.requestId == only.value) ==> S.Listed(todo, k)
        decreases |remaining|
      {
        var key :| key in remaining;
        remaining := remaining - {key};
        if only.None? || key.requestId == only.value {
          ghost var before := todo;
          todo := todo + [S.Snapshot(key, active[key])];
          ListedMore(before, todo[|before|]);
        }
      }
    }

    method Remove(key: S.Key, converged: bool, c: nat, ghost x: S.Executor)
      requires Shows(x) && S.Enabled(x, S.CleanerRemoves(c)) && x.cleaners[c].place == S.Deciding(converged)
      requires x.cleaners[c].todo[0].key == key
      modifies this`active
      ensures Shows(S.Step(x, S.CleanerRemoves(c)))
    {
      if converged && key in active {
        active := active - {key};
      }
    }
  }

  ghost predicate Selected(active: map<S.Key, S.Phase>, only: Option<S.Id>, item: S.Snapshot) {
    && item.key in active && active[item.key] == item.phase
    && (only.Some? ==> item.key.requestId == only.value)
  }

  lemma ListedMore(todo: seq<S.Snapshot>, item: S.Snapshot)
    ensures forall k :: S.Listed(todo, k) || k == item.key ==> S.Listed(todo + [item], k)
  {
    var more := todo + [item];
    assert more[|todo|] == item;
    forall k | S.Listed(todo, k) ensures S.Listed(more, k) {
      var i :| 0 <= i < |todo| && todo[i].key == k;
      assert more[i].key == k;
    }
  }
}
