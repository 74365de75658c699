/** What a request is told when it fails, and that it is told the truth. */
module RpcErrors {
  import opened Prelude
  import opened RpcProtocol
  import opened RpcCorrelation

  ghost predicate Happened(events: seq<Event>, i: nat, e: Event) {
    exists j :: 0 <= j < i <= |events| && events[j] == e
  }

  /** The request was refused because 128 others were pending. */
  ghost predicate RefusedAtTheDoor(states: seq<Connection>, events: seq<Event>, i: nat, n: nat)
    requires i <= |events| <= |states|
  {
    exists j :: 0 <= j < i && events[j] == CallerRegisters(n) && |states[j].pending| >= 128
  }

  /** The pending requests were failed while this one was among them. */
  ghost predicate LostWhilePending(states: seq<Connection>, events: seq<Event>, i: nat, n: nat)
    requires i <= |events| <= |states|
  {
    exists j :: 0 <= j < i && (events[j] == ReaderFails || events[j] == PendingFailed) && IdOf(n) in states[j].pending
  }

  /** The error a request ends with, or is about to end with, says what happened to it. */
  ghost predicate Told(states: seq<Connection>, events: seq<Event>, i: nat, n: nat, error: RequestError)
    requires i <= |events| <= |states|
  {
    match error
    case Timeout => Happened(events, i, CallerTimesOut(n))
    case Overloaded => Happened(events, i, CallerSends(n, false)) || RefusedAtTheDoor(states, events, i, n)
    case ConnectionLost => LostWhilePending(states, events, i, n)
    case Server(_) => PeerAnswered(events, i, IdOf(n), Err(error))
  }

  ghost predicate CallerTold(states: seq<Connection>, events: seq<Event>, i: nat, n: nat)
    requires i <= |events| < |states| && n < |states[i].callers|
  {
    var caller := states[i].callers[n];
    && (caller.place.GivingUp? ==> Told(states, events, i, n, caller.place.error))
    && (caller.mailbox == Some(Lost) ==> LostWhilePending(states, events, i, n))
    && (caller.place.Done? && caller.place.result.Err? ==> Told(states, events, i, n, caller.place.result.error))
  }

  // ----- one step -----------------------------------------------------------------------------------------

  lemma DrawnFresh(c: Connection, e: Event, n: nat)
    requires Enabled(c, e) && |c.callers| <= n < |Step(c, e).callers|
    ensures Step(c, e).callers[n] == Caller(Drawn, None)
  {
  }

  lemma GivingUpBecause(c: Connection, e: Event, n: nat)
    requires Enabled(c, e) && n < |c.callers| && n < |Step(c, e).callers| && Step(c, e).callers[n].place.GivingUp?
    ensures var error := Step(c, e).callers[n].place.error;
            || c.callers[n].place == GivingUp(error)
            || (e == CallerTimesOut(n) && error == Timeout)
            || (e == CallerSends(n, false) && error == Overloaded)
  {
    hide Window, IdOf;
  }

  lemma LostBecause(c: Connection, e: Event, n: nat)
    requires Enabled(c, e) && n < |c.callers| && n < |Step(c, e).callers| && Step(c, e).callers[n].mailbox == Some(Lost)
    ensures || c.callers[n].mailbox == Some(Lost)
            || ((e == ReaderFails || e == PendingFailed) && IdOf(n) in c.pending)
  {
    hide Window, IdOf;
  }

  lemma DoneBecause(c: Connection, e: Event, n: nat)
    requires Enabled(c, e) && n < |c.callers| && n < |Step(c, e).callers|
    requires Step(c, e).callers[n].place.Done? && Step(c, e).callers[n].place.result.Err?
    ensures var error := Step(c, e).callers[n].place.result.error;
            || c.callers[n].place == Done(Err(error))
            || (e == CallerRegisters(n) && |c.pending| >= 128 && error == Overloaded)
            || c.callers[n].place == GivingUp(error)
            || (c.callers[n].mailbox == Some(Lost) && error == ConnectionLost)
            || c.callers[n].mailbox == Some(Answered(Err(error)))
  {
    hide Window, IdOf;
  }

  // ----- over runs ----------------------------------------------------------------------------------------

  lemma StillTold(states: seq<Connection>, events: seq<Event>, i: nat, n: nat, error: RequestError)
    requires 0 < i <= |events| < |states| && Told(states, events, i - 1, n, error)
    ensures Told(states, events, i, n, error)
  {
  }

  lemma StillLost(states: seq<Connection>, events: seq<Event>, i: nat, n: nat)
    requires 0 < i <= |events| < |states| && LostWhilePending(states, events, i - 1, n)
    ensures LostWhilePending(states, events, i, n)
  {
  }

  /** An answer that came from the peer is never a local error. */
  lemma PeerTells(states: seq<Connection>, events: seq<Event>, i: nat, n: nat, error: RequestError)
    requires RpcCorrelation.Run(states, events) && i <= |events| && PeerAnswered(events, i, IdOf(n), Err(error))
    ensures Told(states, events, i, n, error)
  {
    var j :| 0 <= j < i && j < |events| && events[j] == ReaderTakes(IdOf(n), Err(error));
    assert Follows(states[j], events[j], states[j + 1]);
  }

  lemma StepTells(states: seq<Connection>, events: seq<Event>, i: nat, n: nat)
    requires 0 < i && Reached(states, events, i) && n < |states[i].callers|
    requires n < |states[i - 1].callers| ==> CallerTold(states, events, i - 1, n)
    ensures CallerTold(states, events, i, n)
  {
    var c, e := states[i - 1], events[i - 1];
    assert Follows(c, e, states[i]);
    CallersGrow(c, e);
    LettersComeFromPeer(states, events, i - 1);
    hide Step, Enabled, Told, LostWhilePending, PeerAnswered;
    if n >= |c.callers| {
      DrawnFresh(c, e, n);
    } else {
      var caller := states[i].callers[n];
      if caller.place.GivingUp? {
        GivingUpBecause(c, e, n);
        if c.callers[n].place == caller.place {
          StillTold(states, events, i, n, caller.place.error);
        } else {
          JustTold(states, events, i, n, caller.place.error);
        }
      }
      if caller.mailbox == Some(Lost) {
        LostBecause(c, e, n);
        if c.callers[n].mailbox == Some(Lost) {
          StillLost(states, events, i, n);
        } else {
          JustLost(states, events, i, n);
        }
      }
      if caller.place.Done? && caller.place.result.Err? {
        DoneTells(states, events, i, n, caller.place.result.error);
      }
    }
  }

  lemma JustTold(states: seq<Connection>, events: seq<Event>, i: nat, n: nat, error: RequestError)
    requires 0 < i <= |events| < |states|
    requires || (events[i - 1] == CallerTimesOut(n) && error == Timeout)
             || (events[i - 1] == CallerSends(n, false) && error == Overloaded)
             || (events[i - 1] == CallerRegisters(n) && |states[i - 1].pending| >= 128 && error == Overloaded)
    ensures Told(states, events, i, n, error)
  {
  }

  lemma JustLost(states: seq<Connection>, events: seq<Event>, i: nat, n: nat)
    requires 0 < i <= |events| < |states|
    requires (events[i - 1] == ReaderFails || events[i - 1] == PendingFailed) && IdOf(n) in states[i - 1].pending
    ensures LostWhilePending(states, events, i, n)
  {
  }

  lemma DoneTells(states: seq<Connection>, events: seq<Event>, i: nat, n: nat, error: RequestError)
    requires 0 < i && Reached(states, events, i) && n < |states[i - 1].callers| && n < |states[i].callers|
    requires CallerTold(states, events, i - 1, n)
    requires states[i].callers[n].place == Done(Err(error))
    ensures Told(states, events, i, n, error)
  {
    var c, e := states[i - 1], events[i - 1];
    assert Follows(c, e, states[i]);
    CallersGrow(c, e);
    DoneBecause(c, e, n);
    hide Step, Enabled, IdOf;
    if e == CallerRegisters(n) && |c.pending| >= 128 && error == Overloaded {
      JustTold(states, events, i, n, error);
    } else if c.callers[n].place == Done(Err(error)) || c.callers[n].place == GivingUp(error) {
      StillTold(states, events, i, n, error);
    } else if c.callers[n].mailbox == Some(Lost) && error == ConnectionLost {
      StillLost(states, events, i, n);
    } else {
      LettersComeFromPeer(states, events, i - 1);
      PeerTells(states, events, i - 1, n, error);
      StillTold(states, events, i, n, error);
    }
  }

  /**
   * A request that failed is told why: its time ran out, the writer's queue was full or 128 requests were pending when it
   * came, the connection was lost while it was pending, or the peer sent that error under its id.
   */
  lemma {:induction false} ErrorsMeanWhatTheySay(states: seq<Connection>, events: seq<Event>, i: nat, n: nat)
    requires Reached(states, events, i) && n < |states[i].callers|
    ensures CallerTold(states, events, i, n)
  {
    if i > 0 {
      assert Follows(states[i - 1], events[i - 1], states[i]);
      CallersGrow(states[i - 1], events[i - 1]);
      hide Step, Enabled, Told, CallerTold;
      if n < |states[i - 1].callers| {
        ErrorsMeanWhatTheySay(states, events, i - 1, n);
      }
      StepTells(states, events, i, n);
    }
  }

  /** A request is refused exactly when 128 are pending; otherwise it becomes pending under its own id. */
  lemma RefusedExactlyWhenFull(states: seq<Connection>, events: seq<Event>, i: nat, n: nat)
    requires Reached(states, events, i) && i < |events| && events[i] == CallerRegisters(n)
    ensures n < |states[i].callers| && n < |states[i + 1].callers|
    ensures var c, c' := states[i], states[i + 1];
            if |c.pending| == 128 then c'.callers[n].place == Done(Err(Overloaded)) && c'.pending == c.pending
            else c'.callers[n].place == Registered && c'.pending == c.pending[n + 1 := n]
  {
    ReachedInvariant(states, events, i);
    assert Follows(states[i], events[i], states[i + 1]);
  }
}
