/** What holds in every run of an RPC connection with fewer than 2^64 requests. */
module RpcCorrelation {
  import opened Prelude
  import opened RpcProtocol

  ghost predicate Follows(c: Connection, e: Event, c': Connection) {
    Enabled(c, e) && c' == Step(c, e)
  }

  ghost predicate Run(states: seq<Connection>, events: seq<Event>) {
    && |states| == |events| + 1
    && forall i :: 0 <= i < |events| ==> Follows(states[i], events[i], states[i + 1])
  }

  const START := Connection([], map[], [], Reading, [])

  ghost predicate Reached(states: seq<Connection>, events: seq<Event>, i: nat) {
    Run(states, events) && states[0] == START && i < |states| && |states[i].callers| < ID_SPACE
  }

  lemma CallersGrow(c: Connection, e: Event)
    requires Enabled(c, e)
    ensures |c.callers| <= |Step(c, e).callers|
  {
  }

  lemma {:induction false} ReachedInvariant(states: seq<Connection>, events: seq<Event>, i: nat)
    requires Reached(states, events, i)
    ensures Inv(states[i])
  {
    hide Step, Enabled;
    if i > 0 {
      assert Follows(states[i - 1], events[i - 1], states[i]);
      CallersGrow(states[i - 1], events[i - 1]);
      ReachedInvariant(states, events, i - 1);
      StepKeeps(states[i - 1], events[i - 1]);
    }
  }

  // ----- correlation --------------------------------------------------------------------------------------

  /** No id is drawn twice; the 2^64-th later request would be the first to repeat one. */
  lemma IdsAreNeverReused(states: seq<Connection>, events: seq<Event>, i: nat, m: nat, n: nat)
    requires Reached(states, events, i) && m < n < |states[i].callers|
    ensures IdOf(m) != IdOf(n) && IdOf(m + ID_SPACE) == IdOf(m)
  {
    IdsDiffer(m, n);
  }

  /** Pending and answered ids are disjoint, answered ids are distinct, and both tables stay within their bounds. */
  lemma AnsweredAtMostOnce(states: seq<Connection>, events: seq<Event>, i: nat)
    requires Reached(states, events, i)
    ensures var c := states[i];
            && Distinct(c.answered)
            && (forall id :: id in c.pending ==> id !in c.answered)
            && |c.pending| <= 128
            && |c.resolved| == Min(256, |c.answered|)
            && c.resolved == c.answered[|c.answered| - |c.resolved|..]
            && Distinct(c.resolved)
  {
    ReachedInvariant(states, events, i);
  }

  /** A response nobody waits for is reported as a duplicate exactly when its id is among the last 256 answered. */
  lemma DuplicatesAreRecognised(states: seq<Connection>, events: seq<Event>, i: nat, id: Id)
    requires Reached(states, events, i)
    ensures Category(states[i], id) == DuplicateResponse <==>
            exists k :: 0 <= k < |states[i].answered| && k + 256 >= |states[i].answered| && states[i].answered[k] == id
  {
    hide CallersOk, PendingOk;
    ReachedInvariant(states, events, i);
    InWindow(states[i].answered, id);
  }

  lemma InWindow(ids: seq<Id>, id: Id)
    ensures id in Window(ids) <==> exists k :: 0 <= k < |ids| && k + 256 >= |ids| && ids[k] == id
  {
    var cut := |ids| - |Window(ids)|;
    if id in Window(ids) {
      var j :| 0 <= j < |Window(ids)| && Window(ids)[j] == id;
      assert ids[cut + j] == id;
    }
    if exists k :: 0 <= k < |ids| && k + 256 >= |ids| && ids[k] == id {
      var k :| 0 <= k < |ids| && k + 256 >= |ids| && ids[k] == id;
      assert Window(ids)[k - cut] == id;
    }
  }

  /** Some event before the `i`-th state took the peer's response with this id and this answer. */
  ghost predicate PeerAnswered(events: seq<Event>, i: nat, id: Id, answer: Answer) {
    exists j :: 0 <= j < i && j < |events| && events[j] == ReaderTakes(id, answer)
  }

  lemma LossAnswersNothing(c: Connection, n: nat, answer: Answer)
    requires n < |c.callers| && AllLost(c).callers[n].mailbox == Some(Answered(answer))
    ensures c.callers[n].mailbox == Some(Answered(answer))
  {
  }

  lemma HeldAnswerArrives(c: Connection, n: nat, answer: Answer)
    requires PendingOk(c) && c.reader.Holding? && n < |c.callers|
    requires Step(c, ReaderAnswers).callers[n].mailbox == Some(Answered(answer))
    ensures c.callers[n].mailbox == Some(Answered(answer)) || c.reader == Holding(IdOf(n), n, answer)
  {
    hide Window, IdOf;
  }

  lemma OthersAnswerNothing(c: Connection, e: Event, n: nat, answer: Answer)
    requires Enabled(c, e) && e != ReaderAnswers && n < |Step(c, e).callers|
    requires Step(c, e).callers[n].mailbox == Some(Answered(answer))
    ensures n < |c.callers| && c.callers[n].mailbox == Some(Answered(answer))
  {
    hide Window, IdOf;
    if e.ReaderFails? || e.PendingFailed? {
      LossAnswersNothing(c, n, answer);
    }
    hide AllLost;
  }

  lemma AnswersComeFromReader(c: Connection, e: Event, n: nat, answer: Answer)
    requires Inv(c) && Enabled(c, e) && n < |Step(c, e).callers|
    requires Step(c, e).callers[n].mailbox == Some(Answered(answer))
    ensures n < |c.callers|
    ensures c.callers[n].mailbox == Some(Answered(answer)) || (e == ReaderAnswers && c.reader == Holding(IdOf(n), n, answer))
  {
    if e == ReaderAnswers {
      hide CallersOk, HistoryOk, Window, AllLost, IdOf;
      HeldAnswerArrives(c, n, answer);
    } else {
      hide Inv, Step, Enabled;
      OthersAnswerNothing(c, e, n, answer);
    }
  }

  lemma HoldingComesFromPeer(c: Connection, e: Event, id: Id, n: nat, answer: Answer)
    requires Enabled(c, e) && Step(c, e).reader == Holding(id, n, answer)
    ensures c.reader == Holding(id, n, answer) || e == ReaderTakes(id, answer)
  {
  }

  lemma {:induction false} LettersComeFromPeer(states: seq<Connection>, events: seq<Event>, i: nat)
    requires Reached(states, events, i)
    ensures states[i].reader.Holding? ==> PeerAnswered(events, i, states[i].reader.id, states[i].reader.answer)
    ensures forall n, answer :: 0 <= n < |states[i].callers| && states[i].callers[n].mailbox == Some(Answered(answer)) ==>
              PeerAnswered(events, i, IdOf(n), answer)
  {
    hide Step, Enabled, Inv;
    if i > 0 {
      var c, e := states[i - 1], events[i - 1];
      assert Follows(c, e, states[i]);
      CallersGrow(c, e);
      ReachedInvariant(states, events, i - 1);
      LettersComeFromPeer(states, events, i - 1);
      forall n, answer | 0 <= n < |states[i].callers| && states[i].callers[n].mailbox == Some(Answered(answer))
        ensures PeerAnswered(events, i, IdOf(n), answer)
      {
        AnswersComeFromReader(c, e, n, answer);
      }
      if states[i].reader.Holding? {
        HoldingComesFromPeer(c, e, states[i].reader.id, states[i].reader.caller, states[i].reader.answer);
      }
    }
  }

  /** A request that completes with a result or a server error got what the peer sent under that request's own id. */
  lemma PeerAnswersReachTheirCaller(states: seq<Connection>, events: seq<Event>, i: nat, n: nat, answer: Answer)
    requires Reached(states, events, i) && n < |states[i].callers| && states[i].callers[n].place == Done(answer)
    requires FromPeer(answer)
    ensures PeerAnswered(events, i, IdOf(n), answer) && IdOf(n) in states[i].answered
  {
    ReachedInvariant(states, events, i);
    CallerIsOk(states[i], n);
    LettersComeFromPeer(states, events, i);
  }

  // ----- after the reader has exited ----------------------------------------------------------------------

  /** Failing the pending requests reaches each of them and leaves none. */
  lemma FailureReachesEveryPending(c: Connection, n: nat)
    requires Inv(c) && n < |c.callers| && IsPending(c, n)
    ensures var c' := Step(c, PendingFailed);
            c'.pending == map[] && c'.callers[n] == Caller(c.callers[n].place, Some(Lost))
  {
  }

  /** The answer lies in the caller's channel and the caller is still there to receive it. */
  ghost predicate AnswerAwaits(c: Connection, n: nat, value: Value) {
    && n < |c.callers|
    && c.callers[n].mailbox == Some(Answered(Ok(value)))
    && (c.callers[n].place.Registered? || c.callers[n].place.Waiting?)
  }

  ghost predicate CompletesWith(c: Connection, n: nat, value: Value) {
    n < |c.callers| && c.callers[n].place == Done(Ok(value))
  }

  /** Some continuation of `c` lets request `n` complete with this value. */
  ghost predicate CanComplete(c: Connection, n: nat, value: Value) {
    exists states: seq<Connection>, events: seq<Event> ::
      Run(states, events) && states[0] == c && CompletesWith(states[|events|], n, value)
  }

  /** The reader is gone, the request has not completed with the value, and no such answer awaits it. */
  ghost predicate TooLate(c: Connection, n: nat, value: Value) {
    && c.reader.Exited?
    && !CompletesWith(c, n, value) && !AnswerAwaits(c, n, value)
    && (n < |c.callers| && c.callers[n].place.Drawn? ==> c.callers[n].mailbox != Some(Answered(Ok(value))))
  }

  lemma StaysTooLate(c: Connection, e: Event, n: nat, value: Value)
    requires Enabled(c, e) && TooLate(c, n, value)
    ensures TooLate(Step(c, e), n, value)
  {
  }

  lemma {:induction false} NeverCompletes(states: seq<Connection>, events: seq<Event>, i: nat, n: nat, value: Value)
    requires Run(states, events) && i < |states| && TooLate(states[0], n, value)
    ensures TooLate(states[i], n, value)
  {
    hide TooLate;
    if i > 0 {
      NeverCompletes(states, events, i - 1, n, value);
      assert Follows(states[i - 1], events[i - 1], states[i]);
      StaysTooLate(states[i - 1], events[i - 1], n, value);
    }
  }

  lemma AwaitedCompletes(c: Connection, n: nat, value: Value)
    requires AnswerAwaits(c, n, value)
    ensures CanComplete(c, n, value)
  {
    if c.callers[n].place.Waiting? {
      var states, events := [c, Step(c, CallerReceives(n))], [CallerReceives(n)];
      assert Follows(c, events[0], states[1]);
      assert Run(states, events) && CompletesWith(states[|events|], n, value);
    } else {
      var sent := Step(c, CallerSends(n, true));
      var states, events := [c, sent, Step(sent, CallerReceives(n))], [CallerSends(n, true), CallerReceives(n)];
      assert Follows(c, events[0], sent) && Follows(sent, events[1], states[2]);
      assert Run(states, events) && CompletesWith(states[|events|], n, value);
    }
  }

  /**
   * After the reader has exited, a request that is not complete can still complete with Ok exactly when its answer had
   * been delivered before and it has neither given up nor been dropped.
   */
  lemma OkAfterExitExactlyWhenDelivered(states: seq<Connection>, events: seq<Event>, i: nat, n: nat, value: Value)
    requires Reached(states, events, i) && states[i].reader.Exited? && n < |states[i].callers|
    requires !states[i].callers[n].place.Done?
    ensures CanComplete(states[i], n, value) <==> AnswerAwaits(states[i], n, value)
  {
    var c := states[i];
    if AnswerAwaits(c, n, value) {
      AwaitedCompletes(c, n, value);
    } else {
      ReachedInvariant(states, events, i);
      CallerIsOk(c, n);
      assert TooLate(c, n, value);
      forall more: seq<Connection>, steps: seq<Event> | Run(more, steps) && more[0] == c
        ensures !CompletesWith(more[|steps|], n, value)
      {
        NeverCompletes(more, steps, |steps|, n, value);
      }
    }
  }

  /** A request that starts after the reader has exited never completes with Ok. */
  lemma NoOkForLaterRequests(states: seq<Connection>, events: seq<Event>, i: nat, j: nat, n: nat, value: Value)
    requires Run(states, events) && i <= j < |states| && states[i].reader.Exited? && n >= |states[i].callers|
    ensures !CompletesWith(states[j], n, value)
  {
    assert TooLate(states[i], n, value);
    var tail, steps := states[i..], events[i..];
    forall k | 0 <= k < |steps| ensures Follows(tail[k], steps[k], tail[k + 1]) {
      assert Follows(states[i + k], events[i + k], states[i + k + 1]);
    }
    NeverCompletes(tail, steps, j - i, n, value);
  }

  /** "After the reader exits no request completes with Ok" fails: the answer may already lie in the channel. */
  lemma OkAfterExitHappens() returns (states: seq<Connection>, events: seq<Event>)
    ensures Run(states, events) && states[0] == START && |events| == 7
    ensures states[6].reader.Exited? && !CompletesWith(states[6], 0, 42) && CompletesWith(states[7], 0, 42)
  {
    var front, steps := UntilAnswered();
    var answered := front[5];
    var exited := Step(answered, ReaderReturns);
    var completed := Step(exited, CallerReceives(0));
    states, events := front + [exited, completed], steps + [ReaderReturns, CallerReceives(0)];
    assert Follows(states[5], events[5], states[6]) && Follows(states[6], events[6], states[7]);
    forall k | 0 <= k < |events| ensures Follows(states[k], events[k], states[k + 1]) {
      if k < 5 {
        assert Follows(front[k], steps[k], front[k + 1]);
      }
    }
  }

  /** A connection with one request, at some stage of it. */
  function One(place: Place, letter: Option<Letter>, pending: bool, reader: Reader): Connection {
    Connection([Caller(place, letter)], if pending then map[1 := 0] else map[], if letter.Some? then [1] else [], reader,
               if letter.Some? then [1] else [])
  }

  lemma OneIsSent()
    ensures Follows(START, CallerDraws, One(Drawn, None, false, Reading))
    ensures Follows(One(Drawn, None, false, Reading), CallerRegisters(0), One(Registered, None, true, Reading))
    ensures Follows(One(Registered, None, true, Reading), CallerSends(0, true), One(Waiting, None, true, Reading))
  {
    hide AllLost, Window, Delivered;
    assert IdOf(0) == 1;
  }

  lemma OneIsTaken(answer: Answer)
    requires FromPeer(answer)
    ensures Follows(One(Waiting, None, true, Reading), ReaderTakes(1, answer), One(Waiting, None, false, Holding(1, 0, answer)))
  {
    hide AllLost, Window, Delivered;
    assert map[1 := 0] - {1} == map[];
  }

  lemma OneIsAnswered(answer: Answer)
    ensures Follows(One(Waiting, None, false, Holding(1, 0, answer)), ReaderAnswers,
                    One(Waiting, Some(Answered(answer)), false, Reading))
  {
    hide AllLost;
  }

  lemma UntilAnswered() returns (states: seq<Connection>, events: seq<Event>)
    ensures Run(states, events) && states[0] == START && |events| == 5
    ensures states[5] == One(Waiting, Some(Answered(Ok(42))), false, Reading)
  {
    hide Follows;
    OneIsSent();
    OneIsTaken(Ok(42));
    OneIsAnswered(Ok(42));
    events := [CallerDraws, CallerRegisters(0), CallerSends(0, true), ReaderTakes(1, Ok(42)), ReaderAnswers];
    states := [START, One(Drawn, None, false, Reading), One(Registered, None, true, Reading), One(Waiting, None, true, Reading),
               One(Waiting, None, false, Holding(1, 0, Ok(42))), One(Waiting, Some(Answered(Ok(42))), false, Reading)];
  }
}
