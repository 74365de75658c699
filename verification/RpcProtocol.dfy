/**
 * Request and response correlation on one RPC connection: callers of `request`, the reader task and whoever fails the
 * pending requests interleave. Each event is one locked section or one hand-over through a oneshot channel.
 */
module RpcProtocol {
  import opened Prelude

  type Id = nat
  type Value = nat

  const ID_SPACE: nat := 0x1_0000_0000_0000_0000
  const MAX_PENDING: nat := 128
  const RESOLVED_WINDOW: nat := 256

  datatype RequestError = Overloaded | ConnectionLost | Timeout | Server(code: int)

  type Answer = Result<Value, RequestError>

  /** What the oneshot of a request holds: the peer's answer, or the notice that the connection was lost. */
  datatype Letter = Answered(answer: Answer) | Lost

  datatype Place =
    | Drawn
    | Registered
    | Waiting
    | GivingUp(error: RequestError)
    | Done(result: Answer)
    | Dropped

  datatype Caller = Caller(place: Place, mailbox: Option<Letter>)

  /** The reader removes the pending entry and then answers it. */
  datatype Reader = Reading | Holding(id: Id, caller: nat, answer: Answer) | Exited

  /** `callers` in the order they drew their ids; `answered` is the history of answered ids, oldest first. */
  datatype Connection = Connection(
    callers: seq<Caller>, pending: map<Id, nat>, resolved: seq<Id>, reader: Reader, answered: seq<Id>)

  datatype Event =
    | CallerDraws
    | CallerRegisters(n: nat)
    | CallerSends(n: nat, accepted: bool)
    | CallerReceives(n: nat)
    | CallerTimesOut(n: nat)
    | CallerGivesUp(n: nat)
    | CallerDropped(n: nat)
    | ReaderTakes(id: Id, answer: Answer)
    | ReaderAnswers
    | ReaderRejects(id: Id)
    | ReaderReturns
    | ReaderFails
    | PendingFailed

  /** The counter starts at one and wraps around after 2^64 ids. */
  function IdOf(n: nat): Id {
    (n + 1) % ID_SPACE
  }

  predicate At(c: Connection, n: nat, place: Place) {
    n < |c.callers| && c.callers[n].place == place
  }

  /** What a response can carry: a result, or the server's error. */
  predicate FromPeer(answer: Answer) {
    answer.Ok? || answer.error.Server?
  }

  predicate Enabled(c: Connection, e: Event) {
    match e
    case CallerDraws => true
    case CallerRegisters(n) => At(c, n, Drawn)
    case CallerSends(n, _) => At(c, n, Registered)
    case CallerReceives(n) => At(c, n, Waiting) && c.callers[n].mailbox.Some?
    case CallerTimesOut(n) => At(c, n, Waiting) && c.callers[n].mailbox.None?
    case CallerGivesUp(n) => n < |c.callers| && c.callers[n].place.GivingUp?
    case CallerDropped(n) => n < |c.callers| && !c.callers[n].place.Done?
    case ReaderTakes(id, answer) => c.reader.Reading? && id in c.pending && FromPeer(answer)
    case ReaderAnswers => c.reader.Holding?
    case ReaderRejects(id) => c.reader.Reading? && id !in c.pending
    case ReaderReturns => c.reader.Reading?
    case ReaderFails => c.reader.Reading?
    case PendingFailed => true
  }

  function Moved(c: Connection, n: nat, place: Place): seq<Caller>
    requires n < |c.callers|
  {
    c.callers[n := c.callers[n].(place := place)]
  }

  function ResultOf(letter: Letter): Answer {
    match letter
    case Answered(answer) => answer
    case Lost => Err(ConnectionLost)
  }

  /** The last 256 entries. */
  function Window(ids: seq<Id>): seq<Id> {
    if |ids| > RESOLVED_WINDOW then ids[|ids| - RESOLVED_WINDOW..] else ids
  }

  function Delivered(callers: seq<Caller>, n: nat, letter: Letter): seq<Caller> {
    if n < |callers| then callers[n := callers[n].(mailbox := Some(letter))] else callers
  }

  predicate IsPending(c: Connection, n: nat) {
    IdOf(n) in c.pending && c.pending[IdOf(n)] == n
  }

  /** Every pending request learns that the connection is lost. */
  function AllLost(c: Connection): Connection {
    c.(pending := map[],
    callers := seq(|c.callers|, n requires 0 <= n < |c.callers| =>
      if IsPending(c, n) then c.callers[n].(mailbox := Some(Lost)) else c.callers[n]))
  }

  function Step(c: Connection, e: Event): Connection
    requires Enabled(c, e)
  {
    match e
    case CallerDraws => c.(callers := c.callers + [Caller(Drawn, None)])
    case CallerRegisters(n) =>
      if |c.pending| >= MAX_PENDING then c.(callers := Moved(c, n, Done(Err(Overloaded))))
      else c.(callers := Moved(c, n, Registered), pending := c.pending[IdOf(n) := n])
    case CallerSends(n, accepted) => c.(callers := Moved(c, n, if accepted then Waiting else GivingUp(Overloaded)))
    case CallerReceives(n) => c.(callers := Moved(c, n, Done(ResultOf(c.callers[n].mailbox.value))))
    case CallerTimesOut(n) => c.(callers := Moved(c, n, GivingUp(Timeout)))
    case CallerGivesUp(n) =>
      c.(callers := Moved(c, n, Done(Err(c.callers[n].place.error))), pending := c.pending - {IdOf(n)})
    case CallerDropped(n) => c.(callers := Moved(c, n, Dropped))
    case ReaderTakes(id, answer) => c.(pending := c.pending - {id}, reader := Holding(id, c.pending[id], answer))
    case ReaderAnswers =>
      c.(callers := Delivered(c.callers, c.reader.caller, Answered(c.reader.answer)),
      resolved := Window(c.resolved + [c.reader.id]), reader := Reading, answered := c.answered + [c.reader.id])
    case ReaderRejects(_) => c.(reader := Exited)
    case ReaderReturns => c.(reader := Exited)
    case ReaderFails => AllLost(c).(reader := Exited)
    case PendingFailed => AllLost(c)
  }

  datatype Violation = DuplicateResponse | UnknownResponse

  /** How the reader reports a response that no pending request waits for. */
  function Category(c: Connection, id: Id): Violation {
    if id in c.resolved then DuplicateResponse else UnknownResponse
  }

  // ----- the invariant ------------------------------------------------------------------------------------

  /** What one caller's place and mailbox say about the pending map, the reader and the history. */
  ghost predicate CallerOk(pending: map<Id, nat>, reader: Reader, answered: seq<Id>, n: nat, caller: Caller) {
    var id := IdOf(n);
    && (id in pending ==> caller.mailbox.None? && !caller.place.Drawn? && !caller.place.Done?)
    && (reader.Holding? && reader.id == id ==> caller.mailbox.None? && !caller.place.Drawn?)
    && (id in answered <==> caller.mailbox.Some? && caller.mailbox.value.Answered?)
    && (caller.mailbox.Some? ==> !caller.place.Drawn?)
    && (caller.place.GivingUp? ==> !caller.place.error.Server?)
    && (caller.place.Done? && FromPeer(caller.place.result) ==> caller.mailbox == Some(Answered(caller.place.result)))
  }

  ghost predicate CallersOk(c: Connection) {
    forall n :: 0 <= n < |c.callers| ==> CallerOk(c.pending, c.reader, c.answered, n, c.callers[n])
  }

  /** The caller of a pending, held or answered id is the one that drew it. */
  ghost predicate Owned(c: Connection, id: Id, n: nat) {
    n < |c.callers| && IdOf(n) == id
  }

  ghost predicate PendingOk(c: Connection) {
    && |c.pending| <= MAX_PENDING
    && (forall id :: id in c.pending ==> Owned(c, id, c.pending[id]) && id !in c.answered)
    && (c.reader.Holding? ==>
          Owned(c, c.reader.id, c.reader.caller) && c.reader.id !in c.pending && c.reader.id !in c.answered)
  }

  ghost predicate HistoryOk(c: Connection) {
    && Distinct(c.answered)
    && c.resolved == Window(c.answered)
    && forall id :: id in c.answered ==> 1 <= id <= |c.callers|
  }

  /** Fewer than 2^64 requests were made, so no id was drawn twice. */
  ghost predicate Inv(c: Connection) {
    |c.callers| < ID_SPACE && CallersOk(c) && PendingOk(c) && HistoryOk(c)
  }

  lemma IdsDiffer(m: nat, n: nat)
    requires m < ID_SPACE && n < ID_SPACE && m != n
    ensures IdOf(m) != IdOf(n)
  {
  }

  lemma WindowAppend(ids: seq<Id>, id: Id)
    ensures Window(Window(ids) + [id]) == Window(ids + [id])
  {
  }

  lemma DrawKeeps(c: Connection)
    requires Inv(c) && |c.callers| + 1 < ID_SPACE
    ensures Inv(Step(c, CallerDraws))
  {
    var c' := Step(c, CallerDraws);
    var newest := |c.callers|;
    assert IdOf(newest) == newest + 1;
    if IdOf(newest) in c.pending {
      IdsDiffer(c.pending[IdOf(newest)], newest);
    }
    forall n | 0 <= n < |c'.callers| ensures CallerOk(c'.pending, c'.reader, c'.answered, n, c'.callers[n]) {
      if n < newest {
        assert CallerOk(c.pending, c.reader, c.answered, n, c.callers[n]);
      }
    }
  }

  /** The pending map changes at most at one id. */
  ghost predicate SameElsewhere(pending: map<Id, nat>, pending': map<Id, nat>, changed: Id) {
    forall id :: id != changed ==>
      (id in pending' <==> id in pending) && (id in pending ==> pending'[id] == pending[id])
  }

  /** A step of one caller moves only that caller. */
  lemma OneCallerKeeps(c: Connection, m: nat, caller: Caller, pending': map<Id, nat>)
    requires Inv(c) && m < |c.callers|
    requires SameElsewhere(c.pending, pending', IdOf(m)) && |pending'| <= MAX_PENDING
    requires IdOf(m) in pending' ==>
               pending'[IdOf(m)] == m && IdOf(m) !in c.answered && !(c.reader.Holding? && c.reader.id == IdOf(m))
    requires CallerOk(pending', c.reader, c.answered, m, caller)
    ensures Inv(c.(callers := c.callers[m := caller], pending := pending'))
  {
    var c' := c.(callers := c.callers[m := caller], pending := pending');
    forall n | 0 <= n < |c'.callers| ensures CallerOk(c'.pending, c'.reader, c'.answered, n, c'.callers[n]) {
      if n != m {
        IdsDiffer(m, n);
        assert CallerOk(c.pending, c.reader, c.answered, n, c.callers[n]);
      }
    }
  }

  lemma RegisterKeeps(c: Connection, n: nat)
    requires Inv(c) && Enabled(c, CallerRegisters(n))
    ensures Inv(Step(c, CallerRegisters(n)))
  {
    hide CallersOk, HistoryOk;
    assert CallerOk(c.pending, c.reader, c.answered, n, c.callers[n]) by {
      CallerIsOk(c, n);
    }
    if |c.pending| >= MAX_PENDING {
      OneCallerKeeps(c, n, c.callers[n].(place := Done(Err(Overloaded))), c.pending);
    } else {
      OneCallerKeeps(c, n, c.callers[n].(place := Registered), c.pending[IdOf(n) := n]);
    }
  }

  lemma CallerIsOk(c: Connection, n: nat)
    requires CallersOk(c) && n < |c.callers|
    ensures CallerOk(c.pending, c.reader, c.answered, n, c.callers[n])
  {
  }

  lemma GiveUpKeeps(c: Connection, n: nat)
    requires Inv(c) && Enabled(c, CallerGivesUp(n))
    ensures Inv(Step(c, CallerGivesUp(n)))
  {
    hide CallersOk, HistoryOk;
    CallerIsOk(c, n);
    RemovalShrinks(c.pending, IdOf(n));
    OneCallerKeeps(c, n, c.callers[n].(place := Done(Err(c.callers[n].place.error))), c.pending - {IdOf(n)});
  }

  lemma OtherCallerKeeps(c: Connection, e: Event)
    requires Inv(c) && Enabled(c, e) && (e.CallerSends? || e.CallerReceives? || e.CallerTimesOut? || e.CallerDropped?)
    ensures Inv(Step(c, e))
  {
    hide CallersOk, HistoryOk;
    CallerIsOk(c, e.n);
    assert Step(c, e) == c.(callers := c.callers[e.n := Step(c, e).callers[e.n]], pending := c.pending);
    assert IdOf(e.n) in c.pending ==> Owned(c, IdOf(e.n), c.pending[IdOf(e.n)]);
    if IdOf(e.n) in c.pending && c.pending[IdOf(e.n)] != e.n {
      IdsDiffer(c.pending[IdOf(e.n)], e.n);
    }
    OneCallerKeeps(c, e.n, Step(c, e).callers[e.n], c.pending);
  }

  lemma CallerKeeps(c: Connection, e: Event)
    requires Inv(c) && Enabled(c, e)
    requires e.CallerRegisters? || e.CallerSends? || e.CallerReceives? || e.CallerTimesOut? || e.CallerGivesUp? || e.CallerDropped?
    ensures Inv(Step(c, e))
  {
    hide Inv, Step;
    if e.CallerRegisters? {
      RegisterKeeps(c, e.n);
    } else if e.CallerGivesUp? {
      GiveUpKeeps(c, e.n);
    } else {
      OtherCallerKeeps(c, e);
    }
  }

  lemma RemovalShrinks(m: map<Id, nat>, id: Id)
    ensures |m - {id}| <= |m|
  {
    assert (m - {id}).Keys == m.Keys - {id};
  }

  lemma TakeKeeps(c: Connection, e: Event)
    requires Inv(c) && Enabled(c, e) && e.ReaderTakes?
    ensures Inv(Step(c, e))
  {
    var c' := Step(c, e);
    RemovalShrinks(c.pending, e.id);
    forall n | 0 <= n < |c'.callers| ensures CallerOk(c'.pending, c'.reader, c'.answered, n, c'.callers[n]) {
      assert CallerOk(c.pending, c.reader, c.answered, n, c.callers[n]);
    }
  }

  lemma AnswerKeeps(c: Connection)
    requires Inv(c) && c.reader.Holding?
    ensures Inv(Step(c, ReaderAnswers))
  {
    var c' := Step(c, ReaderAnswers);
    var m := c.reader.caller;
    WindowAppend(c.answered, c.reader.id);
    forall n | 0 <= n < |c'.callers| ensures CallerOk(c'.pending, c'.reader, c'.answered, n, c'.callers[n]) {
      assert CallerOk(c.pending, c.reader, c.answered, n, c.callers[n]);
      if n != m {
        IdsDiffer(m, n);
      }
    }
  }

  lemma LossKeeps(c: Connection, e: Event)
    requires Inv(c) && Enabled(c, e) && (e.ReaderFails? || e.PendingFailed?)
    ensures Inv(Step(c, e))
  {
    var c' := Step(c, e);
    forall n | 0 <= n < |c'.callers| ensures CallerOk(c'.pending, c'.reader, c'.answered, n, c'.callers[n]) {
      assert CallerOk(c.pending, c.reader, c.answered, n, c.callers[n]);
      if IsPending(c, n) {
        assert IdOf(n) !in c.answered;
      }
    }
  }

  lemma ExitKeeps(c: Connection, e: Event)
    requires Inv(c) && Enabled(c, e) && (e.ReaderRejects? || e.ReaderReturns?)
    ensures Inv(Step(c, e))
  {
    var c' := Step(c, e);
    forall n | 0 <= n < |c'.callers| ensures CallerOk(c'.pending, c'.reader, c'.answered, n, c'.callers[n]) {
      assert CallerOk(c.pending, c.reader, c.answered, n, c.callers[n]);
    }
  }

  lemma StepKeeps(c: Connection, e: Event)
    requires Inv(c) && Enabled(c, e) && |Step(c, e).callers| < ID_SPACE
    ensures Inv(Step(c, e))
  {
    if e.CallerDraws? {
      DrawKeeps(c);
    } else if e.ReaderTakes? {
      TakeKeeps(c, e);
    } else if e.ReaderAnswers? {
      AnswerKeeps(c);
    } else if e.ReaderFails? || e.PendingFailed? {
      LossKeeps(c, e);
    } else if e.ReaderRejects? || e.ReaderReturns? {
      ExitKeeps(c, e);
    } else {
      CallerKeeps(c, e);
    }
  }
}
