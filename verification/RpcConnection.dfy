/**
 * The tables an RPC connection shares between `request` and its reader. Each method is one locked section and refines
 * the protocol event of the same name, given as a ghost argument the connection the tables belong to.
 */
module RpcConnection {
  import opened Prelude
  import P = RpcProtocol

  class Tables {
    var nextId: P.Id
    var pending: map<P.Id, nat>
    var resolved: seq<P.Id>

    constructor ()
      ensures Shows(P.Connection([], map[], [], P.Reading, []))
    {
      nextId, pending, resolved := 1, map[], [];
    }

    /** These are the tables of the connection. */
    ghost predicate Shows(c: P.Connection)
      reads this
    {
      nextId == P.IdOf(|c.callers|) && pending == c.pending && resolved == c.resolved
    }

    /** `fetch_add` wraps around. */
    method DrawId(ghost c: P.Connection) returns (id: P.Id)
      requires Shows(c)
      modifies this`nextId
      ensures id == P.IdOf(|c.callers|)
      ensures Shows(P.Step(c, P.CallerDraws))
    {
      id := nextId;
      nextId := (nextId + 1) % P.ID_SPACE;
    }

    method Register(n: nat, ghost c: P.Connection) returns (registered: bool)
      requires Shows(c) && P.At(c, n, P.Drawn)
      modifies this`pending
      ensures Shows(P.Step(c, P.CallerRegisters(n)))
      ensures P.At(P.Step(c, P.CallerRegisters(n)), n, if registered then P.Registered else P.Done(Err(P.Overloaded)))
    {
      registered := |pending| < P.MAX_PENDING;
      if registered {
        pending := pending[P.IdOf(n) := n];
      }
    }

    method GiveUp(n: nat, ghost c: P.Connection)
      requires Shows(c) && P.Enabled(c, P.CallerGivesUp(n))
      modifies this`pending
      ensures Shows(P.Step(c, P.CallerGivesUp(n)))
    {
      pending := pending - {P.IdOf(n)};
    }

    /** The response arm: a pending request is taken, anything else is a violation. */
    method TakeResponse(id: P.Id, answer: P.Answer, ghost c: P.Connection) returns (taken: Result<nat, P.Violation>)
      requires Shows(c) && c.reader.Reading? && P.FromPeer(answer)
      modifies this`pending
      ensures taken.Ok? <==> id in c.pending
      ensures taken.Ok? ==> Shows(P.Step(c, P.ReaderTakes(id, answer))) && taken.value == c.pending[id]
      ensures taken.Err? ==> Shows(P.Step(c, P.ReaderRejects(id))) && taken.error == P.Category(c, id)
    {
      if id in pending {
        taken := Ok(pending[id]);
        pending := pending - {id};
      } else {
        taken := Err(if id in resolved then P.DuplicateResponse else P.UnknownResponse);
      }
    }

    /** After the answer was sent: remember the id and forget the oldest beyond the window. */
    method RememberResolved(id: P.Id, ghost c: P.Connection)
      requires Shows(c) && c.reader.Holding? && c.reader.id == id
      modifies this`resolved
      ensures Shows(P.Step(c, P.ReaderAnswers))
    {
      resolved := resolved + [id];
      ghost var all := resolved;
      while |resolved| > P.RESOLVED_WINDOW
        invariant P.Window(resolved) == P.Window(all)
      {
        resolved := resolved[1..];
      }
    }

    /** Takes every pending request away; `lost` are the callers that have to be told. */
    method FailAllPending(ghost c: P.Connection) returns (lost: set<nat>)
      requires Shows(c)
      modifies this`pending
      ensures Shows(P.Step(c, P.PendingFailed))
      ensures lost == c.pending.Values
      ensures P.Inv(c) ==> forall n: nat :: n in lost <==> n < |c.callers| && P.IsPending(c, n)
    {
      lost := pending.Values;
      pending := map[];
      if P.Inv(c) {
        forall n: nat ensures n in lost <==> n < |c.callers| && P.IsPending(c, n) {
          if n in lost {
            var id :| id in c.pending && c.pending[id] == n;
            assert P.Owned(c, id, n);
          }
        }
      }
    }
  }
}
