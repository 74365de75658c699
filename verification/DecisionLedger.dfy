/** The ledger of fallback decisions: registration, claims with tokens, settlement and expiry. */
module DecisionLedger {
  import opened Prelude

  type Id = nat

  /** Nanoseconds on a monotonic clock. */
  type Instant = nat

  const TIMEOUT: nat := 300_000_000_000
  const TOKEN_SPACE: nat := 0x1_0000_0000_0000_0000

  datatype Context = Context(workspaceId: Id, generation: nat, threadId: Id, turnId: Id, effort: Option<Id>)

  datatype State = Pending | Claimed(token: nat)

  datatype Entry = Entry(
    context: Context, options: set<Id>, fingerprint: Id, createdAt: Instant, turnCompleted: bool, state: State)

  datatype Ledger = Ledger(entries: map<Id, Entry>, nextToken: nat)

  datatype Claim = Claim(handle: Id, optionId: Id, context: Context, token: nat)

  datatype LedgerError =
    | Invalid
    | Stale
    | SessionMismatch
    | InvalidOption
    | SourceTurnActive
    | AlreadyClaimed
    | Expired
    | DuplicateMismatch

  datatype Registered = New | Existing

  /** A validated card under its contextual handle; `valid` is the verdict of the validation. */
  datatype Registration = Registration(valid: bool, handle: Id, options: set<Id>, context: Context, fingerprint: Id)

  /** `duration_since` saturates at zero. */
  predicate Overdue(entry: Entry, now: Instant) {
    now >= entry.createdAt + TIMEOUT
  }

  function AfterToken(token: nat): nat {
    var next := (token + 1) % TOKEN_SPACE;
    if next == 0 then 1 else next
  }

  // ----- operations ---------------------------------------------------------------------------------------

  datatype Outcome<T> = Outcome(reply: Result<T, LedgerError>, ledger: Ledger)

  function Register(l: Ledger, r: Registration, now: Instant): Outcome<Registered> {
    if !r.valid then Outcome(Err(Invalid), l)
    else if r.handle in l.entries then
      Outcome(if l.entries[r.handle].fingerprint == r.fingerprint then Ok(Existing) else Err(DuplicateMismatch), l)
    else
      var entry := Entry(r.context, r.options, r.fingerprint, now, false, Pending);
      Outcome(Ok(New), l.(entries := l.entries[r.handle := entry]))
  }

  function ClaimEntry(l: Ledger, handle: Id, optionId: Id, workspaceId: Id, generation: nat, now: Instant): Outcome<Claim> {
    if handle !in l.entries then Outcome(Err(Stale), l)
    else
      var entry := l.entries[handle];
      if Overdue(entry, now) then Outcome(Err(Expired), l.(entries := l.entries - {handle}))
      else if entry.context.workspaceId != workspaceId || entry.context.generation != generation then
        Outcome(Err(SessionMismatch), l)
      else if !entry.turnCompleted then Outcome(Err(SourceTurnActive), l)
      else if optionId !in entry.options then Outcome(Err(InvalidOption), l)
      else if entry.state != Pending then Outcome(Err(AlreadyClaimed), l)
      else
        var token := AfterToken(l.nextToken);
        Outcome(Ok(Claim(handle, optionId, entry.context, token)),
                Ledger(l.entries[handle := entry.(state := Claimed(token))], token))
  }

  predicate Holds(l: Ledger, claim: Claim) {
    claim.handle in l.entries && l.entries[claim.handle].state == Claimed(claim.token)
  }

  function Restore(l: Ledger, claim: Claim): Ledger {
    if Holds(l, claim) then l.(entries := l.entries[claim.handle := l.entries[claim.handle].(state := Pending)]) else l
  }

  function Complete(l: Ledger, claim: Claim): Ledger {
    if Holds(l, claim) then l.(entries := l.entries - {claim.handle}) else l
  }

  predicate OfTurn(entry: Entry, threadId: Id, turnId: Id) {
    entry.context.threadId == threadId && entry.context.turnId == turnId
  }

  function EntriesOfTurn(l: Ledger, threadId: Id, turnId: Id): set<Id> {
    set handle | handle in l.entries && OfTurn(l.entries[handle], threadId, turnId)
  }

  function CompletedTurn(l: Ledger, threadId: Id, turnId: Id): Ledger {
    l.(entries := map handle | handle in l.entries ::
      if OfTurn(l.entries[handle], threadId, turnId) then l.entries[handle].(turnCompleted := true) else l.entries[handle])
  }

  function MarkTurn(l: Ledger, threadId: Id, turnId: Id, completed: bool): Ledger {
    if completed then CompletedTurn(l, threadId, turnId)
    else l.(entries := l.entries - EntriesOfTurn(l, threadId, turnId))
  }

  function OverduePending(l: Ledger, now: Instant): set<Id> {
    set handle | handle in l.entries && l.entries[handle].state == Pending && Overdue(l.entries[handle], now)
  }

  function Expire(l: Ledger, now: Instant): Ledger {
    l.(entries := l.entries - OverduePending(l, now))
  }

  // ----- the object ---------------------------------------------------------------------------------------

  class FallbackDecisionLedger {
    var entries: map<Id, Entry>
    var nextClaimToken: nat

    function View(): Ledger
      reads this
    {
      Ledger(entries, nextClaimToken)
    }

    constructor ()
      ensures View() == Ledger(map[], 0)
    {
      entries, nextClaimToken := map[], 0;
    }

    method RegisterCard(r: Registration, now: Instant) returns (reply: Result<Registered, LedgerError>)
      modifies this
      ensures Outcome(reply, View()) == Register(old(View()), r, now)
    {
      if !r.valid {
        return Err(Invalid);
      }
      if r.handle in entries {
        return if entries[r.handle].fingerprint == r.fingerprint then Ok(Existing) else Err(DuplicateMismatch);
      }
      entries := entries[r.handle := Entry(r.context, r.options, r.fingerprint, now, false, Pending)];
      reply := Ok(New);
    }

    method TakeClaim(handle: Id, optionId: Id, workspaceId: Id, generation: nat, now: Instant)
      returns (reply: Result<Claim, LedgerError>)
      modifies this
      ensures Outcome(reply, View()) == ClaimEntry(old(View()), handle, optionId, workspaceId, generation, now)
    {
      if handle !in entries {
        return Err(Stale);
      }
      var entry := entries[handle];
      if Overdue(entry, now) {
        entries := entries - {handle};
        return Err(Expired);
      }
      if entry.context.workspaceId != workspaceId || entry.context.generation != generation {
        return Err(SessionMismatch);
      }
      if !entry.turnCompleted {
        return Err(SourceTurnActive);
      }
      if optionId !in entry.options {
        return Err(InvalidOption);
      }
      if entry.state != Pending {
        return Err(AlreadyClaimed);
      }
      nextClaimToken := AfterToken(nextClaimToken);
      entries := entries[handle := entry.(state := Claimed(nextClaimToken))];
      reply := Ok(Claim(handle, optionId, entry.context, nextClaimToken));
    }

    method RestoreClaim(claim: Claim) returns (restored: bool)
      modifies this`entries
      ensures View() == Restore(old(View()), claim) && restored == Holds(old(View()), claim)
    {
      restored := claim.handle in entries && entries[claim.handle].state == Claimed(claim.token);
      if restored {
        entries := entries[claim.handle := entries[claim.handle].(state := Pending)];
      }
    }

    method CompleteClaim(claim: Claim) returns (completed: bool)
      modifies this`entries
      ensures View() == Complete(old(View()), claim) && completed == Holds(old(View()), claim)
    {
      completed := claim.handle in entries && entries[claim.handle].state == Claimed(claim.token);
      if completed {
        entries := entries - {claim.handle};
      }
    }

    method MarkTurnTerminal(threadId: Id, turnId: Id, completed: bool) returns (dropped: set<Id>)
      modifies this`entries
      ensures View() == MarkTurn(old(View()), threadId, turnId, completed)
      ensures dropped == if completed then {} else EntriesOfTurn(old(View()), threadId, turnId)
    {
      ghost var before := View();
      var matching := set handle | handle in entries && OfTurn(entries[handle], threadId, turnId);
      if completed {
        CompleteTurns(matching);
        assert entries == CompletedTurn(before, threadId, turnId).entries;
        dropped := {};
      } else {
        Remove(matching);
        dropped := matching;
      }
    }

    method CompleteTurns(matching: set<Id>)
      requires matching <= entries.Keys
      modifies this`entries
      ensures entries == map handle | handle in old(entries) ::
                           if handle in matching then old(entries)[handle].(turnCompleted := true) else old(entries)[handle]
    {
      var remaining := matching;
      while remaining != {}
        invariant remaining <= matching && entries.Keys == old(entries).Keys
        invariant forall handle :: handle in entries ==>
                    entries[handle] == if handle in matching - remaining then old(entries)[handle].(turnCompleted := true)
                                       else old(entries)[handle]
        decreases |remaining|
      {
        var handle :| handle in remaining;
        entries := entries[handle := entries[handle].(turnCompleted := true)];
        remaining := remaining - {handle};
      }
    }

    method Remove(handles: set<Id>)
      modifies this`entries
      ensures entries == old(entries) - handles
    {
      var remaining := handles;
      while remaining != {}
        invariant remaining <= handles && entries == old(entries) - (handles - remaining)
        decreases |remaining|
      {
        var handle :| handle in remaining;
        entries := entries - {handle};
        remaining := remaining - {handle};
      }
    }

    method ExpireOverdue(now: Instant) returns (expired: set<Id>)
      modifies this`entries
      ensures View() == Expire(old(View()), now) && expired == OverduePending(old(View()), now)
    {
      expired := set handle | handle in entries && entries[handle].state == Pending && Overdue(entries[handle], now);
      Remove(expired);
    }

    method Clear()
      modifies this`entries
      ensures View() == old(View()).(entries := map[])
    {
      entries := map[];
    }
  }
}
