/**
 * What the ledger answers and changes, case by case, and where a claim comes from: the registration that put its entry
 * there, the completed turn in between, and the option the user chose.
 */
module DecisionLaws {
  import opened Prelude
  import opened DecisionLedger
  import opened DecisionRuns

  // ----- one operation ------------------------------------------------------------------------------------

  /** Five minutes after its registration a decision is late. */
  ghost predicate Late(entry: Entry, now: Instant) {
    now - entry.createdAt >= 300_000_000_000
  }

  ghost predicate RegisterDecided(l: Ledger, l': Ledger, reply: Result<Registered, LedgerError>, r: Registration, now: Instant) {
    && l'.nextToken == l.nextToken
    && (!r.valid ==> reply == Err(Invalid) && l' == l)
    && (r.valid && r.handle in l.entries && l.entries[r.handle].fingerprint == r.fingerprint ==> reply == Ok(Existing) && l' == l)
    && (r.valid && r.handle in l.entries && l.entries[r.handle].fingerprint != r.fingerprint ==>
          reply == Err(DuplicateMismatch) && l' == l)
    && (r.valid && r.handle !in l.entries ==>
          reply == Ok(New) && l'.entries == l.entries[r.handle := Entry(r.context, r.options, r.fingerprint, now, false, Pending)])
  }

  /** The first check that fails answers; a late decision is dropped by the claim that comes too late. */
  ghost predicate ClaimDecided(
    l: Ledger, l': Ledger, reply: Result<Claim, LedgerError>, handle: Id, optionId: Id, workspaceId: Id, generation: nat, now: Instant)
  {
    if handle !in l.entries then reply == Err(Stale) && l' == l
    else
      var entry := l.entries[handle];
      var ours := entry.context.workspaceId == workspaceId && entry.context.generation == generation;
      if Late(entry, now) then
        reply == Err(Expired) && l' == Ledger(l.entries - {handle}, l.nextToken)
      else if !ours then reply == Err(SessionMismatch) && l' == l
      else if !entry.turnCompleted then reply == Err(SourceTurnActive) && l' == l
      else if optionId !in entry.options then reply == Err(InvalidOption) && l' == l
      else if entry.state.Claimed? then reply == Err(AlreadyClaimed) && l' == l
      else
        && reply == Ok(Claim(handle, optionId, entry.context, l'.nextToken))
        && l'.nextToken == (if l.nextToken == 18_446_744_073_709_551_615 then 1 else l.nextToken + 1)
        && l'.entries == l.entries[handle := Entry(entry.context, entry.options, entry.fingerprint, entry.createdAt, true, Claimed(l'.nextToken))]
  }

  /** Only the claim whose token the entry holds gives it back or ends it. */
  ghost predicate SettleDecided(l: Ledger, l': Ledger, claim: Claim, completes: bool) {
    if claim.handle in l.entries && l.entries[claim.handle].state == Claimed(claim.token) then
      var entry := l.entries[claim.handle];
      && l'.nextToken == l.nextToken
      && l'.entries == (if completes then l.entries - {claim.handle}
                        else l.entries[claim.handle := Entry(entry.context, entry.options, entry.fingerprint, entry.createdAt, entry.turnCompleted, Pending)])
    else l' == l
  }

  /** The decisions of the turn can be answered from now on, or are gone; all others stay as they are. */
  ghost predicate TurnDecided(l: Ledger, l': Ledger, threadId: Id, turnId: Id, completed: bool) {
    && l'.nextToken == l.nextToken && l'.entries.Keys <= l.entries.Keys
    && forall h :: h in l.entries ==>
         var entry := l.entries[h];
         if entry.context.threadId != threadId || entry.context.turnId != turnId then h in l'.entries && l'.entries[h] == entry
         else if completed then
           && h in l'.entries
           && l'.entries[h] == Entry(entry.context, entry.options, entry.fingerprint, entry.createdAt, true, entry.state)
         else h !in l'.entries
  }

  ghost predicate ExpiryDecided(l: Ledger, l': Ledger, now: Instant) {
    && l'.nextToken == l.nextToken && l'.entries.Keys <= l.entries.Keys
    && forall h :: h in l.entries ==>
         if l.entries[h].state.Pending? && Late(l.entries[h], now) then h !in l'.entries
         else h in l'.entries && l'.entries[h] == l.entries[h]
  }

  ghost predicate StepDecided(l: Ledger, e: Event, l': Ledger) {
    match e
    case Registers(registration, now) => RegisterDecided(l, l', Register(l, registration, now).reply, registration, now)
    case Claims(handle, optionId, workspaceId, generation, now) =>
      var reply := ClaimEntry(l, handle, optionId, workspaceId, generation, now).reply;
      ClaimDecided(l, l', reply, handle, optionId, workspaceId, generation, now)
    case Restores(claim) => SettleDecided(l, l', claim, false)
    case Completes(claim) => SettleDecided(l, l', claim, true)
    case TurnEnds(threadId, turnId, completed) => TurnDecided(l, l', threadId, turnId, completed)
    case Expires(now) => ExpiryDecided(l, l', now)
    case Clears => l' == Ledger(map[], l.nextToken)
  }

  lemma ClaimLaw(l: Ledger, handle: Id, optionId: Id, workspaceId: Id, generation: nat, now: Instant)
    requires l.nextToken < 18_446_744_073_709_551_616
    ensures var outcome := ClaimEntry(l, handle, optionId, workspaceId, generation, now);
            ClaimDecided(l, outcome.ledger, outcome.reply, handle, optionId, workspaceId, generation, now)
  {
  }

  lemma TokenFits(states: seq<Ledger>, events: seq<Event>, i: nat)
    requires Run(states, events) && i < |states|
    ensures states[i].nextToken < 18_446_744_073_709_551_616
  {
    TokensCycle(states, events, i);
  }

  /** What every operation of a run answers and changes. */
  lemma OperationsAreDecided(states: seq<Ledger>, events: seq<Event>, i: nat)
    requires Run(states, events) && i < |events|
    ensures StepDecided(states[i], events[i], states[i + 1])
  {
    TokenFits(states, events, i);
    assert states[i + 1] == Step(states[i], events[i]);
    if events[i].Claims? {
      var e := events[i];
      ClaimLaw(states[i], e.handle, e.optionId, e.workspaceId, e.generation, e.now);
      hide ClaimEntry, ClaimDecided;
    }
  }

  // ----- where an entry comes from ------------------------------------------------------------------------

  /** The step put a new entry there. */
  ghost predicate Puts(l: Ledger, e: Event, h: Id) {
    e.Registers? && e.registration.valid && e.registration.handle == h && h !in l.entries
  }

  /** Some step between ended the turn as completed. */
  ghost predicate TurnCompletedIn(events: seq<Event>, m: nat, i: nat, context: Context) {
    exists n :: m < n < i <= |events| && events[n] == TurnEnds(context.threadId, context.turnId, true)
  }

  /** The entry is the one that step `m` put there; only its state and its turn moved since. */
  ghost predicate ComesFrom(states: seq<Ledger>, events: seq<Event>, i: nat, h: Id, m: nat)
    requires |states| == |events| + 1 && i < |states|
  {
    && m < i && Puts(states[m], events[m], h)
    && (forall n :: m < n <= i ==> h in states[n].entries)
    && var entry, e := states[i].entries[h], events[m];
       && entry.context == e.registration.context && entry.options == e.registration.options
       && entry.fingerprint == e.registration.fingerprint && entry.createdAt == e.now
       && (entry.turnCompleted <==> TurnCompletedIn(events, m, i, entry.context))
  }

  lemma EntrySteps(l: Ledger, e: Event, l': Ledger, h: Id)
    requires StepDecided(l, e, l') && h in l'.entries
    ensures h !in l.entries ==>
              Puts(l, e, h)
              && l'.entries[h] == Entry(e.registration.context, e.registration.options, e.registration.fingerprint, e.now, false, Pending)
    ensures h in l.entries ==>
              var entry, entry' := l.entries[h], l'.entries[h];
              && entry'.context == entry.context && entry'.options == entry.options
              && entry'.fingerprint == entry.fingerprint && entry'.createdAt == entry.createdAt
              && (entry'.turnCompleted <==> entry.turnCompleted || e == TurnEnds(entry.context.threadId, entry.context.turnId, true))
  {
  }

  /** Every entry of a reachable ledger was put there by one registration, and its turn is completed exactly if it ended so since. */
  lemma {:induction false} EntriesComeFromRegistrations(states: seq<Ledger>, events: seq<Event>, i: nat, h: Id) returns (m: nat)
    requires Run(states, events) && i < |states| && h in states[i].entries
    ensures ComesFrom(states, events, i, h, m)
    decreases i
  {
    hide StepDecided, Step;
    OperationsAreDecided(states, events, i - 1);
    EntrySteps(states[i - 1], events[i - 1], states[i], h);
    if h !in states[i - 1].entries {
      m := i - 1;
    } else {
      m := EntriesComeFromRegistrations(states, events, i - 1, h);
      LaterComesFrom(states, events, i, h, m);
    }
  }

  lemma LaterComesFrom(states: seq<Ledger>, events: seq<Event>, i: nat, h: Id, m: nat)
    requires |states| == |events| + 1 && 0 < i < |states| && ComesFrom(states, events, i - 1, h, m) && h in states[i].entries
    requires var entry, entry' := states[i - 1].entries[h], states[i].entries[h];
             && entry'.context == entry.context && entry'.options == entry.options
             && entry'.fingerprint == entry.fingerprint && entry'.createdAt == entry.createdAt
             && (entry'.turnCompleted <==>
                 entry.turnCompleted || events[i - 1] == TurnEnds(entry.context.threadId, entry.context.turnId, true))
    ensures ComesFrom(states, events, i, h, m)
  {
    var context := states[i].entries[h].context;
    if TurnCompletedIn(events, m, i, context) && !TurnCompletedIn(events, m, i - 1, context) {
      var n :| m < n < i <= |events| && events[n] == TurnEnds(context.threadId, context.turnId, true);
      assert n == i - 1;
    }
  }

  /**
   * An issued claim carries the handle and the option the user answered with and the context the decision was registered
   * under; the option is one of those registered, the turn has ended as completed, and only the entry's state has changed.
   */
  lemma ClaimCarriesTheChoice(states: seq<Ledger>, events: seq<Event>, i: nat) returns (m: nat)
    requires Run(states, events) && i < |events| && Issued(states[i], events[i]).Some?
    ensures m < i && events[m].Registers?
    ensures var e, r, claim := events[i], events[m].registration, Issued(states[i], events[i]).value;
            && claim.handle == e.handle == r.handle && claim.optionId == e.optionId && e.optionId in r.options
            && claim.context == r.context && r.context.workspaceId == e.workspaceId && r.context.generation == e.generation
            && e.now - events[m].now < 300_000_000_000
            && TurnCompletedIn(events, m, i, r.context)
    ensures var e, claim := events[i], Issued(states[i], events[i]).value; var l, l' := states[i], states[i + 1];
            && e.handle in l.entries && l.entries[e.handle].state == Pending
            && l'.entries == l.entries[e.handle := l.entries[e.handle].(state := Claimed(claim.token))]
            && l'.nextToken == claim.token
  {
    hide Step;
    OperationsAreDecided(states, events, i);
    var h := events[i].handle;
    m := EntriesComeFromRegistrations(states, events, i, h);
  }
}
