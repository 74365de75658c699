/** What every sequence of ledger operations keeps: tokens settle at most once, and no decision is lost or doubled. */
module DecisionRuns {
  import opened Prelude
  import opened DecisionLedger

  datatype Event =
    | Registers(registration: Registration, now: Instant)
    | Claims(handle: Id, optionId: Id, workspaceId: Id, generation: nat, now: Instant)
    | Restores(claim: Claim)
    | Completes(claim: Claim)
    | TurnEnds(threadId: Id, turnId: Id, completed: bool)
    | Expires(now: Instant)
    | Clears

  function Step(l: Ledger, e: Event): Ledger {
    match e
    case Registers(registration, now) => Register(l, registration, now).ledger
    case Claims(handle, optionId, workspaceId, generation, now) =>
      ClaimEntry(l, handle, optionId, workspaceId, generation, now).ledger
    case Restores(claim) => Restore(l, claim)
    case Completes(claim) => Complete(l, claim)
    case TurnEnds(threadId, turnId, completed) => MarkTurn(l, threadId, turnId, completed)
    case Expires(now) => Expire(l, now)
    case Clears => l.(entries := map[])
  }

  ghost predicate Run(states: seq<Ledger>, events: seq<Event>) {
    && |states| == |events| + 1
    && states[0] == Ledger(map[], 0)
    && forall i :: 0 <= i < |events| ==> states[i + 1] == Step(states[i], events[i])
  }

  /** The claim an event issues, if it does. */
  function Issued(l: Ledger, e: Event): Option<Claim> {
    if e.Claims? then
      var reply := ClaimEntry(l, e.handle, e.optionId, e.workspaceId, e.generation, e.now).reply;
      if reply.Ok? then Some(reply.value) else None
    else None
  }

  function ClaimsIssued(states: seq<Ledger>, events: seq<Event>, n: nat): nat
    requires n <= |events| && |states| == |events| + 1
  {
    if n == 0 then 0 else ClaimsIssued(states, events, n - 1) + (if Issued(states[n - 1], events[n - 1]).Some? then 1 else 0)
  }

  /** The event does not make the token counter wrap around. */
  predicate WithinTokens(l: Ledger, e: Event) {
    l.nextToken + (if Issued(l, e).Some? then 1 else 0) < TOKEN_SPACE
  }

  /** The token counter has not wrapped around, and every claimed entry belongs to a completed turn. */
  ghost predicate Inv(l: Ledger) {
    forall h :: h in l.entries && l.entries[h].state.Claimed? ==>
      l.entries[h].turnCompleted && 1 <= l.entries[h].state.token <= l.nextToken
  }

  lemma StepKeeps(l: Ledger, e: Event)
    requires Inv(l) && WithinTokens(l, e)
    ensures Inv(Step(l, e))
    ensures Step(l, e).nextToken == l.nextToken + (if Issued(l, e).Some? then 1 else 0)
  {
  }

  lemma {:induction false} ClaimsOnlyGrow(states: seq<Ledger>, events: seq<Event>, i: nat, j: nat)
    requires i <= j <= |events| && |states| == |events| + 1
    ensures ClaimsIssued(states, events, i) <= ClaimsIssued(states, events, j)
  {
    if i < j {
      ClaimsOnlyGrow(states, events, i, j - 1);
    }
  }

  /** With fewer than 2^64 claims, the counter is the number of claims issued. */
  lemma {:induction false} RunKeeps(states: seq<Ledger>, events: seq<Event>, i: nat)
    requires Run(states, events) && i < |states| && ClaimsIssued(states, events, i) < TOKEN_SPACE
    ensures Inv(states[i]) && states[i].nextToken == ClaimsIssued(states, events, i)
  {
    hide Step, Issued;
    if i > 0 {
      ClaimsOnlyGrow(states, events, i - 1, i);
      RunKeeps(states, events, i - 1);
      assert states[i - 1 + 1] == Step(states[i - 1], events[i - 1]);
      StepKeeps(states[i - 1], events[i - 1]);
    }
  }

  /** A claimed entry always has its source turn completed. */
  lemma ClaimedTurnsAreComplete(states: seq<Ledger>, events: seq<Event>, i: nat, h: Id)
    requires Run(states, events) && i < |states| && ClaimsIssued(states, events, i) < TOKEN_SPACE
    requires h in states[i].entries && states[i].entries[h].state.Claimed?
    ensures states[i].entries[h].turnCompleted
  {
    RunKeeps(states, events, i);
  }

  // ----- settling at most once ----------------------------------------------------------------------------

  /** The claim's token was issued, and its entry does not hold it any more. */
  ghost predicate Spent(l: Ledger, claim: Claim) {
    claim.token <= l.nextToken && !Holds(l, claim)
  }

  lemma StaysSpent(l: Ledger, e: Event, claim: Claim)
    requires Spent(l, claim) && WithinTokens(l, e)
    ensures Spent(Step(l, e), claim)
  {
  }

  lemma {:induction false} SpentForever(states: seq<Ledger>, events: seq<Event>, i: nat, j: nat, claim: Claim)
    requires Run(states, events) && i <= j < |states| && ClaimsIssued(states, events, j) < TOKEN_SPACE
    requires Spent(states[i], claim)
    ensures Spent(states[j], claim)
  {
    hide Step, Issued;
    if i < j {
      ClaimsOnlyGrow(states, events, j - 1, j);
      SpentForever(states, events, i, j - 1, claim);
      RunKeeps(states, events, j - 1);
      assert states[j - 1 + 1] == Step(states[j - 1], events[j - 1]);
      StaysSpent(states[j - 1], events[j - 1], claim);
    }
  }

  /** The event restores or completes this claim, and succeeds. */
  ghost predicate Settles(l: Ledger, e: Event, claim: Claim) {
    (e == Restores(claim) || e == Completes(claim)) && Holds(l, claim)
  }

  lemma SettlingSpends(l: Ledger, e: Event, claim: Claim)
    requires Inv(l) && Settles(l, e, claim)
    ensures Spent(Step(l, e), claim)
  {
  }

  /** A claim that was restored or completed changes nothing when it is presented again. */
  lemma SettlesAtMostOnce(states: seq<Ledger>, events: seq<Event>, i: nat, j: nat, claim: Claim)
    requires Run(states, events) && i < j < |events| && ClaimsIssued(states, events, j) < TOKEN_SPACE
    requires Settles(states[i], events[i], claim)
    ensures !Holds(states[j], claim)
    ensures Restore(states[j], claim) == states[j] && Complete(states[j], claim) == states[j]
  {
    hide Step, Issued;
    ClaimsOnlyGrow(states, events, i, j);
    RunKeeps(states, events, i);
    SettlingSpends(states[i], events[i], claim);
    SpentForever(states, events, i + 1, j, claim);
  }

  lemma IssuingHolds(l: Ledger, e: Event)
    requires Inv(l) && Issued(l, e).Some? && WithinTokens(l, e)
    ensures var claim := Issued(l, e).value;
            && Holds(Step(l, e), claim) && claim.handle == e.handle && claim.token == l.nextToken + 1
            && l.entries[e.handle].state == Pending
  {
  }

  /** A claim that another claim of the same handle has superseded changes nothing. */
  lemma SupersededClaimsAreInert(states: seq<Ledger>, events: seq<Event>, i: nat, k: nat, j: nat)
    requires Run(states, events) && i < k < j < |states| && ClaimsIssued(states, events, j) < TOKEN_SPACE
    requires Issued(states[i], events[i]).Some? && Issued(states[k], events[k]).Some?
    requires Issued(states[i], events[i]).value.handle == Issued(states[k], events[k]).value.handle
    ensures var claim := Issued(states[i], events[i]).value;
            Restore(states[j], claim) == states[j] && Complete(states[j], claim) == states[j]
  {
    var claim := Issued(states[i], events[i]).value;
    ClaimsOnlyGrow(states, events, i, k);
    ClaimsOnlyGrow(states, events, i + 1, k);
    ClaimsOnlyGrow(states, events, k, j);
    ClaimsOnlyGrow(states, events, k + 1, j);
    RunKeeps(states, events, i);
    RunKeeps(states, events, k);
    IssuingHolds(states[i], events[i]);
    IssuingHolds(states[k], events[k]);
    assert Spent(states[k], claim);
    SpentForever(states, events, k, j, claim);
  }

  /** Tokens of different claims differ. */
  lemma TokensAreFresh(states: seq<Ledger>, events: seq<Event>, i: nat, k: nat)
    requires Run(states, events) && i < k < |events| && ClaimsIssued(states, events, k + 1) < TOKEN_SPACE
    requires Issued(states[i], events[i]).Some? && Issued(states[k], events[k]).Some?
    ensures Issued(states[i], events[i]).value.token < Issued(states[k], events[k]).value.token
  {
    ClaimsOnlyGrow(states, events, i, k);
    ClaimsOnlyGrow(states, events, i + 1, k);
    RunKeeps(states, events, i);
    RunKeeps(states, events, k);
    IssuingHolds(states[i], events[i]);
    IssuingHolds(states[k], events[k]);
  }

  // ----- conservation -------------------------------------------------------------------------------------

  predicate RegistersNew(l: Ledger, e: Event, h: Id) {
    e.Registers? && e.registration.handle == h && Register(l, e.registration, e.now).reply == Ok(New)
  }

  predicate CompletesEntry(l: Ledger, e: Event, h: Id) {
    e.Completes? && e.claim.handle == h && Holds(l, e.claim)
  }

  /** The entry goes without being completed: it expired, its turn failed, or the ledger was cleared. */
  predicate DropsEntry(l: Ledger, e: Event, h: Id) {
    h in l.entries &&
    match e
    case Claims(handle, _, _, _, now) => handle == h && Overdue(l.entries[h], now)
    case TurnEnds(threadId, turnId, completed) => !completed && OfTurn(l.entries[h], threadId, turnId)
    case Expires(now) => l.entries[h].state == Pending && Overdue(l.entries[h], now)
    case Clears => true
    case _ => false
  }

  function Count(b: bool): nat {
    if b then 1 else 0
  }

  /** An entry is there exactly if it was there or is new, and is neither completed nor dropped. */
  lemma EntriesBalance(l: Ledger, e: Event, h: Id)
    ensures Count(h in Step(l, e).entries) + Count(CompletesEntry(l, e, h)) + Count(DropsEntry(l, e, h))
         == Count(h in l.entries) + Count(RegistersNew(l, e, h))
  {
  }

  function Registrations(states: seq<Ledger>, events: seq<Event>, n: nat, h: Id): nat
    requires n <= |events| && |states| == |events| + 1
  {
    if n == 0 then 0 else Registrations(states, events, n - 1, h) + Count(RegistersNew(states[n - 1], events[n - 1], h))
  }

  function Completions(states: seq<Ledger>, events: seq<Event>, n: nat, h: Id): nat
    requires n <= |events| && |states| == |events| + 1
  {
    if n == 0 then 0 else Completions(states, events, n - 1, h) + Count(CompletesEntry(states[n - 1], events[n - 1], h))
  }

  function Drops(states: seq<Ledger>, events: seq<Event>, n: nat, h: Id): nat
    requires n <= |events| && |states| == |events| + 1
  {
    if n == 0 then 0 else Drops(states, events, n - 1, h) + Count(DropsEntry(states[n - 1], events[n - 1], h))
  }

  /** Each registration is completed once, dropped once, or still in the ledger: nothing is lost or counted twice. */
  lemma {:induction false} EveryRegistrationIsAccountedFor(states: seq<Ledger>, events: seq<Event>, n: nat, h: Id)
    requires Run(states, events) && n < |states|
    ensures Registrations(states, events, n, h)
         == Completions(states, events, n, h) + Drops(states, events, n, h) + Count(h in states[n].entries)
  {
    hide Step, RegistersNew, CompletesEntry, DropsEntry;
    if n > 0 {
      EveryRegistrationIsAccountedFor(states, events, n - 1, h);
      EntriesBalance(states[n - 1], events[n - 1], h);
      assert states[n - 1 + 1] == Step(states[n - 1], events[n - 1]);
    }
  }

  // ----- expiry and claims --------------------------------------------------------------------------------

  /** `expire` drops exactly the overdue entries that nobody has claimed, and changes no other. */
  lemma ExpiryIsExact(l: Ledger, now: Instant, h: Id)
    requires h in l.entries
    ensures h in Expire(l, now).entries <==> l.entries[h].state.Claimed? || now - l.entries[h].createdAt < 300_000_000_000
    ensures h in Expire(l, now).entries ==> Expire(l, now).entries[h] == l.entries[h]
  {
  }

  /** A claimed entry goes by its own completion, a failed turn, a cleared ledger, or a late claim of it; never by expiry. */
  lemma ClaimedEntriesLeave(l: Ledger, e: Event, h: Id)
    requires h in l.entries && l.entries[h].state.Claimed? && h !in Step(l, e).entries
    ensures || (e.Completes? && e.claim.handle == h && Claimed(e.claim.token) == l.entries[h].state)
            || (e.TurnEnds? && !e.completed && OfTurn(l.entries[h], e.threadId, e.turnId))
            || e.Clears?
            || (e.Claims? && e.handle == h && Overdue(l.entries[h], e.now))
  {
  }

  /** A claim is issued exactly for a live, pending decision of this session whose turn completed, and a listed option. */
  lemma ClaimSucceedsExactlyWhen(l: Ledger, e: Event)
    requires e.Claims?
    ensures Issued(l, e).Some? <==>
            && e.handle in l.entries
            && var entry := l.entries[e.handle];
            && e.now - entry.createdAt < 300_000_000_000
            && entry.context.workspaceId == e.workspaceId && entry.context.generation == e.generation
            && entry.turnCompleted && e.optionId in entry.options && entry.state == Pending
    ensures Issued(l, e).None? ==> Step(l, e) == l || Step(l, e).entries == l.entries - {e.handle}
  {
  }

  // ----- tokens without a bound on the claims --------------------------------------------------------------

  const TOKENS: nat := TOKEN_SPACE - 1

  /** The token counter after this many claims. */
  function TokenAfter(claims: nat): nat {
    if claims == 0 then 0 else (claims - 1) % TOKENS + 1
  }

  lemma NextToken(claims: nat)
    ensures AfterToken(TokenAfter(claims)) == TokenAfter(claims + 1)
  {
    if claims > 0 {
      var m := (claims - 1) % TOKENS;
      assert claims % TOKENS == if m == TOKENS - 1 then 0 else m + 1;
    }
  }

  lemma StepCounts(l: Ledger, e: Event)
    ensures Step(l, e).nextToken == if Issued(l, e).Some? then AfterToken(l.nextToken) else l.nextToken
    ensures Issued(l, e).Some? ==> Issued(l, e).value.token == AfterToken(l.nextToken)
  {
  }

  /** However many claims were made, the counter cycles through the numbers from 1 to 2^64 - 1. */
  lemma {:induction false} TokensCycle(states: seq<Ledger>, events: seq<Event>, i: nat)
    requires Run(states, events) && i < |states|
    ensures states[i].nextToken == TokenAfter(ClaimsIssued(states, events, i))
  {
    hide Step, Issued, AfterToken, TokenAfter;
    if i == 0 {
      NoClaimsYet();
    } else {
      TokensCycle(states, events, i - 1);
      assert states[i - 1 + 1] == Step(states[i - 1], events[i - 1]);
      StepCounts(states[i - 1], events[i - 1]);
      NextToken(ClaimsIssued(states, events, i - 1));
    }
  }

  lemma NoClaimsYet()
    ensures TokenAfter(0) == 0
  {
  }

  /** The `n`-th claim of a run carries the token `(n - 1) mod (2^64 - 1) + 1`. */
  lemma TokenOfClaim(states: seq<Ledger>, events: seq<Event>, i: nat)
    requires Run(states, events) && i < |events| && Issued(states[i], events[i]).Some?
    ensures Issued(states[i], events[i]).value.token == ClaimsIssued(states, events, i) % (TOKEN_SPACE - 1) + 1
  {
    TokensCycle(states, events, i);
    StepCounts(states[i], events[i]);
    NextToken(ClaimsIssued(states, events, i));
  }

  lemma SameRemainder(a: nat, b: nat)
    requires a <= b
    ensures a % TOKENS == b % TOKENS <==> (b - a) % TOKENS == 0
  {
    var p, q := a / TOKENS, b / TOKENS;
    assert a == TOKENS * p + a % TOKENS && b == TOKENS * q + b % TOKENS;
    var r := (b - a) / TOKENS;
    assert b - a == TOKENS * r + (b - a) % TOKENS;
    assert b - a == TOKENS * (q - p) + (b % TOKENS - a % TOKENS);
  }

  /** Two claims carry the same token exactly when the claims from one to the other are a multiple of 2^64 - 1. */
  lemma TokensRepeatExactlyWhen(states: seq<Ledger>, events: seq<Event>, i: nat, k: nat)
    requires Run(states, events) && i <= k < |events|
    requires Issued(states[i], events[i]).Some? && Issued(states[k], events[k]).Some?
    ensures Issued(states[i], events[i]).value.token == Issued(states[k], events[k]).value.token
            <==> (ClaimsIssued(states, events, k) - ClaimsIssued(states, events, i)) % (TOKEN_SPACE - 1) == 0
  {
    ClaimsOnlyGrow(states, events, i, k);
    TokenOfClaim(states, events, i);
    TokenOfClaim(states, events, k);
    SameRemainder(ClaimsIssued(states, events, i), ClaimsIssued(states, events, k));
  }

  // ----- a run in which a claim settles twice -------------------------------------------------------------

  const CONTEXT := Context(1, 1, 1, 1, None)

  /** One decision, registered and its turn completed, is claimed and restored over and over: the state after `n` steps. */
  function RepeatedState(n: nat): Ledger {
    if n == 0 then Ledger(map[], 0)
    else
      var claims := (n - 1) / 2;
      var state := if n > 1 && n % 2 == 1 then Claimed(TokenAfter(claims)) else Pending;
      Ledger(map[0 := Entry(CONTEXT, {0}, 0, 0, n > 1, state)], TokenAfter(claims))
  }

  function RepeatedEvent(n: nat): Event {
    if n == 0 then Registers(Registration(true, 0, {0}, CONTEXT, 0), 0)
    else if n == 1 then TurnEnds(1, 1, true)
    else if n % 2 == 0 then Claims(0, 0, 1, 1, 0)
    else Restores(Claim(0, 0, CONTEXT, TokenAfter((n - 1) / 2)))
  }

  lemma RepeatedStep(n: nat)
    ensures RepeatedState(n + 1) == Step(RepeatedState(n), RepeatedEvent(n))
  {
    if n >= 2 {
      NextToken((n - 1) / 2);
      hide AfterToken, TokenAfter;
      if n % 2 == 0 {
        assert n / 2 == (n - 1) / 2 + 1;
        assert RepeatedState(n + 1).entries == Step(RepeatedState(n), RepeatedEvent(n)).entries;
      } else {
        assert n / 2 == (n - 1) / 2;
        assert RepeatedState(n + 1).entries == Step(RepeatedState(n), RepeatedEvent(n)).entries;
      }
    } else {
      hide AfterToken;
      assert RepeatedState(n + 1).entries == Step(RepeatedState(n), RepeatedEvent(n)).entries;
    }
  }

  /** Without the bound exactly-once fails: after 2^64 - 1 more claims the first claim, long restored, settles again. */
  lemma ClaimsSettleTwiceAfterWrapping() returns (states: seq<Ledger>, events: seq<Event>, i: nat, j: nat, claim: Claim)
    ensures Run(states, events) && i < j < |events|
    ensures Settles(states[i], events[i], claim) && Settles(states[j], events[j], claim)
  {
    i, j, claim := 3, 3 + 2 * TOKENS, Claim(0, 0, CONTEXT, 1);
    events := seq(j + 1, n requires 0 <= n => RepeatedEvent(n));
    states := seq(j + 2, n requires 0 <= n => RepeatedState(n));
    forall n | 0 <= n < |events| ensures states[n + 1] == Step(states[n], events[n]) {
      RepeatedStep(n);
    }
    assert (i - 1) / 2 == 1 && (j - 1) / 2 == TOKENS + 1;
    assert TokenAfter(1) == 1 && TokenAfter(TOKENS + 1) == 1;
  }
}
