/** Attachments over whole runs: what was registered resolves until one of its handles expires or is consumed. */
module AttachmentRuns {
  import opened Prelude
  import opened Attachments

  /** Resolving changes nothing; a registration carries the answer it gave. */
  datatype Event =
    | Registration(
        context: Context, candidates: seq<Candidate>, existing: seq<Handle>, now: Instant, reply: Result<Response, Code>)
    | Resolution(context: Context, handles: seq<Handle>, now: Instant)
    | Consumption(context: Context, handles: seq<Handle>)

  ghost predicate Follows(s: Service, e: Event, s': Service) {
    match e
    case Registration(context, candidates, existing, now, reply) => Registers(s, context, candidates, existing, now, reply, s')
    case Resolution(_, _, _) => s' == s
    case Consumption(context, handles) => Consumes(s, context, handles, s')
  }

  ghost predicate Run(states: seq<Service>, events: seq<Event>) {
    && |states| == |events| + 1 && states[0] == Service(map[], 0)
    && forall i :: 0 <= i < |events| ==> Follows(states[i], events[i], states[i + 1])
  }

  lemma StepKeepsFresh(s: Service, e: Event, s': Service)
    requires Fresh(s) && Follows(s, e, s')
    ensures Fresh(s') && s.nextHandle <= s'.nextHandle
  {
    hide Answers, HasRecord, BudgetOf, UsableHandles;
  }

  /** No step makes a handle that was given out before usable again. */
  lemma StepMakesNothingUsable(s: Service, e: Event, s': Service, context: Context, h: Handle)
    requires Fresh(s) && Follows(s, e, s') && h < s.nextHandle && Usable(s'.records, context, h)
    ensures Usable(s.records, context, h)
  {
    hide Answers, HasRecord, BudgetOf, UsableHandles;
  }

  lemma {:induction false} HandlesStayFresh(states: seq<Service>, events: seq<Event>, i: nat)
    requires Run(states, events) && i < |states|
    ensures Fresh(states[i])
  {
    hide Follows;
    if i == 0 {
      assert Fresh(states[0]);
    } else {
      HandlesStayFresh(states, events, i - 1);
      assert Follows(states[i - 1], events[i - 1], states[i - 1 + 1]);
      StepKeepsFresh(states[i - 1], events[i - 1], states[i]);
    }
  }

  /** A handle that was given out and is not usable in a workspace never becomes usable there. */
  lemma {:induction false} UnusableForGood(
    states: seq<Service>, events: seq<Event>, i: nat, j: nat, context: Context, h: Handle)
    requires Run(states, events) && i <= j < |states|
    requires h < states[i].nextHandle && !Usable(states[i].records, context, h)
    ensures h < states[j].nextHandle && !Usable(states[j].records, context, h)
  {
    hide Follows, Usable;
    if i < j {
      UnusableForGood(states, events, i, j - 1, context, h);
      HandlesStayFresh(states, events, j - 1);
      assert Follows(states[j - 1], events[j - 1], states[j - 1 + 1]);
      StepKeepsFresh(states[j - 1], events[j - 1], states[j]);
      if Usable(states[j].records, context, h) {
        StepMakesNothingUsable(states[j - 1], events[j - 1], states[j], context, h);
      }
    }
  }

  // ----- from one registration on -------------------------------------------------------------------------

  /** The handles a turn may name after a registration: the existing ones that still counted, and the new ones. */
  function HandlesAfter(s: Service, e: Event): seq<Handle>
    requires e.Registration? && e.reply.Ok?
  {
    UsableHandles(Live(s.records, e.now), e.context, e.existing) + HandlesOf(e.reply.value.items)
  }

  /** The existing handles that still counted are within the total. */
  ghost predicate ExistingFit(s: Service, e: Event)
    requires e.Registration?
  {
    var live := Live(s.records, e.now);
    TotalBytes(live, UsableHandles(live, e.context, e.existing)) <= MAX_TOTAL_BYTES
  }

  /** None of these records has expired at this moment. */
  ghost predicate Unexpired(records: map<Handle, Record>, handles: seq<Handle>, now: Instant) {
    forall h :: h in handles && h in records ==> records[h].expiresAt >= now
  }

  /** The event consumes one of these handles, in the workspace they belong to. */
  ghost predicate Spends(e: Event, context: Context, handles: seq<Handle>) {
    e.Consumption? && e.context == context && exists h :: h in handles && h in e.handles
  }

  ghost predicate SpentBetween(events: seq<Event>, i: nat, j: nat, context: Context, handles: seq<Handle>) {
    exists k :: i < k < j && k < |events| && Spends(events[k], context, handles)
  }

  /** No clock reading of a registration after the `i`-th event and before the `j`-th is later than the least expiry. */
  ghost predicate ReadingsWithin(
    states: seq<Service>, events: seq<Event>, i: nat, j: nat, handles: seq<Handle>)
    requires i + 1 < |states|
  {
    forall k :: i < k < j && k < |events| && events[k].Registration? ==> Unexpired(states[i + 1].records, handles, events[k].now)
  }

  ghost predicate Belong(records: map<Handle, Record>, context: Context, handles: seq<Handle>) {
    forall h :: h in handles ==> Usable(records, context, h)
  }

  lemma RegistrationIsRegistered(s: Service, e: Event, s': Service)
    requires Fresh(s) && e.Registration? && e.reply.Ok? && Follows(s, e, s')
    ensures Registered(Live(s.records, e.now), e.context, e.existing, e.candidates, s.nextHandle, e.now + TTL, e.reply.value, s'.records)
    ensures Belong(s'.records, e.context, HandlesAfter(s, e))
  {
    hide Answers, BudgetOf, BudgetBefore;
    var live := Live(s.records, e.now);
    var items := e.reply.value.items;
    ItemsInRecords(live, e.context, e.now + TTL, items, s.nextHandle, s'.records);
    hide Adds, UsableHandles, HandlesOf;
    forall h | h in HandlesAfter(s, e) ensures Usable(s'.records, e.context, h) {
      if h in UsableHandles(live, e.context, e.existing) {
        assert h in live;
      } else {
        var i :| 0 <= i < |HandlesOf(items)| && HandlesOf(items)[i] == h;
        assert HasRecord(s'.records, items[i], e.context, e.now + TTL);
      }
    }
  }

  /** A step that does not spend these handles, and reads no later clock than their expiry, leaves their records alone. */
  lemma StepKeepsRecords(s: Service, e: Event, s': Service, context: Context, handles: seq<Handle>)
    requires Follows(s, e, s') && Belong(s.records, context, handles)
    requires !Spends(e, context, handles) && (e.Registration? ==> Unexpired(s.records, handles, e.now))
    ensures Kept(s.records, s'.records, handles)
  {
    hide Answers, BudgetOf, BudgetBefore, UsableHandles;
    match e
    case Registration(_, _, _, now, reply) =>
      if reply.Ok? {
        hide Adds;
        assert forall h :: h in handles ==> Usable(s.records, context, h);
        LaterRegistrationsKeep(s.records, handles, e.context, reply.value.items, s.nextHandle, s'.records, now);
      } else {
        assert s' == s;
      }
    case Resolution(_, _, _) =>
    case Consumption(_, _) =>
      forall h | h in handles ensures h in s.records && h in s'.records && s'.records[h] == s.records[h] {
        assert Usable(s.records, context, h);
      }
  }

  lemma BetweenShrinks(states: seq<Service>, events: seq<Event>, i: nat, j: nat, context: Context, handles: seq<Handle>)
    requires i + 1 < j < |states| && |states| == |events| + 1
    requires ReadingsWithin(states, events, i, j, handles) && !SpentBetween(events, i, j, context, handles)
    ensures ReadingsWithin(states, events, i, j - 1, handles) && !SpentBetween(events, i, j - 1, context, handles)
    ensures events[j - 1].Registration? ==> Unexpired(states[i + 1].records, handles, events[j - 1].now)
    ensures !Spends(events[j - 1], context, handles)
  {
    hide Unexpired, Spends;
  }

  lemma KeptTwice(records0: map<Handle, Record>, records1: map<Handle, Record>, records2: map<Handle, Record>, handles: seq<Handle>)
    requires Kept(records0, records1, handles) && Kept(records1, records2, handles)
    ensures Kept(records0, records2, handles)
  {
  }

  lemma KeptItself(records: map<Handle, Record>, context: Context, handles: seq<Handle>)
    requires Belong(records, context, handles)
    ensures Kept(records, records, handles)
  {
    forall h | h in handles ensures h in records {
      assert Usable(records, context, h);
    }
  }

  lemma {:induction false} UnspentAreKept(states: seq<Service>, events: seq<Event>, i: nat, j: nat)
    requires Run(states, events) && i < j < |states| && events[i].Registration? && events[i].reply.Ok?
    requires ReadingsWithin(states, events, i, j, HandlesAfter(states[i], events[i]))
    requires !SpentBetween(events, i, j, events[i].context, HandlesAfter(states[i], events[i]))
    ensures Belong(states[i + 1].records, events[i].context, HandlesAfter(states[i], events[i]))
    ensures Kept(states[i + 1].records, states[j].records, HandlesAfter(states[i], events[i]))
  {
    hide Follows, Registered, HandlesAfter, ReadingsWithin, SpentBetween, Spends, Kept, Belong, Unexpired;
    var handles, context := HandlesAfter(states[i], events[i]), events[i].context;
    assert Follows(states[j - 1], events[j - 1], states[j - 1 + 1]);
    if i + 1 == j {
      HandlesStayFresh(states, events, i);
      RegistrationIsRegistered(states[i], events[i], states[j]);
      KeptItself(states[j].records, context, handles);
    } else {
      BetweenShrinks(states, events, i, j, context, handles);
      UnspentAreKept(states, events, i, j - 1);
      KeptBelong(states[i + 1].records, states[j - 1].records, context, handles);
      StepKeepsRecords(states[j - 1], events[j - 1], states[j], context, handles);
      KeptTwice(states[i + 1].records, states[j - 1].records, states[j].records, handles);
    }
  }

  lemma KeptBelong(records: map<Handle, Record>, records': map<Handle, Record>, context: Context, handles: seq<Handle>)
    requires Belong(records, context, handles) && Kept(records, records', handles)
    ensures Belong(records', context, handles)
    ensures forall now :: Unexpired(records, handles, now) ==> Unexpired(records', handles, now)
  {
    forall h | h in handles ensures Usable(records', context, h) {
      assert Usable(records, context, h);
    }
  }

  /** A handle that is consumed in a workspace is not usable there any more. */
  lemma SpentIsGone(s: Service, e: Event, s': Service, h: Handle)
    requires Follows(s, e, s') && e.Consumption? && h in e.handles
    ensures !Usable(s'.records, e.context, h)
  {
  }

  lemma UnusableDoesNotPass(records: map<Handle, Record>, context: Context, handles: seq<Handle>, now: Instant, h: Handle)
    requires h in handles && !Usable(records, context, h)
    ensures !Passes(records, context, handles, now)
  {
    var p :| 0 <= p < |handles| && handles[p] == h;
    assert !Resolvable(records, context, handles[p], now);
  }

  /** The handles of a registration are below the counter from then on. */
  lemma {:induction false} GivenOut(states: seq<Service>, events: seq<Event>, i: nat, j: nat, h: Handle)
    requires Run(states, events) && i < j < |states| && events[i].Registration? && events[i].reply.Ok?
    requires h in HandlesAfter(states[i], events[i])
    ensures h < states[j].nextHandle
  {
    HandlesStayFresh(states, events, j - 1);
    assert Follows(states[j - 1], events[j - 1], states[j - 1 + 1]);
    StepKeepsFresh(states[j - 1], events[j - 1], states[j]);
    if i + 1 == j {
      RegistrationIsRegistered(states[i], events[i], states[j]);
      hide Follows, HandlesAfter, Registered;
      assert Usable(states[j].records, events[i].context, h);
    } else {
      hide Follows, HandlesAfter;
      GivenOut(states, events, i, j - 1, h);
    }
  }

  /** Consuming one of the handles takes it away for good. */
  lemma SpentDoesNotPass(states: seq<Service>, events: seq<Event>, i: nat, j: nat, now: Instant)
    requires Run(states, events) && i < j < |states| && events[i].Registration? && events[i].reply.Ok?
    requires SpentBetween(events, i, j, events[i].context, HandlesAfter(states[i], events[i]))
    ensures !Passes(states[j].records, events[i].context, HandlesAfter(states[i], events[i]), now)
  {
    hide Follows, HandlesAfter, Usable, Passes;
    var handles, context := HandlesAfter(states[i], events[i]), events[i].context;
    var k :| i < k < j && k < |events| && Spends(events[k], context, handles);
    var h :| h in handles && h in events[k].handles;
    assert Follows(states[k], events[k], states[k + 1]);
    SpentIsGone(states[k], events[k], states[k + 1], h);
    GivenOut(states, events, i, k + 1, h);
    UnusableForGood(states, events, k + 1, j, context, h);
    UnusableDoesNotPass(states[j].records, context, handles, now, h);
  }

  /** Unspent handles keep passing until one of them expires. */
  lemma UnspentPass(states: seq<Service>, events: seq<Event>, i: nat, j: nat, now: Instant)
    requires Run(states, events) && i < j < |states| && events[i].Registration? && events[i].reply.Ok?
    requires ExistingFit(states[i], events[i])
    requires ReadingsWithin(states, events, i, j, HandlesAfter(states[i], events[i]))
    requires Unexpired(states[i + 1].records, HandlesAfter(states[i], events[i]), now)
    requires !SpentBetween(events, i, j, events[i].context, HandlesAfter(states[i], events[i]))
    ensures Passes(states[j].records, events[i].context, HandlesAfter(states[i], events[i]), now)
  {
    var e := events[i];
    UnspentAreKept(states, events, i, j);
    HandlesStayFresh(states, events, i);
    assert Follows(states[i], e, states[i + 1]);
    RegistrationIsRegistered(states[i], e, states[i + 1]);
    hide Follows, Registered, Passes, ReadingsWithin, SpentBetween, Usable;
    RegisteredHandlesResolve(
      Live(states[i].records, e.now), e.context, e.existing, e.candidates, states[i].nextHandle, e.now + TTL, e.reply.value,
      states[i + 1].records, states[j].records, now);
  }

  /**
   * Registration and resolution agree. After a registration whose existing handles fit the total, whatever else is
   * registered, resolved or consumed by readings no later than the least expiry: those handles and the new ones pass all
   * record checks of a turn exactly as long as no consumption in their workspace names one of them.
   */
  lemma RegisteredPassUntilSpent(states: seq<Service>, events: seq<Event>, i: nat, j: nat, now: Instant)
    requires Run(states, events) && i < j < |states| && events[i].Registration? && events[i].reply.Ok?
    requires ExistingFit(states[i], events[i])
    requires ReadingsWithin(states, events, i, j, HandlesAfter(states[i], events[i]))
    requires Unexpired(states[i + 1].records, HandlesAfter(states[i], events[i]), now)
    ensures Passes(states[j].records, events[i].context, HandlesAfter(states[i], events[i]), now)
            <==> !SpentBetween(events, i, j, events[i].context, HandlesAfter(states[i], events[i]))
  {
    hide Passes, HandlesAfter, ReadingsWithin, Unexpired;
    if SpentBetween(events, i, j, events[i].context, HandlesAfter(states[i], events[i])) {
      SpentDoesNotPass(states, events, i, j, now);
    } else {
      UnspentPass(states, events, i, j, now);
    }
  }
}
