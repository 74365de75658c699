/** What a registration answers and records, with the limits, the lifetime and the codes written out. */
module AttachmentLaws {
  import opened Prelude
  import opened Attachments
  import opened AttachmentRuns

  // ----- the budget a registration starts from ------------------------------------------------------------

  /** An existing handle that still counts: registered for this workspace and not expired. */
  ghost predicate Counts(records: map<Handle, Record>, context: Context, now: Instant, h: Handle) {
    h in records && records[h].context == context && records[h].expiresAt >= now
  }

  ghost function Counting(records: map<Handle, Record>, context: Context, existing: seq<Handle>, now: Instant): set<Handle> {
    set h | h in existing && Counts(records, context, now, h)
  }

  /** The budget of the existing handles: how many still count, which paths they have. */
  lemma ExistingBudget(records: map<Handle, Record>, context: Context, existing: seq<Handle>, now: Instant)
    requires Distinct(existing)
    ensures var live := Live(records, now); var b := BudgetOf(live, UsableHandles(live, context, existing));
            && b.count == |Counting(records, context, existing, now)|
            && forall path :: path in b.paths <==>
                 exists h :: h in Counting(records, context, existing, now) && records[h].snapshot.path == path
  {
    var live := Live(records, now);
    var usable := UsableHandles(live, context, existing);
    UsableHandlesDistinct(live, context, existing);
    ListingSize(usable, Counting(records, context, existing, now));
    hide UsableHandles, TotalBytes;
    var b := BudgetOf(live, usable);
    forall path ensures path in b.paths <==> exists h :: h in Counting(records, context, existing, now) && records[h].snapshot.path == path {
      if h :| h in usable && h in live && live[h].snapshot.path == path {
        assert h in Counting(records, context, existing, now);
      }
      if h :| h in Counting(records, context, existing, now) && records[h].snapshot.path == path {
        assert h in usable && h in live;
      }
    }
  }

  // ----- rejections ---------------------------------------------------------------------------------------

  /** Why candidate `k` is turned away: the first reason that applies. */
  ghost predicate TurnedAway(b: Budget, candidates: seq<Candidate>, k: nat, code: Code)
    requires k < |candidates| && AllReadable(candidates, AcceptedIndices(b, candidates, k))
  {
    var before := AcceptedIndices(b, candidates, k);
    if candidates[k].Err? then code == candidates[k].error
    else
      var snapshot := candidates[k].value;
      if snapshot.path in b.paths || exists j :: j in before && TakesPath(candidates, j, snapshot.path) then code == Duplicate
      else if b.count + |before| >= 10 then code == CountLimit
      else code == TotalLimit && b.total + ItemBytes(ItemsOf(candidates, before, 0)) + snapshot.bytes > 52_428_800
  }

  lemma {:induction false} RejectedUnderVerdict(b: Budget, candidates: seq<Candidate>, n: nat, k: nat, code: Code)
    requires k < n <= |candidates|
    ensures Rejection(k, code) in Rejections(b, candidates, n) <==> Verdict(BudgetBefore(b, candidates, k), candidates[k]) == Some(code)
  {
    NextVerdict(b, candidates, n - 1);
    hide Verdict, BudgetBefore, AcceptedIndices, Rejections;
    if k < n - 1 {
      RejectedUnderVerdict(b, candidates, n - 1, k, code);
    } else {
      RejectionsAreEarlier(b, candidates, k, code);
    }
  }

  lemma {:induction false} RejectionsAreEarlier(b: Budget, candidates: seq<Candidate>, n: nat, code: Code)
    requires n < |candidates|
    ensures Rejection(n, code) !in Rejections(b, candidates, n)
  {
    EveryCandidateLandsOnce(b, candidates, n);
    hide Rejections, AcceptedIndices;
    var rejections := Rejections(b, candidates, n);
    assert forall i :: 0 <= i < |rejections| ==> rejections[i].candidate == RejectedIndices(rejections)[i];
  }

  /** A candidate is turned away with a code exactly when it is not accepted and that is the first reason. */
  lemma RejectedExactlyWhen(b: Budget, candidates: seq<Candidate>, k: nat, code: Code)
    requires k < |candidates|
    ensures AllReadable(candidates, AcceptedIndices(b, candidates, k))
    ensures Rejection(k, code) in Rejections(b, candidates, |candidates|) <==>
            k !in AcceptedIndices(b, candidates, |candidates|) && TurnedAway(b, candidates, k, code)
  {
    AllAccepted(b, candidates, k);
    BudgetPaysForItems(b, candidates, k, 0);
    if candidates[k].Ok? {
      BudgetKnowsPaths(b, candidates, k, candidates[k].value.path);
    }
    RejectedUnderVerdict(b, candidates, |candidates|, k, code);
    AcceptedByVerdict(b, candidates, |candidates|, k);
    hide AcceptedIndices, BudgetBefore, ItemBytes, ItemsOf, Rejections, AllReadable;
  }

  // ----- registrations and consumptions in a run ----------------------------------------------------------

  /**
   * A registration is refused for more than ten or repeated existing handles, or for more than 64 candidates. Otherwise what
   * has expired is dropped, everything else stays, and each item gets a new record for half an hour.
   */
  ghost predicate RegistrationDecided(
    s: Service, context: Context, candidates: seq<Candidate>, existing: seq<Handle>, now: Instant, reply: Result<Response, Code>, s': Service)
  {
    if |existing| > 10 || !Distinct(existing) then reply == Err(HandlesInvalid) && s' == s
    else if |candidates| > 64 then reply == Err(CandidateLimit) && s' == s
    else
      && reply.Ok? && |reply.value.items| + |reply.value.rejections| == |candidates|
      && (forall h :: h in s.records && s.records[h].expiresAt < now ==> h !in s'.records)
      && (forall h :: h in s.records && s.records[h].expiresAt >= now ==> h in s'.records && s'.records[h] == s.records[h])
      && (forall item :: item in reply.value.items ==>
            && item.handle !in s.records && item.handle in s'.records
            && s'.records[item.handle] == Record(context, now + 1_800, item.snapshot))
      && forall h :: h in s'.records && h !in s.records ==> exists item :: item in reply.value.items && item.handle == h
  }

  lemma AnswersShareOut(b: Budget, candidates: seq<Candidate>, first: Handle, budget: Budget, response: Response)
    requires Answers(b, candidates, |candidates|, first, budget, response)
    ensures |response.items| + |response.rejections| == |candidates|
  {
    EveryCandidateLandsOnce(b, candidates, |candidates|);
    hide AcceptedIndices, Rejections, BudgetBefore, ItemsOf, AllReadable;
  }

  lemma AddedRecords(
    records: map<Handle, Record>, context: Context, expiresAt: Instant, items: seq<Item>, first: Handle, records': map<Handle, Record>)
    requires Adds(records, context, expiresAt, items, first, records')
    ensures forall item :: item in items ==>
              first <= item.handle && item.handle in records' && records'[item.handle] == Record(context, expiresAt, item.snapshot)
    ensures forall h :: h in records ==> h in records' && records'[h] == records[h]
    ensures forall h :: h in records' && h !in records ==> exists item :: item in items && item.handle == h
  {
    forall item | item in items
      ensures first <= item.handle && item.handle in records' && records'[item.handle] == Record(context, expiresAt, item.snapshot)
    {
      var i :| 0 <= i < |items| && items[i] == item;
      assert HasRecord(records', Item(first + i, items[i].snapshot), context, expiresAt);
    }
    forall h | h in records' && h !in records ensures exists item :: item in items && item.handle == h {
      assert items[h - first].handle == h;
      assert items[h - first] in items;
    }
  }

  lemma RegistrationLaw(
    s: Service, context: Context, candidates: seq<Candidate>, existing: seq<Handle>, now: Instant, reply: Result<Response, Code>, s': Service)
    requires Fresh(s) && Registers(s, context, candidates, existing, now, reply, s')
    ensures RegistrationDecided(s, context, candidates, existing, now, reply, s')
  {
    hide Answers, Adds, BudgetOf, UsableHandles, BudgetBefore;
    if ValidHandles(existing) && |candidates| <= MAX_CANDIDATES {
      var live := Live(s.records, now);
      var b := BudgetOf(live, UsableHandles(live, context, existing));
      AnswersShareOut(b, candidates, s.nextHandle, BudgetBefore(b, candidates, |candidates|), reply.value);
      AddedRecords(live, context, now + TTL, reply.value.items, s.nextHandle, s'.records);
      ExpiredAreGone(s, context, now + TTL, reply.value.items, now, s');
    }
  }

  lemma ExpiredAreGone(s: Service, context: Context, expiresAt: Instant, items: seq<Item>, now: Instant, s': Service)
    requires Fresh(s) && Adds(Live(s.records, now), context, expiresAt, items, s.nextHandle, s'.records)
    ensures forall h :: h in s.records && s.records[h].expiresAt < now ==> h !in s'.records
  {
    hide HasRecord;
  }

  /** What every registration and every consumption of a run does. */
  lemma StepsAreDecided(states: seq<Service>, events: seq<Event>, i: nat)
    requires Run(states, events) && i < |events|
    ensures var s, e, s' := states[i], events[i], states[i + 1];
            match e
            case Registration(context, candidates, existing, now, reply) =>
              RegistrationDecided(s, context, candidates, existing, now, reply, s')
            case Resolution(_, _, _) => s' == s
            case Consumption(context, handles) =>
              && (forall h :: h in s.records && h in handles && s.records[h].context == context ==> h !in s'.records)
              && (forall h :: h in s.records && (h !in handles || s.records[h].context != context) ==>
                    h in s'.records && s'.records[h] == s.records[h])
              && forall h :: h in s'.records ==> h in s.records
  {
    HandlesStayFresh(states, events, i);
    assert Follows(states[i], events[i], states[i + 1]);
    var e := events[i];
    if e.Registration? {
      RegistrationLaw(states[i], e.context, e.candidates, e.existing, e.now, e.reply, states[i + 1]);
      hide Registers, RegistrationDecided;
    }
  }
}
