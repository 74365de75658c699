/**
 * Registration and resolution of attachments. Opening and reading candidate files is an oracle that delivers a snapshot
 * or a reason per candidate; budgets, handles, expiry and the agreement of the two entry points are modelled.
 */
module Attachments {
  import opened Prelude

  type Handle = nat
  type Path = nat
  type Instant = nat

  const MAX_COUNT: nat := 10
  const MAX_TOTAL_BYTES: nat := 50 * 1024 * 1024
  const MAX_CANDIDATES: nat := 64
  const TTL: nat := 30 * 60

  datatype Context = Context(workspaceId: nat, generation: nat, device: nat, inode: nat)

  datatype Snapshot = Snapshot(path: Path, bytes: nat)

  datatype Record = Record(context: Context, expiresAt: Instant, snapshot: Snapshot)

  datatype Code =
    | HandlesInvalid
    | CandidateLimit
    | Duplicate
    | CountLimit
    | TotalLimit
    | HandleInvalid
    | HandleExpired
    | HandleStale
    | Unreadable(detail: nat)

  type Candidate = Result<Snapshot, Code>

  datatype Item = Item(handle: Handle, snapshot: Snapshot)

  datatype Rejection = Rejection(candidate: nat, code: Code)

  // ----- budgets ------------------------------------------------------------------------------------------

  /** What is already attached. */
  datatype Budget = Budget(count: nat, total: nat, paths: set<Path>)

  /** Why a candidate is turned away, or nothing if it is accepted. */
  function Verdict(b: Budget, candidate: Candidate): Option<Code> {
    match candidate
    case Err(code) => Some(code)
    case Ok(snapshot) =>
      if snapshot.path in b.paths then Some(Duplicate)
      else if b.count >= MAX_COUNT then Some(CountLimit)
      else if b.total + snapshot.bytes > MAX_TOTAL_BYTES then Some(TotalLimit)
      else None
  }

  function Charge(b: Budget, candidate: Candidate): Budget {
    if Verdict(b, candidate).Some? then b
    else Budget(b.count + 1, b.total + candidate.value.bytes, b.paths + {candidate.value.path})
  }

  /** The budget before the `n`-th candidate is looked at. */
  function BudgetBefore(b: Budget, candidates: seq<Candidate>, n: nat): Budget
    requires n <= |candidates|
  {
    if n == 0 then b else Charge(BudgetBefore(b, candidates, n - 1), candidates[n - 1])
  }

  function TotalBytes(records: map<Handle, Record>, handles: seq<Handle>): nat {
    if handles == [] then 0
    else (if handles[0] in records then records[handles[0]].snapshot.bytes else 0) + TotalBytes(records, handles[1..])
  }

  function PathsOf(records: map<Handle, Record>, handles: seq<Handle>): set<Path> {
    set h | h in handles && h in records :: records[h].snapshot.path
  }

  function BudgetOf(records: map<Handle, Record>, handles: seq<Handle>): Budget {
    Budget(|handles|, TotalBytes(records, handles), PathsOf(records, handles))
  }

  predicate Usable(records: map<Handle, Record>, context: Context, handle: Handle) {
    handle in records && records[handle].context == context
  }

  /** The existing handles that still count: registered and of this workspace. */
  function UsableHandles(records: map<Handle, Record>, context: Context, handles: seq<Handle>): (r: seq<Handle>)
    ensures |r| <= |handles|
    ensures forall h :: h in r <==> h in handles && Usable(records, context, h)
  {
    if handles == [] then []
    else (if Usable(records, context, handles[0]) then [handles[0]] else []) + UsableHandles(records, context, handles[1..])
  }

  function Live(records: map<Handle, Record>, now: Instant): map<Handle, Record> {
    map h | h in records && records[h].expiresAt >= now :: records[h]
  }

  // ----- resolution ---------------------------------------------------------------------------------------

  ghost predicate ValidHandles(handles: seq<Handle>) {
    |handles| <= MAX_COUNT && Distinct(handles)
  }

  ghost predicate Resolvable(records: map<Handle, Record>, context: Context, handle: Handle, now: Instant) {
    Usable(records, context, handle) && records[handle].expiresAt >= now
  }

  /** All record checks of a turn: known, live, of this workspace, and together within the total. */
  ghost predicate Passes(records: map<Handle, Record>, context: Context, handles: seq<Handle>, now: Instant) {
    && ValidHandles(handles)
    && (forall i :: 0 <= i < |handles| ==> Resolvable(records, context, handles[i], now))
    && TotalBytes(records, handles) <= MAX_TOTAL_BYTES
  }

  /** Why the handle at place `i` is refused, the handles before it being fine. */
  ghost predicate RefusedAt(records: map<Handle, Record>, context: Context, handles: seq<Handle>, now: Instant, i: nat, code: Code)
    requires i < |handles|
  {
    if handles[i] !in records then code == HandleInvalid
    else if records[handles[i]].expiresAt < now then code == HandleExpired
    else if records[handles[i]].context != context then code == HandleStale
    else code == TotalLimit && TotalBytes(records, handles[..i + 1]) > 52_428_800
  }

  lemma PrefixPasses(records: map<Handle, Record>, context: Context, handles: seq<Handle>, now: Instant, i: nat)
    requires i <= |handles| && ValidHandles(handles) && TotalBytes(records, handles[..i]) <= MAX_TOTAL_BYTES
    requires forall j :: 0 <= j < i ==> Resolvable(records, context, handles[j], now)
    ensures Passes(records, context, handles[..i], now)
  {
  }

  lemma {:induction false} TotalBytesAppend(records: map<Handle, Record>, a: seq<Handle>, b: seq<Handle>)
    ensures TotalBytes(records, a + b) == TotalBytes(records, a) + TotalBytes(records, b)
  {
    if a == [] {
      assert a + b == b;
    } else {
      assert (a + b)[1..] == a[1..] + b;
      TotalBytesAppend(records, a[1..], b);
    }
  }

  lemma {:induction false} TotalBytesAgree(records: map<Handle, Record>, records': map<Handle, Record>, handles: seq<Handle>)
    requires forall h :: h in handles ==> h in records && h in records' && records'[h] == records[h]
    ensures TotalBytes(records', handles) == TotalBytes(records, handles)
  {
    if handles != [] {
      assert handles[0] in handles && forall h :: h in handles[1..] ==> h in handles;
      TotalBytesAgree(records, records', handles[1..]);
    }
  }

  lemma {:induction false} UsableHandlesDistinct(records: map<Handle, Record>, context: Context, handles: seq<Handle>)
    requires Distinct(handles)
    ensures Distinct(UsableHandles(records, context, handles))
  {
    if handles != [] {
      UsableHandlesDistinct(records, context, handles[1..]);
      assert forall i :: 0 <= i < |handles[1..]| ==> handles[1..][i] == handles[i + 1];
    }
  }

  /** A prefix weighs no more than the whole list. */
  lemma PrefixTotal(records: map<Handle, Record>, handles: seq<Handle>, i: nat)
    requires i <= |handles|
    ensures TotalBytes(records, handles[..i]) <= TotalBytes(records, handles)
  {
    assert handles == handles[..i] + handles[i..];
    TotalBytesAppend(records, handles[..i], handles[i..]);
  }

  lemma NextTotal(records: map<Handle, Record>, handles: seq<Handle>, i: nat)
    requires i < |handles| && handles[i] in records
    ensures TotalBytes(records, handles[..i + 1]) == TotalBytes(records, handles[..i]) + records[handles[i]].snapshot.bytes
  {
    assert handles[..i + 1] == handles[..i] + [handles[i]];
    TotalBytesAppend(records, handles[..i], [handles[i]]);
    assert [handles[i]][1..] == [];
  }

  // ----- which candidates are accepted --------------------------------------------------------------------

  /** The indices of the accepted candidates among the first `n`. */
  function AcceptedIndices(b: Budget, candidates: seq<Candidate>, n: nat): seq<nat>
    requires n <= |candidates|
  {
    if n == 0 then []
    else
      var before := AcceptedIndices(b, candidates, n - 1);
      if Verdict(BudgetBefore(b, candidates, n - 1), candidates[n - 1]).None? then before + [n - 1] else before
  }

  /** The rejections among the first `n` candidates. */
  function Rejections(b: Budget, candidates: seq<Candidate>, n: nat): seq<Rejection>
    requires n <= |candidates|
  {
    if n == 0 then []
    else
      var before := Rejections(b, candidates, n - 1);
      var verdict := Verdict(BudgetBefore(b, candidates, n - 1), candidates[n - 1]);
      if verdict.None? then before else before + [Rejection(n - 1, verdict.value)]
  }

  ghost predicate Increasing(indices: seq<nat>, bound: nat) {
    && (forall i, j :: 0 <= i < j < |indices| ==> indices[i] < indices[j])
    && (forall i :: 0 <= i < |indices| ==> indices[i] < bound)
  }

  function RejectedIndices(rejections: seq<Rejection>): (r: seq<nat>)
    ensures |r| == |rejections| && forall i :: 0 <= i < |r| ==> r[i] == rejections[i].candidate
  {
    if rejections == [] then [] else [rejections[0].candidate] + RejectedIndices(rejections[1..])
  }

  lemma IncreasingAppend(indices: seq<nat>, n: nat)
    requires Increasing(indices, n)
    ensures Increasing(indices + [n], n + 1) && Increasing(indices, n + 1)
    ensures forall k :: k in indices + [n] <==> k in indices || k == n
  {
  }

  lemma {:induction false} RejectedAppend(rejections: seq<Rejection>, r: Rejection)
    ensures RejectedIndices(rejections + [r]) == RejectedIndices(rejections) + [r.candidate]
  {
    assert forall i :: 0 <= i < |rejections| ==> (rejections + [r])[i] == rejections[i];
  }

  /** What looking at one more candidate adds. */
  lemma NextVerdict(b: Budget, candidates: seq<Candidate>, n: nat)
    requires n < |candidates|
    ensures var verdict := Verdict(BudgetBefore(b, candidates, n), candidates[n]);
            && BudgetBefore(b, candidates, n + 1) == Charge(BudgetBefore(b, candidates, n), candidates[n])
            && (verdict.None? ==>
                  && candidates[n].Ok?
                  && AcceptedIndices(b, candidates, n + 1) == AcceptedIndices(b, candidates, n) + [n]
                  && Rejections(b, candidates, n + 1) == Rejections(b, candidates, n))
            && (verdict.Some? ==>
                  && AcceptedIndices(b, candidates, n + 1) == AcceptedIndices(b, candidates, n)
                  && Rejections(b, candidates, n + 1) == Rejections(b, candidates, n) + [Rejection(n, verdict.value)])
  {
  }

  /** Two increasing lists share out the numbers below `n`. */
  ghost predicate ShareOut(a: seq<nat>, b: seq<nat>, n: nat) {
    && Increasing(a, n) && Increasing(b, n)
    && |a| + |b| == n
    && forall k :: 0 <= k < n ==> (k in a <==> k !in b)
  }

  lemma ShareOutNext(a: seq<nat>, b: seq<nat>, n: nat)
    requires ShareOut(a, b, n)
    ensures ShareOut(a + [n], b, n + 1) && ShareOut(a, b + [n], n + 1)
  {
    IncreasingAppend(a, n);
    IncreasingAppend(b, n);
    LargestIsNew(a, n);
    LargestIsNew(b, n);
    hide Increasing;
  }

  lemma NothingToShare()
    ensures ShareOut([], [], 0)
  {
  }

  lemma LargestIsNew(indices: seq<nat>, n: nat)
    requires Increasing(indices, n)
    ensures n !in indices
  {
  }

  /** Every candidate index lands in exactly one of items and rejections, once and in order. */
  lemma {:induction false} EveryCandidateLandsOnce(b: Budget, candidates: seq<Candidate>, n: nat)
    requires n <= |candidates|
    ensures ShareOut(AcceptedIndices(b, candidates, n), RejectedIndices(Rejections(b, candidates, n)), n)
  {
    hide ShareOut;
    if n == 0 {
      NothingToShare();
    } else {
      EveryCandidateLandsOnce(b, candidates, n - 1);
      NextVerdict(b, candidates, n - 1);
      hide AcceptedIndices, Rejections, BudgetBefore, Verdict;
      var rejections := Rejections(b, candidates, n - 1);
      var verdict := Verdict(BudgetBefore(b, candidates, n - 1), candidates[n - 1]);
      ShareOutNext(AcceptedIndices(b, candidates, n - 1), RejectedIndices(rejections), n - 1);
      if verdict.Some? {
        RejectedAppend(rejections, Rejection(n - 1, verdict.value));
      }
    }
  }

  lemma {:induction false} AcceptedAreFine(b: Budget, candidates: seq<Candidate>, n: nat, k: nat)
    requires n <= |candidates| && k in AcceptedIndices(b, candidates, n)
    ensures k < n && Verdict(BudgetBefore(b, candidates, k), candidates[k]).None?
  {
    hide Verdict, BudgetBefore;
    if k in AcceptedIndices(b, candidates, n - 1) {
      AcceptedAreFine(b, candidates, n - 1, k);
    }
  }

  /** The paths of accepted candidates are new: distinct from one another and from those attached before. */
  lemma {:induction false} AcceptedPathsAreDistinct(b: Budget, candidates: seq<Candidate>, n: nat, j: nat, k: nat)
    requires n <= |candidates| && j < k
    requires j in AcceptedIndices(b, candidates, n) && k in AcceptedIndices(b, candidates, n)
    ensures k < |candidates| && candidates[j].Ok? && candidates[k].Ok? && candidates[j].value.path != candidates[k].value.path
    ensures candidates[k].value.path !in b.paths && candidates[j].value.path !in b.paths
  {
    AcceptedAreFine(b, candidates, n, j);
    AcceptedAreFine(b, candidates, n, k);
    PathsOnlyGrow(b, candidates, 0, j);
    PathsOnlyGrow(b, candidates, 0, k);
    PathsOnlyGrow(b, candidates, j + 1, k);
  }

  lemma {:induction false} PathsOnlyGrow(b: Budget, candidates: seq<Candidate>, i: nat, j: nat)
    requires i <= j <= |candidates|
    ensures BudgetBefore(b, candidates, i).paths <= BudgetBefore(b, candidates, j).paths
  {
    if i < j {
      PathsOnlyGrow(b, candidates, i, j - 1);
    }
  }

  /** Accepted candidates keep the budget: at most ten attachments, and a total within the limit if it was. */
  lemma {:induction false} BudgetHolds(b: Budget, candidates: seq<Candidate>, n: nat)
    requires n <= |candidates|
    ensures var after := BudgetBefore(b, candidates, n);
            && after.count == b.count + |AcceptedIndices(b, candidates, n)|
            && (b.count <= MAX_COUNT ==> after.count <= MAX_COUNT)
            && (b.total <= MAX_TOTAL_BYTES ==> after.total <= MAX_TOTAL_BYTES)
  {
    if n > 0 {
      BudgetHolds(b, candidates, n - 1);
    }
  }

  // ----- items and records --------------------------------------------------------------------------------

  ghost predicate AllReadable(candidates: seq<Candidate>, indices: seq<nat>) {
    forall i :: 0 <= i < |indices| ==> indices[i] < |candidates| && candidates[indices[i]].Ok?
  }

  /** The items of accepted candidates: fresh handles, counted up from the first. */
  ghost function ItemsOf(candidates: seq<Candidate>, accepted: seq<nat>, first: Handle): (r: seq<Item>)
    requires AllReadable(candidates, accepted)
    ensures |r| == |accepted|
    ensures forall i :: 0 <= i < |r| ==> r[i] == Item(first + i, candidates[accepted[i]].value)
  {
    if accepted == [] then [] else [Item(first, candidates[accepted[0]].value)] + ItemsOf(candidates, accepted[1..], first + 1)
  }

  function HandlesOf(items: seq<Item>): (r: seq<Handle>)
    ensures |r| == |items| && forall i :: 0 <= i < |items| ==> r[i] == items[i].handle
  {
    if items == [] then [] else [items[0].handle] + HandlesOf(items[1..])
  }

  ghost predicate HasRecord(records: map<Handle, Record>, item: Item, context: Context, expiresAt: Instant) {
    item.handle in records && records[item.handle] == Record(context, expiresAt, item.snapshot)
  }

  /** The records after the items were added under their fresh handles. */
  ghost predicate Adds(
    records: map<Handle, Record>, context: Context, expiresAt: Instant, items: seq<Item>, first: Handle, records': map<Handle, Record>)
  {
    && (forall i :: 0 <= i < |items| ==> HasRecord(records', Item(first + i, items[i].snapshot), context, expiresAt) && items[i].handle == first + i)
    && (forall h :: h in records ==> h in records' && records'[h] == records[h])
    && (forall h :: h in records' ==> h in records || first <= h < first + |items|)
  }

  lemma AddsNothing(records: map<Handle, Record>, context: Context, expiresAt: Instant, first: Handle)
    ensures Adds(records, context, expiresAt, [], first, records)
  {
  }

  lemma AddsOneMore(
    records: map<Handle, Record>, context: Context, expiresAt: Instant, items: seq<Item>, first: Handle,
    records': map<Handle, Record>, snapshot: Snapshot)
    requires Adds(records, context, expiresAt, items, first, records')
    requires first + |items| !in records'
    ensures Adds(records, context, expiresAt, items + [Item(first + |items|, snapshot)], first,
                 records'[first + |items| := Record(context, expiresAt, snapshot)])
  {
    var more := items + [Item(first + |items|, snapshot)];
    assert forall i :: 0 <= i < |items| ==> more[i] == items[i];
  }

  lemma NextItem(candidates: seq<Candidate>, accepted: seq<nat>, first: Handle, next: nat)
    requires AllReadable(candidates, accepted)
    requires next < |candidates| && candidates[next].Ok?
    ensures ItemsOf(candidates, accepted + [next], first)
         == ItemsOf(candidates, accepted, first) + [Item(first + |accepted|, candidates[next].value)]
  {
    hide ItemsOf;
    assert forall i :: 0 <= i < |accepted| ==> (accepted + [next])[i] == accepted[i];
  }

  lemma AllAccepted(b: Budget, candidates: seq<Candidate>, n: nat)
    requires n <= |candidates|
    ensures AllReadable(candidates, AcceptedIndices(b, candidates, n))
  {
    var accepted := AcceptedIndices(b, candidates, n);
    forall i | 0 <= i < |accepted| ensures accepted[i] < n && candidates[accepted[i]].Ok? {
      AcceptedAreFine(b, candidates, n, accepted[i]);
    }
  }

  datatype Response = Response(items: seq<Item>, rejections: seq<Rejection>)

  /** What the first `n` candidates come to, given the budget of the usable existing handles. */
  ghost predicate Answers(b: Budget, candidates: seq<Candidate>, n: nat, first: Handle, budget: Budget, response: Response)
    requires n <= |candidates|
  {
    var accepted := AcceptedIndices(b, candidates, n);
    && AllReadable(candidates, accepted)
    && budget == BudgetBefore(b, candidates, n)
    && response == Response(ItemsOf(candidates, accepted, first), Rejections(b, candidates, n))
  }

  lemma AnswersNothing(b: Budget, candidates: seq<Candidate>, first: Handle)
    ensures Answers(b, candidates, 0, first, b, Response([], []))
  {
  }

  lemma FinalBudget(b: Budget, candidates: seq<Candidate>, first: Handle, budget: Budget, response: Response)
    requires Answers(b, candidates, |candidates|, first, budget, response)
    ensures budget == BudgetBefore(b, candidates, |candidates|)
  {
  }

  lemma AnswersNext(b: Budget, candidates: seq<Candidate>, n: nat, first: Handle, budget: Budget, response: Response)
    requires n < |candidates| && Answers(b, candidates, n, first, budget, response)
    ensures var verdict := Verdict(budget, candidates[n]);
            if verdict.Some? then
              Answers(b, candidates, n + 1, first, Charge(budget, candidates[n]),
                      response.(rejections := response.rejections + [Rejection(n, verdict.value)]))
            else
              candidates[n].Ok? &&
              Answers(b, candidates, n + 1, first, Charge(budget, candidates[n]),
                      response.(items := response.items + [Item(first + |response.items|, candidates[n].value)]))
  {
    NextVerdict(b, candidates, n);
    AllAccepted(b, candidates, n + 1);
    hide BudgetBefore, AcceptedIndices, Rejections, AllReadable, Verdict, Charge;
    if Verdict(budget, candidates[n]).None? {
      NextItem(candidates, AcceptedIndices(b, candidates, n), first, n);
    }
  }

  /** The registered records and the next fresh handle. */
  datatype Service = Service(records: map<Handle, Record>, nextHandle: Handle)

  /** Handles are fresh: none at or above the counter is in use. */
  ghost predicate Fresh(s: Service) {
    forall h :: h in s.records ==> h < s.nextHandle
  }

  /** What registering does: refuse bad input, or drop what has expired, answer by the budget and add the new records. */
  ghost predicate Registers(
    s: Service, context: Context, candidates: seq<Candidate>, existing: seq<Handle>, now: Instant,
    r: Result<Response, Code>, s': Service)
  {
    if !ValidHandles(existing) then r == Err(HandlesInvalid) && s' == s
    else if |candidates| > MAX_CANDIDATES then r == Err(CandidateLimit) && s' == s
    else
      r.Ok? &&
      var live := Live(s.records, now);
      var b := BudgetOf(live, UsableHandles(live, context, existing));
      && Answers(b, candidates, |candidates|, s.nextHandle, BudgetBefore(b, candidates, |candidates|), r.value)
      && Adds(live, context, now + TTL, r.value.items, s.nextHandle, s'.records)
      && s'.nextHandle == s.nextHandle + |r.value.items|
  }

  /** What consuming does: exactly the listed records of this workspace go. */
  ghost predicate Consumes(s: Service, context: Context, handles: seq<Handle>, s': Service) {
    && s'.nextHandle == s.nextHandle
    && (forall h :: h in s'.records <==> h in s.records && !(h in handles && Usable(s.records, context, h)))
    && (forall h :: h in s'.records ==> s'.records[h] == s.records[h])
  }

  // ----- the service --------------------------------------------------------------------------------------

  class AttachmentService {
    var records: map<Handle, Record>
    var nextHandle: Handle

    function View(): Service
      reads this
    {
      Service(records, nextHandle)
    }

    ghost predicate Valid()
      reads this
    {
      Fresh(View())
    }

    constructor ()
      ensures Valid() && View() == Service(map[], 0)
    {
      records, nextHandle := map[], 0;
    }

    method RegisterCandidates(context: Context, candidates: seq<Candidate>, existing: seq<Handle>, now: Instant)
      returns (r: Result<Response, Code>)
      requires Valid()
      modifies this
      ensures Valid()
      ensures Registers(old(View()), context, candidates, existing, now, r, View())
    {
      var valid := ValidateHandleList(existing);
      if !valid {
        return Err(HandlesInvalid);
      }
      if |candidates| > MAX_CANDIDATES {
        return Err(CandidateLimit);
      }
      records := Live(records, now);
      var usable := UsableHandles(records, context, existing);
      var response := AdmitCandidates(context, now + TTL, candidates, BudgetOf(records, usable));
      r := Ok(response);
    }

    /** Looks at the candidates in order; each accepted one is charged to the budget and gets a record. */
    method AdmitCandidates(context: Context, expiresAt: Instant, candidates: seq<Candidate>, b: Budget) returns (response: Response)
      requires Valid()
      modifies this
      ensures Valid()
      ensures Answers(b, candidates, |candidates|, old(nextHandle), BudgetBefore(b, candidates, |candidates|), response)
      ensures Adds(old(records), context, expiresAt, response.items, old(nextHandle), records)
      ensures nextHandle == old(nextHandle) + |response.items|
    {
      var budget := b;
      response := Response([], []);
      AnswersNothing(b, candidates, nextHandle);
      AddsNothing(records, context, expiresAt, nextHandle);
      hide Answers, Adds, Verdict, Charge;
      for index := 0 to |candidates|
        invariant Valid() && nextHandle == old(nextHandle) + |response.items|
        invariant Answers(b, candidates, index, old(nextHandle), budget, response)
        invariant Adds(old(records), context, expiresAt, response.items, old(nextHandle), records)
      {
        AnswersNext(b, candidates, index, old(nextHandle), budget, response);
        var verdict := Verdict(budget, candidates[index]);
        if verdict.Some? {
          response := response.(rejections := response.rejections + [Rejection(index, verdict.value)]);
        } else {
          var snapshot := candidates[index].value;
          AddsOneMore(old(records), context, expiresAt, response.items, old(nextHandle), records, snapshot);
          records := records[nextHandle := Record(context, expiresAt, snapshot)];
          response := response.(items := response.items + [Item(nextHandle, snapshot)]);
          nextHandle := nextHandle + 1;
        }
        budget := Charge(budget, candidates[index]);
      }
      FinalBudget(b, candidates, old(nextHandle), budget, response);
    }

    method ValidateHandleList(handles: seq<Handle>) returns (valid: bool)
      ensures valid <==> ValidHandles(handles)
    {
      if |handles| > MAX_COUNT {
        return false;
      }
      var seen: set<Handle> := {};
      for i := 0 to |handles|
        invariant forall h :: h in seen <==> h in handles[..i]
        invariant Distinct(handles[..i])
      {
        if handles[i] in seen {
          return false;
        }
        seen := seen + {handles[i]};
        assert handles[..i + 1] == handles[..i] + [handles[i]];
      }
      assert handles[..|handles|] == handles;
      valid := true;
    }

    /** The record checks of `resolve_for_turn`, before any file is read. */
    method ResolveRecords(context: Context, handles: seq<Handle>, now: Instant) returns (r: Result<seq<Record>, Code>)
      ensures r.Ok? <==> Passes(records, context, handles, now)
      ensures r.Ok? ==> |r.value| == |handles| && forall i :: 0 <= i < |handles| ==> r.value[i] == records[handles[i]]
      ensures !ValidHandles(handles) ==> r == Err(HandlesInvalid)
      ensures r.Err? && ValidHandles(handles) ==>
                exists i :: 0 <= i < |handles| && Passes(records, context, handles[..i], now)
                            && RefusedAt(records, context, handles, now, i, r.error)
    {
      var valid := ValidateHandleList(handles);
      if !valid {
        return Err(HandlesInvalid);
      }
      var selected: seq<Record> := [];
      var total := 0;
      for i := 0 to |handles|
        invariant |selected| == i
        invariant forall j :: 0 <= j < i ==> Resolvable(records, context, handles[j], now) && selected[j] == records[handles[j]]
        invariant total == TotalBytes(records, handles[..i]) <= MAX_TOTAL_BYTES
      {
        PrefixPasses(records, context, handles, now, i);
        hide Passes;
        if handles[i] !in records {
          assert RefusedAt(records, context, handles, now, i, HandleInvalid);
          return Err(HandleInvalid);
        }
        var record := records[handles[i]];
        if record.expiresAt < now {
          assert RefusedAt(records, context, handles, now, i, HandleExpired);
          return Err(HandleExpired);
        }
        if record.context != context {
          assert RefusedAt(records, context, handles, now, i, HandleStale);
          return Err(HandleStale);
        }
        NextTotal(records, handles, i);
        PrefixTotal(records, handles, i + 1);
        total := total + record.snapshot.bytes;
        if total > MAX_TOTAL_BYTES {
          assert RefusedAt(records, context, handles, now, i, TotalLimit);
          return Err(TotalLimit);
        }
        selected := selected + [record];
      }
      assert handles[..|handles|] == handles;
      r := Ok(selected);
    }

    /** Takes away the listed records of this workspace. */
    method Consume(context: Context, handles: seq<Handle>)
      requires Valid()
      modifies this`records
      ensures Valid()
      ensures Consumes(old(View()), context, handles, View())
    {
      for i := 0 to |handles|
        invariant Valid()
        invariant forall h :: h in records <==> h in old(records) && !(h in handles[..i] && Usable(old(records), context, h))
        invariant forall h :: h in records ==> records[h] == old(records)[h]
      {
        assert handles[..i + 1] == handles[..i] + [handles[i]];
        if handles[i] in records && records[handles[i]].context == context {
          records := records - {handles[i]};
        }
      }
      assert handles[..|handles|] == handles;
    }
  }

  // ----- registration and resolution agree ----------------------------------------------------------------

  /** The records of these handles are what they were, and have not expired. */
  ghost predicate StillThere(records: map<Handle, Record>, records': map<Handle, Record>, handles: seq<Handle>, now: Instant) {
    forall h :: h in handles ==> h in records && h in records' && records'[h] == records[h] && records[h].expiresAt >= now
  }

  /** The records of these handles are the same. */
  ghost predicate Kept(records: map<Handle, Record>, records': map<Handle, Record>, handles: seq<Handle>) {
    forall h :: h in handles ==> h in records && h in records' && records'[h] == records[h]
  }

  /** A later registration drops only what has expired by then and adds under new handles. */
  lemma LaterRegistrationsKeep(
    records: map<Handle, Record>, handles: seq<Handle>, context: Context, items: seq<Item>, first: Handle, records': map<Handle, Record>,
    later: Instant)
    requires Adds(Live(records, later), context, later + TTL, items, first, records')
    requires forall h :: h in handles ==> h in records && records[h].expiresAt >= later
    ensures Kept(records, records', handles)
  {
  }

  function ItemBytes(items: seq<Item>): nat {
    if items == [] then 0 else ItemBytes(items[..|items| - 1]) + items[|items| - 1].snapshot.bytes
  }

  lemma ItemBytesAppend(items: seq<Item>, item: Item)
    ensures ItemBytes(items + [item]) == ItemBytes(items) + item.snapshot.bytes
  {
    assert (items + [item])[..|items|] == items;
  }

  lemma ChargePays(b: Budget, candidate: Candidate)
    ensures Verdict(b, candidate).Some? ==> Charge(b, candidate) == b
    ensures Verdict(b, candidate).None? ==>
              candidate.Ok? && Charge(b, candidate).total == b.total + candidate.value.bytes && Charge(b, candidate).count == b.count + 1
  {
  }

  /** How many items there are and what they weigh. */
  ghost predicate Weighs(candidates: seq<Candidate>, accepted: seq<nat>, first: Handle, count: int, bytes: int) {
    && AllReadable(candidates, accepted)
    && |ItemsOf(candidates, accepted, first)| == count && ItemBytes(ItemsOf(candidates, accepted, first)) == bytes
  }

  lemma WeighsNothing(candidates: seq<Candidate>, first: Handle)
    ensures Weighs(candidates, [], first, 0, 0)
  {
  }

  lemma WeighsNext(candidates: seq<Candidate>, accepted: seq<nat>, first: Handle, count: int, bytes: int, next: nat)
    requires Weighs(candidates, accepted, first, count, bytes) && next < |candidates| && candidates[next].Ok?
    ensures Weighs(candidates, accepted + [next], first, count + 1, bytes + candidates[next].value.bytes)
  {
    NextItem(candidates, accepted, first, next);
    ItemBytesAppend(ItemsOf(candidates, accepted, first), Item(first + |accepted|, candidates[next].value));
    hide ItemsOf, ItemBytes;
  }

  lemma {:induction false} BudgetWeighs(b: Budget, candidates: seq<Candidate>, n: nat, first: Handle)
    requires n <= |candidates|
    ensures var after := BudgetBefore(b, candidates, n);
            Weighs(candidates, AcceptedIndices(b, candidates, n), first, after.count - b.count, after.total - b.total)
  {
    hide Weighs, Verdict, Charge;
    if n == 0 {
      WeighsNothing(candidates, first);
    } else {
      BudgetWeighs(b, candidates, n - 1, first);
      NextVerdict(b, candidates, n - 1);
      var before := BudgetBefore(b, candidates, n - 1);
      ChargePays(before, candidates[n - 1]);
      hide AcceptedIndices, BudgetBefore, Rejections;
      if Verdict(before, candidates[n - 1]).None? {
        WeighsNext(candidates, AcceptedIndices(b, candidates, n - 1), first, before.count - b.count, before.total - b.total, n - 1);
      }
    }
  }

  /** The budget was charged for exactly the items. */
  lemma BudgetPaysForItems(b: Budget, candidates: seq<Candidate>, n: nat, first: Handle)
    requires n <= |candidates|
    ensures AllReadable(candidates, AcceptedIndices(b, candidates, n))
    ensures var items := ItemsOf(candidates, AcceptedIndices(b, candidates, n), first);
            && BudgetBefore(b, candidates, n).total == b.total + ItemBytes(items)
            && BudgetBefore(b, candidates, n).count == b.count + |items|
  {
    BudgetWeighs(b, candidates, n, first);
    hide AcceptedIndices, BudgetBefore, ItemsOf, ItemBytes;
  }

  /** The budget knows exactly the paths attached before and those of accepted candidates. */
  lemma {:induction false} BudgetKnowsPaths(b: Budget, candidates: seq<Candidate>, n: nat, path: Path)
    requires n <= |candidates|
    ensures path in BudgetBefore(b, candidates, n).paths <==>
            path in b.paths || exists j :: j in AcceptedIndices(b, candidates, n) && TakesPath(candidates, j, path)
  {
    if n > 0 {
      BudgetKnowsPaths(b, candidates, n - 1, path);
      NextVerdict(b, candidates, n - 1);
      hide AcceptedIndices, BudgetBefore, Rejections;
      var accepted := AcceptedIndices(b, candidates, n - 1);
      assert forall j :: j in accepted + [n - 1] <==> j in accepted || j == n - 1;
      if Verdict(BudgetBefore(b, candidates, n - 1), candidates[n - 1]).None? {
        assert TakesPath(candidates, n - 1, path) <==> candidates[n - 1].value.path == path;
      }
    }
  }

  predicate TakesPath(candidates: seq<Candidate>, j: nat, path: Path) {
    j < |candidates| && candidates[j].Ok? && candidates[j].value.path == path
  }

  /**
   * A candidate is accepted exactly when it could be read, its path is attached neither already nor by an earlier
   * accepted candidate, and with those before it there is still room for one more attachment and for its bytes.
   */
  lemma AcceptedExactlyWhen(b: Budget, candidates: seq<Candidate>, k: nat)
    requires k < |candidates|
    ensures AllReadable(candidates, AcceptedIndices(b, candidates, k))
    ensures var before := AcceptedIndices(b, candidates, k);
            k in AcceptedIndices(b, candidates, |candidates|) <==>
            && candidates[k].Ok?
            && candidates[k].value.path !in b.paths
            && !(exists j :: j in before && TakesPath(candidates, j, candidates[k].value.path))
            && b.count + |before| < 10
            && b.total + ItemBytes(ItemsOf(candidates, before, 0)) + candidates[k].value.bytes <= 52_428_800
  {
    BudgetPaysForItems(b, candidates, k, 0);
    if candidates[k].Ok? {
      BudgetKnowsPaths(b, candidates, k, candidates[k].value.path);
    }
    AcceptedByVerdict(b, candidates, |candidates|, k);
    hide AcceptedIndices, BudgetBefore, ItemBytes, ItemsOf;
  }

  lemma {:induction false} AcceptedByVerdict(b: Budget, candidates: seq<Candidate>, n: nat, k: nat)
    requires k < n <= |candidates|
    ensures k in AcceptedIndices(b, candidates, n) <==> Verdict(BudgetBefore(b, candidates, k), candidates[k]).None?
  {
    hide Verdict, BudgetBefore;
    if k in AcceptedIndices(b, candidates, n) {
      AcceptedAreFine(b, candidates, n, k);
    }
    if k < n - 1 {
      AcceptedByVerdict(b, candidates, n - 1, k);
    }
  }

  /** The records of the items weigh what the items do. */
  lemma {:induction false} RecordsWeighTheirItems(records: map<Handle, Record>, items: seq<Item>, context: Context, expiresAt: Instant)
    requires forall i :: 0 <= i < |items| ==> HasRecord(records, items[i], context, expiresAt)
    ensures TotalBytes(records, HandlesOf(items)) == ItemBytes(items)
  {
    hide HandlesOf;
    if items == [] {
      assert HandlesOf(items) == [];
    } else {
      var front, last := items[..|items| - 1], items[|items| - 1];
      RecordsWeighTheirItems(records, front, context, expiresAt);
      assert HandlesOf(items) == HandlesOf(front) + [last.handle];
      TotalBytesAppend(records, HandlesOf(front), [last.handle]);
      assert HasRecord(records, last, context, expiresAt);
      assert [last.handle][1..] == [];
    }
  }

  /** Registering `candidates` beside `existing` at a moment when `records` were live. */
  ghost predicate Registered(
    records: map<Handle, Record>, context: Context, existing: seq<Handle>, candidates: seq<Candidate>, first: Handle,
    expiresAt: Instant, response: Response, records': map<Handle, Record>)
  {
    var b := BudgetOf(records, UsableHandles(records, context, existing));
    && ValidHandles(existing) && (forall h :: h in records ==> h < first)
    && Answers(b, candidates, |candidates|, first, BudgetBefore(b, candidates, |candidates|), response)
    && Adds(records, context, expiresAt, response.items, first, records')
  }

  lemma AnsweredWithinBudget(b: Budget, candidates: seq<Candidate>, first: Handle, response: Response)
    requires Answers(b, candidates, |candidates|, first, BudgetBefore(b, candidates, |candidates|), response)
    ensures b.count <= MAX_COUNT ==> b.count + |response.items| <= MAX_COUNT
    ensures b.total <= MAX_TOTAL_BYTES ==> b.total + ItemBytes(response.items) <= MAX_TOTAL_BYTES
  {
    BudgetHolds(b, candidates, |candidates|);
    BudgetPaysForItems(b, candidates, |candidates|, first);
  }

  /** The usable existing handles with the new ones are a valid list, and within the total if the existing ones were. */
  lemma RegisteredWithinLimits(
    records: map<Handle, Record>, context: Context, existing: seq<Handle>, candidates: seq<Candidate>, first: Handle,
    expiresAt: Instant, response: Response, records': map<Handle, Record>)
    requires Registered(records, context, existing, candidates, first, expiresAt, response, records')
    requires TotalBytes(records, UsableHandles(records, context, existing)) <= MAX_TOTAL_BYTES
    ensures var handles := UsableHandles(records, context, existing) + HandlesOf(response.items);
            ValidHandles(handles) && TotalBytes(records', handles) <= MAX_TOTAL_BYTES
  {
    var usable := UsableHandles(records, context, existing);
    var b := BudgetOf(records, usable);
    ItemsInRecords(records, context, expiresAt, response.items, first, records');
    hide Adds, TotalBytes, HandlesOf, Answers, BudgetBefore, UsableHandles, ItemBytes, HasRecord;
    UsableHandlesDistinct(records, context, existing);
    AnsweredWithinBudget(b, candidates, first, response);
    RecordsWeighTheirItems(records', response.items, context, expiresAt);
    TotalBytesAgree(records, records', usable);
    TotalBytesAppend(records', usable, HandlesOf(response.items));
    FreshHandlesDistinct(usable, response.items, first);
  }

  /**
   * What was registered resolves: if the usable existing handles fit the total, then they and the new handles together
   * pass every record check of a turn, as long as their records are there and none has expired.
   */
  lemma RegisteredHandlesResolve(
    records: map<Handle, Record>, context: Context, existing: seq<Handle>, candidates: seq<Candidate>, first: Handle,
    expiresAt: Instant, response: Response, records1: map<Handle, Record>, records2: map<Handle, Record>, now: Instant)
    requires Registered(records, context, existing, candidates, first, expiresAt, response, records1)
    requires TotalBytes(records, UsableHandles(records, context, existing)) <= MAX_TOTAL_BYTES
    requires StillThere(records1, records2, UsableHandles(records, context, existing) + HandlesOf(response.items), now)
    ensures Passes(records2, context, UsableHandles(records, context, existing) + HandlesOf(response.items), now)
  {
    var usable, added := UsableHandles(records, context, existing), HandlesOf(response.items);
    RegisteredWithinLimits(records, context, existing, candidates, first, expiresAt, response, records1);
    ItemsInRecords(records, context, expiresAt, response.items, first, records1);
    hide TotalBytes, UsableHandles, HandlesOf, Registered, ValidHandles, HasRecord;
    TotalBytesAgree(records1, records2, usable + added);
    EachResolves(records, context, usable, response.items, expiresAt, records1, records2, now);
  }

  lemma EachResolves(
    records: map<Handle, Record>, context: Context, usable: seq<Handle>, items: seq<Item>, expiresAt: Instant,
    records1: map<Handle, Record>, records2: map<Handle, Record>, now: Instant)
    requires forall h :: h in usable ==> Usable(records, context, h)
    requires forall h :: h in records ==> h in records1 && records1[h] == records[h]
    requires forall i :: 0 <= i < |items| ==> HasRecord(records1, items[i], context, expiresAt)
    requires StillThere(records1, records2, usable + HandlesOf(items), now)
    ensures var all := usable + HandlesOf(items);
            forall i :: 0 <= i < |all| ==> Resolvable(records2, context, all[i], now)
  {
    hide HandlesOf;
    var all := usable + HandlesOf(items);
    forall i | 0 <= i < |all| ensures Resolvable(records2, context, all[i], now) {
      var h := all[i];
      assert h in all;
      if i < |usable| {
        assert Usable(records, context, usable[i]);
      } else {
        assert HasRecord(records1, items[i - |usable|], context, expiresAt);
      }
    }
  }

  lemma ItemsInRecords(
    records: map<Handle, Record>, context: Context, expiresAt: Instant, items: seq<Item>, first: Handle, records': map<Handle, Record>)
    requires Adds(records, context, expiresAt, items, first, records')
    ensures forall i :: 0 <= i < |items| ==>
              items[i].handle == first + i && HasRecord(records', items[i], context, expiresAt)
    ensures forall h :: h in records ==> h in records' && records'[h] == records[h]
  {
  }

  lemma FreshHandlesDistinct(usable: seq<Handle>, items: seq<Item>, first: Handle)
    requires Distinct(usable) && forall h :: h in usable ==> h < first
    requires forall i :: 0 <= i < |items| ==> items[i].handle == first + i
    ensures Distinct(usable + HandlesOf(items))
  {
    var all := usable + HandlesOf(items);
    hide HandlesOf;
    forall i, j | 0 <= i < j < |all| ensures all[i] != all[j] {
      if i < |usable| {
        assert usable[i] in usable;
      }
    }
  }
}
