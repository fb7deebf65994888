/**
 The approval runtime as values: the requests, the shared futures and what each
 stretch of code between two awaits does to them.
 */
module ApprovalModels {
  import opened Basics

  /** A request id is a UUID, a number that is only ever compared. */
  type RequestId = int

  /** A future of the event loop, named by its creation order. */
  type FutureRef = nat

  datatype Status = Pending | Resolved | Cancelled

  datatype Response = Approve | ApproveForSession | Reject

  datatype SourceKind = ForegroundTurn | BackgroundAgent

  datatype Source = Source(kind: SourceKind, id: string)

  /** What a future holds: nothing yet, a response, or ApprovalCancelledError. */
  datatype Outcome = Undone | Answered(response: Response, feedback: string) | CancelledError

  datatype Request = Request(
    action: string, source: Source, createdAt: real,
    status: Status, response: Option<Response>, feedback: string, viaSessionCache: bool)

  /** keys lists the requests in creation order; announced lists the published request_resolved events. */
  datatype Rt = Rt(
    requests: map<RequestId, Request>, keys: seq<RequestId>,
    waiters: map<RequestId, FutureRef>, counts: map<RequestId, nat>,
    futures: seq<Outcome>, announced: seq<RequestId>)

  const EMPTY: Rt := Rt(map[], [], map[], map[], [], [])

  function NewRequest(action: string, source: Source, createdAt: real): Request {
    Request(action, source, createdAt, Pending, None, "", false)
  }

  predicate IsPending(rt: Rt, id: RequestId) {
    id in rt.requests && rt.requests[id].status.Pending?
  }

  function Create(rt: Rt, id: RequestId, action: string, source: Source, createdAt: real): Rt {
    rt.(requests := rt.requests[id := NewRequest(action, source, createdAt)],
        keys := if id in rt.requests then rt.keys else rt.keys + [id])
  }

  /** Completes the future f unless it is already done. */
  function Complete(futures: seq<Outcome>, f: FutureRef, outcome: Outcome): seq<Outcome> {
    if f < |futures| && futures[f].Undone? then futures[f := outcome] else futures
  }

  /** Takes request id out of the pending state: new record, waiter popped and completed, event published. */
  function Settle(rt: Rt, id: RequestId, record: Request, outcome: Outcome): Rt {
    rt.(requests := rt.requests[id := record],
        waiters := rt.waiters - {id},
        futures := if id in rt.waiters then Complete(rt.futures, rt.waiters[id], outcome) else rt.futures,
        announced := rt.announced + [id])
  }

  function Resolve(rt: Rt, id: RequestId, response: Response, feedback: string, viaCache: bool): Rt {
    if !IsPending(rt, id) then rt
    else
      Settle(rt, id,
             rt.requests[id].(status := Resolved, response := Some(response), feedback := feedback,
                              viaSessionCache := viaCache),
             Answered(response, feedback))
  }

  function Cancel(rt: Rt, id: RequestId, feedback: string): Rt {
    if !IsPending(rt, id) then rt
    else
      Settle(rt, id,
             rt.requests[id].(status := Cancelled, response := Some(Reject), feedback := feedback),
             CancelledError)
  }

  predicate Matches(rt: Rt, id: RequestId, source: Source) {
    IsPending(rt, id) && rt.requests[id].source == source
  }

  /** cancel_by_source over the given keys, front to back; the record's feedback is left alone. */
  function CancelBySource(rt: Rt, ids: seq<RequestId>, source: Source): (r: (Rt, nat)) {
    if ids == [] then (rt, 0)
    else
      var (before, n) := CancelBySource(rt, ids[..|ids| - 1], source);
      var id := ids[|ids| - 1];
      if Matches(before, id, source)
      then (Cancel(before, id, before.requests[id].feedback), n + 1)
      else (before, n)
  }

  function Count(rt: Rt, id: RequestId): nat {
    if id in rt.counts then rt.counts[id] else 0
  }

  /** How wait_for_response starts: it raises KeyError, answers at once, or suspends on a future. */
  datatype WaitStart = NotFound | Immediate(outcome: Outcome) | Suspended(future: FutureRef)

  /** The outcome that a request that has left the pending state stands for. */
  function Verdict(r: Request): Outcome
    requires !r.status.Pending?
  {
    if r.status.Cancelled? || r.response.None? then CancelledError
    else Answered(r.response.value, r.feedback)
  }

  /** wait_for_response up to its await. */
  function BeginWait(rt: Rt, id: RequestId): (Rt, WaitStart) {
    if id !in rt.requests then (rt, NotFound)
    else if id in rt.waiters then
      (rt.(counts := rt.counts[id := Count(rt, id) + 1]), Suspended(rt.waiters[id]))
    else if !rt.requests[id].status.Pending? then (rt, Immediate(Verdict(rt.requests[id])))
    else
      (rt.(waiters := rt.waiters[id := |rt.futures|],
           futures := rt.futures + [Undone],
           counts := rt.counts[id := Count(rt, id) + 1]),
       Suspended(|rt.futures|))
  }

  /** The handler of the timeout: the last observer drops the future, then the request is cancelled. */
  function TimeoutHandler(rt: Rt, id: RequestId): Rt {
    var dropped := if Count(rt, id) <= 1 then rt.(waiters := rt.waiters - {id}) else rt;
    Cancel(dropped, id, "approval timed out")
  }

  /** The finally block that every observer runs when it leaves the wait. */
  function LeaveWait(rt: Rt, id: RequestId, future: FutureRef): Rt {
    if Count(rt, id) > 1 then rt.(counts := rt.counts[id := Count(rt, id) - 1])
    else
      rt.(counts := rt.counts - {id},
          waiters := if IsPending(rt, id) && id in rt.waiters && rt.waiters[id] == future
                     then rt.waiters - {id} else rt.waiters)
  }

  // ----- list_pending -----

  function PendingIn(rt: Rt, ids: seq<RequestId>): seq<RequestId> {
    if ids == [] then []
    else
      PendingIn(rt, ids[..|ids| - 1]) +
      (if IsPending(rt, ids[|ids| - 1]) then [ids[|ids| - 1]] else [])
  }

  function Ages(rt: Rt): map<RequestId, real> {
    map id | id in rt.requests :: rt.requests[id].createdAt
  }

  /** Puts id behind every request created no later than it, as a stable sort does. */
  function InsertByAge(ages: map<RequestId, real>, sorted: seq<RequestId>, id: RequestId): (r: seq<RequestId>)
    requires id in ages && forall x <- sorted :: x in ages
    ensures multiset(r) == multiset(sorted) + multiset{id}
    ensures forall x :: x in r <==> x in sorted || x == id
  {
    if sorted == [] then [id]
    else
      var init, last := sorted[..|sorted| - 1], sorted[|sorted| - 1];
      assert sorted == init + [last] && last in sorted;
      if ages[last] <= ages[id] then sorted + [id] else InsertByAge(ages, init, id) + [last]
  }

  function SortByAge(ages: map<RequestId, real>, ids: seq<RequestId>): (r: seq<RequestId>)
    requires forall x <- ids :: x in ages
    ensures multiset(r) == multiset(ids)
    ensures forall x :: x in r <==> x in ids
  {
    if ids == [] then []
    else
      var r0 := SortByAge(ages, ids[..|ids| - 1]);
      assert ids == ids[..|ids| - 1] + [ids[|ids| - 1]];
      InsertByAge(ages, r0, ids[|ids| - 1])
  }

  lemma {:induction false} PendingInExact(rt: Rt, ids: seq<RequestId>)
    ensures forall x :: x in PendingIn(rt, ids) <==> x in ids && IsPending(rt, x)
    ensures NoDuplicates(ids) ==> NoDuplicates(PendingIn(rt, ids))
  {
    if ids == [] {
    } else {
      PendingInExact(rt, ids[..|ids| - 1]);
      assert ids == ids[..|ids| - 1] + [ids[|ids| - 1]];
      assert NoDuplicates(ids) ==> ids[|ids| - 1] !in ids[..|ids| - 1];
    }
  }

  ghost predicate SortedByAge(ages: map<RequestId, real>, ids: seq<RequestId>) {
    && (forall x <- ids :: x in ages)
    && forall i, j :: 0 <= i < j < |ids| ==> ages[ids[i]] <= ages[ids[j]]
  }

  lemma {:induction false} InsertByAgeSorted(ages: map<RequestId, real>, sorted: seq<RequestId>, id: RequestId)
    requires id in ages && SortedByAge(ages, sorted)
    ensures SortedByAge(ages, InsertByAge(ages, sorted, id))
  {
    var r := InsertByAge(ages, sorted, id);
    if sorted != [] && ages[id] < ages[sorted[|sorted| - 1]] {
      var init, last := sorted[..|sorted| - 1], sorted[|sorted| - 1];
      InsertByAgeSorted(ages, init, id);
      var r0 := InsertByAge(ages, init, id);
      assert forall x <- r0 :: ages[x] <= ages[last];
    }
  }

  lemma {:induction false} SortByAgeSorted(ages: map<RequestId, real>, ids: seq<RequestId>)
    requires forall x <- ids :: x in ages
    ensures SortedByAge(ages, SortByAge(ages, ids))
  {
    if ids == [] {
    } else {
      SortByAgeSorted(ages, ids[..|ids| - 1]);
      InsertByAgeSorted(ages, SortByAge(ages, ids[..|ids| - 1]), ids[|ids| - 1]);
    }
  }

  function ListPending(rt: Rt): seq<RequestId> {
    PendingInExact(rt, rt.keys);
    SortByAge(Ages(rt), PendingIn(rt, rt.keys))
  }

  /** list_pending names exactly the pending requests, once each, oldest first. */
  lemma ListPendingExact(rt: Rt)
    requires NoDuplicates(rt.keys) && forall x :: x in rt.keys <==> x in rt.requests
    ensures forall x :: x in ListPending(rt) <==> IsPending(rt, x)
    ensures NoDuplicates(ListPending(rt)) && SortedByAge(Ages(rt), ListPending(rt))
  {
    var unsorted, r := PendingIn(rt, rt.keys), ListPending(rt);
    PendingInExact(rt, rt.keys);
    SortByAgeSorted(Ages(rt), unsorted);
    SameElementsNoDuplicates(unsorted, r);
  }

  lemma SameElementsNoDuplicates<T>(a: seq<T>, b: seq<T>)
    requires NoDuplicates(a) && multiset(a) == multiset(b)
    ensures NoDuplicates(b)
  {
    forall x | x in a ensures multiset(a)[x] == 1 { OccursOnce(a, x); }
    forall i, j | 0 <= i < j < |b| ensures b[i] != b[j] {
      TwiceWhenEqual(b, i, j);
      assert b[i] in multiset(b);
    }
  }

  lemma TwiceWhenEqual<T>(b: seq<T>, i: nat, j: nat)
    requires i < j < |b|
    ensures b[i] == b[j] ==> multiset(b)[b[i]] >= 2
  {
    assert b == b[..j] + [b[j]] + b[j + 1..];
    assert b[i] in b[..j];
  }

  lemma {:induction false} OccursOnce<T>(a: seq<T>, x: T)
    requires NoDuplicates(a)
    ensures multiset(a)[x] == if x in a then 1 else 0
  {
    if a == [] {
    } else {
      assert a == [a[0]] + a[1..];
      OccursOnce(a[1..], x);
    }
  }

  /** The sweep after an answer for the session: every listed request with the action is approved. */
  function Sweep(rt: Rt, ids: seq<RequestId>, action: string): Rt {
    if ids == [] then rt
    else
      var before := Sweep(rt, ids[..|ids| - 1], action);
      var id := ids[|ids| - 1];
      if id in rt.requests && rt.requests[id].action == action
      then Resolve(before, id, Approve, "", true)
      else before
  }
}
