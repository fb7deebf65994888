/**
 Every interleaving of coroutines over one approval runtime and one session cache. A step is
 the code a coroutine runs between two awaits; the invariants hold between any two steps.
 */
module ApprovalSystem {
  import opened Basics
  import opened ApprovalModels

  type CoroutineId = int

  /** A coroutine inside wait_for_response; action is set when Approval.request awaits it. */
  datatype Observer = Observer(id: RequestId, future: FutureRef, timed: bool, action: Option<string>)

  /** autoApprove is the shared session cache; bypass says that yolo or afk is on. */
  datatype Sys = Sys(rt: Rt, suspended: map<CoroutineId, Observer>, autoApprove: set<string>, bypass: bool)

  datatype Step =
    | Ask(c: CoroutineId, id: RequestId, action: string, source: Source, createdAt: real)
    | Observe(c: CoroutineId, id: RequestId, timed: bool)
    | Answer(id: RequestId, response: Response, feedback: string)
    | CancelSource(source: Source)
    | Wake(c: CoroutineId)
    | Timeout(c: CoroutineId)
    | Abort(c: CoroutineId)
    | SetBypass(bypass: bool)

  /** Request ids and coroutines are new; a coroutine wakes once its future is done. */
  predicate Enabled(s: Sys, step: Step) {
    match step
    case Ask(c, id, _, _, _) => c !in s.suspended && id !in s.rt.requests
    case Observe(c, _, _) => c !in s.suspended
    case Wake(c) =>
      c in s.suspended && s.suspended[c].future < |s.rt.futures| && !s.rt.futures[s.suspended[c].future].Undone?
    case Timeout(c) => c in s.suspended && s.suspended[c].timed
    case Abort(c) => c in s.suspended
    case _ => true
  }

  /** Coroutine c calls wait_for_response(id). */
  function Await(s: Sys, c: CoroutineId, id: RequestId, timed: bool, action: Option<string>): Sys {
    var (rt, start) := BeginWait(s.rt, id);
    match start
    case Suspended(f) => s.(rt := rt, suspended := s.suspended[c := Observer(id, f, timed, action)])
    case _ => s.(rt := rt)
  }

  /** Coroutine c leaves the wait; rt is the runtime when its finally block starts. */
  function Leave(s: Sys, c: CoroutineId, rt: Rt): Sys
    requires c in s.suspended
  {
    s.(rt := LeaveWait(rt, s.suspended[c].id, s.suspended[c].future), suspended := s.suspended - {c})
  }

  /** What Approval.request does with an answer for the session, before its next await. */
  function GrantSession(s: Sys, action: string): Sys {
    s.(rt := Sweep(s.rt, ListPending(s.rt), action), autoApprove := s.autoApprove + {action})
  }

  function Next(s: Sys, step: Step): Sys
    requires Enabled(s, step)
  {
    match step
    case Ask(c, id, action, source, createdAt) =>
      if s.bypass || action in s.autoApprove then s
      else Await(s.(rt := Create(s.rt, id, action, source, createdAt)), c, id, false, Some(action))
    case Observe(c, id, timed) => Await(s, c, id, timed, None)
    case Answer(id, response, feedback) => s.(rt := Resolve(s.rt, id, response, feedback, false))
    case CancelSource(source) => s.(rt := CancelBySource(s.rt, s.rt.keys, source).0)
    case Wake(c) =>
      var o := s.suspended[c];
      var left := Leave(s, c, s.rt);
      if s.rt.futures[o.future].Answered? && s.rt.futures[o.future].response.ApproveForSession? && o.action.Some?
      then GrantSession(left, o.action.value) else left
    case Timeout(c) => Leave(s, c, TimeoutHandler(s.rt, s.suspended[c].id))
    case Abort(c) => Leave(s, c, s.rt)
    case SetBypass(bypass) => s.(bypass := bypass)
  }

  // ----- the invariants -----

  /** The coroutines suspended on request id. */
  function Watching(s: Sys, id: RequestId): set<CoroutineId> {
    set c | c in s.suspended && s.suspended[c].id == id
  }

  /** A waiter is registered exactly while its request is pending and somebody waits for it. */
  ghost predicate WaitersExact(s: Sys) {
    forall id :: id in s.rt.waiters <==> IsPending(s.rt, id) && Watching(s, id) != {}
  }

  ghost predicate CountsExact(s: Sys) {
    && (forall id :: id in s.rt.counts <==> Watching(s, id) != {})
    && (forall id :: id in s.rt.counts ==> s.rt.counts[id] == |Watching(s, id)|)
  }

  /** Observers of a pending request share its undone future; those of a settled one hold its verdict. */
  ghost predicate ObserverOk(s: Sys, o: Observer) {
    && o.id in s.rt.requests && o.future < |s.rt.futures|
    && if IsPending(s.rt, o.id)
       then o.id in s.rt.waiters && s.rt.waiters[o.id] == o.future && s.rt.futures[o.future].Undone?
       else s.rt.futures[o.future] == Verdict(s.rt.requests[o.id])
  }

  ghost predicate FuturesExact(s: Sys) {
    && (forall c :: c in s.suspended ==> ObserverOk(s, s.suspended[c]))
    && (forall i, j :: i in s.rt.waiters && j in s.rt.waiters && i != j ==> s.rt.waiters[i] != s.rt.waiters[j])
  }

  ghost predicate RecordOk(r: Request) {
    match r.status
    case Pending => r.response.None?
    case Resolved => r.response.Some?
    case Cancelled => r.response == Some(Reject)
  }

  /** request_resolved has been published once for each settled request and for no other. */
  ghost predicate AnnouncedOnce(rt: Rt) {
    && NoDuplicates(rt.announced)
    && (forall id :: id in rt.announced <==> id in rt.requests && !IsPending(rt, id))
  }

  ghost predicate RuntimeOk(rt: Rt) {
    && Lists(rt.keys, rt.requests.Keys)
    && (forall id :: id in rt.requests ==> RecordOk(rt.requests[id]))
    && AnnouncedOnce(rt)
  }

  /** Nothing that the session has been granted still waits for an answer. */
  ghost predicate CacheClosed(s: Sys) {
    forall id :: IsPending(s.rt, id) ==> s.rt.requests[id].action !in s.autoApprove
  }

  ghost predicate Waits(s: Sys) {
    WaitersExact(s) && CountsExact(s) && FuturesExact(s)
  }

  ghost predicate Inv(s: Sys) {
    Waits(s) && RuntimeOk(s.rt) && CacheClosed(s)
  }

  /** A session starts with an empty runtime and whatever the saved cache holds. */
  function Start(saved: set<string>, bypass: bool): Sys {
    Sys(EMPTY, map[], saved, bypass)
  }

  // ----- each part of a step keeps them -----

  lemma CreateKeeps(s: Sys, id: RequestId, action: string, source: Source, createdAt: real)
    requires Inv(s) && id !in s.rt.requests && action !in s.autoApprove
    ensures Inv(s.(rt := Create(s.rt, id, action, source, createdAt)))
  {
    var s' := s.(rt := Create(s.rt, id, action, source, createdAt));
    ListsAppend(s.rt.keys, s.rt.requests.Keys, id);
    assert s'.rt.requests.Keys == s.rt.requests.Keys + {id};
    assert forall i :: Watching(s', i) == Watching(s, i);
    forall c | c in s.suspended ensures s.suspended[c].id != id && ObserverOk(s', s.suspended[c]) {
      assert ObserverOk(s, s.suspended[c]);
    }
  }

  lemma WaiterUndone(s: Sys, id: RequestId)
    requires WaitersExact(s) && FuturesExact(s) && id in s.rt.waiters
    ensures s.rt.waiters[id] < |s.rt.futures| && s.rt.futures[s.rt.waiters[id]].Undone?
  {
    var c := Someone(Watching(s, id));
    assert ObserverOk(s, s.suspended[c]);
  }

  /** One more observer on a registered waiter. */
  lemma JoinKeeps(s: Sys, c: CoroutineId, o: Observer)
    requires Waits(s) && c !in s.suspended && o.id in s.rt.waiters && o.future == s.rt.waiters[o.id]
    ensures Waits(s.(rt := s.rt.(counts := s.rt.counts[o.id := Count(s.rt, o.id) + 1]), suspended := s.suspended[c := o]))
  {
    var s' := s.(rt := s.rt.(counts := s.rt.counts[o.id := Count(s.rt, o.id) + 1]), suspended := s.suspended[c := o]);
    WatchingOneMore(s, s', c, o);
    WaiterUndone(s, o.id);
    forall d | d in s'.suspended ensures ObserverOk(s', s'.suspended[d]) {
      if d != c { assert ObserverOk(s, s.suspended[d]); }
    }
  }

  /** The first observer of a pending request creates the shared future. */
  lemma RegisterKeeps(s: Sys, c: CoroutineId, o: Observer)
    requires Waits(s) && c !in s.suspended && IsPending(s.rt, o.id) && o.id !in s.rt.waiters && o.future == |s.rt.futures|
    ensures Waits(s.(rt := BeginWait(s.rt, o.id).0, suspended := s.suspended[c := o]))
  {
    var s' := s.(rt := BeginWait(s.rt, o.id).0, suspended := s.suspended[c := o]);
    WatchingOneMore(s, s', c, o);
    assert Watching(s, o.id) == {};
    assert WaitersExact(s') && CountsExact(s');
    RegisterFutures(s, c, o);
  }

  lemma RegisterFutures(s: Sys, c: CoroutineId, o: Observer)
    requires Waits(s) && c !in s.suspended && IsPending(s.rt, o.id) && o.id !in s.rt.waiters && o.future == |s.rt.futures|
    ensures FuturesExact(s.(rt := BeginWait(s.rt, o.id).0, suspended := s.suspended[c := o]))
  {
    var s' := s.(rt := BeginWait(s.rt, o.id).0, suspended := s.suspended[c := o]);
    forall d | d in s.suspended ensures ObserverOk(s', s.suspended[d]) {
      assert ObserverOk(s, s.suspended[d]) && d in Watching(s, s.suspended[d].id);
    }
    forall i | i in s.rt.waiters ensures s.rt.waiters[i] < |s.rt.futures| { WaiterUndone(s, i); }
  }

  lemma WatchingOneMore(s: Sys, s': Sys, c: CoroutineId, o: Observer)
    requires c !in s.suspended && s'.suspended == s.suspended[c := o]
    ensures forall i :: Watching(s', i) == if i == o.id then Watching(s, i) + {c} else Watching(s, i)
    ensures |Watching(s', o.id)| == |Watching(s, o.id)| + 1
  {
    assert Watching(s', o.id) == Watching(s, o.id) + {c};
  }

  lemma AwaitKeeps(s: Sys, c: CoroutineId, id: RequestId, timed: bool, action: Option<string>)
    requires Inv(s) && c !in s.suspended
    ensures Inv(Await(s, c, id, timed, action))
  {
    if id in s.rt.waiters {
      JoinKeeps(s, c, Observer(id, s.rt.waiters[id], timed, action));
    } else if IsPending(s.rt, id) {
      RegisterKeeps(s, c, Observer(id, |s.rt.futures|, timed, action));
    }
  }

  /** Settling one pending request reaches every observer of it. */
  lemma SettleKeeps(s: Sys, id: RequestId, record: Request, outcome: Outcome)
    requires Inv(s) && IsPending(s.rt, id)
    requires !record.status.Pending? && RecordOk(record) && outcome == Verdict(record)
    ensures Inv(s.(rt := Settle(s.rt, id, record, outcome)))
  {
    var s' := s.(rt := Settle(s.rt, id, record, outcome));
    assert s'.rt.requests.Keys == s.rt.requests.Keys;
    assert forall i :: Watching(s', i) == Watching(s, i);
    forall c | c in s.suspended ensures ObserverOk(s', s.suspended[c]) {
      var o := s.suspended[c];
      assert c in Watching(s, o.id);
      assert ObserverOk(s, o);
    }
  }

  lemma ResolveKeeps(s: Sys, id: RequestId, response: Response, feedback: string, viaCache: bool)
    requires Inv(s)
    ensures Inv(s.(rt := Resolve(s.rt, id, response, feedback, viaCache)))
  {
    if IsPending(s.rt, id) {
      SettleKeeps(s, id, s.rt.requests[id].(status := Resolved, response := Some(response), feedback := feedback,
                                            viaSessionCache := viaCache), Answered(response, feedback));
    }
  }

  lemma CancelKeeps(s: Sys, id: RequestId, feedback: string)
    requires Inv(s)
    ensures Inv(s.(rt := Cancel(s.rt, id, feedback)))
  {
    if IsPending(s.rt, id) {
      SettleKeeps(s, id, s.rt.requests[id].(status := Cancelled, response := Some(Reject), feedback := feedback),
                  CancelledError);
    }
  }

  lemma {:induction false} CancelBySourceKeeps(s: Sys, ids: seq<RequestId>, source: Source)
    requires Inv(s)
    ensures Inv(s.(rt := CancelBySource(s.rt, ids, source).0))
  {
    if ids == [] {
    } else {
      CancelBySourceKeeps(s, ids[..|ids| - 1], source);
      var before := s.(rt := CancelBySource(s.rt, ids[..|ids| - 1], source).0);
      var id := ids[|ids| - 1];
      if Matches(before.rt, id, source) {
        CancelKeeps(before, id, before.rt.requests[id].feedback);
      }
    }
  }

  /** The sweep settles every listed request with the action, keeps the rest, and keeps the invariants. */
  lemma {:induction false} SweepKeeps(s: Sys, ids: seq<RequestId>, action: string)
    requires Inv(s)
    ensures Inv(s.(rt := Sweep(s.rt, ids, action)))
    ensures forall id :: IsPending(Sweep(s.rt, ids, action), id) <==>
                         IsPending(s.rt, id) && !(id in ids && s.rt.requests[id].action == action)
    ensures forall id :: id in s.rt.requests ==>
              id in Sweep(s.rt, ids, action).requests && Sweep(s.rt, ids, action).requests[id].action == s.rt.requests[id].action
  {
    if ids == [] {
    } else {
      SweepKeeps(s, ids[..|ids| - 1], action);
      assert ids == ids[..|ids| - 1] + [ids[|ids| - 1]];
      ResolveKeeps(s.(rt := Sweep(s.rt, ids[..|ids| - 1], action)), ids[|ids| - 1], Approve, "", true);
    }
  }

  lemma GrantKeeps(s: Sys, action: string)
    requires Inv(s)
    ensures Inv(GrantSession(s, action))
  {
    ListsExact(s.rt.keys, s.rt.requests.Keys);
    ListPendingExact(s.rt);
    SweepKeeps(s, ListPending(s.rt), action);
    SweepOnlyKnown(s.rt, ListPending(s.rt), action);
    var swept := s.(rt := Sweep(s.rt, ListPending(s.rt), action));
    var s' := GrantSession(s, action);
    assert forall i :: Watching(s', i) == Watching(swept, i);
    forall c | c in s'.suspended ensures ObserverOk(s', s'.suspended[c]) {
      assert ObserverOk(swept, swept.suspended[c]);
    }
  }

  lemma {:induction false} SweepOnlyKnown(rt: Rt, ids: seq<RequestId>, action: string)
    ensures Sweep(rt, ids, action).requests.Keys == rt.requests.Keys
  {
    if ids == [] {
    } else {
      SweepOnlyKnown(rt, ids[..|ids| - 1], action);
    }
  }

  lemma LeaveKeepsWaits(s: Sys, c: CoroutineId)
    requires Waits(s) && c in s.suspended
    ensures Waits(Leave(s, c, s.rt))
  {
    var s', o := Leave(s, c, s.rt), s.suspended[c];
    forall i ensures Watching(s', i) == if i == o.id then Watching(s, i) - {c} else Watching(s, i) {}
    assert c in Watching(s, o.id) && |Watching(s', o.id)| == |Watching(s, o.id)| - 1;
    assert Count(s.rt, o.id) == 1 ==> Watching(s', o.id) == {};
    assert ObserverOk(s, o);
    forall d | d in s'.suspended ensures ObserverOk(s', s'.suspended[d]) {
      assert ObserverOk(s, s.suspended[d]);
      assert d in Watching(s', s.suspended[d].id);
    }
  }

  lemma LeaveKeeps(s: Sys, c: CoroutineId)
    requires Inv(s) && c in s.suspended
    ensures Inv(Leave(s, c, s.rt))
  {
    LeaveKeepsWaits(s, c);
  }

  /** Dropping the waiter before cancelling comes to the same as leaving first and cancelling after. */
  lemma TimeoutKeeps(s: Sys, c: CoroutineId)
    requires Inv(s) && Enabled(s, Timeout(c))
    ensures Inv(Next(s, Timeout(c)))
  {
    var id := s.suspended[c].id;
    assert c in Watching(s, id) && ObserverOk(s, s.suspended[c]);
    if Count(s.rt, id) <= 1 {
      LeaveKeeps(s, c);
      var left := Leave(s, c, s.rt);
      CancelKeeps(left, id, "approval timed out");
      assert left.(rt := Cancel(left.rt, id, "approval timed out")) == Next(s, Timeout(c));
    } else {
      CancelKeeps(s, id, "approval timed out");
      LeaveKeeps(s.(rt := Cancel(s.rt, id, "approval timed out")), c);
    }
  }

  lemma StepKeeps(s: Sys, step: Step)
    requires Inv(s) && Enabled(s, step)
    ensures Inv(Next(s, step))
  {
    match step
    case Ask(c, id, action, source, createdAt) =>
      if !s.bypass && action !in s.autoApprove {
        CreateKeeps(s, id, action, source, createdAt);
        AwaitKeeps(s.(rt := Create(s.rt, id, action, source, createdAt)), c, id, false, Some(action));
      }
    case Observe(c, id, timed) => AwaitKeeps(s, c, id, timed, None);
    case Answer(id, response, feedback) => ResolveKeeps(s, id, response, feedback, false);
    case CancelSource(source) => CancelBySourceKeeps(s, s.rt.keys, source);
    case Wake(c) =>
      LeaveKeeps(s, c);
      var o := s.suspended[c];
      if o.action.Some? { GrantKeeps(Leave(s, c, s.rt), o.action.value); }
    case Timeout(c) => TimeoutKeeps(s, c);
    case Abort(c) => LeaveKeeps(s, c);
    case SetBypass(b) =>
      assert forall i :: Watching(s.(bypass := b), i) == Watching(s, i);
      assert forall c :: c in s.suspended ==> ObserverOk(s, s.suspended[c]);
  }

  // ----- whole runs -----

  ghost predicate Run(s: Sys, steps: seq<Step>)
    decreases |steps|
  {
    steps == [] || (Enabled(s, steps[0]) && Run(Next(s, steps[0]), steps[1..]))
  }

  ghost function After(s: Sys, steps: seq<Step>): Sys
    requires Run(s, steps)
    decreases |steps|
  {
    if steps == [] then s else After(Next(s, steps[0]), steps[1..])
  }

  /** Every state that any run reaches satisfies all the invariants. */
  lemma {:induction false} RunKeeps(s: Sys, steps: seq<Step>)
    requires Inv(s) && Run(s, steps)
    ensures Inv(After(s, steps))
    decreases |steps|
  {
    if steps == [] {
    } else {
      StepKeeps(s, steps[0]);
      RunKeeps(Next(s, steps[0]), steps[1..]);
    }
  }

  /** A run from any saved cache keeps the invariants, in particular the closure of the session cache. */
  lemma ReachableOk(saved: set<string>, bypass: bool, steps: seq<Step>)
    requires Run(Start(saved, bypass), steps)
    ensures Inv(After(Start(saved, bypass), steps))
    ensures var s := After(Start(saved, bypass), steps);
            forall id :: IsPending(s.rt, id) ==> s.rt.requests[id].action !in s.autoApprove
  {
    RunKeeps(Start(saved, bypass), steps);
  }

  /** A request leaves the pending state once: later steps never touch its record again. */
  lemma {:induction false} SettledIsFinal(s: Sys, steps: seq<Step>, id: RequestId)
    requires Run(s, steps) && id in s.rt.requests && !IsPending(s.rt, id)
    ensures id in After(s, steps).rt.requests && After(s, steps).rt.requests[id] == s.rt.requests[id]
    decreases |steps|
  {
    if steps == [] {
    } else {
      StepLeavesSettled(s, steps[0], id);
      SettledIsFinal(Next(s, steps[0]), steps[1..], id);
    }
  }

  lemma StepLeavesSettled(s: Sys, step: Step, id: RequestId)
    requires Enabled(s, step) && id in s.rt.requests && !IsPending(s.rt, id)
    ensures id in Next(s, step).rt.requests && Next(s, step).rt.requests[id] == s.rt.requests[id]
  {
    match step
    case CancelSource(source) => CancelLeavesSettled(s.rt, s.rt.keys, source, id);
    case Wake(c) => 
      var left := Leave(s, c, s.rt);
      if s.suspended[c].action.Some? {
        SweepLeavesSettled(left.rt, ListPending(left.rt), s.suspended[c].action.value, id);
      }
    case _ =>
  }

  lemma {:induction false} CancelLeavesSettled(rt: Rt, ids: seq<RequestId>, source: Source, id: RequestId)
    requires id in rt.requests && !IsPending(rt, id)
    ensures id in CancelBySource(rt, ids, source).0.requests && CancelBySource(rt, ids, source).0.requests[id] == rt.requests[id]
  {
    if ids == [] {
    } else {
      CancelLeavesSettled(rt, ids[..|ids| - 1], source, id);
    }
  }

  lemma {:induction false} SweepLeavesSettled(rt: Rt, ids: seq<RequestId>, action: string, id: RequestId)
    requires id in rt.requests && !IsPending(rt, id)
    ensures id in Sweep(rt, ids, action).requests && Sweep(rt, ids, action).requests[id] == rt.requests[id]
  {
    if ids == [] {
    } else {
      SweepLeavesSettled(rt, ids[..|ids| - 1], action, id);
    }
  }

  /** cancel_by_source cancels exactly the pending requests of the source, and nothing else changes. */
  lemma {:induction false} CancelBySourceExact(rt: Rt, ids: seq<RequestId>, source: Source)
    requires NoDuplicates(ids)
    ensures var rt' := CancelBySource(rt, ids, source).0;
            && rt'.requests.Keys == rt.requests.Keys
            && forall id :: id in rt.requests ==>
                 rt'.requests[id] == if id in ids && Matches(rt, id, source)
                                     then rt.requests[id].(status := Cancelled, response := Some(Reject))
                                     else rt.requests[id]
  {
    if ids == [] {
    } else {
      assert ids == ids[..|ids| - 1] + [ids[|ids| - 1]] && ids[|ids| - 1] !in ids[..|ids| - 1];
      CancelBySourceExact(rt, ids[..|ids| - 1], source);
    }
  }

  /** The number it returns counts them. */
  lemma {:induction false} CancelBySourceCounts(rt: Rt, ids: seq<RequestId>, source: Source)
    requires NoDuplicates(ids)
    ensures CancelBySource(rt, ids, source).1 == |set id | id in ids && Matches(rt, id, source)|
  {
    if ids == [] {
    } else {
      var init, last := ids[..|ids| - 1], ids[|ids| - 1];
      assert ids == init + [last] && last !in init;
      CancelBySourceCounts(rt, init, source);
      CancelBySourceExact(rt, init, source);
      assert Matches(CancelBySource(rt, init, source).0, last, source) <==> Matches(rt, last, source);
      var s0 := set id | id in init && Matches(rt, id, source);
      assert (set id | id in ids && Matches(rt, id, source)) == if Matches(rt, last, source) then s0 + {last} else s0;
    }
  }

  // ----- no wake-up is lost -----

  /** Every coroutine still suspended on a settled request can wake, and wakes to the verdict. */
  lemma SettledWakes(s: Sys, c: CoroutineId)
    requires Inv(s) && c in s.suspended && !IsPending(s.rt, s.suspended[c].id)
    ensures Enabled(s, Wake(c))
    ensures s.rt.futures[s.suspended[c].future] == Verdict(s.rt.requests[s.suspended[c].id])
  {
    assert ObserverOk(s, s.suspended[c]);
  }

  /** From any reachable state, the observers of a settled request can all wake, one step each. */
  lemma {:induction false} SettledDrains(s: Sys, id: RequestId) returns (steps: seq<Step>)
    requires Inv(s) && id in s.rt.requests && !IsPending(s.rt, id)
    ensures |steps| == |Watching(s, id)| && forall step <- steps :: step.Wake?
    ensures Run(s, steps) && Watching(After(s, steps), id) == {} && id !in After(s, steps).rt.counts
    decreases |Watching(s, id)|
  {
    steps := [];
    if Watching(s, id) != {} {
      var c := Someone(Watching(s, id));
      SettledWakes(s, c);
      StepKeeps(s, Wake(c));
      StepLeavesSettled(s, Wake(c), id);
      assert Watching(Next(s, Wake(c)), id) == Watching(s, id) - {c};
      var rest := SettledDrains(Next(s, Wake(c)), id);
      steps := [Wake(c)] + rest;
      assert steps[1..] == rest;
    }
  }

  /** An observer of a pending request cannot wake: it leaves only by its own timeout or cancellation. */
  lemma PendingBlocks(s: Sys, c: CoroutineId)
    requires Inv(s) && c in s.suspended && IsPending(s.rt, s.suspended[c].id)
    ensures !Enabled(s, Wake(c))
  {
    assert ObserverOk(s, s.suspended[c]);
  }

  // ----- the timeout race -----

  /**
   A timed out observer always raises ApprovalCancelledError. The record agrees, that is, the
   request ends up cancelled, if and only if nobody had resolved it before the timer fired.
   */
  lemma TimeoutAgreesIff(s: Sys, c: CoroutineId)
    requires Inv(s) && Enabled(s, Timeout(c))
    ensures var id := s.suspended[c].id;
            && id in s.rt.requests && id in Next(s, Timeout(c)).rt.requests
            && (Next(s, Timeout(c)).rt.requests[id].status.Cancelled? <==> !s.rt.requests[id].status.Resolved?)
  {
    assert ObserverOk(s, s.suspended[c]);
  }

  lemma {:induction false} RunMore(s: Sys, steps: seq<Step>, step: Step)
    requires Run(s, steps) && Enabled(After(s, steps), step)
    ensures Run(s, steps + [step]) && After(s, steps + [step]) == Next(After(s, steps), step)
    decreases |steps|
  {
    assert (steps + [step])[1..] == if steps == [] then [] else steps[1..] + [step];
    if steps == [] {
    } else {
      RunMore(Next(s, steps[0]), steps[1..], step);
    }
  }

  /** The race is real: answered with approve, then timed out before the coroutine ran again. */
  lemma TimeoutRaceReachable(source: Source) returns (steps: seq<Step>)
    ensures Run(Start({}, false), steps) && |steps| > 0 && steps[|steps| - 1] == Timeout(2)
    ensures 7 in After(Start({}, false), steps).rt.requests
    ensures After(Start({}, false), steps).rt.requests[7].response == Some(Approve)
  {
    var s0 := Start({}, false);
    steps := [];
    RunMore(s0, steps, Ask(1, 7, "shell", source, 0.0));
    steps := steps + [Ask(1, 7, "shell", source, 0.0)];
    RunMore(s0, steps, Observe(2, 7, true));
    steps := steps + [Observe(2, 7, true)];
    RunMore(s0, steps, Answer(7, Approve, ""));
    steps := steps + [Answer(7, Approve, "")];
    RunMore(s0, steps, Timeout(2));
    steps := steps + [Timeout(2)];
  }
}
