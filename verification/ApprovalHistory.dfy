/**
 What was said and what was recorded: every record, every suspended coroutine and the session cache go
 back to the steps of the run, and the steps have the effect that they name.
 */
module ApprovalHistory {
  import opened Basics
  import opened ApprovalModels
  import opened ApprovalSystem

  // ----- an answer stands -----

  /** In s request id was answered so, and whoever asks or still waits is told so. */
  ghost predicate Told(s: Sys, id: RequestId, outcome: Outcome) {
    && BeginWait(s.rt, id).1 == Immediate(outcome)
    && (forall c :: c in s.suspended && s.suspended[c].id == id ==>
         s.suspended[c].future < |s.rt.futures| && s.rt.futures[s.suspended[c].future] == outcome)
  }

  lemma SettledIsTold(s: Sys, id: RequestId)
    requires Inv(s) && id in s.rt.requests && !IsPending(s.rt, id)
    ensures Told(s, id, Verdict(s.rt.requests[id]))
  {
    forall c | c in s.suspended && s.suspended[c].id == id ensures ObserverOk(s, s.suspended[c]) {}
  }

  /** The answer to a pending request is what the record says, and what every coroutine gets, ever after. */
  lemma AnswerStands(s: Sys, id: RequestId, response: Response, feedback: string, steps: seq<Step>)
    requires Inv(s) && IsPending(s.rt, id)
    requires Run(Next(s, Answer(id, response, feedback)), steps)
    ensures
      var s' := After(Next(s, Answer(id, response, feedback)), steps);
      && id in s'.rt.requests
      && s'.rt.requests[id] == s.rt.requests[id].(
           status := Resolved, response := Some(response), feedback := feedback, viaSessionCache := false)
      && Told(s', id, Answered(response, feedback))
  {
    var s1 := Next(s, Answer(id, response, feedback));
    StepKeeps(s, Answer(id, response, feedback));
    SettledIsFinal(s1, steps, id);
    RunKeeps(s1, steps);
    SettledIsTold(After(s1, steps), id);
  }

  /** Asking leaves a pending request that the coroutine waits for, unless the session lets the action through. */
  lemma AskWaits(s: Sys, c: CoroutineId, id: RequestId, action: string, source: Source, createdAt: real)
    requires Inv(s) && Enabled(s, Ask(c, id, action, source, createdAt))
    ensures
      var s' := Next(s, Ask(c, id, action, source, createdAt));
      if s.bypass || action in s.autoApprove then s' == s
      else
        && IsPending(s'.rt, id) && s'.rt.requests[id].action == action && s'.rt.requests[id].source == source
        && c in s'.suspended && s'.suspended[c].id == id && s'.suspended[c].action == Some(action)
  {
    assert id in s.rt.waiters <==> IsPending(s.rt, id) && Watching(s, id) != {};
  }

  /** Waiting for a request: unknown, pending and so suspended with the others, or settled and answered at once. */
  lemma WaitsIff(s: Sys, c: CoroutineId, id: RequestId, timed: bool)
    requires Inv(s) && Enabled(s, Observe(c, id, timed))
    ensures
      var s', start := Next(s, Observe(c, id, timed)), BeginWait(s.rt, id).1;
      && (start == NotFound <==> id !in s.rt.requests)
      && (start.Suspended? <==> IsPending(s.rt, id))
      && (c in s'.suspended <==> IsPending(s.rt, id))
      && (start.Immediate? <==> id in s.rt.requests && !IsPending(s.rt, id))
      && forall d :: d in s.suspended && s.suspended[d].id == id && c in s'.suspended ==> s'.suspended[c].future == s.suspended[d].future
  {
    assert id in s.rt.waiters <==> IsPending(s.rt, id) && Watching(s, id) != {};
    forall d | d in s.suspended && s.suspended[d].id == id ensures d in Watching(s, id) && ObserverOk(s, s.suspended[d]) {}
  }

  /** A second answer changes nothing. */
  lemma LateAnswer(s: Sys, id: RequestId, response: Response, feedback: string)
    requires !IsPending(s.rt, id)
    ensures Next(s, Answer(id, response, feedback)) == s
  {
  }

  lemma SourceExact(s: Sys, source: Source)
    requires Inv(s)
    ensures var rt' := CancelBySource(s.rt, s.rt.keys, source).0;
            && rt'.requests.Keys == s.rt.requests.Keys
            && forall id :: id in s.rt.requests ==>
                 rt'.requests[id] == if Matches(s.rt, id, source)
                                     then s.rt.requests[id].(status := Cancelled, response := Some(Reject))
                                     else s.rt.requests[id]
  {
    ListsExact(s.rt.keys, s.rt.requests.Keys);
    CancelBySourceExact(s.rt, s.rt.keys, source);
  }

  /** A pending request that is cancelled with its source is rejected, and every coroutine gets the error, ever after. */
  lemma CancelStands(s: Sys, id: RequestId, steps: seq<Step>)
    requires Inv(s) && IsPending(s.rt, id)
    requires Run(Next(s, CancelSource(s.rt.requests[id].source)), steps)
    ensures
      var s' := After(Next(s, CancelSource(s.rt.requests[id].source)), steps);
      && id in s'.rt.requests
      && s'.rt.requests[id] == s.rt.requests[id].(status := Cancelled, response := Some(Reject))
      && Told(s', id, CancelledError)
  {
    var source := s.rt.requests[id].source;
    var s1 := Next(s, CancelSource(source));
    StepKeeps(s, CancelSource(source));
    SourceExact(s, source);
    SettledIsFinal(s1, steps, id);
    RunKeeps(s1, steps);
    SettledIsTold(After(s1, steps), id);
  }

  lemma {:induction false} SweepExact(rt: Rt, ids: seq<RequestId>, action: string)
    requires NoDuplicates(ids)
    ensures var rt' := Sweep(rt, ids, action);
            && rt'.requests.Keys == rt.requests.Keys
            && forall id :: id in rt.requests ==>
                 rt'.requests[id] ==
                   if id in ids && IsPending(rt, id) && rt.requests[id].action == action
                   then rt.requests[id].(status := Resolved, response := Some(Approve), feedback := "", viaSessionCache := true)
                   else rt.requests[id]
  {
    if ids == [] {
    } else {
      assert ids == ids[..|ids| - 1] + [ids[|ids| - 1]] && ids[|ids| - 1] !in ids[..|ids| - 1];
      SweepExact(rt, ids[..|ids| - 1], action);
    }
  }

  /** The cache approves exactly the pending requests with the action. */
  lemma GrantExact(s: Sys, action: string)
    requires Inv(s)
    ensures var s' := GrantSession(s, action);
            && s'.rt.requests.Keys == s.rt.requests.Keys
            && forall id :: id in s.rt.requests ==>
                 s'.rt.requests[id] ==
                   if IsPending(s.rt, id) && s.rt.requests[id].action == action
                   then s.rt.requests[id].(status := Resolved, response := Some(Approve), feedback := "", viaSessionCache := true)
                   else s.rt.requests[id]
  {
    ListsExact(s.rt.keys, s.rt.requests.Keys);
    ListPendingExact(s.rt);
    SweepExact(s.rt, ListPending(s.rt), action);
  }

  /** The coroutine that asked got an answer for the session. */
  predicate HearsGrant(s: Sys, c: CoroutineId) {
    && c in s.suspended && s.suspended[c].action.Some?
    && s.suspended[c].id in s.rt.requests && s.rt.requests[s.suspended[c].id].response == Some(ApproveForSession)
  }

  /**
   When the coroutine that asked wakes to an answer for the session, every pending request with its action is
   approved, and from then on asking for the action creates no request.
   */
  lemma GrantStands(s: Sys, c: CoroutineId, steps: seq<Step>)
    requires Inv(s) && Enabled(s, Wake(c)) && HearsGrant(s, c)
    requires Run(Next(s, Wake(c)), steps)
    ensures
      var action, s' := s.suspended[c].action.value, After(Next(s, Wake(c)), steps);
      && action in s'.autoApprove
      && (forall id :: IsPending(s.rt, id) && s.rt.requests[id].action == action ==>
           id in s'.rt.requests && s'.rt.requests[id].response == Some(Approve) && Told(s', id, Answered(Approve, "")))
      && (forall ask: Step :: ask.Ask? && ask.action == action && Enabled(s', ask) ==> Next(s', ask) == s')
  {
    hide Inv, Next, Told;
    var action, s1 := s.suspended[c].action.value, Next(s, Wake(c));
    GrantedNow(s, c);
    RunKeeps(s1, steps);
    CacheStays(s1, steps);
    forall id | IsPending(s.rt, id) && s.rt.requests[id].action == action
      ensures
        var s' := After(s1, steps);
        id in s'.rt.requests && s'.rt.requests[id].response == Some(Approve) && Told(s', id, Answered(Approve, ""))
    {
      SettledIsFinal(s1, steps, id);
      SettledIsTold(After(s1, steps), id);
    }
    forall ask: Step | ask.Ask? && ask.action == action && Enabled(After(s1, steps), ask)
      ensures Next(After(s1, steps), ask) == After(s1, steps)
    {
      CachedAsk(After(s1, steps), ask);
    }
  }

  lemma CachedAsk(s: Sys, ask: Step)
    requires ask.Ask? && Enabled(s, ask) && ask.action in s.autoApprove
    ensures Next(s, ask) == s
  {
  }

  lemma GrantedNow(s: Sys, c: CoroutineId)
    requires Inv(s) && Enabled(s, Wake(c)) && HearsGrant(s, c)
    ensures
      var action, s' := s.suspended[c].action.value, Next(s, Wake(c));
      && Inv(s') && action in s'.autoApprove
      && forall id :: IsPending(s.rt, id) && s.rt.requests[id].action == action ==>
           id in s'.rt.requests && !IsPending(s'.rt, id)
           && s'.rt.requests[id].response == Some(Approve) && Verdict(s'.rt.requests[id]) == Answered(Approve, "")
  {
    hide Inv, Sweep, LeaveWait;
    var o := s.suspended[c];
    LeaveWaitRequests(s.rt, o.id, o.future);
    WakesTo(s, c);
    LeaveKeeps(s, c);
    GrantExact(Leave(s, c, s.rt), o.action.value);
    StepKeeps(s, Wake(c));
  }

  lemma {:induction false} CacheStays(s: Sys, steps: seq<Step>)
    requires Run(s, steps)
    ensures s.autoApprove <= After(s, steps).autoApprove
    decreases |steps|
  {
    if steps == [] {
    } else {
      CacheStays(Next(s, steps[0]), steps[1..]);
    }
  }

  // ----- nothing is recorded that was not said -----

  /** Step i answers request id, which is pending and for this action. */
  ghost predicate AnsweredAt(
    s0: Sys, steps: seq<Step>, i: int, id: RequestId, response: Response, feedback: string, action: string)
  {
    && 0 <= i < |steps| && steps[i] == Answer(id, response, feedback) && Run(s0, steps[..i])
    && IsPending(After(s0, steps[..i]).rt, id) && After(s0, steps[..i]).rt.requests[id].action == action
  }

  ghost predicate GrantedFor(s0: Sys, steps: seq<Step>, action: string) {
    exists i, id, feedback :: AnsweredAt(s0, steps, i, id, ApproveForSession, feedback, action)
  }

  /** Step i cancels the pending request id with its source, or times out a coroutine that waits for it. */
  ghost predicate CancelledAt(s0: Sys, steps: seq<Step>, i: int, id: RequestId, source: Source, feedback: string) {
    && 0 <= i < |steps| && Run(s0, steps[..i])
    && var s := After(s0, steps[..i]);
       && IsPending(s.rt, id)
       && if steps[i].Timeout?
          then steps[i].c in s.suspended && s.suspended[steps[i].c].id == id && feedback == "approval timed out"
          else steps[i] == CancelSource(source) && feedback == ""
  }

  ghost predicate AskedAt(steps: seq<Step>, i: int, id: RequestId, r: Request) {
    0 <= i < |steps| && steps[i].Ask? && steps[i] == Ask(steps[i].c, id, r.action, r.source, r.createdAt)
  }

  /** The record of request id goes back to steps of the run. */
  ghost predicate Explained(s0: Sys, steps: seq<Step>, id: RequestId, r: Request) {
    && (exists i :: AskedAt(steps, i, id, r))
    && match r.status
       case Pending => r.response == None && r.feedback == "" && !r.viaSessionCache
       case Resolved =>
         r.response.Some? &&
         if r.viaSessionCache then r.response == Some(Approve) && r.feedback == "" && GrantedFor(s0, steps, r.action)
         else exists i :: AnsweredAt(s0, steps, i, id, r.response.value, r.feedback, r.action)
       case Cancelled =>
         r.response == Some(Reject) && !r.viaSessionCache &&
         exists i :: CancelledAt(s0, steps, i, id, r.source, r.feedback)
  }

  /** A coroutine that asked for an action waits for a request with this action. */
  ghost predicate AsksFor(s: Sys) {
    forall c :: c in s.suspended && s.suspended[c].action.Some? ==>
      && s.suspended[c].id in s.rt.requests
      && s.rt.requests[s.suspended[c].id].action == s.suspended[c].action.value
  }

  ghost predicate History(s0: Sys, steps: seq<Step>, s: Sys) {
    && (forall id :: id in s.rt.requests ==> Explained(s0, steps, id, s.rt.requests[id]))
    && (forall action :: action in s.autoApprove ==> action in s0.autoApprove || GrantedFor(s0, steps, action))
    && AsksFor(s)
  }

  lemma {:induction false} RunLast(s: Sys, steps: seq<Step>)
    requires Run(s, steps) && steps != []
    ensures
      var most, last := steps[..|steps| - 1], steps[|steps| - 1];
      Run(s, most) && Enabled(After(s, most), last) && After(s, steps) == Next(After(s, most), last)
    decreases |steps|
  {
    if |steps| > 1 {
      RunLast(Next(s, steps[0]), steps[1..]);
      assert steps[1..][..|steps| - 2] == steps[..|steps| - 1][1..];
    }
  }

  lemma AnsweredStays(s0: Sys, most: seq<Step>, last: Step, i: int, id: RequestId, response: Response, feedback: string, action: string)
    requires AnsweredAt(s0, most, i, id, response, feedback, action)
    ensures AnsweredAt(s0, most + [last], i, id, response, feedback, action)
  {
    assert (most + [last])[..i] == most[..i];
  }

  lemma GrantedStays(s0: Sys, most: seq<Step>, last: Step, action: string)
    requires GrantedFor(s0, most, action)
    ensures GrantedFor(s0, most + [last], action)
  {
    hide AnsweredAt;
    var i, id, feedback :| AnsweredAt(s0, most, i, id, ApproveForSession, feedback, action);
    AnsweredStays(s0, most, last, i, id, ApproveForSession, feedback, action);
  }

  lemma AskedStays(most: seq<Step>, last: Step, id: RequestId, r: Request)
    requires exists i :: AskedAt(most, i, id, r)
    ensures exists i :: AskedAt(most + [last], i, id, r)
  {
    var i :| AskedAt(most, i, id, r);
    assert AskedAt(most + [last], i, id, r);
  }

  lemma ExplainedStays(s0: Sys, most: seq<Step>, last: Step, id: RequestId, r: Request)
    requires Explained(s0, most, id, r)
    ensures Explained(s0, most + [last], id, r)
  {
    hide AnsweredAt, GrantedFor, CancelledAt, AskedAt;
    AskedStays(most, last, id, r);
    if r.status.Resolved? {
      if r.viaSessionCache {
        GrantedStays(s0, most, last, r.action);
      } else {
        var i :| AnsweredAt(s0, most, i, id, r.response.value, r.feedback, r.action);
        AnsweredStays(s0, most, last, i, id, r.response.value, r.feedback, r.action);
      }
    } else if r.status.Cancelled? {
      var i :| CancelledAt(s0, most, i, id, r.source, r.feedback);
      CancelledStays(s0, most, last, i, id, r.source, r.feedback);
    }
  }

  lemma CancelledStays(s0: Sys, most: seq<Step>, last: Step, i: int, id: RequestId, source: Source, feedback: string)
    requires CancelledAt(s0, most, i, id, source, feedback)
    ensures CancelledAt(s0, most + [last], i, id, source, feedback)
  {
    assert (most + [last])[..i] == most[..i];
  }

  /** The step leaves the record of request id alone, or it is one of those that explain the new one. */
  ghost predicate Changes(s: Sys, step: Step, id: RequestId, s': Sys)
    requires id in s'.rt.requests
  {
    var r' := s'.rt.requests[id];
    || (id in s.rt.requests && r' == s.rt.requests[id])
    || (step.Ask? && step.id == id && r' == NewRequest(step.action, step.source, step.createdAt))
    || (IsPending(s.rt, id) &&
        var r := s.rt.requests[id];
        match step
        case Answer(id', response, feedback) =>
          id' == id && r' == r.(status := Resolved, response := Some(response), feedback := feedback, viaSessionCache := false)
        case CancelSource(source) =>
          source == r.source && r' == r.(status := Cancelled, response := Some(Reject))
        case Timeout(c) =>
          c in s.suspended && s.suspended[c].id == id &&
          r' == r.(status := Cancelled, response := Some(Reject), feedback := "approval timed out")
        case Wake(c) =>
          HearsGrant(s, c) && s.suspended[c].action == Some(r.action) &&
          r' == r.(status := Resolved, response := Some(Approve), feedback := "", viaSessionCache := true)
        case _ => false)
  }

  lemma StepChanges(s: Sys, step: Step, id: RequestId)
    requires Inv(s) && Enabled(s, step) && id in Next(s, step).rt.requests
    ensures Changes(s, step, id, Next(s, step))
  {
    hide Inv, LeaveWait, Sweep, CancelBySource;
    match step
    case Ask(_, _, _, _, _) =>
    case Observe(_, _, _) =>
    case Answer(_, _, _) =>
    case CancelSource(source) => CancelChanges(s, source, id);
    case Wake(c) => WakeChanges(s, c, id);
    case Timeout(c) => LeaveWaitRequests(TimeoutHandler(s.rt, s.suspended[c].id), s.suspended[c].id, s.suspended[c].future);
    case Abort(c) => LeaveWaitRequests(s.rt, s.suspended[c].id, s.suspended[c].future);
    case SetBypass(_) =>
  }

  lemma LeaveWaitRequests(rt: Rt, id: RequestId, future: FutureRef)
    ensures LeaveWait(rt, id, future).requests == rt.requests
  {
  }

  lemma CancelChanges(s: Sys, source: Source, id: RequestId)
    requires Inv(s) && id in Next(s, CancelSource(source)).rt.requests
    ensures Changes(s, CancelSource(source), id, Next(s, CancelSource(source)))
  {
    SourceExact(s, source);
  }

  lemma WakeChanges(s: Sys, c: CoroutineId, id: RequestId)
    requires Inv(s) && Enabled(s, Wake(c)) && id in Next(s, Wake(c)).rt.requests
    ensures Changes(s, Wake(c), id, Next(s, Wake(c)))
  {
    hide Inv, Sweep, LeaveWait;
    var o, left := s.suspended[c], Leave(s, c, s.rt);
    LeaveWaitRequests(s.rt, o.id, o.future);
    WakesTo(s, c);
    LeaveKeeps(s, c);
    if o.action.Some? { GrantExact(left, o.action.value); }
  }

  /** A coroutine wakes to the verdict of a settled request. */
  lemma WakesTo(s: Sys, c: CoroutineId)
    requires Inv(s) && Enabled(s, Wake(c))
    ensures
      var o := s.suspended[c];
      && o.id in s.rt.requests && !IsPending(s.rt, o.id)
      && s.rt.futures[o.future] == Verdict(s.rt.requests[o.id]) && RecordOk(s.rt.requests[o.id])
  {
    assert ObserverOk(s, s.suspended[c]);
  }

  lemma HeardIsGranted(s0: Sys, steps: seq<Step>, s: Sys, c: CoroutineId)
    requires Inv(s) && History(s0, steps, s) && Enabled(s, Wake(c)) && HearsGrant(s, c)
    ensures GrantedFor(s0, steps, s.suspended[c].action.value)
  {
    hide Inv, AnsweredAt, CancelledAt, AskedAt;
    WakesTo(s, c);
    assert Explained(s0, steps, s.suspended[c].id, s.rt.requests[s.suspended[c].id]);
  }

  // The last step explains each record that it changes.

  lemma AskExplains(s0: Sys, most: seq<Step>, last: Step)
    requires last.Ask?
    ensures Explained(s0, most + [last], last.id, NewRequest(last.action, last.source, last.createdAt))
  {
    hide AnsweredAt, GrantedFor, CancelledAt;
    assert AskedAt(most + [last], |most|, last.id, NewRequest(last.action, last.source, last.createdAt));
  }

  lemma AnswerExplains(s0: Sys, most: seq<Step>, last: Step, id: RequestId, r: Request)
    requires Run(s0, most) && last.Answer? && last.id == id
    requires IsPending(After(s0, most).rt, id) && After(s0, most).rt.requests[id] == r && Explained(s0, most, id, r)
    ensures Explained(s0, most + [last], id, r.(status := Resolved, response := Some(last.response),
                                                feedback := last.feedback, viaSessionCache := false))
  {
    hide GrantedFor, CancelledAt, Run, After;
    AskedStays(most, last, id, r);
    assert (most + [last])[..|most|] == most;
    assert AnsweredAt(s0, most + [last], |most|, id, last.response, last.feedback, r.action);
    var r' := r.(status := Resolved, response := Some(last.response), feedback := last.feedback, viaSessionCache := false);
    var i :| AskedAt(most + [last], i, id, r);
    assert AskedAt(most + [last], i, id, r');
  }

  lemma CancelExplains(s0: Sys, most: seq<Step>, last: Step, id: RequestId, r: Request, feedback: string)
    requires Explained(s0, most, id, r) && r.status.Pending?
    requires CancelledAt(s0, most + [last], |most|, id, r.source, feedback)
    ensures Explained(s0, most + [last], id, r.(status := Cancelled, response := Some(Reject), feedback := feedback))
  {
    hide GrantedFor, CancelledAt, AnsweredAt;
    AskedStays(most, last, id, r);
    var i :| AskedAt(most + [last], i, id, r);
    assert AskedAt(most + [last], i, id, r.(status := Cancelled, response := Some(Reject), feedback := feedback));
  }

  lemma GrantExplains(s0: Sys, most: seq<Step>, last: Step, id: RequestId, r: Request)
    requires Explained(s0, most, id, r) && r.status.Pending? && GrantedFor(s0, most, r.action)
    ensures Explained(s0, most + [last], id, r.(status := Resolved, response := Some(Approve), feedback := "", viaSessionCache := true))
  {
    hide GrantedFor, CancelledAt, AnsweredAt;
    AskedStays(most, last, id, r);
    GrantedStays(s0, most, last, r.action);
    var i :| AskedAt(most + [last], i, id, r);
    assert AskedAt(most + [last], i, id, r.(status := Resolved, response := Some(Approve), feedback := "", viaSessionCache := true));
  }

  lemma RecordStep(s0: Sys, most: seq<Step>, last: Step, id: RequestId)
    requires Inv(s0) && Run(s0, most) && History(s0, most, After(s0, most)) && Enabled(After(s0, most), last)
    requires id in Next(After(s0, most), last).rt.requests
    ensures Explained(s0, most + [last], id, Next(After(s0, most), last).rt.requests[id])
  {
    hide Inv, Enabled, Next, AsksFor, Run, After, AnsweredAt, GrantedFor, AskedAt, Explained;
    RunKeeps(s0, most);
    var s, s' := After(s0, most), Next(After(s0, most), last);
    StepChanges(s, last, id);
    assert (most + [last])[..|most|] == most && (most + [last])[|most|] == last;
    if id in s.rt.requests { ExplainedStays(s0, most, last, id, s.rt.requests[id]); }
    if id !in s.rt.requests || s'.rt.requests[id] != s.rt.requests[id] {
      match last
      case Ask(_, _, _, _, _) => AskExplains(s0, most, last);
      case Answer(_, _, _) => AnswerExplains(s0, most, last, id, s.rt.requests[id]);
      case CancelSource(_) => PendingUntold(s0, most, id, s.rt.requests[id]); CancelExplains(s0, most, last, id, s.rt.requests[id], "");
      case Timeout(c) => CancelExplains(s0, most, last, id, s.rt.requests[id], "approval timed out");
      case Wake(c) =>
        HeardIsGranted(s0, most, s, c);
        GrantExplains(s0, most, last, id, s.rt.requests[id]);
      case _ =>
    }
  }

  lemma PendingUntold(s0: Sys, steps: seq<Step>, id: RequestId, r: Request)
    requires Explained(s0, steps, id, r) && r.status.Pending?
    ensures r.feedback == ""
  {
  }

  lemma CacheStep(s0: Sys, most: seq<Step>, last: Step, action: string)
    requires Inv(s0) && Run(s0, most) && History(s0, most, After(s0, most)) && Enabled(After(s0, most), last)
    requires action in Next(After(s0, most), last).autoApprove
    ensures action in s0.autoApprove || GrantedFor(s0, most + [last], action)
  {
    hide Inv, AsksFor, Run, After, GrantedFor, Explained, LeaveWait, Sweep, CancelBySource, BeginWait, TimeoutHandler, Resolve;
    RunKeeps(s0, most);
    var s := After(s0, most);
    if action !in s.autoApprove {
      assert last.Wake?;
      WakesTo(s, last.c);
      HeardIsGranted(s0, most, s, last.c);
    }
    if action !in s0.autoApprove { GrantedStays(s0, most, last, action); }
  }

  /** Requests keep their actions. */
  lemma ActionStays(s: Sys, step: Step, id: RequestId)
    requires Inv(s) && Enabled(s, step) && id in s.rt.requests
    ensures id in Next(s, step).rt.requests && Next(s, step).rt.requests[id].action == s.rt.requests[id].action
  {
    hide Inv, LeaveWait, Sweep, CancelBySource;
    match step
    case CancelSource(source) => SourceExact(s, source);
    case Wake(c) =>
      var left := Leave(s, c, s.rt);
      LeaveWaitRequests(s.rt, s.suspended[c].id, s.suspended[c].future);
      LeaveKeeps(s, c);
      if s.suspended[c].action.Some? { GrantExact(left, s.suspended[c].action.value); }
    case Timeout(c) => LeaveWaitRequests(TimeoutHandler(s.rt, s.suspended[c].id), s.suspended[c].id, s.suspended[c].future);
    case Abort(c) => LeaveWaitRequests(s.rt, s.suspended[c].id, s.suspended[c].future);
    case _ =>
  }

  lemma AsksStep(s: Sys, step: Step)
    requires Inv(s) && Enabled(s, step) && AsksFor(s)
    ensures AsksFor(Next(s, step))
  {
    hide Inv, LeaveWait, Sweep, CancelBySource, TimeoutHandler, Resolve;
    forall id | id in s.rt.requests
      ensures id in Next(s, step).rt.requests && Next(s, step).rt.requests[id].action == s.rt.requests[id].action
    {
      ActionStays(s, step, id);
    }
  }

  /**
   In every run from an empty runtime: each record goes back to the step that asked for it; it is approved, rejected
   or granted for the session only by an answer that said so while it was pending, approved through the cache only
   after an answer for the session to a request with its action, and cancelled only with its source or by a timeout.
   The cache holds nothing but what was saved and what such answers granted.
   */
  lemma {:induction false} NothingUnsaid(saved: set<string>, bypass: bool, steps: seq<Step>)
    requires Run(Start(saved, bypass), steps)
    ensures History(Start(saved, bypass), steps, After(Start(saved, bypass), steps))
    decreases |steps|
  {
    hide Inv, Enabled, Next, AsksFor, Explained, GrantedFor;
    var s0 := Start(saved, bypass);
    StartIsFine(saved, bypass);
    if steps != [] {
      var most, last := steps[..|steps| - 1], steps[|steps| - 1];
      RunLast(s0, steps);
      NothingUnsaid(saved, bypass, most);
      RunKeeps(s0, most);
      assert most + [last] == steps;
      var s' := Next(After(s0, most), last);
      forall id | id in s'.rt.requests ensures Explained(s0, steps, id, s'.rt.requests[id]) { RecordStep(s0, most, last, id); }
      forall action | action in s'.autoApprove ensures action in s0.autoApprove || GrantedFor(s0, steps, action) {
        CacheStep(s0, most, last, action);
      }
      AsksStep(After(s0, most), last);
    }
  }

  lemma StartIsFine(saved: set<string>, bypass: bool)
    ensures Inv(Start(saved, bypass)) && AsksFor(Start(saved, bypass))
  {
  }
}
