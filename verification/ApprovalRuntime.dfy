/**
 The approval runtime as the object it is: its dictionaries are updated in place. Every method
 changes the object exactly as the function of the same name in ApprovalModels changes the value
 that Model reads off the fields.
 */
module ApprovalRuntime {
  import opened Basics
  import opened M = ApprovalModels

  class ApprovalRuntime {
    var requests: map<RequestId, Request>
    /** The keys of the dictionary, in insertion order. */
    var keys: seq<RequestId>
    var waiters: map<RequestId, FutureRef>
    var counts: map<RequestId, nat>
    /** The futures the event loop has created, in order; a FutureRef is an index. */
    var futures: seq<Outcome>
    var announced: seq<RequestId>

    ghost predicate Valid()
      reads this
    {
      Lists(keys, requests.Keys)
    }

    function Model(): Rt
      reads this
    {
      Rt(requests, keys, waiters, counts, futures, announced)
    }

    constructor ()
      ensures Valid() && Model() == EMPTY
    {
      requests, keys, waiters, counts, futures, announced := map[], [], map[], map[], [], [];
    }

    /** Ids are fresh UUIDs. */
    method CreateRequest(id: RequestId, action: string, source: Source, createdAt: real)
      requires Valid() && id !in requests
      modifies this
      ensures Valid()
      ensures Model() == M.Create(old(Model()), id, action, source, createdAt)
    {
      ListsAppend(keys, requests.Keys, id);
      requests := requests[id := NewRequest(action, source, createdAt)];
      keys := keys + [id];
      assert requests.Keys == old(requests.Keys) + {id};
    }

    method Resolve(id: RequestId, response: Response, feedback: string, viaCache: bool) returns (ok: bool)
      requires Valid()
      modifies this
      ensures Valid()
      ensures Model() == M.Resolve(old(Model()), id, response, feedback, viaCache)
      ensures ok <==> IsPending(old(Model()), id)
      ensures ok ==>
        && requests == old(requests)[id := old(requests)[id].(
             status := Resolved, response := Some(response), feedback := feedback, viaSessionCache := viaCache)]
        && forall f :: id in old(waiters) && old(waiters)[id] == f < |old(futures)| && old(futures)[f].Undone? ==>
             f < |futures| && futures[f] == Answered(response, feedback)
    {
      if id !in requests || !requests[id].status.Pending? {
        return false;
      }
      SetRecord(id, Resolved, response, feedback, viaCache);
      PopAndComplete(id, Answered(response, feedback));
      announced := announced + [id];
      return true;
    }

    method CancelRequest(id: RequestId, feedback: string)
      requires Valid()
      modifies this
      ensures Valid()
      ensures Model() == M.Cancel(old(Model()), id, feedback)
    {
      if id !in requests || !requests[id].status.Pending? {
        return;
      }
      SetRecord(id, Cancelled, Reject, feedback, requests[id].viaSessionCache);
      PopAndComplete(id, CancelledError);
      announced := announced + [id];
    }

    method SetRecord(id: RequestId, status: Status, response: Response, feedback: string, viaCache: bool)
      requires Valid() && id in requests
      modifies `requests
      ensures Valid() && requests == old(requests)[id := old(requests)[id].(
                status := status, response := Some(response), feedback := feedback, viaSessionCache := viaCache)]
    {
      requests := requests[id := requests[id].(
        status := status, response := Some(response), feedback := feedback, viaSessionCache := viaCache)];
      assert requests.Keys == old(requests.Keys);
    }

    method PopAndComplete(id: RequestId, outcome: Outcome)
      modifies `waiters, `futures
      ensures waiters == old(waiters) - {id}
      ensures futures == if id in old(waiters) then Complete(old(futures), old(waiters)[id], outcome) else old(futures)
    {
      if id in waiters {
        var waiter := waiters[id];
        waiters := waiters - {id};
        if waiter < |futures| && futures[waiter].Undone? {
          futures := futures[waiter := outcome];
        }
      }
    }

    method CancelBySource(source: Source) returns (cancelled: nat)
      requires Valid()
      modifies this
      ensures Valid()
      ensures (Model(), cancelled) == M.CancelBySource(old(Model()), old(keys), source)
    {
      cancelled := 0;
      for i := 0 to |keys|
        invariant Valid() && keys == old(keys)
        invariant (Model(), cancelled) == M.CancelBySource(old(Model()), keys[..i], source)
      {
        assert keys[..i + 1][..i] == keys[..i];
        ListsExact(keys, requests.Keys);
        var request := requests[keys[i]];
        if request.status.Pending? && request.source == source {
          CancelRequest(keys[i], request.feedback);
          cancelled := cancelled + 1;
        }
      }
      assert keys[..|keys|] == keys;
    }

    method BeginWait(id: RequestId) returns (start: WaitStart)
      requires Valid()
      modifies this
      ensures Valid()
      ensures (Model(), start) == M.BeginWait(old(Model()), id)
    {
      if id !in requests {
        return NotFound;
      }
      var waiter;
      if id in waiters {
        waiter := waiters[id];
      } else {
        var request := requests[id];
        if !request.status.Pending? {
          return Immediate(Verdict(request));
        }
        waiter := |futures|;
        futures := futures + [Undone];
        waiters := waiters[id := waiter];
      }
      counts := counts[id := (if id in counts then counts[id] else 0) + 1];
      return Suspended(waiter);
    }

    method TimeoutHandler(id: RequestId)
      requires Valid()
      modifies this
      ensures Valid()
      ensures Model() == M.TimeoutHandler(old(Model()), id)
    {
      if (if id in counts then counts[id] else 0) <= 1 {
        waiters := waiters - {id};
      }
      CancelRequest(id, "approval timed out");
    }

    method LeaveWait(id: RequestId, waiter: FutureRef)
      requires Valid() && id in requests
      modifies this
      ensures Valid()
      ensures Model() == M.LeaveWait(old(Model()), id, waiter)
    {
      var remaining := (if id in counts then counts[id] as int else 0) - 1;
      if remaining > 0 {
        counts := counts[id := remaining];
      } else {
        counts := counts - {id};
        if requests[id].status.Pending? && id in waiters && waiters[id] == waiter {
          waiters := waiters - {id};
        }
      }
    }

    method ListPending() returns (pending: seq<RequestId>)
      requires Valid()
      ensures pending == M.ListPending(Model())
      ensures forall k :: 0 <= k < |pending| ==> pending[k] in requests
    {
      pending := [];
      ListsExact(keys, requests.Keys);
      for i := 0 to |keys|
        invariant pending == PendingIn(Model(), keys[..i])
        invariant forall x <- pending :: x in requests
      {
        assert keys[..i + 1][..i] == keys[..i];
        if requests[keys[i]].status.Pending? {
          pending := pending + [keys[i]];
        }
      }
      assert keys[..|keys|] == keys;
      pending := SortByAge(Ages(Model()), pending);
      assert forall k :: 0 <= k < |pending| ==> pending[k] in pending;
    }

    /** The branch of Approval.request that an answer for the session takes. */
    method SweepSession(action: string)
      requires Valid()
      modifies this
      ensures Valid()
      ensures Model() == Sweep(old(Model()), M.ListPending(old(Model())), action)
    {
      var listed := ListPending();
      var records := requests;
      for i := 0 to |listed|
        invariant Valid()
        invariant Model() == Sweep(old(Model()), listed[..i], action)
      {
        assert listed[..i + 1][..i] == listed[..i];
        if records[listed[i]].action == action {
          var _ := Resolve(listed[i], Approve, "", true);
        }
      }
      assert listed[..|listed|] == listed;
    }
  }
}
