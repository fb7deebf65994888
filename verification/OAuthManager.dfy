/** The two objects that _refresh_tokens updates in place: the file lock and the table of rejected tokens. */
module OAuthManager {
  import opened Basics
  import opened R = OAuthRefresh

  /** What the server answers to a refresh; Failed is every error but a refusal. */
  datatype Reply = Refreshed(token: Token) | Refused | Failed

  /** Whether the file, read under the lock, leaves the refresh to do: the same token, and soon to expire. */
  predicate StillNeeded(locked: Option<Token>, value: RefreshToken, force: bool, now: real) {
    locked.Some? ==> locked.value.refresh == Some(value) && (force || !LongLived(locked.value, now))
  }

  /** Whether the file, read again after a refusal, holds another token by now. */
  predicate Replaced(latest: Option<Token>, value: RefreshToken) {
    latest.Some? && latest.value.refresh != Some(value)
  }

  function Marked(states: map<int, Tombstone>, key: int, value: RefreshToken, now: real): map<int, Tombstone> {
    states[key := Tombstone(value, now + UNAUTHORIZED_REFRESH_RETRY_COOLDOWN_SECONDS)]
  }

  /** What one attempt at the lock file meets. */
  datatype Attempt = Taken | Contended | CannotOpen

  /** Attempt k is the first that is not contended. */
  predicate FirstFree(attempts: seq<Attempt>, k: int) {
    0 <= k < |attempts| && !attempts[k].Contended? && forall j :: 0 <= j < k ==> attempts[j].Contended?
  }

  class CrossProcessLock {
    var held: bool

    constructor ()
      ensures !held
    {
      held := false;
    }

    method Acquire(attempt: Attempt) returns (r: Result<bool, ()>)
      modifies this
      ensures r == match attempt case Taken => Ok(true) case Contended => Ok(false) case CannotOpen => Err(())
      ensures held == attempt.Taken?
    {
      held := attempt.Taken?;
      match attempt {
        case Taken => return Ok(true);
        case Contended => return Ok(false);
        case CannotOpen => return Err(());
      }
    }

    /** At most one attempt more than the retries; the caller goes on without the lock when it gets false. */
    method AcquireWithRetry(attempts: seq<Attempt>) returns (acquired: bool, used: nat)
      requires |attempts| == CROSS_PROCESS_LOCK_RETRIES + 1
      modifies this
      ensures held == acquired
      ensures acquired <==> exists k :: FirstFree(attempts, k) && attempts[k].Taken?
      ensures used <= |attempts|
      ensures used < |attempts| ==> FirstFree(attempts, used - 1)
    {
      for i := 0 to CROSS_PROCESS_LOCK_RETRIES
        invariant forall j :: 0 <= j < i ==> attempts[j].Contended?
      {
        var r := Acquire(attempts[i]);
        assert !attempts[i].Contended? ==> forall k :: FirstFree(attempts, k) ==> k == i;
        if r == Ok(true) {
          assert FirstFree(attempts, i);
          return true, i + 1;
        }
        if r.Err? {
          assert FirstFree(attempts, i);
          return false, i + 1;
        }
      }
      var r := Acquire(attempts[CROSS_PROCESS_LOCK_RETRIES]);
      assert !attempts[CROSS_PROCESS_LOCK_RETRIES].Contended? ==> FirstFree(attempts, CROSS_PROCESS_LOCK_RETRIES);
      return r == Ok(true), CROSS_PROCESS_LOCK_RETRIES + 1;
    }

    method Release()
      modifies this
      ensures !held
    {
      held := false;
    }
  }

  /** The module-level table of rejected refresh tokens of one process. */
  class RejectedTokens {
    var states: map<int, Tombstone>

    constructor ()
      ensures states == map[]
    {
      states := map[];
    }

    method RejectedState(key: int, value: Option<RefreshToken>) returns (state: Option<Tombstone>)
      modifies this
      ensures states == Tombs(old(states), key, value)
      ensures state.Some? <==> Suppressed(old(states), key, value)
      ensures state.Some? ==> key in states && states[key] == state.value && value == Some(state.value.value)
    {
      if value.None? || key !in states {
        return None;
      }
      if states[key].value != value.value {
        states := states - {key};
        return None;
      }
      return Some(states[key]);
    }

    method CanRetry(key: int, value: Option<RefreshToken>, now: real) returns (ok: bool)
      modifies this
      ensures states == Tombs(old(states), key, value)
      ensures ok == MayRetry(old(states), now, key, value)
    {
      var state := RejectedState(key, value);
      return state.None? || now >= state.value.retryAfter;
    }

    /** Nothing but a different token or the end of the cooldown makes the marked token usable again. */
    method Mark(key: int, value: RefreshToken, now: real)
      modifies this
      ensures states == Marked(old(states), key, value, now)
      ensures forall later: real :: MayRetry(states, later, key, Some(value)) <==> later >= now + 300.0
      ensures forall other :: other != Some(value) ==> !Suppressed(states, key, other)
    {
      states := Marked(states, key, value, now);
    }

    method Clear(key: int)
      modifies this
      ensures states == old(states) - {key}
    {
      states := states - {key};
    }
  }

  class TokenManager {
    const rejected: RejectedTokens

    constructor (rejected: RejectedTokens)
      ensures this.rejected == rejected
    {
      this.rejected := rejected;
    }

    /**
     The refresh from the file lock on. Others may write the file whenever it waits, so what it reads
     under the lock and after a refusal comes from outside, as does the answer of the server. The lock
     is free again however it ends; sent says whether the server was asked, and saved what was written.
     */
    method RefreshUnderLock(key: int, value: RefreshToken, force: bool, attempts: seq<Attempt>, locked: Option<Token>,
                            now1: real, reply: Reply, latest: Option<Token>, now2: real)
      returns (lock: CrossProcessLock, sent: bool, saved: Option<Token>, raised: bool)
      requires |attempts| == CROSS_PROCESS_LOCK_RETRIES + 1
      modifies rejected
      ensures fresh(lock) && !lock.held
      ensures sent <==>
        (exists k :: FirstFree(attempts, k) && attempts[k].Taken?) ==> StillNeeded(locked, value, force, now1)
      ensures saved == if sent && reply.Refreshed? then Some(reply.token) else None
      ensures raised <==> force && sent && (reply.Failed? || (reply.Refused? && !Replaced(latest, value)))
      ensures rejected.states ==
        if sent && reply.Failed? then old(rejected.states)
        else if sent && reply.Refused? && !Replaced(latest, value) then Marked(old(rejected.states), key, value, now2)
        else old(rejected.states) - {key}
    {
      hide StillFreshLocked, LongLived;
      if locked.Some? { FreshIsLongLived(locked.value, now1); }
      lock := new CrossProcessLock();
      sent, saved, raised := false, None, false;
      var acquired, used := lock.AcquireWithRetry(attempts);
      if acquired && locked.Some? {
        if locked.value.refresh != Some(value) {
          rejected.Clear(key);
          lock.Release();
          return;
        }
        if !force && StillFreshLocked(locked.value, now1) {
          rejected.Clear(key);
          lock.Release();
          return;
        }
      }
      sent := true;
      match reply {
        case Refused =>
          if latest.Some? && latest.value.refresh != Some(value) {
            rejected.Clear(key);
          } else {
            rejected.Mark(key, value, now2);
            raised := force;
          }
        case Failed =>
          raised := force;
        case Refreshed(token) =>
          rejected.Clear(key);
          saved := Some(token);
      }
      lock.Release();
    }
  }

  /** The steps of the protocol decide as the method does. */
  lemma StepsDecideAlike(w: World, a: Actor)
    ensures PcOf(w, a).Locked? ==>
      var pc := PcOf(w, a);
      && (PcOf(CheckStep(w, a), a).Ready? <==> StillNeeded(w.disk, pc.value, pc.force, w.now))
      && CheckStep(w, a).tombs == if StillNeeded(w.disk, pc.value, pc.force, w.now) then w.tombs else w.tombs - {a.process}
    ensures PcOf(w, a).Denied? ==>
      var value := PcOf(w, a).value;
      RecheckStep(w, a).tombs ==
        if Replaced(w.disk, value) then w.tombs - {a.process} else Marked(w.tombs, a.process, value, w.now)
  {
    hide StillFreshLocked, LongLived;
    if w.disk.Some? { FreshIsLongLived(w.disk.value, w.now); }
  }
}
