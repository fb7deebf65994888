/** The in-process lock of a manager, and the attempts at the file lock. */
module OAuthDoors {
  import opened Basics
  import opened OAuthRefresh
  import F = OAuthFreshness

  /** Past the in-process lock and not yet out again. */
  predicate Inside(pc: Pc) {
    !(pc.Idle? || pc.Loaded? || pc.AtMutex?)
  }

  /** The lock of a manager is held exactly by the one of its coroutines that is inside. */
  ghost predicate DoorsOk(w: World) {
    && (forall a :: Inside(PcOf(w, a)) ==> Door(a) in w.mutex && w.mutex[Door(a)] == a)
    && (forall d :: d in w.mutex ==> Door(w.mutex[d]) == d && Inside(PcOf(w, w.mutex[d])))
  }

  /** What a step does to the lock of a manager: entering takes it, leaving frees it, nothing else touches it. */
  predicate MovesThrough(w: World, a: Actor, w': World) {
    var pc, pc' := PcOf(w, a), PcOf(w', a);
    || (Inside(pc) == Inside(pc') && w'.mutex == w.mutex)
    || (!Inside(pc) && Inside(pc') && Door(a) !in w.mutex && w'.mutex == w.mutex[Door(a) := a])
    || (!Inside(pc') && w'.mutex == if Door(a) in w.mutex && w.mutex[Door(a)] == a then w.mutex - {Door(a)} else w.mutex)
  }

  lemma StepMoves(c: Config, w: World, step: Step, a: Actor)
    requires Enabled(c, w, step) && F.Moves(step, a)
    ensures MovesThrough(w, a, Next(c, w, step))
  {
    hide BeginStep, ReloadStep, DecideStep, CheckStep, TryLockStep, SendStep, RecheckStep;
    match step
    case Begin(_, force) => ReadMoves(w, a, force);
    case Reload(_) => ReadMoves(w, a, false);
    case Decide(_) => ReadMoves(w, a, false);
    case TryLock(_) => LockMoves(w, a, 0.0);
    case Check(_) => LockMoves(w, a, 0.0);
    case Send(_, expiresIn) => LockMoves(w, a, expiresIn);
    case Recheck(_) => LockMoves(w, a, 0.0);
    case _ =>
  }

  lemma ReadMoves(w: World, a: Actor, force: bool)
    ensures PcOf(w, a).Idle? ==> MovesThrough(w, a, BeginStep(w, a, force))
    ensures PcOf(w, a).Loaded? ==> MovesThrough(w, a, ReloadStep(w, a))
    ensures PcOf(w, a).InMutex? ==> MovesThrough(w, a, DecideStep(w, a))
  {
    hide StillFresh, Suppressed, MayRetry, Tombs;
  }

  lemma LockMoves(w: World, a: Actor, expiresIn: real)
    ensures PcOf(w, a).WantLock? ==> MovesThrough(w, a, TryLockStep(w, a))
    ensures PcOf(w, a).Locked? ==> MovesThrough(w, a, CheckStep(w, a))
    ensures PcOf(w, a).Ready? ==> MovesThrough(w, a, SendStep(w, a, expiresIn))
    ensures PcOf(w, a).Denied? ==> MovesThrough(w, a, RecheckStep(w, a))
  {
    hide StillFreshLocked, Cooling;
  }

  lemma NobodyMoves(c: Config, w: World, step: Step)
    requires Enabled(c, w, step) && forall b :: !F.Moves(step, b)
    ensures Next(c, w, step).mutex == w.mutex
  {
    if !step.Login? && !step.Logout? && !step.Tick? { assert F.Moves(step, step.a); }
  }

  lemma DoorsMove(w: World, a: Actor, w': World)
    requires DoorsOk(w) && MovesThrough(w, a, w') && forall b :: b != a ==> PcOf(w', b) == PcOf(w, b)
    ensures DoorsOk(w')
  {
    hide PcOf, Inside;
    forall b | Inside(PcOf(w', b)) ensures Door(b) in w'.mutex && w'.mutex[Door(b)] == b {
      if b != a { assert Inside(PcOf(w, b)); }
    }
  }

  lemma DoorsStep(c: Config, w: World, step: Step)
    requires DoorsOk(w) && Enabled(c, w, step)
    ensures DoorsOk(Next(c, w, step))
  {
    hide Enabled, Next, DoorsOk, MovesThrough;
    var w' := Next(c, w, step);
    forall b | !F.Moves(step, b) ensures PcOf(w', b) == PcOf(w, b) { F.OthersStay(c, w, step, b); }
    if a :| F.Moves(step, a) {
      OneMoves(step, a);
      StepMoves(c, w, step, a);
      DoorsMove(w, a, w');
    } else {
      NobodyMoves(c, w, step);
      DoorsSame(w, w');
    }
  }

  lemma OneMoves(step: Step, a: Actor)
    requires F.Moves(step, a)
    ensures forall b :: b != a ==> !F.Moves(step, b)
  {
  }

  lemma DoorsSame(w: World, w': World)
    requires DoorsOk(w) && w'.mutex == w.mutex && forall b :: PcOf(w', b) == PcOf(w, b)
    ensures DoorsOk(w')
  {
    hide PcOf, Inside;
  }

  lemma {:induction false} DoorsRun(c: Config, w: World, steps: seq<Step>)
    requires DoorsOk(w) && Run(c, w, steps)
    ensures DoorsOk(After(c, w, steps))
    decreases |steps|
  {
    hide DoorsOk, Enabled, Next;
    if steps != [] {
      DoorsStep(c, w, steps[0]);
      DoorsRun(c, Next(c, w, steps[0]), steps[1..]);
    }
  }

  /**
   In every run two coroutines of one manager are never both past its lock, and the lock is free whenever none of
   them is, so that whoever waits for it can enter.
   */
  lemma OneInside(c: Config, w0: World, steps: seq<Step>, a: Actor, b: Actor)
    requires w0.pcs == map[] && w0.mutex == map[] && Run(c, w0, steps)
    requires a.process == b.process && a.manager == b.manager
    ensures
      var w := After(c, w0, steps);
      && (Inside(PcOf(w, a)) && Inside(PcOf(w, b)) ==> a == b)
      && (PcOf(w, a).AtMutex? ==>
           (Enabled(c, w, Enter(a)) <==> forall d: Actor :: d.process == a.process && d.manager == a.manager ==> !Inside(PcOf(w, d))))
  {
    assert DoorsOk(w0);
    DoorsRun(c, w0, steps);
    var w := After(c, w0, steps);
    if Door(a) in w.mutex {
      var d := w.mutex[Door(a)];
      assert d.process == a.process && d.manager == a.manager;
    }
  }

  // ----- the file lock -----

  /** Attempt after attempt while somebody else holds the file lock. */
  function Attempts(w: World, a: Actor, n: nat): World {
    if n == 0 then w
    else
      var w1 := Attempts(w, a, n - 1);
      if PcOf(w1, a).WantLock? then TryLockStep(w1, a) else w1
  }

  /** Five attempts leave the coroutine waiting; after the sixth it goes on without the lock. */
  lemma {:induction false} SixAttempts(w: World, a: Actor, n: nat)
    requires PcOf(w, a).WantLock? && PcOf(w, a).tries == 0 && w.lock.Some? && n <= 6
    ensures
      var pc := PcOf(w, a);
      && Attempts(w, a, n).lock == w.lock
      && PcOf(Attempts(w, a, n), a) == if n < 6 then pc.(tries := n) else Ready(pc.value, false)
  {
    if n > 0 { SixAttempts(w, a, n - 1); }
  }
}
