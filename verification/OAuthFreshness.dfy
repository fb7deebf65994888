/** When a refresh that is not forced asks the server: only about a token that was about to expire when it was read. */
module OAuthFreshness {
  import opened Basics
  import opened OAuthRefresh

  // ----- the two decisions -----

  /** What _refresh_tokens reads inside the in-process lock. */
  function Current(w: World, a: Actor): Token
    requires PcOf(w, a).InMutex?
  {
    if w.disk.Some? then w.disk.value else PcOf(w, a).token
  }

  /** Whether process p was told that the token is bad less than the cooldown ago, as far as its table says. */
  predicate InCooldown(w: World, p: int, value: Option<RefreshToken>) {
    p in w.tombs && value == Some(w.tombs[p].value) && w.now < w.tombs[p].retryAfter
  }

  /** At first: on exactly with a token in the file that is not cooling down, and then with a refresh token. */
  lemma BeginsIff(w: World, a: Actor, force: bool)
    requires PcOf(w, a).Idle?
    ensures
      var pc1 := PcOf(BeginStep(w, a, force), a);
      if w.disk.Some? && !InCooldown(w, a.process, w.disk.value.refresh) then pc1 == Loaded(w.disk.value, force) else pc1 == Idle
  {
  }

  lemma ReloadsIff(w: World, a: Actor)
    requires PcOf(w, a).Loaded?
    ensures
      var t := if w.disk.Some? then w.disk.value else PcOf(w, a).token;
      PcOf(ReloadStep(w, a), a) == if t.refresh.Some? then AtMutex(t, PcOf(w, a).force) else Idle
  {
  }

  /** A token that the server takes is replaced in the file by the one it issues, and nothing is held against that. */
  lemma RefreshSaves(c: Config, w: World, a: Actor, expiresIn: real)
    requires PcOf(w, a).Ready? && PcOf(w, a).value in w.valid
    ensures
      var w' := Next(c, Next(c, w, Send(a, expiresIn)), Save(a));
      && w'.disk == Some(Token(Some(w.next), w.now + expiresIn, expiresIn))
      && a.process !in w'.tombs && PcOf(w', a).Idle? && w'.lock != Some(a)
  {
  }

  /** Without the lock: on to it exactly with a refresh token that is due, or forced, and not cooling down; otherwise out. */
  lemma DecidesIff(w: World, a: Actor)
    requires PcOf(w, a).InMutex?
    ensures
      var t, pc, pc' := Current(w, a), PcOf(w, a), PcOf(DecideStep(w, a), a);
      && (pc'.Idle? || pc'.WantLock?)
      && (pc'.WantLock? <==>
           && t.refresh.Some?
           && (pc.force || t.expiresAt == 0.0 || t.expiresAt - w.now < 300.0 || 2.0 * (t.expiresAt - w.now) < t.expiresIn)
           && !InCooldown(w, a.process, t.refresh))
      && (pc'.WantLock? ==> pc'.value == t.refresh.value && pc'.force == pc.force)
  {
    hide StillFresh;
    FreshIsLongLived(Current(w, a), w.now);
  }

  /** Under the lock: on to the server exactly if the file is gone, or holds the same token, and that is due, or forced. */
  lemma ChecksIff(w: World, a: Actor)
    requires PcOf(w, a).Locked?
    ensures
      var pc, pc' := PcOf(w, a), PcOf(CheckStep(w, a), a);
      && (pc'.Idle? || pc'.Ready?)
      && (pc'.Ready? <==> w.disk.Some? ==>
           var t := w.disk.value;
           && t.refresh == Some(pc.value)
           && (pc.force || t.expiresAt == 0.0 || t.expiresAt - w.now < 300.0 || 2.0 * (t.expiresAt - w.now) < t.expiresIn))
      && (pc'.Ready? ==> pc'.value == pc.value && pc'.locked)
  {
    hide StillFreshLocked;
    if w.disk.Some? { FreshIsLongLived(w.disk.value, w.now); }
  }

  // ----- whole runs -----

  ghost predicate Upto(c: Config, w0: World, steps: seq<Step>, i: int) {
    0 <= i < |steps| && Run(c, w0, steps[..i])
  }

  /** Step i is the last one by which coroutine a started a refresh. */
  ghost predicate BegunAt(steps: seq<Step>, i: int, a: Actor, force: bool) {
    0 <= i < |steps| && steps[i] == Begin(a, force) && forall j :: i < j < |steps| ==> !(steps[j].Begin? && steps[j].a == a)
  }

  /** At step i, in the refresh begun at step b, the token was read: it is due, or the refresh forced. */
  ghost predicate DecidedAt(c: Config, w0: World, steps: seq<Step>, b: int, i: int, a: Actor, value: RefreshToken, force: bool) {
    && b < i && Upto(c, w0, steps, i) && steps[i] == Decide(a)
    && var w := After(c, w0, steps[..i]);
       && PcOf(w, a).InMutex?
       && Current(w, a).refresh == Some(value)
       && (force || !LongLived(Current(w, a), w.now))
  }

  /** At step k, after step i, the file was read again under the lock: it is gone, or still holds that token and that is due. */
  ghost predicate CheckedAt(c: Config, w0: World, steps: seq<Step>, i: int, k: int, a: Actor, value: RefreshToken, force: bool) {
    && i < k && Upto(c, w0, steps, k) && steps[k] == Check(a)
    && var w := After(c, w0, steps[..k]);
       && w.lock == Some(a)
       && (w.disk.Some? ==> w.disk.value.refresh == Some(value) && (force || !LongLived(w.disk.value, w.now)))
  }

  /** What coroutine a does goes back to a decision of the refresh it is in. */
  ghost predicate Due(c: Config, w0: World, steps: seq<Step>, a: Actor, value: RefreshToken, force: bool, locked: bool) {
    exists b, i ::
      && BegunAt(steps, b, a, force) && DecidedAt(c, w0, steps, b, i, a, value, force)
      && (locked ==> exists k :: CheckedAt(c, w0, steps, i, k, a, value, force))
  }

  ghost predicate Reason(c: Config, w0: World, steps: seq<Step>, a: Actor, pc: Pc) {
    match pc
    case Loaded(_, force) => exists b :: BegunAt(steps, b, a, force)
    case AtMutex(_, force) => exists b :: BegunAt(steps, b, a, force)
    case InMutex(_, force) => exists b :: BegunAt(steps, b, a, force)
    case WantLock(value, force, _) => Due(c, w0, steps, a, value, force, false)
    case Locked(value, force) => Due(c, w0, steps, a, value, force, false)
    case Ready(value, locked) => exists force :: Due(c, w0, steps, a, value, force, locked)
    case _ => true
  }

  predicate Moves(step: Step, a: Actor) {
    match step
    case Login(_) => false
    case Logout => false
    case Tick(_) => false
    case _ => step.a == a
  }

  lemma OthersStay(c: Config, w: World, step: Step, a: Actor)
    requires Enabled(c, w, step) && !Moves(step, a)
    ensures PcOf(Next(c, w, step), a) == PcOf(w, a)
  {
    hide StillFresh, StillFreshLocked, Suppressed, MayRetry, Tombs;
  }

  lemma BegunStays(most: seq<Step>, last: Step, i: int, a: Actor, force: bool)
    requires BegunAt(most, i, a, force) && !(last.Begin? && last.a == a)
    ensures BegunAt(most + [last], i, a, force)
  {
  }

  lemma DecidedStays(c: Config, w0: World, most: seq<Step>, last: Step, b: int, i: int, a: Actor, value: RefreshToken, force: bool)
    requires DecidedAt(c, w0, most, b, i, a, value, force)
    ensures DecidedAt(c, w0, most + [last], b, i, a, value, force)
  {
    assert (most + [last])[..i] == most[..i];
  }

  lemma CheckedStays(c: Config, w0: World, most: seq<Step>, last: Step, i: int, k: int, a: Actor, value: RefreshToken, force: bool)
    requires CheckedAt(c, w0, most, i, k, a, value, force)
    ensures CheckedAt(c, w0, most + [last], i, k, a, value, force)
  {
    assert (most + [last])[..k] == most[..k];
  }

  lemma DueStays(c: Config, w0: World, most: seq<Step>, last: Step, a: Actor, value: RefreshToken, force: bool, locked: bool)
    requires Due(c, w0, most, a, value, force, locked) && !(last.Begin? && last.a == a)
    ensures Due(c, w0, most + [last], a, value, force, locked)
  {
    hide BegunAt, DecidedAt, CheckedAt;
    var b, i :|
      && BegunAt(most, b, a, force) && DecidedAt(c, w0, most, b, i, a, value, force)
      && (locked ==> exists k :: CheckedAt(c, w0, most, i, k, a, value, force));
    BegunStays(most, last, b, a, force);
    DecidedStays(c, w0, most, last, b, i, a, value, force);
    if locked {
      var k :| CheckedAt(c, w0, most, i, k, a, value, force);
      CheckedStays(c, w0, most, last, i, k, a, value, force);
    }
  }

  lemma ReasonStays(c: Config, w0: World, most: seq<Step>, last: Step, a: Actor, pc: Pc)
    requires Reason(c, w0, most, a, pc) && !(last.Begin? && last.a == a)
    ensures Reason(c, w0, most + [last], a, pc)
  {
    hide BegunAt, Due;
    match pc
    case WantLock(value, force, _) => DueStays(c, w0, most, last, a, value, force, false);
    case Locked(value, force) => DueStays(c, w0, most, last, a, value, force, false);
    case Ready(value, locked) =>
      var force :| Due(c, w0, most, a, value, force, locked);
      DueStays(c, w0, most, last, a, value, force, locked);
    case Loaded(_, force) => var b :| BegunAt(most, b, a, force); BegunStays(most, last, b, a, force);
    case AtMutex(_, force) => var b :| BegunAt(most, b, a, force); BegunStays(most, last, b, a, force);
    case InMutex(_, force) => var b :| BegunAt(most, b, a, force); BegunStays(most, last, b, a, force);
    case _ =>
  }

  /** The step that decides gives the reason for what follows. */
  lemma DecideGives(c: Config, w0: World, most: seq<Step>, a: Actor)
    requires Run(c, w0, most) && PcOf(After(c, w0, most), a).InMutex?
    requires Reason(c, w0, most, a, PcOf(After(c, w0, most), a))
    ensures Reason(c, w0, most + [Decide(a)], a, PcOf(DecideStep(After(c, w0, most), a), a))
  {
    hide Run, After, LongLived, InCooldown, DecideStep;
    var w := After(c, w0, most);
    var steps, force := most + [Decide(a)], PcOf(w, a).force;
    DecidesIff(w, a);
    var pc' := PcOf(DecideStep(w, a), a);
    var b :| BegunAt(most, b, a, force);
    BegunStays(most, Decide(a), b, a, force);
    assert steps[..|most|] == most;
    if pc'.WantLock? {
      assert DecidedAt(c, w0, steps, b, |most|, a, pc'.value, force) by { DueUnlessLong(w, a); }
    }
  }

  lemma DueUnlessLong(w: World, a: Actor)
    requires PcOf(w, a).InMutex? && PcOf(DecideStep(w, a), a).WantLock?
    ensures PcOf(w, a).force || !LongLived(Current(w, a), w.now)
  {
    hide DecideStep;
    DecidesIff(w, a);
  }

  lemma CheckGives(c: Config, w0: World, most: seq<Step>, a: Actor)
    requires Run(c, w0, most) && PcOf(After(c, w0, most), a).Locked? && After(c, w0, most).lock == Some(a)
    requires Reason(c, w0, most, a, PcOf(After(c, w0, most), a))
    ensures Reason(c, w0, most + [Check(a)], a, PcOf(CheckStep(After(c, w0, most), a), a))
  {
    hide Run, After, CheckStep, BegunAt, DecidedAt;
    var w := After(c, w0, most);
    var steps, pc, pc' := most + [Check(a)], PcOf(w, a), PcOf(CheckStep(w, a), a);
    ChecksIff(w, a);
    assert steps[..|most|] == most;
    if pc'.Ready? {
      var b, i :| BegunAt(most, b, a, pc.force) && DecidedAt(c, w0, most, b, i, a, pc.value, pc.force);
      DecidedBefore(c, w0, most, b, i, a, pc.value, pc.force);
      BegunStays(most, Check(a), b, a, pc.force);
      DecidedStays(c, w0, most, Check(a), b, i, a, pc.value, pc.force);
      assert CheckedAt(c, w0, steps, i, |most|, a, pc.value, pc.force);
      assert Due(c, w0, steps, a, pc.value, pc.force, true);
    }
  }

  lemma DecidedBefore(c: Config, w0: World, steps: seq<Step>, b: int, i: int, a: Actor, value: RefreshToken, force: bool)
    requires DecidedAt(c, w0, steps, b, i, a, value, force)
    ensures b < i < |steps|
  {
  }

  lemma BeginGives(c: Config, w0: World, most: seq<Step>, w: World, a: Actor, force: bool)
    requires PcOf(w, a).Idle?
    ensures Reason(c, w0, most + [Begin(a, force)], a, PcOf(BeginStep(w, a, force), a))
  {
    assert BegunAt(most + [Begin(a, force)], |most|, a, force);
  }

  /** Giving up on the lock leaves the reason as it is. */
  lemma UnlockedGives(c: Config, w0: World, steps: seq<Step>, a: Actor, pc: Pc)
    requires pc.WantLock? && Reason(c, w0, steps, a, pc)
    ensures Reason(c, w0, steps, a, Ready(pc.value, false)) && Reason(c, w0, steps, a, Locked(pc.value, pc.force))
    ensures Reason(c, w0, steps, a, pc.(tries := pc.tries + 1))
  {
    hide Due;
    assert Due(c, w0, steps, a, pc.value, pc.force, false);
  }

  /** How the other steps of a move it. */
  lemma OwnMoves(c: Config, w: World, step: Step, a: Actor)
    requires Enabled(c, w, step) && Moves(step, a) && !step.Begin? && !step.Decide? && !step.Check?
    ensures
      var pc, pc' := PcOf(w, a), PcOf(Next(c, w, step), a);
      || pc' == pc || pc'.Idle? || pc'.Replied? || pc'.Denied?
      || (pc.Loaded? && pc'.AtMutex? && pc'.force == pc.force)
      || (pc.AtMutex? && pc'.InMutex? && pc'.force == pc.force)
      || (pc.WantLock? && (pc' == pc.(tries := pc.tries + 1) || pc' == Locked(pc.value, pc.force) || pc' == Ready(pc.value, false)))
  {
    hide StillFresh, StillFreshLocked, Suppressed, MayRetry, Tombs;
  }

  lemma StepGives(c: Config, w0: World, most: seq<Step>, last: Step, a: Actor)
    requires Run(c, w0, most) && Enabled(c, After(c, w0, most), last) && LockOk(After(c, w0, most))
    requires Reason(c, w0, most, a, PcOf(After(c, w0, most), a))
    ensures Reason(c, w0, most + [last], a, PcOf(Next(c, After(c, w0, most), last), a))
  {
    hide Run, After, Next, DecideStep, CheckStep, BegunAt, Due;
    var w := After(c, w0, most);
    var pc := PcOf(w, a);
    if !Moves(last, a) {
      OthersStay(c, w, last, a);
      ReasonStays(c, w0, most, last, a, pc);
    } else if last.Begin? {
      NextIs(c, w, last);
      BeginGives(c, w0, most, w, a, last.force);
    } else if last.Decide? {
      NextIs(c, w, last);
      DecideGives(c, w0, most, a);
    } else if last.Check? {
      NextIs(c, w, last);
      LockHeld(w, a);
      CheckGives(c, w0, most, a);
    } else {
      OwnMoves(c, w, last, a);
      ReasonStays(c, w0, most, last, a, pc);
      if pc.WantLock? { UnlockedGives(c, w0, most + [last], a, pc); }
    }
  }

  lemma NextIs(c: Config, w: World, step: Step)
    requires Enabled(c, w, step)
    ensures step.Begin? ==> Next(c, w, step) == BeginStep(w, step.a, step.force)
    ensures step.Decide? ==> Next(c, w, step) == DecideStep(w, step.a)
    ensures step.Check? ==> Next(c, w, step) == CheckStep(w, step.a)
  {
    hide BeginStep, DecideStep, CheckStep;
  }

  lemma LockHeld(w: World, a: Actor)
    requires LockOk(w) && PcOf(w, a).Locked?
    ensures w.lock == Some(a)
  {
  }

  lemma {:induction false} RunLast(c: Config, w: World, steps: seq<Step>)
    requires Run(c, w, steps) && steps != []
    ensures
      var most, last := steps[..|steps| - 1], steps[|steps| - 1];
      Run(c, w, most) && Enabled(c, After(c, w, most), last) && After(c, w, steps) == Next(c, After(c, w, most), last)
    decreases |steps|
  {
    hide Next, Enabled;
    if |steps| > 1 {
      RunLast(c, Next(c, w, steps[0]), steps[1..]);
      assert steps[1..][..|steps| - 2] == steps[..|steps| - 1][1..];
    }
  }

  lemma {:induction false} ReasonInRun(c: Config, w0: World, steps: seq<Step>, a: Actor)
    requires Run(c, w0, steps) && w0.pcs == map[] && w0.lock.None?
    ensures Reason(c, w0, steps, a, PcOf(After(c, w0, steps), a))
    decreases |steps|
  {
    hide Next, Enabled, BegunAt, Due;
    if steps != [] {
      var most, last := steps[..|steps| - 1], steps[|steps| - 1];
      RunLast(c, w0, steps);
      ReasonInRun(c, w0, most, a);
      LockRun(c, w0, most);
      assert most + [last] == steps;
      StepGives(c, w0, most, last, a);
    }
  }

  /**
   In every run, with any failures, a token that reaches the server was read by the refresh that sends it, was about to
   expire when it was read last, or the refresh is a forced one; with the lock, it was read again under the lock.
   */
  lemma UnforcedSendsAreDue(c: Config, w0: World, steps: seq<Step>, a: Actor, expiresIn: real)
    requires w0.pcs == map[] && w0.lock.None? && Run(c, w0, steps) && Enabled(c, After(c, w0, steps), Send(a, expiresIn))
    ensures
      var pc := PcOf(After(c, w0, steps), a);
      pc.Ready? && exists force :: Due(c, w0, steps, a, pc.value, force, pc.locked)
  {
    hide Due;
    ReasonInRun(c, w0, steps, a);
  }
}
