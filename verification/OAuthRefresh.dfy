/**
 Token refresh by any number of coroutines in any number of processes that share one token
 file, one file lock and a server that rotates refresh tokens (RFC 6749, section 6).
 A step is one file operation, one request to the server or one lock operation.
 */
module OAuthRefresh {
  import opened Basics

  const MIN_REFRESH_THRESHOLD_SECONDS: real := 300.0
  const UNAUTHORIZED_REFRESH_RETRY_COOLDOWN_SECONDS: real := 300.0
  const CROSS_PROCESS_LOCK_RETRIES := 5

  /** The server issues refresh tokens 0, 1, 2, ...; the empty refresh token is None. */
  type RefreshToken = int

  datatype Token = Token(refresh: Option<RefreshToken>, expiresAt: real, expiresIn: real)

  /** A coroutine that uses one of the managers of a process. */
  datatype Actor = Actor(process: int, manager: int, task: int)

  /** The in-process lock belongs to a manager; the table of rejected tokens to the process. */
  function Door(a: Actor): (int, int) { (a.process, a.manager) }

  /** Where a coroutine is in ensure_fresh and _refresh_tokens, with the values it still needs. */
  datatype Pc =
    | Idle
    | Loaded(token: Token, force: bool)
    | AtMutex(token: Token, force: bool)
    | InMutex(token: Token, force: bool)
    | WantLock(value: RefreshToken, force: bool, tries: nat)
    | Locked(value: RefreshToken, force: bool)
    | Ready(value: RefreshToken, locked: bool)
    | Replied(token: Token, locked: bool)
    | Denied(value: RefreshToken, locked: bool)

  datatype Tombstone = Tombstone(value: RefreshToken, retryAfter: real)

  /**
   reused counts the rotated tokens that the server received. denials holds when a process last
   gave up on a token; hasty counts the sends of such a token by that process during the cooldown.
   */
  datatype World = World(
    pcs: map<Actor, Pc>, mutex: map<(int, int), Actor>, lock: Option<Actor>, disk: Option<Token>,
    tombs: map<int, Tombstone>, now: real,
    valid: set<RefreshToken>, rotated: set<RefreshToken>, next: RefreshToken, reused: nat,
    denials: map<(int, RefreshToken), real>, hasty: nat)

  /**
   What can go wrong around the protocol: lockAlways says that no coroutine ever goes on without
   the file lock, reliable that every rotated token reaches the file, keepFile that nobody logs out,
   single that no process has more than one manager.
   */
  datatype Config = Config(lockAlways: bool, reliable: bool, keepFile: bool, single: bool)

  datatype Step =
    | Begin(a: Actor, force: bool)
    | Reload(a: Actor)
    | Enter(a: Actor)
    | Decide(a: Actor)
    | TryLock(a: Actor)
    | LockBroken(a: Actor)
    | Check(a: Actor)
    | Send(a: Actor, expiresIn: real)
    | Refuse(a: Actor)
    | LoseReply(a: Actor)
    | Save(a: Actor)
    | Drop(a: Actor)
    | Recheck(a: Actor)
    | Quit(a: Actor)
    | Login(expiresIn: real)
    | Logout
    | Tick(seconds: real)

  function Max(a: real, b: real): real { if a >= b then a else b }

  function RefreshThreshold(expiresIn: real): real {
    if expiresIn > 0.0 then Max(MIN_REFRESH_THRESHOLD_SECONDS, expiresIn * 0.5) else MIN_REFRESH_THRESHOLD_SECONDS
  }

  /** The expiry check inside the in-process lock. */
  predicate StillFresh(t: Token, now: real) {
    t.expiresAt != 0.0 && t.expiresAt > now && t.expiresAt - now >= RefreshThreshold(t.expiresIn)
  }

  /** The expiry check inside the file lock. */
  predicate StillFreshLocked(t: Token, now: real) {
    t.expiresAt != 0.0 && t.expiresAt - now >= RefreshThreshold(t.expiresIn)
  }

  /** At least five minutes and at least half of its lifetime are left. */
  predicate LongLived(t: Token, now: real) {
    t.expiresAt != 0.0 && t.expiresAt - now >= 300.0 && 2.0 * (t.expiresAt - now) >= t.expiresIn
  }

  /** Both checks ask for this. */
  lemma FreshIsLongLived(t: Token, now: real)
    ensures StillFresh(t, now) <==> LongLived(t, now)
    ensures StillFreshLocked(t, now) <==> LongLived(t, now)
  {
  }

  // ----- tombstones of rejected tokens -----

  /** _rejected_refresh_state also forgets the tombstone of another token. */
  function Tombs(tombs: map<int, Tombstone>, key: int, value: Option<RefreshToken>): map<int, Tombstone> {
    if value.Some? && key in tombs && tombs[key].value != value.value then tombs - {key} else tombs
  }

  predicate Suppressed(tombs: map<int, Tombstone>, key: int, value: Option<RefreshToken>) {
    value.Some? && key in tombs && tombs[key].value == value.value
  }

  predicate MayRetry(tombs: map<int, Tombstone>, now: real, key: int, value: Option<RefreshToken>) {
    !Suppressed(tombs, key, value) || now >= tombs[key].retryAfter
  }

  predicate Cooling(w: World, process: int, value: RefreshToken) {
    (process, value) in w.denials && w.now < w.denials[(process, value)] + UNAUTHORIZED_REFRESH_RETRY_COOLDOWN_SECONDS
  }

  // ----- steps -----

  function PcOf(w: World, a: Actor): Pc { if a in w.pcs then w.pcs[a] else Idle }

  function At(w: World, a: Actor, pc: Pc): World { w.(pcs := w.pcs[a := pc]) }

  /** Leaves _refresh_tokens; the finally block and the context manager free both locks. */
  function Exit(w: World, a: Actor): World {
    w.(pcs := w.pcs[a := Idle],
       mutex := if Door(a) in w.mutex && w.mutex[Door(a)] == a then w.mutex - {Door(a)} else w.mutex,
       lock := if w.lock == Some(a) then None else w.lock)
  }

  predicate Enabled(c: Config, w: World, step: Step) {
    match step
    case Begin(a, _) => PcOf(w, a).Idle? && (c.single ==> a.manager == 0)
    case Reload(a) => PcOf(w, a).Loaded?
    case Enter(a) => PcOf(w, a).AtMutex? && Door(a) !in w.mutex
    case Decide(a) => PcOf(w, a).InMutex?
    case TryLock(a) =>
      PcOf(w, a).WantLock? && (c.lockAlways ==> w.lock.None? || PcOf(w, a).tries < CROSS_PROCESS_LOCK_RETRIES)
    case LockBroken(a) => PcOf(w, a).WantLock? && !c.lockAlways
    case Check(a) => PcOf(w, a).Locked?
    case Send(a, _) => PcOf(w, a).Ready?
    case Refuse(a) => PcOf(w, a).Ready?
    case LoseReply(a) => PcOf(w, a).Ready? && PcOf(w, a).value in w.valid && !c.reliable
    case Save(a) => PcOf(w, a).Replied?
    case Drop(a) => PcOf(w, a).Replied? && !c.reliable
    case Recheck(a) => PcOf(w, a).Denied?
    case Quit(a) => !PcOf(w, a).Replied?
    case Login(_) => true
    case Logout => !c.keepFile
    case Tick(seconds) => seconds >= 0.0
  }

  /** The server rotates value into a fresh token. */
  function Rotate(w: World, value: RefreshToken): World {
    w.(valid := w.valid - {value} + {w.next}, rotated := w.rotated + {value}, next := w.next + 1)
  }

  function Issue(w: World, expiresIn: real): Token { Token(Some(w.next), w.now + expiresIn, expiresIn) }

  /** ensure_fresh: load, and stop early at a tombstone that is still cooling down. */
  function BeginStep(w: World, a: Actor, force: bool): World {
    if w.disk.None? then w
    else
      var refresh := w.disk.value.refresh;
      var w1 := w.(tombs := Tombs(w.tombs, a.process, refresh));
      if Suppressed(w.tombs, a.process, refresh) && !MayRetry(w.tombs, w.now, a.process, refresh) then w1
      else At(w1, a, Loaded(w.disk.value, force))
  }

  function ReloadStep(w: World, a: Actor): World
    requires PcOf(w, a).Loaded?
  {
    var current := if w.disk.Some? then w.disk.value else PcOf(w, a).token;
    var w1 := w.(tombs := if w.disk.Some? then Tombs(w.tombs, a.process, current.refresh) else w.tombs);
    if current.refresh.None? then Exit(w1, a) else At(w1, a, AtMutex(current, PcOf(w, a).force))
  }

  function DecideStep(w: World, a: Actor): World
    requires PcOf(w, a).InMutex?
  {
    var pc := PcOf(w, a);
    var current := if w.disk.Some? then w.disk.value else pc.token;
    var w1 := w.(tombs := Tombs(w.tombs, a.process, current.refresh));
    if !pc.force && StillFresh(current, w.now) then Exit(w1, a)
    else if current.refresh.None? then Exit(w1, a)
    else if Suppressed(w.tombs, a.process, current.refresh) && !MayRetry(w.tombs, w.now, a.process, current.refresh) then Exit(w1, a)
    else At(w1, a, WantLock(current.refresh.value, pc.force, 0))
  }

  /** One attempt at the file lock; after the last one the refresh goes on without it. */
  function TryLockStep(w: World, a: Actor): World
    requires PcOf(w, a).WantLock?
  {
    var pc := PcOf(w, a);
    if w.lock.None? then At(w.(lock := Some(a)), a, Locked(pc.value, pc.force))
    else if pc.tries < CROSS_PROCESS_LOCK_RETRIES then At(w, a, pc.(tries := pc.tries + 1))
    else At(w, a, Ready(pc.value, false))
  }

  /** The third look at the file, under the lock. */
  function CheckStep(w: World, a: Actor): World
    requires PcOf(w, a).Locked?
  {
    var pc := PcOf(w, a);
    if w.disk.Some? && w.disk.value.refresh != Some(pc.value) then Exit(w.(tombs := w.tombs - {a.process}), a)
    else if !pc.force && w.disk.Some? && StillFreshLocked(w.disk.value, w.now)
    then Exit(w.(tombs := w.tombs - {a.process}), a)
    else At(w, a, Ready(pc.value, true))
  }

  /** The server receives the token: a rotated one is the reuse that must never happen. */
  function SendStep(w: World, a: Actor, expiresIn: real): World
    requires PcOf(w, a).Ready?
  {
    var value := PcOf(w, a).value;
    var w1 := w.(hasty := w.hasty + if Cooling(w, a.process, value) then 1 else 0);
    if value in w.valid then At(Rotate(w1, value), a, Replied(Issue(w, expiresIn), PcOf(w, a).locked))
    else At(w1.(reused := w.reused + if value in w.rotated then 1 else 0), a, Denied(value, PcOf(w, a).locked))
  }

  function RecheckStep(w: World, a: Actor): World
    requires PcOf(w, a).Denied?
  {
    var value := PcOf(w, a).value;
    if w.disk.Some? && w.disk.value.refresh != Some(value) then Exit(w.(tombs := w.tombs - {a.process}), a)
    else
      Exit(w.(tombs := w.tombs[a.process := Tombstone(value, w.now + UNAUTHORIZED_REFRESH_RETRY_COOLDOWN_SECONDS)],
              denials := w.denials[(a.process, value) := w.now]), a)
  }

  function Next(c: Config, w: World, step: Step): World
    requires Enabled(c, w, step)
  {
    match step
    case Begin(a, force) => BeginStep(w, a, force)
    case Reload(a) => ReloadStep(w, a)
    case Enter(a) => At(w.(mutex := w.mutex[Door(a) := a]), a, InMutex(PcOf(w, a).token, PcOf(w, a).force))
    case Decide(a) => DecideStep(w, a)
    case TryLock(a) => TryLockStep(w, a)
    case LockBroken(a) => At(w, a, Ready(PcOf(w, a).value, false))
    case Check(a) => CheckStep(w, a)
    case Send(a, expiresIn) => SendStep(w, a, expiresIn)
    case Refuse(a) => At(w, a, Denied(PcOf(w, a).value, PcOf(w, a).locked))
    case LoseReply(a) => Rotate(w, PcOf(w, a).value)
    case Save(a) => Exit(w.(disk := Some(PcOf(w, a).token), tombs := w.tombs - {a.process}), a)
    case Drop(a) => Exit(w, a)
    case Recheck(a) => RecheckStep(w, a)
    case Quit(a) => Exit(w, a)
    case Login(expiresIn) =>
      w.(disk := Some(Issue(w, expiresIn)), valid := w.valid + {w.next}, next := w.next + 1)
    case Logout => w.(disk := None)
    case Tick(seconds) => w.(now := w.now + seconds)
  }

  ghost predicate Run(c: Config, w: World, steps: seq<Step>)
    decreases |steps|
  {
    steps == [] || (Enabled(c, w, steps[0]) && Run(c, Next(c, w, steps[0]), steps[1..]))
  }

  ghost function After(c: Config, w: World, steps: seq<Step>): World
    requires Run(c, w, steps)
    decreases |steps|
  {
    if steps == [] then w else After(c, Next(c, w, steps[0]), steps[1..])
  }

  /** Nobody is refreshing; the file holds the token the server issued last, already expired. */
  const START: World := World(map[], map[], None, Some(Token(Some(0), 0.0, 0.0)), map[], 0.0, {0}, {}, 1, 0, map[], 0)

  // ----- safety -----

  predicate Holding(pc: Pc) {
    pc.Locked? || pc.Ready? || pc.Replied? || pc.Denied?
  }

  /** What a value that a coroutine is about to send, or that it must still save, stands for. */
  ghost predicate PcOk(w: World, a: Actor) {
    var pc := PcOf(w, a);
    && (Holding(pc) ==> w.lock == Some(a))
    && (!pc.Idle? ==> w.disk.Some?)
    && (pc.Ready? ==> pc.locked && pc.value !in w.rotated)
    && (pc.Replied? ==> pc.token.refresh.Some? && pc.token.refresh.value !in w.rotated && pc.token.refresh.value < w.next)
  }

  /** While no rotated token is on its way to the file, the file does not hold a rotated one. */
  ghost predicate DiskOk(w: World) {
    && (w.disk.Some? && w.disk.value.refresh.Some? ==> w.disk.value.refresh.value < w.next)
    && ((w.lock.Some? ==> !PcOf(w, w.lock.value).Replied?) && w.disk.Some? && w.disk.value.refresh.Some?
        ==> w.disk.value.refresh.value !in w.rotated)
  }

  ghost predicate Inv(w: World) {
    && w.reused == 0
    && (forall a :: a in w.pcs ==> PcOk(w, a))
    && (w.lock.Some? ==> Holding(PcOf(w, w.lock.value)))
    && DiskOk(w)
    && (forall t :: t in w.rotated || t in w.valid ==> t < w.next)
  }

  predicate Protected(c: Config) { c.lockAlways && c.reliable && c.keepFile }

  lemma ExitKeeps(w: World, a: Actor)
    requires Inv(w) && !PcOf(w, a).Replied?
    ensures Inv(Exit(w, a))
  {
    var w' := Exit(w, a);
    forall b | b in w'.pcs ensures PcOk(w', b) {
      assert b in w.pcs ==> PcOk(w, b);
    }
  }

  /** Moving a coroutine that holds no lock, or that keeps it, to a place that needs no more than it has. */
  lemma MoveKeeps(w: World, a: Actor, pc: Pc)
    requires Inv(w) && PcOk(At(w, a, pc), a) && !pc.Replied? && !PcOf(w, a).Replied?
    requires Holding(PcOf(w, a)) ==> Holding(pc)
    ensures Inv(At(w, a, pc))
  {
    var w' := At(w, a, pc);
    forall b | b in w'.pcs ensures PcOk(w', b) {
      assert b != a ==> PcOk(w, b);
    }
  }

  lemma SendKeeps(w: World, a: Actor, expiresIn: real)
    requires Inv(w) && PcOf(w, a).Ready?
    ensures Inv(SendStep(w, a, expiresIn))
  {
    var w' := SendStep(w, a, expiresIn);
    assert PcOk(w, a);
    forall b | b in w'.pcs ensures PcOk(w', b) {
      assert b != a ==> PcOk(w, b);
    }
  }

  lemma SaveKeeps(w: World, a: Actor)
    requires Inv(w) && PcOf(w, a).Replied?
    ensures Inv(Exit(w.(disk := Some(PcOf(w, a).token), tombs := w.tombs - {a.process}), a))
  {
    var w' := Exit(w.(disk := Some(PcOf(w, a).token), tombs := w.tombs - {a.process}), a);
    assert PcOk(w, a);
    forall b | b in w'.pcs ensures PcOk(w', b) {
      assert b != a ==> PcOk(w, b);
    }
  }

  /** Tombstones, in-process locks and the clock take no part in the argument. */
  lemma LocalKeeps(w: World, w': World)
    requires Inv(w)
    requires w' == w.(tombs := w'.tombs, mutex := w'.mutex, now := w'.now, denials := w'.denials)
    ensures Inv(w')
  {
    forall b | b in w'.pcs ensures PcOk(w', b) {
      assert PcOk(w, b);
    }
  }

  lemma LockKeeps(w: World, a: Actor)
    requires Inv(w) && PcOf(w, a).WantLock? && w.lock.None?
    ensures Inv(TryLockStep(w, a))
  {
    var w' := TryLockStep(w, a);
    forall b | b in w'.pcs ensures PcOk(w', b) {
      assert b != a ==> PcOk(w, b);
    }
  }

  lemma LoginKeeps(w: World, expiresIn: real)
    requires Inv(w)
    ensures Inv(w.(disk := Some(Issue(w, expiresIn)), valid := w.valid + {w.next}, next := w.next + 1))
  {
    var w' := w.(disk := Some(Issue(w, expiresIn)), valid := w.valid + {w.next}, next := w.next + 1);
    forall b | b in w'.pcs ensures PcOk(w', b) {
      assert PcOk(w, b);
    }
  }

  lemma ReadKeeps(w: World, a: Actor, force: bool)
    requires Inv(w)
    ensures PcOf(w, a).Idle? ==> Inv(BeginStep(w, a, force))
    ensures PcOf(w, a).Loaded? ==> Inv(ReloadStep(w, a))
  {
    if w.disk.Some? {
      var refresh := w.disk.value.refresh;
      var w1 := w.(tombs := Tombs(w.tombs, a.process, refresh));
      LocalKeeps(w, w1);
      if PcOf(w, a).Idle? { MoveKeeps(w1, a, Loaded(w.disk.value, force)); }
      if PcOf(w, a).Loaded? {
        ExitKeeps(w1, a);
        MoveKeeps(w1, a, AtMutex(w.disk.value, PcOf(w, a).force));
      }
    }
  }

  lemma DecideKeeps(w: World, a: Actor)
    requires Inv(w) && PcOf(w, a).InMutex?
    ensures Inv(DecideStep(w, a))
  {
    assert PcOk(w, a);
    var current := w.disk.value;
    var w1 := w.(tombs := Tombs(w.tombs, a.process, current.refresh));
    LocalKeeps(w, w1);
    ExitKeeps(w1, a);
    if current.refresh.Some? { MoveKeeps(w1, a, WantLock(current.refresh.value, PcOf(w, a).force, 0)); }
  }

  lemma CheckKeeps(w: World, a: Actor)
    requires Inv(w) && PcOf(w, a).Locked?
    ensures Inv(CheckStep(w, a))
  {
    assert PcOk(w, a);
    LocalKeeps(w, w.(tombs := w.tombs - {a.process}));
    ExitKeeps(w.(tombs := w.tombs - {a.process}), a);
    if w.disk.value.refresh == Some(PcOf(w, a).value) { MoveKeeps(w, a, Ready(PcOf(w, a).value, true)); }
  }

  lemma RecheckKeeps(w: World, a: Actor)
    requires Inv(w) && PcOf(w, a).Denied?
    ensures Inv(RecheckStep(w, a))
  {
    var w1 := w.(tombs := RecheckStep(w, a).tombs, denials := RecheckStep(w, a).denials);
    LocalKeeps(w, w1);
    ExitKeeps(w1, a);
  }

  lemma StepKeeps(c: Config, w: World, step: Step)
    requires Protected(c) && Inv(w) && Enabled(c, w, step)
    ensures Inv(Next(c, w, step))
  {
    match step
    case Begin(a, force) => ReadKeeps(w, a, force);
    case Reload(a) => assert PcOk(w, a); ReadKeeps(w, a, false);
    case Enter(a) =>
      assert PcOk(w, a);
      var w1 := w.(mutex := w.mutex[Door(a) := a]);
      LocalKeeps(w, w1);
      MoveKeeps(w1, a, InMutex(PcOf(w, a).token, PcOf(w, a).force));
    case Decide(a) => DecideKeeps(w, a);
    case TryLock(a) =>
      assert PcOk(w, a);
      if w.lock.None? { LockKeeps(w, a); } else { MoveKeeps(w, a, PcOf(w, a).(tries := PcOf(w, a).tries + 1)); }
    case Check(a) => CheckKeeps(w, a);
    case Send(a, expiresIn) => SendKeeps(w, a, expiresIn);
    case Refuse(a) => assert PcOk(w, a); MoveKeeps(w, a, Denied(PcOf(w, a).value, PcOf(w, a).locked));
    case Save(a) => SaveKeeps(w, a);
    case Recheck(a) => RecheckKeeps(w, a);
    case Quit(a) => ExitKeeps(w, a);
    case Login(expiresIn) => LoginKeeps(w, expiresIn);
    case Tick(seconds) => LocalKeeps(w, w.(now := w.now + seconds));
    case _ =>
  }

  lemma {:induction false} RunKeeps(c: Config, w: World, steps: seq<Step>)
    requires Protected(c) && Inv(w) && Run(c, w, steps)
    ensures Inv(After(c, w, steps))
    decreases |steps|
  {
    if steps == [] {
    } else {
      StepKeeps(c, w, steps[0]);
      RunKeeps(c, Next(c, w, steps[0]), steps[1..]);
    }
  }

  // ----- the lock and the server, whatever goes wrong -----

  /** Between getting the file lock and leaving; a coroutine that gave up on the lock never is. */
  predicate GotLock(pc: Pc) {
    pc.Locked? || ((pc.Ready? || pc.Replied? || pc.Denied?) && pc.locked)
  }

  ghost predicate LockOk(w: World) {
    && (forall a :: a in w.pcs && GotLock(w.pcs[a]) ==> w.lock == Some(a))
    && (w.lock.Some? ==> GotLock(PcOf(w, w.lock.value)))
  }

  /** Every token issued so far is valid or rotated, and no other token is around. */
  ghost predicate ServerOk(w: World) {
    && 0 < w.next
    && (forall t :: t in w.valid || t in w.rotated <==> 0 <= t < w.next)
    && (w.disk.Some? && w.disk.value.refresh.Some? ==> 0 <= w.disk.value.refresh.value < w.next)
    && (forall a :: a in w.pcs && w.pcs[a].Replied? && w.pcs[a].token.refresh.Some? ==>
          0 <= w.pcs[a].token.refresh.value < w.next)
  }

  /** One coroutine moves; it takes the lock that is free, frees its own, or leaves the lock alone. */
  lemma LockMove(w: World, w': World, a: Actor)
    requires LockOk(w) && w'.pcs == w.pcs[a := PcOf(w', a)]
    requires w'.lock == w.lock || (w.lock.None? && w'.lock == Some(a)) || (w.lock == Some(a) && w'.lock.None?)
    requires GotLock(PcOf(w', a)) <==> w'.lock == Some(a)
    ensures LockOk(w')
  {
    hide GotLock;
  }

  lemma LockReads(w: World, a: Actor, force: bool)
    requires LockOk(w)
    ensures PcOf(w, a).Idle? ==> LockOk(BeginStep(w, a, force))
    ensures PcOf(w, a).Loaded? ==> LockOk(ReloadStep(w, a))
    ensures PcOf(w, a).InMutex? ==> LockOk(DecideStep(w, a))
  {
    hide StillFresh, Suppressed, MayRetry, Tombs, LockOk;
    LockOfOne(w);
    match PcOf(w, a)
    case Idle => var w' := BeginStep(w, a, force); if w'.pcs == w.pcs { LockSame(w, w'); } else { LockMove(w, w', a); }
    case Loaded(_, _) => LockMove(w, ReloadStep(w, a), a);
    case InMutex(_, _) => LockMove(w, DecideStep(w, a), a);
    case _ =>
  }

  lemma LockLocks(w: World, a: Actor)
    requires LockOk(w)
    ensures PcOf(w, a).WantLock? ==> LockOk(TryLockStep(w, a))
    ensures PcOf(w, a).Locked? ==> LockOk(CheckStep(w, a))
  {
    hide StillFreshLocked, LockOk;
    LockOfOne(w);
    match PcOf(w, a)
    case WantLock(_, _, _) => LockMove(w, TryLockStep(w, a), a);
    case Locked(_, _) => LockMove(w, CheckStep(w, a), a);
    case _ =>
  }

  lemma LockSends(w: World, a: Actor, expiresIn: real)
    requires LockOk(w)
    ensures PcOf(w, a).Ready? ==> LockOk(SendStep(w, a, expiresIn))
    ensures PcOf(w, a).Denied? ==> LockOk(RecheckStep(w, a))
  {
    hide Cooling, LockOk;
    LockOfOne(w);
    match PcOf(w, a)
    case Ready(_, _) => LockMove(w, SendStep(w, a, expiresIn), a);
    case Denied(_, _) => LockMove(w, RecheckStep(w, a), a);
    case _ =>
  }

  lemma LockExits(w: World, w0: World, a: Actor)
    requires LockOk(w) && w0.pcs == w.pcs && w0.lock == w.lock
    ensures LockOk(Exit(w0, a))
  {
    hide LockOk;
    LockOfOne(w);
    LockMove(w, Exit(w0, a), a);
  }

  lemma LockGoesOn(w: World, w0: World, a: Actor, pc: Pc)
    requires LockOk(w) && w0.pcs == w.pcs && w0.lock == w.lock && (GotLock(pc) <==> GotLock(PcOf(w, a)))
    ensures LockOk(At(w0, a, pc))
  {
    hide LockOk, GotLock;
    LockOfOne(w);
    LockMove(w, At(w0, a, pc), a);
  }

  lemma LockStep(c: Config, w: World, step: Step)
    requires LockOk(w) && Enabled(c, w, step)
    ensures LockOk(Next(c, w, step))
  {
    hide BeginStep, ReloadStep, DecideStep, TryLockStep, CheckStep, SendStep, RecheckStep, LockOk, At, Exit, Rotate;
    match step
    case Begin(a, force) => LockReads(w, a, force);
    case Reload(a) => LockReads(w, a, false);
    case Enter(a) =>
      LockGoesOn(w, w.(mutex := w.mutex[Door(a) := a]), a, InMutex(PcOf(w, a).token, PcOf(w, a).force));
    case Decide(a) => LockReads(w, a, false);
    case TryLock(a) => LockLocks(w, a);
    case LockBroken(a) => LockGoesOn(w, w, a, Ready(PcOf(w, a).value, false));
    case Check(a) => LockLocks(w, a);
    case Send(a, expiresIn) => LockSends(w, a, expiresIn);
    case Refuse(a) => LockGoesOn(w, w, a, Denied(PcOf(w, a).value, PcOf(w, a).locked));
    case LoseReply(a) => LockRotates(w, PcOf(w, a).value);
    case Save(a) => LockExits(w, w.(disk := Some(PcOf(w, a).token), tombs := w.tombs - {a.process}), a);
    case Drop(a) => LockExits(w, w, a);
    case Recheck(a) => LockSends(w, a, 0.0);
    case Quit(a) => LockExits(w, w, a);
    case Login(expiresIn) =>
      LockSame(w, w.(disk := Some(Issue(w, expiresIn)), valid := w.valid + {w.next}, next := w.next + 1));
    case Logout => LockSame(w, w.(disk := None));
    case Tick(seconds) => LockSame(w, w.(now := w.now + seconds));
  }

  lemma LockRotates(w: World, value: RefreshToken)
    requires LockOk(w)
    ensures LockOk(Rotate(w, value))
  {
  }

  lemma LockSame(w: World, w': World)
    requires LockOk(w) && w'.pcs == w.pcs && w'.lock == w.lock
    ensures LockOk(w')
  {
  }

  lemma LockOfOne(w: World)
    requires LockOk(w)
    ensures forall a :: GotLock(PcOf(w, a)) <==> w.lock == Some(a)
  {
  }

  lemma {:induction false} LockRun(c: Config, w: World, steps: seq<Step>)
    requires LockOk(w) && Run(c, w, steps)
    ensures LockOk(After(c, w, steps))
    decreases |steps|
  {
    hide LockOk, Next, Enabled;
    if steps == [] {
    } else {
      LockStep(c, w, steps[0]);
      LockRun(c, Next(c, w, steps[0]), steps[1..]);
    }
  }

  /**
   Two coroutines that got the file lock are never both between getting it and leaving, even where
   others go on without it, replies are lost and users log out.
   */
  lemma MutualExclusion(c: Config, steps: seq<Step>, a: Actor, b: Actor)
    requires Run(c, START, steps)
    requires GotLock(PcOf(After(c, START, steps), a)) && GotLock(PcOf(After(c, START, steps), b))
    ensures a == b && After(c, START, steps).lock == Some(a)
  {
    LockRun(c, START, steps);
  }

  lemma ServerStep(c: Config, w: World, step: Step)
    requires ServerOk(w) && Enabled(c, w, step)
    ensures ServerOk(Next(c, w, step))
  {
    hide BeginStep, ReloadStep, DecideStep, TryLockStep, CheckStep, SendStep, RecheckStep, ServerOk, At, Exit, Rotate;
    match step
    case Begin(a, force) => ServerReads(w, a, force);
    case Reload(a) => ServerReads(w, a, false);
    case Enter(a) =>
      ServerGoesOn(w, w.(mutex := w.mutex[Door(a) := a]), a, InMutex(PcOf(w, a).token, PcOf(w, a).force));
    case Decide(a) => ServerReads(w, a, false);
    case TryLock(a) => ServerWaits(w, a);
    case LockBroken(a) => ServerGoesOn(w, w, a, Ready(PcOf(w, a).value, false));
    case Check(a) => ServerWaits(w, a);
    case Send(a, expiresIn) => ServerSends(w, a, expiresIn);
    case Refuse(a) => ServerGoesOn(w, w, a, Denied(PcOf(w, a).value, PcOf(w, a).locked));
    case LoseReply(a) => ServerRotates(w, PcOf(w, a).value);
    case Save(a) => ServerSaves(w, a);
    case Drop(a) => ServerExits(w, a);
    case Recheck(a) => ServerWaits(w, a);
    case Quit(a) => ServerExits(w, a);
    case Login(expiresIn) => ServerIssues(w, expiresIn);
    case Logout => ServerForgets(w);
    case Tick(seconds) => ServerRests(w, w.(now := w.now + seconds), Actor(0, 0, 0));
  }

  lemma ServerReads(w: World, a: Actor, force: bool)
    requires ServerOk(w)
    ensures PcOf(w, a).Idle? ==> ServerOk(BeginStep(w, a, force))
    ensures PcOf(w, a).Loaded? ==> ServerOk(ReloadStep(w, a))
    ensures PcOf(w, a).InMutex? ==> ServerOk(DecideStep(w, a))
  {
    hide StillFresh, Suppressed, MayRetry, Tombs, ServerOk;
    match PcOf(w, a)
    case Idle => ServerRests(w, BeginStep(w, a, force), a);
    case Loaded(_, _) => ServerRests(w, ReloadStep(w, a), a);
    case InMutex(_, _) => ServerRests(w, DecideStep(w, a), a);
    case _ =>
  }

  lemma ServerWaits(w: World, a: Actor)
    requires ServerOk(w)
    ensures PcOf(w, a).WantLock? ==> ServerOk(TryLockStep(w, a))
    ensures PcOf(w, a).Locked? ==> ServerOk(CheckStep(w, a))
    ensures PcOf(w, a).Denied? ==> ServerOk(RecheckStep(w, a))
  {
    hide StillFreshLocked, ServerOk;
    match PcOf(w, a)
    case WantLock(_, _, _) => ServerRests(w, TryLockStep(w, a), a);
    case Locked(_, _) => ServerRests(w, CheckStep(w, a), a);
    case Denied(_, _) => ServerRests(w, RecheckStep(w, a), a);
    case _ =>
  }

  lemma ServerExits(w: World, a: Actor)
    requires ServerOk(w)
    ensures ServerOk(Exit(w, a))
  {
    hide ServerOk;
    ServerRests(w, Exit(w, a), a);
  }

  lemma ServerGoesOn(w: World, w0: World, a: Actor, pc: Pc)
    requires ServerOk(w) && w0 == w.(mutex := w0.mutex) && !pc.Replied?
    ensures ServerOk(At(w0, a, pc))
  {
    hide ServerOk;
    ServerRests(w, At(w0, a, pc), a);
  }

  lemma ServerRests(w: World, w': World, a: Actor)
    requires ServerOk(w) && w'.valid == w.valid && w'.rotated == w.rotated && w'.next == w.next && w'.disk == w.disk
    requires w'.pcs == w.pcs || (w'.pcs == w.pcs[a := PcOf(w', a)] && !PcOf(w', a).Replied?)
    ensures ServerOk(w')
  {
  }

  lemma ServerRotates(w: World, value: RefreshToken)
    requires ServerOk(w) && value in w.valid
    ensures ServerOk(Rotate(w, value))
  {
  }

  lemma ServerSends(w: World, a: Actor, expiresIn: real)
    requires ServerOk(w) && PcOf(w, a).Ready?
    ensures ServerOk(SendStep(w, a, expiresIn))
  {
    hide Cooling;
  }

  lemma ServerSaves(w: World, a: Actor)
    requires ServerOk(w) && PcOf(w, a).Replied?
    ensures ServerOk(Exit(w.(disk := Some(PcOf(w, a).token), tombs := w.tombs - {a.process}), a))
  {
  }

  lemma ServerIssues(w: World, expiresIn: real)
    requires ServerOk(w)
    ensures ServerOk(w.(disk := Some(Issue(w, expiresIn)), valid := w.valid + {w.next}, next := w.next + 1))
  {
  }

  lemma ServerForgets(w: World)
    requires ServerOk(w)
    ensures ServerOk(w.(disk := None))
  {
  }

  lemma {:induction false} ServerRun(c: Config, w: World, steps: seq<Step>)
    requires ServerOk(w) && Run(c, w, steps)
    ensures ServerOk(After(c, w, steps))
    decreases |steps|
  {
    hide ServerOk, Next, Enabled;
    if steps == [] {
    } else {
      ServerStep(c, w, steps[0]);
      ServerRun(c, Next(c, w, steps[0]), steps[1..]);
    }
  }

  /** While nobody has a reply in hand, the token in the file is one that the server still takes. */
  lemma FileIsValid(c: Config, steps: seq<Step>)
    requires Protected(c) && Run(c, START, steps)
    requires var w := After(c, START, steps);
             && (forall a :: a in w.pcs ==> !w.pcs[a].Replied?)
             && w.disk.Some? && w.disk.value.refresh.Some?
    ensures After(c, START, steps).disk.value.refresh.value in After(c, START, steps).valid
  {
    RunKeeps(c, START, steps);
    ServerRun(c, START, steps);
  }

  /** No interleaving makes the server see a rotated token. */
  ghost predicate NeverReuses(c: Config) {
    forall steps :: Run(c, START, steps) ==> After(c, START, steps).reused == 0
  }

  lemma {:induction false} RunMore(c: Config, w: World, steps: seq<Step>, step: Step)
    requires Run(c, w, steps) && Enabled(c, After(c, w, steps), step)
    ensures Run(c, w, steps + [step]) && After(c, w, steps + [step]) == Next(c, After(c, w, steps), step)
    decreases |steps|
  {
    assert (steps + [step])[1..] == if steps == [] then [] else steps[1..] + [step];
    if steps == [] {
    } else {
      RunMore(c, Next(c, w, steps[0]), steps[1..], step);
    }
  }

  predicate CanStart(w: World, a: Actor) {
    PcOf(w, a).Idle? && Door(a) !in w.mutex && w.disk.Some? && w.disk.value.refresh.Some? && w.tombs == map[]
  }

  /** Coroutine a has read the file twice and waits for the in-process lock. */
  lemma ReachesMutex(c: Config, steps: seq<Step>, a: Actor) returns (more: seq<Step>)
    requires c.single ==> a.manager == 0
    requires Run(c, START, steps) && CanStart(After(c, START, steps), a)
    ensures Run(c, START, more)
    ensures var w := After(c, START, steps); After(c, START, more) == At(w, a, AtMutex(w.disk.value, true))
  {
    var w := After(c, START, steps);
    RunMore(c, START, steps, Begin(a, true));
    more := steps + [Begin(a, true)];
    RunMore(c, START, more, Reload(a));
    more := more + [Reload(a)];
    assert w.pcs[a := Loaded(w.disk.value, true)][a := AtMutex(w.disk.value, true)] == w.pcs[a := AtMutex(w.disk.value, true)];
  }

  /** Coroutine a has read the file a third time and is about to ask for the file lock. */
  lemma ReachesLock(c: Config, steps: seq<Step>, a: Actor) returns (more: seq<Step>)
    requires c.single ==> a.manager == 0
    requires Run(c, START, steps) && CanStart(After(c, START, steps), a)
    ensures Run(c, START, more)
    ensures var w := After(c, START, steps);
            After(c, START, more) ==
              w.(pcs := w.pcs[a := WantLock(w.disk.value.refresh.value, true, 0)], mutex := w.mutex[Door(a) := a])
  {
    more := ReachesMutex(c, steps, a);
    RunMore(c, START, more, Enter(a));
    more := more + [Enter(a)];
    RunMore(c, START, more, Decide(a));
    more := more + [Decide(a)];
  }

  /** A coroutine that is about to send a rotated token breaks the promise. */
  lemma SendsRotated(c: Config, steps: seq<Step>, a: Actor)
    requires Run(c, START, steps)
    requires var w := After(c, START, steps);
             PcOf(w, a).Ready? && PcOf(w, a).value in w.rotated && PcOf(w, a).value !in w.valid
    ensures !NeverReuses(c)
  {
    RunMore(c, START, steps, Send(a, 0.0));
    assert After(c, START, steps + [Send(a, 0.0)]).reused > 0;
  }

  /** Without the lock, two processes send the token that both read. */
  lemma UnlockedReuses(c: Config)
    requires !c.lockAlways
    ensures !NeverReuses(c)
  {
    var a, b := Actor(1, 0, 0), Actor(2, 0, 0);
    var steps := ReachesLock(c, [], a);
    steps := ReachesLock(c, steps, b);
    RunMore(c, START, steps, LockBroken(a));
    steps := steps + [LockBroken(a)];
    RunMore(c, START, steps, LockBroken(b));
    steps := steps + [LockBroken(b)];
    RunMore(c, START, steps, Send(a, 0.0));
    steps := steps + [Send(a, 0.0)];
    SendsRotated(c, steps, b);
  }

  lemma TakesLock(c: Config, steps: seq<Step>, a: Actor) returns (more: seq<Step>)
    requires Run(c, START, steps)
    requires var w := After(c, START, steps);
             && PcOf(w, a).WantLock? && PcOf(w, a).force && w.lock.None?
             && (w.disk.Some? ==> w.disk.value.refresh == Some(PcOf(w, a).value))
    ensures Run(c, START, more)
    ensures var w := After(c, START, steps);
            After(c, START, more) == w.(pcs := w.pcs[a := Ready(PcOf(w, a).value, true)], lock := Some(a))
  {
    var w := After(c, START, steps);
    RunMore(c, START, steps, TryLock(a));
    more := steps + [TryLock(a)];
    RunMore(c, START, more, Check(a));
    more := more + [Check(a)];
    assert w.pcs[a := Locked(PcOf(w, a).value, true)][a := Ready(PcOf(w, a).value, true)] == w.pcs[a := Ready(PcOf(w, a).value, true)];
  }

  /** A reply that never arrives makes the retry inside refresh_token send the same token again. */
  lemma LostReplyReuses(c: Config)
    requires !c.reliable
    ensures !NeverReuses(c)
  {
    var a := Actor(1, 0, 0);
    var steps := ReachesLock(c, [], a);
    steps := TakesLock(c, steps, a);
    RunMore(c, START, steps, LoseReply(a));
    steps := steps + [LoseReply(a)];
    SendsRotated(c, steps, a);
  }

  /** A logout while a coroutine waits for the lock: the third look finds no file and trusts the stale value. */
  lemma LogoutReuses(c: Config)
    requires !c.keepFile
    ensures !NeverReuses(c)
  {
    var a, b := Actor(1, 0, 0), Actor(2, 0, 0);
    var steps := ReachesLock(c, [], a);
    steps := ReachesLock(c, steps, b);
    steps := TakesLock(c, steps, a);
    RunMore(c, START, steps, Send(a, 0.0));
    steps := steps + [Send(a, 0.0)];
    RunMore(c, START, steps, Save(a));
    steps := steps + [Save(a)];
    RunMore(c, START, steps, Logout);
    steps := steps + [Logout];
    steps := TakesLock(c, steps, b);
    SendsRotated(c, steps, b);
  }

  /** Refresh token rotation is safe in every interleaving exactly under the three provisos. */
  lemma RotationSafeIff(c: Config)
    ensures NeverReuses(c) <==> c.lockAlways && c.reliable && c.keepFile
  {
    if Protected(c) {
      forall steps | Run(c, START, steps) ensures After(c, START, steps).reused == 0 { RunKeeps(c, START, steps); }
    } else if !c.lockAlways {
      UnlockedReuses(c);
    } else if !c.reliable {
      LostReplyReuses(c);
    } else {
      LogoutReuses(c);
    }
  }

  // ----- the cooldown of a rejected token -----

  predicate PastMutex(pc: Pc) {
    !pc.Idle? && !pc.Loaded? && !pc.AtMutex?
  }

  function Value(pc: Pc): Option<RefreshToken> {
    match pc
    case WantLock(v, _, _) => Some(v)
    case Locked(v, _) => Some(v)
    case Ready(v, _) => Some(v)
    case Denied(v, _) => Some(v)
    case _ => None
  }

  /** Whether a coroutine is about to use token t, or to save it. */
  predicate Mentions(pc: Pc, t: RefreshToken) {
    Value(pc) == Some(t) || (pc.Replied? && pc.token.refresh == Some(t))
  }

  /** Nobody but coroutine a has seen token t: it is not in the file, and no process was denied it. */
  ghost predicate Unseen(w: World, a: Actor, t: RefreshToken)
    requires w.disk.Some?
  {
    && t < w.next
    && (forall p :: (p, t) !in w.denials)
    && w.disk.value.refresh != Some(t)
    && (forall b :: b in w.pcs && b != a ==> !Mentions(w.pcs[b], t))
  }

  ghost predicate ReplyOk(w: World, a: Actor)
    requires w.disk.Some?
  {
    var pc := PcOf(w, a);
    pc.Replied? ==> pc.token.refresh.Some? && Unseen(w, a, pc.token.refresh.value)
  }

  /** One coroutine per process is past the in-process lock; its tombstone can only be about its own value. */
  ghost predicate CoroutineOk(w: World, a: Actor) {
    var pc := PcOf(w, a);
    && (!pc.Idle? ==> a.manager == 0)
    && (PastMutex(pc) ==> Door(a) in w.mutex && w.mutex[Door(a)] == a)
    && (Value(pc).Some? && a.process in w.tombs ==> w.tombs[a.process].value == Value(pc).value)
    && (Value(pc).Some? && !pc.Denied? ==> !Cooling(w, a.process, Value(pc).value))
    && (Value(pc).Some? ==> Value(pc).value < w.next)
  }

  /** A token that is cooling down in a process has its tombstone there, or has left the file for good. */
  ghost predicate DenialOk(w: World, p: int, v: RefreshToken) {
    && v < w.next
    && (Cooling(w, p, v) && w.disk.Some? && w.disk.value.refresh == Some(v) ==>
          p in w.tombs && w.tombs[p] == Tombstone(v, w.denials[(p, v)] + UNAUTHORIZED_REFRESH_RETRY_COOLDOWN_SECONDS))
  }

  ghost predicate AllCoroutinesOk(w: World) { forall a :: a in w.pcs ==> CoroutineOk(w, a) }

  ghost predicate AllRepliesOk(w: World)
    requires w.disk.Some?
  {
    forall a :: a in w.pcs ==> ReplyOk(w, a)
  }

  ghost predicate AllDenialsOk(w: World) { forall p, v :: (p, v) in w.denials ==> DenialOk(w, p, v) }

  ghost predicate CooldownInv(w: World) {
    && w.hasty == 0
    && w.disk.Some?
    && AllCoroutinesOk(w) && AllRepliesOk(w) && AllDenialsOk(w)
    && (w.disk.value.refresh.Some? ==> w.disk.value.refresh.value < w.next)
  }

  /** One coroutine moves on with the token it had, or with the one in the file. */
  lemma CooldownMove(w: World, a: Actor, pc: Pc)
    requires CooldownInv(w) && CoroutineOk(At(w, a, pc), a) && !pc.Replied?
    requires Value(pc).Some? ==> Value(pc) == Value(PcOf(w, a)) || Value(pc) == w.disk.value.refresh
    ensures CooldownInv(At(w, a, pc))
  {
    var w' := At(w, a, pc);
    forall b | b in w'.pcs ensures CoroutineOk(w', b) { assert b != a ==> CoroutineOk(w, b); }
    forall b | b in w'.pcs ensures ReplyOk(w', b) { assert b != a ==> ReplyOk(w, b); }
    forall p, v | (p, v) in w'.denials ensures DenialOk(w', p, v) { assert DenialOk(w, p, v); }
  }

  lemma CooldownExit(w: World, a: Actor)
    requires CooldownInv(w)
    ensures CooldownInv(Exit(w, a))
  {
    var w' := Exit(w, a);
    forall b | b in w'.pcs ensures CoroutineOk(w', b) { assert b != a ==> CoroutineOk(w, b); }
    forall b | b in w'.pcs ensures ReplyOk(w', b) { assert b != a ==> ReplyOk(w, b); }
    forall p, v | (p, v) in w'.denials ensures DenialOk(w', p, v) { assert DenialOk(w, p, v); }
  }

  /** Forgetting tombstones is harmless once the token in the file is not cooling down there. */
  lemma CooldownForget(w: World, p: int, tombs: map<int, Tombstone>)
    requires CooldownInv(w) && (tombs == w.tombs || tombs == w.tombs - {p})
    requires tombs != w.tombs && w.disk.value.refresh.Some? ==>
               !Cooling(w, p, w.disk.value.refresh.value) ||
               (p in w.tombs && w.tombs[p].value != w.disk.value.refresh.value)
    ensures CooldownInv(w.(tombs := tombs))
  {
    var w' := w.(tombs := tombs);
    forall b | b in w'.pcs ensures CoroutineOk(w', b) { assert CoroutineOk(w, b); }
    forall b | b in w'.pcs ensures ReplyOk(w', b) { assert ReplyOk(w, b); }
    forall q, v | (q, v) in w'.denials ensures DenialOk(w', q, v) { assert DenialOk(w, q, v); }
  }

  lemma CooldownEnter(w: World, a: Actor)
    requires CooldownInv(w) && PcOf(w, a).AtMutex? && Door(a) !in w.mutex
    ensures CooldownInv(At(w.(mutex := w.mutex[Door(a) := a]), a, InMutex(PcOf(w, a).token, PcOf(w, a).force)))
  {
    var w' := At(w.(mutex := w.mutex[Door(a) := a]), a, InMutex(PcOf(w, a).token, PcOf(w, a).force));
    forall b | b in w'.pcs ensures CoroutineOk(w', b) { assert b != a ==> CoroutineOk(w, b); }
    forall b | b in w'.pcs ensures ReplyOk(w', b) { assert b != a ==> ReplyOk(w, b); }
    forall p, v | (p, v) in w'.denials ensures DenialOk(w', p, v) { assert DenialOk(w, p, v); }
  }

  lemma OnlyManager(w: World, a: Actor)
    requires CooldownInv(w) && !PcOf(w, a).Idle?
    ensures a.manager == 0
  {
    assert CoroutineOk(w, a);
  }

  lemma CooldownRead(w: World, a: Actor, force: bool)
    requires CooldownInv(w)
    ensures PcOf(w, a).Idle? && a.manager == 0 ==> CooldownInv(BeginStep(w, a, force))
    ensures PcOf(w, a).Loaded? ==> CooldownInv(ReloadStep(w, a))
    ensures PcOf(w, a).InMutex? ==> CooldownInv(DecideStep(w, a))
  {
    hide AllCoroutinesOk, AllRepliesOk, AllDenialsOk, StillFresh;
    var refresh := w.disk.value.refresh;
    var w1 := w.(tombs := Tombs(w.tombs, a.process, refresh));
    CooldownForget(w, a.process, w1.tombs);
    CooldownExit(w1, a);
    var pc := PcOf(w, a);
    if pc.Idle? && a.manager == 0 {
      CooldownMove(w1, a, Loaded(w.disk.value, force));
    } else if pc.Loaded? {
      OnlyManager(w, a);
      CooldownMove(w1, a, AtMutex(w.disk.value, pc.force));
    } else if pc.InMutex? && refresh.Some? && (!Suppressed(w.tombs, a.process, refresh) || MayRetry(w.tombs, w.now, a.process, refresh)) {
      CooldownDecides(w, a, refresh.value);
      CooldownMove(w1, a, WantLock(refresh.value, pc.force, 0));
    }
  }

  /** A token that may be tried is not cooling down. */
  lemma CooldownDecides(w: World, a: Actor, value: RefreshToken)
    requires CooldownInv(w) && PcOf(w, a).InMutex? && w.disk.value.refresh == Some(value)
    requires !Suppressed(w.tombs, a.process, Some(value)) || MayRetry(w.tombs, w.now, a.process, Some(value))
    ensures CoroutineOk(At(w.(tombs := Tombs(w.tombs, a.process, Some(value))), a, WantLock(value, PcOf(w, a).force, 0)), a)
  {
    assert CoroutineOk(w, a);
    assert (a.process, value) in w.denials ==> DenialOk(w, a.process, value);
  }

  lemma CooldownCheck(w: World, a: Actor)
    requires CooldownInv(w) && PcOf(w, a).Locked?
    ensures CooldownInv(CheckStep(w, a))
  {
    hide AllRepliesOk, AllDenialsOk, StillFreshLocked;
    assert CoroutineOk(w, a);
    var cleared := w.(tombs := w.tombs - {a.process});
    if w.disk.value.refresh == Some(PcOf(w, a).value) {
      CooldownMove(w, a, Ready(PcOf(w, a).value, true));
    }
    assert a.process !in w.tombs ==> cleared.tombs == w.tombs;
    CooldownForget(w, a.process, cleared.tombs);
    CooldownExit(cleared, a);
  }

  /** A token that the server issues is new to everybody. */
  lemma CooldownSend(w: World, a: Actor, expiresIn: real)
    requires CooldownInv(w) && PcOf(w, a).Ready?
    ensures CooldownInv(SendStep(w, a, expiresIn))
  {
    var w' := SendStep(w, a, expiresIn);
    assert CoroutineOk(w, a);
    forall p, v | (p, v) in w'.denials ensures DenialOk(w', p, v) && v < w.next { assert DenialOk(w, p, v); }
    forall b | b in w'.pcs ensures CoroutineOk(w', b) { assert b != a ==> CoroutineOk(w, b); }
    CooldownReplies(w, w', a);
  }

  lemma CooldownReplies(w: World, w': World, a: Actor)
    requires CooldownInv(w) && Value(PcOf(w, a)).Some?
    requires w'.pcs == w.pcs[a := PcOf(w', a)] && w'.disk == w.disk && w'.denials == w.denials && w'.next >= w.next
    requires if PcOf(w', a).Replied? then PcOf(w', a).token.refresh == Some(w.next) && w'.next == w.next + 1
             else Value(PcOf(w', a)) == Value(PcOf(w, a))
    ensures AllRepliesOk(w')
  {
    hide Cooling;
    forall b | b in w'.pcs ensures ReplyOk(w', b) {
      assert b in w.pcs ==> ReplyOk(w, b) && CoroutineOk(w, b);
      if b == a && PcOf(w', a).Replied? { NobodyMentions(w, w', a); }
    }
  }

  lemma NobodyMentions(w: World, w': World, a: Actor)
    requires CooldownInv(w) && w'.pcs == w.pcs[a := PcOf(w', a)]
    ensures forall b :: b in w'.pcs && b != a ==> !Mentions(w'.pcs[b], w.next)
    ensures forall p :: (p, w.next) !in w.denials
  {
    forall b | b in w'.pcs && b != a ensures !Mentions(w'.pcs[b], w.next) {
      assert CoroutineOk(w, b) && ReplyOk(w, b);
    }
    forall p ensures (p, w.next) !in w.denials {
      assert (p, w.next) in w.denials ==> DenialOk(w, p, w.next);
    }
  }

  /** Saving puts a token into the file that no process has been denied. */
  lemma CooldownSave(w: World, a: Actor)
    requires CooldownInv(w) && PcOf(w, a).Replied?
    ensures CooldownInv(Exit(w.(disk := Some(PcOf(w, a).token), tombs := w.tombs - {a.process}), a))
  {
    var w' := Exit(w.(disk := Some(PcOf(w, a).token), tombs := w.tombs - {a.process}), a);
    assert CoroutineOk(w, a) && ReplyOk(w, a);
    forall p, v | (p, v) in w'.denials ensures DenialOk(w', p, v) { assert DenialOk(w, p, v); }
    forall b | b in w'.pcs ensures CoroutineOk(w', b) { assert b != a ==> CoroutineOk(w, b); }
    forall b | b in w'.pcs ensures ReplyOk(w', b) { assert b != a ==> ReplyOk(w, b) && !Mentions(w.pcs[b], w'.disk.value.refresh.value); }
  }

  lemma CooldownRecheck(w: World, a: Actor)
    requires CooldownInv(w) && PcOf(w, a).Denied?
    ensures CooldownInv(RecheckStep(w, a))
  {
    var value := PcOf(w, a).value;
    assert CoroutineOk(w, a);
    if w.disk.value.refresh != Some(value) {
      var cleared := w.(tombs := w.tombs - {a.process});
      assert a.process !in w.tombs ==> cleared.tombs == w.tombs;
      CooldownForget(w, a.process, cleared.tombs);
      CooldownExit(cleared, a);
    } else {
      CooldownMarks(w, a);
    }
  }

  lemma CooldownMarks(w: World, a: Actor)
    requires CooldownInv(w) && PcOf(w, a).Denied? && w.disk.value.refresh == Some(PcOf(w, a).value)
    ensures CooldownInv(RecheckStep(w, a))
  {
    var w' := RecheckStep(w, a);
    assert CoroutineOk(w, a);
    forall p, v | (p, v) in w'.denials ensures DenialOk(w', p, v) {
      assert (p, v) in w.denials ==> DenialOk(w, p, v);
    }
    forall b | b in w'.pcs ensures CoroutineOk(w', b) {
      assert b != a ==> CoroutineOk(w, b);
    }
    forall b | b in w'.pcs ensures ReplyOk(w', b) {
      assert b != a ==> ReplyOk(w, b);
    }
  }

  /** The server issues a token outside of these coroutines, or rotates one whose reply is lost. */
  lemma CooldownIssue(w: World, w': World)
    requires CooldownInv(w) && w'.next == w.next + 1
    requires w' == w.(valid := w'.valid, rotated := w'.rotated, next := w'.next, disk := w'.disk)
    requires w'.disk == w.disk || (w'.disk.Some? && w'.disk.value.refresh == Some(w.next))
    ensures CooldownInv(w')
  {
    forall p, v | (p, v) in w'.denials ensures DenialOk(w', p, v) { assert DenialOk(w, p, v); }
    forall b | b in w'.pcs ensures CoroutineOk(w', b) { assert CoroutineOk(w, b); }
    forall b | b in w'.pcs ensures ReplyOk(w', b) { assert ReplyOk(w, b); }
  }

  lemma CooldownTick(w: World, now: real)
    requires CooldownInv(w) && w.now <= now
    ensures CooldownInv(w.(now := now))
  {
    var w' := w.(now := now);
    forall p, v | (p, v) in w'.denials ensures DenialOk(w', p, v) { assert DenialOk(w, p, v); }
    forall b | b in w'.pcs ensures CoroutineOk(w', b) { assert CoroutineOk(w, b); }
    forall b | b in w'.pcs ensures ReplyOk(w', b) { assert ReplyOk(w, b); }
  }

  lemma CooldownLock(w: World, lock: Option<Actor>)
    requires CooldownInv(w)
    ensures CooldownInv(w.(lock := lock))
  {
    var w' := w.(lock := lock);
    forall p, v | (p, v) in w'.denials ensures DenialOk(w', p, v) { assert DenialOk(w, p, v); }
    forall b | b in w'.pcs ensures CoroutineOk(w', b) { assert CoroutineOk(w, b); }
    forall b | b in w'.pcs ensures ReplyOk(w', b) { assert ReplyOk(w, b); }
  }

  lemma CooldownTryLock(w: World, a: Actor)
    requires CooldownInv(w) && PcOf(w, a).WantLock?
    ensures CooldownInv(TryLockStep(w, a)) && CooldownInv(At(w, a, Ready(PcOf(w, a).value, false)))
  {
    hide AllRepliesOk, AllDenialsOk;
    assert CoroutineOk(w, a);
    var pc := PcOf(w, a);
    CooldownLock(w, Some(a));
    CooldownMove(w.(lock := Some(a)), a, Locked(pc.value, pc.force));
    CooldownMove(w, a, pc.(tries := pc.tries + 1));
    CooldownMove(w, a, Ready(pc.value, false));
  }

  lemma CooldownStep(c: Config, w: World, step: Step)
    requires c.keepFile && c.single && CooldownInv(w) && Enabled(c, w, step)
    ensures CooldownInv(Next(c, w, step))
  {
    hide BeginStep, ReloadStep, DecideStep, TryLockStep, CheckStep, SendStep, RecheckStep, Exit, Cooling;
    hide AllRepliesOk, AllDenialsOk;
    match step
    case Begin(a, force) => CooldownRead(w, a, force);
    case Reload(a) => CooldownRead(w, a, false);
    case Enter(a) => CooldownEnter(w, a);
    case Decide(a) => CooldownRead(w, a, false);
    case TryLock(a) => CooldownTryLock(w, a);
    case LockBroken(a) => CooldownTryLock(w, a);
    case Check(a) => CooldownCheck(w, a);
    case Send(a, expiresIn) => CooldownSend(w, a, expiresIn);
    case Refuse(a) =>
      assert CoroutineOk(w, a);
      CooldownMove(w, a, Denied(PcOf(w, a).value, PcOf(w, a).locked));
    case LoseReply(a) => CooldownIssue(w, Next(c, w, step));
    case Save(a) => CooldownSave(w, a);
    case Drop(a) => CooldownExit(w, a);
    case Recheck(a) => CooldownRecheck(w, a);
    case Quit(a) => CooldownExit(w, a);
    case Login(expiresIn) => CooldownIssue(w, Next(c, w, step));
    case Logout =>
    case Tick(seconds) => CooldownTick(w, w.now + seconds);
  }

  lemma {:induction false} CooldownRun(c: Config, w: World, steps: seq<Step>)
    requires c.keepFile && c.single && CooldownInv(w) && Run(c, w, steps)
    ensures After(c, w, steps).hasty == 0
    decreases |steps|
  {
    hide Next, Enabled, AllCoroutinesOk, AllRepliesOk, AllDenialsOk;
    if steps == [] {
    } else {
      CooldownStep(c, w, steps[0]);
      CooldownRun(c, Next(c, w, steps[0]), steps[1..]);
    }
  }

  /** No process sends a token again within 300 seconds of being told that it is bad. */
  ghost predicate NeverHasty(c: Config) {
    forall steps :: Run(c, START, steps) ==> After(c, START, steps).hasty == 0
  }

  lemma StartCools()
    ensures CooldownInv(START)
  {
  }

  /** The server refuses the token of coroutine a, which gives up on it. */
  lemma GivesUp(c: Config, steps: seq<Step>, a: Actor) returns (more: seq<Step>)
    requires Run(c, START, steps)
    requires var w := After(c, START, steps);
             && PcOf(w, a).Ready? && w.disk.Some? && w.disk.value.refresh == Some(PcOf(w, a).value)
             && Door(a) in w.mutex && w.mutex[Door(a)] == a && w.lock == Some(a)
    ensures Run(c, START, more)
    ensures
      var w, w' := After(c, START, steps), After(c, START, more);
      && w'.pcs == w.pcs[a := Idle] && w'.mutex == w.mutex - {Door(a)} && w'.lock.None?
      && Cooling(w', a.process, PcOf(w, a).value) && w'.next == w.next && w'.disk == w.disk
      && w'.tombs.Keys == w.tombs.Keys + {a.process} && w'.tombs[a.process].value == PcOf(w, a).value
  {
    RunMore(c, START, steps, Refuse(a));
    more := steps + [Refuse(a)];
    RunMore(c, START, more, Recheck(a));
    more := more + [Recheck(a)];
  }

  /** A login, a look at the new file and a logout leave neither file nor tombstone. */
  lemma LeavesNothing(c: Config, steps: seq<Step>, a: Actor) returns (more: seq<Step>)
    requires Run(c, START, steps) && !c.keepFile && PcOf(After(c, START, steps), a).Idle? && a.manager == 0
    requires var w := After(c, START, steps); a.process in w.tombs ==> w.tombs[a.process].value != w.next
    ensures Run(c, START, more)
    ensures
      var w, w' := After(c, START, steps), After(c, START, more);
      && (forall b :: b != a ==> PcOf(w', b) == PcOf(w, b)) && w'.mutex == w.mutex && w'.lock == w.lock
      && w'.disk.None? && a.process !in w'.tombs && w'.denials == w.denials && w'.now == w.now
  {
    RunMore(c, START, steps, Login(0.0));
    more := steps + [Login(0.0)];
    RunMore(c, START, more, Begin(a, true));
    more := more + [Begin(a, true)];
    RunMore(c, START, more, Logout);
    more := more + [Logout];
  }

  /** Without file and tombstone a coroutine trusts what it read long ago. */
  lemma Hurries(c: Config, steps: seq<Step>, a: Actor, token: Token)
    requires Run(c, START, steps) && token.refresh.Some?
    requires var w := After(c, START, steps);
             && PcOf(w, a) == AtMutex(token, true) && Door(a) !in w.mutex && w.lock.None?
             && w.disk.None? && a.process !in w.tombs && Cooling(w, a.process, token.refresh.value)
    ensures !NeverHasty(c)
  {
    RunMore(c, START, steps, Enter(a));
    var more := steps + [Enter(a)];
    RunMore(c, START, more, Decide(a));
    more := more + [Decide(a)];
    SendsRefused(c, more, a);
  }

  /** A logout lets a coroutine of the same process use a token that it read before it was found bad. */
  lemma LogoutIsHasty(c: Config)
    requires !c.keepFile
    ensures !NeverHasty(c)
  {
    hide Next, Enabled;
    var a, b, d := Actor(1, 0, 0), Actor(1, 0, 1), Actor(1, 0, 2);
    var steps := RefusedBeside(c, a, b);
    steps := LeavesNothing(c, steps, d);
    Hurries(c, steps, a, START.disk.value);
  }

  /** Coroutine a waits for the in-process lock while b of its process gives up on the token both have read. */
  lemma RefusedBeside(c: Config, a: Actor, b: Actor) returns (steps: seq<Step>)
    requires a != b && a.process == b.process && a.manager == b.manager == 0
    ensures Run(c, START, steps)
    ensures
      var w := After(c, START, steps);
      && w.pcs == map[a := AtMutex(START.disk.value, true), b := Idle] && w.mutex == map[] && w.lock.None?
      && Cooling(w, a.process, 0) && w.next == 1 && (a.process in w.tombs ==> w.tombs[a.process].value == 0)
  {
    hide Next, Enabled;
    steps := ReachesMutex(c, [], a);
    steps := ReachesLock(c, steps, b);
    steps := TakesLock(c, steps, b);
    steps := GivesUp(c, steps, b);
  }

  /**
   Two managers of one process have passed the look at the tombstones when the first is refused; the
   second compares only the token in the file, and sends the same one.
   */
  lemma TwoManagersAreHasty(c: Config)
    requires !c.single
    ensures !NeverHasty(c)
  {
    hide Next, Enabled;
    var a, b := Actor(1, 0, 0), Actor(1, 1, 0);
    var steps := ReachesLock(c, [], a);
    steps := ReachesLock(c, steps, b);
    steps := TakesLock(c, steps, a);
    steps := GivesUp(c, steps, a);
    SendsRefused(c, steps, b);
  }

  lemma SendsRefused(c: Config, steps: seq<Step>, a: Actor)
    requires Run(c, START, steps)
    requires
      var w := After(c, START, steps);
      && PcOf(w, a).WantLock? && PcOf(w, a).force && w.lock.None?
      && (w.disk.Some? ==> w.disk.value.refresh == Some(PcOf(w, a).value)) && Cooling(w, a.process, PcOf(w, a).value)
    ensures !NeverHasty(c)
  {
    var more := TakesLock(c, steps, a);
    RunMore(c, START, more, Send(a, 0.0));
    assert After(c, START, more + [Send(a, 0.0)]).hasty > 0;
  }

  /**
   A process that was told that a token is bad never sends it again for 300 seconds, exactly if nobody
   logs out and no process has a second manager: lost replies, refreshes without the lock and logins
   do no harm.
   */
  lemma CooldownRespectedIff(c: Config)
    ensures NeverHasty(c) <==> c.keepFile && c.single
  {
    hide CooldownInv;
    if c.keepFile && c.single {
      StartCools();
      forall steps | Run(c, START, steps) ensures After(c, START, steps).hasty == 0 { CooldownRun(c, START, steps); }
    } else if !c.single {
      TwoManagersAreHasty(c);
    } else {
      LogoutIsHasty(c);
    }
  }
}
