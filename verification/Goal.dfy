/**
 The persistent goal of a session: its transitions, the time it was active, its budgets, and the
 driver that starts one turn after the other while it is active. Times are in seconds.
 */
module Goal {
  import opened Basics

  datatype Status = Active | Paused | Blocked

  datatype Budgets = Budgets(maxTurns: Option<int>, maxTokens: Option<int>, maxSeconds: Option<int>)

  /** A length of time. */
  type Seconds = x: real | 0.0 <= x

  datatype Record = Record(
    objective: string, criteria: Option<string>, status: Status, stopReason: Option<string>, budgets: Budgets,
    turns: nat, tokens: nat, activeSeconds: Seconds, createdAt: real, updatedAt: real, activeSince: Option<real>)

  datatype Error = GoalExists | GoalNotFound | BadTransition

  const DEFAULT_GOAL_TURN_BUDGET := 30

  function NonNegative(x: real): Seconds { if x < 0.0 then 0.0 else x }

  // ----- what a record says -----

  function CurrentActiveSeconds(r: Record, now: real): Seconds {
    r.activeSeconds + if r.activeSince.Some? then NonNegative(now - r.activeSince.value) else 0.0
  }

  /** A budget of zero turns counts as none. */
  function EffectiveMaxTurns(b: Budgets): (n: int)
    ensures n != 0
  {
    if b.maxTurns.None? || b.maxTurns.value == 0 then DEFAULT_GOAL_TURN_BUDGET else b.maxTurns.value
  }

  datatype Exceeded = TurnBudget | TokenBudget | TimeBudget

  function BudgetExceeded(r: Record, now: real): Option<Exceeded> {
    if r.turns >= EffectiveMaxTurns(r.budgets) then Some(TurnBudget)
    else if r.budgets.maxTokens.Some? && r.tokens >= r.budgets.maxTokens.value then Some(TokenBudget)
    else if r.budgets.maxSeconds.Some? && CurrentActiveSeconds(r, now) >= r.budgets.maxSeconds.value as real
    then Some(TimeBudget)
    else None
  }

  /** Whether some budget is used to three quarters; the quotients need budgets that are not zero. */
  predicate BudgetPressure(r: Record, now: real)
    requires r.budgets.maxTokens != Some(0) && r.budgets.maxSeconds != Some(0)
  {
    || r.turns as real / EffectiveMaxTurns(r.budgets) as real >= 0.75
    || (r.budgets.maxTokens.Some? && r.tokens as real / r.budgets.maxTokens.value as real >= 0.75)
    || (r.budgets.maxSeconds.Some? && CurrentActiveSeconds(r, now) / r.budgets.maxSeconds.value as real >= 0.75)
  }

  // ----- transitions -----

  function NewRecord(objective: string, criteria: Option<string>, budgets: Budgets, now: real): Record {
    Record(objective, criteria, Active, None, budgets, 0, 0, 0.0, now, now, Some(now))
  }

  function CloseActiveInterval(r: Record, now: real): Record {
    if r.activeSince.None? then r
    else r.(activeSeconds := r.activeSeconds + NonNegative(now - r.activeSince.value), activeSince := None)
  }

  /** The clock is read first for the record and then, to close an interval, again. */
  function Transition(r: Record, to: Status, reason: Option<string>, now1: real, now2: real): Record {
    (if to.Active? then r.(activeSince := Some(now1)) else CloseActiveInterval(r, now2))
      .(status := to, stopReason := reason, updatedAt := now1)
  }

  /** The stored goal, if there is one. */
  type File = Option<Record>

  datatype Op =
    | Create(objective: string, criteria: Option<string>, budgets: Budgets, now1: real)
    | Pause(reason: string, now1: real, now2: real)
    | PauseOnError(reason: string, now1: real, now2: real)
    | Block(reason: string, now1: real, now2: real)
    | Resume(now1: real)
    | Complete(now1: real, now2: real)
    | Cancel
    | SetBudgets(budgets: Budgets, now1: real)
    | RecordTurn(tokens: int, now1: real)
    | RestoreDowngrade(now1: real, now2: real)
    | AfterTurn(tokens: int, now1: real, wall1: real, wall2: real, now2: real, now3: real)

  function Check(file: File, op: Op): Result<(), Error> {
    match op
    case Create(_, _, _, _) => if file.Some? then Err(GoalExists) else Ok(())
    case PauseOnError(_, _, _) => Ok(())
    case RestoreDowngrade(_, _) => Ok(())
    case AfterTurn(_, _, _, _, _, _) => Ok(())
    case Pause(_, _, _) => Unless(file, Paused)
    case Block(_, _, _) => Unless(file, Blocked)
    case Resume(_) => Unless(file, Active)
    case _ => if file.None? then Err(GoalNotFound) else Ok(())
  }

  function Unless(file: File, status: Status): Result<(), Error> {
    if file.None? then Err(GoalNotFound) else if file.value.status == status then Err(BadTransition) else Ok(())
  }

  /** Only an active goal has an open interval. */
  predicate WellFormed(file: File) {
    file.Some? ==> (file.value.status.Active? <==> file.value.activeSince.Some?)
  }

  predicate IsActive(file: File) { file.Some? && file.value.status.Active? }

  function Counted(r: Record, tokens: int, now: real): Record {
    r.(turns := r.turns + 1, tokens := if tokens < 0 then 0 else tokens, updatedAt := now)
  }

  function ReasonText(e: Exceeded): string {
    match e
    case TurnBudget => "Turn budget reached"
    case TokenBudget => "Token budget reached"
    case TimeBudget => "Time budget reached"
  }

  /**
   Bookkeeping after a turn: the continuation, if there is one, says whether a budget presses. The wall
   clock is read once to see whether a budget is exceeded and again to see whether one presses.
   */
  function Drive(file: File, tokens: int, now1: real, wall1: real, wall2: real, now2: real, now3: real): (File, Option<bool>) {
    if !IsActive(file) then (file, None)
    else
      var r := Counted(file.value, tokens, now1);
      var exceeded := BudgetExceeded(r, wall1);
      if exceeded.Some? then (Some(Transition(r, Blocked, Some(ReasonText(exceeded.value)), now2, now3)), None)
      else (Some(r), Some(BudgetPressure(r, wall2)))
  }

  function Apply(file: File, op: Op): File {
    if Check(file, op).Err? then file else
    match op
    case Create(objective, criteria, budgets, now1) => Some(NewRecord(objective, criteria, budgets, now1))
    case Pause(reason, now1, now2) => Some(Transition(file.value, Paused, Some(reason), now1, now2))
    case PauseOnError(reason, now1, now2) =>
      if IsActive(file) then Some(Transition(file.value, Paused, Some(reason), now1, now2)) else file
    case Block(reason, now1, now2) => Some(Transition(file.value, Blocked, Some(reason), now1, now2))
    case Resume(now1) => Some(Transition(file.value, Active, None, now1, now1))
    case Complete(_, _) => None
    case Cancel => None
    case SetBudgets(budgets, now1) => Some(file.value.(budgets := budgets, updatedAt := now1))
    case RecordTurn(tokens, now1) => Some(Counted(file.value, tokens, now1))
    case RestoreDowngrade(now1, now2) =>
      if IsActive(file) then Some(Transition(file.value, Paused, Some("session restarted"), now1, now2)) else file
    case AfterTurn(tokens, now1, wall1, wall2, now2, now3) => Drive(file, tokens, now1, wall1, wall2, now2, now3).0
  }

  /** Whether the operation hands out a continuation prompt. */
  predicate Continues(file: File, op: Op) {
    op.AfterTurn? && Drive(file, op.tokens, op.now1, op.wall1, op.wall2, op.now2, op.now3).1.Some?
  }

  // ----- runs -----

  /**
   clock is the last reading of the clock; active adds up, piece by piece, the time during which the
   stored status was active; continuations counts the prompts. Both start anew with every goal.
   */
  datatype Sys = Sys(file: File, clock: real, active: real, continuations: nat)

  const START := Sys(None, 0.0, 0.0, 0)

  /** The reading at which the operation takes effect; without a reading, the last one before. */
  function EffectAt(file: File, op: Op, clock: real): real {
    if Check(file, op).Err? then clock else
    match op
    case Create(_, _, _, now1) => now1
    case Pause(_, _, now2) => if IsActive(file) then now2 else op.now1
    case PauseOnError(_, _, now2) => if IsActive(file) then now2 else clock
    case Block(_, _, now2) => if IsActive(file) then now2 else op.now1
    case Resume(now1) => now1
    case Complete(_, now2) => now2
    case Cancel => clock
    case SetBudgets(_, now1) => now1
    case RecordTurn(_, now1) => now1
    case RestoreDowngrade(_, now2) => if IsActive(file) then now2 else clock
    case AfterTurn(_, now1, _, _, _, now3) =>
      if !IsActive(file) then clock else if Continues(file, op) then now1 else now3
  }

  /** The clock never goes back, from step to step and from reading to reading. */
  predicate Enabled(s: Sys, op: Op) {
    match op
    case Create(_, _, _, now1) => s.clock <= now1
    case Pause(_, now1, now2) => s.clock <= now1 <= now2
    case PauseOnError(_, now1, now2) => s.clock <= now1 <= now2
    case Block(_, now1, now2) => s.clock <= now1 <= now2
    case Resume(now1) => s.clock <= now1
    case Complete(now1, now2) => s.clock <= now1 <= now2
    case Cancel => true
    case SetBudgets(_, now1) => s.clock <= now1
    case RecordTurn(_, now1) => s.clock <= now1
    case RestoreDowngrade(now1, now2) => s.clock <= now1 <= now2
    case AfterTurn(_, now1, _, _, now2, now3) => s.clock <= now1 <= now2 <= now3
  }

  function Next(s: Sys, op: Op): Sys {
    var at := EffectAt(s.file, op, s.clock);
    var after := Apply(s.file, op);
    if op.Create? && s.file.None? then Sys(after, at, 0.0, 0)
    else
      Sys(after, at, s.active + if IsActive(s.file) then at - s.clock else 0.0,
          s.continuations + if Continues(s.file, op) then 1 else 0)
  }

  ghost predicate Run(states: seq<Sys>, ops: seq<Op>) {
    && |states| == |ops| + 1
    && forall i :: 0 <= i < |ops| ==> Enabled(states[i], ops[i]) && states[i + 1] == Next(states[i], ops[i])
  }

  /** Only an active goal has an open interval, and the stored seconds with it are the time it was active. */
  predicate Inv(s: Sys) {
    WellFormed(s.file) && (s.file.Some? ==>
      var r := s.file.value;
      && (r.activeSince.Some? ==> r.activeSince.value <= s.clock)
      && CurrentActiveSeconds(r, s.clock) == s.active)
  }

  lemma StepKeeps(s: Sys, op: Op)
    requires Inv(s) && Enabled(s, op)
    ensures Inv(Next(s, op))
  {
    hide BudgetPressure, BudgetExceeded, ReasonText;
  }

  lemma {:induction false} RunKeeps(states: seq<Sys>, ops: seq<Op>, i: nat)
    requires Run(states, ops) && Inv(states[0]) && i <= |ops|
    ensures Inv(states[i])
  {
    hide Inv, Next, Enabled;
    if i > 0 {
      RunKeeps(states, ops, i - 1);
      StepKeeps(states[i - 1], ops[i - 1]);
    }
  }

  /** A completed goal reports all the time it was active, up to the reading that closes its last interval. */
  lemma CompleteReports(s: Sys, op: Op)
    requires Inv(s) && op.Complete? && Enabled(s, op) && s.file.Some?
    ensures CloseActiveInterval(s.file.value, op.now1).activeSeconds ==
            s.active + if IsActive(s.file) then op.now1 - s.clock else 0.0
  {
  }

  // ----- budgets -----

  /** A turn ends with a continuation or with a goal that is no longer active. */
  lemma ContinuesIff(s: Sys, op: Op)
    requires op.AfterTurn?
    ensures Continues(s.file, op) <==> IsActive(Apply(s.file, op))
    ensures Continues(s.file, op) <==>
      IsActive(s.file) && BudgetExceeded(Counted(s.file.value, op.tokens, op.now1), op.wall1).None?
  {
    hide BudgetPressure, BudgetExceeded, ReasonText;
  }

  /** Whether the operation gives no goal a budget of more turns than `limit`. */
  predicate Within(op: Op, limit: int) {
    op.Create? || op.SetBudgets? ==> EffectiveMaxTurns(op.budgets) <= limit
  }

  predicate Bounded(s: Sys, limit: int) {
    && (s.file.Some? ==> EffectiveMaxTurns(s.file.value.budgets) <= limit && s.continuations <= s.file.value.turns)
    && (0 < s.continuations ==> s.continuations < limit)
  }

  predicate NoGoalYet(s: Sys) { s.file.None? && s.continuations == 0 }

  lemma StepKeepsBound(s: Sys, op: Op, limit: int)
    requires Bounded(s, limit) && Within(op, limit)
    ensures Bounded(Next(s, op), limit)
    ensures Next(s, op).file.Some? && s.file.Some? ==> s.file.value.turns <= Next(s, op).file.value.turns
    ensures Continues(s.file, op) ==> s.file.value.turns + 1 < limit
  {
    hide BudgetPressure, ReasonText, CurrentActiveSeconds, NonNegative, EffectAt;
  }

  /**
   Whatever is paused, blocked, resumed and given another budget in between, a goal hands out fewer
   continuations than the largest turn budget of the run, a missing or zero one counting as the default.
   */
  lemma {:induction false} ContinuationsBounded(states: seq<Sys>, ops: seq<Op>, limit: int, i: nat)
    requires Run(states, ops) && NoGoalYet(states[0]) && i <= |ops|
    requires forall j :: 0 <= j < |ops| ==> Within(ops[j], limit)
    ensures Bounded(states[i], limit)
  {
    hide Next, Enabled, Within, Bounded;
    if i == 0 {
      NoneIsBounded(states[0], limit);
    } else {
      ContinuationsBounded(states, ops, limit, i - 1);
      StepKeepsBound(states[i - 1], ops[i - 1], limit);
    }
  }

  lemma NoneIsBounded(s: Sys, limit: int)
    requires NoGoalYet(s)
    ensures Bounded(s, limit)
  {
  }

  /** Whether the goal is one and the same from i to j. */
  predicate SameGoal(states: seq<Sys>, i: nat, j: nat)
    requires i <= j < |states|
  {
    forall h :: i <= h <= j ==> states[h].file.Some?
  }

  /** Once the turns have reached every budget of the run, no continuation comes any more, resumed or not. */
  lemma {:induction false} ExhaustedForGood(states: seq<Sys>, ops: seq<Op>, limit: int, i: nat, j: nat)
    requires Run(states, ops) && NoGoalYet(states[0]) && i <= j < |ops|
    requires forall h :: 0 <= h < |ops| ==> Within(ops[h], limit)
    requires SameGoal(states, i, j) && states[i].file.value.turns >= limit
    ensures states[j].file.value.turns >= limit
    ensures !Continues(states[j].file, ops[j])
  {
    hide Next, Enabled, Within, Bounded, Continues;
    ContinuationsBounded(states, ops, limit, j);
    StepKeepsBound(states[j], ops[j], limit);
    if i < j {
      ExhaustedForGood(states, ops, limit, i, j - 1);
      ContinuationsBounded(states, ops, limit, j - 1);
      StepKeepsBound(states[j - 1], ops[j - 1], limit);
    }
  }

  /** A goal that is only driven, n turns from its creation. */
  function Driven(objective: string, turns: int, n: nat): Sys {
    if n == 0 then Next(START, Create(objective, None, Budgets(Some(turns), None, None), 0.0))
    else Next(Driven(objective, turns, n - 1), AfterTurn(0, 0.0, 0.0, 0.0, 0.0, 0.0))
  }

  /** The bound is reached: a goal with a budget of `turns` does hand out one continuation less. */
  lemma {:induction false} BoundIsReached(objective: string, turns: nat, n: nat)
    requires n < turns
    ensures
      var s := Driven(objective, turns, n);
      IsActive(s.file) && s.file.value.turns == n == s.continuations && s.file.value.budgets == Budgets(Some(turns), None, None)
    ensures n == turns - 1 ==> !IsActive(Driven(objective, turns, turns).file)
  {
    hide BudgetPressure, ReasonText, CurrentActiveSeconds, CloseActiveInterval, EffectAt;
    if n > 0 { BoundIsReached(objective, turns, n - 1); }
  }

  /** The driver judges the time budget by the wall clock, whatever clock the store was given. */
  lemma TimeIsWallTime(objective: string, seconds: int, now: real)
    requires seconds > 0
    ensures
      var file := Some(NewRecord(objective, None, Budgets(None, None, Some(seconds)), now));
      && Continues(file, AfterTurn(0, now, now, now, now, now))
      && !Continues(file, AfterTurn(0, now, now + seconds as real, now, now, now))
  {
    hide BudgetPressure, ReasonText;
  }

  /** Whether the time budget is used up at this reading of a clock; only an open interval makes it depend on the reading. */
  predicate PastDeadline(r: Record, reading: real)
    requires r.budgets.maxSeconds.Some?
  {
    var left := r.budgets.maxSeconds.value as real - r.activeSeconds;
    left <= 0.0 || (r.activeSince.Some? && r.activeSince.value + left <= reading)
  }

  /**
   The driver judges by the wall clock. It comes to the verdict that the store's clock would give if
   and only if turns or tokens decide, or there is no time budget, or both readings lie on the same
   side of the moment at which the budget runs out.
   */
  lemma ClocksAgreeIff(r: Record, wall: real, clock: real)
    ensures
      BudgetExceeded(r, wall) == BudgetExceeded(r, clock) <==>
      || r.turns >= EffectiveMaxTurns(r.budgets)
      || (r.budgets.maxTokens.Some? && r.tokens >= r.budgets.maxTokens.value)
      || r.budgets.maxSeconds.None?
      || (PastDeadline(r, wall) <==> PastDeadline(r, clock))
  {
    if r.budgets.maxSeconds.Some? {
      DeadlineIs(r, wall);
      DeadlineIs(r, clock);
    }
  }

  lemma DeadlineIs(r: Record, reading: real)
    requires r.budgets.maxSeconds.Some?
    ensures CurrentActiveSeconds(r, reading) >= r.budgets.maxSeconds.value as real <==> PastDeadline(r, reading)
  {
  }

  /** So a turn is continued by both clocks or by neither exactly then. */
  lemma DriverAgreesIff(file: File, op: Op, clock: real)
    requires op.AfterTurn? && IsActive(file)
    ensures
      var r := Counted(file.value, op.tokens, op.now1);
      (Continues(file, op) <==> Continues(file, op.(wall1 := clock))) <==>
      || r.turns >= EffectiveMaxTurns(r.budgets)
      || (r.budgets.maxTokens.Some? && r.tokens >= r.budgets.maxTokens.value)
      || r.budgets.maxSeconds.None?
      || (PastDeadline(r, op.wall1) <==> PastDeadline(r, clock))
  {
    hide BudgetPressure, ReasonText, CurrentActiveSeconds, PastDeadline;
    ClocksAgreeIff(Counted(file.value, op.tokens, op.now1), op.wall1, clock);
  }

  // ----- verdicts in numbers -----

  /** The turns, tokens and seconds that the verdict on a turn is about. */
  predicate WithinBudgets(r: Record, turns: int, tokens: int, seconds: real) {
    && turns < (if r.budgets.maxTurns in {None, Some(0)} then 30 else r.budgets.maxTurns.value)
    && (r.budgets.maxTokens.Some? ==> tokens < r.budgets.maxTokens.value)
    && (r.budgets.maxSeconds.Some? ==> seconds < r.budgets.maxSeconds.value as real)
  }

  function SecondsBy(r: Record, reading: real): real {
    if r.activeSince.None? || reading < r.activeSince.value then r.activeSeconds
    else r.activeSeconds + (reading - r.activeSince.value)
  }

  /**
   After a turn an active goal has one turn more and the tokens just counted. It stays active exactly if turns, tokens
   and seconds are all below their budgets, thirty turns being the default; otherwise it is blocked, for the first
   budget in this order that is used up.
   */
  lemma TurnVerdictIff(file: File, op: Op)
    requires op.AfterTurn? && IsActive(file)
    ensures
      var r, r' := file.value, Apply(file, op);
      var turns, tokens := r.turns + 1, if op.tokens < 0 then 0 else op.tokens;
      && r'.Some? && r'.value.turns == turns && r'.value.tokens == tokens && r'.value.budgets == r.budgets
      && (r'.value.status.Active? <==> WithinBudgets(r, turns, tokens, SecondsBy(r, op.wall1)))
      && (r'.value.status.Active? ==> r'.value.activeSince == r.activeSince && r'.value.activeSeconds == r.activeSeconds)
      && (!r'.value.status.Active? ==>
           && r'.value.status.Blocked?
           && r'.value.stopReason == Some(
                if turns >= (if r.budgets.maxTurns in {None, Some(0)} then 30 else r.budgets.maxTurns.value) then "Turn budget reached"
                else if r.budgets.maxTokens.Some? && tokens >= r.budgets.maxTokens.value then "Token budget reached"
                else "Time budget reached"))
  {
    hide BudgetPressure;
    var r := Counted(file.value, op.tokens, op.now1);
    assert CurrentActiveSeconds(r, op.wall1) == SecondsBy(file.value, op.wall1);
    assert EffectiveMaxTurns(r.budgets) == if r.budgets.maxTurns in {None, Some(0)} then 30 else r.budgets.maxTurns.value;
    assert BudgetExceeded(r, op.wall1).None? <==> WithinBudgets(file.value, r.turns, r.tokens, SecondsBy(file.value, op.wall1));
  }

  /** A continuation warns exactly if three quarters of some budget are used up; then that budget is positive. */
  lemma PressureIff(file: File, op: Op)
    requires op.AfterTurn? && Continues(file, op)
    ensures
      var r, tokens := file.value, if op.tokens < 0 then 0 else op.tokens;
      var maxTurns := if r.budgets.maxTurns in {None, Some(0)} then 30 else r.budgets.maxTurns.value;
      Drive(file, op.tokens, op.now1, op.wall1, op.wall2, op.now2, op.now3).1 == Some(
        || 4 * (r.turns + 1) >= 3 * maxTurns
        || (r.budgets.maxTokens.Some? && 4 * tokens >= 3 * r.budgets.maxTokens.value)
        || (r.budgets.maxSeconds.Some? && 4.0 * SecondsBy(r, op.wall2) >= 3.0 * r.budgets.maxSeconds.value as real))
  {
    hide BudgetExceeded, BudgetPressure, ReasonText;
    var r := Counted(file.value, op.tokens, op.now1);
    assert BudgetExceeded(r, op.wall1).None?;
    PressesIff(r, op.wall1, op.wall2);
    assert Drive(file, op.tokens, op.now1, op.wall1, op.wall2, op.now2, op.now3).1 == Some(BudgetPressure(r, op.wall2));
    assert SecondsBy(r, op.wall2) == SecondsBy(file.value, op.wall2);
    assert EffectiveMaxTurns(r.budgets) == if r.budgets.maxTurns in {None, Some(0)} then 30 else r.budgets.maxTurns.value;
  }

  lemma PressesIff(r: Record, reading1: real, reading2: real)
    requires BudgetExceeded(r, reading1).None?
    ensures r.budgets.maxTokens != Some(0) && r.budgets.maxSeconds != Some(0)
    ensures BudgetPressure(r, reading2) <==>
      || 4 * r.turns >= 3 * EffectiveMaxTurns(r.budgets)
      || (r.budgets.maxTokens.Some? && 4 * r.tokens >= 3 * r.budgets.maxTokens.value)
      || (r.budgets.maxSeconds.Some? && 4.0 * SecondsBy(r, reading2) >= 3.0 * r.budgets.maxSeconds.value as real)
  {
    assert r.turns < EffectiveMaxTurns(r.budgets);
    assert r.budgets.maxTokens.Some? ==> r.tokens < r.budgets.maxTokens.value;
    assert r.budgets.maxSeconds.Some? ==> 0.0 <= CurrentActiveSeconds(r, reading1) < r.budgets.maxSeconds.value as real;
    CountQuarters(r.turns, EffectiveMaxTurns(r.budgets));
    if r.budgets.maxTokens.Some? { CountQuarters(r.tokens, r.budgets.maxTokens.value); }
    if r.budgets.maxSeconds.Some? {
      assert CurrentActiveSeconds(r, reading2) == SecondsBy(r, reading2);
      ThreeQuarters(SecondsBy(r, reading2), r.budgets.maxSeconds.value as real);
    }
  }

  lemma CountQuarters(used: int, budget: int)
    requires budget > 0
    ensures used as real / budget as real >= 0.75 <==> 4 * used >= 3 * budget
  {
    ThreeQuarters(used as real, budget as real);
    assert 4.0 * used as real == (4 * used) as real && 3.0 * budget as real == (3 * budget) as real;
  }

  lemma ThreeQuarters(used: real, budget: real)
    requires budget > 0.0
    ensures used / budget >= 0.75 <==> 4.0 * used >= 3.0 * budget
  {
    assert used == (used / budget) * budget;
  }

  /** Each operation that does not fail leaves the goal as its name says, with the reason it was given. */
  lemma NamesTell(file: File, op: Op)
    requires Check(file, op).Ok? && !op.AfterTurn?
    ensures
      var after := Apply(file, op);
      match op
      case Create(objective, criteria, budgets, now) =>
        after.Some? && after.value.createdAt == after.value.updatedAt == now && after.value.status == Active && after.value.objective == objective && after.value.criteria == criteria
        && after.value.budgets == budgets && after.value.turns == 0 && after.value.tokens == 0 && after.value.activeSeconds == 0.0
      case Pause(reason, _, _) => after.Some? && after.value.status == Paused && after.value.stopReason == Some(reason)
      case Block(reason, _, _) => after.Some? && after.value.status == Blocked && after.value.stopReason == Some(reason)
      case Resume(_) => after.Some? && after.value.status == Active && after.value.stopReason == None
      case PauseOnError(reason, _, _) =>
        if IsActive(file) then after.Some? && after.value.status == Paused && after.value.stopReason == Some(reason) else after == file
      case RestoreDowngrade(_, _) =>
        if IsActive(file) then after.Some? && after.value.status == Paused && after.value.stopReason == Some("session restarted")
        else after == file
      case SetBudgets(budgets, now) => after == Some(file.value.(budgets := budgets, updatedAt := now))
      case RecordTurn(tokens, now) =>
        after == Some(file.value.(turns := file.value.turns + 1, tokens := if tokens < 0 then 0 else tokens, updatedAt := now))
      case _ => after == None
    ensures Apply(file, op).Some? && !op.Create? ==>
      && file.Some? && Apply(file, op).value.objective == file.value.objective && Apply(file, op).value.createdAt == file.value.createdAt
      && (Apply(file, op) != file && (op.Pause? || op.Block? || op.Resume?) ==> Apply(file, op).value.updatedAt == op.now1)
      && (!op.SetBudgets? ==> Apply(file, op).value.budgets == file.value.budgets)
      && (!op.RecordTurn? ==> Apply(file, op).value.turns == file.value.turns && Apply(file, op).value.tokens == file.value.tokens)
  {
  }
}
