/**
 Background tasks: what the manager, the agent runners and the bash workers write about them, and
 which of these writes respect a terminal status and the limit on active tasks.

 Every step is a read, a check and a write that nothing interrupts. Times are in milliseconds.
 */
module Background {
  import opened Basics

  datatype Kind = Bash | Agent

  datatype Status = Created | Starting | Running | AwaitingApproval | Completed | Failed | Killed | Lost

  predicate IsTerminal(s: Status) { s.Completed? || s.Failed? || s.Killed? || s.Lost? }

  datatype Task = Task(
    id: string, kind: Kind, status: Status, interrupted: bool, timedOut: bool, killRequested: bool,
    startedAt: Option<int>, heartbeatAt: Option<int>, finishedAt: Option<int>, updatedAt: int, createdAt: int)

  datatype Config = Config(maxRunning: int, staleAfter: int)

  /** live names the agent tasks whose runner still exists in this process. */
  datatype Mgr = Mgr(tasks: seq<Task>, live: set<string>)

  const EMPTY := Mgr([], {})

  function NewTask(id: string, kind: Kind, now: int): Task {
    Task(id, kind, Created, false, false, false, None, None, None, now, now)
  }

  // ----- single tasks -----

  predicate IsActive(t: Task) { !IsTerminal(t.status) }

  /** A terminal status is never overwritten. */
  function Mark(t: Task, to: Status, now: int): Task {
    if IsTerminal(t.status) then t
    else if IsTerminal(to) then t.(status := to, updatedAt := now, finishedAt := Some(now), interrupted := t.interrupted || to.Killed?)
    else if to.Running? then t.(status := to, updatedAt := now, heartbeatAt := Some(now))
    else t.(status := to, updatedAt := now)
  }

  function MarkTimedOut(t: Task, now: int): Task {
    if IsTerminal(t.status) then t
    else t.(status := Failed, updatedAt := now, finishedAt := Some(now), interrupted := true, timedOut := true)
  }

  /** Python's `or` takes a zero for missing. */
  function LastProgress(t: Task): int {
    if t.heartbeatAt.Some? && t.heartbeatAt.value != 0 then t.heartbeatAt.value
    else if t.startedAt.Some? && t.startedAt.value != 0 then t.startedAt.value
    else if t.updatedAt != 0 then t.updatedAt
    else t.createdAt
  }

  function RecoverTask(t: Task, live: set<string>, staleAfter: int, now: int): Task {
    if IsTerminal(t.status) then t
    else if t.kind.Agent? then
      if t.id in live then t else t.(status := Lost, finishedAt := Some(now), updatedAt := now)
    else if now - LastProgress(t) <= staleAfter then t
    else if t.killRequested then t.(status := Killed, finishedAt := Some(now), updatedAt := now, interrupted := true)
    else t.(status := Lost, finishedAt := Some(now), updatedAt := now)
  }

  function KillTask(t: Task, now: int): Task {
    if IsTerminal(t.status) then t
    else if t.kind.Agent? then Mark(t, Killed, now)
    else t.(killRequested := true)
  }

  // ----- what the worker of a bash task writes -----

  /** How the worker ends: before the command starts, on a timeout, with the command, or on an error of its own. */
  datatype Ending = Early | TimedOut | Exited(ok: bool) | Broken

  /** The first write; it does not look at the status. */
  function WorkerStart(t: Task, now: int): Task {
    t.(status := Starting, startedAt := Some(now), heartbeatAt := Some(now), updatedAt := now)
  }

  /** Neither does the second one, once the command runs. */
  function WorkerRun(t: Task, now: int): Task {
    t.(status := Running, heartbeatAt := Some(now), updatedAt := now)
  }

  function WorkerBeat(t: Task, now: int): Task {
    if t.finishedAt.Some? then t else t.(heartbeatAt := Some(now), updatedAt := now)
  }

  function EndStatus(killRequested: bool, ending: Ending): Status {
    match ending
    case Early => if killRequested then Killed else Failed
    case TimedOut => Failed
    case Exited(ok) => if killRequested then Killed else if ok then Completed else Failed
    case Broken => Failed
  }

  /** The last write; apart from the status it is based on the record that the worker holds. */
  function WorkerEnd(t: Task, held: Task, ending: Ending, now: int): Task {
    var to := EndStatus(t.killRequested, ending);
    t.(status := to, finishedAt := Some(now), updatedAt := now, startedAt := held.startedAt,
       heartbeatAt := if ending.TimedOut? || ending.Exited? then Some(now) else held.heartbeatAt,
       interrupted := held.interrupted || ending.TimedOut? || to.Killed?, timedOut := held.timedOut || ending.TimedOut?)
  }

  // ----- the manager -----

  /** The position of the task with this id, or the number of tasks. */
  function Index(tasks: seq<Task>, id: string): (i: nat)
    ensures i <= |tasks| && (i < |tasks| ==> tasks[i].id == id)
    ensures forall j :: 0 <= j < i ==> tasks[j].id != id
  {
    if tasks == [] || tasks[0].id == id then 0 else 1 + Index(tasks[1..], id)
  }

  function Active(tasks: seq<Task>): nat {
    if tasks == [] then 0 else Active(tasks[..|tasks| - 1]) + if IsActive(tasks[|tasks| - 1]) then 1 else 0
  }

  function Update(m: Mgr, id: string, f: Task -> Task): Mgr {
    var i := Index(m.tasks, id);
    if i == |m.tasks| then m else m.(tasks := m.tasks[i := f(m.tasks[i])])
  }

  function UpdateAll(m: Mgr, f: Task -> Task): Mgr {
    m.(tasks := seq(|m.tasks|, i requires 0 <= i < |m.tasks| => f(m.tasks[i])))
  }

  function CreateAgent(m: Mgr, c: Config, id: string, now: int): Mgr {
    if Active(m.tasks) >= c.maxRunning then m
    else Mgr(m.tasks + [NewTask(id, Agent, now).(status := Starting)], m.live + {id})
  }

  /** The worker may have written before the manager looks again; here it has not. */
  function CreateBash(m: Mgr, c: Config, id: string, launched: bool, now: int): Mgr {
    if Active(m.tasks) >= c.maxRunning then m
    else
      var t := NewTask(id, Bash, now);
      m.(tasks := m.tasks + [if launched then t.(status := Starting) else t.(status := Failed, finishedAt := Some(now))])
  }

  datatype Step =
    | NewAgent(id: string, now: int)
    | NewBash(id: string, launched: bool, now: int)
    | Marking(id: string, to: Status, now: int)
    | TimingOut(id: string, now: int)
    | Killing(id: string, now: int)
    | KillingAll(now: int)
    | Recovering(now: int)
    | RunnerEnds(id: string)
    | WorkerStarts(id: string, now: int)
    | WorkerRuns(id: string, now: int)
    | WorkerBeats(id: string, now: int)
    | WorkerEnds(id: string, held: Task, ending: Ending, now: int)

  predicate IsThere(m: Mgr, id: string, kind: Kind) {
    var i := Index(m.tasks, id);
    i < |m.tasks| && m.tasks[i].kind == kind
  }

  /** Ids are fresh. The runners mark only agent tasks, the workers write only about bash tasks. */
  predicate Enabled(m: Mgr, step: Step) {
    match step
    case NewAgent(id, _) => Index(m.tasks, id) == |m.tasks|
    case NewBash(id, _, _) => Index(m.tasks, id) == |m.tasks|
    case Marking(id, to, _) => IsThere(m, id, Agent) && !to.Created? && !to.Starting? && !to.Lost?
    case TimingOut(id, _) => IsThere(m, id, Agent)
    case WorkerStarts(id, _) => IsThere(m, id, Bash)
    case WorkerRuns(id, _) => IsThere(m, id, Bash)
    case WorkerBeats(id, _) => IsThere(m, id, Bash)
    case WorkerEnds(id, _, _, _) => IsThere(m, id, Bash)
    case Killing(id, _) => Index(m.tasks, id) < |m.tasks|
    case _ => true
  }

  function Next(m: Mgr, c: Config, step: Step): Mgr {
    match step
    case NewAgent(id, now) => CreateAgent(m, c, id, now)
    case NewBash(id, launched, now) => CreateBash(m, c, id, launched, now)
    case Marking(id, to, now) => Update(m, id, (t: Task) => Mark(t, to, now))
    case TimingOut(id, now) => Update(m, id, (t: Task) => MarkTimedOut(t, now))
    case Killing(id, now) => Update(m, id, (t: Task) => KillTask(t, now))
    case KillingAll(now) => UpdateAll(m, (t: Task) => KillTask(t, now))
    case Recovering(now) => UpdateAll(m, (t: Task) => RecoverTask(t, m.live, c.staleAfter, now))
    case RunnerEnds(id) => m.(live := m.live - {id})
    case WorkerStarts(id, now) => Update(m, id, (t: Task) => WorkerStart(t, now))
    case WorkerRuns(id, now) => Update(m, id, (t: Task) => WorkerRun(t, now))
    case WorkerBeats(id, now) => Update(m, id, (t: Task) => WorkerBeat(t, now))
    case WorkerEnds(id, held, ending, now) => Update(m, id, (t: Task) => WorkerEnd(t, held, ending, now))
  }

  // ----- terminal is final -----

  function StatusOf(tasks: seq<Task>, id: string): Option<Status> {
    var i := Index(tasks, id);
    if i == |tasks| then None else Some(tasks[i].status)
  }

  predicate IsFinished(tasks: seq<Task>, id: string) {
    StatusOf(tasks, id).Some? && IsTerminal(StatusOf(tasks, id).value)
  }

  lemma {:induction false} SameIds(a: seq<Task>, b: seq<Task>, id: string)
    requires |a| == |b| && forall i :: 0 <= i < |a| ==> a[i].id == b[i].id
    ensures Index(a, id) == Index(b, id)
  {
    if a == [] {
    } else {
      assert a[0].id == b[0].id;
      assert forall i :: 0 <= i < |a[1..]| ==> a[1..][i] == a[i + 1] && b[1..][i] == b[i + 1];
      SameIds(a[1..], b[1..], id);
    }
  }

  lemma {:induction false} IndexAfterAppend(tasks: seq<Task>, t: Task, id: string)
    ensures Index(tasks + [t], id) == if Index(tasks, id) == |tasks| && t.id != id then |tasks| + 1 else Index(tasks, id)
  {
    if tasks == [] {
    } else {
      assert (tasks + [t])[1..] == tasks[1..] + [t];
      IndexAfterAppend(tasks[1..], t, id);
    }
  }

  /** Whether f respects a terminal status and keeps the id. */
  predicate Respects(t: Task, t': Task) {
    t'.id == t.id && (IsTerminal(t.status) ==> t'.status == t.status)
  }

  lemma UpdateKeeps(m: Mgr, id: string, f: Task -> Task, other: string)
    requires var i := Index(m.tasks, id); i < |m.tasks| ==> Respects(m.tasks[i], f(m.tasks[i]))
    requires IsFinished(m.tasks, other)
    ensures StatusOf(Update(m, id, f).tasks, other) == StatusOf(m.tasks, other)
  {
    SameIds(m.tasks, Update(m, id, f).tasks, other);
  }

  lemma UpdateAllKeeps(m: Mgr, f: Task -> Task, other: string)
    requires forall t :: Respects(t, f(t))
    requires IsFinished(m.tasks, other)
    ensures StatusOf(UpdateAll(m, f).tasks, other) == StatusOf(m.tasks, other)
  {
    var after := UpdateAll(m, f).tasks;
    forall i | 0 <= i < |m.tasks| ensures after[i].id == m.tasks[i].id {
      assert Respects(m.tasks[i], f(m.tasks[i]));
    }
    SameIds(m.tasks, after, other);
    assert Respects(m.tasks[Index(m.tasks, other)], after[Index(m.tasks, other)]);
  }

  lemma AppendKeeps(tasks: seq<Task>, t: Task, other: string)
    requires IsFinished(tasks, other)
    ensures StatusOf(tasks + [t], other) == StatusOf(tasks, other)
  {
    IndexAfterAppend(tasks, t, other);
  }

  /** Whether a worker that ends this way leaves a finished task as it was; a lost one never. */
  predicate EndsAs(status: Status, killRequested: bool, ending: Ending) {
    match status
    case Completed => !killRequested && ending == Exited(true)
    case Killed => killRequested && (ending.Early? || ending.Exited?)
    case Failed => ending.TimedOut? || ending.Broken? || (!killRequested && ending != Exited(true))
    case _ => false
  }

  /**
   Whether a step is a worker's write that puts another status over the terminal one of the task: any
   start of the worker or of its command, and an end that does not go with the status.
   */
  predicate Overwrites(m: Mgr, step: Step, id: string) {
    IsFinished(m.tasks, id) &&
    match step
    case WorkerStarts(id', _) => id' == id
    case WorkerRuns(id', _) => id' == id
    case WorkerEnds(id', _, ending, _) =>
      var t := m.tasks[Index(m.tasks, id)];
      id' == id && !EndsAs(t.status, t.killRequested, ending)
    case _ => false
  }

  lemma TerminalStays(m: Mgr, c: Config, step: Step, id: string)
    requires Enabled(m, step) && !Overwrites(m, step, id) && IsFinished(m.tasks, id)
    ensures StatusOf(Next(m, c, step).tasks, id) == StatusOf(m.tasks, id)
  {
    hide StatusOf, Index, Update, UpdateAll, Active;
    match step
    case NewAgent(id', now) => AppendKeeps(m.tasks, NewTask(id', Agent, now).(status := Starting), id);
    case NewBash(id', launched, now) =>
      AppendKeeps(m.tasks, NewTask(id', Bash, now).(status := Starting), id);
      AppendKeeps(m.tasks, NewTask(id', Bash, now).(status := Failed, finishedAt := Some(now)), id);
    case Marking(id', to, now) => UpdateKeeps(m, id', (t: Task) => Mark(t, to, now), id);
    case TimingOut(id', now) => UpdateKeeps(m, id', (t: Task) => MarkTimedOut(t, now), id);
    case Killing(id', now) => UpdateKeeps(m, id', (t: Task) => KillTask(t, now), id);
    case KillingAll(now) => UpdateAllKeeps(m, (t: Task) => KillTask(t, now), id);
    case Recovering(now) => UpdateAllKeeps(m, (t: Task) => RecoverTask(t, m.live, c.staleAfter, now), id);
    case RunnerEnds(_) =>
    case WorkerStarts(id', now) => UpdateOther(m, id', (t: Task) => WorkerStart(t, now), id);
    case WorkerRuns(id', now) => UpdateOther(m, id', (t: Task) => WorkerRun(t, now), id);
    case WorkerBeats(id', now) => UpdateKeeps(m, id', (t: Task) => WorkerBeat(t, now), id);
    case WorkerEnds(id', held, ending, now) => EndKeeps(m, c, step, id);
  }

  lemma UpdateOther(m: Mgr, id: string, f: Task -> Task, other: string)
    requires Index(m.tasks, id) < |m.tasks| && id != other
    requires f(m.tasks[Index(m.tasks, id)]).id == id
    ensures StatusOf(Update(m, id, f).tasks, other) == StatusOf(m.tasks, other)
  {
    SameIds(m.tasks, Update(m, id, f).tasks, other);
  }

  lemma EndKeeps(m: Mgr, c: Config, step: Step, id: string)
    requires Enabled(m, step) && step.WorkerEnds? && !Overwrites(m, step, id) && IsFinished(m.tasks, id)
    ensures StatusOf(Next(m, c, step).tasks, id) == StatusOf(m.tasks, id)
  {
    SameIds(m.tasks, Next(m, c, step).tasks, id);
  }

  /** A step keeps the terminal status of a task exactly if it is not such a write about this task. */
  lemma TerminalStaysIff(m: Mgr, c: Config, step: Step, id: string)
    requires Enabled(m, step) && IsFinished(m.tasks, id)
    ensures StatusOf(Next(m, c, step).tasks, id) == StatusOf(m.tasks, id) <==> !Overwrites(m, step, id)
  {
    hide StatusOf, Next;
    if Overwrites(m, step, id) {
      Overwritten(m, c, step, id);
    } else {
      TerminalStays(m, c, step, id);
    }
  }

  lemma Overwritten(m: Mgr, c: Config, step: Step, id: string)
    requires Enabled(m, step) && Overwrites(m, step, id)
    ensures StatusOf(Next(m, c, step).tasks, id) != StatusOf(m.tasks, id)
  {
    SameIds(m.tasks, Next(m, c, step).tasks, id);
  }

  predicate SameTask(t: Task, t': Task) { t'.id == t.id && t'.kind == t.kind }

  lemma UpdateSameTask(m: Mgr, id: string, f: Task -> Task, other: string, kind: Kind)
    requires var i := Index(m.tasks, id); i < |m.tasks| ==> SameTask(m.tasks[i], f(m.tasks[i]))
    requires IsThere(m, other, kind)
    ensures IsThere(Update(m, id, f), other, kind)
  {
    SameIds(m.tasks, Update(m, id, f).tasks, other);
  }

  lemma UpdateAllSameTask(m: Mgr, f: Task -> Task, other: string, kind: Kind)
    requires forall t :: SameTask(t, f(t))
    requires IsThere(m, other, kind)
    ensures IsThere(UpdateAll(m, f), other, kind)
  {
    var after := UpdateAll(m, f).tasks;
    forall i | 0 <= i < |m.tasks| ensures SameTask(m.tasks[i], after[i]) {
    }
    SameIds(m.tasks, after, other);
  }

  lemma AppendSameTask(m: Mgr, t: Task, live: set<string>, other: string, kind: Kind)
    requires IsThere(m, other, kind)
    ensures IsThere(Mgr(m.tasks + [t], live), other, kind)
  {
    IndexAfterAppend(m.tasks, t, other);
  }

  /** A task keeps its kind. */
  lemma KindStays(m: Mgr, c: Config, step: Step, id: string, kind: Kind)
    requires Enabled(m, step) && IsThere(m, id, kind)
    ensures IsThere(Next(m, c, step), id, kind)
  {
    hide IsThere, Index, Update, UpdateAll, Active;
    match step
    case NewAgent(id', now) => AppendSameTask(m, NewTask(id', Agent, now).(status := Starting), m.live + {id'}, id, kind);
    case NewBash(id', launched, now) =>
      AppendSameTask(m, NewTask(id', Bash, now).(status := Starting), m.live, id, kind);
      AppendSameTask(m, NewTask(id', Bash, now).(status := Failed, finishedAt := Some(now)), m.live, id, kind);
    case Marking(id', to, now) => UpdateSameTask(m, id', (t: Task) => Mark(t, to, now), id, kind);
    case TimingOut(id', now) => UpdateSameTask(m, id', (t: Task) => MarkTimedOut(t, now), id, kind);
    case Killing(id', now) => UpdateSameTask(m, id', (t: Task) => KillTask(t, now), id, kind);
    case KillingAll(now) => UpdateAllSameTask(m, (t: Task) => KillTask(t, now), id, kind);
    case Recovering(now) => UpdateAllSameTask(m, (t: Task) => RecoverTask(t, m.live, c.staleAfter, now), id, kind);
    case RunnerEnds(id') => LiveSameTask(m, m.live - {id'}, id, kind);
    case _ => WorkerKeepsKind(m, c, step, id, kind);
  }

  lemma WorkerKeepsKind(m: Mgr, c: Config, step: Step, id: string, kind: Kind)
    requires IsThere(m, id, kind)
    ensures step.WorkerStarts? || step.WorkerRuns? || step.WorkerBeats? || step.WorkerEnds? ==> IsThere(Next(m, c, step), id, kind)
  {
    hide IsThere, Index, Update, EndStatus;
    match step
    case WorkerStarts(id', now) => UpdateSameTask(m, id', (t: Task) => WorkerStart(t, now), id, kind);
    case WorkerRuns(id', now) => UpdateSameTask(m, id', (t: Task) => WorkerRun(t, now), id, kind);
    case WorkerBeats(id', now) => UpdateSameTask(m, id', (t: Task) => WorkerBeat(t, now), id, kind);
    case WorkerEnds(id', held, ending, now) => UpdateSameTask(m, id', (t: Task) => WorkerEnd(t, held, ending, now), id, kind);
    case _ =>
  }

  lemma LiveSameTask(m: Mgr, live: set<string>, id: string, kind: Kind)
    requires IsThere(m, id, kind)
    ensures IsThere(m.(live := live), id, kind)
  {
  }

  // ----- the limit -----

  function Weight(t: Task): nat { if IsActive(t) then 1 else 0 }

  lemma {:induction false} ActiveUpdate(tasks: seq<Task>, i: nat, t: Task)
    requires i < |tasks|
    ensures Active(tasks[i := t]) == Active(tasks) - Weight(tasks[i]) + Weight(t)
  {
    var n := |tasks| - 1;
    if i < n {
      assert tasks[i := t][..n] == tasks[..n][i := t];
      ActiveUpdate(tasks[..n], i, t);
    } else {
      assert tasks[i := t][..n] == tasks[..n];
    }
  }

  lemma ActiveAppend(tasks: seq<Task>, t: Task)
    ensures Active(tasks + [t]) == Active(tasks) + Weight(t)
  {
    assert (tasks + [t])[..|tasks|] == tasks;
  }

  lemma {:induction false} ActiveFalls(a: seq<Task>, b: seq<Task>)
    requires |a| == |b| && forall i :: 0 <= i < |a| ==> Weight(b[i]) <= Weight(a[i])
    ensures Active(b) <= Active(a)
  {
    if a == [] {
    } else {
      ActiveFalls(a[..|a| - 1], b[..|b| - 1]);
      assert Weight(b[|b| - 1]) <= Weight(a[|a| - 1]);
    }
  }

  /** Whether a worker starts, or starts its command, for a task that is over. */
  predicate Revives(m: Mgr, step: Step) {
    match step
    case WorkerStarts(id, _) => IsFinished(m.tasks, id)
    case WorkerRuns(id, _) => IsFinished(m.tasks, id)
    case _ => false
  }

  /** The limit is kept unless a worker starts for a task that is over when the limit is reached. */
  lemma LimitIff(m: Mgr, c: Config, step: Step)
    requires Enabled(m, step) && Active(m.tasks) <= c.maxRunning
    ensures
      Active(Next(m, c, step).tasks) <= c.maxRunning <==>
      !(Revives(m, step) && Active(m.tasks) == c.maxRunning)
  {
    hide Active, Index;
    var after := Next(m, c, step).tasks;
    match step
    case NewAgent(_, _) => if Active(m.tasks) < c.maxRunning { ActiveAppend(m.tasks, after[|m.tasks|]); }
    case NewBash(_, _, _) => if Active(m.tasks) < c.maxRunning { ActiveAppend(m.tasks, after[|m.tasks|]); }
    case Marking(id, _, _) => ActiveUpdate(m.tasks, Index(m.tasks, id), after[Index(m.tasks, id)]);
    case TimingOut(id, _) => ActiveUpdate(m.tasks, Index(m.tasks, id), after[Index(m.tasks, id)]);
    case Killing(id, _) => ActiveUpdate(m.tasks, Index(m.tasks, id), after[Index(m.tasks, id)]);
    case KillingAll(_) => ActiveFalls(m.tasks, after);
    case Recovering(_) => ActiveFalls(m.tasks, after);
    case RunnerEnds(_) =>
    case WorkerStarts(id, _) => ActiveUpdate(m.tasks, Index(m.tasks, id), after[Index(m.tasks, id)]);
    case WorkerRuns(id, _) => ActiveUpdate(m.tasks, Index(m.tasks, id), after[Index(m.tasks, id)]);
    case WorkerBeats(id, _) => ActiveUpdate(m.tasks, Index(m.tasks, id), after[Index(m.tasks, id)]);
    case WorkerEnds(id, _, _, _) => ActiveUpdate(m.tasks, Index(m.tasks, id), after[Index(m.tasks, id)]);
  }

  // ----- whole runs -----

  ghost predicate Run(states: seq<Mgr>, steps: seq<Step>, c: Config) {
    && |states| == |steps| + 1
    && forall i :: 0 <= i < |steps| ==> Enabled(states[i], steps[i]) && states[i + 1] == Next(states[i], c, steps[i])
  }

  /** The terminal status of a task never changes while no worker writes another one over it. */
  lemma {:induction false} RunKeepsTerminal(states: seq<Mgr>, steps: seq<Step>, c: Config, i: nat, j: nat, id: string)
    requires Run(states, steps, c) && i <= j <= |steps| && IsFinished(states[i].tasks, id)
    requires forall h :: i <= h < j ==> !Overwrites(states[h], steps[h], id)
    ensures StatusOf(states[j].tasks, id) == StatusOf(states[i].tasks, id)
  {
    hide Enabled, Next, Overwrites, StatusOf;
    if i == j {
    } else {
      RunKeepsTerminal(states, steps, c, i, j - 1, id);
      TerminalStays(states[j - 1], c, steps[j - 1], id);
    }
  }

  /** The terminal status of an agent task never changes, whatever the workers do. */
  lemma {:induction false} RunKeepsAgent(states: seq<Mgr>, steps: seq<Step>, c: Config, i: nat, j: nat, id: string)
    requires Run(states, steps, c) && i <= j <= |steps|
    requires IsThere(states[i], id, Agent) && IsFinished(states[i].tasks, id)
    ensures IsThere(states[j], id, Agent) && StatusOf(states[j].tasks, id) == StatusOf(states[i].tasks, id)
  {
    hide Next, StatusOf, Index;
    if i == j {
    } else {
      RunKeepsAgent(states, steps, c, i, j - 1, id);
      KindStays(states[j - 1], c, steps[j - 1], id, Agent);
      TerminalStays(states[j - 1], c, steps[j - 1], id);
    }
  }

  lemma {:induction false} RunKeepsLimit(states: seq<Mgr>, steps: seq<Step>, c: Config, i: nat)
    requires Run(states, steps, c) && i <= |steps|
    requires forall h :: 0 <= h < i ==> !Revives(states[h], steps[h])
    requires Active(states[0].tasks) <= c.maxRunning
    ensures Active(states[i].tasks) <= c.maxRunning
  {
    hide Enabled, Next, Revives, Active;
    if i == 0 {
    } else {
      RunKeepsLimit(states, steps, c, i - 1);
      LimitIff(states[i - 1], c, steps[i - 1]);
    }
  }

  /** After recovery every agent task that is not over has a runner in this process; other agent tasks are as before. */
  lemma RecoverLeavesLive(m: Mgr, c: Config, now: int, i: nat)
    requires i < |m.tasks| && m.tasks[i].kind.Agent?
    ensures
      var was, t := m.tasks[i], Next(m, c, Recovering(now)).tasks[i];
      && (IsActive(t) ==> t.id in m.live)
      && (t != was <==> IsActive(was) && was.id !in m.live)
      && (t != was ==> t.status.Lost? && t.finishedAt == Some(now))
  {
  }

  /** A worker that starts late, after its task was given up, takes the tasks over the limit. */
  lemma LateWorkerBreaksLimit() returns (states: seq<Mgr>, steps: seq<Step>, c: Config)
    ensures Run(states, steps, c) && states[0] == EMPTY
    ensures Active(states[0].tasks) <= c.maxRunning < Active(states[|steps|].tasks)
  {
    hide Active;
    c := Config(1, 10);
    var a, b := NewTask("a", Bash, 1).(status := Starting), NewTask("b", Bash, 100).(status := Starting);
    var lost := a.(status := Lost, finishedAt := Some(100), updatedAt := 100);
    var late := WorkerStart(lost, 101);
    steps := [NewBash("a", true, 1), Recovering(100), NewBash("b", true, 100), WorkerStarts("a", 101)];
    states := [EMPTY, Mgr([a], {}), Mgr([lost], {}), Mgr([lost, b], {}), Mgr([late, b], {})];
    ActiveFew(lost, b, late);
    assert states[1] == Next(states[0], c, steps[0]);
    assert states[2] == Next(states[1], c, steps[1]);
    assert states[3] == Next(states[2], c, steps[2]);
    assert Index([lost, b], "a") == 0;
    assert [lost, b][0 := late] == [late, b];
    assert states[4] == Next(states[3], c, steps[3]);
  }

  lemma ActiveFew(a: Task, b: Task, a': Task)
    ensures Active([]) == 0 && Active([a]) == Weight(a) && Active([a', b]) == Weight(a') + Weight(b)
  {
    ActiveAppend([], a);
    ActiveAppend([], a');
    ActiveAppend([a'], b);
    assert [] + [a] == [a] && [] + [a'] == [a'] && [a'] + [b] == [a', b];
  }
}
