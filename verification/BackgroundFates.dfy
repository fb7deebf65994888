/** Why a background task ended as it did, and what a request to kill one comes to. */
module BackgroundFates {
  import opened Basics
  import opened Background

  function TaskOf(m: Mgr, id: string): Option<Task> {
    var i := Index(m.tasks, id);
    if i == |m.tasks| then None else Some(m.tasks[i])
  }

  /** What a step writes about a task that is there. */
  function Written(m: Mgr, c: Config, step: Step, t: Task): Task {
    match step
    case Marking(id, to, now) => if id == t.id then Mark(t, to, now) else t
    case TimingOut(id, now) => if id == t.id then MarkTimedOut(t, now) else t
    case Killing(id, now) => if id == t.id then KillTask(t, now) else t
    case KillingAll(now) => KillTask(t, now)
    case Recovering(now) => RecoverTask(t, m.live, c.staleAfter, now)
    case WorkerStarts(id, now) => if id == t.id then WorkerStart(t, now) else t
    case WorkerRuns(id, now) => if id == t.id then WorkerRun(t, now) else t
    case WorkerBeats(id, now) => if id == t.id then WorkerBeat(t, now) else t
    case WorkerEnds(id, held, ending, now) => if id == t.id then WorkerEnd(t, held, ending, now) else t
    case _ => t
  }

  lemma UpdateTask(m: Mgr, id: string, f: Task -> Task, other: string)
    requires Index(m.tasks, id) < |m.tasks| ==> f(m.tasks[Index(m.tasks, id)]).id == id
    requires TaskOf(m, other).Some?
    ensures TaskOf(Update(m, id, f), other) == Some(if id == other then f(TaskOf(m, other).value) else TaskOf(m, other).value)
  {
    SameIds(m.tasks, Update(m, id, f).tasks, other);
  }

  lemma UpdateEveryTask(m: Mgr, f: Task -> Task, other: string)
    requires forall t :: f(t).id == t.id
    requires TaskOf(m, other).Some?
    ensures TaskOf(UpdateAll(m, f), other) == Some(f(TaskOf(m, other).value))
  {
    var after := UpdateAll(m, f).tasks;
    forall i | 0 <= i < |m.tasks| ensures after[i].id == m.tasks[i].id {
      assert f(m.tasks[i]).id == m.tasks[i].id;
    }
    SameIds(m.tasks, after, other);
  }

  lemma AppendTask(m: Mgr, t: Task, live: set<string>, other: string)
    requires TaskOf(m, other).Some?
    ensures TaskOf(Mgr(m.tasks + [t], live), other) == TaskOf(m, other)
  {
    IndexAfterAppend(m.tasks, t, other);
  }

  lemma StepWrites(m: Mgr, c: Config, step: Step, id: string)
    requires Enabled(m, step) && TaskOf(m, id).Some?
    ensures TaskOf(Next(m, c, step), id) == Some(Written(m, c, step, TaskOf(m, id).value))
  {
    hide Update, UpdateAll, Active, WorkerStart, WorkerRun, WorkerBeat, WorkerEnd, Index;
    match step
    case NewAgent(id', now) => AppendTask(m, NewTask(id', Agent, now).(status := Starting), m.live + {id'}, id);
    case NewBash(id', launched, now) =>
      AppendTask(m, NewTask(id', Bash, now).(status := Starting), m.live, id);
      AppendTask(m, NewTask(id', Bash, now).(status := Failed, finishedAt := Some(now)), m.live, id);
    case Marking(id', to, now) => UpdateTask(m, id', (t: Task) => Mark(t, to, now), id);
    case TimingOut(id', now) => UpdateTask(m, id', (t: Task) => MarkTimedOut(t, now), id);
    case Killing(id', now) => UpdateTask(m, id', (t: Task) => KillTask(t, now), id);
    case KillingAll(now) => UpdateEveryTask(m, (t: Task) => KillTask(t, now), id);
    case Recovering(now) => UpdateEveryTask(m, (t: Task) => RecoverTask(t, m.live, c.staleAfter, now), id);
    case RunnerEnds(_) => SameTasks(m, m.(live := m.live - {step.id}), id);
    case _ => WorkerWrites(m, c, step, id);
  }

  lemma SameTasks(m: Mgr, m': Mgr, id: string)
    requires m.tasks == m'.tasks
    ensures TaskOf(m', id) == TaskOf(m, id)
  {
  }

  lemma WorkerWrites(m: Mgr, c: Config, step: Step, id: string)
    requires TaskOf(m, id).Some?
    requires step.WorkerStarts? || step.WorkerRuns? || step.WorkerBeats? || step.WorkerEnds?
    ensures TaskOf(Next(m, c, step), id) == Some(Written(m, c, step, TaskOf(m, id).value))
  {
    hide Update;
    match step
    case WorkerStarts(id', now) => UpdateTask(m, id', (t: Task) => WorkerStart(t, now), id);
    case WorkerRuns(id', now) => UpdateTask(m, id', (t: Task) => WorkerRun(t, now), id);
    case WorkerBeats(id', now) => UpdateTask(m, id', (t: Task) => WorkerBeat(t, now), id);
    case WorkerEnds(id', held, ending, now) => UpdateTask(m, id', (t: Task) => WorkerEnd(t, held, ending, now), id);
  }

  lemma UpdateNone(m: Mgr, id: string, f: Task -> Task, other: string)
    requires Index(m.tasks, id) < |m.tasks| ==> f(m.tasks[Index(m.tasks, id)]).id == id
    requires TaskOf(m, other).None?
    ensures TaskOf(Update(m, id, f), other).None?
  {
    SameIds(m.tasks, Update(m, id, f).tasks, other);
  }

  lemma UpdateAllNone(m: Mgr, f: Task -> Task, other: string)
    requires (forall t :: f(t).id == t.id) && TaskOf(m, other).None?
    ensures TaskOf(UpdateAll(m, f), other).None?
  {
    var after := UpdateAll(m, f).tasks;
    forall i | 0 <= i < |m.tasks| ensures after[i].id == m.tasks[i].id {
      assert f(m.tasks[i]).id == m.tasks[i].id;
    }
    SameIds(m.tasks, after, other);
  }

  lemma OthersCreateNothing(m: Mgr, c: Config, step: Step, id: string)
    requires Enabled(m, step) && TaskOf(m, id).None? && !step.NewAgent? && !step.NewBash?
    ensures TaskOf(Next(m, c, step), id).None?
  {
    hide Update, UpdateAll, Active, Index, WorkerStart, WorkerRun, WorkerBeat, WorkerEnd;
    match step
    case Marking(id', to, now) => UpdateNone(m, id', (t: Task) => Mark(t, to, now), id);
    case TimingOut(id', now) => UpdateNone(m, id', (t: Task) => MarkTimedOut(t, now), id);
    case Killing(id', now) => UpdateNone(m, id', (t: Task) => KillTask(t, now), id);
    case KillingAll(now) => UpdateAllNone(m, (t: Task) => KillTask(t, now), id);
    case Recovering(now) => UpdateAllNone(m, (t: Task) => RecoverTask(t, m.live, c.staleAfter, now), id);
    case RunnerEnds(_) => SameTasks(m, m.(live := m.live - {step.id}), id);
    case _ => WorkersCreateNothing(m, c, step, id);
  }

  lemma WorkersCreateNothing(m: Mgr, c: Config, step: Step, id: string)
    requires TaskOf(m, id).None?
    requires step.WorkerStarts? || step.WorkerRuns? || step.WorkerBeats? || step.WorkerEnds?
    ensures TaskOf(Next(m, c, step), id).None?
  {
    hide Update;
    match step
    case WorkerStarts(id', now) => UpdateNone(m, id', (t: Task) => WorkerStart(t, now), id);
    case WorkerRuns(id', now) => UpdateNone(m, id', (t: Task) => WorkerRun(t, now), id);
    case WorkerBeats(id', now) => UpdateNone(m, id', (t: Task) => WorkerBeat(t, now), id);
    case WorkerEnds(id', held, ending, now) => UpdateNone(m, id', (t: Task) => WorkerEnd(t, held, ending, now), id);
  }

  /** A task that was not there comes from its creation. */
  lemma StepCreates(m: Mgr, c: Config, step: Step, id: string)
    requires Enabled(m, step) && TaskOf(m, id).None? && TaskOf(Next(m, c, step), id).Some?
    ensures step.NewAgent? || step.NewBash?
    ensures step.id == id
    ensures
      var t := TaskOf(Next(m, c, step), id).value;
      && t.id == id && !t.killRequested
      && t.status == if step.NewBash? && !step.launched then Failed else Starting
  {
    hide Active;
    if !step.NewAgent? && !step.NewBash? {
      OthersCreateNothing(m, c, step, id);
    } else if step.NewAgent? {
      IndexAfterAppend(m.tasks, NewTask(step.id, Agent, step.now).(status := Starting), id);
    } else {
      IndexAfterAppend(m.tasks, NewTask(step.id, Bash, step.now).(status := Starting), id);
      IndexAfterAppend(m.tasks, NewTask(step.id, Bash, step.now).(status := Failed, finishedAt := Some(step.now)), id);
    }
  }

  // ----- why a task ended -----

  /** The step asks for the end of the task. */
  predicate AsksToKill(step: Step, id: string) {
    match step
    case Killing(id', _) => id' == id
    case KillingAll(_) => true
    case _ => false
  }

  /** The steps that a terminal status of the task can go back to. */
  predicate Causes(step: Step, id: string, status: Status) {
    match status
    case Completed =>
      (step.Marking? && step.id == id && step.to.Completed?) || (step.WorkerEnds? && step.id == id && step.ending == Exited(true))
    case Failed =>
      || (step.Marking? && step.id == id && step.to.Failed?)
      || (step.TimingOut? && step.id == id)
      || (step.NewBash? && step.id == id && !step.launched)
      || (step.WorkerEnds? && step.id == id && step.ending != Exited(true))
    case Killed => AsksToKill(step, id) || (step.Marking? && step.id == id && step.to.Killed?)
    case Lost => step.Recovering?
    case _ => true
  }

  ghost predicate CausedBefore(steps: seq<Step>, n: nat, id: string, status: Status) {
    exists h :: 0 <= h < n <= |steps| && Causes(steps[h], id, status)
  }

  ghost predicate AskedBefore(steps: seq<Step>, n: nat, id: string) {
    exists h :: 0 <= h < n <= |steps| && AsksToKill(steps[h], id)
  }

  ghost predicate Accounted(steps: seq<Step>, n: nat, t: Task) {
    && (IsTerminal(t.status) ==> CausedBefore(steps, n, t.id, t.status))
    && (t.killRequested ==> AskedBefore(steps, n, t.id))
  }

  lemma WriteIsCaused(m: Mgr, c: Config, step: Step, t: Task)
    requires Enabled(m, step)
    ensures
      var t' := Written(m, c, step, t);
      && t'.id == t.id
      && (t'.killRequested ==> t.killRequested || AsksToKill(step, t.id))
      && (t'.status == t.status || !IsTerminal(t'.status) || Causes(step, t.id, t'.status) || (t'.status.Killed? && t.killRequested))
  {
  }

  lemma AskedCauses(steps: seq<Step>, n: nat, id: string)
    requires AskedBefore(steps, n, id)
    ensures CausedBefore(steps, n, id, Killed)
  {
    var h :| 0 <= h < n <= |steps| && AsksToKill(steps[h], id);
    assert Causes(steps[h], id, Killed);
  }

  lemma AccountedStep(m: Mgr, c: Config, steps: seq<Step>, n: nat, t: Task)
    requires n < |steps| && Enabled(m, steps[n]) && Accounted(steps, n, t)
    ensures Accounted(steps, n + 1, Written(m, c, steps[n], t))
  {
    hide Written, Causes, AsksToKill;
    WriteIsCaused(m, c, steps[n], t);
    if t.killRequested { AskedCauses(steps, n, t.id); }
  }

  /**
   In every run from the empty manager: a task is killed, or asked to stop, only after somebody asked for it, completed only
   when its runner or the exit of its command said so, lost only by a recovery, and failed only for one of the four reasons.
   */
  lemma {:induction false} EveryEndHasACause(states: seq<Mgr>, steps: seq<Step>, c: Config, i: nat, id: string)
    requires Run(states, steps, c) && states[0] == EMPTY && i <= |steps|
    ensures TaskOf(states[i], id).Some? ==> TaskOf(states[i], id).value.id == id && Accounted(steps, i, TaskOf(states[i], id).value)
  {
    hide Enabled, Next, Written, Accounted;
    if i > 0 {
      EveryEndHasACause(states, steps, c, i - 1, id);
      if TaskOf(states[i - 1], id).Some? {
        StepWrites(states[i - 1], c, steps[i - 1], id);
        AccountedStep(states[i - 1], c, steps, i - 1, TaskOf(states[i - 1], id).value);
      } else if TaskOf(states[i], id).Some? {
        StepCreates(states[i - 1], c, steps[i - 1], id);
        assert Accounted(steps, i, TaskOf(states[i], id).value) by { NewIsAccounted(steps, i - 1, TaskOf(states[i], id).value); }
      }
    }
  }

  lemma NewIsAccounted(steps: seq<Step>, n: nat, t: Task)
    requires n < |steps| && (steps[n].NewAgent? || steps[n].NewBash?) && steps[n].id == t.id && !t.killRequested
    requires t.status == if steps[n].NewBash? && !steps[n].launched then Failed else Starting
    ensures Accounted(steps, n + 1, t)
  {
    assert IsTerminal(t.status) ==> Causes(steps[n], t.id, t.status);
  }

  // ----- what a request to kill comes to -----

  /** An active agent task is killed at once; a bash task is asked to stop, and stays what it is. */
  lemma KillNow(m: Mgr, c: Config, id: string, now: int)
    requires TaskOf(m, id).Some?
    ensures
      var t, t' := TaskOf(m, id).value, TaskOf(Next(m, c, Killing(id, now)), id);
      t' == Some(
        if t.status in {Completed, Failed, Killed, Lost} then t
        else if t.kind.Bash? then t.(killRequested := true)
        else t.(status := Killed, finishedAt := Some(now), updatedAt := now, interrupted := true))
  {
    StepWrites(m, c, Killing(id, now), id);
  }

  /** Once asked to stop, a task stays asked, in every run. */
  lemma {:induction false} KillStays(states: seq<Mgr>, steps: seq<Step>, c: Config, i: nat, j: nat, id: string)
    requires Run(states, steps, c) && i <= j <= |steps|
    requires TaskOf(states[i], id).Some? && TaskOf(states[i], id).value.killRequested
    ensures TaskOf(states[j], id).Some? && TaskOf(states[j], id).value.killRequested
  {
    hide Enabled, Next, Mark, MarkTimedOut;
    if i < j {
      KillStays(states, steps, c, i, j - 1, id);
      StepWrites(states[j - 1], c, steps[j - 1], id);
      StillAsked(states[j - 1], c, steps[j - 1], TaskOf(states[j - 1], id).value);
    }
  }

  lemma StillAsked(m: Mgr, c: Config, step: Step, t: Task)
    requires t.killRequested
    ensures Written(m, c, step, t).killRequested
  {
  }

  /** Then, however much later, its worker's end leaves it killed, unless the worker timed out or broke down. */
  lemma KilledInTheEnd(states: seq<Mgr>, steps: seq<Step>, c: Config, i: nat, j: nat, id: string)
    requires Run(states, steps, c) && i <= j < |steps|
    requires TaskOf(states[i], id).Some? && TaskOf(states[i], id).value.killRequested
    requires steps[j].WorkerEnds? && steps[j].id == id
    ensures
      var t := TaskOf(states[j + 1], id);
      t.Some? && t.value.status == if steps[j].ending.Early? || steps[j].ending.Exited? then Killed else Failed
  {
    KillStays(states, steps, c, i, j, id);
    StepWrites(states[j], c, steps[j], id);
  }

  // ----- when a bash task counts as lost -----

  /** The time at which the task was last heard of: zeros do not count. */
  predicate HeardAt(t: Task, at: int) {
    if t.heartbeatAt.Some? && t.heartbeatAt != Some(0) then t.heartbeatAt == Some(at)
    else if t.startedAt.Some? && t.startedAt != Some(0) then t.startedAt == Some(at)
    else if t.updatedAt != 0 then t.updatedAt == at
    else t.createdAt == at
  }

  /** Recovery leaves a bash task alone if and only if it is over or was heard of recently; otherwise it is killed if asked to stop, else lost. */
  lemma RecoverBashIff(m: Mgr, c: Config, id: string, now: int, at: int)
    requires TaskOf(m, id).Some? && TaskOf(m, id).value.kind.Bash? && HeardAt(TaskOf(m, id).value, at)
    ensures
      var t, t' := TaskOf(m, id).value, TaskOf(Next(m, c, Recovering(now)), id);
      && t'.Some?
      && (t'.value == t <==> t.status in {Completed, Failed, Killed, Lost} || now <= at + c.staleAfter)
      && (t'.value != t ==> t'.value.finishedAt == Some(now) && t'.value.status == if t.killRequested then Killed else Lost)
  {
    StepWrites(m, c, Recovering(now), id);
  }

  /** A worker whose heart beats within the limit is never given up. */
  lemma BeatingSurvives(m: Mgr, c: Config, id: string, beat: int, now: int)
    requires IsThere(m, id, Bash) && TaskOf(m, id).value.finishedAt.None? && beat != 0 && now <= beat + c.staleAfter
    ensures
      var m1 := Next(m, c, WorkerBeats(id, beat));
      TaskOf(Next(m1, c, Recovering(now)), id) == TaskOf(m1, id)
  {
    hide Next;
    StepWrites(m, c, WorkerBeats(id, beat), id);
    var m1 := Next(m, c, WorkerBeats(id, beat));
    StepWrites(m1, c, Recovering(now), id);
  }

  // ----- what a marking leaves -----

  /** A runner's word about an active agent task is what it says; its timeout is a failure. */
  lemma MarkedAs(m: Mgr, c: Config, id: string, to: Status, now: int)
    requires Enabled(m, Marking(id, to, now)) && TaskOf(m, id).Some? && IsActive(TaskOf(m, id).value)
    ensures
      var was := TaskOf(m, id).value;
      var t, t' := TaskOf(Next(m, c, Marking(id, to, now)), id), TaskOf(Next(m, c, TimingOut(id, now)), id);
      && t.Some? && t.value.status == to && t.value.updatedAt == now
      && (t.value.finishedAt == Some(now) <== to in {Completed, Failed, Killed})
      && t'.Some? && t'.value.status.Failed? && t'.value.timedOut && t'.value.interrupted && t'.value.finishedAt == Some(now)
      && (t.value.interrupted <==> was.interrupted || to == Killed) && (t.value.timedOut <==> was.timedOut)
  {
    StepWrites(m, c, Marking(id, to, now), id);
    StepWrites(m, c, TimingOut(id, now), id);
  }

  /** The end of a worker: its timeouts and breakdowns are failures, else a request to kill decides, else the command. */
  lemma WorkerEndsAs(m: Mgr, c: Config, id: string, held: Task, ending: Ending, now: int)
    requires IsThere(m, id, Bash)
    ensures
      var t, t' := TaskOf(m, id).value, TaskOf(Next(m, c, WorkerEnds(id, held, ending, now)), id);
      && t'.Some? && t'.value.finishedAt == Some(now) && t'.value.startedAt == held.startedAt
      && (t'.value.timedOut <==> held.timedOut || ending.TimedOut?)
      && (t'.value.interrupted <==> held.interrupted || ending.TimedOut? || t'.value.status == Killed)
      && (t'.value.status == Failed <==> ending.TimedOut? || ending.Broken? || (!t.killRequested && ending != Exited(true)))
      && (t'.value.status == Killed <==> t.killRequested && (ending.Early? || ending.Exited?))
      && (t'.value.status == Completed <==> !t.killRequested && ending == Exited(true))
  {
    StepWrites(m, c, WorkerEnds(id, held, ending, now), id);
  }

  /** On its way there it is starting, and running once its command is. */
  lemma WorkerGoesOn(m: Mgr, c: Config, id: string, now: int)
    requires IsThere(m, id, Bash)
    ensures
      var t, t' := TaskOf(Next(m, c, WorkerStarts(id, now)), id), TaskOf(Next(m, c, WorkerRuns(id, now)), id);
      && t.Some? && t.value.status == Starting && t.value.startedAt == t.value.heartbeatAt == Some(now)
      && t'.Some? && t'.value.status == Running && t'.value.heartbeatAt == Some(now)
  {
    StepWrites(m, c, WorkerStarts(id, now), id);
    StepWrites(m, c, WorkerRuns(id, now), id);
  }

  // ----- runners -----

  lemma LiveStays(m: Mgr, c: Config, step: Step, id: string)
    requires Enabled(m, step) && id in m.live && step != RunnerEnds(id)
    ensures id in Next(m, c, step).live
  {
    hide Active, Index;
  }

  /** A new agent task is starting and has a runner; as long as that has not ended, no recovery gives the task up. */
  lemma {:induction false} RunnersProtect(states: seq<Mgr>, steps: seq<Step>, c: Config, i: nat, j: nat, id: string)
    requires Run(states, steps, c) && i < j <= |steps| && steps[i].NewAgent? && steps[i].id == id
    requires Active(states[i].tasks) < c.maxRunning
    requires forall h :: i < h < j ==> steps[h] != RunnerEnds(id)
    ensures id in states[j].live && TaskOf(states[j], id).Some? && TaskOf(states[j], id).value.kind.Agent?
    ensures TaskOf(states[j], id).value.status != Lost
    ensures j == i + 1 ==> TaskOf(states[j], id).value.status == Starting
  {
    hide Enabled, Next, Active;
    if j == i + 1 {
      NewAgentRuns(states[i], c, steps[i]);
    } else {
      RunnersProtect(states, steps, c, i, j - 1, id);
      var m, step := states[j - 1], steps[j - 1];
      LiveStays(m, c, step, id);
      StepWrites(m, c, step, id);
      NotLost(m, c, step, TaskOf(m, id).value);
    }
  }

  lemma NewAgentRuns(m: Mgr, c: Config, step: Step)
    requires Enabled(m, step) && step.NewAgent? && Active(m.tasks) < c.maxRunning
    ensures
      var m' := Next(m, c, step);
      step.id in m'.live && TaskOf(m', step.id) == Some(NewTask(step.id, Agent, step.now).(status := Starting))
  {
    hide Active;
    IndexAfterAppend(m.tasks, NewTask(step.id, Agent, step.now).(status := Starting), step.id);
  }

  lemma NotLost(m: Mgr, c: Config, step: Step, t: Task)
    requires Enabled(m, step) && t.kind.Agent? && t.status != Lost && t.id in m.live && TaskOf(m, t.id) == Some(t)
    ensures Written(m, c, step, t).kind.Agent? && Written(m, c, step, t).status != Lost
  {
  }

  /** Once its runner has ended, the next recovery gives up an agent task that is still active. */
  lemma RunnerGone(m: Mgr, c: Config, id: string, now: int)
    requires TaskOf(m, id).Some? && TaskOf(m, id).value.kind.Agent? && IsActive(TaskOf(m, id).value)
    ensures
      var t := TaskOf(Next(Next(m, c, RunnerEnds(id)), c, Recovering(now)), id);
      t.Some? && t.value.status == Lost && t.value.finishedAt == Some(now)
  {
    hide UpdateAll;
    StepWrites(m, c, RunnerEnds(id), id);
    StepWrites(Next(m, c, RunnerEnds(id)), c, Recovering(now), id);
  }
}
