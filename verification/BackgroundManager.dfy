/** The background task manager: it reads, changes and writes back the tasks of its store. */
module BackgroundManager {
  import opened Basics
  import opened B = Background
  import opened C = Reconcile
  import N = Notifications
  import NM = NotificationManager

  datatype Error = NotRoot | NotLocal | NotBound | TooMany | LaunchFailed | NotFound

  class BackgroundManager {
    const config: Config
    const root: bool
    const local: bool
    const bound: bool
    const notifications: NM.NotificationManager
    var tasks: seq<Task>
    var live: set<string>

    constructor (config: Config, root: bool, local: bool, bound: bool, notifications: NM.NotificationManager)
      ensures this.config == config && this.root == root && this.local == local && this.bound == bound
      ensures this.notifications == notifications && Model() == EMPTY
    {
      this.config := config;
      this.root := root;
      this.local := local;
      this.bound := bound;
      this.notifications := notifications;
      tasks := [];
      live := {};
    }

    ghost function Model(): Mgr
      reads this
    {
      Mgr(tasks, live)
    }

    method ActiveTaskCount() returns (n: nat)
      ensures n == Active(tasks)
    {
      n := 0;
      for i := 0 to |tasks|
        invariant n == Active(tasks[..i])
      {
        assert tasks[..i + 1][..i] == tasks[..i];
        if IsActive(tasks[i]) {
          n := n + 1;
        }
      }
      assert tasks[..|tasks|] == tasks;
    }

    /** The new task is written as created, then at once as starting. */
    method CreateAgentTask(id: string, now: int) returns (r: Result<(), Error>)
      modifies `tasks, `live
      ensures r == if !root then Err(NotRoot) else if !local then Err(NotLocal) else if !bound then Err(NotBound)
                   else if old(Active(tasks)) >= config.maxRunning then Err(TooMany) else Ok(())
      ensures Model() == if r.Ok? then CreateAgent(old(Model()), config, id, now) else old(Model())
    {
      hide Active;
      if !root { return Err(NotRoot); }
      if !local { return Err(NotLocal); }
      if !bound { return Err(NotBound); }
      var active := ActiveTaskCount();
      if active >= config.maxRunning { return Err(TooMany); }
      tasks := tasks + [NewTask(id, Agent, now)];
      tasks := tasks[|tasks| - 1 := tasks[|tasks| - 1].(status := Starting, updatedAt := now)];
      live := live + {id};
      assert tasks == old(tasks) + [NewTask(id, Agent, now).(status := Starting)];
      return Ok(());
    }

    method CreateBashTask(id: string, launched: bool, now: int) returns (r: Result<(), Error>)
      modifies `tasks
      ensures r == if !root then Err(NotRoot) else if !local then Err(NotLocal)
                   else if old(Active(tasks)) >= config.maxRunning then Err(TooMany)
                   else if launched then Ok(()) else Err(LaunchFailed)
      ensures Model() == if r.Ok? || r.error.LaunchFailed? then CreateBash(old(Model()), config, id, launched, now) else old(Model())
    {
      hide Active;
      if !root { return Err(NotRoot); }
      if !local { return Err(NotLocal); }
      var active := ActiveTaskCount();
      if active >= config.maxRunning { return Err(TooMany); }
      tasks := tasks + [NewTask(id, Bash, now)];
      var last := |tasks| - 1;
      if !launched {
        tasks := tasks[last := tasks[last].(status := Failed, finishedAt := Some(now), updatedAt := now)];
        assert tasks == old(tasks) + [NewTask(id, Bash, now).(status := Failed, finishedAt := Some(now))];
        return Err(LaunchFailed);
      }
      if tasks[last].finishedAt.None? && tasks[last].status.Created? {
        tasks := tasks[last := tasks[last].(status := Starting, updatedAt := now)];
      }
      assert tasks == old(tasks) + [NewTask(id, Bash, now).(status := Starting)];
      return Ok(());
    }

    method MarkTask(id: string, to: Status, now: int)
      requires Enabled(Model(), Marking(id, to, now))
      modifies `tasks
      ensures Model() == Next(old(Model()), config, Marking(id, to, now))
    {
      var i := Index(tasks, id);
      var t := tasks[i];
      if IsTerminal(t.status) {
        return;
      }
      t := t.(status := to, updatedAt := now);
      if IsTerminal(to) {
        t := t.(finishedAt := Some(now));
        if to.Killed? {
          t := t.(interrupted := true);
        }
      }
      if to.Running? {
        t := t.(heartbeatAt := Some(now));
      }
      tasks := tasks[i := t];
    }

    method MarkTaskTimedOut(id: string, now: int)
      requires Enabled(Model(), TimingOut(id, now))
      modifies `tasks
      ensures Model() == Next(old(Model()), config, TimingOut(id, now))
    {
      var i := Index(tasks, id);
      var t := tasks[i];
      if IsTerminal(t.status) {
        return;
      }
      tasks := tasks[i := t.(status := Failed, updatedAt := now, finishedAt := Some(now), interrupted := true, timedOut := true)];
    }

    method Kill(id: string, now: int) returns (r: Result<(), Error>)
      modifies `tasks
      ensures r == if !root then Err(NotRoot) else if old(Index(tasks, id)) == |old(tasks)| then Err(NotFound) else Ok(())
      ensures Model() == if r.Ok? then Next(old(Model()), config, Killing(id, now)) else old(Model())
    {
      if !root { return Err(NotRoot); }
      var i := Index(tasks, id);
      if i == |tasks| { return Err(NotFound); }
      if IsTerminal(tasks[i].status) {
        return Ok(());
      }
      if tasks[i].kind.Agent? {
        MarkTask(id, Killed, now);
      } else {
        tasks := tasks[i := tasks[i].(killRequested := true)];
      }
      return Ok(());
    }

    method Recover(now: int)
      modifies `tasks
      ensures Model() == Next(old(Model()), config, Recovering(now))
    {
      hide RecoverTask;
      ghost var was := tasks;
      for i := 0 to |tasks|
        invariant |tasks| == |was|
        invariant forall j :: 0 <= j < i ==> tasks[j] == RecoverTask(was[j], live, config.staleAfter, now)
        invariant forall j :: i <= j < |was| ==> tasks[j] == was[j]
      {
        var t := RecoverOne(tasks[i], now);
        tasks := tasks[i := t];
      }
      assert tasks == Next(old(Model()), config, Recovering(now)).tasks;
    }

    method RecoverOne(t: Task, now: int) returns (t': Task)
      ensures t' == RecoverTask(t, live, config.staleAfter, now)
    {
      if IsTerminal(t.status) {
        return t;
      }
      if t.kind.Agent? {
        if t.id in live {
          return t;
        }
        return t.(finishedAt := Some(now), updatedAt := now, status := Lost);
      }
      if now - LastProgress(t) <= config.staleAfter {
        return t;
      }
      t' := t.(finishedAt := Some(now), updatedAt := now);
      if t.killRequested {
        t' := t'.(status := Killed, interrupted := true);
      } else {
        t' := t'.(status := Lost);
      }
    }

    method PublishTerminalNotifications(limit: Option<int>, draws: seq<Draw>) returns (published: seq<int>)
      requires |draws| == |ListViews(tasks)|
      modifies notifications
      ensures (notifications.notes, published) == PublishTerminal(ListViews(tasks), old(notifications.notes), limit, draws)
    {
      hide ListViews, PublishTerminal, EventOf, N.Publish;
      published := [];
      var views := ListViews(tasks);
      ghost var want := PublishTerminal(views, notifications.notes, limit, draws);
      var i, done := 0, false;
      PublishStart(views, notifications.notes, limit, draws);
      while i < |views| && !done
        invariant i <= |views| && tasks == old(tasks)
        invariant !done ==>
          want == Prepend(published, PublishTerminal(views[i..], notifications.notes, Left(limit, published), draws[i..]))
        invariant done ==> want == (notifications.notes, published)
        decreases |views| - i, !done
      {
        PublishStep(views, i, notifications.notes, limit, published, draws);
        if !IsActive(views[i]) {
          var n := notifications.Publish(EventOf(views[i], draws[i]));
          if n.event.id == draws[i].id {
            published := published + [draws[i].id];
          }
          done := limit.Some? && |published| >= limit.value;
        }
        i := i + 1;
      }
      if !done { PublishEnd(views, notifications.notes, limit, published, draws); }
    }

    method Reconcile(limit: Option<int>, now: int, draws: seq<Draw>) returns (published: seq<int>)
      requires |draws| == |ListViews(Next(Model(), config, Recovering(now)).tasks)|
      modifies `tasks, notifications
      ensures (Model(), notifications.notes, published) == Reconciled(old(Model()), config, old(notifications.notes), limit, now, draws)
    {
      hide ListViews, PublishTerminal, B.Next;
      Recover(now);
      published := PublishTerminalNotifications(limit, draws);
    }
  }

  ghost function Left(limit: Option<int>, published: seq<int>): Option<int> {
    if limit.Some? then Some(limit.value - |published|) else None
  }

  ghost function Prepend(published: seq<int>, r: (seq<N.Note>, seq<int>)): (seq<N.Note>, seq<int>) {
    (r.0, published + r.1)
  }

  lemma PublishStart(views: seq<Task>, notes: seq<N.Note>, limit: Option<int>, draws: seq<Draw>)
    requires |draws| == |views|
    ensures PublishTerminal(views, notes, limit, draws) ==
            Prepend([], PublishTerminal(views[0..], notes, Left(limit, []), draws[0..]))
  {
    assert views[0..] == views && draws[0..] == draws;
    var r := PublishTerminal(views, notes, limit, draws);
    assert [] + r.1 == r.1;
  }

  lemma PublishEnd(views: seq<Task>, notes: seq<N.Note>, limit: Option<int>, published: seq<int>, draws: seq<Draw>)
    requires |draws| == |views|
    ensures Prepend(published, PublishTerminal(views[|views|..], notes, Left(limit, published), draws[|views|..])) == (notes, published)
  {
    assert published + [] == published;
  }

  lemma PublishStep(views: seq<Task>, i: nat, notes: seq<N.Note>, limit: Option<int>, published: seq<int>, draws: seq<Draw>)
    requires i < |views| == |draws|
    ensures
      var r := Prepend(published, PublishTerminal(views[i..], notes, Left(limit, published), draws[i..]));
      var (notes1, n) := N.Publish(notes, EventOf(views[i], draws[i]));
      var published1 := if n.event.id == draws[i].id then published + [draws[i].id] else published;
      r == if IsActive(views[i]) then Prepend(published, PublishTerminal(views[i + 1..], notes, Left(limit, published), draws[i + 1..]))
           else if limit.Some? && |published1| >= limit.value then (notes1, published1)
           else Prepend(published1, PublishTerminal(views[i + 1..], notes1, Left(limit, published1), draws[i + 1..]))
  {
    hide N.Publish, EventOf;
    assert views[i..][1..] == views[i + 1..] && draws[i..][1..] == draws[i + 1..];
    var (notes1, n) := N.Publish(notes, EventOf(views[i], draws[i]));
    var new' := if n.event.id == draws[i].id then [draws[i].id] else [];
    var published1 := published + new';
    assert published + [] == published;
    var later := PublishTerminal(views[i + 1..], notes1, Left(limit, published1), draws[i + 1..]).1;
    assert published + (new' + later) == published1 + later;
  }
}
