/**
 Repeated tool calls: within a step a repeated call shares the result of the first, and over the
 steps a streak of equal calls first draws reminders and in the end stops the turn.
 */
module Toolset {
  import opened Basics
  import J = Json

  /** A tool and the canonical form of its arguments. */
  datatype Key = Key(tool: string, args: J.Json)

  function Normalize(call: Key): Key { call.(args := J.Sort(call.args)) }

  function NormalizeAll(calls: seq<Key>): (r: seq<Key>)
    ensures |r| == |calls| && forall i :: 0 <= i < |calls| ==> r[i] == Normalize(calls[i])
  {
    seq(|calls|, i requires 0 <= i < |calls| => Normalize(calls[i]))
  }

  /** Two calls have one key when they name one tool and their arguments are equal up to the order of fields. */
  lemma KeyIff(a: Key, b: Key)
    requires J.Valid(a.args) && J.Valid(b.args)
    ensures Normalize(a) == Normalize(b) <==> a.tool == b.tool && J.Same(a.args, b.args)
    ensures IsCanonical(Normalize(a))
  {
    hide J.Sort, J.Same, J.Valid;
    J.CanonicalIff(a.args, b.args);
    J.SortIsIdempotent(a.args);
  }

  datatype Action = NoAction | Remind1 | Remind2 | Remind3 | Stop

  function ActionFor(streak: int): Action {
    if streak >= 12 then Stop
    else if streak >= 8 then Remind3
    else if streak >= 5 then Remind2
    else if streak >= 3 then Remind1
    else NoAction
  }

  /** The key of the streak and its length. */
  datatype Streak = Streak(key: Option<Key>, count: int)

  const NO_STREAK := Streak(None, 0)

  function Extend(s: Streak, call: Key): Streak {
    if s.key == Some(call) then s.(count := s.count + 1) else Streak(Some(call), 1)
  }

  function Advance(s: Streak, calls: seq<Key>): Streak {
    if calls == [] then s else Extend(Advance(s, calls[..|calls| - 1]), calls[|calls| - 1])
  }

  /** started holds the calls that a task was started for. */
  datatype Tools = Tools(
    previous: seq<Key>, current: seq<Key>, started: seq<Key>, seen: set<Key>, streak: Streak,
    closed: bool, dedupTriggered: bool, forceStop: bool)

  const FRESH := Tools([], [], [], {}, NO_STREAK, false, false, false)

  function Calls(s: seq<Key>): set<Key> { set k | k in s }

  function Begin(t: Tools, previousCalls: seq<Key>): Tools {
    var previous := NormalizeAll(previousCalls);
    if previous == [] then FRESH
    else Tools(previous, [], [], t.seen + Calls(previous),
               if t.streak == NO_STREAK then Advance(t.streak, previous) else t.streak, false, false, false)
  }

  function End(t: Tools): Tools {
    if t.closed then t
    else t.(streak := Advance(t.streak, t.current), seen := t.seen + Calls(t.current), closed := true)
  }

  /** What happens to a call: it shares a result, or it is started, with what its streak demands. */
  datatype Outcome = SameStep | Started(action: Action)

  function Projected(t: Tools, i: nat): int
    requires i < |t.current|
  {
    Advance(t.streak, t.current[..i + 1]).count
  }

  function Handle(t: Tools, call: Key): (Tools, Outcome) {
    var t1 := t.(current := t.current + [call]);
    if call in t.started then (t1, SameStep)
    else if call !in t.seen then (t1.(started := t.started + [call]), Started(NoAction))
    else
      var action := ActionFor(Projected(t1, |t.current|));
      (t1.(started := t.started + [call], dedupTriggered := true, forceStop := t.forceStop || action.Stop?), Started(action))
  }

  // ----- the length of a run -----

  /** The number of equal calls at the end of a history. */
  function RunLength(h: seq<Key>): nat {
    if h == [] then 0
    else if |h| == 1 || h[|h| - 1] != h[|h| - 2] then 1
    else 1 + RunLength(h[..|h| - 1])
  }

  /** What the length of the run means. */
  lemma {:induction false} RunLengthIs(h: seq<Key>)
    requires h != []
    ensures 1 <= RunLength(h) <= |h|
    ensures forall i :: |h| - RunLength(h) <= i < |h| ==> h[i] == h[|h| - 1]
    ensures RunLength(h) < |h| ==> h[|h| - RunLength(h) - 1] != h[|h| - 1]
  {
    if |h| > 1 && h[|h| - 1] == h[|h| - 2] { RunLengthIs(h[..|h| - 1]); }
  }

  predicate StreakIs(s: Streak, h: seq<Key>) {
    s.count == RunLength(h) && s.key == if h == [] then None else Some(h[|h| - 1])
  }

  /** The counter that goes from call to call counts the run at the end of the whole history. */
  lemma {:induction false} AdvanceCountsRun(s: Streak, h: seq<Key>, calls: seq<Key>)
    requires StreakIs(s, h)
    ensures StreakIs(Advance(s, calls), h + calls)
  {
    if calls == [] {
      assert h + calls == h;
    } else {
      var n := |calls| - 1;
      AdvanceCountsRun(s, h, calls[..n]);
      assert (h + calls)[..|h + calls| - 1] == h + calls[..n];
    }
  }

  // ----- every run of steps -----

  /** base is the history before the step; last is what the caller will hand to the next step. */
  datatype Sys = Sys(tools: Tools, base: seq<Key>, last: seq<Key>, open: bool)

  const START := Sys(FRESH, [], [], false)

  /**
   A step that failed is begun again without having ended. Forget drops the last calls, as going back in
   time does, and a new turn, be it after a step that failed.
   */
  datatype Event = BeginStep | Call(call: Key) | EndStep | Forget

  predicate IsCanonical(k: Key) { Normalize(k) == k }

  predicate Enabled(s: Sys, e: Event) {
    match e
    case BeginStep => true
    case Call(call) => s.open && IsCanonical(call)
    case EndStep => s.open
    case Forget => true
  }

  /** All calls recorded since the last step that began without previous calls. */
  function History(s: Sys): seq<Key> { if s.tools.closed then s.base + s.tools.current else s.base }

  function Next(s: Sys, e: Event): Sys {
    match e
    case BeginStep => Sys(Begin(s.tools, s.last), if s.last == [] then [] else History(s), s.last, true)
    case Call(call) => s.(tools := Handle(s.tools, call).0)
    case EndStep => s.(tools := End(s.tools), last := s.tools.current, open := false)
    case Forget => s.(last := [])
  }

  ghost predicate Run(states: seq<Sys>, events: seq<Event>) {
    && |states| == |events| + 1
    && forall i :: 0 <= i < |events| ==> Enabled(states[i], events[i]) && states[i + 1] == Next(states[i], events[i])
  }

  predicate AllCanonical(calls: seq<Key>) { forall i :: 0 <= i < |calls| ==> IsCanonical(calls[i]) }

  /** One task for each different call of the step. */
  ghost predicate OneTaskEach(t: Tools) {
    NoDuplicates(t.started) && Calls(t.started) == Calls(t.current)
  }

  /** The turn is stopped when the first call of the step makes the streak twelve long. */
  predicate StopsRightly(t: Tools, base: seq<Key>) {
    t.forceStop <==> t.current != [] && RunLength(base + [t.current[0]]) >= 12
  }

  ghost predicate Inv(s: Sys) {
    && (s.open ==> !s.tools.closed)
    && (!s.open ==> s.tools.closed || s == START)
    && StreakIs(s.tools.streak, History(s))
    && s.tools.seen == Calls(History(s))
    && AllCanonical(s.base) && AllCanonical(s.tools.current) && AllCanonical(s.last)
    && Calls(s.last) <= Calls(History(s))
    && OneTaskEach(s.tools)
    && StopsRightly(s.tools, s.base)
  }

  lemma RunOfOne(h: seq<Key>, call: Key)
    requires h == [] || h[|h| - 1] != call
    ensures RunLength(h + [call]) == 1
  {
  }

  lemma CallsAppend(s: seq<Key>, r: seq<Key>)
    ensures Calls(s + r) == Calls(s) + Calls(r)
  {
  }

  lemma CallsOne(k: Key)
    ensures Calls([k]) == {k}
  {
  }

  /** In the course of a step the projected streak of a call is the run it ends in the whole history. */
  lemma ProjectedIsRun(t: Tools, base: seq<Key>, i: nat)
    requires StreakIs(t.streak, base) && i < |t.current|
    ensures Projected(t, i) == RunLength(base + t.current[..i + 1])
  {
    AdvanceCountsRun(t.streak, base, t.current[..i + 1]);
  }

  /** Only the first call of a step can draw a reminder or stop the turn. */
  lemma HandleOutcome(t: Tools, base: seq<Key>, call: Key)
    requires StreakIs(t.streak, base) && t.seen == Calls(base) && OneTaskEach(t)
    ensures
      Handle(t, call).1 ==
        if call in t.current then SameStep
        else if t.current == [] then Started(ActionFor(RunLength(base + [call])))
        else Started(NoAction)
  {
    hide RunLength, StreakIs, Projected;
    var t1 := t.(current := t.current + [call]);
    assert call in Calls(t.started) <==> call in Calls(t.current);
    ProjectedIsRun(t1, base, |t.current|);
    assert t1.current[..|t.current| + 1] == t1.current;
    if call !in t.current {
      var h := base + t.current;
      assert base + t1.current == h + [call];
      if t.current != [] {
        assert h[|h| - 1] == t.current[|t.current| - 1] != call;
        RunOfOne(h, call);
      } else {
        assert base + t1.current == base + [call];
        if call !in t.seen { RunOfOne(base, call); }
      }
    }
  }

  lemma HandleKeeps(t: Tools, base: seq<Key>, call: Key)
    requires StreakIs(t.streak, base) && t.seen == Calls(base) && OneTaskEach(t) && StopsRightly(t, base)
    ensures OneTaskEach(Handle(t, call).0) && StopsRightly(Handle(t, call).0, base)
  {
    hide RunLength, StreakIs, Projected;
    HandleOutcome(t, base, call);
    CallsAppend(t.current, [call]);
    CallsAppend(t.started, [call]);
    CallsOne(call);
    assert call in Calls(t.started) <==> call in Calls(t.current);
    var t' := Handle(t, call).0;
    if t.current == [] {
      assert t'.current[0] == call;
      if call !in t.seen { RunOfOne(base, call); }
    } else {
      assert t'.current[0] == t.current[0];
    }
  }

  lemma CanonicalStays(calls: seq<Key>)
    requires AllCanonical(calls)
    ensures NormalizeAll(calls) == calls
  {
    hide Normalize;
    assert forall i :: 0 <= i < |calls| ==> IsCanonical(calls[i]);
  }

  lemma BeginKeeps(s: Sys)
    requires Inv(s)
    ensures Inv(Next(s, BeginStep))
  {
    hide RunLength, Advance, Normalize, NormalizeAll;
    CanonicalStays(s.last);
    NormalizeNothing();
    var h := History(s);
    if s.last != [] {
      assert s.last[0] in Calls(s.last);
      assert h != [];
    }
  }

  lemma NormalizeNothing()
    ensures NormalizeAll([]) == [] && RunLength([]) == 0
  {
  }

  lemma EndKeeps(s: Sys)
    requires Inv(s) && s.open
    ensures Inv(Next(s, EndStep))
  {
    hide RunLength, Advance, IsCanonical;
    AdvanceCountsRun(s.tools.streak, s.base, s.tools.current);
    CallsAppend(s.base, s.tools.current);
  }

  lemma StepKeeps(s: Sys, e: Event)
    requires Inv(s) && Enabled(s, e)
    ensures Inv(Next(s, e))
  {
    hide RunLength, StreakIs, OneTaskEach, StopsRightly, IsCanonical, Begin, End;
    match e
    case BeginStep => BeginKeeps(s);
    case Call(call) => HandleKeeps(s.tools, s.base, call);
    case EndStep => EndKeeps(s);
    case Forget =>
  }

  lemma {:induction false} RunKeeps(states: seq<Sys>, events: seq<Event>, i: nat)
    requires Run(states, events) && Begins(states[0]) && i <= |events|
    ensures Inv(states[i])
  {
    hide Inv, Next, Enabled;
    if i == 0 {
      StartOk(states[0]);
    } else {
      RunKeeps(states, events, i - 1);
      StepKeeps(states[i - 1], events[i - 1]);
    }
  }

  /** A run starts with a new session, or with the first step of one that is taken up again with its last calls. */
  predicate Begins(s: Sys) {
    s == START || (s.last != [] && AllCanonical(s.last) && s == Sys(Begin(FRESH, s.last), s.last, s.last, true))
  }

  lemma StartOk(s: Sys)
    requires Begins(s)
    ensures Inv(s)
  {
    hide RunLength, Advance, Normalize, NormalizeAll;
    if s != START {
      CanonicalStays(s.last);
      NormalizeNothing();
      AdvanceCountsRun(NO_STREAK, [], s.last);
      assert [] + s.last == s.last;
    } else {
      NormalizeNothing();
    }
  }

  /** In every run the stored count is the run at the end of the recorded history. */
  lemma CountIsRun(states: seq<Sys>, events: seq<Event>, i: nat)
    requires Run(states, events) && Begins(states[0]) && i <= |events|
    ensures states[i].tools.streak.count == RunLength(History(states[i]))
    ensures states[i].open && states[i].tools.current != [] ==>
      Projected(states[i].tools, |states[i].tools.current| - 1) == RunLength(states[i].base + states[i].tools.current)
  {
    hide RunLength, Projected;
    RunKeeps(states, events, i);
    var t := states[i].tools;
    if states[i].open && t.current != [] {
      ProjectedIsRun(t, states[i].base, |t.current| - 1);
      assert t.current[..|t.current| - 1 + 1] == t.current;
    }
  }

  /**
   In every run the turn is stopped exactly when the first call of the step is the twelfth or later
   of equal calls in a row, and a step starts one task for each different call.
   */
  lemma StopIff(states: seq<Sys>, events: seq<Event>, i: nat)
    requires Run(states, events) && Begins(states[0]) && i <= |events|
    ensures
      var t, base := states[i].tools, states[i].base;
      && (t.forceStop <==> t.current != [] && RunLength(base + [t.current[0]]) >= 12)
      && (t.forceStop ==> |base| >= 11 && forall j :: |base| - 11 <= j < |base| ==> base[j] == t.current[0])
      && NoDuplicates(t.started) && Calls(t.started) == Calls(t.current)
  {
    hide RunLength, StreakIs;
    RunKeeps(states, events, i);
    var t, base := states[i].tools, states[i].base;
    if t.current != [] {
      var h := base + [t.current[0]];
      RunLengthIs(h);
      assert forall j :: 0 <= j < |base| ==> base[j] == h[j];
    }
  }

  /** Ending a step twice is ending it once. */
  lemma EndTwice(t: Tools)
    ensures End(End(t)) == End(t) && End(t).current == t.current
  {
  }

  // ----- reminders -----

  /** The last n calls of the history are this one. */
  predicate EndsWithCalls(h: seq<Key>, call: Key, n: nat) {
    n <= |h| && forall i :: |h| - n <= i < |h| ==> h[i] == call
  }

  lemma LongRunIff(h: seq<Key>, call: Key, n: nat)
    ensures RunLength(h + [call]) >= n + 1 <==> EndsWithCalls(h, call, n)
  {
    hide RunLength;
    var all := h + [call];
    RunLengthIs(all);
    var r := RunLength(all);
    if r >= n + 1 {
      assert forall i :: |h| - n <= i < |h| ==> h[i] == all[i];
    } else if r < |all| {
      assert h[|h| - r] == all[|h| - r] != call;
    }
  }

  /**
   In every run a call shares the result of an equal one in its step; otherwise it is started, and only as the first
   of its step, and as the third, fifth, eighth or twelfth equal one in a row, draws a first, second or third reminder,
   up to the next of these numbers, or stops the turn.
   */
  lemma RemindersIff(states: seq<Sys>, events: seq<Event>, i: nat)
    requires Run(states, events) && Begins(states[0]) && i < |events| && events[i].Call?
    ensures
      var t, base, call := states[i].tools, states[i].base, events[i].call;
      var outcome, first := Handle(t, call).1, t.current == [];
      && (outcome == SameStep <==> call in t.current)
      && (outcome == Started(Stop) <==> first && EndsWithCalls(base, call, 11))
      && (outcome == Started(Remind3) <==> first && EndsWithCalls(base, call, 7) && !EndsWithCalls(base, call, 11))
      && (outcome == Started(Remind2) <==> first && EndsWithCalls(base, call, 4) && !EndsWithCalls(base, call, 7))
      && (outcome == Started(Remind1) <==> first && EndsWithCalls(base, call, 2) && !EndsWithCalls(base, call, 4))
  {
    hide RunLength, EndsWithCalls, Handle, StreakIs, OneTaskEach;
    var t, base, call := states[i].tools, states[i].base, events[i].call;
    RunKeeps(states, events, i);
    HandleOutcome(t, base, call);
    LongRunIff(base, call, 11);
    LongRunIff(base, call, 7);
    LongRunIff(base, call, 4);
    LongRunIff(base, call, 2);
  }

  /** A step is marked exactly when it repeats a call of an earlier step. */
  predicate MarkedRightly(t: Tools, base: seq<Key>) {
    t.dedupTriggered <==> exists call :: call in t.current && call in base
  }

  lemma MarkStep(s: Sys, e: Event)
    requires Inv(s) && Enabled(s, e) && MarkedRightly(s.tools, s.base)
    ensures MarkedRightly(Next(s, e).tools, Next(s, e).base)
  {
    hide StreakIs, StopsRightly, IsCanonical, ActionFor, Projected, RunLength, Advance, NoDuplicates;
    if e.Call? {
      var t, call := s.tools, e.call;
      assert call in Calls(t.started) <==> call in Calls(t.current);
      assert call in t.seen <==> call in Calls(s.base);
      assert forall k :: k in t.current + [call] <==> k in t.current || k == call;
    }
  }

  lemma {:induction false} MarkedIff(states: seq<Sys>, events: seq<Event>, i: nat)
    requires Run(states, events) && Begins(states[0]) && i <= |events|
    ensures MarkedRightly(states[i].tools, states[i].base)
  {
    hide Inv, Next, Enabled;
    if i > 0 {
      MarkedIff(states, events, i - 1);
      RunKeeps(states, events, i - 1);
      MarkStep(states[i - 1], events[i - 1]);
    }
  }
}
