/**
 Every run of publishing, recovering, claiming and acknowledging, with a clock that never goes back
 and a log of all claims.
 */
module NotificationRuns {
  import opened Basics
  import opened Notifications

  /** One notification claimed for one sink. */
  datatype Entry = Entry(id: int, sink: Sink, at: int)

  /** clock is the last reading of the clock. */
  datatype State = State(notes: seq<Note>, clock: int, log: seq<Entry>)

  datatype Step =
    | Publishing(event: Event)
    | Recovering(now: int)
    | Claiming(sink: Sink, limit: int, now1: int, now2: int)
    | Acking(sink: Sink, id: int, now: int)

  const EMPTY := State([], 0, [])

  /** What is known of a notification for a sink it is meant for. */
  function StateOf(notes: seq<Note>, id: int, sink: Sink): Option<SinkState> {
    var i := Position(notes, id);
    if i == |notes| || sink !in notes[i].sinks then None else Some(notes[i].sinks[sink])
  }

  function Entries(claimed: seq<Note>, sink: Sink, at: int): (r: seq<Entry>)
    ensures |r| == |claimed|
    ensures forall i :: 0 <= i < |claimed| ==> r[i] == Entry(claimed[i].event.id, sink, at)
  {
    seq(|claimed|, i requires 0 <= i < |claimed| => Entry(claimed[i].event.id, sink, at))
  }

  /** Ids are drawn at random; a run never draws one twice. Time does not go back. */
  predicate Enabled(s: State, step: Step) {
    match step
    case Publishing(e) => Position(s.notes, e.id) == |s.notes|
    case Recovering(now) => s.clock <= now
    case Claiming(_, _, now1, now2) => s.clock <= now1 <= now2
    case Acking(_, _, now) => s.clock <= now
  }

  function Next(s: State, step: Step, staleAfter: int): State {
    match step
    case Publishing(e) => s.(notes := Publish(s.notes, e).0)
    case Recovering(now) => s.(notes := Recover(s.notes, now, staleAfter), clock := now)
    case Claiming(sink, limit, now1, now2) =>
      var (after, claimed) := ClaimForSink(s.notes, sink, limit, now1, now2, staleAfter);
      State(after, now2, s.log + Entries(claimed, sink, now2))
    case Acking(sink, id, now) =>
      var r := Ack(s.notes, sink, id, now);
      State(if r.Ok? then r.value else s.notes, now, s.log)
  }

  ghost predicate Run(states: seq<State>, steps: seq<Step>, staleAfter: int) {
    && |states| == |steps| + 1
    && forall i :: 0 <= i < |steps| ==>
         Enabled(states[i], steps[i]) && states[i + 1] == Next(states[i], steps[i], staleAfter)
  }

  // ----- what holds in every run -----

  predicate UniqueIds(notes: seq<Note>) {
    forall i, j :: 0 <= i < j < |notes| ==> notes[i].event.id != notes[j].event.id
  }

  /** Different ids, the older one first, and no key in common. */
  predicate Ordered(a: Event, b: Event) {
    a.id != b.id && Before(a, b) && (HasKey(a) ==> a.dedupeKey != b.dedupeKey)
  }

  predicate Structure(notes: seq<Note>) {
    forall i, j :: 0 <= i < j < |notes| ==> Ordered(notes[i].event, notes[j].event)
  }

  /** Whether any later claim will come more than staleAfter after one at `at`. */
  predicate Covered(s: SinkState, at: int, clock: int, staleAfter: int) {
    at <= clock &&
    match s.status
    case Acked => true
    case Pending => clock - at > staleAfter
    case Claimed =>
      && s.claimedAt.Some? && at <= s.claimedAt.value
      && (at == s.claimedAt.value || s.claimedAt.value - at > staleAfter)
  }

  predicate EntryOk(notes: seq<Note>, e: Entry, clock: int, staleAfter: int) {
    var s := StateOf(notes, e.id, e.sink);
    s.Some? && Covered(s.value, e.at, clock, staleAfter)
  }

  predicate LogOk(notes: seq<Note>, log: seq<Entry>, clock: int, staleAfter: int) {
    forall j :: 0 <= j < |log| ==> EntryOk(notes, log[j], clock, staleAfter)
  }

  /** Two claims of the same notification for the same sink are more than staleAfter apart. */
  predicate Apart(log: seq<Entry>, staleAfter: int) {
    forall i, j :: 0 <= i < j < |log| && log[i].id == log[j].id && log[i].sink == log[j].sink ==>
      log[j].at - log[i].at > staleAfter
  }

  predicate Inv(s: State, staleAfter: int) {
    && Structure(s.notes)
    && LogOk(s.notes, s.log, s.clock, staleAfter)
    && Apart(s.log, staleAfter)
  }

  // ----- one notification, one sink -----

  lemma {:induction false} PositionByEvents(a: seq<Note>, b: seq<Note>, id: int)
    requires Events(a) == Events(b)
    ensures Position(a, id) == Position(b, id)
  {
    if a == [] {
    } else {
      assert Events(a)[0] == Events(b)[0] && Events(a)[1..] == Events(a[1..]) && Events(b)[1..] == Events(b[1..]);
      PositionByEvents(a[1..], b[1..], id);
    }
  }

  lemma {:induction false} EventsSame(a: seq<Note>, b: seq<Note>)
    requires |a| == |b| && forall i :: 0 <= i < |a| ==> a[i].event == b[i].event
    ensures Events(a) == Events(b)
  {
    forall i | 0 <= i < |a| ensures Events(a)[i] == Events(b)[i] {}
  }

  lemma StateAfterRecover(notes: seq<Note>, now: int, staleAfter: int, id: int, sink: Sink)
    ensures
      var was := StateOf(notes, id, sink);
      StateOf(Recover(notes, now, staleAfter), id, sink) ==
        if was.None? then None else Some(RecoverState(was.value, now, staleAfter))
  {
    var r := Recover(notes, now, staleAfter);
    EventsSame(notes, r);
    PositionByEvents(notes, r, id);
  }

  lemma StateAfterAck(notes: seq<Note>, sink: Sink, id: int, now: int, id': int, sink': Sink)
    requires Ack(notes, sink, id, now).Ok?
    ensures
      var was := StateOf(notes, id', sink');
      StateOf(Ack(notes, sink, id, now).value, id', sink') ==
        if was.Some? && id' == id && sink' == sink then Some(SinkState(Acked, None, Some(now))) else was
  {
    var r := Ack(notes, sink, id, now).value;
    EventsSame(notes, r);
    PositionByEvents(notes, r, id');
  }

  function ClaimedState(s: SinkState, now: int): SinkState { s.(status := Claimed, claimedAt := Some(now)) }

  predicate IsClaimed(claimed: seq<Note>, id: int) { exists i :: 0 <= i < |claimed| && claimed[i].event.id == id }

  /** What a claim does to one notification. */
  predicate Marked(n: Note, after: Note, claimed: seq<Note>, sink: Sink, now: int) {
    if IsClaimed(claimed, n.event.id) then Available(n, sink) && after == ClaimNote(n, sink, now) else after == n
  }

  lemma ConsClaimed(n: Note, claimed: seq<Note>, id: int)
    ensures IsClaimed([n] + claimed, id) <==> n.event.id == id || IsClaimed(claimed, id)
    ensures !IsClaimed([], id)
  {
    if n.event.id == id { assert ([n] + claimed)[0] == n; }
    if IsClaimed(claimed, id) {
      var i :| 0 <= i < |claimed| && claimed[i].event.id == id;
      assert ([n] + claimed)[i + 1] == claimed[i];
    }
  }

  lemma {:induction false} ClaimedAreThere(notes: seq<Note>, sink: Sink, limit: int, now: int, id: int)
    requires IsClaimed(Claim(notes, sink, limit, now).1, id)
    ensures Position(notes, id) < |notes|
  {
    hide Available;
    if notes == [] {
    } else {
      if Available(notes[0], sink) { ClaimedIsTaken(notes[0], sink, now); }
      var mine := if Available(notes[0], sink) then ClaimNote(notes[0], sink, now) else notes[0];
      ConsClaimed(mine, [], id);
      if !Available(notes[0], sink) {
        ClaimedAreThere(notes[1..], sink, limit, now, id);
      } else if 1 < limit {
        ConsClaimed(mine, Claim(notes[1..], sink, limit - 1, now).1, id);
        if mine.event.id != id { ClaimedAreThere(notes[1..], sink, limit - 1, now, id); }
      }
    }
  }

  lemma {:induction false} ClaimMarks(notes: seq<Note>, sink: Sink, limit: int, now: int, i: nat)
    requires UniqueIds(notes) && i < |notes|
    ensures Marked(notes[i], Claim(notes, sink, limit, now).0[i], Claim(notes, sink, limit, now).1, sink, now)
  {
    hide Available, IsClaimed;
    var rest, id := notes[1..], notes[i].event.id;
    assert i != 0 ==> rest[i - 1] == notes[i] && id != notes[0].event.id;
    var next := if Available(notes[0], sink) then limit - 1 else limit;
    var claimed := Claim(rest, sink, next, now).1;
    if i == 0 && IsClaimed(claimed, id) { ClaimedAreThere(rest, sink, next, now, id); }
    if i != 0 { ClaimMarks(rest, sink, next, now, i - 1); }
    if Available(notes[0], sink) {
      ClaimedIsTaken(notes[0], sink, now);
      var mine := ClaimNote(notes[0], sink, now);
      ConsClaimed(mine, claimed, id);
      ConsClaimed(mine, [], id);
      assert [mine] + [] == [mine];
    }
  }

  lemma StateAfterClaim(notes: seq<Note>, sink: Sink, limit: int, now: int, id: int, sink': Sink)
    requires UniqueIds(notes)
    ensures
      var (after, claimed) := Claim(notes, sink, limit, now);
      var was := StateOf(notes, id, sink');
      var mine := sink' == sink && IsClaimed(claimed, id);
      && (mine ==> was.Some? && was.value.status.Pending?)
      && StateOf(after, id, sink') == if mine then Some(ClaimedState(was.value, now)) else was
  {
    hide IsClaimed, Claim;
    var (after, claimed) := Claim(notes, sink, limit, now);
    ClaimTakesOldest(notes, sink, limit, now);
    PositionByEvents(notes, after, id);
    var i := Position(notes, id);
    if IsClaimed(claimed, id) { ClaimedAreThere(notes, sink, limit, now, id); }
    if i < |notes| { ClaimMarks(notes, sink, limit, now, i); }
  }

  lemma StateOfCons(n: Note, rest: seq<Note>, id: int, sink: Sink)
    ensures StateOf([n] + rest, id, sink) ==
      if n.event.id != id then StateOf(rest, id, sink) else if sink in n.sinks then Some(n.sinks[sink]) else None
  {
    assert ([n] + rest)[1..] == rest;
    assert Position([n] + rest, id) == if n.event.id == id then 0 else 1 + Position(rest, id);
  }

  lemma {:induction false} StateAfterInsert(notes: seq<Note>, n: Note, id: int, sink: Sink)
    requires Position(notes, n.event.id) == |notes|
    ensures
      StateOf(Insert(notes, n), id, sink) ==
        if id != n.event.id then StateOf(notes, id, sink)
        else if sink in n.sinks then Some(n.sinks[sink]) else None
  {
    hide Before, StateOf;
    StateOfCons(n, notes, id, sink);
    if notes == [] {
    } else {
      assert notes == [notes[0]] + notes[1..];
      StateOfCons(notes[0], notes[1..], id, sink);
      StateOfCons(notes[0], Insert(notes[1..], n), id, sink);
      StateAfterInsert(notes[1..], n, id, sink);
    }
  }

  // ----- the order of the store -----

  lemma StructureIds(notes: seq<Note>)
    requires Structure(notes)
    ensures UniqueIds(notes)
  {
  }

  lemma StructureByEvents(a: seq<Note>, b: seq<Note>)
    requires Structure(a) && Events(a) == Events(b)
    ensures Structure(b)
  {
    hide Ordered;
    forall i | 0 <= i < |a| ensures b[i].event == a[i].event {
      assert Events(a)[i] == Events(b)[i];
    }
  }

  lemma {:induction false} InsertSplits(notes: seq<Note>, n: Note) returns (p: nat)
    ensures p <= |notes| && Insert(notes, n) == notes[..p] + [n] + notes[p..]
    ensures forall i :: 0 <= i < p ==> !Before(n.event, notes[i].event)
    ensures p < |notes| ==> Before(n.event, notes[p].event)
  {
    hide Before;
    if notes == [] || Before(n.event, notes[0].event) {
      p := 0;
    } else {
      var q := InsertSplits(notes[1..], n);
      p := q + 1;
    }
  }

  lemma InsertKeeps(notes: seq<Note>, n: Note)
    requires Structure(notes) && Position(notes, n.event.id) == |notes|
    requires HasKey(n.event) ==> forall m :: m in notes ==> m.event.dedupeKey != n.event.dedupeKey
    ensures Structure(Insert(notes, n))
  {
    hide Structure, Ordered, Before, HasKey, Insert;
    var p := InsertSplits(notes, n);
    forall i | 0 <= i < p ensures Ordered(notes[i].event, n.event) {
      Comparable(notes[i].event, n.event);
    }
    forall j | p <= j < |notes| ensures Ordered(n.event, notes[j].event) {
      assert notes[p] in notes && notes[j] in notes;
      Comparable(n.event, notes[p].event);
      if p < j {
        Pair(notes, p, j);
        Between(n.event, notes[p].event, notes[j].event);
      }
    }
    Spliced(notes, n, p);
  }

  lemma Pair(notes: seq<Note>, i: nat, j: nat)
    requires Structure(notes) && i < j < |notes|
    ensures Ordered(notes[i].event, notes[j].event)
  {
  }

  lemma Spliced(notes: seq<Note>, n: Note, p: nat)
    requires Structure(notes) && p <= |notes|
    requires forall i :: 0 <= i < p ==> Ordered(notes[i].event, n.event)
    requires forall j :: p <= j < |notes| ==> Ordered(n.event, notes[j].event)
    ensures Structure(notes[..p] + [n] + notes[p..])
  {
    hide Ordered;
  }

  lemma Comparable(a: Event, b: Event)
    requires a.id != b.id && (HasKey(a) && HasKey(b) ==> a.dedupeKey != b.dedupeKey)
    ensures !Before(b, a) ==> Ordered(a, b)
    ensures Before(a, b) ==> Ordered(a, b)
  {
  }

  lemma Between(a: Event, b: Event, c: Event)
    requires Ordered(a, b) && Ordered(b, c) && a.id != c.id && (HasKey(a) ==> a.dedupeKey != c.dedupeKey)
    ensures Ordered(a, c)
  {
  }

  lemma PublishKeeps(notes: seq<Note>, e: Event)
    requires Structure(notes) && Position(notes, e.id) == |notes|
    ensures Structure(Publish(notes, e).0)
  {
    hide Structure, HasKey, Insert;
    if !(HasKey(e) && FindByKey(notes, e.dedupeKey).Some?) {
      InsertKeeps(notes, FreshNote(e));
    }
  }

  // ----- a step -----

  lemma CoveredLater(s: SinkState, at: int, clock: int, now: int, staleAfter: int)
    requires Covered(s, at, clock, staleAfter) && clock <= now
    ensures Covered(RecoverState(s, now, staleAfter), at, now, staleAfter)
    ensures Covered(s, at, now, staleAfter)
  {
  }

  lemma RecoverLogOk(notes: seq<Note>, log: seq<Entry>, clock: int, now: int, staleAfter: int)
    requires LogOk(notes, log, clock, staleAfter) && clock <= now
    ensures LogOk(Recover(notes, now, staleAfter), log, now, staleAfter)
  {
    hide StateOf, Covered, RecoverState, Recover;
    forall j | 0 <= j < |log|
      ensures EntryOk(Recover(notes, now, staleAfter), log[j], now, staleAfter)
    {
      var e := log[j];
      assert EntryOk(notes, e, clock, staleAfter);
      StateAfterRecover(notes, now, staleAfter, e.id, e.sink);
      CoveredLater(StateOf(notes, e.id, e.sink).value, e.at, clock, now, staleAfter);
    }
  }

  lemma AckLogOk(notes: seq<Note>, sink: Sink, id: int, log: seq<Entry>, clock: int, now: int, staleAfter: int)
    requires LogOk(notes, log, clock, staleAfter) && clock <= now
    ensures
      var r := Ack(notes, sink, id, now);
      LogOk(if r.Ok? then r.value else notes, log, now, staleAfter)
  {
    hide StateOf, Ack;
    var r := Ack(notes, sink, id, now);
    forall j | 0 <= j < |log|
      ensures EntryOk(if r.Ok? then r.value else notes, log[j], now, staleAfter)
    {
      var e := log[j];
      assert EntryOk(notes, e, clock, staleAfter);
      CoveredLater(StateOf(notes, e.id, e.sink).value, e.at, clock, now, staleAfter);
      if r.Ok? { StateAfterAck(notes, sink, id, now, e.id, e.sink); }
    }
  }

  lemma PublishLogOk(notes: seq<Note>, event: Event, log: seq<Entry>, clock: int, staleAfter: int)
    requires LogOk(notes, log, clock, staleAfter) && Position(notes, event.id) == |notes|
    ensures LogOk(Publish(notes, event).0, log, clock, staleAfter)
  {
    hide Covered, HasKey, Insert;
    forall j | 0 <= j < |log|
      ensures EntryOk(Publish(notes, event).0, log[j], clock, staleAfter)
    {
      var e := log[j];
      assert EntryOk(notes, e, clock, staleAfter);
      StateAfterInsert(notes, FreshNote(event), e.id, e.sink);
    }
  }

  /** A claim comes more than staleAfter after every earlier claim of the same notification for the sink. */
  lemma ClaimLogOk(notes: seq<Note>, sink: Sink, limit: int, log: seq<Entry>, clock: int, now: int, staleAfter: int)
    requires UniqueIds(notes) && LogOk(notes, log, clock, staleAfter) && Apart(log, staleAfter) && clock <= now
    ensures
      var (after, claimed) := Claim(notes, sink, limit, now);
      var log' := log + Entries(claimed, sink, now);
      LogOk(after, log', now, staleAfter) && Apart(log', staleAfter)
  {
    hide StateOf, Claim, UniqueIds, IsClaimed;
    var (after, claimed) := Claim(notes, sink, limit, now);
    var new' := Entries(claimed, sink, now);
    var log' := log + new';
    forall j | 0 <= j < |log|
      ensures EntryOk(after, log[j], now, staleAfter)
      ensures log[j].sink == sink && IsClaimed(claimed, log[j].id) ==> now - log[j].at > staleAfter
    {
      var e := log[j];
      assert EntryOk(notes, e, clock, staleAfter);
      StateAfterClaim(notes, sink, limit, now, e.id, e.sink);
    }
    forall j | 0 <= j < |claimed|
      ensures EntryOk(after, new'[j], now, staleAfter) && IsClaimed(claimed, new'[j].id)
    {
      ItIsClaimed(claimed, j);
      StateAfterClaim(notes, sink, limit, now, claimed[j].event.id, sink);
    }
    ClaimedOnce(notes, sink, limit, now);
    AllApart(log, claimed, sink, now, staleAfter);
  }

  lemma AllApart(log: seq<Entry>, claimed: seq<Note>, sink: Sink, now: int, staleAfter: int)
    requires Apart(log, staleAfter) && UniqueIds(claimed)
    requires forall j :: 0 <= j < |log| && log[j].sink == sink && IsClaimed(claimed, log[j].id) ==> now - log[j].at > staleAfter
    ensures Apart(log + Entries(claimed, sink, now), staleAfter)
  {
  }

  lemma ItIsClaimed(claimed: seq<Note>, j: nat)
    requires j < |claimed|
    ensures IsClaimed(claimed, claimed[j].event.id)
  {
  }

  lemma {:induction false} ClaimedOnce(notes: seq<Note>, sink: Sink, limit: int, now: int)
    requires UniqueIds(notes)
    ensures UniqueIds(Claim(notes, sink, limit, now).1)
  {
    hide Available;
    if notes == [] {
    } else {
      assert forall i, j :: 0 <= i < j < |notes[1..]| ==> notes[1..][i] == notes[i + 1] && notes[1..][j] == notes[j + 1];
      var next := if Available(notes[0], sink) then limit - 1 else limit;
      ClaimedOnce(notes[1..], sink, next, now);
      if Available(notes[0], sink) && 1 < limit {
        ClaimedIsTaken(notes[0], sink, now);
        var claimed := Claim(notes[1..], sink, next, now).1;
        if IsClaimed(claimed, notes[0].event.id) { ClaimedAreThere(notes[1..], sink, next, now, notes[0].event.id); }
      }
    }
  }

  lemma StepKeeps(s: State, step: Step, staleAfter: int)
    requires Inv(s, staleAfter) && Enabled(s, step)
    ensures Inv(Next(s, step, staleAfter), staleAfter)
  {
    hide Structure, LogOk, Apart, Claim, Recover, Ack, Publish, Position;
    match step
    case Publishing(e) =>
      PublishKeeps(s.notes, e);
      PublishLogOk(s.notes, e, s.log, s.clock, staleAfter);
    case Recovering(now) =>
      RecoverKeeps(s.notes, now, staleAfter);
      RecoverLogOk(s.notes, s.log, s.clock, now, staleAfter);
    case Claiming(sink, limit, now1, now2) =>
      var notes := Recover(s.notes, now1, staleAfter);
      RecoverKeeps(s.notes, now1, staleAfter);
      RecoverLogOk(s.notes, s.log, s.clock, now1, staleAfter);
      ClaimTakesOldest(notes, sink, limit, now2);
      StructureIds(notes);
      StructureByEvents(notes, Claim(notes, sink, limit, now2).0);
      ClaimLogOk(notes, sink, limit, s.log, now1, now2, staleAfter);
    case Acking(sink, id, now) =>
      AckKeeps(s.notes, sink, id, now);
      AckLogOk(s.notes, sink, id, s.log, s.clock, now, staleAfter);
  }

  lemma RecoverKeeps(notes: seq<Note>, now: int, staleAfter: int)
    requires Structure(notes)
    ensures Structure(Recover(notes, now, staleAfter))
  {
    hide Structure;
    EventsSame(notes, Recover(notes, now, staleAfter));
    StructureByEvents(notes, Recover(notes, now, staleAfter));
  }

  lemma AckKeeps(notes: seq<Note>, sink: Sink, id: int, now: int)
    requires Structure(notes)
    ensures Ack(notes, sink, id, now).Ok? ==> Structure(Ack(notes, sink, id, now).value)
  {
    hide Structure;
    var r := Ack(notes, sink, id, now);
    if r.Ok? {
      EventsSame(notes, r.value);
      StructureByEvents(notes, r.value);
    }
  }

  // ----- whole runs -----

  lemma {:induction false} RunKeeps(states: seq<State>, steps: seq<Step>, staleAfter: int, i: nat)
    requires Run(states, steps, staleAfter) && Inv(states[0], staleAfter) && i <= |steps|
    ensures Inv(states[i], staleAfter)
  {
    hide Inv, Next, Enabled;
    if i > 0 {
      RunKeeps(states, steps, staleAfter, i - 1);
      StepKeeps(states[i - 1], steps[i - 1], staleAfter);
    }
  }

  /**
   In every run two claims of a notification for the same sink are more than staleAfter apart, the
   store is listed oldest first, and it never holds two notifications with the same key.
   */
  lemma ClaimsApart(states: seq<State>, steps: seq<Step>, staleAfter: int, i: nat)
    requires Run(states, steps, staleAfter) && states[0] == EMPTY && i <= |steps|
    ensures Apart(states[i].log, staleAfter)
    ensures Structure(states[i].notes)
  {
    hide Apart, Structure, Run;
    EmptyOk(staleAfter);
    RunKeeps(states, steps, staleAfter, i);
  }

  lemma EmptyOk(staleAfter: int)
    ensures Inv(EMPTY, staleAfter)
  {
  }

  predicate IsAcked(notes: seq<Note>, id: int, sink: Sink) {
    StateOf(notes, id, sink).Some? && StateOf(notes, id, sink).value.status.Acked?
  }

  lemma StepKeepsAcked(s: State, step: Step, staleAfter: int, id: int, sink: Sink)
    requires Structure(s.notes) && Enabled(s, step) && IsAcked(s.notes, id, sink)
    ensures IsAcked(Next(s, step, staleAfter).notes, id, sink)
  {
    hide StateOf, Claim, Recover, Ack, Insert, FindByKey, Structure;
    match step
    case Publishing(e) =>
      if e.id == id { NotThere(s.notes, id, sink); }
      StateAfterInsert(s.notes, FreshNote(e), id, sink);
    case Recovering(now) =>
      StateAfterRecover(s.notes, now, staleAfter, id, sink);
    case Claiming(sink', limit, now1, now2) =>
      StateAfterRecover(s.notes, now1, staleAfter, id, sink);
      RecoverKeeps(s.notes, now1, staleAfter);
      StructureIds(Recover(s.notes, now1, staleAfter));
      StateAfterClaim(Recover(s.notes, now1, staleAfter), sink', limit, now2, id, sink);
    case Acking(sink', id', now) =>
      if Ack(s.notes, sink', id', now).Ok? { StateAfterAck(s.notes, sink', id', now, id, sink); }
  }

  lemma NotThere(notes: seq<Note>, id: int, sink: Sink)
    requires Position(notes, id) == |notes|
    ensures StateOf(notes, id, sink).None?
  {
  }

  /** What is acknowledged stays so. */
  lemma {:induction false} AckedIsFinal(states: seq<State>, steps: seq<Step>, staleAfter: int, i: nat, j: nat, id: int, sink: Sink)
    requires Run(states, steps, staleAfter) && Inv(states[0], staleAfter) && i <= j <= |steps|
    requires IsAcked(states[i].notes, id, sink)
    ensures IsAcked(states[j].notes, id, sink)
  {
    hide IsAcked, Next, Enabled, Structure, LogOk, Apart;
    if i < j {
      AckedIsFinal(states, steps, staleAfter, i, j - 1, id, sink);
      RunKeeps(states, steps, staleAfter, j - 1);
      StepKeepsAcked(states[j - 1], steps[j - 1], staleAfter, id, sink);
    }
  }

  /** A claim for one sink changes another sink only by ending its stale claims; an acknowledgement not at all. */
  lemma OtherSinks(notes: seq<Note>, sink: Sink, other: Sink, limit: int, now1: int, now2: int, staleAfter: int, id: int)
    requires Structure(notes) && other != sink
    ensures
      var was := StateOf(notes, id, other);
      StateOf(ClaimForSink(notes, sink, limit, now1, now2, staleAfter).0, id, other) ==
        if was.None? then None else Some(RecoverState(was.value, now1, staleAfter))
    ensures forall id' :: var r := Ack(notes, sink, id', now2);
      r.Ok? ==> StateOf(r.value, id, other) == StateOf(notes, id, other)
  {
    hide StateOf, Claim, Recover, Ack, Structure, RecoverState;
    StateAfterRecover(notes, now1, staleAfter, id, other);
    RecoverKeeps(notes, now1, staleAfter);
    StructureIds(Recover(notes, now1, staleAfter));
    StateAfterClaim(Recover(notes, now1, staleAfter), sink, limit, now2, id, other);
    forall id' | Ack(notes, sink, id', now2).Ok?
      ensures StateOf(Ack(notes, sink, id', now2).value, id, other) == StateOf(notes, id, other)
    {
      StateAfterAck(notes, sink, id', now2, id, other);
    }
  }

  // ----- draining a backlog -----

  datatype Call = Call(limit: int, now1: int, now2: int)

  /** One call after the other: the store in the end, and the events in the order they were claimed. */
  function ClaimMany(notes: seq<Note>, sink: Sink, calls: seq<Call>, staleAfter: int): (seq<Note>, seq<Event>)
    decreases |calls|
  {
    if calls == [] then (notes, [])
    else
      var (after, claimed) := ClaimForSink(notes, sink, calls[0].limit, calls[0].now1, calls[0].now2, staleAfter);
      var (last, later) := ClaimMany(after, sink, calls[1..], staleAfter);
      (last, Events(claimed) + later)
  }

  function TotalLimit(calls: seq<Call>): nat {
    if calls == [] then 0 else (if calls[0].limit < 1 then 1 else calls[0].limit) + TotalLimit(calls[1..])
  }

  predicate FreshFor(n: Note, sink: Sink, now: int, staleAfter: int) {
    sink in n.sinks ==> !Stale(n.sinks[sink], now, staleAfter)
  }

  /** No claim of the sink is stale at this time. */
  predicate NoneStale(notes: seq<Note>, sink: Sink, now: int, staleAfter: int) {
    forall i :: 0 <= i < |notes| ==> FreshFor(notes[i], sink, now, staleAfter)
  }

  /** No claim that these calls make grows stale before time `end`, nor does one of them come later. */
  predicate InTime(calls: seq<Call>, end: int, staleAfter: int) {
    forall i :: 0 <= i < |calls| ==> calls[i].now1 <= end && end - calls[i].now2 <= staleAfter
  }

  lemma RecoverLeaves(n: Note, sink: Sink, now: int, end: int, staleAfter: int)
    requires FreshFor(n, sink, end, staleAfter) && now <= end
    ensures var r := RecoverNote(n, now, staleAfter);
      r.event == n.event && (Available(r, sink) <==> Available(n, sink)) && FreshFor(r, sink, end, staleAfter)
  {
  }

  /** Recovery changes nothing for a sink without stale claims. */
  lemma {:induction false} RecoverKeepsPending(notes: seq<Note>, sink: Sink, now: int, end: int, staleAfter: int)
    requires NoneStale(notes, sink, end, staleAfter) && now <= end
    ensures PendingFor(Recover(notes, now, staleAfter), sink) == PendingFor(notes, sink)
    ensures NoneStale(Recover(notes, now, staleAfter), sink, end, staleAfter)
  {
    hide FreshFor, Available, RecoverNote;
    if notes == [] {
    } else {
      RecoverLeaves(notes[0], sink, now, end, staleAfter);
      assert Recover(notes, now, staleAfter)[1..] == Recover(notes[1..], now, staleAfter);
      RecoverKeepsPending(notes[1..], sink, now, end, staleAfter);
      var r := Recover(notes, now, staleAfter);
      assert forall i :: 1 <= i < |notes| ==> r[i] == r[1..][i - 1];
    }
  }

  lemma ClaimedIsFresh(n: Note, sink: Sink, now: int, end: int, staleAfter: int)
    requires sink in n.sinks && end - now <= staleAfter
    ensures FreshFor(ClaimNote(n, sink, now), sink, end, staleAfter)
  {
  }

  lemma {:induction false} ClaimKeepsFresh(notes: seq<Note>, sink: Sink, limit: int, now: int, end: int, staleAfter: int)
    requires NoneStale(notes, sink, end, staleAfter) && end - now <= staleAfter
    ensures NoneStale(Claim(notes, sink, limit, now).0, sink, end, staleAfter)
  {
    hide FreshFor, Available, ClaimNote;
    if notes == [] {
    } else {
      var rest := notes[1..];
      assert NoneStale(rest, sink, end, staleAfter);
      if Available(notes[0], sink) {
        ClaimedIsTaken(notes[0], sink, now);
        ClaimedIsFresh(notes[0], sink, now, end, staleAfter);
        if 1 < limit { ClaimKeepsFresh(rest, sink, limit - 1, now, end, staleAfter); }
      } else {
        ClaimKeepsFresh(rest, sink, limit, now, end, staleAfter);
      }
    }
  }

  /**
   While no claim of the sink is stale, its backlog drains in order, each notification claimed once,
   and is empty when the limits add up to it, although every call recovers first.
   */
  lemma {:induction false} DrainsInOrder(notes: seq<Note>, sink: Sink, calls: seq<Call>, end: int, staleAfter: int)
    requires NoneStale(notes, sink, end, staleAfter) && InTime(calls, end, staleAfter)
    ensures
      var (last, claimed) := ClaimMany(notes, sink, calls, staleAfter);
      var pending := PendingFor(notes, sink);
      && claimed + PendingFor(last, sink) == pending
      && |claimed| == if |pending| < TotalLimit(calls) then |pending| else TotalLimit(calls)
    decreases |calls|
  {
    hide PendingFor, Claim, Recover, NoneStale;
    if calls == [] {
    } else {
      var call := calls[0];
      var recovered := Recover(notes, call.now1, staleAfter);
      RecoverKeepsPending(notes, sink, call.now1, end, staleAfter);
      ClaimTakesOldest(recovered, sink, call.limit, call.now2);
      ClaimKeepsFresh(recovered, sink, call.limit, call.now2, end, staleAfter);
      var (after, claimed) := Claim(recovered, sink, call.limit, call.now2);
      DrainsInOrder(after, sink, calls[1..], end, staleAfter);
      Joined(Events(claimed), PendingFor(notes, sink), PendingFor(after, sink), call.limit,
        ClaimMany(after, sink, calls[1..], staleAfter).1, PendingFor(ClaimMany(after, sink, calls[1..], staleAfter).0, sink),
        TotalLimit(calls[1..]));
    }
  }

  lemma Joined(claimed: seq<Event>, pending: seq<Event>, left: seq<Event>, limit: int, later: seq<Event>, last: seq<Event>, total: nat)
    requires claimed == pending[..Take(limit, |pending|)] && left == pending[Take(limit, |pending|)..]
    requires later + last == left && |later| == if |left| < total then |left| else total
    ensures claimed + later + last == pending
    ensures var all := (if limit < 1 then 1 else limit) + total;
      |claimed + later| == if |pending| < all then |pending| else all
  {
    assert claimed + later + last == claimed + (later + last);
  }

  // ----- delivery -----

  lemma {:induction false} AckedIfHandled(
      notes: seq<Note>, sink: Sink, claimed: seq<Note>, handled: int -> bool, at: int -> int, id: int, sink': Sink)
    ensures
      var was := StateOf(notes, id, sink');
      StateOf(AckHandled(notes, sink, claimed, handled, at), id, sink') ==
        if was.Some? && sink' == sink && IsClaimed(claimed, id) && handled(id)
        then Some(SinkState(Acked, None, Some(at(id)))) else was
  {
    hide StateOf, Ack, IsClaimed;
    if claimed == [] {
      ConsClaimed(FreshNote(Event(0, 0, None, [], "")), claimed, id);
    } else {
      var most, last := claimed[..|claimed| - 1], claimed[|claimed| - 1].event.id;
      AckedIfHandled(notes, sink, most, handled, at, id, sink');
      LastClaimed(claimed, id);
      var before := AckHandled(notes, sink, most, handled, at);
      if Ack(before, sink, last, at(last)).Ok? {
        StateAfterAck(before, sink, last, at(last), id, sink');
      } else {
        NothingToAck(before, sink, last, at(last), sink');
      }
    }
  }

  lemma LastClaimed(claimed: seq<Note>, id: int)
    requires claimed != []
    ensures IsClaimed(claimed, id) <==> claimed[|claimed| - 1].event.id == id || IsClaimed(claimed[..|claimed| - 1], id)
  {
    var most := claimed[..|claimed| - 1];
    if IsClaimed(most, id) {
      var i :| 0 <= i < |most| && most[i].event.id == id;
      assert claimed[i].event.id == id;
    }
  }

  lemma NothingToAck(notes: seq<Note>, sink: Sink, id: int, now: int, sink': Sink)
    requires Ack(notes, sink, id, now).Err?
    ensures StateOf(notes, id, sink').None?
  {
  }

  /**
   A delivery that nothing interrupts: of the notifications it claims, those whose handler succeeds
   end up acknowledged, and those whose handler fails stay claimed until they are recovered.
   */
  lemma DeliverySettles(
      notes: seq<Note>, sink: Sink, limit: int, now1: int, now2: int, staleAfter: int,
      handled: int -> bool, at: int -> int, id: int)
    requires UniqueIds(Recover(notes, now1, staleAfter))
    requires IsClaimed(ClaimForSink(notes, sink, limit, now1, now2, staleAfter).1, id)
    ensures
      var (after, claimed) := ClaimForSink(notes, sink, limit, now1, now2, staleAfter);
      var s := StateOf(AckHandled(after, sink, claimed, handled, at), id, sink);
      && s.Some?
      && if handled(id) then s.value == SinkState(Acked, None, Some(at(id)))
         else s.value.status.Claimed? && s.value.claimedAt == Some(now2)
  {
    hide StateOf, Claim, Recover, IsClaimed, AckHandled, UniqueIds;
    StateAfterClaim(Recover(notes, now1, staleAfter), sink, limit, now2, id, sink);
    var (after, claimed) := ClaimForSink(notes, sink, limit, now1, now2, staleAfter);
    AckedIfHandled(after, sink, claimed, handled, at, id, sink);
  }

  // ----- another sink does change -----

  /** A run in which a claim for one sink makes the claim of another sink pending again. */
  lemma OtherSinkChanges(staleAfter: nat) returns (states: seq<State>, steps: seq<Step>)
    ensures Run(states, steps, staleAfter) && states[0] == EMPTY && |steps| == 3 && steps[2].Claiming? && steps[2].sink == Llm
    ensures IsClaimedFor(states[2].notes, 7, Wire) && IsPendingFor(states[3].notes, 7, Wire)
  {
    hide Claim, Recover, Insert, FindByKey;
    var e := Event(7, 0, None, [Llm, Wire], "");
    PublishFirst(e);
    var late := staleAfter + 1;
    steps := [Publishing(e), Claiming(Wire, 1, 0, 0), Claiming(Llm, 1, late, late)];
    var claimed := SinkState(Claimed, Some(0), None);
    var n0 := Note(e, map[Llm := Notifications.FRESH, Wire := Notifications.FRESH]);
    var n1 := Note(e, map[Llm := Notifications.FRESH, Wire := claimed]);
    var n2 := Note(e, map[Llm := SinkState(Claimed, Some(late), None), Wire := Notifications.FRESH]);
    assert FreshNote(e) == n0;
    OneClaimed(n0, n0, n1, Wire, 0, 0, staleAfter);
    OneClaimed(n1, n0, n2, Llm, late, late, staleAfter);
    states := [EMPTY, State([n0], 0, []), State([n1], 0, [Entry(7, Wire, 0)]),
               State([n2], late, [Entry(7, Wire, 0), Entry(7, Llm, late)])];
    assert Entries([n1], Wire, 0) == [Entry(7, Wire, 0)] && Entries([n2], Llm, late) == [Entry(7, Llm, late)];
    assert states[1] == Next(states[0], steps[0], staleAfter);
    assert states[2] == Next(states[1], steps[1], staleAfter);
    assert states[3] == Next(states[2], steps[2], staleAfter);
  }

  lemma PublishFirst(e: Event)
    ensures Publish([], e) == ([FreshNote(e)], FreshNote(e))
  {
    assert [FreshNote(e)] + [] == [FreshNote(e)];
  }

  predicate IsClaimedFor(notes: seq<Note>, id: int, sink: Sink) {
    StateOf(notes, id, sink).Some? && StateOf(notes, id, sink).value.status.Claimed?
  }

  predicate IsPendingFor(notes: seq<Note>, id: int, sink: Sink) {
    StateOf(notes, id, sink).Some? && StateOf(notes, id, sink).value.status.Pending?
  }

  lemma OneClaimed(n: Note, r: Note, after: Note, sink: Sink, now1: int, now2: int, staleAfter: int)
    requires RecoverNote(n, now1, staleAfter) == r && Available(r, sink) && after == ClaimNote(r, sink, now2)
    ensures ClaimForSink([n], sink, 1, now1, now2, staleAfter) == ([after], [after])
  {
    assert Recover([n], now1, staleAfter) == [r];
    assert [r][1..] == [] && [after] + [] == [after];
  }
}
