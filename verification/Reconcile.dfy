/**
 Telling about finished tasks: one notification for each task and terminal reason, however often
 the manager reconciles.
 */
module Reconcile {
  import opened Basics
  import opened B = Background
  import opened N = Notifications
  import R = NotificationRuns
  import Text

  /** The id and the time that one new event gets. */
  datatype Draw = Draw(id: int, at: int)

  // ----- listing -----

  predicate LexLess(a: string, b: string) {
    if b == [] then false
    else if a == [] then true
    else a[0] < b[0] || (a[0] == b[0] && LexLess(a[1..], b[1..]))
  }

  function ListKey(t: Task): int { if t.updatedAt != 0 then t.updatedAt else t.createdAt }

  /** The order in which tasks are listed: the last updated first, then by id. */
  predicate ListedBefore(a: Task, b: Task) {
    ListKey(a) > ListKey(b) || (ListKey(a) == ListKey(b) && LexLess(a.id, b.id))
  }

  function Put(views: seq<Task>, t: Task): seq<Task> {
    if views == [] || ListedBefore(t, views[0]) then [t] + views else [views[0]] + Put(views[1..], t)
  }

  function ListViews(tasks: seq<Task>): seq<Task> {
    if tasks == [] then [] else Put(ListViews(tasks[1..]), tasks[0])
  }

  // ----- events -----

  function StatusText(s: B.Status): string {
    match s
    case Created => "created"
    case Starting => "starting"
    case Running => "running"
    case AwaitingApproval => "awaiting_approval"
    case Completed => "completed"
    case Failed => "failed"
    case Killed => "killed"
    case Lost => "lost"
  }

  function Reason(t: Task): string { if t.timedOut then "timed_out" else StatusText(t.status) }

  function KeyText(id: string, reason: string): string {
    "background_task:" + id + ":" + reason
  }

  function KeyOf(t: Task): string { KeyText(t.id, Reason(t)) }

  function EventOf(t: Task, d: Draw): Event {
    Event(d.id, d.at, Some(KeyOf(t)), [Llm, Wire, Shell], "task." + Reason(t))
  }

  /** The notifications afterwards, and the ids of the new ones. */
  function PublishTerminal(views: seq<Task>, notes: seq<Note>, limit: Option<int>, draws: seq<Draw>): (seq<Note>, seq<int>)
    requires |draws| == |views|
    decreases |views|
  {
    if views == [] then (notes, [])
    else if IsActive(views[0]) then PublishTerminal(views[1..], notes, limit, draws[1..])
    else
      var (notes1, n) := Publish(notes, EventOf(views[0], draws[0]));
      var new' := if n.event.id == draws[0].id then [draws[0].id] else [];
      if limit.Some? && limit.value <= |new'| then (notes1, new')
      else
        var rest := if limit.Some? then Some(limit.value - |new'|) else None;
        var (after, later) := PublishTerminal(views[1..], notes1, rest, draws[1..]);
        (after, new' + later)
  }

  // ----- what is in the store -----

  predicate InStore(notes: seq<Note>, key: string) { FindByKey(notes, Some(key)).Some? }

  function Missing(views: seq<Task>, notes: seq<Note>): nat
    decreases |views|
  {
    if views == [] then 0
    else (if !IsActive(views[0]) && !InStore(notes, KeyOf(views[0])) then 1 else 0) + Missing(views[1..], notes)
  }

  predicate DistinctIds(tasks: seq<Task>) {
    forall i, j :: 0 <= i < j < |tasks| ==> tasks[i].id != tasks[j].id
  }

  /** As the pattern for ids demands, no id has a colon. */
  predicate PlainIds(tasks: seq<Task>) {
    forall i :: 0 <= i < |tasks| ==> ':' !in tasks[i].id
  }

  /** New ids are distinct and none is in the store. */
  predicate FreshDraws(draws: seq<Draw>, notes: seq<Note>) {
    && (forall i, j :: 0 <= i < j < |draws| ==> draws[i].id != draws[j].id)
    && (forall i, n :: 0 <= i < |draws| && n in notes ==> n.event.id != draws[i].id)
  }

  lemma ColonAt(id: string, reason: string)
    requires ':' !in id
    ensures Text.Find(id + ":" + reason, ':') == |id|
  {
    var s := id + ":" + reason;
    assert s[|id|] == ':';
    assert forall j :: 0 <= j < |id| ==> s[j] == id[j];
  }

  /** The key tells the task and the reason. */
  lemma KeyTells(id: string, reason: string, id': string, reason': string)
    requires ':' !in id && ':' !in id' && KeyText(id, reason) == KeyText(id', reason')
    ensures id == id' && reason == reason'
  {
    var p, s, s' := "background_task:", id + ":" + reason, id' + ":" + reason';
    assert KeyText(id, reason)[|p|..] == s && KeyText(id', reason')[|p|..] == s';
    ColonAt(id, reason);
    ColonAt(id', reason');
    assert s[..|id|] == id && s'[..|id'|] == id';
    assert s[|id| + 1..] == reason && s'[|id'| + 1..] == reason';
  }

  lemma InsertMembers(notes: seq<Note>, n: Note, m: Note)
    ensures m in Insert(notes, n) <==> m == n || m in notes
  {
    hide Insert;
    var p := R.InsertSplits(notes, n);
    assert notes == notes[..p] + notes[p..];
  }

  lemma FoundIff(notes: seq<Note>, key: string)
    ensures InStore(notes, key) <==> exists n :: n in notes && n.event.dedupeKey == Some(key)
  {
  }

  lemma PublishStores(notes: seq<Note>, e: Event, key: string)
    requires HasKey(e)
    ensures InStore(Publish(notes, e).0, key) <==> InStore(notes, key) || e.dedupeKey == Some(key)
  {
    hide Insert, FindByKey;
    FoundIff(notes, key);
    FoundIff(Publish(notes, e).0, key);
    if InStore(notes, e.dedupeKey.value) {
    } else {
      forall m: Note ensures m in Insert(notes, FreshNote(e)) <==> m == FreshNote(e) || m in notes {
        InsertMembers(notes, FreshNote(e), m);
      }
      if InStore(notes, key) {
        var n :| n in notes && n.event.dedupeKey == Some(key);
        assert n in Insert(notes, FreshNote(e));
      }
      assert FreshNote(e) in Insert(notes, FreshNote(e)) && FreshNote(e).event.dedupeKey == e.dedupeKey;
    }
  }

  lemma EventHasKey(t: Task, d: Draw)
    ensures HasKey(EventOf(t, d)) && EventOf(t, d).dedupeKey == Some(KeyOf(t)) && EventOf(t, d).id == d.id
  {
    hide StatusText;
    assert KeyOf(t)[0] == 'b';
  }

  /** What publishing the event of one task does. */
  lemma PublishOne(t: Task, d: Draw, notes: seq<Note>, key: string)
    requires forall n :: n in notes ==> n.event.id != d.id
    ensures
      var (after, n) := Publish(notes, EventOf(t, d));
      && (n.event.id == d.id <==> !InStore(notes, KeyOf(t)))
      && (InStore(after, key) <==> InStore(notes, key) || key == KeyOf(t))
      && (InStore(notes, KeyOf(t)) ==> after == notes)
  {
    hide KeyOf, EventOf, HasKey, Insert;
    EventHasKey(t, d);
    PublishStores(notes, EventOf(t, d), key);
  }

  lemma DrawsStayFresh(t: Task, draws: seq<Draw>, notes: seq<Note>)
    requires draws != [] && FreshDraws(draws, notes)
    ensures FreshDraws(draws[1..], Publish(notes, EventOf(t, draws[0])).0)
  {
    hide KeyOf, HasKey, Insert, FindByKey;
    var after := Publish(notes, EventOf(t, draws[0])).0;
    forall i, n | 0 <= i < |draws[1..]| && n in after
      ensures n.event.id != draws[1..][i].id
    {
      InsertMembers(notes, FreshNote(EventOf(t, draws[0])), n);
      assert draws[1..][i] == draws[i + 1];
    }
  }

  lemma {:induction false} MissingUnrelated(views: seq<Task>, t: Task, d: Draw, notes: seq<Note>)
    requires forall n :: n in notes ==> n.event.id != d.id
    requires ':' !in t.id && PlainIds(views) && forall i :: 0 <= i < |views| ==> views[i].id != t.id
    ensures Missing(views, Publish(notes, EventOf(t, d)).0) == Missing(views, notes)
    decreases |views|
  {
    hide InStore, Publish, KeyText, Reason;
    if views == [] {
    } else {
      PublishOne(t, d, notes, KeyOf(views[0]));
      if KeyOf(views[0]) == KeyOf(t) { KeyTells(views[0].id, Reason(views[0]), t.id, Reason(t)); }
      MissingUnrelated(views[1..], t, d, notes);
    }
  }

  function Allowed(limit: Option<int>, missing: nat): nat {
    if limit.Some? && limit.value < missing then if limit.value < 0 then 0 else limit.value else missing
  }

  /** What one call publishes, and what is still missing afterwards. */
  predicate PublishedAll(views: seq<Task>, notes: seq<Note>, limit: Option<int>, r: (seq<Note>, seq<int>)) {
    |r.1| == Allowed(limit, Missing(views, notes)) && Missing(views, r.0) == Missing(views, notes) - |r.1|
  }

  lemma {:induction false} StoreGrows(views: seq<Task>, notes: seq<Note>, limit: Option<int>, draws: seq<Draw>, key: string)
    requires |draws| == |views| && FreshDraws(draws, notes) && InStore(notes, key)
    ensures InStore(PublishTerminal(views, notes, limit, draws).0, key)
    decreases |views|
  {
    hide InStore, Publish, EventOf, FreshDraws;
    if views == [] {
    } else {
      FreshRest(draws, notes);
      if IsActive(views[0]) {
        StoreGrows(views[1..], notes, limit, draws[1..], key);
      } else {
        var (notes1, n) := Publish(notes, EventOf(views[0], draws[0]));
        PublishOne(views[0], draws[0], notes, key);
        DrawsStayFresh(views[0], draws, notes);
        var new' := if n.event.id == draws[0].id then [draws[0].id] else [];
        if !(limit.Some? && limit.value <= |new'|) {
          StoreGrows(views[1..], notes1, if limit.Some? then Some(limit.value - |new'|) else None, draws[1..], key);
        }
      }
    }
  }

  lemma FreshRest(draws: seq<Draw>, notes: seq<Note>)
    requires draws != [] && FreshDraws(draws, notes)
    ensures FreshDraws(draws[1..], notes)
    ensures forall n :: n in notes ==> n.event.id != draws[0].id
  {
    assert forall i :: 0 <= i < |draws[1..]| ==> draws[1..][i] == draws[i + 1];
  }

  lemma DistinctRest(views: seq<Task>)
    requires views != [] && DistinctIds(views) && PlainIds(views)
    ensures DistinctIds(views[1..]) && PlainIds(views[1..]) && ':' !in views[0].id
    ensures forall i :: 0 <= i < |views[1..]| ==> views[1..][i].id != views[0].id
  {
    assert forall i :: 0 <= i < |views[1..]| ==> views[1..][i] == views[i + 1];
  }

  /** With a limit of at least one, a call publishes what is missing, up to the limit. */
  lemma {:induction false} PublishesMissing(views: seq<Task>, notes: seq<Note>, limit: Option<int>, draws: seq<Draw>)
    requires |draws| == |views| && FreshDraws(draws, notes) && DistinctIds(views) && PlainIds(views)
    requires limit.Some? ==> limit.value >= 1
    ensures PublishedAll(views, notes, limit, PublishTerminal(views, notes, limit, draws))
    decreases |views|
  {
    hide InStore, Publish, EventOf, FreshDraws, KeyOf, DistinctIds, PlainIds;
    if views == [] {
    } else {
      FreshRest(draws, notes);
      DistinctRest(views);
      if IsActive(views[0]) {
        PublishesMissing(views[1..], notes, limit, draws[1..]);
      } else {
        var (notes1, n) := Publish(notes, EventOf(views[0], draws[0]));
        PublishOne(views[0], draws[0], notes, KeyOf(views[0]));
        DrawsStayFresh(views[0], draws, notes);
        MissingUnrelated(views[1..], views[0], draws[0], notes);
        var new' := if n.event.id == draws[0].id then [draws[0].id] else [];
        if !(limit.Some? && limit.value <= |new'|) {
          var rest := if limit.Some? then Some(limit.value - |new'|) else None;
          PublishesMissing(views[1..], notes1, rest, draws[1..]);
          StoreGrows(views[1..], notes1, rest, draws[1..], KeyOf(views[0]));
        }
      }
    }
  }

  /** When nothing is missing, nothing is published, whatever the limit. */
  lemma {:induction false} NothingMissing(views: seq<Task>, notes: seq<Note>, limit: Option<int>, draws: seq<Draw>)
    requires |draws| == |views| && FreshDraws(draws, notes) && Missing(views, notes) == 0
    ensures PublishTerminal(views, notes, limit, draws) == (notes, [])
    decreases |views|
  {
    hide InStore, Publish, EventOf, FreshDraws, KeyOf;
    if views == [] {
    } else {
      FreshRest(draws, notes);
      if !IsActive(views[0]) { PublishOne(views[0], draws[0], notes, KeyOf(views[0])); }
      var none: seq<int> := [];
      assert none + none == none;
      NothingMissing(views[1..], notes, limit, draws[1..]);
    }
  }

  lemma {:induction false} NothingMissingIff(views: seq<Task>, notes: seq<Note>)
    ensures Missing(views, notes) == 0 <==> forall t :: t in views && !IsActive(t) ==> InStore(notes, KeyOf(t))
    decreases |views|
  {
    hide InStore, KeyOf, IsActive;
    if views == [] {
    } else {
      NothingMissingIff(views[1..], notes);
      assert views == [views[0]] + views[1..];
    }
  }

  /** The store never holds two notifications with the same key. */
  lemma {:induction false} PublishTerminalKeeps(views: seq<Task>, notes: seq<Note>, limit: Option<int>, draws: seq<Draw>)
    requires |draws| == |views| && FreshDraws(draws, notes) && R.Structure(notes)
    ensures R.Structure(PublishTerminal(views, notes, limit, draws).0)
    decreases |views|
  {
    hide Publish, EventOf, FreshDraws, R.Structure;
    if views == [] {
    } else {
      FreshRest(draws, notes);
      if IsActive(views[0]) {
        PublishTerminalKeeps(views[1..], notes, limit, draws[1..]);
      } else {
        var (notes1, n) := Publish(notes, EventOf(views[0], draws[0]));
        DrawsStayFresh(views[0], draws, notes);
        EventHasKey(views[0], draws[0]);
        R.PublishKeeps(notes, EventOf(views[0], draws[0]));
        var new' := if n.event.id == draws[0].id then [draws[0].id] else [];
        if !(limit.Some? && limit.value <= |new'|) {
          PublishTerminalKeeps(views[1..], notes1, if limit.Some? then Some(limit.value - |new'|) else None, draws[1..]);
        }
      }
    }
  }

  // ----- the order does not matter -----

  lemma {:induction false} PutSplits(views: seq<Task>, t: Task) returns (p: nat)
    ensures p <= |views| && Put(views, t) == views[..p] + [t] + views[p..]
  {
    hide ListedBefore;
    p := 0;
    if views != [] && !ListedBefore(t, views[0]) {
      var q := PutSplits(views[1..], t);
      p := q + 1;
    }
  }

  lemma PutSame(views: seq<Task>, t: Task)
    requires DistinctIds(views) && PlainIds(views) && ':' !in t.id
    requires forall i :: 0 <= i < |views| ==> views[i].id != t.id
    ensures DistinctIds(Put(views, t)) && PlainIds(Put(views, t))
    ensures |Put(views, t)| == |views| + 1 && forall x :: x in Put(views, t) <==> x == t || x in views
  {
    hide Put;
    var p := PutSplits(views, t);
    assert views == views[..p] + views[p..];
  }

  /** Listing permutes the tasks. */
  lemma {:induction false} ListedSame(tasks: seq<Task>)
    requires DistinctIds(tasks) && PlainIds(tasks)
    ensures DistinctIds(ListViews(tasks)) && PlainIds(ListViews(tasks))
    ensures |ListViews(tasks)| == |tasks| && forall x :: x in ListViews(tasks) <==> x in tasks
  {
    hide Put;
    if tasks == [] {
    } else {
      DistinctRest(tasks);
      ListedSame(tasks[1..]);
      assert tasks == [tasks[0]] + tasks[1..];
      forall i | 0 <= i < |ListViews(tasks[1..])|
        ensures ListViews(tasks[1..])[i].id != tasks[0].id
      {
        assert ListViews(tasks[1..])[i] in tasks[1..];
      }
      PutSame(ListViews(tasks[1..]), tasks[0]);
    }
  }

  // ----- reconciling -----

  /** The tasks, the notifications, and the ids of the new ones. */
  function Reconciled(m: Mgr, c: Config, notes: seq<Note>, limit: Option<int>, now: int, draws: seq<Draw>): (Mgr, seq<Note>, seq<int>)
    requires |draws| == |ListViews(B.Next(m, c, Step.Recovering(now)).tasks)|
  {
    var after := B.Next(m, c, Step.Recovering(now));
    var (notes', published) := PublishTerminal(ListViews(after.tasks), notes, limit, draws);
    (after, notes', published)
  }

  lemma RecoverKeepsIds(m: Mgr, c: Config, now: int)
    requires DistinctIds(m.tasks) && PlainIds(m.tasks)
    ensures DistinctIds(B.Next(m, c, Step.Recovering(now)).tasks) && PlainIds(B.Next(m, c, Step.Recovering(now)).tasks)
  {
    var after := B.Next(m, c, Step.Recovering(now)).tasks;
    assert forall i :: 0 <= i < |after| ==> after[i].id == m.tasks[i].id;
  }

  /**
   After reconciling without a limit every finished task has its notification, and reconciling again
   publishes nothing unless recovery found something new.
   */
  lemma ReconcileCovers(m: Mgr, c: Config, notes: seq<Note>, now: int, draws: seq<Draw>, limit: Option<int>, now': int, draws': seq<Draw>)
    requires DistinctIds(m.tasks) && PlainIds(m.tasks)
    requires |draws| == |ListViews(B.Next(m, c, Step.Recovering(now)).tasks)| && FreshDraws(draws, notes)
    ensures
      var (m1, notes1, _) := Reconciled(m, c, notes, None, now, draws);
      && (forall t :: t in m1.tasks && !IsActive(t) ==> InStore(notes1, KeyOf(t)))
      && (B.Next(m1, c, Step.Recovering(now')) == m1 && |draws'| == |draws| && FreshDraws(draws', notes1) ==>
            Reconciled(m1, c, notes1, limit, now', draws') == (m1, notes1, []))
  {
    hide InStore, KeyOf, FreshDraws, PublishTerminal, ListViews, B.Next, DistinctIds, PlainIds, Missing;
    RecoverKeepsIds(m, c, now);
    var (m1, notes1, published) := Reconciled(m, c, notes, None, now, draws);
    var views := ListViews(m1.tasks);
    ListedSame(m1.tasks);
    PublishesMissing(views, notes, None, draws);
    NothingMissingIff(views, notes1);
    if B.Next(m1, c, Step.Recovering(now')) == m1 && |draws'| == |draws| && FreshDraws(draws', notes1) {
      NothingMissing(views, notes1, limit, draws');
    }
  }

  /** Several calls with the same limit, one after the other, while no task changes. */
  function PublishRepeatedly(views: seq<Task>, notes: seq<Note>, limit: Option<int>, calls: seq<seq<Draw>>): seq<Note>
    requires forall i :: 0 <= i < |calls| ==> |calls[i]| == |views|
  {
    if calls == [] then notes
    else
      var most := calls[..|calls| - 1];
      PublishTerminal(views, PublishRepeatedly(views, notes, limit, most), limit, calls[|calls| - 1]).0
  }

  ghost predicate FreshCalls(views: seq<Task>, notes: seq<Note>, limit: Option<int>, calls: seq<seq<Draw>>)
    requires forall i :: 0 <= i < |calls| ==> |calls[i]| == |views|
  {
    calls != [] ==>
      && FreshCalls(views, notes, limit, calls[..|calls| - 1])
      && FreshDraws(calls[|calls| - 1], PublishRepeatedly(views, notes, limit, calls[..|calls| - 1]))
  }

  /** Repeated calls drain what is missing, a full limit at a time. */
  lemma {:induction false} RepeatedCallsDrain(views: seq<Task>, notes: seq<Note>, limit: int, calls: seq<seq<Draw>>)
    requires limit >= 1 && DistinctIds(views) && PlainIds(views)
    requires forall i :: 0 <= i < |calls| ==> |calls[i]| == |views|
    requires FreshCalls(views, notes, Some(limit), calls)
    ensures
      var missing := Missing(views, notes);
      Missing(views, PublishRepeatedly(views, notes, Some(limit), calls)) ==
        if missing <= |calls| * limit then 0 else missing - |calls| * limit
  {
    hide Missing, PublishTerminal, FreshDraws, DistinctIds, PlainIds;
    if calls == [] {
    } else {
      var most := calls[..|calls| - 1];
      RepeatedCallsDrain(views, notes, limit, most);
      PublishesMissing(views, PublishRepeatedly(views, notes, Some(limit), most), Some(limit), calls[|calls| - 1]);
      assert |calls| * limit == |most| * limit + limit;
    }
  }

  /** A limit below one is checked only after the first finished task, which may then still be published. */
  lemma {:induction false} NoLimitIsNotNothing(views: seq<Task>, notes: seq<Note>, limit: int, draws: seq<Draw>, i: nat)
    requires |draws| == |views| && FreshDraws(draws, notes) && limit < 1
    requires i < |views| && !IsActive(views[i]) && forall j :: 0 <= j < i ==> IsActive(views[j])
    ensures PublishTerminal(views, notes, Some(limit), draws).1 == if InStore(notes, KeyOf(views[i])) then [] else [draws[i].id]
    decreases i
  {
    hide InStore, Publish, EventOf, FreshDraws, KeyOf;
    FreshRest(draws, notes);
    if i == 0 {
      PublishOne(views[0], draws[0], notes, KeyOf(views[0]));
    } else {
      assert IsActive(views[0]);
      NoLimitIsNotNothing(views[1..], notes, limit, draws[1..], i - 1);
    }
  }
}
