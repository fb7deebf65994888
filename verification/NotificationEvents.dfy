/** What a published event comes to, and what the notification of a finished task says. */
module NotificationEvents {
  import opened Basics
  import opened N = Notifications
  import R = NotificationRuns
  import B = Background
  import opened Reconcile

  // ----- publishing -----

  /** Position i is the last one that has this key. */
  predicate NewestWith(notes: seq<Note>, key: Option<string>, i: int) {
    0 <= i < |notes| && notes[i].event.dedupeKey == key && forall j :: i < j < |notes| ==> notes[j].event.dedupeKey != key
  }

  lemma {:induction false} FindsNewest(notes: seq<Note>, key: Option<string>, i: int)
    requires NewestWith(notes, key, i)
    ensures FindByKey(notes, key) == Some(notes[i])
  {
    if i < |notes| - 1 { FindsNewest(notes[..|notes| - 1], key, i); }
  }

  /** Nobody has claimed the event yet, and it waits for exactly these sinks. */
  predicate WaitsFor(n: Note, targets: seq<Sink>) {
    forall sink: Sink ::
      && (sink in n.sinks <==> sink in targets)
      && (sink in targets ==> n.sinks[sink].status == Status.Pending && n.sinks[sink].claimedAt == n.sinks[sink].ackedAt == None)
  }

  /** For a key that is known nothing changes and its newest notification stands for the event. */
  lemma PublishKnown(notes: seq<Note>, e: Event, i: int)
    requires e.dedupeKey.Some? && e.dedupeKey.value != "" && NewestWith(notes, e.dedupeKey, i)
    ensures Publish(notes, e) == (notes, notes[i])
  {
    FindsNewest(notes, e.dedupeKey, i);
  }

  /** Otherwise one notification is added, with this event, that waits for each of its targets; the others stay, in their order. */
  lemma PublishNew(notes: seq<Note>, e: Event) returns (p: nat)
    requires e.dedupeKey.Some? && e.dedupeKey.value != "" ==> forall n :: n in notes ==> n.event.dedupeKey != e.dedupeKey
    ensures
      var (after, n) := Publish(notes, e);
      && p <= |notes| && after == notes[..p] + [n] + notes[p..]
      && n.event == e && WaitsFor(n, e.targets)
      && forall sink :: sink in e.targets ==> e in PendingFor(after, sink)
  {
    hide Before, PendingFor, Insert, WaitsFor;
    var n := FreshNote(e);
    p := R.InsertSplits(notes, n);
    var after := Insert(notes, n);
    assert WaitsFor(n, e.targets) by { FreshWaits(e); }
    forall sink | sink in e.targets ensures e in PendingFor(after, sink) {
      assert after[p] == n;
      FreshWaits(e);
      PendingAt(after, sink, p);
    }
  }

  lemma FreshWaits(e: Event)
    ensures WaitsFor(FreshNote(e), e.targets)
    ensures forall sink :: sink in e.targets ==> Available(FreshNote(e), sink)
  {
  }

  lemma {:induction false} PendingAt(notes: seq<Note>, sink: Sink, i: nat)
    requires i < |notes| && Available(notes[i], sink)
    ensures notes[i].event in PendingFor(notes, sink)
  {
    if i > 0 { PendingAt(notes[1..], sink, i - 1); }
  }

  /** Recovery makes exactly the claims older than the limit pending again. */
  lemma RecoverIff(notes: seq<Note>, now: int, staleAfter: int, i: nat, sink: Sink)
    requires i < |notes| && sink in notes[i].sinks
    ensures
      var n, s, s' := Recover(notes, now, staleAfter)[i], notes[i].sinks[sink], Recover(notes, now, staleAfter)[i].sinks;
      && n.event == notes[i].event && s'.Keys == notes[i].sinks.Keys
      && s'[sink] ==
           if s.status.Claimed? && s.claimedAt.Some? && s.claimedAt.value + staleAfter < now
           then s.(status := Status.Pending, claimedAt := None) else s
  {
  }

  // ----- finished tasks -----

  /** The notification tells that this task came to this end, to every sink. */
  predicate Says(n: Note, id: string, word: string) {
    && n.event.dedupeKey == Some("background_task:" + id + ":" + word)
    && n.event.body == "task." + word
    && WaitsFor(n, [Llm, Wire, Shell])
  }

  predicate TellsOf(n: Note, t: B.Task) {
    || (t.timedOut && Says(n, t.id, "timed_out"))
    || (!t.timedOut && t.status == B.Status.Completed && Says(n, t.id, "completed"))
    || (!t.timedOut && t.status == B.Status.Failed && Says(n, t.id, "failed"))
    || (!t.timedOut && t.status == B.Status.Killed && Says(n, t.id, "killed"))
    || (!t.timedOut && t.status == B.Status.Lost && Says(n, t.id, "lost"))
  }

  lemma EventTells(t: B.Task, d: Draw)
    requires B.IsTerminal(t.status)
    ensures TellsOf(FreshNote(EventOf(t, d)), t)
  {
    hide WaitsFor;
    FreshWaits(EventOf(t, d));
  }

  /** Every notification that a call adds is about a finished task that is listed, and names the end it came to. */
  lemma {:induction false} NewNotesTell(views: seq<B.Task>, notes: seq<Note>, limit: Option<int>, draws: seq<Draw>, n: Note)
    requires |draws| == |views| && n in PublishTerminal(views, notes, limit, draws).0 && n !in notes
    ensures exists t :: t in views && B.IsTerminal(t.status) && TellsOf(n, t)
    decreases |views|
  {
    hide TellsOf, EventOf, Insert, FindByKey, HasKey, FreshNote;
    if views != [] {
      var t, rest := views[0], views[1..];
      assert forall x :: x in rest ==> x in views;
      if B.IsActive(t) {
        NewNotesTell(rest, notes, limit, draws[1..], n);
      } else {
        var (notes1, m) := Publish(notes, EventOf(t, draws[0]));
        InsertMembers(notes, FreshNote(EventOf(t, draws[0])), n);
        if n in notes1 {
          EventTells(t, draws[0]);
        } else {
          var new' := if m.event.id == draws[0].id then [draws[0].id] else [];
          NewNotesTell(rest, notes1, if limit.Some? then Some(limit.value - |new'|) else None, draws[1..], n);
        }
      }
    }
  }

  /** The ids that a call returns are those of the notifications that it adds. */
  lemma {:induction false} ReturnsNewIds(views: seq<B.Task>, notes: seq<Note>, limit: Option<int>, draws: seq<Draw>, id: int)
    requires |draws| == |views| && FreshDraws(draws, notes)
    ensures
      var (after, ids) := PublishTerminal(views, notes, limit, draws);
      && (forall n :: n in notes ==> n in after)
      && (id in ids <==> exists n :: n in after && n !in notes && n.event.id == id)
    decreases |views|
  {
    hide EventOf, Insert, FindByKey, HasKey, FreshDraws, FreshNote;
    if views != [] {
      FreshRest(draws, notes);
      if B.IsActive(views[0]) {
        ReturnsNewIds(views[1..], notes, limit, draws[1..], id);
      } else {
        var e := EventOf(views[0], draws[0]);
        var (notes1, m) := Publish(notes, e);
        var new' := if m.event.id == draws[0].id then [draws[0].id] else [];
        EventHasKey(views[0], draws[0]);
        PublishAdds(notes, e, draws[0].id);
        DrawsStayFresh(views[0], draws, notes);
        if !(limit.Some? && limit.value <= |new'|) {
          ReturnsNewIds(views[1..], notes1, if limit.Some? then Some(limit.value - |new'|) else None, draws[1..], id);
        }
      }
    }
  }

  /** Either nothing is added and another notification stands for the event, or just the new one. */
  lemma PublishAdds(notes: seq<Note>, e: Event, id: int)
    requires forall n :: n in notes ==> n.event.id != id
    ensures
      var (after, m) := Publish(notes, e);
      && (e.id == id && m.event.id != id ==> after == notes)
      && (e.id == id && m.event.id == id ==> m !in notes && forall n :: n in after <==> n == m || n in notes)
  {
    hide Insert, HasKey, FindByKey;
    forall n: Note ensures n in Insert(notes, FreshNote(e)) <==> n == FreshNote(e) || n in notes {
      InsertMembers(notes, FreshNote(e), n);
    }
  }

  // ----- orders -----

  /** In a store that publishing has built the notifications stand oldest first, those of one time by falling ids. */
  lemma StoreInOrder(notes: seq<Note>, i: nat, j: nat)
    requires R.Structure(notes) && i < j < |notes|
    ensures
      var a, b := notes[i].event, notes[j].event;
      && (a.createdAt < b.createdAt || (a.createdAt == b.createdAt && b.id < a.id))
      && (a.dedupeKey.Some? && a.dedupeKey.value != "" ==> a.dedupeKey != b.dedupeKey)
  {
    assert R.Ordered(notes[i].event, notes[j].event);
  }

  lemma {:induction false} LexTotal(a: string, b: string)
    ensures a == b || LexLess(a, b) || LexLess(b, a)
  {
    if a != [] && b != [] && a[0] == b[0] {
      LexTotal(a[1..], b[1..]);
      assert a == [a[0]] + a[1..] && b == [b[0]] + b[1..];
    }
  }

  lemma {:induction false} LexTransitive(a: string, b: string, c: string)
    requires LexLess(a, b) && LexLess(b, c)
    ensures LexLess(a, c)
  {
    if a != [] && a[0] == b[0] == c[0] { LexTransitive(a[1..], b[1..], c[1..]); }
  }

  lemma ListedTransitive(a: B.Task, b: B.Task, c: B.Task)
    requires ListedBefore(a, b) && ListedBefore(b, c)
    ensures ListedBefore(a, c)
  {
    if ListKey(a) == ListKey(b) == ListKey(c) { LexTransitive(a.id, b.id, c.id); }
  }

  predicate InOrder(views: seq<B.Task>) {
    forall i, j :: 0 <= i < j < |views| ==> ListedBefore(views[i], views[j])
  }

  lemma {:induction false} PutInOrder(views: seq<B.Task>, t: B.Task)
    requires InOrder(views) && forall i :: 0 <= i < |views| ==> views[i].id != t.id
    ensures InOrder(Put(views, t))
  {
    hide ListedBefore;
    if views == [] {
    } else if ListedBefore(t, views[0]) {
      forall i | 0 <= i < |views| ensures ListedBefore(t, views[i]) {
        if i > 0 { ListedTransitive(t, views[0], views[i]); }
      }
    } else {
      var rest := views[1..];
      assert forall i :: 0 <= i < |rest| ==> rest[i] == views[i + 1];
      PutInOrder(rest, t);
      ListedEitherWay(t, views[0]);
      var p := PutSplits(rest, t);
      forall x | x in Put(rest, t) ensures ListedBefore(views[0], x) {
        assert rest == rest[..p] + rest[p..];
      }
    }
  }

  lemma ListedEitherWay(a: B.Task, b: B.Task)
    requires a.id != b.id && !ListedBefore(a, b)
    ensures ListedBefore(b, a)
  {
    LexTotal(a.id, b.id);
  }

  /** Tasks are listed by the time of their last update, or of their creation if that is missing, the latest first, and then by id. */
  lemma {:induction false} ListedInOrder(tasks: seq<B.Task>, i: nat, j: nat)
    requires DistinctIds(tasks) && PlainIds(tasks) && i < j < |ListViews(tasks)|
    ensures
      var a, b := ListViews(tasks)[i], ListViews(tasks)[j];
      var at, bt := if a.updatedAt == 0 then a.createdAt else a.updatedAt, if b.updatedAt == 0 then b.createdAt else b.updatedAt;
      at > bt || (at == bt && LexLess(a.id, b.id))
  {
    hide ListViews;
    AllInOrder(tasks);
    assert ListedBefore(ListViews(tasks)[i], ListViews(tasks)[j]);
  }

  lemma {:induction false} AllInOrder(tasks: seq<B.Task>)
    requires DistinctIds(tasks) && PlainIds(tasks)
    ensures InOrder(ListViews(tasks))
  {
    hide Put, ListedBefore;
    if tasks != [] {
      DistinctRest(tasks);
      AllInOrder(tasks[1..]);
      ListedSame(tasks[1..]);
      forall i | 0 <= i < |ListViews(tasks[1..])|
        ensures ListViews(tasks[1..])[i].id != tasks[0].id
      {
        assert ListViews(tasks[1..])[i] in tasks[1..];
      }
      PutInOrder(ListViews(tasks[1..]), tasks[0]);
    }
  }
}
