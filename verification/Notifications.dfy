/**
 Notifications for several sinks: each sink claims what is pending for it, oldest first, and
 acknowledges it; a claim that is not acknowledged in time becomes pending again.

 The store is the sequence of its notifications, oldest first: the reverse of the order in which
 they are listed. Times are in milliseconds.
 */
module Notifications {
  import opened Basics

  datatype Sink = Llm | Wire | Shell

  datatype Status = Pending | Claimed | Acked

  datatype SinkState = SinkState(status: Status, claimedAt: Option<int>, ackedAt: Option<int>)

  const FRESH: SinkState := SinkState(Pending, None, None)

  datatype Event = Event(id: int, createdAt: int, dedupeKey: Option<string>, targets: seq<Sink>, body: string)

  datatype Note = Note(event: Event, sinks: map<Sink, SinkState>)

  datatype Error = NotFound

  // ----- one sink of one notification -----

  predicate Stale(s: SinkState, now: int, staleAfter: int) {
    s.status.Claimed? && s.claimedAt.Some? && now - s.claimedAt.value > staleAfter
  }

  function RecoverState(s: SinkState, now: int, staleAfter: int): SinkState {
    if Stale(s, now, staleAfter) then s.(status := Pending, claimedAt := None) else s
  }

  function RecoverNote(n: Note, now: int, staleAfter: int): Note {
    n.(sinks := map sink | sink in n.sinks :: RecoverState(n.sinks[sink], now, staleAfter))
  }

  predicate Available(n: Note, sink: Sink) {
    sink in n.sinks && n.sinks[sink].status.Pending?
  }

  function ClaimNote(n: Note, sink: Sink, now: int): Note
    requires sink in n.sinks
  {
    n.(sinks := n.sinks[sink := n.sinks[sink].(status := Claimed, claimedAt := Some(now))])
  }

  function AckNote(n: Note, sink: Sink, now: int): Note {
    if sink !in n.sinks then n
    else n.(sinks := n.sinks[sink := SinkState(Acked, None, Some(now))])
  }

  // ----- the store -----

  function Recover(notes: seq<Note>, now: int, staleAfter: int): (r: seq<Note>)
    ensures |r| == |notes|
    ensures forall i :: 0 <= i < |notes| ==> r[i] == RecoverNote(notes[i], now, staleAfter)
  {
    seq(|notes|, i requires 0 <= i < |notes| => RecoverNote(notes[i], now, staleAfter))
  }

  /** The store after claiming, and the claimed notifications in the order they are claimed. */
  function Claim(notes: seq<Note>, sink: Sink, limit: int, now: int): (r: (seq<Note>, seq<Note>))
    ensures |r.0| == |notes|
  {
    if notes == [] then ([], [])
    else if !Available(notes[0], sink) then
      var (after, claimed) := Claim(notes[1..], sink, limit, now);
      ([notes[0]] + after, claimed)
    else
      var mine := ClaimNote(notes[0], sink, now);
      if limit <= 1 then ([mine] + notes[1..], [mine])
      else
        var (after, claimed) := Claim(notes[1..], sink, limit - 1, now);
        ([mine] + after, [mine] + claimed)
  }

  /** Recovering reads the clock first, claiming reads it again. */
  function ClaimForSink(notes: seq<Note>, sink: Sink, limit: int, now1: int, now2: int, staleAfter: int): (seq<Note>, seq<Note>) {
    Claim(Recover(notes, now1, staleAfter), sink, limit, now2)
  }

  /** The position of the notification with this id, or the length of the store. */
  function Position(notes: seq<Note>, id: int): (i: nat)
    ensures i <= |notes| && (i < |notes| ==> notes[i].event.id == id)
    ensures forall j :: 0 <= j < i ==> notes[j].event.id != id
  {
    if notes == [] || notes[0].event.id == id then 0 else 1 + Position(notes[1..], id)
  }

  function Ack(notes: seq<Note>, sink: Sink, id: int, now: int): Result<seq<Note>, Error> {
    var i := Position(notes, id);
    if i == |notes| then Err(NotFound) else Ok(notes[i := AckNote(notes[i], sink, now)])
  }

  predicate Before(a: Event, b: Event) {
    a.createdAt < b.createdAt || (a.createdAt == b.createdAt && a.id > b.id)
  }

  function Insert(notes: seq<Note>, n: Note): seq<Note> {
    if notes == [] || Before(n.event, notes[0].event) then [n] + notes else [notes[0]] + Insert(notes[1..], n)
  }

  /** An empty key is no key. */
  predicate HasKey(e: Event) { e.dedupeKey.Some? && e.dedupeKey.value != "" }

  /** The newest notification with this key. */
  function FindByKey(notes: seq<Note>, key: Option<string>): (r: Option<Note>)
    ensures r.Some? ==> r.value in notes && r.value.event.dedupeKey == key
    ensures r.None? ==> forall n :: n in notes ==> n.event.dedupeKey != key
  {
    if notes == [] then None
    else if notes[|notes| - 1].event.dedupeKey == key then Some(notes[|notes| - 1])
    else FindByKey(notes[..|notes| - 1], key)
  }

  function FreshNote(e: Event): Note {
    Note(e, map sink | sink in e.targets :: FRESH)
  }

  /** The store after publishing, and the notification that stands for the event. */
  function Publish(notes: seq<Note>, e: Event): (seq<Note>, Note) {
    var existing := if HasKey(e) then FindByKey(notes, e.dedupeKey) else None;
    if existing.Some? then (notes, existing.value) else (Insert(notes, FreshNote(e)), FreshNote(e))
  }

  // ----- what a claim takes -----

  /** The events pending for a sink, oldest first. */
  function PendingFor(notes: seq<Note>, sink: Sink): seq<Event> {
    if notes == [] then []
    else (if Available(notes[0], sink) then [notes[0].event] else []) + PendingFor(notes[1..], sink)
  }

  function Events(notes: seq<Note>): (r: seq<Event>)
    ensures |r| == |notes|
    ensures forall i :: 0 <= i < |notes| ==> r[i] == notes[i].event
  {
    if notes == [] then [] else [notes[0].event] + Events(notes[1..])
  }

  /** A limit below one still claims one. */
  function Take(limit: int, available: nat): nat {
    var n := if limit < 1 then 1 else limit;
    if available < n then available else n
  }

  lemma ClaimedIsTaken(n: Note, sink: Sink, now: int)
    requires Available(n, sink)
    ensures sink in n.sinks && ClaimNote(n, sink, now).event == n.event && !Available(ClaimNote(n, sink, now), sink)
  {
  }

  /** Whether a claim took exactly the oldest pending ones, up to the limit, and left the others pending. */
  predicate TookOldest(notes: seq<Note>, sink: Sink, limit: int, after: seq<Note>, claimed: seq<Note>) {
    var pending := PendingFor(notes, sink);
    var n := Take(limit, |pending|);
    && Events(claimed) == pending[..n]
    && PendingFor(after, sink) == pending[n..]
    && Events(after) == Events(notes)
  }

  lemma {:induction false} ClaimTakesOldest(notes: seq<Note>, sink: Sink, limit: int, now: int)
    ensures TookOldest(notes, sink, limit, Claim(notes, sink, limit, now).0, Claim(notes, sink, limit, now).1)
  {
    hide Available, ClaimNote, TookOldest;
    if notes == [] {
      TookNothing(sink, limit);
    } else {
      assert notes == [notes[0]] + notes[1..];
      if Available(notes[0], sink) { ClaimedIsTaken(notes[0], sink, now); }
      if Available(notes[0], sink) && limit <= 1 {
        TookLast(notes[0], ClaimNote(notes[0], sink, now), notes[1..], sink, limit);
      } else {
        var next := if Available(notes[0], sink) then limit - 1 else limit;
        ClaimTakesOldest(notes[1..], sink, next, now);
        var (after, claimed) := Claim(notes[1..], sink, next, now);
        if Available(notes[0], sink) {
          TookMore(notes[0], ClaimNote(notes[0], sink, now), notes[1..], sink, limit, after, claimed);
        } else {
          Skipped(notes[0], notes[1..], sink, limit, after, claimed);
        }
      }
    }
  }

  lemma TookNothing(sink: Sink, limit: int)
    ensures TookOldest([], sink, limit, [], [])
  {
  }

  lemma TookLast(n: Note, mine: Note, rest: seq<Note>, sink: Sink, limit: int)
    requires Available(n, sink) && !Available(mine, sink) && mine.event == n.event && limit <= 1
    ensures TookOldest([n] + rest, sink, limit, [mine] + rest, [mine])
  {
    hide Available, PendingFor, Events;
    Consed(n, rest, sink);
    Consed(mine, rest, sink);
    assert [mine] + [] == [mine] && Events([]) == [];
    Consed(mine, [], sink);
  }

  lemma TookMore(n: Note, mine: Note, rest: seq<Note>, sink: Sink, limit: int, after: seq<Note>, claimed: seq<Note>)
    requires Available(n, sink) && !Available(mine, sink) && mine.event == n.event && 1 < limit
    requires TookOldest(rest, sink, limit - 1, after, claimed)
    ensures TookOldest([n] + rest, sink, limit, [mine] + after, [mine] + claimed)
  {
    hide Available, PendingFor, Events;
    Consed(n, rest, sink);
    Consed(mine, after, sink);
    Consed(mine, claimed, sink);
  }

  lemma Skipped(n: Note, rest: seq<Note>, sink: Sink, limit: int, after: seq<Note>, claimed: seq<Note>)
    requires !Available(n, sink)
    requires TookOldest(rest, sink, limit, after, claimed)
    ensures TookOldest([n] + rest, sink, limit, [n] + after, claimed)
  {
    hide Available, PendingFor, Events;
    Consed(n, rest, sink);
    Consed(n, after, sink);
    assert [] + PendingFor(rest, sink) == PendingFor(rest, sink);
    assert [] + PendingFor(after, sink) == PendingFor(after, sink);
  }

  lemma Consed(n: Note, rest: seq<Note>, sink: Sink)
    ensures Events([n] + rest) == [n.event] + Events(rest)
    ensures PendingFor([n] + rest, sink) == (if Available(n, sink) then [n.event] else []) + PendingFor(rest, sink)
  {
    hide Available;
    assert ([n] + rest)[1..] == rest;
  }

  // ----- delivery -----

  /** What is acknowledged of the claimed notifications: those whose handler does not fail. */
  function AckHandled(notes: seq<Note>, sink: Sink, claimed: seq<Note>, handled: int -> bool, at: int -> int): seq<Note> {
    if claimed == [] then notes
    else
      var before := AckHandled(notes, sink, claimed[..|claimed| - 1], handled, at);
      var id := claimed[|claimed| - 1].event.id;
      var r := if handled(id) then Ack(before, sink, id, at(id)) else Ok(before);
      if r.Ok? then r.value else before
  }
}
