/** The notification manager: the store is read, changed in loops, and written back. */
module NotificationManager {
  import opened Basics
  import opened N = Notifications

  class NotificationManager {
    const staleAfter: int
    var notes: seq<Note>

    constructor (staleAfter: int)
      ensures this.staleAfter == staleAfter && notes == []
    {
      this.staleAfter := staleAfter;
      notes := [];
    }

    method FindByKey(key: Option<string>) returns (r: Option<Note>)
      ensures r == N.FindByKey(notes, key)
    {
      var i := |notes|;
      assert notes[..|notes|] == notes;
      while 0 < i
        invariant 0 <= i <= |notes|
        invariant N.FindByKey(notes[..i], key) == N.FindByKey(notes, key)
      {
        i := i - 1;
        assert notes[..i + 1][..i] == notes[..i];
        if notes[i].event.dedupeKey == key {
          return Some(notes[i]);
        }
      }
      return None;
    }

    method Publish(e: Event) returns (n: Note)
      modifies `notes
      ensures (notes, n) == N.Publish(old(notes), e)
    {
      hide N.FindByKey, N.Insert;
      if HasKey(e) {
        var existing := FindByKey(e.dedupeKey);
        if existing.Some? {
          return existing.value;
        }
      }
      n := FreshNote(e);
      notes := Insert(notes, n);
    }

    method Recover(now: int)
      modifies `notes
      ensures notes == N.Recover(old(notes), now, staleAfter)
    {
      ghost var was := notes;
      for i := 0 to |notes|
        invariant |notes| == |was|
        invariant forall j :: 0 <= j < i ==> notes[j] == RecoverNote(was[j], now, staleAfter)
        invariant forall j :: i <= j < |was| ==> notes[j] == was[j]
      {
        var sinks, todo := notes[i].sinks, notes[i].sinks.Keys;
        while todo != {}
          invariant sinks.Keys == was[i].sinks.Keys && todo <= sinks.Keys
          invariant forall sink :: sink in todo ==> sinks[sink] == was[i].sinks[sink]
          invariant forall sink :: sink in sinks && sink !in todo ==>
            sinks[sink] == RecoverState(was[i].sinks[sink], now, staleAfter)
          decreases |todo|
        {
          var sink :| sink in todo;
          todo := todo - {sink};
          if Stale(sinks[sink], now, staleAfter) {
            sinks := sinks[sink := sinks[sink].(status := Pending, claimedAt := None)];
          }
        }
        assert sinks == RecoverNote(was[i], now, staleAfter).sinks;
        notes := notes[i := notes[i].(sinks := sinks)];
      }
    }

    method ClaimForSink(sink: Sink, limit: int, now1: int, now2: int) returns (claimed: seq<Note>)
      modifies `notes
      ensures (notes, claimed) == N.ClaimForSink(old(notes), sink, limit, now1, now2, staleAfter)
    {
      hide N.Claim, N.Recover, Extends, Available, ClaimNote;
      Recover(now1);
      ghost var was, want := notes, N.Claim(notes, sink, limit, now2);
      claimed := [];
      var i, done := 0, false;
      ExtendsNothing(was, sink, limit, now2);
      while i < |notes| && !done
        invariant 0 <= i <= |notes| == |was|
        invariant notes[i..] == was[i..]
        invariant !done ==>
          && |claimed| < (if limit < 1 then 1 else limit)
          && Extends(want, notes[..i], claimed, Claim(was[i..], sink, limit - |claimed|, now2))
        invariant done ==> Extends(want, notes[..i], claimed, (was[i..], []))
        decreases |notes| - i, !done
      {
        ClaimStep(was, i, sink, limit - |claimed|, now2);
        ghost var before, taken := notes[..i], claimed;
        if Available(notes[i], sink) {
          ClaimedIsTaken(notes[i], sink, now2);
          var mine := ClaimNote(notes[i], sink, now2);
          notes := notes[i := mine];
          claimed := claimed + [mine];
          done := |claimed| >= limit;
          ExtendsMore(want, before, taken, mine, [mine],
            if done then (was[i + 1..], []) else Claim(was[i + 1..], sink, limit - |claimed|, now2));
        } else {
          ExtendsMore(want, before, taken, notes[i], [], Claim(was[i + 1..], sink, limit - |claimed|, now2));
          assert claimed + [] == claimed;
        }
        i := i + 1;
        assert notes[..i] == before + [notes[i - 1]];
      }
      ClaimRest(was, sink, limit - |claimed|, now2);
      ExtendsAll(want, notes, i, claimed);
    }

    method Ack(sink: Sink, id: int, now: int) returns (r: Result<(), Error>)
      modifies `notes
      ensures r.Ok? <==> N.Ack(old(notes), sink, id, now).Ok?
      ensures notes == if r.Ok? then N.Ack(old(notes), sink, id, now).value else old(notes)
    {
      var i := Position(notes, id);
      if i == |notes| {
        return Err(NotFound);
      }
      if sink in notes[i].sinks {
        notes := notes[i := AckNote(notes[i], sink, now)];
      }
      return Ok(());
    }

    method DeliverPending(sink: Sink, limit: int, now1: int, now2: int, handled: int -> bool, at: int -> int)
      modifies `notes
      ensures
        var (after, claimed) := N.ClaimForSink(old(notes), sink, limit, now1, now2, staleAfter);
        notes == AckHandled(after, sink, claimed, handled, at)
    {
      hide N.ClaimForSink, N.Ack;
      var claimed := ClaimForSink(sink, limit, now1, now2);
      ghost var after := notes;
      for i := 0 to |claimed|
        invariant notes == AckHandled(after, sink, claimed[..i], handled, at)
      {
        assert claimed[..i + 1][..i] == claimed[..i];
        var id := claimed[i].event.id;
        if handled(id) {
          var r := Ack(sink, id, at(id));
        }
      }
      assert claimed[..|claimed|] == claimed;
    }
  }

  /** Whether r is what is done so far, followed by the rest. */
  ghost predicate Extends(r: (seq<Note>, seq<Note>), done: seq<Note>, claimed: seq<Note>, rest: (seq<Note>, seq<Note>)) {
    r == (done + rest.0, claimed + rest.1)
  }

  lemma ExtendsNothing(notes: seq<Note>, sink: Sink, limit: int, now: int)
    ensures Extends(Claim(notes, sink, limit, now), notes[..0], [], Claim(notes[0..], sink, limit, now))
  {
    assert notes[0..] == notes;
    var r := Claim(notes, sink, limit, now);
    assert notes[..0] + r.0 == r.0 && [] + r.1 == r.1;
  }

  lemma ExtendsMore(r: (seq<Note>, seq<Note>), done: seq<Note>, claimed: seq<Note>, n: Note, c: seq<Note>, rest: (seq<Note>, seq<Note>))
    requires Extends(r, done, claimed, ([n] + rest.0, c + rest.1))
    ensures Extends(r, done + [n], claimed + c, rest)
  {
    assert done + ([n] + rest.0) == done + [n] + rest.0;
    assert claimed + (c + rest.1) == claimed + c + rest.1;
  }

  lemma ExtendsAll(r: (seq<Note>, seq<Note>), notes: seq<Note>, i: nat, claimed: seq<Note>)
    requires i <= |notes|
    ensures Extends(r, notes[..i], claimed, (notes[i..], [])) ==> r == (notes, claimed)
    ensures i == |notes| && Extends(r, notes[..i], claimed, ([], [])) ==> r == (notes, claimed)
  {
    assert notes[..i] + notes[i..] == notes && claimed + [] == claimed;
  }

  lemma ClaimStep(notes: seq<Note>, i: nat, sink: Sink, limit: int, now: int)
    requires i < |notes|
    ensures !Available(notes[i], sink) ==>
      var rest := Claim(notes[i + 1..], sink, limit, now);
      Claim(notes[i..], sink, limit, now) == ([notes[i]] + rest.0, [] + rest.1)
    ensures Available(notes[i], sink) ==>
      var mine := ClaimNote(notes[i], sink, now);
      var rest := if limit <= 1 then (notes[i + 1..], []) else Claim(notes[i + 1..], sink, limit - 1, now);
      Claim(notes[i..], sink, limit, now) == ([mine] + rest.0, [mine] + rest.1)
  {
    hide ClaimNote, Available;
    var tail := notes[i..];
    assert tail[1..] == notes[i + 1..] && tail[0] == notes[i];
    if !Available(notes[i], sink) {
      var rest := Claim(notes[i + 1..], sink, limit, now);
      assert [] + rest.1 == rest.1;
    } else {
      ClaimedIsTaken(notes[i], sink, now);
      var mine := ClaimNote(notes[i], sink, now);
      assert [mine] + [] == [mine];
    }
  }

  lemma ClaimRest(notes: seq<Note>, sink: Sink, limit: int, now: int)
    ensures Claim(notes[|notes|..], sink, limit, now) == ([], [])
  {
  }
}
