/** What holds of memory and file over whole runs of a conversation. */
module ContextRuns {
  import opened Basics
  import opened Blobs
  import opened ContextModels

  datatype Op =
    | DoAppend(messages: seq<Message>)
    | DoCheckpoint(addUserMessage: bool)
    | DoUsage(tokenCount: int)
    | DoRevert(k: int)
    | DoClear
    | DoWritePrompt(prompt: string)
    | DoReopen

  function Do(c: Codec, s: Ctx, op: Op): Ctx {
    match op
    case DoAppend(ms) => Append(c, s, ms)
    case DoCheckpoint(add) => if s.next >= 0 then TakeCheckpoint(c, s, add) else s
    case DoUsage(n) => UpdateTokenCount(s, n)
    case DoRevert(k) => RevertTo(c, s, k)
    case DoClear => Clear(s)
    case DoWritePrompt(p) => WriteSystemPrompt(s, p)
    case DoReopen => Reopen(c, s)
  }

  function DoAll(c: Codec, s: Ctx, ops: seq<Op>): Ctx {
    if ops == [] then s else Do(c, DoAll(c, s, ops[..|ops| - 1]), ops[|ops| - 1])
  }

  // ----- the invariants -----

  /** Replaying the file from scratch gives what is in memory. */
  ghost predicate Agree(c: Codec, s: Ctx) {
    var mem := Replay(c, s.dir, FRESH, s.file);
    mem.history == s.history && mem.tokenCount == s.tokenCount && mem.next == s.next && mem.prompt == s.prompt
  }

  /** A line reads the same however the blobs directory grows: its reference is there already. */
  ghost predicate StableLine(c: Codec, dir: Dir, line: Line) {
    line.Msg? ==> forall later :: Extends(dir, later) ==> ReadBack(c, later, line.message) == ReadBack(c, dir, line.message)
  }

  ghost predicate Stable(c: Codec, dir: Dir, lines: seq<Line>) {
    forall i :: 0 <= i < |lines| ==> StableLine(c, dir, lines[i])
  }

  function Ids(lines: seq<Line>): seq<int> {
    if lines == [] then []
    else Ids(lines[..|lines| - 1]) + if lines[|lines| - 1].Checkpoint? then [lines[|lines| - 1].id] else []
  }

  function UpTo(n: int): seq<int> {
    if n <= 0 then [] else seq(n, i => i)
  }

  /** The file holds the checkpoints 0, 1, ..., next - 1, once each and in this order. */
  ghost predicate Numbered(s: Ctx) {
    s.next >= 0 && Ids(s.file) == UpTo(s.next)
  }

  ghost predicate Survives(c: Codec, m: Message) {
    forall p <- m.parts :: PartSurvives(c, p)
  }

  ghost predicate AllSurvive(c: Codec, ms: seq<Message>) {
    forall i :: 0 <= i < |ms| ==> Survives(c, ms[i])
  }

  ghost predicate Good(c: Codec, s: Ctx) {
    Addressed(c, s.dir) && Stable(c, s.dir, s.file) && Agree(c, s) && Numbered(s)
  }

  /** What the callers see to: messages that survive the file, and a prompt only where none is set. */
  ghost predicate Allowed(c: Codec, s: Ctx, op: Op) {
    match op
    case DoAppend(ms) => AllSurvive(c, ms)
    case DoWritePrompt(p) => s.prompt.None? || s.prompt == Some(p)
    case _ => true
  }

  ghost predicate AllAllowed(c: Codec, s: Ctx, ops: seq<Op>) {
    forall i :: 0 <= i < |ops| ==> Allowed(c, DoAll(c, s, ops[..i]), ops[i])
  }

  // ----- replay -----

  lemma {:induction false} ReplayConcat(c: Codec, dir: Dir, mem: Mem, a: seq<Line>, b: seq<Line>)
    ensures Replay(c, dir, mem, a + b) == Replay(c, dir, Replay(c, dir, mem, a), b)
  {
    if b == [] {
      assert a + b == a;
    } else {
      assert (a + b)[..|a + b| - 1] == a + b[..|b| - 1];
      ReplayConcat(c, dir, mem, a, b[..|b| - 1]);
    }
  }

  lemma {:induction false} ReplayStable(c: Codec, dir: Dir, mem: Mem, lines: seq<Line>, later: Dir)
    requires Stable(c, dir, lines) && Extends(dir, later)
    ensures Replay(c, later, mem, lines) == Replay(c, dir, mem, lines)
  {
    if lines == [] {
    } else {
      ReplayStable(c, dir, mem, lines[..|lines| - 1], later);
      assert StableLine(c, dir, lines[|lines| - 1]);
    }
  }

  lemma StableLater(c: Codec, dir: Dir, lines: seq<Line>, later: Dir)
    requires Stable(c, dir, lines) && Extends(dir, later)
    ensures Stable(c, later, lines)
  {
    forall i | 0 <= i < |lines| ensures StableLine(c, later, lines[i]) {
      assert StableLine(c, dir, lines[i]);
      if lines[i].Msg? {
        forall more | Extends(later, more)
          ensures ReadBack(c, more, lines[i].message) == ReadBack(c, later, lines[i].message)
        {
          assert Extends(dir, more);
        }
      }
    }
  }

  /** Dropping the unreadable lines changes nothing that replay sees. */
  lemma {:induction false} KeptReplays(c: Codec, dir: Dir, mem: Mem, lines: seq<Line>)
    ensures Replay(c, dir, mem, Kept(lines)) == Replay(c, dir, mem, lines)
  {
    if lines == [] {
    } else {
      var init, last := lines[..|lines| - 1], lines[|lines| - 1];
      KeptReplays(c, dir, mem, init);
      if last.Unreadable? {
        assert Kept(lines) == Kept(init);
      } else {
        assert Kept(lines)[..|Kept(lines)| - 1] == Kept(init);
      }
    }
  }

  /** It keeps the numbering, and which lines are stable. */
  lemma {:induction false} KeptIds(c: Codec, dir: Dir, lines: seq<Line>)
    ensures Ids(Kept(lines)) == Ids(lines)
    ensures Stable(c, dir, lines) ==> Stable(c, dir, Kept(lines))
  {
    hide StableLine;
    if lines == [] {
    } else {
      var init, last := lines[..|lines| - 1], lines[|lines| - 1];
      KeptIds(c, dir, init);
      if last.Unreadable? {
        assert Kept(lines) == Kept(init);
      } else {
        assert Kept(lines)[..|Kept(lines)| - 1] == Kept(init);
      }
    }
  }

  // ----- the numbering -----

  lemma {:induction false} IdsConcat(a: seq<Line>, b: seq<Line>)
    ensures Ids(a + b) == Ids(a) + Ids(b)
  {
    if b == [] {
      assert a + b == a;
    } else {
      assert (a + b)[..|a + b| - 1] == a + b[..|b| - 1];
      IdsConcat(a, b[..|b| - 1]);
    }
  }

  lemma {:induction false} IdsNone(lines: seq<Line>, k: int)
    ensures k in Ids(lines) <==> Checkpoint(k) in lines
  {
    if lines == [] {
    } else {
      IdsNone(lines[..|lines| - 1], k);
      assert lines == lines[..|lines| - 1] + [lines[|lines| - 1]];
    }
  }

  lemma {:induction false} IdsSplit(lines: seq<Line>, i: nat)
    requires i < |lines| && lines[i].Checkpoint?
    ensures var before := Ids(lines[..i]);
            |before| < |Ids(lines)| && Ids(lines)[..|before|] == before && Ids(lines)[|before|] == lines[i].id
  {
    if i < |lines| - 1 {
      assert lines[..|lines| - 1][..i] == lines[..i];
      IdsSplit(lines[..|lines| - 1], i);
    }
  }

  /** Cutting a numbered file at checkpoint k leaves the checkpoints below k. */
  lemma IdsBefore(lines: seq<Line>, n: int, k: int)
    requires n >= 0 && k < n && Ids(lines) == UpTo(n)
    ensures Ids(lines[..FirstCheckpoint(lines, k)]) == UpTo(if k < 0 then n else k)
    ensures k < 0 <==> FirstCheckpoint(lines, k) == |lines|
  {
    var i := FirstCheckpoint(lines, k);
    IdsNone(lines, k);
    assert k >= 0 ==> UpTo(n)[k] == k;
    assert lines[..|lines|] == lines;
    if i < |lines| {
      IdsSplit(lines, i);
      assert UpTo(n)[|Ids(lines[..i])|] == |Ids(lines[..i])|;
    } else {
      assert k !in Ids(lines);
    }
  }

  lemma {:induction false} ReplayNext(c: Codec, dir: Dir, lines: seq<Line>)
    ensures Replay(c, dir, FRESH, lines).next == if Ids(lines) == [] then 0 else Ids(lines)[|Ids(lines)| - 1] + 1
  {
    if lines == [] {
    } else {
      ReplayNext(c, dir, lines[..|lines| - 1]);
    }
  }

  // ----- appending -----

  ghost predicate AllMessages(lines: seq<Line>) {
    forall i :: 0 <= i < |lines| ==> lines[i].Msg?
  }

  /** What replay makes of serialised messages. */
  ghost function BackAll(c: Codec, dir: Dir, lines: seq<Line>): (r: seq<Message>)
    requires AllMessages(lines)
    ensures |r| == |lines| && forall i :: 0 <= i < |r| ==> r[i] == ReadBack(c, dir, lines[i].message)
  {
    seq(|lines|, i requires 0 <= i < |lines| => ReadBack(c, dir, lines[i].message))
  }

  lemma {:induction false} SerializeExtends(c: Codec, dir: Dir, ms: seq<Message>)
    requires Lawful(c) && Addressed(c, dir)
    ensures var (lines, d) := Serialize(c, dir, ms);
            |lines| == |ms| && AllMessages(lines) && Extends(dir, d) && Addressed(c, d)
  {
    if ms == [] {
    } else {
      SerializeExtends(c, dir, ms[..|ms| - 1]);
      ExternalizePartsExtends(c, Serialize(c, dir, ms[..|ms| - 1]).1, ms[|ms| - 1].parts);
    }
  }

  /** Message i is written by externalising it into the directory d as it was at that point. */
  lemma {:induction false} SerializeAt(c: Codec, dir: Dir, ms: seq<Message>, i: nat) returns (d: Dir)
    requires Lawful(c) && Addressed(c, dir) && i < |ms|
    ensures |Serialize(c, dir, ms).0| == |ms| && Addressed(c, d)
    ensures Serialize(c, dir, ms).0[i] == Msg(ms[i].(parts := ExternalizeParts(c, d, ms[i].parts).0))
    ensures Extends(ExternalizeParts(c, d, ms[i].parts).1, Serialize(c, dir, ms).1)
  {
    var init := ms[..|ms| - 1];
    SerializeExtends(c, dir, ms);
    SerializeExtends(c, dir, init);
    if i == |ms| - 1 {
      d := Serialize(c, dir, init).1;
    } else {
      d := SerializeAt(c, dir, init, i);
      ExternalizePartsExtends(c, Serialize(c, dir, init).1, ms[|ms| - 1].parts);
    }
  }

  /** A serialised message reads back as it was exactly if it survives, however the directory grows later. */
  lemma SerializeExact(c: Codec, dir: Dir, ms: seq<Message>, later: Dir, i: nat)
    requires Lawful(c) && Addressed(c, dir) && Extends(Serialize(c, dir, ms).1, later) && i < |ms|
    ensures var lines := Serialize(c, dir, ms).0;
            |lines| == |ms| && lines[i].Msg? && (ReadBack(c, later, lines[i].message) == ms[i] <==> Survives(c, ms[i]))
  {
    var d := SerializeAt(c, dir, ms, i);
    MessageExact(c, d, ms[i], later);
  }

  lemma MessageExact(c: Codec, dir: Dir, m: Message, later: Dir)
    requires Lawful(c) && Addressed(c, dir) && Extends(ExternalizeParts(c, dir, m.parts).1, later)
    ensures ReadBack(c, later, m.(parts := ExternalizeParts(c, dir, m.parts).0)) == m <==> Survives(c, m)
  {
    PartsRoundTripIff(c, dir, m.parts, later);
  }

  lemma {:induction false} ReplayMessages(c: Codec, dir: Dir, mem: Mem, lines: seq<Line>)
    requires AllMessages(lines)
    ensures Replay(c, dir, mem, lines) == mem.(history := mem.history + BackAll(c, dir, lines), tail := mem.tail + BackAll(c, dir, lines))
  {
    if lines == [] {
      assert mem.history + BackAll(c, dir, lines) == mem.history && mem.tail + BackAll(c, dir, lines) == mem.tail;
    } else {
      var init := lines[..|lines| - 1];
      ReplayMessages(c, dir, mem, init);
      assert BackAll(c, dir, lines) == BackAll(c, dir, init) + [ReadBack(c, dir, lines[|lines| - 1].message)];
    }
  }

  lemma {:induction false} IdsMessages(lines: seq<Line>)
    requires AllMessages(lines)
    ensures Ids(lines) == []
  {
    if lines == [] {
    } else {
      IdsMessages(lines[..|lines| - 1]);
    }
  }

  /** Replaying an appended file: the old history, then what the new lines read back as. */
  lemma AppendReplays(c: Codec, s: Ctx, ms: seq<Message>)
    requires Lawful(c) && Good(c, s)
    ensures var (lines, d) := Serialize(c, s.dir, ms);
            && |lines| == |ms| && AllMessages(lines) && Extends(s.dir, d) && Addressed(c, d)
            && var mem := Replay(c, s.dir, FRESH, s.file);
               Replay(c, d, FRESH, s.file + lines) ==
                 mem.(history := s.history + BackAll(c, d, lines), tail := mem.tail + BackAll(c, d, lines))
  {
    var (lines, d) := Serialize(c, s.dir, ms);
    SerializeExtends(c, s.dir, ms);
    ReplayConcat(c, d, FRESH, s.file, lines);
    ReplayStable(c, s.dir, FRESH, s.file, d);
    ReplayMessages(c, d, Replay(c, d, FRESH, s.file), lines);
  }

  lemma BackAllExact(c: Codec, dir: Dir, ms: seq<Message>)
    requires Lawful(c) && Addressed(c, dir)
    ensures var (lines, d) := Serialize(c, dir, ms);
            && |lines| == |ms| && AllMessages(lines)
            && (BackAll(c, d, lines) == ms <==> AllSurvive(c, ms))
  {
    var (lines, d) := Serialize(c, dir, ms);
    SerializeExtends(c, dir, ms);
    var back := BackAll(c, d, lines);
    forall i | 0 <= i < |ms| ensures back[i] == ms[i] <==> Survives(c, ms[i]) {
      SerializeExact(c, dir, ms, d, i);
    }
  }

  /** After an append the file still replays to memory if and only if every message survives it. */
  lemma AppendAgreesIff(c: Codec, s: Ctx, ms: seq<Message>)
    requires Lawful(c) && Good(c, s)
    ensures Agree(c, Append(c, s, ms)) <==> AllSurvive(c, ms)
  {
    AppendReplays(c, s, ms);
    BackAllExact(c, s.dir, ms);
    var (lines, d) := Serialize(c, s.dir, ms);
    SamePrefix(s.history, BackAll(c, d, lines), ms);
  }

  lemma SamePrefix<T>(a: seq<T>, x: seq<T>, y: seq<T>)
    ensures a + x == a + y <==> x == y
  {
    assert (a + x)[|a|..] == x && (a + y)[|a|..] == y;
  }

  lemma AppendStable(c: Codec, s: Ctx, ms: seq<Message>)
    requires Lawful(c) && Addressed(c, s.dir) && Stable(c, s.dir, s.file) && AllSurvive(c, ms)
    ensures Addressed(c, Append(c, s, ms).dir) && Stable(c, Append(c, s, ms).dir, Append(c, s, ms).file)
  {
    SerializeExtends(c, s.dir, ms);
    StableLater(c, s.dir, s.file, Serialize(c, s.dir, ms).1);
    SerializeStable(c, s.dir, ms);
  }

  lemma AppendNumbered(c: Codec, s: Ctx, ms: seq<Message>)
    requires Lawful(c) && Addressed(c, s.dir) && Numbered(s)
    ensures Numbered(Append(c, s, ms))
  {
    var lines := Serialize(c, s.dir, ms).0;
    SerializeExtends(c, s.dir, ms);
    IdsConcat(s.file, lines);
    IdsMessages(lines);
  }

  lemma AppendKeeps(c: Codec, s: Ctx, ms: seq<Message>)
    requires Lawful(c) && Good(c, s) && AllSurvive(c, ms)
    ensures Good(c, Append(c, s, ms))
  {
    AppendAgreesIff(c, s, ms);
    AppendStable(c, s, ms);
    AppendNumbered(c, s, ms);
  }

  lemma SerializeStable(c: Codec, dir: Dir, ms: seq<Message>)
    requires Lawful(c) && Addressed(c, dir) && AllSurvive(c, ms)
    ensures Stable(c, Serialize(c, dir, ms).1, Serialize(c, dir, ms).0)
  {
    var (lines, d) := Serialize(c, dir, ms);
    SerializeExtends(c, dir, ms);
    forall i | 0 <= i < |lines| ensures StableLine(c, d, lines[i]) {
      SerializeExact(c, dir, ms, d, i);
      forall later | Extends(d, later) ensures ReadBack(c, later, lines[i].message) == ms[i] {
        SerializeExact(c, dir, ms, later, i);
      }
    }
  }

  // ----- the other operations -----

  lemma {:induction false} ReplayPrompt(c: Codec, dir: Dir, mem: Mem, prompt: string, lines: seq<Line>)
    requires mem.prompt.None?
    ensures var plain := Replay(c, dir, mem, lines);
            Replay(c, dir, mem.(prompt := Some(prompt)), lines) ==
              plain.(prompt := if plain.prompt.None? then Some(prompt) else plain.prompt)
  {
    if lines == [] {
    } else {
      ReplayPrompt(c, dir, mem, prompt, lines[..|lines| - 1]);
    }
  }

  /** A system prompt is prepended, but replay lets the last one win: it must be the first, or the same. */
  lemma WritePromptAgreesIff(c: Codec, s: Ctx, prompt: string)
    requires Agree(c, s)
    ensures Agree(c, WriteSystemPrompt(s, prompt)) <==> s.prompt.None? || s.prompt == Some(prompt)
  {
    ReplayConcat(c, s.dir, FRESH, [SystemPrompt(prompt)], s.file);
    assert Replay(c, s.dir, FRESH, [SystemPrompt(prompt)]) == FRESH.(prompt := Some(prompt)) by {
      assert [SystemPrompt(prompt)][..0] == [];
    }
    ReplayPrompt(c, s.dir, FRESH, prompt, s.file);
  }

  lemma AppendLine(c: Codec, s: Ctx, line: Line)
    ensures Replay(c, s.dir, FRESH, s.file + [line]) == Apply(c, s.dir, Replay(c, s.dir, FRESH, s.file), line)
    ensures Ids(s.file + [line]) == Ids(s.file) + if line.Checkpoint? then [line.id] else []
  {
    assert (s.file + [line])[..|s.file|] == s.file;
  }

  /** The marker of a checkpoint is plain text. */
  lemma MarkerSurvives(c: Codec, id: nat)
    ensures AllSurvive(c, [CheckpointMessage(id)])
  {
  }

  lemma PlainLineStable(c: Codec, dir: Dir, lines: seq<Line>, line: Line)
    requires Stable(c, dir, lines) && !line.Msg?
    ensures Stable(c, dir, lines + [line])
  {
  }

  lemma UpToNext(n: nat)
    ensures UpTo(n) + [n] == UpTo(n + 1)
  {
  }

  lemma NumberKeeps(c: Codec, s: Ctx)
    requires Good(c, s)
    ensures Good(c, s.(next := s.next + 1, file := s.file + [Checkpoint(s.next)]))
  {
    AppendLine(c, s, Checkpoint(s.next));
    PlainLineStable(c, s.dir, s.file, Checkpoint(s.next));
    UpToNext(s.next);
  }

  lemma CheckpointKeeps(c: Codec, s: Ctx, addUserMessage: bool)
    requires Lawful(c) && Good(c, s)
    ensures Good(c, TakeCheckpoint(c, s, addUserMessage))
  {
    NumberKeeps(c, s);
    if addUserMessage {
      MarkerSurvives(c, s.next);
      AppendKeeps(c, s.(next := s.next + 1, file := s.file + [Checkpoint(s.next)]), [CheckpointMessage(s.next)]);
    }
  }

  lemma UsageKeeps(c: Codec, s: Ctx, n: int)
    requires Good(c, s)
    ensures Good(c, UpdateTokenCount(s, n))
  {
    AppendLine(c, s, Usage(n));
    PlainLineStable(c, s.dir, s.file, Usage(n));
  }

  lemma WritePromptKeeps(c: Codec, s: Ctx, prompt: string)
    requires Good(c, s) && (s.prompt.None? || s.prompt == Some(prompt))
    ensures Good(c, WriteSystemPrompt(s, prompt))
  {
    WritePromptAgreesIff(c, s, prompt);
    IdsConcat([SystemPrompt(prompt)], s.file);
    assert Ids([SystemPrompt(prompt)]) == [] by { assert [SystemPrompt(prompt)][..0] == []; }
  }

  lemma ReopenKeeps(c: Codec, s: Ctx)
    requires Good(c, s)
    ensures Good(c, Reopen(c, s)) && Reopen(c, s) == s.(pending := Reopen(c, s).pending)
  {
  }

  lemma RevertNumbered(c: Codec, s: Ctx, k: int)
    requires Numbered(s) && k < s.next
    ensures Numbered(RevertTo(c, s, k)) && RevertTo(c, s, k).next == if k < 0 then s.next else k
  {
    var before := s.file[..FirstCheckpoint(s.file, k)];
    KeptIds(c, s.dir, before);
    IdsBefore(s.file, s.next, k);
    ReplayNext(c, s.dir, before);
  }

  lemma RevertKeeps(c: Codec, s: Ctx, k: int)
    requires Good(c, s)
    ensures Good(c, RevertTo(c, s, k))
    ensures 0 <= k < s.next ==> RevertTo(c, s, k).next == k
  {
    if k < s.next {
      var before := s.file[..FirstCheckpoint(s.file, k)];
      RevertNumbered(c, s, k);
      KeptReplays(c, s.dir, FRESH, before);
      KeptIds(c, s.dir, before);
    }
  }

  lemma StepKeeps(c: Codec, s: Ctx, op: Op)
    requires Lawful(c) && Good(c, s) && Allowed(c, s, op)
    ensures Good(c, Do(c, s, op))
  {
    match op
    case DoAppend(ms) => AppendKeeps(c, s, ms);
    case DoCheckpoint(add) => CheckpointKeeps(c, s, add);
    case DoUsage(n) => UsageKeeps(c, s, n);
    case DoRevert(k) => RevertKeeps(c, s, k);
    case DoClear => assert Replay(c, s.dir, FRESH, []) == FRESH;
    case DoWritePrompt(p) => WritePromptKeeps(c, s, p);
    case DoReopen => ReopenKeeps(c, s);
  }

  /** Over every run, the file replays to memory and numbers its checkpoints from 0. */
  lemma {:induction false} RunKeeps(c: Codec, s: Ctx, ops: seq<Op>)
    requires Lawful(c) && Good(c, s) && AllAllowed(c, s, ops)
    ensures Good(c, DoAll(c, s, ops))
  {
    if ops == [] {
    } else {
      var init := ops[..|ops| - 1];
      assert forall i :: 0 <= i < |init| ==> init[..i] == ops[..i];
      RunKeeps(c, s, init);
      StepKeeps(c, DoAll(c, s, init), ops[|ops| - 1]);
    }
  }

  /**
   A Context restored from a file that numbers its checkpoints, and whose lines do not depend on blobs
   yet to be written, starts such a run; so does an empty one.
   */
  lemma StartGood(c: Codec, file: seq<Line>, dir: Dir, n: nat)
    requires Addressed(c, dir) && Stable(c, dir, file) && Ids(file) == UpTo(n)
    ensures Good(c, Restore(c, Ctx([], 0, 0, 0, None, file, dir)))
  {
    ReplayNext(c, dir, file);
    assert file == [] ==> Replay(c, dir, FRESH, file) == FRESH;
  }
}
