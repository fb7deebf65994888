/** Going back to a checkpoint, and how far the token estimate can drift from a restart. */
module ContextTravel {
  import opened Basics
  import opened Blobs
  import opened ContextModels
  import opened ContextReferences
  import opened ContextRuns

  // ----- time travel -----

  /** What may happen between taking checkpoint n and going back to it. */
  predicate After(op: Op, n: int) {
    match op
    case DoRevert(k) => k > n
    case DoClear => false
    case _ => true
  }

  /** The prompts that were written, the last one first. */
  function Written(ops: seq<Op>): seq<string> {
    if ops == [] then []
    else
      var last := ops[|ops| - 1];
      (if last.DoWritePrompt? then [last.prompt] else []) + Written(ops[..|ops| - 1])
  }

  function PromptLines(prompts: seq<string>): (lines: seq<Line>)
    ensures |lines| == |prompts| && forall i :: 0 <= i < |prompts| ==> lines[i] == SystemPrompt(prompts[i])
  {
    seq(|prompts|, i requires 0 <= i < |prompts| => SystemPrompt(prompts[i]))
  }

  /** Up to checkpoint n the file of s says what the file of s0 said, behind the prompts written since. */
  ghost predicate Beyond(c: Codec, s0: Ctx, s: Ctx, prompts: seq<string>) {
    var n := s0.next;
    var cut := FirstCheckpoint(s.file, n);
    && Addressed(c, s.dir) && Extends(s0.dir, s.dir) && Numbered(s) && s.next > n
    && cut < |s.file| && Kept(s.file[..cut]) == PromptLines(prompts) + Kept(s0.file)
  }

  lemma {:induction false} FirstCheckpointIs(lines: seq<Line>, k: int, i: nat)
    requires i < |lines| && lines[i] == Checkpoint(k) && forall j :: 0 <= j < i ==> lines[j] != Checkpoint(k)
    ensures FirstCheckpoint(lines, k) == i
  {
    if i > 0 { FirstCheckpointIs(lines[1..], k, i - 1); }
  }

  lemma FirstCheckpointStays(lines: seq<Line>, more: seq<Line>, k: int)
    requires FirstCheckpoint(lines, k) < |lines|
    ensures FirstCheckpoint(lines + more, k) == FirstCheckpoint(lines, k)
    ensures (lines + more)[..FirstCheckpoint(lines, k)] == lines[..FirstCheckpoint(lines, k)]
  {
    FirstCheckpointIs(lines + more, k, FirstCheckpoint(lines, k));
  }

  lemma {:induction false} KeptConcat(a: seq<Line>, b: seq<Line>)
    ensures Kept(a + b) == Kept(a) + Kept(b)
  {
    if b == [] {
      assert a + b == a;
    } else {
      assert (a + b)[..|a + b| - 1] == a + b[..|b| - 1];
      KeptConcat(a, b[..|b| - 1]);
    }
  }

  lemma KeptLast(most: seq<Line>, last: Line)
    ensures Kept(most + [last]) == Kept(most) + if last.Unreadable? then [] else [last]
  {
    assert (most + [last])[..|most|] == most;
  }

  lemma {:induction false} KeptIn(lines: seq<Line>, line: Line)
    ensures line in Kept(lines) <==> line in lines && !line.Unreadable?
  {
    if lines == [] {
    } else {
      var most, last := lines[..|lines| - 1], lines[|lines| - 1];
      assert line in lines <==> line in most || line == last;
      KeptIn(most, line);
    }
  }

  lemma {:induction false} KeptTwice(lines: seq<Line>)
    ensures Kept(Kept(lines)) == Kept(lines)
  {
    if lines == [] {
    } else {
      var most, last := lines[..|lines| - 1], lines[|lines| - 1];
      KeptTwice(most);
      assert Kept(most) + [] == Kept(most);
      if !last.Unreadable? { KeptLast(Kept(most), last); }
    }
  }

  lemma KeptAround(before: seq<Line>, n: int, after: seq<Line>)
    ensures Kept(before + [Checkpoint(n)] + after) == Kept(before) + [Checkpoint(n)] + Kept(after)
  {
    KeptConcat(before + [Checkpoint(n)], after);
    KeptConcat(before, [Checkpoint(n)]);
    assert Kept([Checkpoint(n)]) == [Checkpoint(n)] by { assert [Checkpoint(n)][..0] == []; }
  }

  /** Copying the readable lines up to a later point keeps checkpoint n and what came before it. */
  lemma KeptBeyond(lines: seq<Line>, n: int, upTo: nat)
    requires FirstCheckpoint(lines, n) < upTo <= |lines|
    ensures var cut, copy := FirstCheckpoint(lines, n), Kept(lines[..upTo]);
            FirstCheckpoint(copy, n) < |copy| && Kept(copy[..FirstCheckpoint(copy, n)]) == Kept(lines[..cut])
  {
    hide Kept, FirstCheckpoint;
    var cut := FirstCheckpoint(lines, n);
    var before, after := lines[..cut], lines[cut + 1..upTo];
    assert lines[..upTo] == before + [Checkpoint(n)] + after;
    KeptAround(before, n, after);
    KeptIn(before, Checkpoint(n));
    KeptTwice(before);
    assert Checkpoint(n) !in before;
    var copy := Kept(before) + [Checkpoint(n)] + Kept(after);
    FirstCheckpointIs(copy, n, |Kept(before)|);
    assert copy[..|Kept(before)|] == Kept(before);
  }

  /** Checkpoint k, taken after n, lies behind it in the file. */
  lemma LaterIsBehind(lines: seq<Line>, n: nat, k: int)
    requires FirstCheckpoint(lines, n) < |lines| && Ids(lines[..FirstCheckpoint(lines, n)]) == UpTo(n) && k > n
    ensures FirstCheckpoint(lines, n) < FirstCheckpoint(lines, k)
  {
    var cut, i := FirstCheckpoint(lines, n), FirstCheckpoint(lines, k);
    IdsNone(lines[..cut], k);
    assert Checkpoint(k) !in lines[..cut];
    assert forall j :: 0 <= j < cut ==> lines[j] == lines[..cut][j] && lines[..cut][j] != Checkpoint(k);
  }

  lemma GrowKeeps(c: Codec, s0: Ctx, s: Ctx, s': Ctx, ps: seq<string>, more: seq<Line>)
    requires Beyond(c, s0, s, ps) && s'.file == s.file + more && Extends(s.dir, s'.dir) && Addressed(c, s'.dir)
    requires Numbered(s') && s'.next >= s.next
    ensures Beyond(c, s0, s', ps)
  {
    FirstCheckpointStays(s.file, more, s0.next);
    assert forall name :: name in s0.dir ==> name in s.dir && name in s'.dir;
  }

  lemma AppendBeyond(c: Codec, s0: Ctx, s: Ctx, ps: seq<string>, ms: seq<Message>)
    requires Lawful(c) && Beyond(c, s0, s, ps)
    ensures Beyond(c, s0, Append(c, s, ms), ps)
  {
    SerializeExtends(c, s.dir, ms);
    AppendNumbered(c, s, ms);
    GrowKeeps(c, s0, s, Append(c, s, ms), ps, Serialize(c, s.dir, ms).0);
  }

  lemma NumberBeyond(c: Codec, s0: Ctx, s: Ctx, ps: seq<string>)
    requires Beyond(c, s0, s, ps)
    ensures Beyond(c, s0, s.(next := s.next + 1, file := s.file + [Checkpoint(s.next)]), ps)
  {
    AppendLine(c, s, Checkpoint(s.next));
    UpToNext(s.next);
    GrowKeeps(c, s0, s, s.(next := s.next + 1, file := s.file + [Checkpoint(s.next)]), ps, [Checkpoint(s.next)]);
  }

  lemma CheckpointBeyond(c: Codec, s0: Ctx, s: Ctx, ps: seq<string>, add: bool)
    requires Lawful(c) && Beyond(c, s0, s, ps)
    ensures Beyond(c, s0, TakeCheckpoint(c, s, add), ps)
  {
    NumberBeyond(c, s0, s, ps);
    if add {
      var marker := [CheckpointMessage(s.next)];
      AppendBeyond(c, s0, s.(next := s.next + 1, file := s.file + [Checkpoint(s.next)]), ps, marker);
    }
  }

  lemma {:induction false} PromptIds(lines: seq<Line>)
    requires forall i :: 0 <= i < |lines| ==> lines[i].SystemPrompt?
    ensures Ids(lines) == []
  {
    if lines == [] {
    } else {
      PromptIds(lines[..|lines| - 1]);
    }
  }

  /** Before checkpoint n the file of s numbers the checkpoints below n. */
  lemma BeyondNumbers(c: Codec, s0: Ctx, s: Ctx, ps: seq<string>)
    requires Numbered(s0) && Beyond(c, s0, s, ps)
    ensures Ids(s.file[..FirstCheckpoint(s.file, s0.next)]) == UpTo(s0.next)
  {
    hide Ids, Kept, FirstCheckpoint, UpTo;
    KeptIds(c, s.dir, s.file[..FirstCheckpoint(s.file, s0.next)]);
    KeptIds(c, s.dir, s0.file);
    IdsConcat(PromptLines(ps), Kept(s0.file));
    PromptIds(PromptLines(ps));
    assert [] + Ids(Kept(s0.file)) == Ids(Kept(s0.file));
  }

  lemma RevertBeyond(c: Codec, s0: Ctx, s: Ctx, ps: seq<string>, k: int)
    requires Numbered(s0) && Beyond(c, s0, s, ps) && s0.next < k < s.next
    ensures Beyond(c, s0, RevertTo(c, s, k), ps)
  {
    hide Ids, Kept, FirstCheckpoint, UpTo, PromptLines, Addressed;
    BeyondNumbers(c, s0, s, ps);
    RevertNumbered(c, s, k);
    LaterIsBehind(s.file, s0.next, k);
    KeptBeyond(s.file, s0.next, FirstCheckpoint(s.file, k));
  }

  lemma ReopenBeyond(c: Codec, s0: Ctx, s: Ctx, ps: seq<string>)
    requires Beyond(c, s0, s, ps)
    ensures Beyond(c, s0, Reopen(c, s), ps)
  {
    ReplayNext(c, s.dir, s.file);
  }

  lemma FirstCheckpointShifts(lines: seq<Line>, line: Line, k: int)
    requires !line.Checkpoint?
    ensures FirstCheckpoint([line] + lines, k) == 1 + FirstCheckpoint(lines, k)
  {
    assert ([line] + lines)[1..] == lines;
  }

  lemma PromptKept(lines: seq<Line>, prompt: string, cut: nat)
    requires cut <= |lines|
    ensures Kept(([SystemPrompt(prompt)] + lines)[..cut + 1]) == [SystemPrompt(prompt)] + Kept(lines[..cut])
    ensures Ids([SystemPrompt(prompt)] + lines) == Ids(lines)
  {
    var line := SystemPrompt(prompt);
    assert ([line] + lines)[..cut + 1] == [line] + lines[..cut];
    KeptConcat([line], lines[..cut]);
    assert Kept([line]) == [line] && Ids([line]) == [] by { assert [line][..0] == []; }
    IdsConcat([line], lines);
    assert [] + Ids(lines) == Ids(lines);
  }

  lemma PromptBeyond(c: Codec, s0: Ctx, s: Ctx, ps: seq<string>, prompt: string)
    requires Beyond(c, s0, s, ps)
    ensures Beyond(c, s0, WriteSystemPrompt(s, prompt), [prompt] + ps)
  {
    hide Kept, Ids, FirstCheckpoint, Addressed, Extends, UpTo;
    var line := SystemPrompt(prompt);
    FirstCheckpointShifts(s.file, line, s0.next);
    PromptKept(s.file, prompt, FirstCheckpoint(s.file, s0.next));
    assert PromptLines([prompt] + ps) == [line] + PromptLines(ps);
    assert [line] + (PromptLines(ps) + Kept(s0.file)) == [line] + PromptLines(ps) + Kept(s0.file);
  }

  lemma StepBeyond(c: Codec, s0: Ctx, s: Ctx, ps: seq<string>, op: Op)
    requires Lawful(c) && Numbered(s0) && Beyond(c, s0, s, ps) && After(op, s0.next)
    ensures Beyond(c, s0, Do(c, s, op), (if op.DoWritePrompt? then [op.prompt] else []) + ps)
  {
    hide Lawful, Addressed, Beyond, Append, TakeCheckpoint, RevertTo, Reopen, WriteSystemPrompt, Numbered;
    assert [] + ps == ps;
    match op
    case DoAppend(ms) => AppendBeyond(c, s0, s, ps, ms);
    case DoCheckpoint(add) => CheckpointBeyond(c, s0, s, ps, add);
    case DoUsage(count) => UsageBeyond(c, s0, s, ps, count);
    case DoReopen => ReopenBeyond(c, s0, s, ps);
    case DoRevert(k) => if k < s.next { RevertBeyond(c, s0, s, ps, k); } else { NoSuchCheckpoint(c, s, k); }
    case DoWritePrompt(prompt) => PromptBeyond(c, s0, s, ps, prompt);
  }

  lemma NoSuchCheckpoint(c: Codec, s: Ctx, k: int)
    requires k >= s.next
    ensures RevertTo(c, s, k) == s
  {
  }

  lemma UsageBeyond(c: Codec, s0: Ctx, s: Ctx, ps: seq<string>, count: int)
    requires Beyond(c, s0, s, ps)
    ensures Beyond(c, s0, UpdateTokenCount(s, count), ps)
  {
    AppendLine(c, s, Usage(count));
    GrowKeeps(c, s0, s, UpdateTokenCount(s, count), ps, [Usage(count)]);
  }

  lemma {:induction false} RunBeyond(c: Codec, s0: Ctx, s: Ctx, ops: seq<Op>)
    requires Lawful(c) && Numbered(s0) && Beyond(c, s0, s, []) && forall i :: 0 <= i < |ops| ==> After(ops[i], s0.next)
    ensures Beyond(c, s0, DoAll(c, s, ops), Written(ops))
  {
    hide Lawful, Numbered, Beyond, After, Do;
    if ops == [] {
    } else {
      var most := ops[..|ops| - 1];
      RunBeyond(c, s0, s, most);
      StepBeyond(c, s0, DoAll(c, s, most), Written(most), ops[|ops| - 1]);
    }
  }

  lemma NumberIsBeyond(c: Codec, s0: Ctx)
    requires Addressed(c, s0.dir) && Numbered(s0)
    ensures Beyond(c, s0, s0.(next := s0.next + 1, file := s0.file + [Checkpoint(s0.next)]), [])
  {
    var s1 := s0.(next := s0.next + 1, file := s0.file + [Checkpoint(s0.next)]);
    AppendLine(c, s0, Checkpoint(s0.next));
    UpToNext(s0.next);
    IdsNone(s0.file, s0.next);
    assert s0.next !in UpTo(s0.next);
    FirstCheckpointIs(s1.file, s0.next, |s0.file|);
    assert s1.file[..|s0.file|] == s0.file;
    assert PromptLines([]) + Kept(s0.file) == Kept(s0.file);
  }

  lemma MarkedIsBeyond(c: Codec, s0: Ctx, marker: seq<Message>)
    requires Lawful(c) && Addressed(c, s0.dir) && Numbered(s0)
    ensures Beyond(c, s0, Append(c, s0.(next := s0.next + 1, file := s0.file + [Checkpoint(s0.next)]), marker), [])
  {
    NumberIsBeyond(c, s0);
    AppendBeyond(c, s0, s0.(next := s0.next + 1, file := s0.file + [Checkpoint(s0.next)]), [], marker);
  }

  lemma NumberedFromZero(s: Ctx)
    requires Numbered(s)
    ensures s.next >= 0
  {
  }

  lemma TakenIsBeyond(c: Codec, s0: Ctx, add: bool)
    requires Lawful(c) && Addressed(c, s0.dir) && Numbered(s0)
    ensures Beyond(c, s0, TakeCheckpoint(c, s0, add), [])
  {
    hide Lawful, Beyond, Addressed, CheckpointMessage, Append;
    if add {
      MarkedIsBeyond(c, s0, [CheckpointMessage(s0.next)]);
    } else {
      NumberIsBeyond(c, s0);
    }
  }

  /**
   Going back to a checkpoint restores the token count, the next number and the readable lines of the
   moment before it was taken, whatever was appended, counted, checkpointed, prompted, reopened or
   reverted to later checkpoints in between; the messages in between need not even survive the file.
   The history comes back exactly if nothing appended since has brought a blob that the file was
   missing, the prompt exactly if there was one or none has been written since.
   */
  lemma TimeTravel(c: Codec, s0: Ctx, add: bool, ops: seq<Op>)
    requires Lawful(c) && Sound(c, s0) && forall i :: 0 <= i < |ops| ==> After(ops[i], s0.next)
    ensures
      var s := DoAll(c, TakeCheckpoint(c, s0, add), ops);
      var back := RevertTo(c, s, s0.next);
      && back.tokenCount == s0.tokenCount && back.next == s0.next
      && back.file == PromptLines(Written(ops)) + Kept(s0.file)
      && (back.history == s0.history <==> !ResolvesAny(s0.dir, s.dir, s0.file))
      && (back.prompt == s0.prompt <==> s0.prompt.Some? || Written(ops) == [])
      && (Stable(c, s0.dir, s0.file) ==> back.history == s0.history && back.pending == Reopen(c, s0).pending)
  {
    hide Lawful, Beyond, Addressed, Numbered, After, ResolvesAny, Stable, Do, RevertTo, TakeCheckpoint, Reopen;
    NumberedFromZero(s0);
    TakenIsBeyond(c, s0, add);
    RunBeyond(c, s0, TakeCheckpoint(c, s0, add), ops);
    var s := DoAll(c, TakeCheckpoint(c, s0, add), ops);
    BackAt(c, s0, s, Written(ops));
    BeyondExtends(c, s0, s, Written(ops));
    FileRereads(c, s0.dir, s.dir, s0.file);
    if Stable(c, s0.dir, s0.file) {
      StableResolvesNothing(c, s0.dir, s.dir, s0.file);
      ReplaysAlike(c, s0.dir, s.dir, s0.file);
      ReopenEstimates(c, s0);
    }
  }

  lemma BeyondExtends(c: Codec, s0: Ctx, s: Ctx, ps: seq<string>)
    requires Beyond(c, s0, s, ps)
    ensures Extends(s0.dir, s.dir)
  {
  }

  lemma ReopenEstimates(c: Codec, s: Ctx)
    ensures Reopen(c, s).pending == Estimate(Replay(c, s.dir, FRESH, s.file).tail)
  {
  }

  /** The prompts in front of a file count only where it has none; of several, the first one written. */
  lemma PromptsReplay(c: Codec, dir: Dir, prompts: seq<string>, lines: seq<Line>)
    ensures
      var plain := Replay(c, dir, FRESH, lines);
      Replay(c, dir, FRESH, PromptLines(prompts) + lines) ==
        if plain.prompt.Some? || prompts == [] then plain else plain.(prompt := Some(prompts[|prompts| - 1]))
  {
    var front := PromptLines(prompts);
    ReplayConcat(c, dir, FRESH, front, lines);
    OnlyPrompts(c, dir, front);
    if prompts != [] { ReplayPrompt(c, dir, FRESH, prompts[|prompts| - 1], lines); }
  }

  lemma {:induction false} OnlyPrompts(c: Codec, dir: Dir, lines: seq<Line>)
    requires forall i :: 0 <= i < |lines| ==> lines[i].SystemPrompt?
    ensures Replay(c, dir, FRESH, lines) == if lines == [] then FRESH else FRESH.(prompt := Some(lines[|lines| - 1].content))
  {
    if lines == [] {
    } else {
      OnlyPrompts(c, dir, lines[..|lines| - 1]);
    }
  }

  /** Going back replays what the file of s0 said, in the directory of s and behind the prompts. */
  lemma BackAt(c: Codec, s0: Ctx, s: Ctx, ps: seq<string>)
    requires Beyond(c, s0, s, ps)
    ensures
      var mem, back := Replay(c, s.dir, FRESH, s0.file), RevertTo(c, s, s0.next);
      && back.history == mem.history && back.tokenCount == mem.tokenCount && back.next == mem.next
      && back.prompt == (if mem.prompt.Some? || ps == [] then mem.prompt else Some(ps[|ps| - 1]))
      && back.file == PromptLines(ps) + Kept(s0.file) && back.pending == Estimate(mem.tail)
  {
    hide Addressed, Numbered, FirstCheckpoint, PromptLines;
    var before := s.file[..FirstCheckpoint(s.file, s0.next)];
    KeptReplays(c, s.dir, FRESH, before);
    KeptReplays(c, s.dir, FRESH, s0.file);
    PromptsReplay(c, s.dir, ps, Kept(s0.file));
  }

  lemma SoundFromZero(c: Codec, s: Ctx)
    requires Sound(c, s)
    ensures s.next >= 0
  {
  }

  /** The picture that was missing at the checkpoint is in the history after going back to it. */
  lemma LateBlobComesBack(c: Codec, url: string)
    requires Lawful(c) && Payload(c, url).Some? && UrlSurvives(c, url)
    ensures
      var s0 := Restore(c, Ctx([], 0, 0, 0, None, [Msg(Picture(ReferenceTo(c, url)))], map[]));
      && Sound(c, s0) && AllSurvive(c, [Picture(url)])
      && RevertTo(c, DoAll(c, TakeCheckpoint(c, s0, false), [DoAppend([Picture(url)])]), s0.next).history != s0.history
  {
    hide Lawful, Payload, UrlSurvives, Sound, Agree, Append, ReferenceTo, RevertTo, AllSurvive, ResolvesAny;
    var line := Msg(Picture(ReferenceTo(c, url)));
    assert [line][..0] == [];
    LateBlobParts(c, url);
    var s0 := Restore(c, Ctx([], 0, 0, 0, None, [line], map[]));
    SoundFromZero(c, s0);
    var ops := [DoAppend([Picture(url)])];
    assert ops[..0] == [];
    var s1 := TakeCheckpoint(c, s0, false);
    assert DoAll(c, s1, []) == s1;
    assert DoAll(c, s1, ops) == Append(c, s1, [Picture(url)]);
    LateBlobResolves(c, s1.(file := [line]), line, url);
    PictureWrites(c, s1, url);
    PictureWrites(c, s1.(file := [line]), url);
    TimeTravel(c, s0, false, ops);
  }

  // ----- drift of the token estimate -----

  function Tail(c: Codec, s: Ctx): seq<Message> { Replay(c, s.dir, FRESH, s.file).tail }

  /** How many rounded estimates the pending count is the sum of. */
  function Pieces(c: Codec, s: Ctx, pieces: nat, op: Op): nat {
    match op
    case DoAppend(_) => pieces + 1
    case DoCheckpoint(add) => if s.next >= 0 && add then pieces + 1 else pieces
    case DoUsage(_) => 0
    case DoRevert(k) => if k >= s.next then pieces else 1
    case DoClear => 0
    case DoWritePrompt(_) => pieces
    case DoReopen => 1
  }

  function PiecesAll(c: Codec, s: Ctx, pieces: nat, ops: seq<Op>): nat {
    if ops == [] then pieces
    else Pieces(c, DoAll(c, s, ops[..|ops| - 1]), PiecesAll(c, s, pieces, ops[..|ops| - 1]), ops[|ops| - 1])
  }

  /** Each rounding loses at most three characters. */
  ghost predicate Close(c: Codec, s: Ctx, pieces: nat) {
    0 <= TotalChars(Tail(c, s)) - 4 * s.pending <= 3 * pieces
  }

  lemma {:induction false} TotalCharsConcat(a: seq<Message>, b: seq<Message>)
    ensures TotalChars(a + b) == TotalChars(a) + TotalChars(b)
  {
    if b == [] {
      assert a + b == a;
    } else {
      assert (a + b)[..|a + b| - 1] == a + b[..|b| - 1];
      TotalCharsConcat(a, b[..|b| - 1]);
    }
  }

  lemma AppendTail(c: Codec, s: Ctx, ms: seq<Message>)
    requires Lawful(c) && Sound(c, s) && AllSurvive(c, ms) && !ResolvesAny(s.dir, Append(c, s, ms).dir, s.file)
    ensures Tail(c, Append(c, s, ms)) == Tail(c, s) + ms
  {
    hide Lawful, AllSurvive, ResolvesAny, Serialize, Agree, Numbered;
    var (lines, d) := Serialize(c, s.dir, ms);
    SerializeExtends(c, s.dir, ms);
    ReplayConcat(c, d, FRESH, s.file, lines);
    ReplayMessages(c, d, Replay(c, d, FRESH, s.file), lines);
    ReplaysAlike(c, s.dir, d, s.file);
    BackAllExact(c, s.dir, ms);
  }

  lemma AppendClose(c: Codec, s: Ctx, pieces: nat, ms: seq<Message>)
    requires Lawful(c) && Sound(c, s) && Close(c, s, pieces)
    requires AllSurvive(c, ms) && !ResolvesAny(s.dir, Append(c, s, ms).dir, s.file)
    ensures Close(c, Append(c, s, ms), pieces + 1)
  {
    AppendTail(c, s, ms);
    TotalCharsConcat(Tail(c, s), ms);
  }

  lemma WritePromptClose(c: Codec, s: Ctx, prompt: string)
    ensures Tail(c, WriteSystemPrompt(s, prompt)) == Tail(c, s)
  {
    ReplayConcat(c, s.dir, FRESH, [SystemPrompt(prompt)], s.file);
    assert Replay(c, s.dir, FRESH, [SystemPrompt(prompt)]) == FRESH.(prompt := Some(prompt)) by {
      assert [SystemPrompt(prompt)][..0] == [];
    }
    ReplayPrompt(c, s.dir, FRESH, prompt, s.file);
  }

  lemma NumberClose(c: Codec, s: Ctx)
    ensures Tail(c, s.(next := s.next + 1, file := s.file + [Checkpoint(s.next)])) == Tail(c, s)
  {
    AppendLine(c, s, Checkpoint(s.next));
  }

  lemma CheckpointClose(c: Codec, s: Ctx, pieces: nat, add: bool)
    requires Lawful(c) && Sound(c, s) && Close(c, s, pieces)
    ensures Close(c, TakeCheckpoint(c, s, add), if add then pieces + 1 else pieces)
  {
    NumberClose(c, s);
    if add {
      var s1, marker := s.(next := s.next + 1, file := s.file + [Checkpoint(s.next)]), [CheckpointMessage(s.next)];
      assert Sound(c, s1) by { SoundNumber(c, s); }
      MarkerWritesNothing(c, s1, s.next);
      assert AllSurvive(c, marker) by { MarkerSurvives(c, s.next); }
      assert Close(c, s1, pieces);
      AppendClose(c, s1, pieces, marker);
    }
  }

  /** After these operations the pending count is one estimate, or nothing is pending. */
  lemma ResyncClose(c: Codec, s: Ctx, n: int, k: int)
    ensures Close(c, UpdateTokenCount(s, n), 0)
    ensures k < s.next ==> Close(c, RevertTo(c, s, k), 1)
    ensures Close(c, Clear(s), 0)
    ensures Close(c, Reopen(c, s), 1)
  {
    AppendLine(c, s, Usage(n));
    KeptReplays(c, s.dir, FRESH, s.file[..FirstCheckpoint(s.file, k)]);
    assert Replay(c, s.dir, FRESH, []) == FRESH;
  }

  lemma StepClose(c: Codec, s: Ctx, pieces: nat, op: Op)
    requires Lawful(c) && Sound(c, s) && Harmless(c, s, op) && Close(c, s, pieces)
    ensures Close(c, Do(c, s, op), Pieces(c, s, pieces, op))
  {
    hide Sound, Append, TakeCheckpoint, Reopen, AllSurvive, UpdateTokenCount, ResolvesAny;
    match op
    case DoAppend(ms) => AppendClose(c, s, pieces, ms);
    case DoCheckpoint(add) => CheckpointClose(c, s, pieces, add);
    case DoUsage(n) => ResyncClose(c, s, n, 0);
    case DoRevert(k) => ResyncClose(c, s, 0, k);
    case DoClear => ResyncClose(c, s, 0, 0);
    case DoWritePrompt(p) => WritePromptClose(c, s, p);
    case DoReopen => ResyncClose(c, s, 0, 0);
  }

  /**
   The estimate a restart would compute is never below the one in memory, and exceeds it by at most
   three quarters of a token for each rounded piece; one piece gives the same number.
   */
  lemma {:induction false} DriftBound(c: Codec, s: Ctx, pieces: nat, ops: seq<Op>)
    requires Lawful(c) && Sound(c, s) && Close(c, s, pieces) && AllHarmless(c, s, ops)
    ensures var s', m := DoAll(c, s, ops), PiecesAll(c, s, pieces, ops);
            && Close(c, s', m)
            && s'.pending <= Estimate(Tail(c, s')) <= s'.pending + 3 * m / 4
            && (m <= 1 ==> Estimate(Tail(c, s')) == s'.pending)
  {
    hide Lawful, Sound, Harmless, Do, Pieces, Close, Tail;
    if ops == [] {
    } else {
      var init := ops[..|ops| - 1];
      assert forall i :: 0 <= i < |init| ==> init[..i] == ops[..i] && init[i] == ops[i];
      DriftBound(c, s, pieces, init);
      SoundRun(c, s, init);
      StepClose(c, DoAll(c, s, init), PiecesAll(c, s, pieces, init), ops[|ops| - 1]);
    }
    CloseEstimates(c, DoAll(c, s, ops), PiecesAll(c, s, pieces, ops));
  }

  lemma CloseEstimates(c: Codec, s: Ctx, m: nat)
    requires Close(c, s, m)
    ensures s.pending <= Estimate(Tail(c, s)) <= s.pending + 3 * m / 4
    ensures m <= 1 ==> Estimate(Tail(c, s)) == s.pending
  {
    hide Tail, TotalChars;
  }

  /** The state after m appends of the same message to an empty conversation. */
  function Repeated(c: Codec, ms: seq<Message>, m: nat): Ctx {
    if m == 0 then Ctx([], 0, 0, 0, None, [], map[]) else Append(c, Repeated(c, ms, m - 1), ms)
  }

  /** m pieces behind: m times three characters are in the file that the count does not know about. */
  ghost predicate Behind(c: Codec, s: Ctx, m: nat) {
    Good(c, s) && s.pending == 0 && TotalChars(Tail(c, s)) == 3 * m
  }

  ghost predicate Short(c: Codec, ms: seq<Message>) {
    AllSurvive(c, ms) && TotalChars(ms) == 3
  }

  lemma ShortStep(c: Codec, s: Ctx, m: nat, ms: seq<Message>)
    requires Lawful(c) && Behind(c, s, m) && Short(c, ms)
    ensures Behind(c, Append(c, s, ms), m + 1)
  {
    AppendKeeps(c, s, ms);
    GoodAppends(c, s, ms);
    AppendTail(c, s, ms);
    TotalCharsConcat(Tail(c, s), ms);
  }

  lemma {:induction false} RepeatedBehind(c: Codec, ms: seq<Message>, m: nat)
    requires Lawful(c) && Short(c, ms)
    ensures Behind(c, Repeated(c, ms, m), m)
  {
    if m == 0 {
      StartGood(c, [], map[], 0);
    } else {
      RepeatedBehind(c, ms, m - 1);
      ShortStep(c, Repeated(c, ms, m - 1), m - 1, ms);
    }
  }

  /** The bound is reached for every number of pieces: m appends of a message of three letters. */
  lemma DriftTight(c: Codec, ms: seq<Message>, m: nat)
    requires Lawful(c) && Short(c, ms)
    ensures var s := Repeated(c, ms, m);
            Good(c, s) && s.pending == 0 && Estimate(Tail(c, s)) == s.pending + 3 * m / 4
  {
    RepeatedBehind(c, ms, m);
  }

  lemma ShortExists(c: Codec)
    ensures Short(c, [Message(User, [Part(Some("abc"), None, None, None, None)])])
  {
    var p := Part(Some("abc"), None, None, None, None);
    assert [Message(User, [p])][..0] == [] && [p][..0] == [];
  }
}
