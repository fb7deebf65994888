/**
 What a conversation is, told by its operations alone: what was said, the token count that was reported last, the
 prompt, and the same as of every checkpoint. Memory and file keep exactly this.
 */
module ContextLedger {
  import opened Basics
  import opened Blobs
  import opened ContextModels
  import opened ContextReferences
  import opened ContextRuns
  import opened ContextTravel

  datatype Entry = Entry(said: seq<Message>, count: int, prompt: Option<string>)

  /** marks[k] is how things stood when checkpoint k was taken. */
  datatype Ledger = Ledger(now: Entry, marks: seq<Entry>)

  const NOTHING := Ledger(Entry([], 0, None), [])

  /** A prompt is in front of everything, so it counts for the checkpoints, too. */
  function Prompted(e: Entry, prompt: string): Entry {
    if e.prompt.None? then e.(prompt := Some(prompt)) else e
  }

  function Enter(l: Ledger, op: Op): Ledger {
    match op
    case DoAppend(ms) => l.(now := l.now.(said := l.now.said + ms))
    case DoCheckpoint(add) =>
      Ledger(if add then l.now.(said := l.now.said + [CheckpointMessage(|l.marks|)]) else l.now, l.marks + [l.now])
    case DoUsage(n) => l.(now := l.now.(count := n))
    case DoRevert(k) => if 0 <= k < |l.marks| then Ledger(l.marks[k], l.marks[..k]) else l
    case DoClear => NOTHING
    case DoWritePrompt(p) =>
      Ledger(Prompted(l.now, p), seq(|l.marks|, i requires 0 <= i < |l.marks| => Prompted(l.marks[i], p)))
    case DoReopen => l
  }

  function EnterAll(l: Ledger, ops: seq<Op>): Ledger {
    if ops == [] then l else Enter(EnterAll(l, ops[..|ops| - 1]), ops[|ops| - 1])
  }

  // ----- the file up to a checkpoint -----

  /** What the file said when checkpoint k was taken. */
  function MemAt(c: Codec, dir: Dir, file: seq<Line>, k: int): Mem {
    Replay(c, dir, FRESH, file[..FirstCheckpoint(file, k)])
  }

  lemma GrownAt(c: Codec, dir: Dir, file: seq<Line>, more: seq<Line>, k: int)
    requires FirstCheckpoint(file, k) < |file|
    ensures FirstCheckpoint(file + more, k) < |file + more| && MemAt(c, dir, file + more, k) == MemAt(c, dir, file, k)
  {
    hide Replay, FirstCheckpoint;
    FirstCheckpointStays(file, more, k);
  }

  lemma NewAt(c: Codec, dir: Dir, s: Ctx)
    requires Numbered(s)
    ensures MemAt(c, dir, s.file + [Checkpoint(s.next)], s.next) == Replay(c, dir, FRESH, s.file)
  {
    hide Replay, FirstCheckpoint, Ids;
    IdsNone(s.file, s.next);
    assert s.next !in UpTo(s.next);
    var file := s.file + [Checkpoint(s.next)];
    FirstCheckpointIs(file, s.next, |s.file|);
    assert file[..|s.file|] == s.file;
  }

  lemma PromptedAt(c: Codec, dir: Dir, file: seq<Line>, prompt: string, k: int)
    ensures
      var mem := MemAt(c, dir, file, k);
      MemAt(c, dir, [SystemPrompt(prompt)] + file, k) == if mem.prompt.None? then mem.(prompt := Some(prompt)) else mem
  {
    hide FirstCheckpoint;
    var line, cut := SystemPrompt(prompt), FirstCheckpoint(file, k);
    FirstCheckpointShifts(file, line, k);
    assert ([line] + file)[..1 + cut] == [line] + file[..cut];
    PromptReplays(c, dir, file[..cut], prompt);
  }

  lemma PromptReplays(c: Codec, dir: Dir, lines: seq<Line>, prompt: string)
    ensures
      var mem := Replay(c, dir, FRESH, lines);
      Replay(c, dir, FRESH, [SystemPrompt(prompt)] + lines) == if mem.prompt.None? then mem.(prompt := Some(prompt)) else mem
  {
    ReplayConcat(c, dir, FRESH, [SystemPrompt(prompt)], lines);
    assert Replay(c, dir, FRESH, [SystemPrompt(prompt)]) == FRESH.(prompt := Some(prompt)) by {
      assert [SystemPrompt(prompt)][..0] == [];
    }
    ReplayPrompt(c, dir, FRESH, prompt, lines);
  }

  /** Going back to checkpoint k leaves what the file said at an earlier one. */
  lemma RevertedAt(c: Codec, dir: Dir, s: Ctx, k: int, j: int)
    requires Numbered(s) && 0 <= j < k < s.next
    ensures MemAt(c, dir, RevertTo(c, s, k).file, j) == MemAt(c, dir, s.file, j)
  {
    hide Replay, FirstCheckpoint, Ids, Kept, UpTo;
    IdsBefore(s.file, s.next, j);
    LaterIsBehind(s.file, j, k);
    KeptBeyond(s.file, j, FirstCheckpoint(s.file, k));
    var copy := Kept(s.file[..FirstCheckpoint(s.file, k)]);
    KeptReplays(c, dir, FRESH, copy[..FirstCheckpoint(copy, j)]);
    KeptReplays(c, dir, FRESH, s.file[..FirstCheckpoint(s.file, j)]);
  }

  lemma IsThere(s: Ctx, k: int)
    requires Numbered(s) && 0 <= k < s.next
    ensures FirstCheckpoint(s.file, k) < |s.file|
  {
    IdsBefore(s.file, s.next, k);
  }

  // ----- the count, whatever becomes of the messages -----

  lemma {:induction false} CountAnywhere(c: Codec, dir: Dir, later: Dir, lines: seq<Line>)
    ensures Replay(c, later, FRESH, lines).tokenCount == Replay(c, dir, FRESH, lines).tokenCount
  {
    if lines != [] { CountAnywhere(c, dir, later, lines[..|lines| - 1]); }
  }

  lemma {:induction false} SerializedMessages(c: Codec, dir: Dir, ms: seq<Message>)
    ensures AllMessages(Serialize(c, dir, ms).0)
  {
    if ms != [] { SerializedMessages(c, dir, ms[..|ms| - 1]); }
  }

  /** Memory and file hold the count of the ledger, and the file holds it as of every checkpoint. */
  ghost predicate Counts(c: Codec, s: Ctx, l: Ledger) {
    && Numbered(s) && |l.marks| == s.next
    && s.tokenCount == l.now.count && Replay(c, s.dir, FRESH, s.file).tokenCount == l.now.count
    && forall k :: 0 <= k < s.next ==> MemAt(c, s.dir, s.file, k).tokenCount == l.marks[k].count
  }

  lemma AppendCounts(c: Codec, s: Ctx, ms: seq<Message>, l: Ledger, said: seq<Message>)
    requires Counts(c, s, l)
    ensures Counts(c, Append(c, s, ms), l.(now := l.now.(said := said)))
  {
    hide Replay, FirstCheckpoint, MemAt, Serialize, Ids, UpTo;
    var (lines, d) := Serialize(c, s.dir, ms);
    SerializedMessages(c, s.dir, ms);
    IdsMessages(lines);
    IdsConcat(s.file, lines);
    assert Ids(s.file) + [] == Ids(s.file);
    ReplayConcat(c, d, FRESH, s.file, lines);
    ReplayMessages(c, d, Replay(c, d, FRESH, s.file), lines);
    CountAnywhere(c, s.dir, d, s.file);
    forall k | 0 <= k < s.next
      ensures MemAt(c, d, s.file + lines, k).tokenCount == l.marks[k].count
    {
      IsThere(s, k);
      GrownAt(c, d, s.file, lines, k);
      CountAt(c, s.dir, d, s.file, k);
    }
  }

  lemma CountAt(c: Codec, dir: Dir, later: Dir, file: seq<Line>, k: int)
    ensures MemAt(c, later, file, k).tokenCount == MemAt(c, dir, file, k).tokenCount
  {
    CountAnywhere(c, dir, later, file[..FirstCheckpoint(file, k)]);
  }

  lemma NumberCounts(c: Codec, s: Ctx, l: Ledger)
    requires Counts(c, s, l)
    ensures Counts(c, s.(next := s.next + 1, file := s.file + [Checkpoint(s.next)]), l.(marks := l.marks + [l.now]))
  {
    hide FirstCheckpoint, MemAt, Ids;
    AppendLine(c, s, Checkpoint(s.next));
    UpToNext(s.next);
    NewAt(c, s.dir, s);
    forall k | 0 <= k < s.next
      ensures MemAt(c, s.dir, s.file + [Checkpoint(s.next)], k) == MemAt(c, s.dir, s.file, k)
    {
      IsThere(s, k);
      GrownAt(c, s.dir, s.file, [Checkpoint(s.next)], k);
    }
  }

  lemma UsageCounts(c: Codec, s: Ctx, l: Ledger, n: int)
    requires Counts(c, s, l)
    ensures Counts(c, UpdateTokenCount(s, n), l.(now := l.now.(count := n)))
  {
    hide FirstCheckpoint, MemAt, Ids, UpTo;
    AppendLine(c, s, Usage(n));
    assert Ids(s.file) + [] == Ids(s.file);
    forall k | 0 <= k < s.next
      ensures MemAt(c, s.dir, s.file + [Usage(n)], k) == MemAt(c, s.dir, s.file, k)
    {
      IsThere(s, k);
      GrownAt(c, s.dir, s.file, [Usage(n)], k);
    }
  }

  lemma PromptCounts(c: Codec, s: Ctx, l: Ledger, prompt: string)
    requires Counts(c, s, l)
    ensures Counts(c, WriteSystemPrompt(s, prompt), Enter(l, DoWritePrompt(prompt)))
  {
    hide FirstCheckpoint, MemAt, Ids, UpTo, Replay;
    PromptReplays(c, s.dir, s.file, prompt);
    PromptNumbered(s, prompt);
    forall k | 0 <= k < s.next
      ensures MemAt(c, s.dir, [SystemPrompt(prompt)] + s.file, k).tokenCount == MemAt(c, s.dir, s.file, k).tokenCount
    {
      PromptedAt(c, s.dir, s.file, prompt, k);
    }
  }

  lemma PromptNumbered(s: Ctx, prompt: string)
    requires Numbered(s)
    ensures Numbered(WriteSystemPrompt(s, prompt))
  {
    IdsConcat([SystemPrompt(prompt)], s.file);
    assert Ids([SystemPrompt(prompt)]) == [] by { assert [SystemPrompt(prompt)][..0] == []; }
    assert [] + Ids(s.file) == Ids(s.file);
  }

  lemma RevertCounts(c: Codec, s: Ctx, l: Ledger, k: int)
    requires Counts(c, s, l)
    ensures Counts(c, RevertTo(c, s, k), Enter(l, DoRevert(k)))
  {
    hide FirstCheckpoint, Ids, UpTo, Kept, Replay;
    if k < s.next {
      RevertNumbered(c, s, k);
      RevertAgain(c, s, k);
      forall j | 0 <= j < RevertTo(c, s, k).next
        ensures MemAt(c, s.dir, RevertTo(c, s, k).file, j) == MemAt(c, s.dir, s.file, j)
      {
        if k < 0 { KeptAt(c, s, k, j); } else { RevertedAt(c, s.dir, s, k, j); }
      }
    }
  }

  /** What a revert leaves, and that there is no checkpoint below zero. */
  lemma RevertAgain(c: Codec, s: Ctx, k: int)
    requires Numbered(s) && k < s.next
    ensures
      var s' := RevertTo(c, s, k);
      && s'.dir == s.dir && Replay(c, s.dir, FRESH, s'.file) == MemAt(c, s.dir, s.file, k)
      && s'.tokenCount == MemAt(c, s.dir, s.file, k).tokenCount
      && (k < 0 ==> MemAt(c, s.dir, s.file, k) == Replay(c, s.dir, FRESH, s.file))
  {
    hide Ids, UpTo, Kept;
    KeptReplays(c, s.dir, FRESH, s.file[..FirstCheckpoint(s.file, k)]);
    IdsBefore(s.file, s.next, k);
    assert s.file[..|s.file|] == s.file;
  }

  lemma KeptAt(c: Codec, s: Ctx, k: int, j: int)
    requires Numbered(s) && k < 0 <= j < s.next
    ensures MemAt(c, s.dir, RevertTo(c, s, k).file, j) == MemAt(c, s.dir, s.file, j)
  {
    hide Replay, FirstCheckpoint, Ids, Kept, UpTo;
    IdsBefore(s.file, s.next, k);
    IsThere(s, j);
    KeptBeyond(s.file, j, |s.file|);
    assert s.file[..|s.file|] == s.file;
    var copy := Kept(s.file);
    KeptReplays(c, s.dir, FRESH, copy[..FirstCheckpoint(copy, j)]);
    KeptReplays(c, s.dir, FRESH, s.file[..FirstCheckpoint(s.file, j)]);
  }

  lemma ReopenCounts(c: Codec, s: Ctx, l: Ledger)
    requires Counts(c, s, l)
    ensures Counts(c, Reopen(c, s), l)
  {
    hide FirstCheckpoint, MemAt, Ids;
    ReplayNext(c, s.dir, s.file);
    assert s.file == [] ==> Replay(c, s.dir, FRESH, s.file) == FRESH;
  }

  lemma StepCounts(c: Codec, s: Ctx, l: Ledger, op: Op)
    requires Counts(c, s, l)
    ensures Counts(c, Do(c, s, op), Enter(l, op))
  {
    hide Append, UpdateTokenCount, RevertTo, WriteSystemPrompt, Reopen, MemAt;
    match op
    case DoAppend(ms) => AppendCounts(c, s, ms, l, l.now.said + ms);
    case DoCheckpoint(add) =>
      NumberCounts(c, s, l);
      if add {
        var marked := l.(marks := l.marks + [l.now]);
        AppendCounts(c, s.(next := s.next + 1, file := s.file + [Checkpoint(s.next)]), [CheckpointMessage(s.next)], marked,
                     l.now.said + [CheckpointMessage(s.next)]);
      }
    case DoUsage(n) => UsageCounts(c, s, l, n);
    case DoRevert(k) => RevertCounts(c, s, l, k);
    case DoClear => assert Replay(c, s.dir, FRESH, []) == FRESH;
    case DoWritePrompt(p) => PromptCounts(c, s, l, p);
    case DoReopen => ReopenCounts(c, s, l);
  }

  /**
   Whatever happens to the messages: the token count in memory, and the one that a restart would read, is the one
   reported last, a revert to checkpoint k bringing back the one reported last before it was taken.
   */
  lemma {:induction false} CountIsReported(c: Codec, s: Ctx, l: Ledger, ops: seq<Op>)
    requires Counts(c, s, l)
    ensures Counts(c, DoAll(c, s, ops), EnterAll(l, ops))
  {
    hide Counts, Do, Enter;
    if ops != [] {
      CountIsReported(c, s, l, ops[..|ops| - 1]);
      StepCounts(c, DoAll(c, s, ops[..|ops| - 1]), EnterAll(l, ops[..|ops| - 1]), ops[|ops| - 1]);
    }
  }

  // ----- everything, while the messages survive -----

  function EntryOf(mem: Mem): Entry { Entry(mem.history, mem.tokenCount, mem.prompt) }

  /** Memory and file hold what the ledger says, and the file holds it as of every checkpoint. */
  ghost predicate Tells(c: Codec, s: Ctx, l: Ledger) {
    && Sound(c, s) && |l.marks| == s.next
    && Entry(s.history, s.tokenCount, s.prompt) == l.now
    && forall k :: 0 <= k < s.next ==> EntryOf(MemAt(c, s.dir, s.file, k)) == l.marks[k]
  }

  lemma AppendTells(c: Codec, s: Ctx, ms: seq<Message>, l: Ledger)
    requires Lawful(c) && Tells(c, s, l) && AllSurvive(c, ms) && !ResolvesAny(s.dir, Append(c, s, ms).dir, s.file)
    ensures Tells(c, Append(c, s, ms), l.(now := l.now.(said := l.now.said + ms)))
  {
    hide Lawful, AllSurvive, ResolvesAny, MemAt, Agree, FirstCheckpoint, Serialize, Ids, Addressed;
    var (lines, d) := Serialize(c, s.dir, ms);
    SoundAppend(c, s, ms);
    SerializeExtends(c, s.dir, ms);
    forall k | 0 <= k < s.next
      ensures EntryOf(MemAt(c, d, s.file + lines, k)) == l.marks[k]
    {
      IsThere(s, k);
      GrownAt(c, d, s.file, lines, k);
      SameAt(c, s.dir, d, s.file, k);
    }
  }

  lemma SameAt(c: Codec, dir: Dir, later: Dir, file: seq<Line>, k: int)
    requires Extends(dir, later) && !ResolvesAny(dir, later, file)
    ensures MemAt(c, later, file, k) == MemAt(c, dir, file, k)
  {
    hide ResolvesIn, Extends, Replay;
    var cut := file[..FirstCheckpoint(file, k)];
    assert forall i :: 0 <= i < |cut| ==> cut[i] == file[i];
    ReplaysAlike(c, dir, later, cut);
  }

  lemma NumberTells(c: Codec, s: Ctx, l: Ledger)
    requires Tells(c, s, l)
    ensures Tells(c, s.(next := s.next + 1, file := s.file + [Checkpoint(s.next)]), l.(marks := l.marks + [l.now]))
  {
    hide FirstCheckpoint, MemAt, Ids, Addressed;
    SoundNumber(c, s);
    NewAt(c, s.dir, s);
    forall k | 0 <= k < s.next
      ensures MemAt(c, s.dir, s.file + [Checkpoint(s.next)], k) == MemAt(c, s.dir, s.file, k)
    {
      IsThere(s, k);
      GrownAt(c, s.dir, s.file, [Checkpoint(s.next)], k);
    }
  }

  lemma CheckpointTells(c: Codec, s: Ctx, l: Ledger, add: bool)
    requires Lawful(c) && Tells(c, s, l)
    ensures Tells(c, TakeCheckpoint(c, s, add), Enter(l, DoCheckpoint(add)))
  {
    hide Lawful, Sound, AllSurvive, ResolvesAny, MemAt, Append, CheckpointMessage;
    NumberTells(c, s, l);
    if add {
      var s1 := s.(next := s.next + 1, file := s.file + [Checkpoint(s.next)]);
      MarkerSurvives(c, s.next);
      MarkerWritesNothing(c, s1, s.next);
      AppendTells(c, s1, [CheckpointMessage(s.next)], l.(marks := l.marks + [l.now]));
    }
  }

  lemma UsageTells(c: Codec, s: Ctx, l: Ledger, n: int)
    requires Lawful(c) && Tells(c, s, l)
    ensures Tells(c, UpdateTokenCount(s, n), l.(now := l.now.(count := n)))
  {
    hide FirstCheckpoint, MemAt, Ids, UpTo, Addressed, Lawful;
    AppendLine(c, s, Usage(n));
    assert Ids(s.file) + [] == Ids(s.file);
    forall k | 0 <= k < s.next
      ensures MemAt(c, s.dir, s.file + [Usage(n)], k) == MemAt(c, s.dir, s.file, k)
    {
      IsThere(s, k);
      GrownAt(c, s.dir, s.file, [Usage(n)], k);
    }
  }

  lemma PromptTells(c: Codec, s: Ctx, l: Ledger, prompt: string)
    requires Tells(c, s, l) && (s.prompt.None? || s.prompt == Some(prompt))
    ensures Tells(c, WriteSystemPrompt(s, prompt), Enter(l, DoWritePrompt(prompt)))
  {
    hide FirstCheckpoint, MemAt, Ids, UpTo, Replay, Addressed;
    PromptReplays(c, s.dir, s.file, prompt);
    PromptNumbered(s, prompt);
    forall k | 0 <= k < s.next
      ensures EntryOf(MemAt(c, s.dir, [SystemPrompt(prompt)] + s.file, k)) == Prompted(l.marks[k], prompt)
    {
      PromptedAt(c, s.dir, s.file, prompt, k);
    }
  }

  lemma RevertTells(c: Codec, s: Ctx, l: Ledger, k: int)
    requires Lawful(c) && Tells(c, s, l)
    ensures Tells(c, RevertTo(c, s, k), Enter(l, DoRevert(k)))
  {
    hide FirstCheckpoint, Ids, UpTo, Kept, Replay, Lawful, Addressed;
    if k < s.next {
      RevertNumbered(c, s, k);
      SoundRevert(c, s, k);
      RevertAgain(c, s, k);
      forall j | 0 <= j < RevertTo(c, s, k).next
        ensures MemAt(c, s.dir, RevertTo(c, s, k).file, j) == MemAt(c, s.dir, s.file, j)
      {
        if k < 0 { KeptAt(c, s, k, j); } else { RevertedAt(c, s.dir, s, k, j); }
      }
    }
  }

  lemma ReopenTells(c: Codec, s: Ctx, l: Ledger)
    requires Tells(c, s, l)
    ensures Tells(c, Reopen(c, s), l)
  {
    hide FirstCheckpoint, MemAt, Ids, Addressed;
    ReplayNext(c, s.dir, s.file);
    assert s.file == [] ==> Replay(c, s.dir, FRESH, s.file) == FRESH;
  }

  lemma ClearTells(c: Codec, s: Ctx)
    requires Lawful(c) && Addressed(c, s.dir)
    ensures Tells(c, Clear(s), NOTHING)
  {
    hide Lawful, Addressed;
    assert Replay(c, s.dir, FRESH, []) == FRESH;
  }

  lemma StepTells(c: Codec, s: Ctx, l: Ledger, op: Op)
    requires Lawful(c) && Tells(c, s, l) && Harmless(c, s, op)
    ensures Tells(c, Do(c, s, op), Enter(l, op))
  {
    hide Lawful, Append, UpdateTokenCount, RevertTo, WriteSystemPrompt, Reopen, Clear, TakeCheckpoint, MemAt, Agree, Addressed, ResolvesAny, AllSurvive;
    match op
    case DoAppend(ms) => AppendTells(c, s, ms, l);
    case DoCheckpoint(add) => CheckpointTells(c, s, l, add);
    case DoUsage(n) => UsageTells(c, s, l, n);
    case DoRevert(k) => RevertTells(c, s, l, k);
    case DoClear => ClearTells(c, s);
    case DoWritePrompt(p) => PromptTells(c, s, l, p);
    case DoReopen => ReopenTells(c, s, l);
  }

  /**
   Over every run in which the messages survive and no missing blob turns up, memory and file hold what the operations
   said: every message in order, the count reported last, the prompt, and after a revert all of it as of the checkpoint.
   */
  lemma {:induction false} LedgerIsKept(c: Codec, s: Ctx, l: Ledger, ops: seq<Op>)
    requires Lawful(c) && Tells(c, s, l) && AllHarmless(c, s, ops)
    ensures Tells(c, DoAll(c, s, ops), EnterAll(l, ops))
  {
    hide Lawful, Tells, Do, Enter, Harmless;
    if ops != [] {
      var most := ops[..|ops| - 1];
      assert forall i :: 0 <= i < |most| ==> most[..i] == ops[..i] && most[i] == ops[i];
      LedgerIsKept(c, s, l, most);
      StepTells(c, DoAll(c, s, most), EnterAll(l, most), ops[|ops| - 1]);
    }
  }

  /** An empty conversation has an empty ledger, and every numbered file has one for what is restored from it. */
  lemma LedgerStarts(c: Codec, file: seq<Line>, dir: Dir, n: nat) returns (l: Ledger)
    requires Addressed(c, dir) && Ids(file) == UpTo(n)
    ensures var s := Restore(c, Ctx([], 0, 0, 0, None, file, dir)); Tells(c, s, l) && Counts(c, s, l)
    ensures file == [] ==> l == NOTHING
  {
    hide Addressed, MemAt;
    StartSound(c, file, dir, n);
    var s := Restore(c, Ctx([], 0, 0, 0, None, file, dir));
    NextIsLength(c, s);
    l := Ledger(Entry(s.history, s.tokenCount, s.prompt),
                seq(s.next, k requires 0 <= k < s.next => EntryOf(MemAt(c, dir, file, k))));
  }

  lemma NextIsLength(c: Codec, s: Ctx)
    requires Sound(c, s)
    ensures s.next >= 0 && (s.file == [] ==> s.next == 0)
  {
  }

  // ----- the marker of a checkpoint -----

  /** The number that decimal digits stand for. */
  function Value(digits: string): nat
    requires forall i :: 0 <= i < |digits| ==> '0' <= digits[i] <= '9'
  {
    if digits == "" then 0
    else 10 * Value(digits[..|digits| - 1]) + (digits[|digits| - 1] as int - '0' as int)
  }

  lemma {:induction false} DecimalIs(n: nat)
    ensures Value(Decimal(n)) == n && (Decimal(n)[0] == '0' <==> n == 0)
  {
    var d := Decimal(n);
    if n < 10 {
      assert d[..0] == "";
    } else {
      DecimalIs(n / 10);
      assert d[..|d| - 1] == Decimal(n / 10);
    }
  }

  /** A marker is a user message of one text: the number of the checkpoint, without leading zeros, between its two tags. */
  lemma MarkerIs(id: nat)
    ensures
      var m, d := CheckpointMessage(id), Decimal(id);
      && m.role == User && |m.parts| == 1
      && m.parts[0] == Part(Some("<system>CHECKPOINT " + d + "</system>"), None, None, None, None)
      && Value(d) == id && (|d| > 1 ==> d[0] != '0')
  {
    DecimalIs(id);
    if id == 0 { assert |Decimal(id)| == 1; }
  }
}
