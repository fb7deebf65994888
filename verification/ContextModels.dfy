/**
 The conversation file and the memory it stands for, as values: what replay makes of a file, and
 what each operation does to memory and file together.
 */
module ContextModels {
  import opened Basics
  import opened Blobs

  datatype Role = User | Assistant | Tool | System

  datatype Message = Message(role: Role, parts: seq<Part>)

  /** A line of the file. Unreadable stands for one that replay skips: malformed, or a record it rejects. */
  datatype Line =
    | SystemPrompt(content: string)
    | Usage(tokenCount: int)
    | Checkpoint(id: int)
    | Msg(message: Message)
    | Unreadable

  /** What replay builds up; tail holds the messages after the last usage record. */
  datatype Mem = Mem(history: seq<Message>, tokenCount: int, next: int, prompt: Option<string>, tail: seq<Message>)

  const FRESH: Mem := Mem([], 0, 0, None, [])

  /** Memory and file of a Context object; dir is the blobs directory. */
  datatype Ctx = Ctx(
    history: seq<Message>, tokenCount: int, pending: int, next: int, prompt: Option<string>,
    file: seq<Line>, dir: Dir)

  function Chars(ps: seq<Part>): nat {
    if ps == [] then 0
    else Chars(ps[..|ps| - 1]) + if ps[|ps| - 1].text.Some? then |ps[|ps| - 1].text.value| else 0
  }

  function TotalChars(ms: seq<Message>): nat {
    if ms == [] then 0 else TotalChars(ms[..|ms| - 1]) + Chars(ms[|ms| - 1].parts)
  }

  /** About four characters per token. */
  function Estimate(ms: seq<Message>): nat { TotalChars(ms) / 4 }

  // ----- replay -----

  function ReadBack(c: Codec, dir: Dir, m: Message): Message {
    m.(parts := RehydrateParts(c, dir, m.parts))
  }

  function Apply(c: Codec, dir: Dir, mem: Mem, line: Line): Mem {
    match line
    case SystemPrompt(content) => mem.(prompt := Some(content))
    case Usage(tokenCount) => mem.(tokenCount := tokenCount, tail := [])
    case Checkpoint(id) => mem.(next := id + 1)
    case Msg(m) => mem.(history := mem.history + [ReadBack(c, dir, m)], tail := mem.tail + [ReadBack(c, dir, m)])
    case Unreadable => mem
  }

  function Replay(c: Codec, dir: Dir, mem: Mem, lines: seq<Line>): Mem {
    if lines == [] then mem
    else Apply(c, dir, Replay(c, dir, mem, lines[..|lines| - 1]), lines[|lines| - 1])
  }

  /** The lines that a revert copies. */
  function Kept(lines: seq<Line>): seq<Line> {
    if lines == [] then []
    else Kept(lines[..|lines| - 1]) + if lines[|lines| - 1].Unreadable? then [] else [lines[|lines| - 1]]
  }

  /** The position of the first Checkpoint(k), or the length of the file. */
  function FirstCheckpoint(lines: seq<Line>, k: int): (i: nat)
    ensures i <= |lines| && (i < |lines| ==> lines[i] == Checkpoint(k))
    ensures forall j :: 0 <= j < i ==> lines[j] != Checkpoint(k)
  {
    if lines == [] then 0
    else if lines[0] == Checkpoint(k) then 0 else 1 + FirstCheckpoint(lines[1..], k)
  }

  // ----- operations -----

  function Serialize(c: Codec, dir: Dir, ms: seq<Message>): (seq<Line>, Dir) {
    if ms == [] then ([], dir)
    else
      var (lines, d1) := Serialize(c, dir, ms[..|ms| - 1]);
      var (parts, d2) := ExternalizeParts(c, d1, ms[|ms| - 1].parts);
      (lines + [Msg(ms[|ms| - 1].(parts := parts))], d2)
  }

  function Append(c: Codec, s: Ctx, ms: seq<Message>): Ctx {
    var (lines, dir) := Serialize(c, s.dir, ms);
    s.(history := s.history + ms, pending := s.pending + Estimate(ms), file := s.file + lines, dir := dir)
  }

  function Decimal(n: nat): (s: string)
    ensures s != [] && forall i :: 0 <= i < |s| ==> '0' <= s[i] <= '9'
  {
    if n < 10 then [('0' as int + n) as char] else Decimal(n / 10) + [('0' as int + n % 10) as char]
  }

  /** The marker that a checkpoint may add to the history. */
  function CheckpointMessage(id: nat): Message {
    Message(User, [Part(Some("<system>CHECKPOINT " + Decimal(id) + "</system>"), None, None, None, None)])
  }

  function TakeCheckpoint(c: Codec, s: Ctx, addUserMessage: bool): Ctx
    requires s.next >= 0
  {
    var s1 := s.(next := s.next + 1, file := s.file + [Checkpoint(s.next)]);
    if addUserMessage then Append(c, s1, [CheckpointMessage(s.next)]) else s1
  }

  function UpdateTokenCount(s: Ctx, tokenCount: int): Ctx {
    s.(tokenCount := tokenCount, pending := 0, file := s.file + [Usage(tokenCount)])
  }

  /** A checkpoint that does not exist is an error and changes nothing. */
  function RevertTo(c: Codec, s: Ctx, k: int): Ctx {
    if k >= s.next then s
    else
      var before := s.file[..FirstCheckpoint(s.file, k)];
      var mem := Replay(c, s.dir, FRESH, before);
      Ctx(mem.history, mem.tokenCount, Estimate(mem.tail), mem.next, mem.prompt, Kept(before), s.dir)
  }

  function Clear(s: Ctx): Ctx {
    Ctx([], 0, 0, 0, None, [], s.dir)
  }

  /** The prompt becomes the first line of the file. */
  function WriteSystemPrompt(s: Ctx, prompt: string): Ctx {
    s.(prompt := Some(prompt), file := [SystemPrompt(prompt)] + s.file)
  }

  /** Replay on top of what memory holds; an empty file changes nothing. */
  function Restore(c: Codec, s: Ctx): Ctx {
    if s.file == [] then s
    else
      var mem := Replay(c, s.dir, Mem(s.history, s.tokenCount, s.next, s.prompt, []), s.file);
      s.(history := mem.history, tokenCount := mem.tokenCount, next := mem.next, prompt := mem.prompt,
         pending := Estimate(mem.tail))
  }

  /** A new Context object on the same file. */
  function Reopen(c: Codec, s: Ctx): Ctx {
    Restore(c, Ctx([], 0, 0, 0, None, s.file, s.dir))
  }
}
