/** The Context object: memory updated in place, lines appended to or rewritten in the file. */
module Context {
  import opened Basics
  import opened Blobs
  import Compaction
  import opened M = ContextModels

  datatype Error = AlreadyModified | NoSuchCheckpoint | NoRotationPath

  class Context {
    const codec: Codec
    var history: seq<Message>
    var tokenCount: int
    var pending: int
    var next: int
    var prompt: Option<string>
    var file: seq<Line>
    var dir: Dir

    constructor (codec: Codec, file: seq<Line>, dir: Dir)
      ensures this.codec == codec && Model() == Ctx([], 0, 0, 0, None, file, dir)
    {
      this.codec, this.file, this.dir := codec, file, dir;
      history, tokenCount, pending, next, prompt := [], 0, 0, 0, None;
    }

    function Model(): Ctx
      reads this
    {
      Ctx(history, tokenCount, pending, next, prompt, file, dir)
    }

    function Memory(tail: seq<Message>): Mem
      reads this
    {
      Mem(history, tokenCount, next, prompt, tail)
    }

    /** _apply_context_record: false for a line that is skipped. */
    method ApplyRecord(line: Line, tail: seq<Message>) returns (keep: bool, tail': seq<Message>)
      modifies `history, `tokenCount, `next, `prompt
      ensures Memory(tail') == Apply(codec, dir, old(Memory(tail)), line)
      ensures keep <==> !line.Unreadable?
    {
      keep, tail' := true, tail;
      match line {
        case SystemPrompt(content) => prompt := Some(content);
        case Usage(count) => tokenCount, tail' := count, [];
        case Checkpoint(id) => next := id + 1;
        case Msg(m) =>
          var message := ReadBack(codec, dir, m);
          history, tail' := history + [message], tail + [message];
        case Unreadable => keep := false;
      }
    }

    method Restore() returns (r: Result<bool, Error>)
      modifies `history, `tokenCount, `pending, `next, `prompt
      ensures r == if old(history) != [] then Err(AlreadyModified) else Ok(file != [])
      ensures Model() == if old(history) != [] then old(Model()) else M.Restore(codec, old(Model()))
    {
      if history != [] {
        return Err(AlreadyModified);
      }
      if file == [] {
        return Ok(false);
      }
      var tail: seq<Message> := [];
      for i := 0 to |file|
        invariant Memory(tail) == Replay(codec, dir, old(Memory([])), file[..i])
      {
        assert file[..i + 1][..i] == file[..i];
        var _, tail' := ApplyRecord(file[i], tail);
        tail := tail';
      }
      assert file[..|file|] == file;
      pending := Compaction.EstimateTextTokens(tail);
      return Ok(true);
    }

    method WriteSystemPrompt(text: string)
      modifies `prompt, `file
      ensures Model() == M.WriteSystemPrompt(old(Model()), text)
    {
      file := [SystemPrompt(text)] + file;
      prompt := Some(text);
    }

    method Checkpoint(addUserMessage: bool)
      requires next >= 0
      modifies this
      ensures Model() == TakeCheckpoint(codec, old(Model()), addUserMessage)
    {
      var id := next;
      next := next + 1;
      file := file + [Line.Checkpoint(id)];
      if addUserMessage {
        AppendMessage([CheckpointMessage(id)]);
      }
    }

    method SerializeMessages(ms: seq<Message>) returns (lines: seq<Line>)
      modifies `dir
      ensures (lines, dir) == Serialize(codec, old(dir), ms)
    {
      lines := [];
      for i := 0 to |ms|
        invariant (lines, dir) == Serialize(codec, old(dir), ms[..i])
      {
        assert ms[..i + 1][..i] == ms[..i];
        var (parts, d) := ExternalizeParts(codec, dir, ms[i].parts);
        dir := d;
        lines := lines + [Msg(ms[i].(parts := parts))];
      }
      assert ms[..|ms|] == ms;
    }

    method AppendMessage(ms: seq<Message>)
      modifies this
      ensures Model() == M.Append(codec, old(Model()), ms)
    {
      history := history + ms;
      var tokens := Compaction.EstimateTextTokens(ms);
      pending := pending + tokens;
      var lines := SerializeMessages(ms);
      file := file + lines;
    }

    method UpdateTokenCount(count: int)
      modifies this
      ensures Model() == M.UpdateTokenCount(old(Model()), count)
      ensures tokenCount == count && pending == 0 && file == old(file) + [Usage(count)]
    {
      tokenCount := count;
      pending := 0;
      file := file + [Usage(count)];
    }

    /** The old file is rotated away first; rotationFree says that a name for it was found. */
    method RevertTo(k: int, rotationFree: bool) returns (r: Result<(), Error>)
      modifies this
      ensures r == if k >= old(next) then Err(NoSuchCheckpoint) else if !rotationFree then Err(NoRotationPath) else Ok(())
      ensures Model() == if rotationFree then M.RevertTo(codec, old(Model()), k) else old(Model())
    {
      hide Apply, Estimate, FirstCheckpoint;
      if k >= next {
        return Err(NoSuchCheckpoint);
      }
      if !rotationFree {
        return Err(NoRotationPath);
      }
      var rotated := file;
      file, history, tokenCount, next, prompt := [], [], 0, 0, None;
      var tail: seq<Message> := [];
      var i := 0;
      while i < |rotated| && rotated[i] != Line.Checkpoint(k)
        invariant i <= FirstCheckpoint(rotated, k)
        invariant Memory(tail) == Replay(codec, dir, FRESH, rotated[..i])
        invariant file == Kept(rotated[..i]) && dir == old(dir)
      {
        assert rotated[..i + 1][..i] == rotated[..i];
        var keep, tail' := ApplyRecord(rotated[i], tail);
        tail := tail';
        if keep {
          file := file + [rotated[i]];
        }
        i := i + 1;
      }
      pending := Compaction.EstimateTextTokens(tail);
      return Ok(());
    }

    method Clear(rotationFree: bool) returns (r: Result<(), Error>)
      modifies this
      ensures r == if rotationFree then Ok(()) else Err(NoRotationPath)
      ensures Model() == if rotationFree then M.Clear(old(Model())) else old(Model())
    {
      if !rotationFree {
        return Err(NoRotationPath);
      }
      ClearInPlace();
      return Ok(());
    }

    method ClearInPlace()
      modifies this
      ensures Model() == M.Clear(old(Model()))
    {
      file := [];
      history, tokenCount, pending, next, prompt := [], 0, 0, 0, None;
    }
  }
}
