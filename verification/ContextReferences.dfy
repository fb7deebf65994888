/**
 Files with references whose blob is missing: replay puts a placeholder for such a part, until an
 append happens to write that very blob.
 */
module ContextReferences {
  import opened Basics
  import opened Blobs
  import opened ContextModels
  import opened ContextRuns
  import Text

  /** The url of the only media field that is read back. */
  function FirstMedia(p: Part): Option<string> {
    if p.image.Some? then p.image else if p.audio.Some? then p.audio else p.video
  }

  /** The name of the blob that the part refers to, if it is a well-formed one. */
  function Reference(p: Part): Option<string> {
    var url := FirstMedia(p);
    if url.Some? && Text.StartsWith(url.value, BLOBREF_SCHEME) && ValidName(url.value[|BLOBREF_SCHEME|..])
    then Some(url.value[|BLOBREF_SCHEME|..]) else None
  }

  /** Whether the part refers to a blob that is missing from dir and is not missing later. */
  predicate Resolves(dir: Dir, later: Dir, p: Part) {
    Reference(p).Some? && Reference(p).value !in dir && Reference(p).value in later
  }

  predicate ResolvesIn(dir: Dir, later: Dir, m: Message) {
    exists i :: 0 <= i < |m.parts| && Resolves(dir, later, m.parts[i])
  }

  predicate ResolvesAny(dir: Dir, later: Dir, lines: seq<Line>) {
    exists i :: 0 <= i < |lines| && lines[i].Msg? && ResolvesIn(dir, later, lines[i].message)
  }

  /** A part reads the same later exactly if its blob has not turned up. */
  lemma PartRereads(c: Codec, dir: Dir, later: Dir, p: Part)
    requires Extends(dir, later)
    ensures RehydratePart(c, later, p) == RehydratePart(c, dir, p) <==> !Resolves(dir, later, p)
  {
    hide ValidName, Header, MimeByExt, Text.StartsWith;
  }

  lemma MessageRereads(c: Codec, dir: Dir, later: Dir, m: Message)
    requires Extends(dir, later)
    ensures ReadBack(c, later, m) == ReadBack(c, dir, m) <==> !ResolvesIn(dir, later, m)
  {
    hide RehydratePart, Resolves, Extends;
    var a, b := RehydrateParts(c, later, m.parts), RehydrateParts(c, dir, m.parts);
    forall i | 0 <= i < |m.parts| ensures a[i] == b[i] <==> !Resolves(dir, later, m.parts[i]) {
      PartRereads(c, dir, later, m.parts[i]);
    }
    if !ResolvesIn(dir, later, m) {
      assert a == b;
    } else {
      var i :| 0 <= i < |m.parts| && Resolves(dir, later, m.parts[i]);
      assert a[i] != b[i];
    }
  }

  lemma ResolvesLast(dir: Dir, later: Dir, lines: seq<Line>, line: Line)
    ensures ResolvesAny(dir, later, lines + [line]) <==>
            ResolvesAny(dir, later, lines) || (line.Msg? && ResolvesIn(dir, later, line.message))
    ensures !ResolvesAny(dir, later, [])
  {
    hide ResolvesIn;
    var more := lines + [line];
    if ResolvesAny(dir, later, lines) {
      var i :| 0 <= i < |lines| && lines[i].Msg? && ResolvesIn(dir, later, lines[i].message);
      assert more[i] == lines[i];
    }
    assert more[|lines|] == line;
  }

  /** A file replays to the same history later exactly if none of its missing blobs has turned up. */
  lemma {:induction false} FileRereads(c: Codec, dir: Dir, later: Dir, lines: seq<Line>)
    requires Extends(dir, later)
    ensures
      var a, b := Replay(c, later, FRESH, lines), Replay(c, dir, FRESH, lines);
      && (a.history == b.history <==> !ResolvesAny(dir, later, lines))
      && |a.history| == |b.history| && a.tokenCount == b.tokenCount && a.next == b.next && a.prompt == b.prompt
  {
    hide ResolvesAny, ResolvesIn, Extends, ReadBack;
    if lines == [] {
      ResolvesLast(dir, later, [], Unreadable);
    } else {
      var most, line := lines[..|lines| - 1], lines[|lines| - 1];
      assert lines == most + [line];
      FileRereads(c, dir, later, most);
      ResolvesLast(dir, later, most, line);
      if line.Msg? {
        MessageRereads(c, dir, later, line.message);
        var a, b := Replay(c, later, FRESH, most).history, Replay(c, dir, FRESH, most).history;
        SnocInjective(a, ReadBack(c, later, line.message), b, ReadBack(c, dir, line.message));
      }
    }
  }

  // ----- appending -----

  /** Memory and file agree and are numbered; references may be broken. */
  ghost predicate Sound(c: Codec, s: Ctx) {
    Addressed(c, s.dir) && Agree(c, s) && Numbered(s)
  }

  lemma JoinedEqual<T>(a: seq<T>, x: seq<T>, b: seq<T>, y: seq<T>)
    requires |a| == |b|
    ensures a + x == b + y <==> a == b && x == y
  {
    assert (a + x)[..|a|] == a && (a + x)[|a|..] == x;
    assert (b + y)[..|a|] == b && (b + y)[|a|..] == y;
  }

  /**
   After an append to any conversation, memory and file agree if and only if every new message
   survives and none of the blobs just written is one that an older line was missing.
   */
  lemma AppendAgreesExactly(c: Codec, s: Ctx, ms: seq<Message>)
    requires Lawful(c) && Addressed(c, s.dir) && Agree(c, s)
    ensures
      Agree(c, Append(c, s, ms)) <==>
      AllSurvive(c, ms) && !ResolvesAny(s.dir, Append(c, s, ms).dir, s.file)
  {
    hide Lawful, Addressed, AllSurvive, ResolvesAny, Serialize;
    var (lines, d) := Serialize(c, s.dir, ms);
    SerializeExtends(c, s.dir, ms);
    ReplayConcat(c, d, FRESH, s.file, lines);
    ReplayMessages(c, d, Replay(c, d, FRESH, s.file), lines);
    FileRereads(c, s.dir, d, s.file);
    BackAllExact(c, s.dir, ms);
    JoinedEqual(Replay(c, d, FRESH, s.file).history, BackAll(c, d, lines), s.history, ms);
  }

  // ----- runs -----

  /** A context restored from any file that numbers its checkpoints, broken references or not. */
  lemma StartSound(c: Codec, file: seq<Line>, dir: Dir, n: nat)
    requires Addressed(c, dir) && Ids(file) == UpTo(n)
    ensures Sound(c, Restore(c, Ctx([], 0, 0, 0, None, file, dir)))
  {
    ReplayNext(c, dir, file);
    assert file == [] ==> Replay(c, dir, FRESH, file) == FRESH;
  }

  /** What the callers see to in such a conversation. */
  ghost predicate Harmless(c: Codec, s: Ctx, op: Op) {
    Allowed(c, s, op) && (op.DoAppend? ==> !ResolvesAny(s.dir, Append(c, s, op.messages).dir, s.file))
  }

  ghost predicate AllHarmless(c: Codec, s: Ctx, ops: seq<Op>) {
    forall i :: 0 <= i < |ops| ==> Harmless(c, DoAll(c, s, ops[..i]), ops[i])
  }

  lemma SoundAppend(c: Codec, s: Ctx, ms: seq<Message>)
    requires Lawful(c) && Sound(c, s) && AllSurvive(c, ms) && !ResolvesAny(s.dir, Append(c, s, ms).dir, s.file)
    ensures Sound(c, Append(c, s, ms))
  {
    hide Lawful, AllSurvive, ResolvesAny, Agree, Numbered;
    AppendAgreesExactly(c, s, ms);
    AppendNumbered(c, s, ms);
    SerializeExtends(c, s.dir, ms);
  }

  lemma SoundNumber(c: Codec, s: Ctx)
    requires Sound(c, s)
    ensures Sound(c, s.(next := s.next + 1, file := s.file + [Checkpoint(s.next)]))
  {
    AppendLine(c, s, Checkpoint(s.next));
    UpToNext(s.next);
  }

  lemma SoundCheckpoint(c: Codec, s: Ctx, add: bool)
    requires Lawful(c) && Sound(c, s)
    ensures Sound(c, TakeCheckpoint(c, s, add))
  {
    hide Lawful, Addressed, Agree, Ids, AllSurvive, Append, CheckpointMessage;
    SoundNumber(c, s);
    if add {
      var s1 := s.(next := s.next + 1, file := s.file + [Checkpoint(s.next)]);
      MarkerSurvives(c, s.next);
      MarkerWritesNothing(c, s1, s.next);
      SoundAppend(c, s1, [CheckpointMessage(s.next)]);
    }
  }

  lemma MarkerWritesNothing(c: Codec, s: Ctx, id: nat)
    ensures Append(c, s, [CheckpointMessage(id)]).dir == s.dir
    ensures !ResolvesAny(s.dir, s.dir, s.file)
  {
    var m := CheckpointMessage(id);
    var p := m.parts[0];
    assert [m][..0] == [] && m.parts[..0] == [];
    assert ExternalizePart(c, s.dir, p) == (p, s.dir);
    assert ExternalizeParts(c, s.dir, []) == ([], s.dir);
    assert ExternalizeParts(c, s.dir, m.parts).1 == s.dir;
    assert Serialize(c, s.dir, []) == ([], s.dir);
    assert Serialize(c, s.dir, [m]).1 == s.dir;
  }

  lemma SoundStep(c: Codec, s: Ctx, op: Op)
    requires Lawful(c) && Sound(c, s) && Harmless(c, s, op)
    ensures Sound(c, Do(c, s, op))
  {
    match op
    case DoAppend(ms) => SoundAppend(c, s, ms);
    case DoCheckpoint(add) => SoundCheckpoint(c, s, add);
    case DoUsage(n) => AppendLine(c, s, Usage(n));
    case DoRevert(k) => SoundRevert(c, s, k);
    case DoClear => assert Replay(c, s.dir, FRESH, []) == FRESH;
    case DoWritePrompt(p) =>
      WritePromptAgreesIff(c, s, p);
      IdsConcat([SystemPrompt(p)], s.file);
      assert Ids([SystemPrompt(p)]) == [] by { assert [SystemPrompt(p)][..0] == []; }
    case DoReopen =>
  }

  lemma SoundRevert(c: Codec, s: Ctx, k: int)
    requires Sound(c, s)
    ensures Sound(c, RevertTo(c, s, k))
  {
    if k < s.next {
      var before := s.file[..FirstCheckpoint(s.file, k)];
      RevertNumbered(c, s, k);
      KeptReplays(c, s.dir, FRESH, before);
    }
  }

  /** Such a conversation stays in agreement over every run in which no append resolves an older reference. */
  lemma {:induction false} SoundRun(c: Codec, s: Ctx, ops: seq<Op>)
    requires Lawful(c) && Sound(c, s) && AllHarmless(c, s, ops)
    ensures Sound(c, DoAll(c, s, ops))
  {
    hide Lawful, Sound, Harmless, Do;
    if ops == [] {
    } else {
      var most := ops[..|ops| - 1];
      assert forall i :: 0 <= i < |most| ==> most[..i] == ops[..i] && most[i] == ops[i];
      SoundRun(c, s, most);
      SoundStep(c, DoAll(c, s, most), ops[|ops| - 1]);
    }
  }

  // ----- a missing blob that turns up -----

  function Picture(url: string): Message { Message(User, [Part(None, None, Some(url), None, None)]) }

  /** The reference that stands for a url in the file. */
  function ReferenceTo(c: Codec, url: string): string { ExternalizeUrl(c, map[], url).0 }

  lemma ReferenceIsNamed(c: Codec, url: string)
    requires Lawful(c) && Payload(c, url).Some?
    ensures
      var p := Picture(ReferenceTo(c, url)).parts[0];
      Reference(p).Some? && forall dir: Dir :: Reference(p).value in ExternalizeUrl(c, dir, url).1
  {
    hide ParseDataUrl, ExtByMime, MimeByExt;
    var ext := ExtByMime(ParseDataUrl(url).value.mime);
    ExtPlain(ParseDataUrl(url).value.mime);
    NameReads(c.digest(Payload(c, url).value), ext);
    var name := BlobName(c.digest(Payload(c, url).value), ext);
    assert (BLOBREF_SCHEME + name)[|BLOBREF_SCHEME|..] == name;
  }

  lemma PictureWrites(c: Codec, s: Ctx, url: string)
    ensures Append(c, s, [Picture(url)]).dir == ExternalizeUrl(c, s.dir, url).1
  {
    hide ExternalizeUrl;
    var m := Picture(url);
    var p := m.parts[0];
    assert [m][..0] == [] && m.parts[..0] == [];
    assert ExternalizePart(c, s.dir, p).1 == ExternalizeUrl(c, s.dir, url).1;
    assert ExternalizeParts(c, s.dir, []) == ([], s.dir);
    assert ExternalizeParts(c, s.dir, m.parts).1 == ExternalizePart(c, s.dir, p).1;
    assert Serialize(c, s.dir, []) == ([], s.dir);
    assert Serialize(c, s.dir, [m]).1 == ExternalizeParts(c, s.dir, m.parts).1;
  }

  /**
   A file that refers to a missing blob is restored with a placeholder, and agrees with memory. The
   next message with that picture survives, and yet memory and file part: the old line reads as the
   picture again.
   */
  lemma LateBlobParts(c: Codec, url: string)
    requires Lawful(c) && Payload(c, url).Some? && UrlSurvives(c, url)
    ensures
      var s := Restore(c, Ctx([], 0, 0, 0, None, [Msg(Picture(ReferenceTo(c, url)))], map[]));
      && Sound(c, s) && AllSurvive(c, [Picture(url)])
      && !Agree(c, Append(c, s, [Picture(url)]))
  {
    hide Lawful, Payload, UrlSurvives, ExternalizeUrl, Sound, Agree, Append, ReferenceTo;
    var line := Msg(Picture(ReferenceTo(c, url)));
    assert [line][..0] == [];
    StartSound(c, [line], map[], 0);
    var s := Restore(c, Ctx([], 0, 0, 0, None, [line], map[]));
    PictureFile(c, s, line, url);
  }

  /** Appending the picture writes the blob that the line was missing. */
  lemma LateBlobResolves(c: Codec, s: Ctx, line: Line, url: string)
    requires Lawful(c) && Payload(c, url).Some? && line == Msg(Picture(ReferenceTo(c, url)))
    requires s.file == [line] && s.dir == map[]
    ensures ResolvesAny(s.dir, Append(c, s, [Picture(url)]).dir, s.file)
  {
    hide Lawful, Payload, ExternalizeUrl, Append, ReferenceTo, Reference, Serialize;
    ReferenceIsNamed(c, url);
    PictureWrites(c, s, url);
    assert Resolves(s.dir, Append(c, s, [Picture(url)]).dir, line.message.parts[0]);
    assert ResolvesIn(s.dir, Append(c, s, [Picture(url)]).dir, s.file[0].message);
  }

  lemma PictureFile(c: Codec, s: Ctx, line: Line, url: string)
    requires Lawful(c) && Payload(c, url).Some? && UrlSurvives(c, url) && Sound(c, s)
    requires line == Msg(Picture(ReferenceTo(c, url))) && s.file == [line] && s.dir == map[]
    ensures AllSurvive(c, [Picture(url)]) && !Agree(c, Append(c, s, [Picture(url)]))
  {
    hide Lawful, Payload, ExternalizeUrl, Agree, Append, ReferenceTo, Serialize, UrlSurvives, ResolvesAny;
    LateBlobResolves(c, s, line, url);
    assert PartSurvives(c, Picture(url).parts[0]);
    AppendAgreesExactly(c, s, [Picture(url)]);
  }

  /** There are such files and pictures. */
  lemma LateBlobExists() returns (c: Codec, file: seq<Line>, ms: seq<Message>)
    ensures Lawful(c) && AllSurvive(c, ms)
    ensures
      var s := Restore(c, Ctx([], 0, 0, 0, None, file, map[]));
      Sound(c, s) && !Agree(c, Append(c, s, ms))
  {
    hide Lawful, Payload, UrlSurvives, AllSurvive, Agree, Sound, Append, ReferenceTo;
    var url;
    c, url := LawfulExists();
    file, ms := [Msg(Picture(ReferenceTo(c, url)))], [Picture(url)];
    LateBlobParts(c, url);
  }

  // ----- files without missing blobs -----

  /** While no missing blob has turned up, a file replays to the very same memory. */
  lemma {:induction false} ReplaysAlike(c: Codec, dir: Dir, later: Dir, lines: seq<Line>)
    requires Extends(dir, later) && !ResolvesAny(dir, later, lines)
    ensures Replay(c, later, FRESH, lines) == Replay(c, dir, FRESH, lines)
  {
    hide ResolvesAny, ResolvesIn, Extends, ReadBack;
    if lines == [] {
    } else {
      var most, line := lines[..|lines| - 1], lines[|lines| - 1];
      assert lines == most + [line];
      ResolvesLast(dir, later, most, line);
      ReplaysAlike(c, dir, later, most);
      if line.Msg? { MessageRereads(c, dir, later, line.message); }
    }
  }

  /** In a file without broken references there is nothing to resolve. */
  lemma StableResolvesNothing(c: Codec, dir: Dir, later: Dir, lines: seq<Line>)
    requires Stable(c, dir, lines) && Extends(dir, later)
    ensures !ResolvesAny(dir, later, lines)
  {
    hide ResolvesIn, ReadBack;
    forall i | 0 <= i < |lines| && lines[i].Msg? ensures !ResolvesIn(dir, later, lines[i].message) {
      assert StableLine(c, dir, lines[i]);
      MessageRereads(c, dir, later, lines[i].message);
    }
  }

  /** From a file without broken references, every run that RunKeeps is about is harmless. */
  lemma {:induction false} GoodIsHarmless(c: Codec, s: Ctx, ops: seq<Op>)
    requires Lawful(c) && Good(c, s) && AllAllowed(c, s, ops)
    ensures Sound(c, s) && AllHarmless(c, s, ops)
  {
    hide Lawful, Good, Allowed, ResolvesAny, Append, Do;
    GoodIsSound(c, s);
    forall i | 0 <= i < |ops| ensures Harmless(c, DoAll(c, s, ops[..i]), ops[i]) {
      var init := ops[..i];
      assert forall j :: 0 <= j < |init| ==> init[..j] == ops[..j] && init[j] == ops[j];
      RunKeeps(c, s, init);
      if ops[i].DoAppend? { GoodAppends(c, DoAll(c, s, init), ops[i].messages); }
    }
  }

  lemma GoodIsSound(c: Codec, s: Ctx)
    requires Good(c, s)
    ensures Sound(c, s)
  {
  }

  lemma GoodAppends(c: Codec, s: Ctx, ms: seq<Message>)
    requires Lawful(c) && Good(c, s)
    ensures !ResolvesAny(s.dir, Append(c, s, ms).dir, s.file)
  {
    hide Lawful, Stable, Agree, Numbered, ResolvesAny, Serialize;
    SerializeExtends(c, s.dir, ms);
    StableResolvesNothing(c, s.dir, Append(c, s, ms).dir, s.file);
  }
}
