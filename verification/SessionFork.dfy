/**
 Forking a session: the wire file and the context file are cut after a turn. A file is the
 sequence of its lines; a line that is blank or does not parse is skipped.
 */
module SessionFork {
  import opened Basics
  import Blobs
  import ContextModels
  import opened Text

  /** raw tells apart lines that the code treats alike. */
  datatype Wire =
    | WBlank
    | WMalformed(raw: string)
    | Metadata(raw: string)
    | TurnBegin(userText: string, raw: string)
    | TurnEnd(raw: string)
    | WOther(raw: string)

  /** An element of a content list: a part with or without text, a bare string, or something else. */
  datatype Item = PartItem(text: Option<string>) | StringItem(s: string) | OtherItem

  datatype Content = Plain(s: string) | Items(items: seq<Item>) | NoContent

  datatype Record =
    | CBlank
    | CMalformed(raw: string)
    | UserRecord(content: Content, raw: string)
    | COther(raw: string)

  datatype Error = TurnOutOfRange

  // ----- texts -----

  /** The texts of the parts, joined by blanks; the first one is put without a blank. */
  function JoinTexts(items: seq<Item>, first: bool): string {
    if items == [] then ""
    else
      var text := match items[0] case PartItem(t) => t case StringItem(s) => Some(s) case OtherItem => None;
      if text.None? then JoinTexts(items[1..], first)
      else (if first then "" else " ") + text.value + JoinTexts(items[1..], false)
  }

  function ExtractUserText(content: Content): string {
    match content
    case Plain(s) => s
    case Items(items) => JoinTexts(items, true)
    case NoContent => ""
  }

  const MARKER_OPEN := "<system>CHECKPOINT "
  const MARKER_CLOSE := "</system>"

  predicate AllDigits(s: string) {
    forall i :: 0 <= i < |s| ==> '0' <= s[i] <= '9'
  }

  predicate IsMarker(s: string) {
    && StartsWith(s, MARKER_OPEN) && EndsWith(s, MARKER_CLOSE)
    && |s| > |MARKER_OPEN| + |MARKER_CLOSE|
    && AllDigits(s[|MARKER_OPEN|..|s| - |MARKER_CLOSE|])
  }

  /** The synthetic user record that a checkpoint may add. */
  predicate IsCheckpointContent(content: Content) {
    match content
    case Plain(s) => IsMarker(Strip(s))
    case Items(items) => |items| == 1 && items[0].PartItem? && items[0].text.Some? && IsMarker(Strip(items[0].text.value))
    case NoContent => false
  }

  /** A user record that stands for something the user, or the session for him, said. */
  predicate IsReal(r: Record) {
    r.UserRecord? && !IsCheckpointContent(r.content)
  }

  lemma RealIsUser(r: Record)
    requires IsReal(r)
    ensures r.UserRecord?
  {
  }

  // ----- the wire -----

  function Turns(lines: seq<Wire>): seq<string> {
    if lines == [] then []
    else (if lines[0].TurnBegin? then [lines[0].userText] else []) + Turns(lines[1..])
  }

  predicate WSkipped(line: Wire) { line.WBlank? || line.WMalformed? }

  /** What is kept of lines when `turn` is the current turn and k the last one wanted. */
  function CutWire(lines: seq<Wire>, turn: int, k: int): seq<Wire> {
    if lines == [] then []
    else if WSkipped(lines[0]) then CutWire(lines[1..], turn, k)
    else if lines[0].Metadata? then [lines[0]] + CutWire(lines[1..], turn, k)
    else
      var now := if lines[0].TurnBegin? then turn + 1 else turn;
      if lines[0].TurnBegin? && now > k then []
      else
        (if now <= k then [lines[0]] else []) +
        if lines[0].TurnEnd? && now == k then [] else CutWire(lines[1..], now, k)
  }

  function TruncateWire(lines: seq<Wire>, k: int): Result<seq<Wire>, Error> {
    if |Turns(lines)| <= k then Err(TurnOutOfRange) else Ok(CutWire(lines, -1, k))
  }

  /** Cutting leaves the turns up to k. */
  lemma {:induction false} CutWireTurns(lines: seq<Wire>, turn: int, k: int)
    requires -1 <= turn <= k
    ensures Turns(CutWire(lines, turn, k)) == Turns(lines)[..if |Turns(lines)| < k - turn then |Turns(lines)| else k - turn]
  {
    if lines == [] {
    } else {
      var now := if lines[0].TurnBegin? then turn + 1 else turn;
      if now <= k {
        CutWireTurns(lines[1..], now, k);
        var cut := CutWire(lines, turn, k);
        assert cut != [] && !WSkipped(lines[0]) ==> cut[0] == lines[0];
        assert cut != [] && !WSkipped(lines[0]) ==> cut[1..] == [] || cut[1..] == CutWire(lines[1..], now, k);
      }
    }
  }

  /** Cutting twice is cutting once, at the earlier turn. */
  lemma {:induction false} CutWireTwice(lines: seq<Wire>, turn: int, k: int, j: int)
    requires -1 <= turn && turn <= j <= k
    ensures CutWire(CutWire(lines, turn, k), turn, j) == CutWire(lines, turn, j)
  {
    if lines == [] {
    } else {
      var now := if lines[0].TurnBegin? then turn + 1 else turn;
      if now <= j {
        CutWireTwice(lines[1..], now, k, j);
        var rest := CutWire(lines[1..], now, k);
        assert ([lines[0]] + rest)[1..] == rest;
      }
    }
  }

  lemma {:induction false} CutWirePrefix(lines: seq<Wire>, turn: int, k: int, j: int)
    requires -1 <= turn && turn <= j <= k
    ensures CutWire(lines, turn, j) <= CutWire(lines, turn, k)
  {
    if lines == [] {
    } else {
      var now := if lines[0].TurnBegin? then turn + 1 else turn;
      if now <= j { CutWirePrefix(lines[1..], now, k, j); }
    }
  }

  method EnumerateTurns(lines: seq<Wire>) returns (turns: seq<string>)
    ensures turns == Turns(lines)
  {
    turns := [];
    for i := 0 to |lines|
      invariant turns + Turns(lines[i..]) == Turns(lines)
    {
      assert lines[i..][1..] == lines[i + 1..];
      if lines[i].TurnBegin? {
        turns := turns + [lines[i].userText];
      }
    }
  }

  /** One step of the loop below. */
  lemma CutWireStep(lines: seq<Wire>, i: nat, turn: int, k: int)
    requires i < |lines|
    ensures
      var line, rest := lines[i], lines[i + 1..];
      var now := if line.TurnBegin? then turn + 1 else turn;
      && |Turns(lines[i..])| == |Turns(rest)| + now - turn
      && CutWire(lines[i..], turn, k) ==
         if WSkipped(line) then CutWire(rest, turn, k)
         else if line.Metadata? then [line] + CutWire(rest, turn, k)
         else if line.TurnBegin? && now > k then []
         else (if now <= k then [line] else []) + if line.TurnEnd? && now == k then [] else CutWire(rest, now, k)
  {
    assert lines[i..][1..] == lines[i + 1..];
  }

  method TruncateWireAtTurn(lines: seq<Wire>, k: int) returns (r: Result<seq<Wire>, Error>)
    ensures r == TruncateWire(lines, k)
  {
    hide CutWire, Turns;
    var kept: seq<Wire>, turn := [], -1;
    var i, stopped := 0, false;
    ghost var want, all := CutWire(lines, -1, k), |Turns(lines)|;
    assert lines[0..] == lines;
    while i < |lines| && !stopped
      invariant i <= |lines|
      invariant !stopped ==> turn + 1 == all - |Turns(lines[i..])|
      invariant !stopped ==> kept + CutWire(lines[i..], turn, k) == want
      invariant stopped ==> kept == want && k <= turn < all
      decreases |lines| - i, !stopped
    {
      CutWireStep(lines, i, turn, k);
      var line := lines[i];
      if line.Metadata? {
        kept := kept + [line];
      } else if !WSkipped(line) {
        if line.TurnBegin? {
          turn := turn + 1;
          stopped := turn > k;
        }
        if !stopped {
          if turn <= k {
            kept := kept + [line];
          }
          stopped := line.TurnEnd? && turn == k;
        }
      }
      i := i + 1;
    }
    CutNothing(lines, turn, k);
    assert kept + [] == kept;
    if turn < k {
      return Err(TurnOutOfRange);
    }
    return Ok(kept);
  }

  lemma CutNothing(lines: seq<Wire>, turn: int, k: int)
    ensures CutWire(lines[|lines|..], turn, k) == [] && Turns(lines[|lines|..]) == []
  {
  }

  // ----- the context -----

  predicate CSkipped(line: Record) { line.CBlank? || line.CMalformed? }

  /** The text by which a record is aligned; a record without content has none. */
  function TextOf(r: Record): Option<string> {
    if !r.UserRecord? || r.content.NoContent? then None else Some(Strip(ExtractUserText(r.content)))
  }

  function Stripped(texts: seq<string>): (r: seq<string>)
    ensures |r| == |texts|
  {
    seq(|texts|, i requires 0 <= i < |texts| => Strip(texts[i]))
  }

  /** The first turn from `next` on that has this text; texts are compared without outer white space. */
  function MatchTurn(text: Option<string>, texts: seq<string>, next: nat): (m: Option<nat>)
    requires next <= |texts|
    ensures m.Some? ==> next <= m.value < |texts| && text == Some(texts[m.value])
    ensures forall j :: next <= j < (if m.Some? then m.value else |texts|) ==> text != Some(texts[j])
    decreases |texts| - next
  {
    if next == |texts| then None
    else if text == Some(texts[next]) then Some(next)
    else MatchTurn(text, texts, next + 1)
  }

  /** The turn that a record starts. */
  function StartedTurn(r: Record, texts: seq<string>, next: nat): (m: Option<nat>)
    requires next <= |texts|
    ensures m.Some? ==> next <= m.value < |texts| && r.UserRecord?
  {
    if IsReal(r) then MatchTurn(TextOf(r), texts, next) else None
  }

  /** What is kept up to turn k when records are aligned to turns by their texts. */
  function CutContext(lines: seq<Record>, texts: seq<string>, next: nat, k: int): seq<Record>
    requires next <= |texts|
  {
    if lines == [] then []
    else if CSkipped(lines[0]) then CutContext(lines[1..], texts, next, k)
    else
      var m := StartedTurn(lines[0], texts, next);
      if m.Some? && m.value > k then []
      else [lines[0]] + CutContext(lines[1..], texts, if m.Some? then m.value + 1 else next, k)
  }

  /** What is kept up to turn k when every real user record starts a turn. */
  function CutByCount(lines: seq<Record>, turn: int, k: int): seq<Record> {
    if lines == [] then []
    else if CSkipped(lines[0]) then CutByCount(lines[1..], turn, k)
    else
      var now := if IsReal(lines[0]) then turn + 1 else turn;
      if IsReal(lines[0]) && now > k then [] else [lines[0]] + CutByCount(lines[1..], now, k)
  }

  function Cut(lines: seq<Record>, texts: Option<seq<string>>, turn: int, next: nat, k: int): seq<Record>
    requires texts.Some? ==> next <= |texts.value|
  {
    if texts.None? then CutByCount(lines, turn, k) else CutContext(lines, texts.value, next, k)
  }

  function TruncateContext(lines: seq<Record>, texts: Option<seq<string>>, k: int): seq<Record> {
    Cut(lines, if texts.None? then None else Some(Stripped(texts.value)), -1, 0, k)
  }

  method MatchWireTurn(r: Record, texts: seq<string>, next: nat) returns (m: Option<nat>)
    requires r.UserRecord? && next <= |texts|
    ensures m == MatchTurn(TextOf(r), Stripped(texts), next)
  {
    hide IsReal, Strip, ExtractUserText;
    if r.content.NoContent? {
      return None;
    }
    var text := Strip(ExtractUserText(r.content));
    for j := next to |texts|
      invariant MatchTurn(Some(text), Stripped(texts), j) == MatchTurn(Some(text), Stripped(texts), next)
    {
      if text == Strip(texts[j]) {
        return Some(j);
      }
    }
    return None;
  }

  method TruncateContextAtTurn(lines: seq<Record>, k: int, texts: Option<seq<string>>) returns (kept: seq<Record>)
    ensures kept == TruncateContext(lines, texts, k)
  {
    hide Cut, IsReal, TextOf, MatchTurn, Stripped, CutContext, CutByCount, Strip, ExtractUserText, IsCheckpointContent;
    ghost var keys := if texts.None? then None else Some(Stripped(texts.value));
    ghost var want := Cut(lines, keys, -1, 0, k);
    kept := [];
    var turn: int, next: nat := -1, 0;
    assert lines[0..] == lines;
    for i := 0 to |lines|
      invariant texts.Some? ==> next <= |texts.value|
      invariant kept + Cut(lines[i..], keys, turn, next, k) == want
    {
      CutStep(lines, i, keys, turn, next, k);
      if !CSkipped(lines[i]) {
        if IsReal(lines[i]) {
          if texts.None? {
            turn := turn + 1;
            if turn > k {
              return;
            }
          } else {
            RealIsUser(lines[i]);
            var matched := MatchWireTurn(lines[i], texts.value, next);
            if matched.Some? {
              if matched.value > k {
                return;
              }
              next := matched.value + 1;
            }
          }
        }
        kept := kept + [lines[i]];
      }
    }
    CutNoRecords(lines, keys, turn, next, k);
  }

  /** What one record, real or not, with its text does to the cursors; None where the cut ends. */
  function Advance(isReal: bool, text: Option<string>, texts: Option<seq<string>>, turn: int, next: nat, k: int)
    : (to: Option<(int, nat)>)
    requires texts.Some? ==> next <= |texts.value|
    ensures to.Some? && texts.Some? ==> to.value.1 <= |texts.value|
  {
    if !isReal then Some((turn, next))
    else if texts.None? then if turn + 1 > k then None else Some((turn + 1, next))
    else
      var m := MatchTurn(text, texts.value, next);
      if m.None? then Some((turn, next))
      else if m.value > k then None else Some((turn, m.value + 1))
  }

  /** One step of the loop above. */
  lemma CutStep(lines: seq<Record>, i: nat, texts: Option<seq<string>>, turn: int, next: nat, k: int)
    requires i < |lines| && (texts.Some? ==> next <= |texts.value|)
    ensures
      var to := Advance(IsReal(lines[i]), TextOf(lines[i]), texts, turn, next, k);
      Cut(lines[i..], texts, turn, next, k) ==
        if CSkipped(lines[i]) then Cut(lines[i + 1..], texts, turn, next, k)
        else if to.None? then []
        else [lines[i]] + Cut(lines[i + 1..], texts, to.value.0, to.value.1, k)
    ensures forall kept: seq<Record> :: kept + [] == kept
  {
    hide IsReal, MatchTurn, TextOf;
    assert lines[i..][1..] == lines[i + 1..];
  }

  lemma CutNoRecords(lines: seq<Record>, texts: Option<seq<string>>, turn: int, next: nat, k: int)
    requires texts.Some? ==> next <= |texts.value|
    ensures Cut(lines[|lines|..], texts, turn, next, k) == []
    ensures forall kept: seq<Record> :: kept + [] == kept
  {
  }

  // ----- forks of forks -----

  /** A session, as far as forking reads and writes it. */
  datatype Session = Session(wire: seq<Wire>, context: seq<Record>)

  function ReadableWire(lines: seq<Wire>): seq<Wire> {
    if lines == [] then []
    else if lines[0].WBlank? then ReadableWire(lines[1..]) else [lines[0]] + ReadableWire(lines[1..])
  }

  function NonBlank(lines: seq<Record>): seq<Record> {
    if lines == [] then []
    else if lines[0].CBlank? then NonBlank(lines[1..]) else [lines[0]] + NonBlank(lines[1..])
  }

  /** The new session: the turns up to k, or all of them. */
  function Fork(s: Session, k: Option<int>): Result<Session, Error> {
    if k.None? then Ok(Session(ReadableWire(s.wire), NonBlank(s.context)))
    else
      var wire := TruncateWire(s.wire, k.value);
      if wire.Err? then Err(wire.error)
      else Ok(Session(wire.value, TruncateContext(s.context, Some(Turns(s.wire)), k.value)))
  }

  method ForkSession(s: Session, k: Option<int>) returns (r: Result<Session, Error>)
    ensures r == Fork(s, k)
  {
    hide ReadableWire, NonBlank, TruncateWire, TruncateContext, Turns;
    if k.Some? {
      var wire := TruncateWireAtTurn(s.wire, k.value);
      if wire.Err? {
        return Err(wire.error);
      }
      var texts := EnumerateTurns(s.wire);
      var context := TruncateContextAtTurn(s.context, k.value, Some(texts));
      return Ok(Session(wire.value, context));
    }
    var wire := ReadWire(s.wire);
    var context := ReadContext(s.context);
    return Ok(Session(wire, context));
  }

  method ReadWire(lines: seq<Wire>) returns (kept: seq<Wire>)
    ensures kept == ReadableWire(lines)
  {
    kept := [];
    for i := 0 to |lines|
      invariant kept + ReadableWire(lines[i..]) == ReadableWire(lines)
    {
      assert lines[i..][1..] == lines[i + 1..];
      if !lines[i].WBlank? {
        kept := kept + [lines[i]];
      }
    }
  }

  method ReadContext(lines: seq<Record>) returns (kept: seq<Record>)
    ensures kept == NonBlank(lines)
  {
    kept := [];
    for i := 0 to |lines|
      invariant kept + NonBlank(lines[i..]) == NonBlank(lines)
    {
      assert lines[i..][1..] == lines[i + 1..];
      if !lines[i].CBlank? {
        kept := kept + [lines[i]];
      }
    }
  }

  /** A text among the first turns is found among them, or not at all. */
  lemma {:induction false} MatchAmongFirst(text: Option<string>, texts: seq<string>, next: nat, n: nat)
    requires next <= n <= |texts|
    ensures
      var m := MatchTurn(text, texts, next);
      MatchTurn(text, texts[..n], next) == if m.Some? && m.value < n then m else None
    decreases |texts| - next
  {
    if next < n && text != Some(texts[next]) { MatchAmongFirst(text, texts, next + 1, n); }
  }

  lemma StartedAmongFirst(r: Record, texts: seq<string>, next: nat, n: nat)
    requires next <= n <= |texts|
    ensures
      var m := StartedTurn(r, texts, next);
      StartedTurn(r, texts[..n], next) == if m.Some? && m.value < n then m else None
  {
    hide IsReal, TextOf, MatchTurn;
    if IsReal(r) { MatchAmongFirst(TextOf(r), texts, next, n); }
  }

  /** Aligning what is left of a file against what is left of the turns cuts where aligning all of it does. */
  lemma {:induction false} CutContextTwice(lines: seq<Record>, texts: seq<string>, next: nat, k: nat, j: nat)
    requires j <= k < |texts| && next <= j + 1
    ensures CutContext(CutContext(lines, texts, next, k), texts[..k + 1], next, j) == CutContext(lines, texts, next, j)
  {
    hide StartedTurn;
    if lines == [] {
    } else {
      var m := StartedTurn(lines[0], texts, next);
      StartedAmongFirst(lines[0], texts, next, k + 1);
      if m.None? || m.value <= j {
        var then' := if m.Some? then m.value + 1 else next;
        CutContextTwice(lines[1..], texts, then', k, j);
        if !CSkipped(lines[0]) {
          var rest := CutContext(lines[1..], texts, then', k);
          assert ([lines[0]] + rest)[1..] == rest;
        }
      }
    }
  }

  lemma {:induction false} CutContextPrefix(lines: seq<Record>, texts: seq<string>, next: nat, k: int, j: int)
    requires j <= k && next <= |texts|
    ensures CutContext(lines, texts, next, j) <= CutContext(lines, texts, next, k)
  {
    hide StartedTurn;
    if lines == [] {
    } else {
      var m := StartedTurn(lines[0], texts, next);
      if m.None? || m.value <= j {
        CutContextPrefix(lines[1..], texts, if m.Some? then m.value + 1 else next, k, j);
      }
    }
  }

  /** The fork has the first turns of its source, and a fork of the fork is a fork of the source. */
  lemma ForkOfFork(s: Session, k: nat, j: nat)
    requires j <= k && Fork(s, Some(k)).Ok?
    ensures
      var fork := Fork(s, Some(k)).value;
      && Turns(fork.wire) == Turns(s.wire)[..k + 1]
      && Fork(fork, Some(j)) == Fork(s, Some(j))
  {
    hide CutContext, CutWire, Turns;
    CutWireTurns(s.wire, -1, k);
    CutWireTwice(s.wire, -1, k, j);
    CutContextTwice(s.context, Stripped(Turns(s.wire)), 0, k, j);
    assert Stripped(Turns(s.wire)[..k + 1]) == Stripped(Turns(s.wire))[..k + 1];
  }

  /** A fork further on extends one further back, in both files. */
  lemma ForksGrow(s: Session, k: nat, j: nat)
    requires j <= k && Fork(s, Some(k)).Ok?
    ensures Fork(s, Some(j)).Ok?
    ensures Fork(s, Some(j)).value.wire <= Fork(s, Some(k)).value.wire
    ensures Fork(s, Some(j)).value.context <= Fork(s, Some(k)).value.context
  {
    hide CutContext, CutWire, Turns;
    CutWirePrefix(s.wire, -1, k, j);
    CutContextPrefix(s.context, Stripped(Turns(s.wire)), 0, k, j);
  }

  lemma {:induction false} BlankWireDoesNotCount(wire: seq<Wire>, turn: int, k: int)
    ensures Turns(ReadableWire(wire)) == Turns(wire)
    ensures CutWire(ReadableWire(wire), turn, k) == CutWire(wire, turn, k)
  {
    if wire == [] {
    } else {
      BlankWireDoesNotCount(wire[1..], if wire[0].TurnBegin? then turn + 1 else turn, k);
      if !wire[0].WBlank? {
        assert ReadableWire(wire)[0] == wire[0] && ReadableWire(wire)[1..] == ReadableWire(wire[1..]);
      }
    }
  }

  lemma {:induction false} BlankRecordsDoNotCount(context: seq<Record>, texts: seq<string>, next: nat, k: int)
    requires next <= |texts|
    ensures CutContext(NonBlank(context), texts, next, k) == CutContext(context, texts, next, k)
  {
    hide StartedTurn;
    if context == [] {
    } else {
      var m := StartedTurn(context[0], texts, next);
      BlankRecordsDoNotCount(context[1..], texts, if m.Some? then m.value + 1 else next, k);
      if !context[0].CBlank? {
        assert NonBlank(context)[0] == context[0] && NonBlank(context)[1..] == NonBlank(context[1..]);
      }
    }
  }

  /** A fork of the copy of a session is a fork of the session, errors included. */
  lemma ForkOfCopy(s: Session, k: int)
    ensures Fork(Fork(s, None).value, Some(k)) == Fork(s, Some(k))
  {
    hide CutContext, CutWire, Turns, NonBlank, ReadableWire;
    BlankWireDoesNotCount(s.wire, -1, k);
    BlankRecordsDoNotCount(s.context, Stripped(Turns(s.wire)), 0, k);
  }

  // ----- where the context is cut -----

  function Readable(lines: seq<Record>): seq<Record> {
    if lines == [] then []
    else if CSkipped(lines[0]) then Readable(lines[1..]) else [lines[0]] + Readable(lines[1..])
  }

  /** Whether the record has the text of a turn after k. */
  predicate IsLater(r: Record, texts: seq<string>, k: int) {
    IsReal(r) && exists j :: 0 <= j < |texts| && k < j && TextOf(r) == Some(texts[j])
  }

  /** Whether `kept` is what stands before the first record of a turn after k. */
  ghost predicate StopsAtLater(kept: seq<Record>, lines: seq<Record>, texts: seq<string>, k: int) {
    exists n: nat :: n <= |lines| && StopsAt(kept, lines, texts, k, n)
  }

  predicate StopsAt(kept: seq<Record>, lines: seq<Record>, texts: seq<string>, k: int, n: nat)
    requires n <= |lines|
  {
    && kept == Readable(lines[..n])
    && (forall i :: 0 <= i < n ==> !IsLater(lines[i], texts, k))
    && (n < |lines| ==> IsLater(lines[n], texts, k))
  }

  /** No turn after k repeats the text of a turn up to k. */
  predicate Separated(texts: seq<string>, k: int) {
    forall i, j :: 0 <= i <= k < j < |texts| ==> texts[i] != texts[j]
  }

  lemma {:induction false} CutStops(lines: seq<Record>, texts: seq<string>, next: nat, k: int) returns (n: nat)
    requires Separated(texts, k) && next <= |texts| && (next == 0 || next <= k + 1)
    ensures n <= |lines| && StopsAt(CutContext(lines, texts, next, k), lines, texts, k, n)
  {
    hide StartedTurn, IsLater;
    n := 0;
    if lines == [] {
    } else {
      var m := StartedTurn(lines[0], texts, next);
      LaterStops(lines[0], texts, next, k);
      if m.None? || m.value <= k {
        var rest := CutStops(lines[1..], texts, if m.Some? then m.value + 1 else next, k);
        n := rest + 1;
        assert lines[..n][0] == lines[0] && lines[..n][1..] == lines[1..][..rest];
      } else {
        assert lines[..0] == [];
      }
    }
  }

  lemma LaterStops(r: Record, texts: seq<string>, next: nat, k: int)
    requires Separated(texts, k) && next <= |texts| && (next == 0 || next <= k + 1)
    ensures IsLater(r, texts, k) <==> StartedTurn(r, texts, next).Some? && StartedTurn(r, texts, next).value > k
  {
    hide IsReal, TextOf;
  }

  /**
   Cutting by text stops before the first record of a later turn, in every file, exactly when no
   later turn repeats the text of an earlier one.
   */
  lemma AlignmentExactIff(texts: seq<string>, k: int)
    ensures
      Separated(Stripped(texts), k) <==>
      forall lines :: StopsAtLater(TruncateContext(lines, Some(texts), k), lines, Stripped(texts), k)
  {
    hide Separated, CutContext, StopsAt, Stripped;
    var keys := Stripped(texts);
    if Separated(keys, k) {
      forall lines: seq<Record>
        ensures StopsAtLater(TruncateContext(lines, Some(texts), k), lines, keys, k)
      {
        var n := CutStops(lines, keys, 0, k);
      }
    }
    if !Separated(keys, k) {
      var lines := Misled(texts, k);
      assert !StopsAtLater(TruncateContext(lines, Some(texts), k), lines, keys, k);
    }
  }

  /** A record that says this in two text parts, the second one empty. */
  function Stated(text: string): Record { UserRecord(Items([PartItem(Some(text)), PartItem(Some(""))]), "") }

  lemma StatedIsReal(text: string)
    ensures IsReal(Stated(text)) && TextOf(Stated(text)) == Some(Strip(text))
  {
    hide Strip, IsMarker;
    var items := [PartItem(Some(text)), PartItem(Some(""))];
    assert items[1..] == [PartItem(Some(""))] && items[1..][1..] == [];
    assert JoinTexts(items[1..], false) == " ";
    assert JoinTexts(items, true) == text + " ";
    StripTrailing(text);
  }

  /** A record with a repeated text is taken for one of the earlier turn. */
  lemma Misled(texts: seq<string>, k: int) returns (lines: seq<Record>)
    requires !Separated(Stripped(texts), k)
    ensures !StopsAtLater(CutContext(lines, Stripped(texts), 0, k), lines, Stripped(texts), k)
  {
    hide IsReal, TextOf, Strip, Readable;
    var keys := Stripped(texts);
    var i, j :| 0 <= i <= k < j < |keys| && keys[i] == keys[j];
    var r := Stated(texts[j]);
    lines := [r];
    StatedIsReal(texts[j]);
    assert IsLater(r, keys, k);
    assert lines[..0] == [];
    var m := MatchTurn(TextOf(r), keys, 0);
    assert m.value <= i;
    assert CutContext(lines, keys, 0, k)[0] == r;
    ReadableNothing();
  }

  lemma ReadableNothing()
    ensures Readable([]) == []
  {
  }

  // ----- aligning and counting -----

  /** The texts of the records that counting takes for turns. */
  function RealTexts(lines: seq<Record>): seq<Option<string>> {
    if lines == [] then []
    else if IsReal(lines[0]) then [TextOf(lines[0])] + RealTexts(lines[1..]) else RealTexts(lines[1..])
  }

  /** Whether the real records are, one for one, the turns from `turn` on; the last turns may be missing. */
  predicate OneToOne(lines: seq<Record>, texts: seq<string>, turn: nat)
    requires turn <= |texts|
  {
    var users := RealTexts(lines);
    |users| <= |texts| - turn && forall i :: 0 <= i < |users| ==> users[i] == Some(texts[turn + i])
  }

  lemma OneToOneStep(lines: seq<Record>, texts: seq<string>, turn: nat)
    requires turn <= |texts| && lines != [] && OneToOne(lines, texts, turn)
    ensures !IsReal(lines[0]) ==> StartedTurn(lines[0], texts, turn) == None && OneToOne(lines[1..], texts, turn)
    ensures IsReal(lines[0]) ==>
      turn < |texts| && StartedTurn(lines[0], texts, turn) == Some(turn) && OneToOne(lines[1..], texts, turn + 1)
  {
    hide IsReal, TextOf;
    if IsReal(lines[0]) {
      var users, rest := RealTexts(lines), RealTexts(lines[1..]);
      assert users == [TextOf(lines[0])] + rest;
      assert users[0] == Some(texts[turn + 0]);
      forall i | 0 <= i < |rest|
        ensures rest[i] == Some(texts[turn + 1 + i])
      {
        assert users[i + 1] == Some(texts[turn + (i + 1)]);
      }
    }
  }

  /** Then aligning by text and counting keep the same, even where texts repeat. */
  lemma {:induction false} AligningIsCounting(lines: seq<Record>, texts: seq<string>, turn: nat, k: int)
    requires turn <= |texts| && OneToOne(lines, texts, turn)
    ensures CutContext(lines, texts, turn, k) == CutByCount(lines, turn - 1, k)
  {
    hide IsReal, StartedTurn, OneToOne;
    if lines == [] {
    } else {
      OneToOneStep(lines, texts, turn);
      if IsReal(lines[0]) {
        RealIsUser(lines[0]);
        AligningIsCounting(lines[1..], texts, turn + 1, k);
      } else {
        AligningIsCounting(lines[1..], texts, turn, k);
      }
    }
  }

  lemma AlignedIsCounted(lines: seq<Record>, texts: seq<string>, k: int)
    requires OneToOne(lines, Stripped(texts), 0)
    ensures TruncateContext(lines, Some(texts), k) == TruncateContext(lines, None, k)
  {
    hide OneToOne, CutContext, CutByCount, Stripped;
    AligningIsCounting(lines, Stripped(texts), 0, k);
  }

  // ----- checkpoints -----

  /** How a conversation message is stored, as far as forking reads it. */
  function StoredMessage(m: ContextModels.Message, raw: string): Record {
    if m.role.User? then UserRecord(Items(StoredParts(m.parts)), raw) else COther(raw)
  }

  function StoredParts(parts: seq<Blobs.Part>): (items: seq<Item>)
    ensures |items| == |parts|
    ensures forall i :: 0 <= i < |parts| ==> items[i] == PartItem(parts[i].text)
  {
    seq(|parts|, i requires 0 <= i < |parts| => PartItem(parts[i].text))
  }

  /** The message a checkpoint adds is never taken for a turn, whatever its number. */
  lemma CheckpointIsNoTurn(id: nat, raw: string)
    ensures !IsReal(StoredMessage(ContextModels.CheckpointMessage(id), raw))
  {
    hide ContextModels.Decimal, StoredParts, Strip, StripLeft, StripRight;
    var d := ContextModels.Decimal(id);
    var text := MARKER_OPEN + d + MARKER_CLOSE;
    assert IsMarker(text) by {
      assert text[..|MARKER_OPEN|] == MARKER_OPEN;
      assert text[|text| - |MARKER_CLOSE|..] == MARKER_CLOSE;
      assert text[|MARKER_OPEN|..|text| - |MARKER_CLOSE|] == d;
    }
    assert Strip(text) == text by {
      assert text[0] == '<' && text[|text| - 1] == '>';
      StripKeeps(text);
    }
  }
}
