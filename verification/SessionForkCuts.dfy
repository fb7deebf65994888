/** Where a fork cuts the two files, in terms of the lines and the texts that stand in them. */
module SessionForkCuts {
  import opened Basics
  import opened SessionFork
  import opened Text

  // ----- marker records -----

  /** The text of a checkpoint marker: its number in decimal digits between the two tags. */
  ghost predicate MarkerText(text: string) {
    exists digits :: MarkerFor(text, digits)
  }

  predicate MarkerFor(text: string, digits: string) {
    && text == "<system>CHECKPOINT " + digits + "</system>"
    && digits != "" && forall i :: 0 <= i < |digits| ==> '0' <= digits[i] <= '9'
  }

  lemma MarkerIff(s: string)
    ensures IsMarker(s) <==> MarkerText(s)
  {
    hide IsMarker, MarkerText;
    if IsMarker(s) { MarkerHasText(s); }
    if MarkerText(s) { TextIsMarker(s); }
  }

  lemma MarkerHasText(s: string)
    requires IsMarker(s)
    ensures MarkerText(s)
  {
    var a, z := |MARKER_OPEN|, |s| - |MARKER_CLOSE|;
    var digits := s[a..z];
    assert s == s[..a] + digits + s[z..];
    assert s[..a] == "<system>CHECKPOINT " && s[z..] == "</system>";
    assert MarkerFor(s, digits);
  }

  lemma TextIsMarker(s: string)
    requires MarkerText(s)
    ensures IsMarker(s)
  {
    var digits :| MarkerFor(s, digits);
    var a, z := |MARKER_OPEN|, |s| - |MARKER_CLOSE|;
    assert s[..a] == MARKER_OPEN && s[z..] == MARKER_CLOSE && s[a..z] == digits;
  }

  /** The one text of a record that could be a marker: a string, or a list of a single part with a text. */
  predicate Says(content: Content, s: string) {
    content == Plain(s) || content == Items([PartItem(Some(s))])
  }

  /** A user record is a marker exactly if its one text is, but for outer white space, that of a marker; any other one is real. */
  lemma RealIff(r: Record)
    requires r.UserRecord?
    ensures !IsReal(r) <==> exists s :: Says(r.content, s) && MarkerText(Strip(s))
  {
    hide IsMarker, MarkerText, Strip;
    match r.content
    case Plain(s) => MarkerIff(Strip(s)); assert Says(r.content, s);
    case Items(items) =>
      if |items| == 1 && items[0].PartItem? && items[0].text.Some? {
        MarkerIff(Strip(items[0].text.value));
        assert items == [items[0]] && Says(r.content, items[0].text.value);
      }
    case NoContent =>
  }

  // ----- the text of a record -----

  function ItemText(item: Item): Option<string> {
    match item
    case PartItem(t) => t
    case StringItem(s) => Some(s)
    case OtherItem => None
  }

  predicate NoTexts(items: seq<Item>) { forall i :: 0 <= i < |items| ==> ItemText(items[i]).None? }

  lemma {:induction false} JoinNothing(items: seq<Item>, first: bool)
    requires NoTexts(items)
    ensures JoinTexts(items, first) == ""
  {
    if items != [] {
      assert ItemText(items[0]).None?;
      JoinNothing(items[1..], first);
    }
  }

  lemma {:induction false} JoinLater(items: seq<Item>)
    requires !NoTexts(items)
    ensures JoinTexts(items, false) == " " + JoinTexts(items, true)
  {
    if ItemText(items[0]).None? { JoinLater(items[1..]); }
  }

  /** What an item with a text puts in front of the rest. */
  function Head(item: Item, first: bool): string {
    if ItemText(item).None? then "" else (if first then "" else " ") + ItemText(item).value
  }

  lemma JoinFirst(item: Item, rest: seq<Item>, first: bool)
    ensures JoinTexts([item] + rest, first) == Head(item, first) + JoinTexts(rest, first && ItemText(item).None?)
  {
    assert ([item] + rest)[1..] == rest;
    assert "" + JoinTexts(rest, first) == JoinTexts(rest, first);
  }

  lemma Associates(a: string, b: string, c: string, d: string)
    ensures a + (b + c + d) == (a + b) + c + d && a + "" == a
  {
  }

  lemma NoTextsCons(item: Item, rest: seq<Item>)
    ensures NoTexts([item] + rest) <==> ItemText(item).None? && NoTexts(rest)
  {
    var all := [item] + rest;
    assert all[0] == item && forall i :: 0 < i < |all| ==> all[i] == rest[i - 1];
    if NoTexts(all) {
      assert forall i :: 0 <= i < |rest| ==> rest[i] == all[i + 1];
    }
  }

  /** The texts stand in order, with one blank between two of them and none elsewhere. */
  lemma {:induction false} TextsAreJoined(a: seq<Item>, b: seq<Item>, first: bool)
    ensures JoinTexts(a + b, first) ==
      if NoTexts(b) then JoinTexts(a, first)
      else if NoTexts(a) then JoinTexts(b, first)
      else JoinTexts(a, first) + " " + JoinTexts(b, true)
  {
    hide JoinTexts, NoTexts, ItemText, Head;
    if a == [] {
      JoinEmpty(b, first);
    } else {
      var item, rest := a[0], a[1..];
      assert a == [item] + rest && a + b == [item] + (rest + b);
      TextsAreJoined(rest, b, first && ItemText(item).None?);
      JoinMore(item, rest, b, first);
    }
  }

  lemma JoinEmpty(b: seq<Item>, first: bool)
    ensures NoTexts([]) && [] + b == b && JoinTexts([], first) == ""
    ensures NoTexts(b) ==> JoinTexts(b, first) == ""
  {
    hide ItemText;
    if NoTexts(b) { JoinNothing(b, first); }
  }

  lemma JoinMore(item: Item, rest: seq<Item>, b: seq<Item>, first: bool)
    requires JoinTexts(rest + b, first && ItemText(item).None?) ==
      if NoTexts(b) then JoinTexts(rest, first && ItemText(item).None?)
      else if NoTexts(rest) then JoinTexts(b, first && ItemText(item).None?)
      else JoinTexts(rest, first && ItemText(item).None?) + " " + JoinTexts(b, true)
    ensures JoinTexts([item] + (rest + b), first) ==
      if NoTexts(b) then JoinTexts([item] + rest, first)
      else if NoTexts([item] + rest) then JoinTexts(b, first)
      else JoinTexts([item] + rest, first) + " " + JoinTexts(b, true)
  {
    hide JoinTexts, NoTexts, ItemText;
    var next := first && ItemText(item).None?;
    JoinFirst(item, rest + b, first);
    JoinFirst(item, rest, first);
    NoTextsCons(item, rest);
    var head := Head(item, first);
    if !NoTexts(b) && NoTexts(rest) {
      JoinNothing(rest, next);
      assert head + "" == head;
      if ItemText(item).Some? {
        JoinLater(b);
        assert head + (" " + JoinTexts(b, true)) == head + " " + JoinTexts(b, true);
      } else {
        assert head == "" && head + JoinTexts(b, first) == JoinTexts(b, first);
      }
    } else if !NoTexts(b) {
      Associates(head, JoinTexts(rest, next), " ", JoinTexts(b, true));
    }
  }

  lemma OneText(item: Item)
    ensures JoinTexts([item], true) == if ItemText(item).Some? then ItemText(item).value else ""
  {
    assert [item][1..] == [];
  }

  // ----- the context -----

  /** A record whose text, without outer white space, is `key`, and that is no marker. */
  ghost predicate Speaks(r: Record, key: string) {
    && r.UserRecord? && !r.content.NoContent? && Strip(ExtractUserText(r.content)) == key
    && !(exists s :: Says(r.content, s) && MarkerText(Strip(s)))
  }

  lemma SpeaksIff(r: Record, key: string)
    ensures Speaks(r, key) <==> IsReal(r) && TextOf(r) == Some(key)
  {
    hide Strip, MarkerText;
    if r.UserRecord? { RealIff(r); }
  }

  /** Nothing is kept from the first record on that says what a turn after k says and no turn up to k. */
  lemma {:induction false} CutBefore(lines: seq<Record>, texts: seq<string>, next: nat, k: int, i: nat, j: nat)
    requires next <= |texts| && (next == 0 || next <= k + 1)
    requires i < |lines| && k < j < |texts| && Speaks(lines[i], texts[j])
    requires forall h :: 0 <= h <= k && h < |texts| ==> texts[h] != texts[j]
    ensures CutContext(lines, texts, next, k) == CutContext(lines[..i], texts, next, k)
  {
    hide StartedTurn, Speaks;
    if i == 0 {
      SpeaksStarts(lines[0], texts, next, k, j);
    } else {
      var m := StartedTurn(lines[0], texts, next);
      var cut := lines[..i];
      assert cut[0] == lines[0] && cut[1..] == lines[1..][..i - 1];
      if m.None? || m.value <= k {
        CutBefore(lines[1..], texts, if m.Some? then m.value + 1 else next, k, i - 1, j);
      }
    }
  }

  lemma SpeaksStarts(r: Record, texts: seq<string>, next: nat, k: int, j: nat)
    requires next <= |texts| && (next == 0 || next <= k + 1)
    requires k < j < |texts| && Speaks(r, texts[j])
    requires forall h :: 0 <= h <= k && h < |texts| ==> texts[h] != texts[j]
    ensures !CSkipped(r) && StartedTurn(r, texts, next).Some? && StartedTurn(r, texts, next).value > k
  {
    hide Speaks, IsReal, TextOf;
    SpeaksIff(r, texts[j]);
    if IsReal(r) { RealIsUser(r); }
  }

  lemma {:induction false} KeptBefore(lines: seq<Record>, texts: seq<string>, next: nat, k: int, n: nat)
    requires next <= |texts| && n <= |lines|
    requires forall i, j :: 0 <= i < n && 0 <= j < |texts| && k < j ==> !Speaks(lines[i], texts[j])
    ensures Readable(lines[..n]) <= CutContext(lines, texts, next, k)
  {
    hide StartedTurn, Speaks;
    if n > 0 {
      var m := StartedTurn(lines[0], texts, next);
      StartsSpeaks(lines[0], texts, next);
      assert lines[0] == lines[..n][0];
      assert m.Some? ==> m.value <= k;
      var cut := lines[..n];
      assert cut[0] == lines[0] && cut[1..] == lines[1..][..n - 1];
      KeptBefore(lines[1..], texts, if m.Some? then m.value + 1 else next, k, n - 1);
    }
  }

  lemma StartsSpeaks(r: Record, texts: seq<string>, next: nat)
    requires next <= |texts|
    ensures StartedTurn(r, texts, next).Some? ==> Speaks(r, texts[StartedTurn(r, texts, next).value])
  {
    hide Speaks;
    var m := StartedTurn(r, texts, next);
    if m.Some? { SpeaksIff(r, texts[m.value]); }
  }

  /**
   A user record that is no marker and says what a turn after k says, and no turn up to k, is not kept, and nothing
   behind it is. What is readable before the first record that says what a turn after k says is kept.
   */
  lemma LaterTurnsAreCut(lines: seq<Record>, texts: seq<string>, k: int, i: nat)
    requires i < |lines|
    ensures
      (exists j: nat :: k < j < |texts| && Speaks(lines[i], Strip(texts[j])) &&
         forall h :: 0 <= h <= k && h < |texts| ==> Strip(texts[h]) != Strip(texts[j])) ==>
      TruncateContext(lines, Some(texts), k) == TruncateContext(lines[..i], Some(texts), k)
    ensures
      (forall h, j :: 0 <= h < i && 0 <= j < |texts| && k < j ==> !Speaks(lines[h], Strip(texts[j]))) ==>
      Readable(lines[..i]) <= TruncateContext(lines, Some(texts), k)
  {
    hide Speaks, CutContext, Readable, Strip;
    var keys := Stripped(texts);
    if j: nat :| k < j < |texts| && Speaks(lines[i], Strip(texts[j])) &&
                 forall h :: 0 <= h <= k && h < |texts| ==> Strip(texts[h]) != Strip(texts[j]) {
      assert forall h :: 0 <= h < |texts| ==> keys[h] == Strip(texts[h]);
      CutBefore(lines, keys, 0, k, i, j);
    }
    if forall h, j :: 0 <= h < i && 0 <= j < |texts| && k < j ==> !Speaks(lines[h], Strip(texts[j])) {
      assert forall h :: 0 <= h < |texts| ==> keys[h] == Strip(texts[h]);
      KeptBefore(lines, keys, 0, k, i);
    }
  }

  /** Without texts: what is kept ends before the real user record that would be number k + 1, counted from zero. */
  lemma {:induction false} CountStops(lines: seq<Record>, turn: int, k: int) returns (n: nat)
    requires turn <= k || turn == -1
    ensures n <= |lines| && CutByCount(lines, turn, k) == Readable(lines[..n])
    ensures forall i :: 0 <= i < n && IsReal(lines[i]) ==> turn + |RealTexts(lines[..i + 1])| <= k
    ensures n < |lines| ==> IsReal(lines[n]) && turn + |RealTexts(lines[..n])| >= k
  {
    hide IsReal, TextOf;
    n := 0;
    assert lines[..0] == [];
    if lines != [] {
      var now := if IsReal(lines[0]) then turn + 1 else turn;
      if IsReal(lines[0]) { RealIsUser(lines[0]); }
      if IsReal(lines[0]) && now > k {
      } else {
        var rest := CountStops(lines[1..], now, k);
        n := rest + 1;
        assert lines[..n][0] == lines[0] && lines[..n][1..] == lines[1..][..rest];
        forall i | 0 <= i < n && IsReal(lines[i])
          ensures turn + |RealTexts(lines[..i + 1])| <= k
        {
          assert lines[..i + 1][0] == lines[0] && lines[..i + 1][1..] == lines[1..][..i];
          assert i > 0 ==> lines[i] == lines[1..][i - 1];
        }
      }
    }
  }

  // ----- the wire -----

  /** The lines that parse. */
  function Parsed(lines: seq<Wire>): seq<Wire> {
    if lines == [] then []
    else (if WSkipped(lines[0]) then [] else [lines[0]]) + Parsed(lines[1..])
  }

  /** Whether `more` turns after the start end with the line before position n, or the next one begins there. */
  predicate IsOver(lines: seq<Wire>, more: int, n: nat)
    requires n <= |lines|
  {
    |Turns(lines[..n])| == more && ((n < |lines| && lines[n].TurnBegin?) || (n > 0 && lines[n - 1].TurnEnd?))
  }

  lemma OverLater(lines: seq<Wire>, more: int, n: nat)
    requires 0 < n <= |lines|
    ensures IsOver(lines, more, n) <==>
      || IsOver(lines[1..], if lines[0].TurnBegin? then more - 1 else more, n - 1)
      || (n == 1 && lines[0].TurnEnd? && more == 0)
  {
    assert lines[..n][0] == lines[0] && lines[..n][1..] == lines[1..][..n - 1];
    assert n > 1 ==> lines[n - 1] == lines[1..][n - 2];
    assert lines[1..][..0] == [];
  }

  lemma {:induction false} WireStops(lines: seq<Wire>, turn: int, k: int, more: nat) returns (n: nat)
    requires -1 <= turn && more == k - turn
    ensures n <= |lines| && CutWire(lines, turn, k) == Parsed(lines[..n])
    ensures n == |lines| || IsOver(lines, more, n)
    ensures forall m :: 0 <= m < n ==> !IsOver(lines, more, m)
  {
    hide IsOver;
    n := 0;
    assert lines[..0] == [];
    if lines != [] {
      var now := if lines[0].TurnBegin? then turn + 1 else turn;
      OverFirst(lines, more);
      OverLater(lines, more, 1);
      if now <= k {
        n := 1;
        if lines[0].TurnEnd? && now == k {
          assert lines[..1][0] == lines[0] && lines[..1][1..] == [];
        } else {
          var rest := WireStops(lines[1..], now, k, k - now);
          n := rest + 1;
          assert lines[..n][0] == lines[0] && lines[..n][1..] == lines[1..][..rest];
          forall m | 0 < m <= n ensures IsOver(lines, more, m) ==> IsOver(lines[1..], k - now, m - 1) {
            OverLater(lines, more, m);
          }
          OverLater(lines, more, n);
        }
      }
    }
  }

  lemma OverFirst(lines: seq<Wire>, more: int)
    requires lines != []
    ensures IsOver(lines, more, 0) <==> more == 0 && lines[0].TurnBegin?
  {
    assert lines[..0] == [];
  }

  /** A cut keeps every line that parses, in order, up to the first place where turn k is over, or all of them. */
  lemma WireIsCutWhenOver(lines: seq<Wire>, k: nat, turns: nat) returns (n: nat)
    requires |Turns(lines)| > k && turns == k + 1
    ensures n <= |lines| && TruncateWire(lines, k) == Ok(Parsed(lines[..n]))
    ensures n == |lines| || IsOver(lines, turns, n)
    ensures forall m :: 0 <= m < n ==> !IsOver(lines, turns, m)
  {
    hide IsOver, Turns, CutWire;
    n := WireStops(lines, -1, k, turns);
  }

  /** The turns are the texts with which they begin, in order. */
  lemma {:induction false} TurnsAreBeginnings(a: seq<Wire>, b: seq<Wire>)
    ensures Turns(a + b) == Turns(a) + Turns(b)
  {
    if a == [] {
      assert a + b == b;
    } else {
      assert (a + b)[0] == a[0] && (a + b)[1..] == a[1..] + b;
      TurnsAreBeginnings(a[1..], b);
    }
  }

  // ----- copies -----

  /** A copy has every line but the blank ones, in order, whether it parses or not. */
  lemma {:induction false} CopiesKeepLines(a: seq<Wire>, b: seq<Wire>)
    ensures ReadableWire(a + b) == ReadableWire(a) + ReadableWire(b)
  {
    if a == [] {
      assert a + b == b && ReadableWire(a) + ReadableWire(b) == ReadableWire(b);
    } else {
      assert (a + b)[0] == a[0] && (a + b)[1..] == a[1..] + b;
      CopiesKeepLines(a[1..], b);
    }
  }

  /** A cut has those that parse. */
  lemma {:induction false} CutsKeepLines(a: seq<Wire>, b: seq<Wire>)
    ensures Parsed(a + b) == Parsed(a) + Parsed(b)
  {
    if a == [] {
      assert a + b == b && Parsed(a) + Parsed(b) == Parsed(b);
    } else {
      assert (a + b)[0] == a[0] && (a + b)[1..] == a[1..] + b;
      CutsKeepLines(a[1..], b);
    }
  }

  lemma {:induction false} CopiesKeepRecords(a: seq<Record>, b: seq<Record>)
    ensures NonBlank(a + b) == NonBlank(a) + NonBlank(b)
  {
    if a == [] {
      assert a + b == b && NonBlank(a) + NonBlank(b) == NonBlank(b);
    } else {
      assert (a + b)[0] == a[0] && (a + b)[1..] == a[1..] + b;
      CopiesKeepRecords(a[1..], b);
    }
  }

  lemma {:induction false} CutsKeepRecords(a: seq<Record>, b: seq<Record>)
    ensures Readable(a + b) == Readable(a) + Readable(b)
  {
    if a == [] {
      assert a + b == b && Readable(a) + Readable(b) == Readable(b);
    } else {
      assert (a + b)[0] == a[0] && (a + b)[1..] == a[1..] + b;
      CutsKeepRecords(a[1..], b);
    }
  }

  lemma OneLine(line: Wire, record: Record)
    ensures Turns([line]) == if line.TurnBegin? then [line.userText] else []
    ensures ReadableWire([line]) == if line.WBlank? then [] else [line]
    ensures Parsed([line]) == if line.WBlank? || line.WMalformed? then [] else [line]
    ensures NonBlank([record]) == if record.CBlank? then [] else [record]
    ensures Readable([record]) == if record.CBlank? || record.CMalformed? then [] else [record]
  {
    assert [line][1..] == [] && [record][1..] == [];
  }

  // ----- forks -----

  /**
   A fork at turn k exists exactly if the wire has more than k turns. Its wire ends where turn k is over; its context
   stops before the first record that says what a later turn of the wire says and none up to k, and keeps all that is
   readable before the first record that says what a later turn says.
   */
  lemma ForkCutsBoth(s: Session, k: nat, turns: nat, i: nat) returns (n: nat)
    requires turns == k + 1 && i < |s.context|
    ensures Fork(s, Some(k)).Ok? <==> |Turns(s.wire)| > k
    ensures Fork(s, Some(k)).Ok? ==>
      var fork, texts := Fork(s, Some(k)).value, Turns(s.wire);
      && n <= |s.wire| && fork.wire == Parsed(s.wire[..n])
      && (n == |s.wire| || IsOver(s.wire, turns, n)) && (forall m :: 0 <= m < n ==> !IsOver(s.wire, turns, m))
      && ((exists j: nat :: k < j < |texts| && Speaks(s.context[i], Strip(texts[j])) &&
             forall h :: 0 <= h <= k && h < |texts| ==> Strip(texts[h]) != Strip(texts[j])) ==>
          fork.context == TruncateContext(s.context[..i], Some(texts), k))
      && ((forall h, j :: 0 <= h < i && 0 <= j < |texts| && k < j ==> !Speaks(s.context[h], Strip(texts[j]))) ==>
          Readable(s.context[..i]) <= fork.context)
  {
    hide Speaks, CutWire, Turns, Readable, Parsed, Strip, TruncateContext, IsOver;
    n := 0;
    if |Turns(s.wire)| > k {
      n := WireIsCutWhenOver(s.wire, k, turns);
      LaterTurnsAreCut(s.context, Turns(s.wire), k, i);
    }
  }
}
