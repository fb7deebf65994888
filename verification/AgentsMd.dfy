/**
 Merging the instruction files found from the project root down to the working directory: the
 deepest file gets its share of the bytes first, and the merged text never exceeds the limit.
 */
module AgentsMd {
  import opened Basics
  import opened Text

  /** A file with something in it besides white space, and its text without white space around it. */
  datatype Entry = Entry(path: string, content: string)

  const MAX_BYTES := 32768

  /** The bytes of a character in UTF-8. */
  function Width(c: char): nat {
    if c < 0x80 as char then 1 else if c < 0x800 as char then 2 else if (c as int) < 0x10000 then 3 else 4
  }

  function Bytes(s: string): nat {
    if s == "" then 0 else Width(s[0]) + Bytes(s[1..])
  }

  /** What is left of the first n bytes when a character cut in two is dropped. */
  function FirstBytes(s: string, n: int): string {
    if s == "" || Width(s[0]) > n then "" else [s[0]] + FirstBytes(s[1..], n - Width(s[0]))
  }

  function Annotation(path: string): string { "<!-- From: " + path + " -->\n" }

  const SEPARATOR := "\n\n"

  /** The entries from the root to the leaf, with what is left of each, and the bytes that remain. */
  datatype Allotment = Allotment(contents: seq<string>, remaining: int)

  /** The share of one entry when `remaining` bytes are left; all but the leaf pay for a separator. */
  function Share(e: Entry, isLeaf: bool, remaining: int): (string, int) {
    var left := remaining - Bytes(Annotation(e.path)) - if isLeaf then 0 else Bytes(SEPARATOR);
    if left <= 0 then ("", 0)
    else
      var content := if Bytes(e.content) > left then Strip(FirstBytes(e.content, left)) else e.content;
      (content, left - Bytes(content))
  }

  function Allot(entries: seq<Entry>): (a: Allotment)
    ensures |a.contents| == |entries|
  {
    if entries == [] then Allotment([], MAX_BYTES)
    else
      var deeper := Allot(entries[1..]);
      var (content, remaining) := Share(entries[0], |entries| == 1, deeper.remaining);
      Allotment([content] + deeper.contents, remaining)
  }

  function PartsOf(entries: seq<Entry>, contents: seq<string>): seq<string>
    requires |contents| == |entries|
    decreases |entries|
  {
    if entries == [] then []
    else (if contents[0] == "" then [] else [Annotation(entries[0].path) + contents[0]]) + PartsOf(entries[1..], contents[1..])
  }

  function Join(parts: seq<string>): string {
    if parts == [] then "" else if |parts| == 1 then parts[0] else parts[0] + SEPARATOR + Join(parts[1..])
  }

  function Merge(entries: seq<Entry>): Option<string> {
    var parts := PartsOf(entries, Allot(entries).contents);
    if parts == [] then None else Some(Join(parts))
  }

  // ----- bytes -----

  lemma {:induction false} BytesAdd(s: string, t: string)
    ensures Bytes(s + t) == Bytes(s) + Bytes(t)
  {
    if s == "" {
      assert s + t == t;
    } else {
      assert (s + t)[1..] == s[1..] + t;
      BytesAdd(s[1..], t);
    }
  }

  lemma BytesOfPart(s: string, i: nat, j: nat)
    requires i <= j <= |s|
    ensures Bytes(s[i..j]) <= Bytes(s)
  {
    assert s == s[..i] + s[i..j] + s[j..];
    BytesAdd(s[..i] + s[i..j], s[j..]);
    BytesAdd(s[..i], s[i..j]);
  }

  /** The first bytes are the longest beginning of the text that fits into them. */
  lemma {:induction false} FirstBytesIs(s: string, n: int)
    requires 0 <= n
    ensures FirstBytes(s, n) <= s && Bytes(FirstBytes(s, n)) <= n
    ensures |FirstBytes(s, n)| < |s| ==> Bytes(s[..|FirstBytes(s, n)| + 1]) > n
  {
    if s == "" {
    } else {
      assert s[..1] == [s[0]];
      BytesOfChar(s[0]);
      if Width(s[0]) <= n {
        FirstBytesIs(s[1..], n - Width(s[0]));
        var k := |FirstBytes(s[1..], n - Width(s[0]))|;
        if k < |s[1..]| {
          assert s[..k + 2] == [s[0]] + s[1..][..k + 1];
          BytesAdd([s[0]], s[1..][..k + 1]);
        }
        BytesAdd([s[0]], FirstBytes(s[1..], n - Width(s[0])));
      }
    }
  }

  lemma BytesOfChar(c: char)
    ensures Bytes([c]) == Width(c)
  {
    assert [c][1..] == "";
  }

  lemma StripIsPart(s: string) returns (i: nat, j: nat)
    ensures i <= j <= |s| && Strip(s) == s[i..j]
  {
    var l := StripLeft(s);
    i, j := |s| - |l|, |s| - |l| + |StripRight(l)|;
  }

  /** A share never costs more than what is left, and what it costs is taken off. */
  lemma ShareFits(e: Entry, isLeaf: bool, remaining: int)
    requires 0 <= remaining
    ensures
      var (content, left) := Share(e, isLeaf, remaining);
      && 0 <= left <= remaining
      && (content != "" ==>
            Bytes(Annotation(e.path)) + Bytes(content) + (if isLeaf then 0 else Bytes(SEPARATOR)) + left == remaining)
  {
    hide Annotation, Strip, Bytes, FirstBytes;
    var left := remaining - Bytes(Annotation(e.path)) - if isLeaf then 0 else Bytes(SEPARATOR);
    if 0 < left && Bytes(e.content) > left {
      var cut := FirstBytes(e.content, left);
      FirstBytesIs(e.content, left);
      var i, j := StripIsPart(cut);
      BytesOfPart(cut, i, j);
    }
  }

  lemma JoinCons(part: string, parts: seq<string>)
    ensures Bytes(Join([part] + parts)) == Bytes(part) + if parts == [] then 0 else Bytes(SEPARATOR) + Bytes(Join(parts))
  {
    hide Bytes;
    assert ([part] + parts)[1..] == parts;
    if parts != [] {
      BytesAdd(part + SEPARATOR, Join(parts));
      BytesAdd(part, SEPARATOR);
    }
  }

  /** What is merged and what remains never exceed the limit together. */
  lemma {:induction false} AllotFits(entries: seq<Entry>)
    ensures
      var a := Allot(entries);
      0 <= a.remaining && Bytes(Join(PartsOf(entries, a.contents))) + a.remaining <= MAX_BYTES
    ensures entries == [] ==> PartsOf(entries, Allot(entries).contents) == []
  {
    hide Bytes, Join, Share, Annotation;
    if entries == [] {
      JoinNothing();
    } else {
      AllotFits(entries[1..]);
      var deeper := Allot(entries[1..]);
      ShareFits(entries[0], |entries| == 1, deeper.remaining);
      var content := Share(entries[0], |entries| == 1, deeper.remaining).0;
      var parts := PartsOf(entries[1..], deeper.contents);
      PartsCons(entries, content, deeper.contents);
      BytesAdd(Annotation(entries[0].path), content);
      JoinCons(Annotation(entries[0].path) + content, parts);
    }
  }

  lemma PartsCons(entries: seq<Entry>, content: string, contents: seq<string>)
    requires entries != [] && |contents| == |entries| - 1
    ensures PartsOf(entries, [content] + contents) ==
      if content == "" then PartsOf(entries[1..], contents)
      else [Annotation(entries[0].path) + content] + PartsOf(entries[1..], contents)
  {
    hide Annotation;
    assert ([content] + contents)[1..] == contents;
    assert [] + PartsOf(entries[1..], contents) == PartsOf(entries[1..], contents);
  }

  lemma JoinNothing()
    ensures Bytes(Join([])) == 0
  {
  }

  /** The merged text never exceeds the limit, annotations and separators included. */
  lemma MergeFits(entries: seq<Entry>)
    ensures Merge(entries).Some? ==> Bytes(Merge(entries).value) <= MAX_BYTES
  {
    hide Bytes, Join, Allot, PartsOf;
    AllotFits(entries);
  }

  /** What an entry gets depends on itself and on the deeper ones only. */
  lemma {:induction false} DeeperDecide(a: seq<Entry>, b: seq<Entry>, deeper: seq<Entry>)
    ensures Allot(a + deeper).contents[|a|..] == Allot(deeper).contents
    ensures Allot(a + deeper).contents[|a|..] == Allot(b + deeper).contents[|b|..]
    decreases |a| + |b|
  {
    hide Share;
    if a != [] {
      assert (a + deeper)[1..] == a[1..] + deeper;
      DeeperDecide(a[1..], b, deeper);
      assert Allot(a + deeper).contents[|a|..] == Allot(a[1..] + deeper).contents[|a| - 1..];
    } else if b != [] {
      assert (b + deeper)[1..] == b[1..] + deeper && a + deeper == deeper;
      DeeperDecide(a, b[1..], deeper);
      assert Allot(b + deeper).contents[|b|..] == Allot(b[1..] + deeper).contents[|b| - 1..];
    } else {
      assert a + deeper == deeper && b + deeper == deeper;
    }
  }

  // ----- what is kept -----

  /** The bytes that entries take unabridged. */
  function Cost(entries: seq<Entry>): nat {
    if entries == [] then 0
    else Bytes(Annotation(entries[0].path)) + Bytes(entries[0].content) +
         (if |entries| == 1 then 0 else Bytes(SEPARATOR)) + Cost(entries[1..])
  }

  function Contents(entries: seq<Entry>): (r: seq<string>)
    ensures |r| == |entries|
  {
    if entries == [] then [] else [entries[0].content] + Contents(entries[1..])
  }

  predicate NoneBlank(entries: seq<Entry>) {
    forall i :: 0 <= i < |entries| ==> entries[i].content != ""
  }

  lemma ShareVerbatimIff(e: Entry, isLeaf: bool, remaining: int)
    requires e.content != "" && 0 <= remaining
    ensures
      var cost := Bytes(Annotation(e.path)) + Bytes(e.content) + if isLeaf then 0 else Bytes(SEPARATOR);
      && (Share(e, isLeaf, remaining).0 == e.content <==> cost <= remaining)
      && (cost <= remaining ==> Share(e, isLeaf, remaining).1 == remaining - cost)
  {
    hide Annotation, Strip, FirstBytes;
    var left := remaining - Bytes(Annotation(e.path)) - if isLeaf then 0 else Bytes(SEPARATOR);
    if 0 < left && Bytes(e.content) > left {
      var cut := FirstBytes(e.content, left);
      FirstBytesIs(e.content, left);
      var i, j := StripIsPart(cut);
      BytesOfPart(cut, i, j);
    }
  }

  /** The deepest entries are all kept unabridged exactly when together they fit, whatever lies above them. */
  lemma {:induction false} KeptIff(above: seq<Entry>, deeper: seq<Entry>)
    requires NoneBlank(deeper)
    ensures Allot(above + deeper).contents[|above|..] == Contents(deeper) <==> Cost(deeper) <= MAX_BYTES
  {
    DeeperDecide(above, [], deeper);
    KeptAlone(deeper);
  }

  lemma {:induction false} KeptAlone(entries: seq<Entry>)
    requires NoneBlank(entries)
    ensures Allot(entries).contents == Contents(entries) <==> Cost(entries) <= MAX_BYTES
    ensures Cost(entries) <= MAX_BYTES ==> Allot(entries).remaining == MAX_BYTES - Cost(entries)
  {
    hide Share, Bytes, Annotation;
    if entries == [] {
    } else {
      assert forall i :: 0 <= i < |entries[1..]| ==> entries[1..][i] == entries[i + 1];
      KeptAlone(entries[1..]);
      AllotFits(entries[1..]);
      var deeper := Allot(entries[1..]);
      ShareVerbatimIff(entries[0], |entries| == 1, deeper.remaining);
      assert Allot(entries).contents[0] == Share(entries[0], |entries| == 1, deeper.remaining).0;
      assert Allot(entries).contents[1..] == deeper.contents && Contents(entries)[1..] == Contents(entries[1..]);
    }
  }

  /** What is left of an entry is a beginning of its text. */
  lemma AbridgedIsBeginning(e: Entry, isLeaf: bool, remaining: int)
    requires e.content != "" && !IsSpace(e.content[0]) && 0 <= remaining
    ensures Share(e, isLeaf, remaining).0 <= e.content
  {
    hide Annotation, Bytes, FirstBytes, Strip;
    var left := remaining - Bytes(Annotation(e.path)) - if isLeaf then 0 else Bytes(SEPARATOR);
    if 0 < left && Bytes(e.content) > left {
      FirstBytesIs(e.content, left);
      StripOfBeginning(FirstBytes(e.content, left), e.content);
    }
  }

  lemma StripOfBeginning(cut: string, s: string)
    requires cut <= s && (s != "" ==> !IsSpace(s[0]))
    ensures Strip(cut) <= s
  {
    hide StripRight;
    if cut != "" { assert cut[0] == s[0]; }
    assert StripLeft(cut) == cut;
  }

  // ----- the loops -----

  /** The deepest file is the last; the budget goes to it first. */
  method LoadAgentsMd(discovered: seq<Entry>) returns (merged: Option<string>)
    ensures merged == Merge(discovered)
  {
    hide Bytes, Annotation, Share, Allot, PartsOf;
    NothingFound();
    if discovered == [] {
      return None;
    }
    var n := |discovered|;
    var remaining := MAX_BYTES;
    var budgeted := new string[n];
    assert discovered[n..] == [];
    for i := n downto 0
      invariant remaining == Allot(discovered[i..]).remaining
      invariant budgeted[i..] == Allot(discovered[i..]).contents
    {
      AllotStep(discovered, i);
      var content;
      content, remaining := GiveShare(discovered[i], i == n - 1, remaining);
      budgeted[i] := content;
      assert budgeted[i..] == [content] + budgeted[i + 1..];
    }
    assert discovered[0..] == discovered && budgeted[0..] == budgeted[..];
    var contents := budgeted[..];
    var parts: seq<string> := [];
    for i := 0 to n
      invariant parts + PartsOf(discovered[i..], contents[i..]) == PartsOf(discovered, contents)
    {
      PartsStep(discovered, contents, i);
      if contents[i] != "" {
        parts := parts + [Annotation(discovered[i].path) + contents[i]];
      }
    }
    assert discovered[n..] == [] && contents[n..] == [] && parts + [] == parts;
    if parts == [] {
      return None;
    }
    return Some(Join(parts));
  }

  method GiveShare(e: Entry, isLeaf: bool, available: int) returns (content: string, remaining: int)
    ensures (content, remaining) == Share(e, isLeaf, available)
  {
    hide Annotation, Bytes, FirstBytes, Strip;
    var separatorCost := if isLeaf then 0 else Bytes(SEPARATOR);
    remaining := available - (Bytes(Annotation(e.path)) + separatorCost);
    if remaining <= 0 {
      return "", 0;
    }
    content := e.content;
    if Bytes(e.content) > remaining {
      content := Strip(FirstBytes(e.content, remaining));
    }
    remaining := remaining - Bytes(content);
  }

  lemma NothingFound()
    ensures Merge([]) == None && Allot([]) == Allotment([], MAX_BYTES) && PartsOf([], []) == []
  {
  }

  lemma AllotStep(entries: seq<Entry>, i: nat)
    requires i < |entries|
    ensures
      var deeper := Allot(entries[i + 1..]);
      var (content, remaining) := Share(entries[i], i == |entries| - 1, deeper.remaining);
      Allot(entries[i..]) == Allotment([content] + deeper.contents, remaining)
  {
    hide Share;
    assert entries[i..][1..] == entries[i + 1..];
  }

  lemma PartsStep(entries: seq<Entry>, contents: seq<string>, i: nat)
    requires i < |entries| == |contents|
    ensures
      var rest := PartsOf(entries[i + 1..], contents[i + 1..]);
      PartsOf(entries[i..], contents[i..]) ==
        if contents[i] == "" then rest else [Annotation(entries[i].path) + contents[i]] + rest
    ensures i == 0 ==> entries[i..] == entries && contents[i..] == contents
  {
    hide Annotation;
    assert contents[i..] == [contents[i]] + contents[i + 1..] && entries[i..][1..] == entries[i + 1..];
    PartsCons(entries[i..], contents[i], contents[i + 1..]);
  }

  // ----- what stands in the merged text -----

  /** A text of code points up to U+007F, U+07FF, U+FFFF and beyond has that many bytes of UTF-8 (RFC 3629, section 3). */
  lemma {:induction false} BytesAre(s: string)
    ensures Bytes(s) == |s| + |Beyond(s, 0x7F)| + |Beyond(s, 0x7FF)| + |Beyond(s, 0xFFFF)|
  {
    hide Beyond;
    if s == "" {
      NoneBeyond();
    } else {
      var most, last := s[..|s| - 1], s[|s| - 1];
      assert s == most + [last];
      BytesAre(most);
      BytesAdd(most, [last]);
      BytesOfChar(last);
      BeyondLast(most, last, 0x7F);
      BeyondLast(most, last, 0x7FF);
      BeyondLast(most, last, 0xFFFF);
    }
  }

  /** The positions of the code points above the limit. */
  function Beyond(s: string, limit: int): set<int> { set i | 0 <= i < |s| && s[i] as int > limit }

  lemma NoneBeyond()
    ensures forall limit :: Beyond("", limit) == {}
  {
  }

  lemma BeyondLast(most: string, last: char, limit: int)
    ensures |Beyond(most + [last], limit)| == |Beyond(most, limit)| + if last as int > limit then 1 else 0
  {
    assert Beyond(most + [last], limit) == Beyond(most, limit) + (if last as int > limit then {|most|} else {});
  }

  /** An entry that does not fit is cut to the longest beginning that does, less white space at its ends; one with no byte left is dropped. */
  lemma ShareIs(e: Entry, isLeaf: bool, remaining: int) returns (k: nat)
    requires 0 <= remaining
    ensures
      var left := remaining - Bytes("<!-- From: " + e.path + " -->\n") - if isLeaf then 0 else Bytes("\n\n");
      var share := Share(e, isLeaf, remaining).0;
      && k <= |e.content|
      && (left <= 0 ==> share == "")
      && (0 < left && Bytes(e.content) <= left ==> share == e.content)
      && (0 < left < Bytes(e.content) ==>
           share == Strip(e.content[..k]) && Bytes(e.content[..k]) <= left && (k < |e.content| ==> left < Bytes(e.content[..k + 1])))
  {
    hide Bytes, FirstBytes, Strip;
    var left := remaining - Bytes(Annotation(e.path)) - if isLeaf then 0 else Bytes(SEPARATOR);
    k := 0;
    if 0 < left {
      FirstBytesIs(e.content, left);
      k := |FirstBytes(e.content, left)|;
      assert FirstBytes(e.content, left) == e.content[..k];
    }
  }

  lemma {:induction false} PartsConcat(a: seq<Entry>, b: seq<Entry>, x: seq<string>, y: seq<string>)
    requires |a| == |x| && |b| == |y|
    ensures PartsOf(a + b, x + y) == PartsOf(a, x) + PartsOf(b, y)
  {
    hide Annotation;
    if a == [] {
      assert a + b == b && x + y == y && [] + PartsOf(b, y) == PartsOf(b, y);
    } else {
      assert (a + b)[0] == a[0] && (a + b)[1..] == a[1..] + b;
      assert (x + y)[0] == x[0] && (x + y)[1..] == x[1..] + y;
      PartsConcat(a[1..], b, x[1..], y);
    }
  }

  lemma {:induction false} JoinConcat(a: seq<string>, b: seq<string>)
    ensures Join(a + b) == if a == [] then Join(b) else if b == [] then Join(a) else Join(a) + SEPARATOR + Join(b)
  {
    if a == [] {
      assert a + b == b;
    } else {
      assert (a + b)[0] == a[0] && (a + b)[1..] == a[1..] + b;
      JoinConcat(a[1..], b);
      if b == [] { assert a + b == a; }
    }
  }

  /** The text of the entries that got a share. */
  function Merged(entries: seq<Entry>, shares: seq<string>): string
    requires |entries| == |shares|
  {
    Join(PartsOf(entries, shares))
  }

  predicate AllDropped(shares: seq<string>) { forall i :: 0 <= i < |shares| ==> shares[i] == "" }

  lemma {:induction false} DroppedIff(entries: seq<Entry>, shares: seq<string>)
    requires |entries| == |shares|
    ensures PartsOf(entries, shares) == [] <==> AllDropped(shares)
  {
    if entries != [] {
      DroppedIff(entries[1..], shares[1..]);
      assert forall i :: 0 <= i < |shares[1..]| ==> shares[1..][i] == shares[i + 1];
      assert forall i :: 0 < i < |shares| ==> shares[i] == shares[1..][i - 1];
    }
  }

  /**
   The merged text is missing exactly if every share is empty. Otherwise each entry with a share stands in it with its
   path in front, behind those nearer to the root and before the deeper ones, with a blank line between two of them.
   */
  lemma MergedHolds(entries: seq<Entry>, i: nat)
    requires i < |entries|
    ensures
      var shares := Allot(entries).contents;
      var above, below := Merged(entries[..i], shares[..i]), Merged(entries[i + 1..], shares[i + 1..]);
      && (Merge(entries).None? <==> AllDropped(shares))
      && (shares[i] != "" ==>
           Merge(entries) == Some(
             (if AllDropped(shares[..i]) then "" else above + "\n\n")
             + "<!-- From: " + entries[i].path + " -->\n" + shares[i]
             + (if AllDropped(shares[i + 1..]) then "" else "\n\n" + below)))
  {
    hide Allot, AllDropped, Join, PartsOf, Annotation;
    var shares := Allot(entries).contents;
    DroppedIff(entries, shares);
    DroppedIff(entries[..i], shares[..i]);
    DroppedIff(entries[i + 1..], shares[i + 1..]);
    if shares[i] != "" {
      PartsAround(entries, shares, i);
      JoinAround(PartsOf(entries[..i], shares[..i]), Annotation(entries[i].path) + shares[i],
                 PartsOf(entries[i + 1..], shares[i + 1..]));
      PathInFront(entries[i].path, shares[i]);
    }
  }

  lemma PathInFront(path: string, share: string)
    ensures forall a: string, b: string ::
      a + (Annotation(path) + share) + b == a + "<!-- From: " + path + " -->\n" + share + b
  {
  }

  lemma PartsAround(entries: seq<Entry>, shares: seq<string>, i: nat)
    requires i < |entries| == |shares| && shares[i] != ""
    ensures PartsOf(entries, shares) ==
      PartsOf(entries[..i], shares[..i]) + [Annotation(entries[i].path) + shares[i]] + PartsOf(entries[i + 1..], shares[i + 1..])
  {
    hide PartsOf, Annotation;
    var a, b, x, y := entries[..i], entries[i + 1..], shares[..i], shares[i + 1..];
    assert entries == (a + [entries[i]]) + b && shares == (x + [shares[i]]) + y;
    PartsConcat(a + [entries[i]], b, x + [shares[i]], y);
    PartsConcat(a, [entries[i]], x, [shares[i]]);
    OnePart(entries[i], shares[i]);
  }

  lemma JoinAround(a: seq<string>, part: string, b: seq<string>)
    ensures Join(a + [part] + b) ==
      (if a == [] then "" else Join(a) + SEPARATOR) + part + (if b == [] then "" else SEPARATOR + Join(b))
  {
    hide Join;
    JoinConcat(a + [part], b);
    JoinConcat(a, [part]);
    JoinOne(part);
  }

  lemma OnePart(e: Entry, share: string)
    requires share != ""
    ensures PartsOf([e], [share]) == [Annotation(e.path) + share]
  {
    assert [e][1..] == [] && [share][1..] == [];
  }

  lemma JoinOne(part: string)
    ensures Join([part]) == part
  {
  }
}
