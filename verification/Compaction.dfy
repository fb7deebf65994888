/**
 Choosing what a compaction keeps: the last user and assistant messages, up to a number of
 messages and an estimated number of tokens. Everything before them is summarised.
 */
module Compaction {
  import opened Basics
  import opened ContextModels

  /** What is to be summarised, or None when nothing is, and what is kept as it is. */
  datatype Split = Split(compacted: Option<seq<Message>>, preserved: seq<Message>)

  predicate Talks(m: Message) { m.role.User? || m.role.Assistant? }

  function Count(ms: seq<Message>): nat {
    if ms == [] then 0 else (if Talks(ms[0]) then 1 else 0) + Count(ms[1..])
  }

  function Weight(ms: seq<Message>): nat {
    if ms == [] then 0 else (if Talks(ms[0]) then Estimate([ms[0]]) else 0) + Weight(ms[1..])
  }

  predicate Within(ms: seq<Message>, maxMessages: int, maxTokens: Option<int>) {
    Count(ms) <= maxMessages && (maxTokens.Some? ==> Weight(ms) <= maxTokens.value)
  }

  /** Whether ms may be kept: it starts with a user or assistant message and is within the limits. */
  predicate Fits(ms: seq<Message>, maxMessages: int, maxTokens: Option<int>) {
    ms != [] && Talks(ms[0]) && Within(ms, maxMessages, maxTokens)
  }

  /** Where the longest tail that may be kept starts. */
  function Start(ms: seq<Message>, maxMessages: int, maxTokens: Option<int>): (p: nat)
    ensures p <= |ms|
  {
    if ms == [] || Fits(ms, maxMessages, maxTokens) then 0 else 1 + Start(ms[1..], maxMessages, maxTokens)
  }

  function SplitOf(ms: seq<Message>, maxMessages: int, maxTokens: Option<int>): Split {
    var p := Start(ms, maxMessages, maxTokens);
    if maxMessages <= 0 || p == 0 || (0 < Count(ms) < maxMessages && Within(ms, maxMessages, maxTokens))
    then Split(None, ms)
    else Split(Some(ms[..p]), ms[p..])
  }

  // ----- the choice -----

  lemma {:induction false} Grows(ms: seq<Message>, j: nat, i: nat)
    requires j <= i <= |ms|
    ensures Count(ms[i..]) <= Count(ms[j..]) && Weight(ms[i..]) <= Weight(ms[j..])
    ensures j < i && Talks(ms[j]) ==> Count(ms[i..]) < Count(ms[j..])
    decreases i - j
  {
    if j < i {
      Grows(ms, j + 1, i);
      assert ms[j..][1..] == ms[j + 1..];
    }
  }

  lemma {:induction false} StartFrom(ms: seq<Message>, j: nat, i: nat, maxMessages: int, maxTokens: Option<int>)
    requires j <= i <= |ms|
    requires forall h :: j <= h < i ==> !Fits(ms[h..], maxMessages, maxTokens)
    ensures Start(ms[j..], maxMessages, maxTokens) == i - j + Start(ms[i..], maxMessages, maxTokens)
    decreases i - j
  {
    hide Fits;
    if j < i {
      assert ms[j..][1..] == ms[j + 1..] && !Fits(ms[j..], maxMessages, maxTokens);
      StartFrom(ms, j + 1, i, maxMessages, maxTokens);
    }
  }

  /** Once the limits are passed, or reached by a message that starts the tail, nothing longer fits. */
  lemma NothingLonger(ms: seq<Message>, i: nat, maxMessages: int, maxTokens: Option<int>)
    requires i <= |ms|
    requires !Within(ms[i..], maxMessages, maxTokens) || Count(ms[i..]) == maxMessages
    ensures Start(ms, maxMessages, maxTokens) == i + Start(ms[i..], maxMessages, maxTokens)
  {
    forall j | 0 <= j < i
      ensures !Fits(ms[j..], maxMessages, maxTokens)
    {
      Grows(ms, j, i);
      assert ms[j..][0] == ms[j];
    }
    StartFrom(ms, 0, i, maxMessages, maxTokens);
    assert ms[0..] == ms;
  }

  lemma TailStep(ms: seq<Message>, i: nat, maxMessages: int, maxTokens: Option<int>)
    requires i < |ms|
    ensures Count(ms[i..]) == Count(ms[i + 1..]) + if Talks(ms[i]) then 1 else 0
    ensures Weight(ms[i..]) == Weight(ms[i + 1..]) + if Talks(ms[i]) then Estimate([ms[i]]) else 0
    ensures Start(ms[i..], maxMessages, maxTokens) ==
            if Talks(ms[i]) && Within(ms[i..], maxMessages, maxTokens) then 0
            else 1 + Start(ms[i + 1..], maxMessages, maxTokens)
  {
    hide Estimate, Within;
    assert ms[i..][1..] == ms[i + 1..] && ms[i..][0] == ms[i];
  }

  lemma EmptyTail(ms: seq<Message>, maxMessages: int, maxTokens: Option<int>)
    ensures Count(ms[|ms|..]) == Weight(ms[|ms|..]) == Start(ms[|ms|..], maxMessages, maxTokens) == 0
  {
  }

  /** Chars and Estimate: the characters of all texts, four to a token, rounded down once. */
  method EstimateTextTokens(ms: seq<Message>) returns (tokens: nat)
    ensures tokens == Estimate(ms)
  {
    var total := 0;
    for i := 0 to |ms|
      invariant total == TotalChars(ms[..i])
    {
      assert ms[..i + 1][..i] == ms[..i];
      for j := 0 to |ms[i].parts|
        invariant total == TotalChars(ms[..i]) + Chars(ms[i].parts[..j])
      {
        assert ms[i].parts[..j + 1][..j] == ms[i].parts[..j];
        if ms[i].parts[j].text.Some? {
          total := total + |ms[i].parts[j].text.value|;
        }
      }
      assert ms[i].parts[..|ms[i].parts|] == ms[i].parts;
    }
    assert ms[..|ms|] == ms;
    return total / 4;
  }

  method Prepare(ms: seq<Message>, maxMessages: int, maxTokens: Option<int>) returns (r: Split)
    ensures r == SplitOf(ms, maxMessages, maxTokens)
  {
    hide Count, Weight, Start, Estimate;
    EmptyTail(ms, maxMessages, maxTokens);
    if ms == [] || maxMessages <= 0 {
      return Split(None, ms);
    }
    var start, count, tokens, limited := |ms|, 0, 0, false;
    var i := |ms|;
    while 0 < i && count < maxMessages && !limited
      invariant 0 <= i <= |ms|
      invariant start == i + Start(ms[i..], maxMessages, maxTokens)
      invariant !limited ==>
        count == Count(ms[i..]) <= maxMessages && tokens == Weight(ms[i..]) && (0 < count && maxTokens.Some? ==> tokens <= maxTokens.value)
      invariant limited ==> !Within(ms[i..], maxMessages, maxTokens) && count < maxMessages
      invariant 0 <= count
      invariant 0 < count <==> start < |ms|
    {
      TailStep(ms, i - 1, maxMessages, maxTokens);
      i := i - 1;
      if Talks(ms[i]) {
        var messageTokens := EstimateTextTokens([ms[i]]);
        if maxTokens.Some? && tokens + messageTokens > maxTokens.value {
          limited := true;
        } else {
          tokens := tokens + messageTokens;
          count := count + 1;
          start := i;
        }
      }
    }
    assert ms[0..] == ms && ms[|ms|..] == [];
    if limited || count == maxMessages { NothingLonger(ms, i, maxMessages, maxTokens); }
    Grows(ms, 0, i);
    if count == 0 {
      assert ms[..|ms|] == ms;
      return Split(Some(ms), []);
    }
    if count < maxMessages && !limited {
      return Split(None, ms);
    }
    if start == 0 {
      return Split(None, ms);
    }
    return Split(Some(ms[..start]), ms[start..]);
  }

  // ----- what the choice means -----

  lemma {:induction false} StartIsFirst(ms: seq<Message>, maxMessages: int, maxTokens: Option<int>, q: nat)
    requires q <= |ms|
    ensures
      var p := Start(ms, maxMessages, maxTokens);
      && (p < |ms| ==> Fits(ms[p..], maxMessages, maxTokens))
      && (q < |ms| && Fits(ms[q..], maxMessages, maxTokens) ==> p <= q)
  {
    hide Fits;
    if ms == [] {
    } else if Fits(ms, maxMessages, maxTokens) {
      assert ms[0..] == ms;
    } else {
      var p := Start(ms[1..], maxMessages, maxTokens);
      assert ms[0..] == ms && ms[1..][p..] == ms[1 + p..];
      StartIsFirst(ms[1..], maxMessages, maxTokens, if q == 0 then 0 else q - 1);
      if q > 0 { assert ms[1..][q - 1..] == ms[q..]; }
    }
  }

  /** Nothing is lost; when there is something to summarise, what is kept is the longest tail that fits. */
  lemma SplitIsLongest(ms: seq<Message>, maxMessages: int, maxTokens: Option<int>, q: nat)
    requires q <= |ms|
    ensures
      var r := SplitOf(ms, maxMessages, maxTokens);
      && (r.compacted.None? ==> r.preserved == ms)
      && (r.compacted.Some? ==>
           && r.compacted.value + r.preserved == ms && r.compacted.value != []
           && (r.preserved != [] ==> Fits(r.preserved, maxMessages, maxTokens))
           && (q < |ms| && Fits(ms[q..], maxMessages, maxTokens) ==> |ms[q..]| <= |r.preserved|))
  {
    hide Fits, Start;
    StartIsFirst(ms, maxMessages, maxTokens, q);
  }

  /** Whether every tool result comes after an assistant message, with only tool results in between. */
  ghost predicate Answered(ms: seq<Message>) {
    forall i :: 0 <= i < |ms| && ms[i].role.Tool? ==> exists j :: Asked(ms, j, i)
  }

  predicate Asked(ms: seq<Message>, j: int, i: int)
    requires 0 <= i < |ms|
  {
    0 <= j < i && ms[j].role.Assistant? && forall h :: j < h <= i ==> ms[h].role.Tool?
  }

  /** No tool result is kept without the call it answers, and none is summarised without it. */
  lemma NoOrphans(ms: seq<Message>, maxMessages: int, maxTokens: Option<int>)
    requires Answered(ms)
    ensures Answered(SplitOf(ms, maxMessages, maxTokens).preserved)
    ensures SplitOf(ms, maxMessages, maxTokens).compacted.Some? ==> Answered(SplitOf(ms, maxMessages, maxTokens).compacted.value)
  {
    hide Within, Start;
    var p := Start(ms, maxMessages, maxTokens);
    StartIsFirst(ms, maxMessages, maxTokens, |ms|);
    var kept, old' := ms[p..], ms[..p];
    forall i | 0 <= i < |kept| && kept[i].role.Tool?
      ensures exists j :: Asked(kept, j, i)
    {
      var j :| Asked(ms, j, p + i);
      assert Talks(ms[p]);
      assert Asked(kept, j - p, i);
    }
    forall i | 0 <= i < |old'| && old'[i].role.Tool?
      ensures exists j :: Asked(old', j, i)
    {
      var j :| Asked(ms, j, i);
      assert Asked(old', j, i);
    }
  }

  // ----- when there is something to summarise -----

  /** The positions of the user and assistant messages. */
  function Talking(ms: seq<Message>): set<nat> {
    set i: nat | i < |ms| && (ms[i].role == User || ms[i].role == Assistant)
  }

  lemma {:induction false} CountIs(ms: seq<Message>)
    ensures Count(ms) == |Talking(ms)|
  {
    if ms == [] {
    } else {
      var most, last := ms[..|ms| - 1], ms[|ms| - 1];
      CountIs(most);
      CountLast(most, last);
      TalkingLast(most, last);
      assert ms == most + [last];
    }
  }

  lemma TalkingLast(most: seq<Message>, last: Message)
    ensures |Talking(most + [last])| == |Talking(most)| + if Talks(last) then 1 else 0
  {
    assert Talking(most + [last]) == Talking(most) + (if Talks(last) then {|most|} else {}) by {
      forall i: nat ensures i in Talking(most + [last]) <==> i in Talking(most) || (Talks(last) && i == |most|) {}
    }
    assert |most| !in Talking(most);
  }

  lemma CountLast(most: seq<Message>, last: Message)
    ensures Count(most + [last]) == Count(most) + if Talks(last) then 1 else 0
  {
    CountConcat(most, [last]);
    assert [last][1..] == [];
  }

  lemma {:induction false} CountConcat(a: seq<Message>, b: seq<Message>)
    ensures Count(a + b) == Count(a) + Count(b)
  {
    if a == [] {
      assert a + b == b;
    } else {
      assert (a + b)[1..] == a[1..] + b;
      CountConcat(a[1..], b);
    }
  }

  /** Each user or assistant message weighs a quarter of its characters, rounded down; nothing else weighs. */
  lemma {:induction false} WeightIs(a: seq<Message>, m: Message, b: seq<Message>)
    ensures Weight([]) == 0
    ensures Weight(a + [m] + b) ==
      Weight(a) + (if m.role == User || m.role == Assistant then Chars(m.parts) / 4 else 0) + Weight(b)
  {
    hide Chars;
    var all := a + [m] + b;
    if a == [] {
      assert all[1..] == b && all[0] == m;
      assert TotalChars([m]) == Chars(m.parts) by { assert [m][..0] == []; }
    } else {
      assert all[1..] == a[1..] + [m] + b && all[0] == a[0];
      WeightIs(a[1..], m, b);
    }
  }

  /**
   A compaction is left alone exactly if nothing may be preserved anyway, or there is nothing, or the user
   and assistant messages are within both limits and either start the history or do not use up the number.
   */
  lemma NothingToSummariseIff(ms: seq<Message>, maxMessages: int, maxTokens: Option<int>)
    ensures SplitOf(ms, maxMessages, maxTokens).compacted.None? <==>
      || maxMessages <= 0
      || ms == []
      || ((maxTokens.Some? ==> Weight(ms) <= maxTokens.value) &&
          (0 < |Talking(ms)| < maxMessages || (|Talking(ms)| == maxMessages && 0 in Talking(ms))))
  {
    hide Weight;
    CountIs(ms);
    assert ms != [] ==> (Talks(ms[0]) <==> 0 in Talking(ms));
    assert Start(ms, maxMessages, maxTokens) == 0 <==> ms == [] || Fits(ms, maxMessages, maxTokens);
    assert ms != [] && Talks(ms[0]) ==> 0 < Count(ms);
  }
}
