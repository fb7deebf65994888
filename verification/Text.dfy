/** The few string operations the other modules share. */
module Text {

  predicate StartsWith(s: string, prefix: string) {
    |prefix| <= |s| && s[..|prefix|] == prefix
  }

  predicate EndsWith(s: string, suffix: string) {
    |suffix| <= |s| && s[|s| - |suffix|..] == suffix
  }

  /** The position of the first c in s, or the length of s. */
  function Find(s: string, c: char): (i: nat)
    ensures i <= |s| && (i < |s| ==> s[i] == c) && forall j :: 0 <= j < i ==> s[j] != c
  {
    if s == [] then 0 else if s[0] == c then 0 else 1 + Find(s[1..], c)
  }

  function LowerChar(c: char): char {
    if 'A' <= c <= 'Z' then c + 32 as char else c
  }

  function Lower(s: string): (r: string)
    ensures |r| == |s| && forall i :: 0 <= i < |s| ==> r[i] == LowerChar(s[i])
  {
    if s == [] then [] else [LowerChar(s[0])] + Lower(s[1..])
  }

  predicate IsSpace(c: char) {
    c == ' ' || '\t' <= c <= '\r' || 0x1C as char <= c <= 0x1F as char
  }

  function StripLeft(s: string): (r: string)
    ensures |r| <= |s| && r == s[|s| - |r|..] && (r != [] ==> !IsSpace(r[0]))
    ensures forall i :: 0 <= i < |s| - |r| ==> IsSpace(s[i])
  {
    if s != [] && IsSpace(s[0]) then StripLeft(s[1..]) else s
  }

  function StripRight(s: string): (r: string)
    ensures |r| <= |s| && r == s[..|r|] && (r != [] ==> !IsSpace(r[|r| - 1]))
    ensures forall i :: |r| <= i < |s| ==> IsSpace(s[i])
  {
    if s != [] && IsSpace(s[|s| - 1]) then StripRight(s[..|s| - 1]) else s
  }

  /** Python's strip, for ASCII white space. */
  function Strip(s: string): string {
    StripRight(StripLeft(s))
  }

  /** A text without white space at either end is its own strip. */
  lemma StripKeeps(s: string)
    requires s == [] || (!IsSpace(s[0]) && !IsSpace(s[|s| - 1]))
    ensures Strip(s) == s
  {
  }

  /** A blank at the end makes no difference. */
  lemma {:induction false} StripTrailing(s: string)
    ensures Strip(s + " ") == Strip(s)
  {
    LeftOfBlank(s);
    var l := StripLeft(s);
    if l == "" {
    } else {
      assert (l + " ")[..|l|] == l;
    }
  }

  lemma {:induction false} LeftOfBlank(s: string)
    ensures StripLeft(s + " ") == if StripLeft(s) == "" then "" else StripLeft(s) + " "
  {
    if s == "" {
      assert s + " " == " " && " "[1..] == "";
    } else {
      assert (s + " ")[0] == s[0] && (s + " ")[1..] == s[1..] + " ";
      if IsSpace(s[0]) {
        LeftOfBlank(s[1..]);
        assert StripLeft(s + " ") == StripLeft((s + " ")[1..]);
      } else {
        assert StripLeft(s + " ") == s + " ";
      }
    }
  }
}
