/** Values shared by every module: optional values and results that may be errors. */
module Basics {

  datatype Option<+T> = None | Some(value: T)

  datatype Result<+T, +E> = Ok(value: T) | Err(error: E)

  /** Whether no element of s occurs twice. */
  ghost predicate NoDuplicates<T>(s: seq<T>) {
    forall i, j :: 0 <= i < j < |s| ==> s[i] != s[j]
  }

  /** Whether s names each element of dom exactly once. */
  ghost predicate Lists<T>(s: seq<T>, dom: set<T>) {
    if s == [] then dom == {}
    else s[|s| - 1] in dom && Lists(s[..|s| - 1], dom - {s[|s| - 1]})
  }

  lemma {:induction false} ListsExact<T>(s: seq<T>, dom: set<T>)
    requires Lists(s, dom)
    ensures NoDuplicates(s)
    ensures forall x :: x in s <==> x in dom
  {
    if s == [] {
    } else {
      ListsExact(s[..|s| - 1], dom - {s[|s| - 1]});
      assert s == s[..|s| - 1] + [s[|s| - 1]];
    }
  }

  lemma ListsAppend<T>(s: seq<T>, dom: set<T>, x: T)
    requires Lists(s, dom) && x !in dom
    ensures Lists(s + [x], dom + {x})
  {
    assert (s + [x])[..|s|] == s && dom + {x} - {x} == dom;
  }

  lemma Someone<T>(s: set<T>) returns (x: T)
    requires s != {}
    ensures x in s
  {
    x :| x in s;
  }
}
