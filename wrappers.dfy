/** Java's `null`/`Optional` and thrown exceptions, made explicit as values. */
module Wrappers {

  /** A value that may be absent: a nullable reference or an `Optional`. */
  datatype Option<+T> = None | Some(value: T)

  /** The value a Java call returns, or the exception it throws. */
  datatype Result<+T, +E> = Ok(value: T) | Err(error: E)

  /** A `void` Java call: it returns normally or throws. */
  datatype Outcome<+E> = Pass | Fail(error: E)

  /** The first element of `s` satisfying `p` (a repository's `findBy…` on a unique column). */
  function First<T>(s: seq<T>, p: T -> bool): (r: Option<T>)
    ensures r.Some? ==> r.value in s && p(r.value)
    ensures r.None? <==> forall x :: x in s ==> !p(x)
  {
    if s == [] then None
    else if p(s[0]) then Some(s[0])
    else First(s[1..], p)
  }

  /** Searching a list extended at the end finds the old match first, if there is one. */
  lemma {:induction false} FirstAppend<T>(s: seq<T>, x: T, p: T -> bool)
    ensures First(s + [x], p) == if First(s, p).Some? then First(s, p) else if p(x) then Some(x) else None
  {
    if s == [] {
      assert s + [x] == [x];
    } else {
      assert (s + [x])[0] == s[0];
      assert (s + [x])[1..] == s[1..] + [x];
      if !p(s[0]) {
        FirstAppend(s[1..], x, p);
      }
    }
  }

  /** An element of `s` that satisfies `p` and has no earlier element satisfying `p` is the one found. */
  lemma {:induction false} FirstAt<T>(s: seq<T>, i: nat, p: T -> bool)
    requires i < |s| && p(s[i])
    requires forall k :: 0 <= k < i ==> !p(s[k])
    ensures First(s, p) == Some(s[i])
  {
    if i > 0 {
      FirstAt(s[1..], i - 1, p);
    }
  }

  /** The match `First` returns sits at an index with no earlier match. */
  lemma {:induction false} FirstIndex<T>(s: seq<T>, p: T -> bool)
    requires First(s, p).Some?
    ensures exists k :: 0 <= k < |s| && s[k] == First(s, p).value && (forall j :: 0 <= j < k ==> !p(s[j]))
  {
    if !p(s[0]) {
      FirstIndex(s[1..], p);
      var k :| 0 <= k < |s[1..]| && s[1..][k] == First(s[1..], p).value && (forall j :: 0 <= j < k ==> !p(s[1..][j]));
      assert s[k + 1] == First(s, p).value;
      assert forall j :: 0 <= j < k + 1 ==> !p(s[j]) by {
        forall j | 0 <= j < k + 1 ensures !p(s[j]) {
          if j > 0 { assert s[j] == s[1..][j - 1]; }
        }
      }
    } else {
      assert s[0] == First(s, p).value;
    }
  }
}
