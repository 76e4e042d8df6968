/** The JavaScript array primitives the core relies on, over Dafny sequences:
    `indexOf` (identity search from the front) and `splice(start, 1)`
    (removal of one element, with JavaScript's treatment of a negative start). */
module Sequences {

  /** No element occurs twice. */
  ghost predicate NoDuplicates<T>(s: seq<T>) {
    forall i, j :: 0 <= i < j < |s| ==> s[i] != s[j]
  }

  /** `Array.prototype.indexOf`: the position of the first occurrence of `x`,
      or -1 when `x` does not occur. */
  function IndexOf<T(==)>(s: seq<T>, x: T): (r: int)
    ensures -1 <= r < |s|
    ensures r == -1 <==> x !in s
    ensures 0 <= r ==> s[r] == x && x !in s[..r]
  {
    if s == [] then -1
    else if s[0] == x then 0
    else
      var j := IndexOf(s[1..], x);
      if j == -1 then -1 else j + 1
  }

  /** `Array.prototype.splice(start, 1)`: a negative `start` counts from the end
      (clamped at 0), a `start` past the end is clamped to the length, and the one
      element at the resulting position, if there is one, is removed. */
  function SpliceOne<T>(s: seq<T>, start: int): seq<T> {
    var from :=
      if start < 0 then (if |s| + start < 0 then 0 else |s| + start)
      else if start > |s| then |s| else start;
    if from < |s| then s[..from] + s[from + 1..] else s
  }

  /** Removes the first occurrence of `x`, as the listener registries do:
      `indexOf`, then `splice` only when the index is not -1. */
  function RemoveFirst<T(==)>(s: seq<T>, x: T): seq<T> {
    var i := IndexOf(s, x);
    if i == -1 then s else SpliceOne(s, i)
  }

  /** `IndexOf` finds exactly the first occurrence. */
  lemma {:induction false} IndexOfFirst<T>(s: seq<T>, x: T, i: int)
    requires 0 <= i < |s| && s[i] == x && x !in s[..i]
    ensures IndexOf(s, x) == i
  {
  }

  /** Splicing at a valid position removes exactly that element and keeps the
      others in order. */
  lemma SpliceOneAt<T>(s: seq<T>, i: int)
    requires 0 <= i < |s|
    ensures SpliceOne(s, i) == s[..i] + s[i + 1..]
    ensures |SpliceOne(s, i)| == |s| - 1
    ensures multiset(SpliceOne(s, i)) == multiset(s) - multiset{s[i]}
  {
    assert s == s[..i] + [s[i]] + s[i + 1..];
  }

  /** `splice(-1, 1)` removes the LAST element of a non-empty array and leaves an
      empty one alone. */
  lemma SpliceOneMinusOne<T>(s: seq<T>)
    ensures s != [] ==> SpliceOne(s, -1) == s[..|s| - 1]
    ensures s == [] ==> SpliceOne(s, -1) == []
  {
  }

  /** Removing an element keeps a duplicate-free sequence duplicate-free, and the
      removed element, if it was unique, is gone. */
  lemma RemoveAtKeepsNoDuplicates<T>(s: seq<T>, i: int)
    requires NoDuplicates(s) && 0 <= i < |s|
    ensures NoDuplicates(s[..i] + s[i + 1..])
    ensures s[i] !in s[..i] + s[i + 1..]
  {
    var r := s[..i] + s[i + 1..];
    forall a, b | 0 <= a < b < |r| ensures r[a] != r[b] {
      var a', b' := if a < i then a else a + 1, if b < i then b else b + 1;
      assert r[a] == s[a'] && r[b] == s[b'];
    }
    forall a | 0 <= a < |r| ensures r[a] != s[i] {
      assert r[a] == s[if a < i then a else a + 1];
    }
  }

  /** What `RemoveFirst` does: nothing when `x` is absent; otherwise it drops
      exactly the first occurrence and keeps the order of the rest. */
  lemma RemoveFirstSpec<T>(s: seq<T>, x: T)
    ensures x !in s ==> RemoveFirst(s, x) == s
    ensures x in s ==>
      var i := IndexOf(s, x);
      && 0 <= i < |s| && s[i] == x && x !in s[..i]
      && RemoveFirst(s, x) == s[..i] + s[i + 1..]
  {
    var i := IndexOf(s, x);
    if i != -1 {
      assert RemoveFirst(s, x) == SpliceOne(s, i);
      SpliceOneAt(s, i);
    }
  }

  /** `RemoveFirst` takes exactly one copy of `x` out of the multiset of
      elements (none when there is none). */
  lemma RemoveFirstMultiset<T>(s: seq<T>, x: T)
    ensures multiset(RemoveFirst(s, x)) == multiset(s) - multiset{x}
  {
    var i := IndexOf(s, x);
    if i != -1 {
      assert RemoveFirst(s, x) == SpliceOne(s, i);
      SpliceOneAt(s, i);
    } else {
      assert RemoveFirst(s, x) == s;
      AbsentMultisetDifference(s, x);
    }
  }

  lemma AbsentMultisetDifference<T>(s: seq<T>, x: T)
    requires x !in s
    ensures multiset(s) - multiset{x} == multiset(s)
  {
    assert x !in multiset(s);
  }

  /** Adding then removing an absent element gives back the original sequence;
      for an element already present, the earlier copy is the one removed. */
  lemma RemoveFirstAfterAppend<T>(s: seq<T>, x: T)
    ensures x !in s ==> RemoveFirst(s + [x], x) == s
    ensures x in s ==> RemoveFirst(s + [x], x) == RemoveFirst(s, x) + [x]
  {
    if x !in s {
      RemoveAppendedAbsent(s, x);
    } else {
      RemoveAppendedPresent(s, x);
    }
  }

  lemma RemoveAppendedAbsent<T>(s: seq<T>, x: T)
    requires x !in s
    ensures RemoveFirst(s + [x], x) == s
  {
    var t := s + [x];
    assert t[..|s|] == s;
    IndexOfFirst(t, x, |s|);
    assert RemoveFirst(t, x) == SpliceOne(t, |s|);
    SpliceOneAt(t, |s|);
  }

  lemma RemoveAppendedPresent<T>(s: seq<T>, x: T)
    requires x in s
    ensures RemoveFirst(s + [x], x) == RemoveFirst(s, x) + [x]
  {
    var t := s + [x];
    var i := IndexOf(s, x);
    assert t[..i] == s[..i];
    IndexOfFirst(t, x, i);
    assert RemoveFirst(t, x) == SpliceOne(t, i);
    assert RemoveFirst(s, x) == SpliceOne(s, i);
    SpliceOneAt(t, i);
    SpliceOneAt(s, i);
    assert t[i + 1..] == s[i + 1..] + [x];
  }
}
