/**
 * Insertion-ordered sets as sequences without repetition: the shape of the
 * immutable sets and maps that the par-rates function collects its keys into.
 */
module KeySets {

  predicate Distinct<T(==,!new)>(s: seq<T>) {
    forall i, j :: 0 <= i < j < |s| ==> s[i] != s[j]
  }

  /**
   * Adds the elements of s, in order, to the insertion-ordered set acc,
   * skipping those already present (what collecting a stream into an
   * immutable set does).
   */
  function AddAll<T(==,!new)>(acc: seq<T>, s: seq<T>): (r: seq<T>)
    requires Distinct(acc)
    ensures Distinct(r)
    ensures forall x :: x in r <==> x in acc || x in s
    ensures |acc| <= |r| && r[..|acc|] == acc
    decreases |s|
  {
    if s == [] then acc
    else
      var next := if s[0] in acc then acc else acc + [s[0]];
      assert next[..|acc|] == acc;
      AddAll(next, s[1..])
  }

  /** The insertion-ordered set of the elements of s. */
  function Dedup<T(==,!new)>(s: seq<T>): (r: seq<T>)
    ensures Distinct(r)
    ensures forall x :: x in r <==> x in s
  {
    AddAll([], s)
  }

  /** Elements that are all new are appended as they come: the set keeps the stream's order. */
  lemma {:induction false} AddAllKeepsOrder<T(!new)>(acc: seq<T>, s: seq<T>)
    requires Distinct(acc + s)
    ensures Distinct(acc) && AddAll(acc, s) == acc + s
    decreases |s|
  {
    assert forall i :: 0 <= i < |acc| ==> acc[i] == (acc + s)[i];
    if s != [] {
      assert (acc + [s[0]]) + s[1..] == acc + s;
      assert (acc + s)[|acc|] == s[0];
      assert s[0] !in acc;
      AddAllKeepsOrder(acc + [s[0]], s[1..]);
    }
  }

  /** A sequence that has no repetition is its own insertion-ordered set. */
  lemma DedupOfDistinct<T(!new)>(s: seq<T>)
    requires Distinct(s)
    ensures Dedup(s) == s
  {
    assert [] + s == s;
    AddAllKeepsOrder([], s);
  }

  /** Mapping a sequence without repetition through a function injective on it loses no element. */
  lemma {:induction false} InjectiveImageSize<T(!new), U>(s: seq<T>, f: T -> U)
    requires Distinct(s)
    requires forall x, y :: x in s && y in s && f(x) == f(y) ==> x == y
    ensures |set x | x in s :: f(x)| == |s|
  {
    if s != [] {
      var rest := set x | x in s[1..] :: f(x);
      assert Distinct(s[1..]);
      InjectiveImageSize(s[1..], f);
      assert (set x | x in s :: f(x)) == {f(s[0])} + rest;
      assert f(s[0]) !in rest;
    }
  }

  /** A sequence without repetition has as many elements as its set. */
  lemma {:induction false} DistinctSetSize<T(!new)>(s: seq<T>)
    requires Distinct(s)
    ensures |set x | x in s| == |s|
  {
    if s != [] {
      DistinctSetSize(s[1..]);
      assert (set x | x in s) == {s[0]} + set x | x in s[1..];
    }
  }
}
