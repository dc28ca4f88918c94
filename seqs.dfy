/** Python list behaviour the bot relies on: slicing with possibly negative bounds, and filtering. */
module Seqs {

  /** No element occurs twice (a dict's keys, in insertion order). */
  ghost predicate Distinct<T>(s: seq<T>) {
    forall i, j | 0 <= i < j < |s| :: s[i] != s[j]
  }

  /** The elements of `s`, as a set. */
  ghost function Elems<T>(s: seq<T>): set<T> {
    set x | x in s
  }

  /** A list without repetitions has as many distinct elements as it is long. */
  lemma {:induction false} DistinctCard<T>(s: seq<T>)
    requires Distinct(s)
    ensures |Elems(s)| == |s|
  {
    if s != [] {
      DistinctCard(s[1..]);
      assert Elems(s) == Elems(s[1..]) + {s[0]};
      assert s[0] !in Elems(s[1..]);
    }
  }

  /** One more element of a list without repetitions is one new element. */
  lemma ElemsStep<T>(s: seq<T>, i: nat)
    requires Distinct(s) && i < |s|
    ensures Elems(s[..i + 1]) == Elems(s[..i]) + {s[i]}
    ensures s[i] !in Elems(s[..i])
  {
    assert s[..i + 1] == s[..i] + [s[i]];
    assert forall j | 0 <= j < i :: s[..i][j] == s[j] != s[i];
  }

  /** Appending a new element to a list without repetitions keeps it free of them. */
  lemma DistinctAppend<T>(s: seq<T>, x: T)
    requires Distinct(s) && x !in s
    ensures Distinct(s + [x])
  {
    var r := s + [x];
    assert forall i | 0 <= i < |s| :: r[i] == s[i];
  }

  /** A slice of a list without repetitions has none either. */
  lemma DistinctSlice<T>(s: seq<T>, i: nat, j: nat)
    requires Distinct(s) && i <= j <= |s|
    ensures Distinct(s[i..j])
  {
    assert forall a, b | 0 <= a < b < j - i :: s[i..j][a] == s[i + a] && s[i..j][b] == s[i + b];
  }

  /** Python's `s[start:]`: a negative start counts from the end; both ends are clamped. */
  function PyFrom<T>(s: seq<T>, start: int): (r: seq<T>)
    ensures 0 <= start ==> |r| == (if start <= |s| then |s| - start else 0)
    ensures start < 0 ==> |r| == (if -start <= |s| then -start else |s|)
    ensures r == s[|s| - |r|..]
  {
    if start < 0 then (if -start <= |s| then s[|s| + start..] else s)
    else if start <= |s| then s[start..]
    else []
  }

  /** Python's `s[:stop]`: a negative stop counts from the end; both ends are clamped. */
  function PyTo<T>(s: seq<T>, stop: int): (r: seq<T>)
    ensures 0 <= stop ==> |r| == (if stop <= |s| then stop else |s|)
    ensures stop < 0 ==> |r| == (if -stop <= |s| then |s| + stop else 0)
    ensures r == s[..|r|]
  {
    if stop < 0 then (if -stop <= |s| then s[..|s| + stop] else [])
    else if stop <= |s| then s[..stop]
    else s
  }

  /** The elements of `s` outside `drop`, in their original order. */
  function Without<T>(s: seq<T>, drop: set<T>): (r: seq<T>)
    ensures |r| <= |s|
    ensures forall i | 0 <= i < |r| :: r[i] in s && r[i] !in drop
    ensures forall i | 0 <= i < |s| && s[i] !in drop :: s[i] in r
  {
    if s == [] then []
    else if s[0] in drop then Without(s[1..], drop)
    else [s[0]] + Without(s[1..], drop)
  }

  /** Filtering keeps a list without repetitions free of them. */
  lemma {:induction false} WithoutDistinct<T>(s: seq<T>, drop: set<T>)
    requires Distinct(s)
    ensures Distinct(Without(s, drop))
  {
    if s != [] {
      DistinctSlice(s, 1, |s|);
      WithoutDistinct(s[1..], drop);
      assert s[0] !in s[1..];
    }
  }

  /** Dropping nothing keeps everything. */
  lemma {:induction false} WithoutNothing<T>(s: seq<T>)
    ensures Without(s, {}) == s
  {
    if s != [] {
      WithoutNothing(s[1..]);
    }
  }

  /** Dropping in two rounds is dropping once. */
  lemma {:induction false} WithoutTwice<T>(s: seq<T>, a: set<T>, b: set<T>)
    ensures Without(Without(s, a), b) == Without(s, a + b)
  {
    if s != [] {
      WithoutTwice(s[1..], a, b);
    }
  }
}
