/** Sequence helpers shared by the detector: occurrence counts, first-occurrence
    de-duplication (the key order of a Python `Counter`, or the order a loop with a
    "seen" set emits keys) and filtering. */
module Seqs {

  predicate NoDuplicates<T(==)>(s: seq<T>) {
    forall i, j :: 0 <= i < j < |s| ==> s[i] != s[j]
  }

  /** Every element equals the first. */
  predicate Constant<T(==)>(s: seq<T>) {
    forall k :: 0 <= k < |s| ==> s[k] == s[0]
  }

  /** Number of occurrences of `x` in `s`. */
  function Count<T(==)>(s: seq<T>, x: T): nat {
    if s == [] then 0 else (if s[0] == x then 1 else 0) + Count(s[1..], x)
  }

  /** Number of elements of `s` that are not in `seen`. */
  function CountOutside<T(==)>(s: seq<T>, seen: set<T>): nat {
    if s == [] then 0 else (if s[0] in seen then 0 else 1) + CountOutside(s[1..], seen)
  }

  /** The elements of `s` that are not in `seen`, each once, in order of first occurrence. */
  function DistinctFrom<T(==)>(s: seq<T>, seen: set<T>): (r: seq<T>)
    ensures forall x :: x in r ==> x in s && x !in seen
    ensures forall x :: x in s && x !in seen ==> x in r
    ensures NoDuplicates(r)
  {
    if s == [] then []
    else if s[0] in seen then DistinctFrom(s[1..], seen)
    else
      var rest := DistinctFrom(s[1..], seen + {s[0]});
      assert forall i :: 0 <= i < |rest| ==> rest[i] != s[0];
      [s[0]] + rest
  }

  /** The distinct elements of `s` in order of first occurrence. */
  function Distinct<T(==)>(s: seq<T>): seq<T> {
    DistinctFrom(s, {})
  }

  /** Sum of the occurrence counts in `s` of every element of `keys`. */
  function SumCounts<T(==)>(s: seq<T>, keys: seq<T>): nat {
    if keys == [] then 0 else Count(s, keys[0]) + SumCounts(s, keys[1..])
  }

  /** The sequences of `bs`, one after the other. */
  function Flatten<T>(bs: seq<seq<T>>): seq<T> {
    if bs == [] then [] else bs[0] + Flatten(bs[1..])
  }

  function Filter<T>(f: T -> bool, s: seq<T>): (r: seq<T>)
    ensures |r| <= |s|
    ensures forall x :: x in r ==> x in s && f(x)
  {
    if s == [] then [] else (if f(s[0]) then [s[0]] else []) + Filter(f, s[1..])
  }

  lemma {:induction false} CountPositive<T>(s: seq<T>, x: T)
    requires x in s
    ensures Count(s, x) >= 1
  {
    if s[0] != x {
      CountPositive(s[1..], x);
    }
  }

  lemma {:induction false} CountBounded<T>(s: seq<T>, x: T)
    ensures Count(s, x) <= |s|
  {
    if s != [] {
      CountBounded(s[1..], x);
    }
  }

  /** Dropping a head that is not among `keys` does not change their total count. */
  lemma {:induction false} SumCountsSkipHead<T>(s: seq<T>, keys: seq<T>)
    requires s != [] && s[0] !in keys
    ensures SumCounts(s, keys) == SumCounts(s[1..], keys)
  {
    if keys != [] {
      SumCountsSkipHead(s, keys[1..]);
    }
  }

  /** Counting `a` separately and then everything outside `seen + {a}` counts everything outside `seen`. */
  lemma {:induction false} CountSplit<T>(s: seq<T>, a: T, seen: set<T>)
    requires a !in seen
    ensures Count(s, a) + CountOutside(s, seen + {a}) == CountOutside(s, seen)
  {
    if s != [] {
      CountSplit(s[1..], a, seen);
    }
  }

  lemma {:induction false} SumCountsDistinctFrom<T>(s: seq<T>, seen: set<T>)
    ensures SumCounts(s, DistinctFrom(s, seen)) == CountOutside(s, seen)
  {
    if s == [] {
    } else if s[0] in seen {
      var d := DistinctFrom(s[1..], seen);
      SumCountsSkipHead(s, d);
      SumCountsDistinctFrom(s[1..], seen);
    } else {
      var d := DistinctFrom(s[1..], seen + {s[0]});
      SumCountsSkipHead(s, d);
      SumCountsDistinctFrom(s[1..], seen + {s[0]});
      CountSplit(s[1..], s[0], seen);
    }
  }

  lemma {:induction false} CountOutsideEmpty<T>(s: seq<T>)
    ensures CountOutside(s, {}) == |s|
  {
    if s != [] {
      CountOutsideEmpty(s[1..]);
    }
  }

  /** The per-key counts of a `Counter` add up to the length of the counted sequence. */
  lemma SumCountsDistinct<T>(s: seq<T>)
    ensures SumCounts(s, Distinct(s)) == |s|
  {
    SumCountsDistinctFrom(s, {});
    CountOutsideEmpty(s);
  }

  /** A sequence without duplicates has as many elements as its set. */
  lemma {:induction false} NoDuplicatesCardinality<T>(s: seq<T>)
    requires NoDuplicates(s)
    ensures |set x | x in s| == |s|
  {
    if s != [] {
      var tail := s[1..];
      assert NoDuplicates(tail);
      NoDuplicatesCardinality(tail);
      assert (set x | x in s) == (set x | x in tail) + {s[0]};
      assert s[0] !in (set x | x in tail);
    }
  }

  /** `Distinct` keeps exactly one copy of every element. */
  lemma DistinctCardinality<T>(s: seq<T>)
    ensures |Distinct(s)| == |set x | x in s|
  {
    var d := Distinct(s);
    NoDuplicatesCardinality(d);
    assert (set x | x in d) == (set x | x in s);
  }

  /** A sequence has exactly one distinct element iff it is non-empty and constant. */
  lemma SingleElementSet<T>(s: seq<T>)
    ensures |set x | x in s| == 1 <==> (s != [] && forall k :: 0 <= k < |s| ==> s[k] == s[0])
  {
    var elems := set x | x in s;
    if s != [] && forall k :: 0 <= k < |s| ==> s[k] == s[0] {
      assert elems == {s[0]};
    }
    if |elems| == 1 {
      assert s[0] in elems;
      var others := elems - {s[0]};
      assert |others| == 0;
      assert forall k :: 0 <= k < |s| ==> s[k] in elems;
    }
  }

  /** In a constant sequence the repeated element occurs `|s|` times. */
  lemma {:induction false} CountConstant<T>(s: seq<T>, x: T)
    requires forall k :: 0 <= k < |s| ==> s[k] == x
    ensures Count(s, x) == |s|
  {
    if s != [] {
      CountConstant(s[1..], x);
    }
  }

  /** An element occurs fewer than `|s|` times when some other element is present. */
  lemma {:induction false} CountBelowLength<T>(s: seq<T>, x: T, y: T)
    requires y in s && y != x
    ensures Count(s, x) < |s|
  {
    if s[0] == y {
      CountBounded(s[1..], x);
    } else {
      CountBelowLength(s[1..], x, y);
    }
  }
}
