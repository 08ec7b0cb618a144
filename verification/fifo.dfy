/** The bounded FIFO buffers the sources and the collector keep: a `deque(maxlen=cap)`
    extended at the right, and the `read` loop that pops `min(max_count, len)` items
    from the left. */
module Fifo {
  import opened Seqs

  function Min(a: int, b: int): int {
    if a <= b then a else b
  }

  /** `deque(maxlen=cap).extend(s)` on an empty deque: once full, every new item pushes
      the oldest one out, so the newest `min(cap, |s|)` items remain. */
  function KeepNewest<T>(s: seq<T>, cap: nat): (r: seq<T>)
    ensures |r| == Min(cap, |s|)
    ensures |r| <= cap
  {
    if |s| <= cap then s else s[|s| - cap..]
  }

  /** The deque after appending one item. */
  function Push<T>(buf: seq<T>, x: T, cap: nat): seq<T> {
    KeepNewest(buf + [x], cap)
  }

  /** What is kept is a suffix of what was offered: nothing is reordered or invented. */
  lemma KeepNewestIsSuffix<T>(s: seq<T>, cap: nat)
    ensures var r := KeepNewest(s, cap);
      forall i :: 0 <= i < |r| ==> r[i] == s[|s| - |r| + i]
  {
  }

  /** Extending a bounded deque in two steps is the same as extending it once with
      everything: trimming early never changes what survives. */
  lemma KeepNewestAppend<T>(a: seq<T>, b: seq<T>, cap: nat)
    ensures KeepNewest(KeepNewest(a, cap) + b, cap) == KeepNewest(a + b, cap)
  {
    var ka := KeepNewest(a, cap);
    var l := KeepNewest(ka + b, cap);
    var r := KeepNewest(a + b, cap);
    assert |l| == |r|;
    forall i | 0 <= i < |l|
      ensures l[i] == r[i]
    {
      var j := |ka + b| - |l| + i;
      var k := |a + b| - |r| + i;
      if j < |ka| {
        assert (ka + b)[j] == ka[j];
        assert ka[j] == a[|a| - |ka| + j];
        assert (a + b)[k] == a[k];
      } else {
        assert (ka + b)[j] == b[j - |ka|];
        assert (a + b)[k] == b[k - |a|];
      }
    }
  }

  /** Appending item by item through `Push` keeps the same items as one `extend`. */
  lemma {:induction false} PushAll<T>(buf: seq<T>, xs: seq<T>, cap: nat)
    requires |buf| <= cap
    ensures PushEach(buf, xs, cap) == KeepNewest(buf + xs, cap)
    decreases |xs|
  {
    if xs != [] {
      KeepNewestAppend(buf + [xs[0]], xs[1..], cap);
      assert buf + [xs[0]] + xs[1..] == buf + xs;
      PushAll(Push(buf, xs[0], cap), xs[1..], cap);
    } else {
      assert buf + xs == buf;
    }
  }

  /** Appending one item at a time, as a background reader does. */
  function PushEach<T>(buf: seq<T>, xs: seq<T>, cap: nat): seq<T>
    decreases |xs|
  {
    if xs == [] then buf else PushEach(Push(buf, xs[0], cap), xs[1..], cap)
  }

  /** `extend(batch)` for each batch in turn. */
  function ExtendEach<T>(buf: seq<T>, bs: seq<seq<T>>, cap: nat): seq<T>
    decreases |bs|
  {
    if bs == [] then buf else ExtendEach(KeepNewest(buf + bs[0], cap), bs[1..], cap)
  }

  /** Extending the deque batch by batch keeps the same items as extending it once
      with all batches. */
  lemma {:induction false} ExtendEachSpec<T>(buf: seq<T>, bs: seq<seq<T>>, cap: nat)
    requires |buf| <= cap
    ensures ExtendEach(buf, bs, cap) == KeepNewest(buf + Flatten(bs), cap)
    decreases |bs|
  {
    if bs != [] {
      KeepNewestAppend(buf + bs[0], Flatten(bs[1..]), cap);
      assert buf + bs[0] + Flatten(bs[1..]) == buf + Flatten(bs);
      ExtendEachSpec(KeepNewest(buf + bs[0], cap), bs[1..], cap);
    } else {
      assert buf + Flatten(bs) == buf;
    }
  }

  /** How many items `read(max_count)` pops: `min(max_count, len)`, and none for a
      negative `max_count` because `range` of a negative number is empty. */
  function Taken(m: int, n: nat): (k: nat)
    ensures k <= n
    ensures m >= 0 ==> k == Min(m, n)
    ensures m < 0 ==> k == 0
  {
    if m <= 0 then 0 else Min(m, n)
  }

  /** `read(max_count)`: the oldest items, in order, and what remains. */
  datatype Drained<T> = Drained(taken: seq<T>, rest: seq<T>)

  function Drain<T>(buf: seq<T>, m: int): (r: Drained<T>)
    ensures r.taken + r.rest == buf
    ensures |r.taken| == Taken(m, |buf|)
  {
    var k := Taken(m, |buf|);
    assert buf[..k] + buf[k..] == buf;
    Drained(buf[..k], buf[k..])
  }

  /** Two successive reads return what one read of the combined size returns, so
      reads drain the buffer front to back without skipping or repeating. */
  lemma DrainTwice<T>(buf: seq<T>, m1: nat, m2: nat)
    ensures var d1 := Drain(buf, m1);
      var d2 := Drain(d1.rest, m2);
      var d := Drain(buf, m1 + m2);
      d1.taken + d2.taken == d.taken && d2.rest == d.rest
  {
    var d1 := Drain(buf, m1);
    var d2 := Drain(d1.rest, m2);
    var d := Drain(buf, m1 + m2);
    assert |d1.taken + d2.taken| == |d.taken|;
    assert d1.taken + d2.taken + d2.rest == buf;
    assert d.taken + d.rest == buf;
    assert d1.taken + d2.taken == buf[..|d.taken|];
  }

  /** A read never returns more than asked, and returns nothing only when asked for
      nothing or when the buffer is empty. */
  lemma DrainEmptyIff<T>(buf: seq<T>, m: int)
    ensures Drain(buf, m).taken == [] <==> m <= 0 || buf == []
  {
  }
}
