/** The experience buffer of a borrower: a `deque(maxlen = capacity)` that keeps
    the most recent experiences, with uniform sampling without replacement. */
module Replay {

  /** The last `n` elements of `t` (all of `t` when it is shorter). This is what a
      `deque(maxlen = n)` holds after being fed `t`, and what the slice `t[-n:]`
      returns for a positive `n`. */
  function Last<T>(t: seq<T>, n: nat): (r: seq<T>)
    ensures |r| == if |t| <= n then |t| else n
    ensures forall i :: 0 <= i < |r| ==> r[i] == t[|t| - |r| + i]
  {
    if |t| <= n then t else t[|t| - n..]
  }

  /** The contents of a bounded deque after one `append`. */
  function BoundedAppend<T>(s: seq<T>, x: T, cap: nat): (r: seq<T>)
    requires |s| <= cap
    ensures |r| <= cap
    ensures |r| == if |s| < cap then |s| + 1 else cap
    ensures cap > 0 ==> r[|r| - 1] == x
    ensures |s| < cap ==> r == s + [x]
    ensures 0 < |s| == cap ==> r == s[1..] + [x]
  {
    Last(s + [x], cap)
  }

  /** Appending the elements of `xs` one by one. */
  function PushAll<T>(s: seq<T>, xs: seq<T>, cap: nat): seq<T>
    requires |s| <= cap
    decreases |xs|
  {
    if xs == [] then s else PushAll(BoundedAppend(s, xs[0], cap), xs[1..], cap)
  }

  /** Trimming to a window and then appending loses nothing the window keeps. */
  lemma LastOfLast<T>(t: seq<T>, u: seq<T>, n: nat)
    ensures Last(Last(t, n) + u, n) == Last(t + u, n)
  {
    var a, b := Last(Last(t, n) + u, n), Last(t + u, n);
    assert |a| == |b|;
    forall i | 0 <= i < |a|
      ensures a[i] == b[i]
    {
      var k := |Last(t, n) + u| - |a| + i;
      if k < |Last(t, n)| {
        assert a[i] == Last(t, n)[k];
      } else {
        assert a[i] == u[k - |Last(t, n)|];
      }
    }
  }

  /** Any sequence of pushes leaves exactly the newest `cap` experiences, in order. */
  lemma {:induction false} PushAllKeepsNewest<T>(s: seq<T>, xs: seq<T>, cap: nat)
    requires |s| <= cap
    ensures PushAll(s, xs, cap) == Last(s + xs, cap)
    decreases |xs|
  {
    if xs == [] {
      assert s + xs == s;
    } else {
      var t := s + [xs[0]];
      calc {
        PushAll(s, xs, cap);
        PushAll(Last(t, cap), xs[1..], cap);
        { PushAllKeepsNewest(Last(t, cap), xs[1..], cap); }
        Last(Last(t, cap) + xs[1..], cap);
        { LastOfLast(t, xs[1..], cap); }
        Last(t + xs[1..], cap);
        { assert t + xs[1..] == s + xs by { assert xs == [xs[0]] + xs[1..]; } }
        Last(s + xs, cap);
      }
    }
  }

  /** FIFO eviction: `cap + 1` pushes into an empty buffer of capacity `cap` leave
      all but the first experience, so a first experience that is not repeated is
      gone. */
  lemma FifoEviction<T>(xs: seq<T>, cap: nat)
    requires cap >= 1 && |xs| == cap + 1
    ensures |PushAll([], xs, cap)| == cap
    ensures PushAll([], xs, cap) == xs[1..]
    ensures xs[0] !in xs[1..] ==> xs[0] !in PushAll([], xs, cap)
  {
    PushAllKeepsNewest([], xs, cap);
    assert [] + xs == xs;
  }

  class ReplayMemory<T> {
    const capacity: nat
    var memory: seq<T>

    ghost predicate Valid()
      reads this
    {
      |memory| <= capacity
    }

    constructor (capacity: nat)
      ensures Valid()
      ensures this.capacity == capacity && memory == []
    {
      this.capacity := capacity;
      memory := [];
    }

    /** Appends `e`; when the buffer is full the oldest experience is evicted. */
    method Push(e: T)
      requires Valid()
      modifies this
      ensures Valid()
      ensures memory == BoundedAppend(old(memory), e, capacity)
    {
      memory := BoundedAppend(memory, e, capacity);
    }

    /** `len(memory)`, never above the capacity. */
    function Length(): (n: nat)
      reads this
      requires Valid()
      ensures n <= capacity
      ensures n == |memory|
    {
      |memory|
    }

    /** `n` experiences taken from `n` distinct positions of the buffer, which is
        left as it was. Which positions are taken is left open. */
    method Sample(n: nat) returns (batch: seq<T>, positions: seq<nat>)
      requires n <= |memory|
      ensures |batch| == n && |positions| == n
      ensures forall k :: 0 <= k < n ==> positions[k] < |memory| && batch[k] == memory[positions[k]]
      ensures forall j, k :: 0 <= j < k < n ==> positions[j] != positions[k]
    {
      var unused: seq<nat> := seq(|memory|, i => i);
      batch, positions := [], [];
      while |positions| < n
        invariant |batch| == |positions| <= n
        invariant forall k :: 0 <= k < |positions| ==> positions[k] < |memory| && batch[k] == memory[positions[k]]
        invariant forall j, k :: 0 <= j < k < |positions| ==> positions[j] != positions[k]
        invariant forall j :: 0 <= j < |unused| ==> unused[j] < |memory|
        invariant forall j, k :: 0 <= j < k < |unused| ==> unused[j] != unused[k]
        invariant forall j, k :: 0 <= j < |unused| && 0 <= k < |positions| ==> unused[j] != positions[k]
        invariant |unused| == |memory| - |positions|
      {
        var j :| 0 <= j < |unused|;
        batch, positions := batch + [memory[unused[j]]], positions + [unused[j]];
        unused := unused[..j] + unused[j + 1..];
      }
    }
  }
}
