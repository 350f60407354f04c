/** Sums over sequences, of numbers and of multisets, and how they change with one element. */
module Tally {

  function Total<T>(xs: seq<T>, w: T -> nat): nat {
    if xs == [] then 0 else Total(xs[..|xs| - 1], w) + w(xs[|xs| - 1])
  }

  function Gather<T>(xs: seq<T>, w: T -> multiset<nat>): multiset<nat> {
    if xs == [] then multiset{} else Gather(xs[..|xs| - 1], w) + w(xs[|xs| - 1])
  }

  lemma {:induction false} TotalUpdate<T>(xs: seq<T>, i: nat, x: T, w: T -> nat)
    requires i < |xs|
    ensures Total(xs[i := x], w) + w(xs[i]) == Total(xs, w) + w(x)
    decreases |xs|
  {
    var n := |xs| - 1;
    if i < n {
      TotalUpdate(xs[..n], i, x, w);
      assert xs[i := x][..n] == xs[..n][i := x];
    } else {
      assert xs[i := x][..n] == xs[..n];
    }
  }

  lemma SumsWith(a: multiset<nat>, b: multiset<nat>, u: multiset<nat>, v: multiset<nat>, l: multiset<nat>)
    requires a + u == b + v
    ensures a + l + u == b + l + v
  {
    assert a + l + u == a + u + l;
    assert b + l + v == b + v + l;
  }

  lemma {:induction false} GatherUpdate<T>(xs: seq<T>, i: nat, x: T, w: T -> multiset<nat>)
    requires i < |xs|
    ensures Gather(xs[i := x], w) + w(xs[i]) == Gather(xs, w) + w(x)
    decreases |xs|
  {
    var n := |xs| - 1;
    var ys := xs[i := x];
    if i < n {
      GatherUpdate(xs[..n], i, x, w);
      assert ys[..n] == xs[..n][i := x];
      SumsWith(Gather(ys[..n], w), Gather(xs[..n], w), w(xs[i]), w(x), w(xs[n]));
    } else {
      assert ys[..n] == xs[..n];
    }
  }

  lemma AppendOne<T>(xs: seq<T>, x: T, w: T -> nat, v: T -> multiset<nat>)
    ensures Total(xs + [x], w) == Total(xs, w) + w(x)
    ensures Gather(xs + [x], v) == Gather(xs, v) + v(x)
  {
    assert (xs + [x])[..|xs|] == xs;
  }

  lemma {:induction false} TotalAtLeast<T>(xs: seq<T>, i: nat, w: T -> nat)
    requires i < |xs|
    ensures w(xs[i]) <= Total(xs, w)
    decreases |xs|
  {
    if i < |xs| - 1 {
      TotalAtLeast(xs[..|xs| - 1], i, w);
    }
  }

  lemma {:induction false} GatherAtLeast<T>(xs: seq<T>, i: nat, w: T -> multiset<nat>)
    requires i < |xs|
    ensures w(xs[i]) <= Gather(xs, w)
    decreases |xs|
  {
    if i < |xs| - 1 {
      GatherAtLeast(xs[..|xs| - 1], i, w);
    }
  }

  lemma {:induction false} GatherAtLeastBoth<T>(xs: seq<T>, i: nat, j: nat, w: T -> multiset<nat>)
    requires i < j < |xs|
    ensures w(xs[i]) + w(xs[j]) <= Gather(xs, w)
    decreases |xs|
  {
    if j < |xs| - 1 {
      GatherAtLeastBoth(xs[..|xs| - 1], i, j, w);
    } else {
      GatherAtLeast(xs[..|xs| - 1], i, w);
    }
  }

  lemma {:induction false} TotalZero<T>(xs: seq<T>, w: T -> nat)
    requires forall x :: x in xs ==> w(x) == 0
    ensures Total(xs, w) == 0
    decreases |xs|
  {
    if xs != [] {
      TotalZero(xs[..|xs| - 1], w);
    }
  }

  lemma {:induction false} GatherEmpty<T>(xs: seq<T>, w: T -> multiset<nat>)
    requires forall x :: x in xs ==> w(x) == multiset{}
    ensures Gather(xs, w) == multiset{}
    decreases |xs|
  {
    if xs != [] {
      GatherEmpty(xs[..|xs| - 1], w);
    }
  }
}

/** The pool's lock regions, as functions of the state that its mutex protects. */
module PoolSpec {
  type Conn = nat

  datatype Idle = Idle(conn: Conn, since: int)

  datatype Vars = Vars(free: seq<Idle>, closed: bool)

  datatype Taken = PoolClosed | Reuse(conn: Conn) | MustDial

  /** acquire: refuse when closed, else take the last free conn, else dial. */
  function Take(v: Vars): (Vars, Taken) {
    if v.closed then (v, PoolClosed)
    else if |v.free| > 0 then (v.(free := v.free[..|v.free| - 1]), Reuse(v.free[|v.free| - 1].conn))
    else (v, MustDial)
  }

  /** release: a healthy conn goes to the end of the free list; otherwise the caller must close it. */
  function GiveBack(v: Vars, c: Conn, healthy: bool, now: int): (Vars, bool) {
    if v.closed || !healthy then (v, true) else (v.(free := v.free + [Idle(c, now)]), false)
  }

  function Keep(free: seq<Idle>, cutoff: int): seq<Idle> {
    if free == [] then []
    else Keep(free[..|free| - 1], cutoff) + if free[|free| - 1].since < cutoff then [] else [free[|free| - 1]]
  }

  function Stale(free: seq<Idle>, cutoff: int): seq<Idle> {
    if free == [] then []
    else Stale(free[..|free| - 1], cutoff) + if free[|free| - 1].since < cutoff then [free[|free| - 1]] else []
  }

  /** reapIdle: what stays and what is to be closed. */
  function Reap(v: Vars, cutoff: int): (Vars, seq<Idle>) {
    (v.(free := Keep(v.free, cutoff)), Stale(v.free, cutoff))
  }

  /** close: the first call takes the whole free list, later ones nothing. */
  function Shut(v: Vars): (Vars, seq<Idle>) {
    if v.closed then (v, []) else (Vars([], true), v.free)
  }

  /** The conns in a list. */
  function Bag(free: seq<Idle>): multiset<Conn> {
    if free == [] then multiset{} else Bag(free[..|free| - 1]) + multiset{free[|free| - 1].conn}
  }

  ghost predicate Sorted(free: seq<Idle>) {
    forall i, j :: 0 <= i < j < |free| ==> free[i].since <= free[j].since
  }

  lemma BagAppend(free: seq<Idle>, x: Idle)
    ensures Bag(free + [x]) == Bag(free) + multiset{x.conn}
  {
    assert (free + [x])[..|free|] == free;
  }

  lemma {:induction false} BagFirst(free: seq<Idle>)
    requires free != []
    ensures Bag(free) == multiset{free[0].conn} + Bag(free[1..])
    decreases |free|
  {
    if |free| > 1 {
      var n := |free| - 1;
      BagFirst(free[..n]);
      assert free[1..][..n - 1] == free[..n][1..];
    }
  }

  lemma {:induction false} BagSize(free: seq<Idle>)
    ensures |Bag(free)| == |free|
    decreases |free|
  {
    if free != [] {
      BagSize(free[..|free| - 1]);
    }
  }

  lemma AddToEither(a: multiset<nat>, b: multiset<nat>, x: multiset<nat>)
    ensures a + (b + x) == a + b + x == a + x + b
  {
  }

  /** Reaping partitions the free list. */
  lemma {:induction false} ReapPartitions(free: seq<Idle>, cutoff: int)
    ensures Bag(Keep(free, cutoff)) + Bag(Stale(free, cutoff)) == Bag(free)
    decreases |free|
  {
    if free != [] {
      var before, last := free[..|free| - 1], free[|free| - 1];
      ReapPartitions(before, cutoff);
      var k, s := Keep(before, cutoff), Stale(before, cutoff);
      BagAppend(k, last);
      BagAppend(s, last);
      AddToEither(Bag(k), Bag(s), multiset{last.conn});
      assert last.since < cutoff ==> Keep(free, cutoff) == k && Stale(free, cutoff) == s + [last];
      assert last.since >= cutoff ==> Keep(free, cutoff) == k + [last] && Stale(free, cutoff) == s;
    }
  }

  lemma {:induction false} ReapCounts(free: seq<Idle>, cutoff: int)
    ensures |Keep(free, cutoff)| + |Stale(free, cutoff)| == |free|
    decreases |free|
  {
    if free != [] {
      ReapCounts(free[..|free| - 1], cutoff);
    }
  }

  /** Reaping goes by idle time alone. */
  lemma {:induction false} ReapByAge(free: seq<Idle>, cutoff: int)
    ensures forall x :: x in Keep(free, cutoff) <==> x in free && x.since >= cutoff
    ensures forall x :: x in Stale(free, cutoff) <==> x in free && x.since < cutoff
    decreases |free|
  {
    if free != [] {
      ReapByAge(free[..|free| - 1], cutoff);
      assert free == free[..|free| - 1] + [free[|free| - 1]];
    }
  }

  lemma {:induction false} AllStale(free: seq<Idle>, cutoff: int)
    requires forall i :: 0 <= i < |free| ==> free[i].since < cutoff
    ensures Keep(free, cutoff) == [] && Stale(free, cutoff) == free
    decreases |free|
  {
    if free != [] {
      var before, last := free[..|free| - 1], free[|free| - 1];
      AllStale(before, cutoff);
      assert last.since < cutoff;
      assert free == before + [last];
    }
  }

  /** On a list sorted by idle time, reaping cuts off exactly a prefix. */
  lemma {:induction false} ReapDropsPrefix(free: seq<Idle>, cutoff: int)
    requires Sorted(free)
    ensures var k := |Stale(free, cutoff)|;
            k <= |free| && Stale(free, cutoff) == free[..k] && Keep(free, cutoff) == free[k..]
    decreases |free|
  {
    if free != [] {
      var before, last := free[..|free| - 1], free[|free| - 1];
      if last.since < cutoff {
        AllStale(free, cutoff);
      } else {
        ReapDropsPrefix(before, cutoff);
        var k := |Stale(before, cutoff)|;
        assert free[k..] == before[k..] + [last];
        assert free[..k] == before[..k];
      }
    }
  }
}
