/** Sums of real sequences, over index ranges and over index sets. */
module RealSums {

  /** v[lo] + ... + v[hi-1]. */
  function RangeSum(v: seq<real>, lo: int, hi: int): real
    requires 0 <= lo <= hi <= |v|
    decreases hi - lo
  {
    if lo == hi then 0.0 else RangeSum(v, lo, hi - 1) + v[hi - 1]
  }

  /** The part of v[0] + ... + v[n-1] that lies at the indices in s. */
  ghost function Mass(v: seq<real>, s: set<int>, n: nat): real
    requires n <= |v|
  {
    if n == 0 then 0.0 else Mass(v, s, n - 1) + if n - 1 in s then v[n - 1] else 0.0
  }

  /** How many of the indices 0..n-1 are in s. */
  ghost function Count(s: set<int>, n: nat): nat {
    if n == 0 then 0 else Count(s, n - 1) + if n - 1 in s then 1 else 0
  }

  ghost function Window(lo: int, hi: int): (s: set<int>)
    ensures forall i :: i in s <==> lo <= i <= hi
    decreases hi - lo
  {
    if hi < lo then {} else Window(lo, hi - 1) + {hi}
  }

  ghost predicate NonNegative(v: seq<real>) {
    forall i :: 0 <= i < |v| ==> v[i] >= 0.0
  }

  lemma {:induction false} RangeSumSplit(v: seq<real>, lo: int, mid: int, hi: int)
    requires 0 <= lo <= mid <= hi <= |v|
    ensures RangeSum(v, lo, hi) == RangeSum(v, lo, mid) + RangeSum(v, mid, hi)
    decreases hi - mid
  {
    if mid < hi {
      RangeSumSplit(v, lo, mid, hi - 1);
    }
  }

  lemma {:induction false} RangeSumUpdate(v: seq<real>, k: int, x: real, n: int)
    requires 0 <= k < |v| && 0 <= n <= |v|
    ensures RangeSum(v[k := x], 0, n) == RangeSum(v, 0, n) + if k < n then x - v[k] else 0.0
    decreases n
  {
    if n > 0 {
      RangeSumUpdate(v, k, x, n - 1);
    }
  }

  lemma {:induction false} RangeSumNonNegative(v: seq<real>, lo: int, hi: int)
    requires 0 <= lo <= hi <= |v| && NonNegative(v)
    ensures RangeSum(v, lo, hi) >= 0.0
    decreases hi - lo
  {
    if lo < hi {
      RangeSumNonNegative(v, lo, hi - 1);
    }
  }

  lemma {:induction false} RangeSumZero(v: seq<real>, lo: int, hi: int)
    requires 0 <= lo <= hi <= |v|
    requires forall i :: lo <= i < hi ==> v[i] == 0.0
    ensures RangeSum(v, lo, hi) == 0.0
    decreases hi - lo
  {
    if lo < hi {
      RangeSumZero(v, lo, hi - 1);
    }
  }

  lemma {:induction false} WindowMass(v: seq<real>, lo: int, hi: int, n: nat)
    requires 0 <= lo <= hi < |v| && n <= |v|
    ensures Mass(v, Window(lo, hi), n) == if n <= lo then 0.0 else RangeSum(v, lo, if n <= hi then n else hi + 1)
  {
    if n > 0 {
      WindowMass(v, lo, hi, n - 1);
    }
  }

  lemma {:induction false} WindowCount(lo: int, hi: int, n: nat)
    requires 0 <= lo <= hi
    ensures Count(Window(lo, hi), n) == if n <= lo then 0 else if n <= hi then n - lo else hi + 1 - lo
  {
    if n > 0 {
      WindowCount(lo, hi, n - 1);
    }
  }

  lemma {:induction false} CountIsCardinality(s: set<int>, n: nat)
    requires forall i :: i in s ==> 0 <= i < n
    ensures Count(s, n) == |s|
  {
    if n > 0 {
      var t := s - {n - 1};
      CountIsCardinality(t, n - 1);
      CountSame(s, t, n - 1);
      assert s == if n - 1 in s then t + {n - 1} else t;
    } else {
      forall i ensures i !in s {
      }
    }
  }

  lemma {:induction false} CountSame(s: set<int>, t: set<int>, n: nat)
    requires forall i :: 0 <= i < n ==> (i in s <==> i in t)
    ensures Count(s, n) == Count(t, n)
  {
    if n > 0 {
      CountSame(s, t, n - 1);
    }
  }

  function Times(t: real, d: int): real {
    t * d as real
  }

  /** If t separates the values in w from those outside it, exchanging w for s gains at most t per extra index. */
  lemma {:induction false} ExchangeBound(v: seq<real>, s: set<int>, w: set<int>, t: real, n: nat)
    requires n <= |v|
    requires forall i :: 0 <= i < |v| ==> if i in w then v[i] >= t else v[i] <= t
    ensures Mass(v, s, n) - Mass(v, w, n) <= Times(t, Count(s, n) - Count(w, n))
    decreases n
  {
    TimesSigns(t, 0);
    hide Times;
    if n > 0 {
      ExchangeBound(v, s, w, t, n - 1);
      ExchangeStep(t, Mass(v, s, n - 1) - Mass(v, w, n - 1), Count(s, n - 1) - Count(w, n - 1),
                   v[n - 1], n - 1 in s, n - 1 in w);
    }
  }

  lemma ExchangeStep(t: real, gain: real, d: int, x: real, inS: bool, inW: bool)
    requires gain <= Times(t, d)
    requires if inW then x >= t else x <= t
    ensures gain + (if inS then x else 0.0) - (if inW then x else 0.0)
         <= Times(t, d + (if inS then 1 else 0) - (if inW then 1 else 0))
  {
    assert Times(t, d + 1) == Times(t, d) + t;
    assert Times(t, d - 1) == Times(t, d) - t;
  }

  lemma TimesSigns(t: real, d: int)
    ensures d == 0 ==> Times(t, d) == 0.0
    ensures t >= 0.0 && d <= 0 ==> Times(t, d) <= 0.0
  {
  }
}

/** The value area of a volume profile: a window grown greedily from the fullest bin. */
module ValueArea {
  import opened RealSums

  /** A window of bins low..high and the volume accumulated over it. */
  datatype Area = Area(low: int, high: int, acc: real)

  ghost predicate InRange(v: seq<real>, a: Area) {
    0 <= a.low <= a.high < |v|
  }

  function VolumeAt(v: seq<real>, i: int): real {
    if 0 <= i < |v| then v[i] else 0.0
  }

  /** One expansion: the fuller neighbour, the upper one on a tie. */
  function Widen(v: seq<real>, a: Area): (r: Area)
    requires InRange(v, a)
    requires VolumeAt(v, a.low - 1) != 0.0 || VolumeAt(v, a.high + 1) != 0.0
    ensures InRange(v, r) && r.low <= a.low && a.high <= r.high
    ensures r.high - r.low == a.high - a.low + 1
  {
    var lowVol, highVol := VolumeAt(v, a.low - 1), VolumeAt(v, a.high + 1);
    if highVol >= lowVol && a.high + 1 < |v| then Area(a.low, a.high + 1, a.acc + highVol)
    else if a.low - 1 >= 0 then Area(a.low - 1, a.high, a.acc + lowVol)
    else Area(a.low, a.high + 1, a.acc + highVol)
  }

  /** The window at which the greedy expansion from a stops. */
  function Grow(v: seq<real>, target: real, a: Area): (r: Area)
    requires InRange(v, a)
    ensures InRange(v, r) && r.low <= a.low && a.high <= r.high
    decreases |v| - (a.high - a.low)
  {
    if a.acc >= target || (VolumeAt(v, a.low - 1) == 0.0 && VolumeAt(v, a.high + 1) == 0.0) then a
    else Grow(v, target, Widen(v, a))
  }

  function FromPoc(v: seq<real>, target: real, p: int): (r: Area)
    requires 0 <= p < |v|
    ensures InRange(v, r) && r.low <= p <= r.high
  {
    Grow(v, target, Area(p, p, v[p]))
  }

  /** p is the first of the fullest bins; bin 0 when no bin is positive. */
  ghost predicate IsPoc(v: seq<real>, p: int) {
    && 0 <= p < |v|
    && (|| (v[p] > 0.0 && (forall i :: 0 <= i < |v| ==> v[i] <= v[p]) && forall i :: 0 <= i < p ==> v[i] < v[p])
        || (p == 0 && forall i :: 0 <= i < |v| ==> v[i] <= 0.0))
  }

  /** The volumes rise to p and fall after it. */
  ghost predicate Unimodal(v: seq<real>, p: int) {
    && (forall i, j :: 0 <= i <= j <= p && j < |v| ==> v[i] <= v[j])
    && (forall i, j :: p <= i <= j < |v| && 0 <= i ==> v[j] <= v[i])
  }

  /** Every bin inside the window is at least as full as every bin outside it. */
  ghost predicate Dominates(v: seq<real>, a: Area) {
    forall i, j :: 0 <= i < |v| && 0 <= j < |v| && a.low <= i <= a.high && !(a.low <= j <= a.high) ==> v[j] <= v[i]
  }

  /** The first bin of the run of non-empty bins that ends at p; p itself may be empty. */
  function ClusterLow(v: seq<real>, p: int): (low: int)
    requires 0 <= p < |v|
    ensures 0 <= low <= p && VolumeAt(v, low - 1) == 0.0
    ensures forall i :: low <= i < p ==> v[i] != 0.0
    decreases p
  {
    if VolumeAt(v, p - 1) == 0.0 then p else ClusterLow(v, p - 1)
  }

  /** The last bin of the run of non-empty bins that starts at p. */
  function ClusterHigh(v: seq<real>, p: int): (high: int)
    requires 0 <= p < |v|
    ensures p <= high < |v| && VolumeAt(v, high + 1) == 0.0
    ensures forall i :: p < i <= high ==> v[i] != 0.0
    decreases |v| - p
  {
    if VolumeAt(v, p + 1) == 0.0 then p else ClusterHigh(v, p + 1)
  }

  /** What the bins hold that lie around p without a gap. */
  function ClusterVolume(v: seq<real>, p: int): real
    requires 0 <= p < |v|
  {
    RangeSum(v, ClusterLow(v, p), ClusterHigh(v, p) + 1)
  }

  /** No set of fewer bins than the window holds reaches the target. */
  ghost predicate NoSmallerSet(v: seq<real>, target: real, a: Area) {
    forall s: set<int> :: (forall i :: i in s ==> 0 <= i < |v|) && |s| < a.high - a.low + 1 ==> Mass(v, s, |v|) < target
  }

  // ---------- the loop contract, for any volumes ----------

  lemma WidenAccumulates(v: seq<real>, a: Area, b: Area)
    requires InRange(v, a) && a.acc == RangeSum(v, a.low, a.high + 1)
    requires VolumeAt(v, a.low - 1) != 0.0 || VolumeAt(v, a.high + 1) != 0.0
    requires b == Widen(v, a)
    ensures b.acc == RangeSum(v, b.low, b.high + 1)
  {
    if b.low < a.low {
      RangeSumSplit(v, b.low, a.low, a.high + 1);
      assert RangeSum(v, b.low, a.low) == v[b.low] by { assert RangeSum(v, b.low, b.low) == 0.0; }
    }
  }

  lemma {:induction false} GrowExit(v: seq<real>, target: real, a: Area)
    requires InRange(v, a) && a.acc == RangeSum(v, a.low, a.high + 1)
    ensures var r := Grow(v, target, a);
            && r.acc == RangeSum(v, r.low, r.high + 1)
            && (r.acc >= target || (VolumeAt(v, r.low - 1) == 0.0 && VolumeAt(v, r.high + 1) == 0.0))
    decreases |v| - (a.high - a.low)
  {
    if a.acc < target && (VolumeAt(v, a.low - 1) != 0.0 || VolumeAt(v, a.high + 1) != 0.0) {
      var b := Widen(v, a);
      WidenAccumulates(v, a, b);
      GrowExit(v, target, b);
    }
  }

  /** The value area holds the volume of its bins, and stops below target only between two empty neighbours. */
  lemma ValueAreaContract(v: seq<real>, target: real, p: int)
    requires 0 <= p < |v|
    ensures var r := FromPoc(v, target, p);
            && r.acc == RangeSum(v, r.low, r.high + 1)
            && (r.acc >= target || (VolumeAt(v, r.low - 1) == 0.0 && VolumeAt(v, r.high + 1) == 0.0))
  {
    assert RangeSum(v, p, p) == 0.0;
    assert RangeSum(v, p, p + 1) == v[p];
    GrowExit(v, target, Area(p, p, v[p]));
  }

  /** The last branch of the expansion is reached exactly at the bottom bin with a negative bin above. */
  lemma LastBranchNeedsNegativeVolume(v: seq<real>, a: Area)
    requires InRange(v, a)
    requires VolumeAt(v, a.low - 1) != 0.0 || VolumeAt(v, a.high + 1) != 0.0
    ensures !(VolumeAt(v, a.high + 1) >= VolumeAt(v, a.low - 1) && a.high + 1 < |v|) && a.low - 1 < 0
       <==> a.low == 0 && a.high + 1 < |v| && v[a.high + 1] < 0.0
  {
  }

  // ---------- the order of growth, for any volumes ----------

  /** The bins low..high. */
  datatype Bins = Bins(low: int, high: int)

  /** b is a and one more bin: the fuller of the neighbours that exist, the upper one on a tie. */
  ghost predicate Takes(v: seq<real>, a: Bins, b: Bins) {
    && 0 <= a.low <= a.high < |v|
    && if b.low == a.low
       then b.high == a.high + 1 < |v| && (a.low > 0 ==> v[a.low - 1] <= v[a.high + 1])
       else b == Bins(a.low - 1, a.high) && a.low > 0 && (a.high + 1 < |v| ==> v[a.high + 1] < v[a.low - 1])
  }

  /** At a the expansion ends: the target is reached, or both neighbours are empty or absent. */
  ghost predicate Ends(v: seq<real>, target: real, a: Bins) {
    && 0 <= a.low <= a.high < |v|
    && (|| RangeSum(v, a.low, a.high + 1) >= target
        || ((a.low > 0 ==> v[a.low - 1] == 0.0) && (a.high + 1 < |v| ==> v[a.high + 1] == 0.0)))
  }

  /** The windows that a goes through, one bin at a time, up to the first at which the expansion ends. */
  ghost predicate IsChain(v: seq<real>, target: real, a: Bins, chain: seq<Bins>) {
    && chain != [] && chain[0] == a && Ends(v, target, chain[|chain| - 1])
    && forall k :: 0 <= k < |chain| - 1 ==> !Ends(v, target, chain[k]) && Takes(v, chain[k], chain[k + 1])
  }

  lemma ChainTail(v: seq<real>, target: real, a: Bins, chain: seq<Bins>)
    requires IsChain(v, target, a, chain) && |chain| > 1
    ensures IsChain(v, target, chain[1], chain[1..])
  {
    assert forall k :: 0 <= k < |chain| - 1 ==> chain[1..][k] == chain[k + 1];
  }

  lemma ChainHead(v: seq<real>, target: real, a: Bins, b: Bins, chain: seq<Bins>)
    requires IsChain(v, target, b, chain) && !Ends(v, target, a) && Takes(v, a, b)
    ensures IsChain(v, target, a, [a] + chain)
  {
    var all := [a] + chain;
    assert forall k :: 0 < k < |all| ==> all[k] == chain[k - 1];
  }

  /** A window has at most one chain. */
  lemma {:induction false} ChainIsUnique(v: seq<real>, target: real, a: Bins, chain: seq<Bins>, other: seq<Bins>)
    requires IsChain(v, target, a, chain) && IsChain(v, target, a, other)
    ensures chain == other
    decreases |chain|
  {
    assert |chain| > 1 ==> !Ends(v, target, chain[0]);
    assert |other| > 1 ==> !Ends(v, target, other[0]);
    if |chain| > 1 {
      assert Takes(v, chain[0], chain[1]) && Takes(v, other[0], other[1]);
      ChainTail(v, target, a, chain);
      ChainTail(v, target, a, other);
      ChainIsUnique(v, target, chain[1], chain[1..], other[1..]);
      assert chain == [a] + chain[1..] && other == [a] + other[1..];
    }
  }

  lemma {:induction false} GrowIsChain(v: seq<real>, target: real, a: Area) returns (chain: seq<Bins>)
    requires InRange(v, a) && a.acc == RangeSum(v, a.low, a.high + 1)
    ensures IsChain(v, target, Bins(a.low, a.high), chain)
    ensures var r := Grow(v, target, a);
            chain[|chain| - 1] == Bins(r.low, r.high) && |chain| == r.high - r.low - (a.high - a.low) + 1
    decreases |v| - (a.high - a.low)
  {
    if a.acc >= target || (VolumeAt(v, a.low - 1) == 0.0 && VolumeAt(v, a.high + 1) == 0.0) {
      chain := [Bins(a.low, a.high)];
    } else {
      var b := Widen(v, a);
      WidenAccumulates(v, a, b);
      chain := GrowIsChain(v, target, b);
      ChainHead(v, target, Bins(a.low, a.high), Bins(b.low, b.high), chain);
      chain := [Bins(a.low, a.high)] + chain;
    }
  }

  /** The expansion from the POC follows the one chain of windows in which each takes the fuller neighbour, and ends at
      its last; so it makes at most Bins - 1 expansions. */
  lemma ExpansionIsChain(v: seq<real>, target: real, p: int) returns (chain: seq<Bins>)
    requires 0 <= p < |v|
    ensures IsChain(v, target, Bins(p, p), chain) && 1 <= |chain| <= |v|
    ensures var r := FromPoc(v, target, p);
            && chain[|chain| - 1] == Bins(r.low, r.high)
            && r.acc == RangeSum(v, r.low, r.high + 1)
    ensures forall other :: IsChain(v, target, Bins(p, p), other) ==> other == chain
  {
    assert RangeSum(v, p, p) == 0.0;
    ValueAreaContract(v, target, p);
    chain := GrowIsChain(v, target, Area(p, p, v[p]));
    forall other | IsChain(v, target, Bins(p, p), other)
      ensures other == chain
    {
      ChainIsUnique(v, target, Bins(p, p), other, chain);
    }
  }

  // ---------- when 70% is reached ----------

  lemma {:induction false} GrowInCluster(v: seq<real>, target: real, a: Area, p: int)
    requires NonNegative(v) && 0 <= p < |v|
    requires InRange(v, a) && ClusterLow(v, p) <= a.low <= p <= a.high <= ClusterHigh(v, p)
    requires a.acc == RangeSum(v, a.low, a.high + 1)
    ensures var r := Grow(v, target, a);
            && ClusterLow(v, p) <= r.low && r.high <= ClusterHigh(v, p)
            && r.acc == RangeSum(v, r.low, r.high + 1)
            && (r.acc < target ==> r.low == ClusterLow(v, p) && r.high == ClusterHigh(v, p))
    decreases |v| - (a.high - a.low)
  {
    GrowExit(v, target, a);
    if a.acc < target && (VolumeAt(v, a.low - 1) != 0.0 || VolumeAt(v, a.high + 1) != 0.0) {
      var b := Widen(v, a);
      WidenAccumulates(v, a, b);
      GrowInCluster(v, target, b, p);
    }
  }

  /** The area reaches its target exactly when the bins that lie around the POC without a gap hold that much. */
  lemma TargetReachedIffClusterHoldsIt(v: seq<real>, target: real, p: int)
    requires NonNegative(v) && 0 <= p < |v|
    ensures FromPoc(v, target, p).acc >= target <==> ClusterVolume(v, p) >= target
  {
    assert RangeSum(v, p, p) == 0.0;
    GrowInCluster(v, target, Area(p, p, v[p]), p);
    var r, low, high := FromPoc(v, target, p), ClusterLow(v, p), ClusterHigh(v, p);
    RangeSumSplit(v, low, r.low, high + 1);
    RangeSumSplit(v, r.low, r.high + 1, high + 1);
    RangeSumNonNegative(v, low, r.low);
    RangeSumNonNegative(v, r.high + 1, high + 1);
  }

  // ---------- optimality for unimodal profiles ----------

  /** A dominating window has the largest volume among all sets of at most as many bins. */
  lemma DominatingWindowIsMaximal(v: seq<real>, a: Area, s: set<int>)
    requires InRange(v, a) && Dominates(v, a) && NonNegative(v)
    requires forall i :: i in s ==> 0 <= i < |v|
    requires |s| <= a.high - a.low + 1
    ensures Mass(v, s, |v|) <= RangeSum(v, a.low, a.high + 1)
  {
    var w := Window(a.low, a.high);
    var m := LeastIn(v, a.low, a.high);
    ExchangeBound(v, s, w, v[m], |v|);
    WindowMass(v, a.low, a.high, |v|);
    WindowCount(a.low, a.high, |v|);
    CountIsCardinality(s, |v|);
    TimesSigns(v[m], Count(s, |v|) - Count(w, |v|));
  }

  lemma {:induction false} LeastIn(v: seq<real>, lo: int, hi: int) returns (m: int)
    requires 0 <= lo <= hi < |v|
    ensures lo <= m <= hi && forall i :: lo <= i <= hi ==> v[m] <= v[i]
    decreases hi - lo
  {
    if lo == hi {
      m := lo;
    } else {
      m := LeastIn(v, lo, hi - 1);
      if v[hi] < v[m] {
        m := hi;
      }
    }
  }

  lemma WidenKeepsDomination(v: seq<real>, a: Area, p: int)
    requires InRange(v, a) && a.low <= p <= a.high && Unimodal(v, p) && NonNegative(v) && Dominates(v, a)
    requires VolumeAt(v, a.low - 1) != 0.0 || VolumeAt(v, a.high + 1) != 0.0
    ensures Dominates(v, Widen(v, a))
  {
    var b := Widen(v, a);
    forall i, j | 0 <= i < |v| && 0 <= j < |v| && b.low <= i <= b.high && !(b.low <= j <= b.high)
      ensures v[j] <= v[i]
    {
      if !(a.low <= i <= a.high) {
        if j < b.low {
          assert v[j] <= VolumeAt(v, a.low - 1);
        } else {
          assert v[j] <= VolumeAt(v, a.high + 1);
        }
      }
    }
  }

  lemma EmptyNeighboursHoldEverything(v: seq<real>, a: Area, p: int)
    requires InRange(v, a) && a.low <= p <= a.high && Unimodal(v, p) && NonNegative(v)
    requires VolumeAt(v, a.low - 1) == 0.0 && VolumeAt(v, a.high + 1) == 0.0
    ensures RangeSum(v, a.low, a.high + 1) == RangeSum(v, 0, |v|)
  {
    forall i | 0 <= i < |v| && !(a.low <= i <= a.high)
      ensures v[i] == 0.0
    {
      if i < a.low {
        assert v[i] <= v[a.low - 1];
      } else {
        assert v[i] <= v[a.high + 1];
      }
    }
    RangeSumSplit(v, 0, a.low, |v|);
    RangeSumSplit(v, a.low, a.high + 1, |v|);
    RangeSumZero(v, 0, a.low);
    RangeSumZero(v, a.high + 1, |v|);
  }

  lemma {:induction false} GrowIsOptimal(v: seq<real>, target: real, a: Area, p: int)
    requires NonNegative(v) && Unimodal(v, p) && target <= RangeSum(v, 0, |v|)
    requires InRange(v, a) && a.low <= p <= a.high && a.acc == RangeSum(v, a.low, a.high + 1)
    requires Dominates(v, a) && NoSmallerSet(v, target, a)
    ensures var r := Grow(v, target, a);
            r.acc >= target && Dominates(v, r) && NoSmallerSet(v, target, r)
    decreases |v| - (a.high - a.low)
  {
    if a.acc < target {
      if VolumeAt(v, a.low - 1) == 0.0 && VolumeAt(v, a.high + 1) == 0.0 {
        EmptyNeighboursHoldEverything(v, a, p);
        assert false;
      } else {
        var b := Widen(v, a);
        WidenKeepsDomination(v, a, p);
        WidenAccumulates(v, a, b);
        forall s: set<int> | (forall i :: i in s ==> 0 <= i < |v|) && |s| < b.high - b.low + 1
          ensures Mass(v, s, |v|) < target
        {
          DominatingWindowIsMaximal(v, a, s);
        }
        GrowIsOptimal(v, target, b, p);
      }
    }
  }

  /** For a unimodal profile the area reaches its target, holds the fullest bins, and no set of fewer bins would do. */
  lemma ValueAreaIsOptimal(v: seq<real>, target: real, p: int)
    requires NonNegative(v) && IsPoc(v, p) && Unimodal(v, p)
    requires 0.0 < target <= RangeSum(v, 0, |v|)
    ensures var r := FromPoc(v, target, p);
            && r.acc >= target
            && Dominates(v, r)
            && NoSmallerSet(v, target, r)
            && forall s: set<int> :: (forall i :: i in s ==> 0 <= i < |v|) && |s| <= r.high - r.low + 1 ==>
                 Mass(v, s, |v|) <= r.acc
  {
    var a := Area(p, p, v[p]);
    assert RangeSum(v, p, p) == 0.0;
    forall s: set<int> | (forall i :: i in s ==> 0 <= i < |v|) && |s| < 1
      ensures Mass(v, s, |v|) < target
    {
      EmptyMass(v, |v|);
      assert s == {};
    }
    GrowIsOptimal(v, target, a, p);
    ValueAreaContract(v, target, p);
    var r := FromPoc(v, target, p);
    forall s: set<int> | (forall i :: i in s ==> 0 <= i < |v|) && |s| <= r.high - r.low + 1
      ensures Mass(v, s, |v|) <= r.acc
    {
      DominatingWindowIsMaximal(v, r, s);
    }
  }

  lemma {:induction false} EmptyMass(v: seq<real>, n: nat)
    requires n <= |v|
    ensures Mass(v, {}, n) == 0.0
  {
    if n > 0 {
      EmptyMass(v, n - 1);
    }
  }

  // ---------- the loops ----------

  /** The scan for the fullest bin. */
  method FindPoc(v: array<real>) returns (pocBin: int)
    requires v.Length > 0
    ensures IsPoc(v[..], pocBin)
  {
    var maxVol := 0.0;
    pocBin := 0;
    for i := 0 to v.Length
      invariant maxVol >= 0.0 && 0 <= pocBin < v.Length
      invariant maxVol == 0.0 ==> pocBin == 0
      invariant maxVol > 0.0 ==> pocBin < i && v[pocBin] == maxVol && forall j :: 0 <= j < pocBin ==> v[j] < maxVol
      invariant forall j :: 0 <= j < i ==> v[j] <= maxVol
    {
      if v[i] > maxVol {
        maxVol, pocBin := v[i], i;
      }
    }
  }

  /** The expansion loop, with its three branches as written. */
  method Expand(v: array<real>, pocBin: int, target: real) returns (lowBin: int, highBin: int, acc: real)
    requires 0 <= pocBin < v.Length
    ensures Area(lowBin, highBin, acc) == FromPoc(v[..], target, pocBin)
  {
    acc := v[pocBin];
    lowBin, highBin := pocBin, pocBin;
    while acc < target
      invariant 0 <= lowBin <= highBin < v.Length
      invariant Grow(v[..], target, Area(lowBin, highBin, acc)) == FromPoc(v[..], target, pocBin)
      decreases v.Length - (highBin - lowBin)
    {
      var expandLow, expandHigh := lowBin - 1, highBin + 1;
      var lowVol, highVol := 0.0, 0.0;
      if expandLow >= 0 {
        lowVol := v[expandLow];
      }
      if expandHigh < v.Length {
        highVol := v[expandHigh];
      }
      if lowVol == 0.0 && highVol == 0.0 {
        break;
      }
      if highVol >= lowVol && expandHigh < v.Length {
        highBin := expandHigh;
        acc := acc + highVol;
      } else if expandLow >= 0 {
        lowBin := expandLow;
        acc := acc + lowVol;
      } else if expandHigh < v.Length {
        LastBranchNeedsNegativeVolume(v[..], Area(lowBin, highBin, acc));
        assert !NonNegative(v[..]);  // so the branch is dead for volumes
        highBin := expandHigh;
        acc := acc + highVol;
      }
    }
  }
}
