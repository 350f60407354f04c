/** The volume profile of a run of candles. int(x) of a float64 is truncation towards zero. */
module VolumeProfile {
  import opened Types
  import opened RealSums
  import opened ValueArea

  /** The price bins: `bins` equal parts of min..max. */
  datatype Grid = Grid(min: real, max: real, bins: int) {
    ghost predicate Valid() {
      min != max && bins > 0
    }

    function Width(): (w: real)
      requires Valid()
      ensures w != 0.0
    {
      (max - min) / bins as real
    }
  }

  function Truncate(x: real): int {
    if x >= 0.0 then x.Floor else -((-x).Floor)
  }

  function StartBin(g: Grid, b: Candle): int
    requires g.Valid()
  {
    var s := Truncate((b.low - g.min) / g.Width());
    if s < 0 then 0 else s
  }

  function EndBin(g: Grid, b: Candle): int
    requires g.Valid()
  {
    var e := Truncate((b.high - g.min) / g.Width());
    if e >= g.bins then g.bins - 1 else e
  }

  /** What bar b contributes to bin i: its volume is split evenly over the bins it spans. */
  function Share(g: Grid, b: Candle, i: int): real
    requires g.Valid()
  {
    if StartBin(g, b) <= i <= EndBin(g, b) then b.volume / (EndBin(g, b) - StartBin(g, b) + 1) as real else 0.0
  }

  /** The volume that the bars of c put into bin i. */
  function BinVolume(g: Grid, c: seq<Candle>, i: int): real
    requires g.Valid()
  {
    if c == [] then 0.0 else BinVolume(g, c[..|c| - 1], i) + Share(g, c[|c| - 1], i)
  }

  function Profile(g: Grid, c: seq<Candle>): (v: seq<real>)
    requires g.Valid()
    ensures |v| == g.bins
  {
    seq(g.bins, i => BinVolume(g, c, i))
  }

  ghost predicate IsMin(c: seq<Candle>, m: real) {
    (exists k :: 0 <= k < |c| && c[k].low == m) && forall k :: 0 <= k < |c| ==> m <= c[k].low
  }

  ghost predicate IsMax(c: seq<Candle>, m: real) {
    (exists k :: 0 <= k < |c| && c[k].high == m) && forall k :: 0 <= k < |c| ==> c[k].high <= m
  }

  ghost predicate IsGrid(g: Grid, c: seq<Candle>) {
    IsMin(c, g.min) && IsMax(c, g.max)
  }

  ghost predicate Ordered(c: seq<Candle>) {
    forall k :: 0 <= k < |c| ==> c[k].low <= c[k].high
  }

  ghost predicate VolumesNonNegative(c: seq<Candle>) {
    forall k :: 0 <= k < |c| ==> c[k].volume >= 0.0
  }

  /** POC, value area high and value area low, read off the bins v of width w that start at price min. */
  ghost predicate ReadAt(v: seq<real>, min: real, w: real, poc: real, vah: real, val: real) {
    exists p :: IsPoc(v, p) && LevelsOf(FromPoc(v, RangeSum(v, 0, |v|) * 0.70, p), p, min, w, poc, vah, val)
  }

  ghost predicate LevelsOf(a: Area, p: int, min: real, w: real, poc: real, vah: real, val: real) {
    && poc == Price(min, w, p as real + 0.5)
    && val == Price(min, w, a.low as real)
    && vah == Price(min, w, (a.high + 1) as real)
  }

  /** The price k bins above min. */
  function Price(min: real, w: real, k: real): real {
    min + k * w
  }

  ghost predicate IsReading(g: Grid, c: seq<Candle>, poc: real, vah: real, val: real)
    requires g.Valid()
  {
    ReadAt(Profile(g, c), g.min, g.Width(), poc, vah, val)
  }

  // ---------- which bins a bar spans ----------

  function Volume(c: seq<Candle>): real {
    if c == [] then 0.0 else Volume(c[..|c| - 1]) + c[|c| - 1].volume
  }

  /** The bars that lie entirely at the top price. */
  function AtTop(g: Grid, c: seq<Candle>): seq<Candle> {
    if c == [] then [] else AtTop(g, c[..|c| - 1]) + if c[|c| - 1].low == g.max then [c[|c| - 1]] else []
  }

  lemma QuotientMonotone(x: real, y: real, w: real)
    requires w > 0.0
    ensures x <= y ==> x / w <= y / w
    ensures x < y ==> x / w < y / w
    ensures x >= 0.0 ==> x / w >= 0.0
  {
    assert x / w * w == x && y / w * w == y;
    if x / w > y / w {
      assert (x / w - y / w) * w > 0.0;
    }
  }

  lemma WholeRange(g: Grid)
    requires g.Valid() && g.min < g.max
    ensures g.Width() > 0.0 && (g.max - g.min) / g.Width() == g.bins as real
    ensures Price(g.min, g.Width(), g.bins as real) == g.max
  {
    var r, n := g.max - g.min, g.bins as real;
    assert r / n * n == r;
    assert g.Width() > 0.0;
    assert r / g.Width() * g.Width() == r;
    assert (r / g.Width() - n) * g.Width() == 0.0;
  }

  /** A bar spans at least one bin, unless it lies entirely at the top price. */
  lemma SpanIsEmptyOnlyAtTop(g: Grid, b: Candle)
    requires g.Valid() && g.min < g.max && g.min <= b.low <= b.high <= g.max
    ensures 0 <= StartBin(g, b)
    ensures EndBin(g, b) < g.bins
    ensures StartBin(g, b) <= EndBin(g, b) <==> b.low < g.max
  {
    WholeRange(g);
    var w := g.Width();
    QuotientMonotone(b.low - g.min, b.high - g.min, w);
    QuotientMonotone(b.low - g.min, g.max - g.min, w);
    QuotientMonotone(b.high - g.min, g.max - g.min, w);
  }

  // ---------- how a bar is spread ----------

  /** Bar b and the price interval of bin i, which is open at its upper end, have a price in common. */
  ghost predicate Meets(g: Grid, b: Candle, i: int)
    requires g.Valid()
  {
    Price(g.min, g.Width(), i as real) <= b.high && b.low < Price(g.min, g.Width(), (i + 1) as real)
  }

  /** The bins that bar b meets. */
  ghost function MetBins(g: Grid, b: Candle): set<int>
    requires g.Valid()
  {
    set i | 0 <= i < g.bins && Meets(g, b, i)
  }

  /** What bar b is worth to bin i: its volume is shared equally by the bins that it meets. */
  ghost function Worth(g: Grid, b: Candle, i: int): real
    requires g.Valid()
  {
    if i in MetBins(g, b) then b.volume / |MetBins(g, b)| as real else 0.0
  }

  lemma ProductOrder(x: real, y: real, w: real)
    requires w > 0.0
    ensures x * w <= y * w <==> x <= y
  {
    if x <= y {
      assert (y - x) * w >= 0.0;
    } else {
      assert (x - y) * w > 0.0;
    }
  }

  lemma PriceAtLeast(min: real, w: real, x: real, i: int)
    requires w > 0.0
    ensures Price(min, w, i as real) <= x <==> i as real <= (x - min) / w
  {
    var q := (x - min) / w;
    assert q * w == x - min;
    ProductOrder(i as real, q, w);
  }

  /** A bin is met exactly if it lies between the start and the end bin. */
  lemma MetIsSpanned(g: Grid, b: Candle, i: int)
    requires g.Valid() && g.min < g.max && g.min <= b.low && g.min <= b.high <= g.max && 0 <= i < g.bins
    ensures Meets(g, b, i) <==> StartBin(g, b) <= i <= EndBin(g, b)
  {
    WholeRange(g);
    var w := g.Width();
    QuotientMonotone(b.low - g.min, b.low - g.min, w);
    QuotientMonotone(b.high - g.min, b.high - g.min, w);
    PriceAtLeast(g.min, w, b.high, i);
    PriceAtLeast(g.min, w, b.low, i + 1);
  }

  lemma {:induction false} RangeSize(lo: int, hi: int, s: set<int>)
    requires lo <= hi + 1 && forall i :: i in s <==> lo <= i <= hi
    ensures |s| == hi + 1 - lo
    decreases hi + 1 - lo
  {
    if lo <= hi {
      RangeSize(lo, hi - 1, s - {hi});
      assert s == (s - {hi}) + {hi};
    } else {
      assert forall i :: i !in s;
    }
  }

  lemma SpanBounds(g: Grid, b: Candle)
    requires g.Valid() && g.min < g.max && g.min <= b.low && g.min <= b.high <= g.max
    ensures 0 <= StartBin(g, b) && EndBin(g, b) < g.bins
  {
  }

  /** Every bin gets from a bar in the range what the bar is worth to it. */
  lemma ShareIsWorth(g: Grid, b: Candle, i: int)
    requires g.Valid() && g.min < g.max && g.min <= b.low && g.min <= b.high <= g.max && 0 <= i < g.bins
    ensures Share(g, b, i) == Worth(g, b, i)
  {
    var lo, hi := StartBin(g, b), EndBin(g, b);
    forall k | 0 <= k < g.bins
      ensures k in MetBins(g, b) <==> lo <= k <= hi
    {
      MetIsSpanned(g, b, k);
    }
    SpanBounds(g, b);
    if lo <= i <= hi {
      RangeSize(lo, hi, MetBins(g, b));
    }
  }

  /** The bars of c in the range of g. */
  ghost predicate InGrid(g: Grid, c: seq<Candle>) {
    forall k :: 0 <= k < |c| ==> g.min <= c[k].low && g.min <= c[k].high <= g.max
  }

  /** What the bars of c are worth to bin i in all. */
  ghost function TotalWorth(g: Grid, c: seq<Candle>, i: int): real
    requires g.Valid()
  {
    if c == [] then 0.0 else Worth(g, c[0], i) + TotalWorth(g, c[1..], i)
  }

  lemma {:induction false} TotalWorthAppend(g: Grid, c: seq<Candle>, b: Candle, i: int)
    requires g.Valid()
    ensures TotalWorth(g, c + [b], i) == TotalWorth(g, c, i) + Worth(g, b, i)
    decreases |c|
  {
    if c == [] {
      assert c + [b] == [b] && [b][1..] == [];
    } else {
      TotalWorthAppend(g, c[1..], b, i);
      assert (c + [b])[1..] == c[1..] + [b];
    }
  }

  /** The profile in prices: each bar's volume is shared equally by the bins that it meets. */
  lemma {:induction false} ProfileIsWorth(g: Grid, c: seq<Candle>, i: int)
    requires g.Valid() && g.min < g.max && InGrid(g, c) && 0 <= i < g.bins
    ensures Profile(g, c)[i] == TotalWorth(g, c, i)
    decreases |c|
  {
    if c != [] {
      var d, b := c[..|c| - 1], c[|c| - 1];
      assert c == d + [b];
      ProfileIsWorth(g, d, i);
      ShareIsWorth(g, b, i);
      TotalWorthAppend(g, d, b, i);
    }
  }

  // ---------- what is lost ----------

  function Shares(g: Grid, b: Candle): (v: seq<real>)
    requires g.Valid()
    ensures |v| == g.bins
  {
    seq(g.bins, i => Share(g, b, i))
  }

  /** How many of the first n bins lie between lo and hi. */
  function Spanned(lo: int, hi: int, n: int): int {
    if n <= lo then 0 else if n <= hi then n - lo else hi + 1 - lo
  }

  lemma {:induction false} EvenSum(v: seq<real>, lo: int, hi: int, x: real, n: int)
    requires 0 <= n <= |v| && 0 <= lo <= hi
    requires forall i :: 0 <= i < |v| ==> v[i] == if lo <= i <= hi then x else 0.0
    ensures RangeSum(v, 0, n) == Times(x, Spanned(lo, hi, n))
    decreases n
  {
    TimesSigns(x, 0);
    hide Times;
    if n > 0 {
      EvenSum(v, lo, hi, x, n - 1);
      TimesNext(x, Spanned(lo, hi, n - 1));
    }
  }

  lemma TimesNext(x: real, d: int)
    ensures Times(x, d + 1) == Times(x, d) + x
  {
  }

  lemma EvenParts(x: real, n: int)
    requires n > 0
    ensures Times(x / n as real, n) == x
  {
  }

  /** A bar gives the bins exactly its volume, or nothing if it lies entirely at the top price. */
  lemma SharesAddUp(g: Grid, b: Candle)
    requires g.Valid() && g.min < g.max && g.min <= b.low <= b.high <= g.max
    ensures RangeSum(Shares(g, b), 0, g.bins) == if b.low < g.max then b.volume else 0.0
  {
    SpanIsEmptyOnlyAtTop(g, b);
    hide StartBin, EndBin, Times, RangeSum;
    var lo, hi := StartBin(g, b), EndBin(g, b);
    if lo <= hi {
      EvenSum(Shares(g, b), lo, hi, b.volume / (hi - lo + 1) as real, g.bins);
      EvenParts(b.volume, hi - lo + 1);
    } else {
      RangeSumZero(Shares(g, b), 0, g.bins);
    }
  }

  lemma {:induction false} ProfileStep(g: Grid, c: seq<Candle>, b: Candle, n: int)
    requires g.Valid() && 0 <= n <= g.bins
    ensures RangeSum(Profile(g, c + [b]), 0, n) == RangeSum(Profile(g, c), 0, n) + RangeSum(Shares(g, b), 0, n)
    decreases n
  {
    if n > 0 {
      ProfileStep(g, c, b, n - 1);
      assert (c + [b])[..|c|] == c;
    }
  }

  lemma AppendVolume(g: Grid, c: seq<Candle>, b: Candle)
    ensures Volume(c + [b]) == Volume(c) + b.volume
    ensures Volume(AtTop(g, c + [b])) == Volume(AtTop(g, c)) + if b.low == g.max then b.volume else 0.0
  {
    assert (c + [b])[..|c|] == c;
    var t := AtTop(g, c);
    assert (t + [b])[..|t|] == t;
    assert t + [] == t;
  }

  /** All volume lands in the bins, except that of the bars lying entirely at the top price. */
  lemma {:induction false} VolumeConserved(g: Grid, c: seq<Candle>)
    requires g.Valid() && g.min < g.max && Ordered(c)
    requires forall k :: 0 <= k < |c| ==> g.min <= c[k].low && c[k].high <= g.max
    ensures RangeSum(Profile(g, c), 0, g.bins) == Volume(c) - Volume(AtTop(g, c))
    ensures RangeSum(Profile(g, c), 0, g.bins) == Volume(c) <==> Volume(AtTop(g, c)) == 0.0
    decreases |c|
  {
    if c == [] {
      RangeSumZero(Profile(g, c), 0, g.bins);
    } else {
      var d, b := c[..|c| - 1], c[|c| - 1];
      assert c == d + [b];
      VolumeConserved(g, d);
      ProfileStep(g, d, b, g.bins);
      SharesAddUp(g, b);
      AppendVolume(g, d, b);
    }
  }

  /** A bar over the whole range and a flat one at its top. */
  function FlatTopCandles(): seq<Candle> {
    [Candle(0, 1.0, 1.0, 0.0, 1.0, 3.0), Candle(1, 1.0, 1.0, 1.0, 1.0, 5.0)]
  }

  /** The flat bar starts one bin beyond the last, and its volume is lost. */
  lemma FlatTopBarIsDropped()
    ensures var g, c := Grid(0.0, 1.0, 2), FlatTopCandles();
            && IsGrid(g, c) && Ordered(c)
            && StartBin(g, c[1]) == 2 && EndBin(g, c[1]) == 1
            && Volume(c) == 8.0 && RangeSum(Profile(g, c), 0, 2) == 3.0
  {
    var g, c := Grid(0.0, 1.0, 2), FlatTopCandles();
    assert IsGrid(g, c) && Ordered(c) by {
      assert c[0].low == 0.0 && c[0].high == 1.0;
    }
    FlatTopVolumes(g, c);
    FlatTopBins(g, c[1]);
    hide Profile, RangeSum, Volume, AtTop, StartBin, EndBin;
    VolumeConserved(g, c);
  }

  lemma FlatTopBins(g: Grid, b: Candle)
    requires g == Grid(0.0, 1.0, 2) && b.low == b.high == 1.0
    ensures StartBin(g, b) == 2 && EndBin(g, b) == 1
  {
    assert g.Width() == 0.5 && 1.0 / 0.5 == 2.0;
  }

  lemma FlatTopVolumes(g: Grid, c: seq<Candle>)
    requires g.max == 1.0 && c == FlatTopCandles()
    ensures Volume(c) == 8.0 && Volume(AtTop(g, c)) == 5.0
  {
    assert c[..1] == [c[0]] && c[..1][..0] == [];
    assert AtTop(g, c[..1]) == [];
    assert AtTop(g, c) == [c[1]];
    assert [c[1]][..0] == [];
  }

  lemma {:induction false} BinVolumeNonNegative(g: Grid, c: seq<Candle>, i: int)
    requires g.Valid() && VolumesNonNegative(c)
    ensures BinVolume(g, c, i) >= 0.0
    decreases |c|
  {
    if c != [] {
      BinVolumeNonNegative(g, c[..|c| - 1], i);
      var b := c[|c| - 1];
      if StartBin(g, b) <= i <= EndBin(g, b) {
        QuotientMonotone(b.volume, b.volume, (EndBin(g, b) - StartBin(g, b) + 1) as real);
      }
    }
  }

  // ---------- what a reading means ----------

  /** Bars with low <= high span an increasing price range. */
  lemma OrderedBarsSpanUpwards(g: Grid, c: seq<Candle>)
    requires IsGrid(g, c) && Ordered(c)
    ensures g.min <= g.max
    ensures forall k :: 0 <= k < |c| ==> g.min <= c[k].low && c[k].high <= g.max
  {
    var k :| 0 <= k < |c| && c[k].low == g.min;
    assert c[k].low <= c[k].high <= g.max;
  }

  lemma PriceMonotone(min: real, w: real, i: real, j: real)
    requires w > 0.0
    ensures Price(min, w, 0.0) == min
    ensures i <= j ==> Price(min, w, i) <= Price(min, w, j)
    ensures i < j ==> Price(min, w, i) < Price(min, w, j)
  {
  }

  lemma LevelsOrdered(a: Area, p: int, bins: int, min: real, max: real, w: real, poc: real, vah: real, val: real)
    requires w > 0.0 && Price(min, w, bins as real) == max
    requires 0 <= a.low <= p <= a.high < bins
    requires LevelsOf(a, p, min, w, poc, vah, val)
    ensures min <= val < poc < vah <= max
  {
    PriceMonotone(min, w, 0.0, a.low as real);
    PriceMonotone(min, w, a.low as real, p as real + 0.5);
    PriceMonotone(min, w, p as real + 0.5, (a.high + 1) as real);
    PriceMonotone(min, w, (a.high + 1) as real, bins as real);
  }

  /** Where edge k of the bins lies: k of `bins` equal parts above min. */
  ghost predicate IsEdge(g: Grid, k: int, price: real) {
    (price - g.min) * g.bins as real == k as real * (g.max - g.min)
  }

  lemma PriceIsEdge(g: Grid, k: int)
    requires g.Valid()
    ensures IsEdge(g, k, Price(g.min, g.Width(), k as real))
  {
    var r, n := g.max - g.min, g.bins as real;
    assert r / n * n == r;
  }

  lemma MiddlePrice(min: real, w: real, p: int)
    ensures Price(min, w, p as real + 0.5) - Price(min, w, p as real)
            == Price(min, w, (p + 1) as real) - Price(min, w, p as real + 0.5)
  {
    var x := p as real;
    assert (p + 1) as real == x + 1.0;
    assert (x + 0.5) * w == x * w + 0.5 * w && (x + 1.0) * w == x * w + w;
  }

  lemma LevelsAreEdges(g: Grid, a: Area, p: int, poc: real, vah: real, val: real)
    requires g.Valid() && LevelsOf(a, p, g.min, g.Width(), poc, vah, val)
    ensures var edge, next := Price(g.min, g.Width(), p as real), Price(g.min, g.Width(), (p + 1) as real);
            IsEdge(g, p, edge) && IsEdge(g, p + 1, next) && poc - edge == next - poc
    ensures IsEdge(g, a.low, val) && IsEdge(g, a.high + 1, vah)
  {
    PriceIsEdge(g, p);
    PriceIsEdge(g, p + 1);
    PriceIsEdge(g, a.low);
    PriceIsEdge(g, a.high + 1);
    hide IsEdge, Grid.Width;
    MiddlePrice(g.min, g.Width(), p);
  }

  /** The three prices: poc is the middle of the first of the fullest bins, val the lower edge of the first bin and vah
      the upper edge of the last bin of the one chain that grows from there, by the fuller neighbour each time, to 70%
      of the volume. */
  lemma ReadingIsExpansion(g: Grid, c: seq<Candle>, poc: real, vah: real, val: real)
    returns (p: int, chain: seq<Bins>, edge: real, next: real)
    requires g.Valid() && IsReading(g, c, poc, vah, val)
    ensures var v := Profile(g, c);
            IsPoc(v, p) && IsChain(v, RangeSum(v, 0, |v|) * 0.70, Bins(p, p), chain)
    ensures IsEdge(g, p, edge) && IsEdge(g, p + 1, next) && poc - edge == next - poc
    ensures IsEdge(g, chain[|chain| - 1].low, val) && IsEdge(g, chain[|chain| - 1].high + 1, vah)
  {
    var v, w := Profile(g, c), g.Width();
    var target := RangeSum(v, 0, |v|) * 0.70;
    p :| IsPoc(v, p) && LevelsOf(FromPoc(v, target, p), p, g.min, w, poc, vah, val);
    chain := ExpansionIsChain(v, target, p);
    edge, next := Price(g.min, w, p as real), Price(g.min, w, (p + 1) as real);
    hide Profile, FromPoc, IsPoc, RangeSum, IsChain, IsEdge, Grid.Width, LevelsOf, Price;
    LevelsAreEdges(g, FromPoc(v, target, p), p, poc, vah, val);
  }

  /** The three prices are ordered and inside the price range. */
  lemma ReadingInsideRange(g: Grid, c: seq<Candle>, poc: real, vah: real, val: real)
    requires g.Valid() && g.min < g.max && IsReading(g, c, poc, vah, val)
    ensures g.min <= val < poc < vah <= g.max
  {
    var w := g.Width();
    assert w > 0.0 && Price(g.min, w, g.bins as real) == g.max by { WholeRange(g); }
    var v := Profile(g, c);
    var target := RangeSum(v, 0, |v|) * 0.70;
    var p :| IsPoc(v, p) && LevelsOf(FromPoc(v, target, p), p, g.min, w, poc, vah, val);
    LevelsOrdered(FromPoc(v, target, p), p, g.bins, g.min, g.max, w, poc, vah, val);
  }

  /** For non-negative volumes whose profile rises to its POC and falls after it, val..vah spans the fewest bins that
      hold 70%. */
  lemma ReadingIsOptimal(g: Grid, c: seq<Candle>, poc: real, vah: real, val: real)
    requires g.Valid() && IsReading(g, c, poc, vah, val)
    requires VolumesNonNegative(c) && RangeSum(Profile(g, c), 0, g.bins) > 0.0
    requires forall p :: IsPoc(Profile(g, c), p) ==> Unimodal(Profile(g, c), p)
    ensures var v := Profile(g, c);
            exists p, a ::
              && IsPoc(v, p) && InRange(v, a) && LevelsOf(a, p, g.min, g.Width(), poc, vah, val)
              && RangeSum(v, a.low, a.high + 1) >= RangeSum(v, 0, |v|) * 0.70
              && Dominates(v, a)
              && NoSmallerSet(v, RangeSum(v, 0, |v|) * 0.70, a)
  {
    var v := Profile(g, c);
    var target := RangeSum(v, 0, |v|) * 0.70;
    forall i | 0 <= i < |v|
      ensures v[i] >= 0.0
    {
      BinVolumeNonNegative(g, c, i);
    }
    var p :| IsPoc(v, p) && LevelsOf(FromPoc(v, target, p), p, g.min, g.Width(), poc, vah, val);
    ValueAreaIsOptimal(v, target, p);
    ValueAreaContract(v, target, p);
  }

  /** Ordered candles of different prices: the reading is ordered inside their range, and the bins hold all volume but
      that at the top price. */
  lemma OrderedCandlesReading(g: Grid, c: seq<Candle>, poc: real, vah: real, val: real)
    requires g.Valid() && IsGrid(g, c) && Ordered(c) && IsReading(g, c, poc, vah, val)
    ensures g.min <= val < poc < vah <= g.max
    ensures RangeSum(Profile(g, c), 0, g.bins) == Volume(c) - Volume(AtTop(g, c))
    ensures RangeSum(Profile(g, c), 0, g.bins) == Volume(c) <==> Volume(AtTop(g, c)) == 0.0
  {
    OrderedBarsSpanUpwards(g, c);
    ReadingInsideRange(g, c, poc, vah, val);
    VolumeConserved(g, c);
  }

  // ---------- when the reading holds 70% ----------

  /** The bins from val up to vah hold as much as asked for. */
  ghost predicate Reaches(g: Grid, c: seq<Candle>, vah: real, val: real)
    requires g.Valid()
  {
    var v := Profile(g, c);
    exists lo, hi ::
      && 0 <= lo < hi <= |v|
      && val == Price(g.min, g.Width(), lo as real) && vah == Price(g.min, g.Width(), hi as real)
      && RangeSum(v, lo, hi) >= RangeSum(v, 0, |v|) * 0.70
  }

  lemma PriceInjective(min: real, w: real, i: int, j: int)
    requires w != 0.0 && Price(min, w, i as real) == Price(min, w, j as real)
    ensures i == j
  {
    assert (i - j) as real * w == 0.0;
  }

  /** val..vah holds 70% of the volume exactly if the bins that lie around the POC without a gap do. */
  lemma ReadingReachesIffClusterDoes(g: Grid, c: seq<Candle>, poc: real, vah: real, val: real) returns (p: int)
    requires g.Valid() && IsReading(g, c, poc, vah, val) && VolumesNonNegative(c)
    ensures IsPoc(Profile(g, c), p)
    ensures Reaches(g, c, vah, val) <==> ClusterVolume(Profile(g, c), p) >= RangeSum(Profile(g, c), 0, g.bins) * 0.70
    ensures RangeSum(Profile(g, c), 0, g.bins) == 0.0 ==> Reaches(g, c, vah, val)
  {
    var v := Profile(g, c);
    var target := RangeSum(v, 0, |v|) * 0.70;
    forall i | 0 <= i < |v|
      ensures v[i] >= 0.0
    {
      BinVolumeNonNegative(g, c, i);
    }
    p :| IsPoc(v, p) && LevelsOf(FromPoc(v, target, p), p, g.min, g.Width(), poc, vah, val);
    TargetReachedIffClusterHoldsIt(v, target, p);
    ValueAreaContract(v, target, p);
    RangeSumNonNegative(v, ClusterLow(v, p), ClusterHigh(v, p) + 1);
    hide Profile, FromPoc, ClusterVolume, IsPoc;
    WindowOfLevels(g, c, p, FromPoc(v, target, p), poc, vah, val);
  }

  /** The levels determine the window. */
  lemma WindowOfLevels(g: Grid, c: seq<Candle>, p: int, a: Area, poc: real, vah: real, val: real)
    requires g.Valid() && InRange(Profile(g, c), a) && LevelsOf(a, p, g.min, g.Width(), poc, vah, val)
    ensures var v := Profile(g, c);
            Reaches(g, c, vah, val) <==> RangeSum(v, a.low, a.high + 1) >= RangeSum(v, 0, |v|) * 0.70
  {
    var v := Profile(g, c);
    hide Profile, Price, Grid.Width;
    if Reaches(g, c, vah, val) {
      var lo, hi :|
        && 0 <= lo < hi <= |v|
        && val == Price(g.min, g.Width(), lo as real) && vah == Price(g.min, g.Width(), hi as real)
        && RangeSum(v, lo, hi) >= RangeSum(v, 0, |v|) * 0.70;
      PriceInjective(g.min, g.Width(), lo, a.low);
      PriceInjective(g.min, g.Width(), hi, a.high + 1);
    }
  }

  /** Three candles with a price gap between the first and the others. */
  function GapCandles(): seq<Candle> {
    [Candle(0, 0.0, 0.5, 0.0, 0.5, 4.0), Candle(1, 2.0, 2.5, 2.0, 2.5, 3.0), Candle(2, 3.5, 4.0, 3.5, 4.0, 3.0)]
  }

  /** For them the value area ends at 40% of the volume. */
  lemma GapStopsBelowTarget()
    ensures var g, c := Grid(0.0, 4.0, 4), GapCandles();
            && IsGrid(g, c) && Ordered(c) && VolumesNonNegative(c)
            && Profile(g, c) == [4.0, 0.0, 3.0, 3.0] && RangeSum(Profile(g, c), 0, 4) == 10.0
            && IsReading(g, c, 0.5, 1.0, 0.0) && !Reaches(g, c, 1.0, 0.0)
  {
    var c, g, v := GapCandles(), Grid(0.0, 4.0, 4), [4.0, 0.0, 3.0, 3.0];
    assert IsGrid(g, c) && Ordered(c) && VolumesNonNegative(c) by {
      assert c[0].low == 0.0 && c[2].high == 4.0;
    }
    assert g.Width() == 1.0;
    assert Profile(g, c) == v by { GapProfile(g, c); }
    hide Profile, FromPoc, RangeSum, ClusterVolume, IsPoc, VolumesNonNegative, GapCandles;
    GapArea(v);
    var p := ReadingReachesIffClusterDoes(g, c, 0.5, 1.0, 0.0);
  }

  lemma GapProfile(g: Grid, c: seq<Candle>)
    requires g == Grid(0.0, 4.0, 4)
    requires c == GapCandles()
    ensures Profile(g, c) == [4.0, 0.0, 3.0, 3.0]
  {
    assert g.Width() == 1.0;
    assert c[..2][..1] == c[..1] && c[..1][..0] == [];
    forall i | 0 <= i < 4
      ensures BinVolume(g, c, i) == [4.0, 0.0, 3.0, 3.0][i]
    {
      assert BinVolume(g, c, i) == BinVolume(g, c[..2], i) + Share(g, c[2], i);
      assert BinVolume(g, c[..2], i) == BinVolume(g, c[..1], i) + Share(g, c[1], i);
      assert BinVolume(g, c[..1], i) == BinVolume(g, [], i) + Share(g, c[0], i);
    }
  }

  lemma GapArea(v: seq<real>)
    requires v == [4.0, 0.0, 3.0, 3.0]
    ensures RangeSum(v, 0, 4) == 10.0 && ReadAt(v, 0.0, 1.0, 0.5, 1.0, 0.0)
    ensures (forall p :: IsPoc(v, p) ==> p == 0) && ClusterVolume(v, 0) == 4.0
  {
    assert RangeSum(v, 0, 1) == 4.0;
    assert RangeSum(v, 0, 2) == 4.0;
    assert RangeSum(v, 0, 3) == 7.0;
    assert FromPoc(v, 7.0, 0) == Area(0, 0, 4.0);
    assert IsPoc(v, 0) && LevelsOf(FromPoc(v, RangeSum(v, 0, 4) * 0.70, 0), 0, 0.0, 1.0, 0.5, 1.0, 0.0);
  }

  // ---------- the computation ----------

  method PriceRange(c: seq<Candle>) returns (minPrice: real, maxPrice: real)
    requires c != []
    ensures IsMin(c, minPrice) && IsMax(c, maxPrice)
  {
    minPrice, maxPrice := c[0].low, c[0].high;
    for k := 0 to |c|
      invariant exists j :: 0 <= j < |c| && c[j].low == minPrice
      invariant exists j :: 0 <= j < |c| && c[j].high == maxPrice
      invariant forall j :: 0 <= j < k ==> minPrice <= c[j].low && c[j].high <= maxPrice
    {
      var b := c[k];
      if b.low < minPrice {
        minPrice := b.low;
      }
      if b.high > maxPrice {
        maxPrice := b.high;
      }
    }
  }

  /** The body of the loop over the bars: spreads one bar over its bins in place. */
  method AddBar(ghost g: Grid, b: Candle, volAt: array<real>, total0: real, minPrice: real, binSize: real)
    returns (total: real)
    requires g.Valid() && volAt.Length == g.bins && minPrice == g.min && binSize == g.Width()
    requires total0 == RangeSum(volAt[..], 0, volAt.Length)
    modifies volAt
    ensures forall i :: 0 <= i < volAt.Length ==> volAt[i] == old(volAt[i]) + Share(g, b, i)
    ensures total == RangeSum(volAt[..], 0, volAt.Length)
  {
    total := total0;
    var startBin := Truncate((b.low - minPrice) / binSize);
    var endBin := Truncate((b.high - minPrice) / binSize);
    if startBin < 0 {
      startBin := 0;
    }
    if endBin >= volAt.Length {
      endBin := volAt.Length - 1;
    }
    // The quotient is infinite or unused when no bin is spanned.
    var volPer := if endBin - startBin + 1 == 0 then 0.0 else b.volume / (endBin - startBin + 1) as real;
    var i := startBin;
    while i <= endBin
      invariant startBin <= i && (startBin <= endBin ==> i <= endBin + 1)
      invariant forall j :: 0 <= j < volAt.Length ==>
                  volAt[j] == old(volAt[j]) + if startBin <= j < i && j <= endBin then volPer else 0.0
      invariant total == RangeSum(volAt[..], 0, volAt.Length)
    {
      RangeSumUpdate(volAt[..], i, volAt[i] + volPer, volAt.Length);
      ghost var was := volAt[..];
      volAt[i] := volAt[i] + volPer;
      assert volAt[..] == was[i := was[i] + volPer];
      total := total + volPer;
      i := i + 1;
    }
  }

  /** The loop over the bars, from an array of empty bins. */
  method FillBins(ghost g: Grid, c: seq<Candle>, minPrice: real, binSize: real, bins: int)
    returns (volAt: array<real>, total: real)
    requires g.Valid() && bins == g.bins && minPrice == g.min && binSize == g.Width()
    ensures fresh(volAt) && volAt[..] == Profile(g, c)
    ensures total == RangeSum(Profile(g, c), 0, g.bins)
  {
    volAt := new real[bins](_ => 0.0);
    total := 0.0;
    RangeSumZero(volAt[..], 0, bins);
    for k := 0 to |c|
      invariant forall i :: 0 <= i < bins ==> volAt[i] == BinVolume(g, c[..k], i)
      invariant total == RangeSum(volAt[..], 0, bins)
    {
      total := AddBar(g, c[k], volAt, total, minPrice, binSize);
      assert c[..k + 1][..k] == c[..k];
    }
    assert c[..|c|] == c;
    assert volAt[..] == Profile(g, c);
  }

  method ReadLevels(volAt: array<real>, total: real, minPrice: real, binSize: real)
    returns (poc: real, vah: real, val: real)
    requires volAt.Length > 0 && total == RangeSum(volAt[..], 0, volAt.Length)
    ensures ReadAt(volAt[..], minPrice, binSize, poc, vah, val)
  {
    hide IsPoc, RangeSum, FromPoc;
    var pocBin := FindPoc(volAt);
    poc := minPrice + (pocBin as real + 0.5) * binSize;
    var lowBin, highBin, acc := Expand(volAt, pocBin, total * 0.70);
    val := minPrice + lowBin as real * binSize;
    vah := minPrice + (highBin + 1) as real * binSize;
    assert LevelsOf(FromPoc(volAt[..], total * 0.70, pocBin), pocBin, minPrice, binSize, poc, vah, val);
  }

  method Compute(c: seq<Candle>, bins: int) returns (poc: real, vah: real, val: real)
    requires bins > 0 || c == [] || exists m :: IsMin(c, m) && IsMax(c, m)
    ensures c == [] ==> poc == vah == val == 0.0
    ensures c != [] ==> exists g: Grid ::
      && g.bins == bins && IsGrid(g, c)
      && if g.min == g.max then poc == val == g.min && vah == g.max else IsReading(g, c, poc, vah, val)
  {
    if |c| == 0 {
      return 0.0, 0.0, 0.0;
    }
    var minPrice, maxPrice := PriceRange(c);
    ghost var g := Grid(minPrice, maxPrice, bins);
    assert IsGrid(g, c);
    if maxPrice == minPrice {
      return minPrice, maxPrice, minPrice;
    }
    var binSize := (maxPrice - minPrice) / bins as real;
    var volAt, total := FillBins(g, c, minPrice, binSize, bins);
    poc, vah, val := ReadLevels(volAt, total, minPrice, binSize);
  }
}
