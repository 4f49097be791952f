/** The kernels.  The fused EMA is compared with the single-period one over uninterpreted arithmetic, so
    that "bit-identical" means the same operations on the same operands; the others are over reals. */
module Indicators {
  import opened Options
  import opened Reals
  import opened Buffers

  // ---------- EMA, fused and single ----------

  /** Floating-point arithmetic, with nothing assumed about it. */
  datatype Arith<!F> = Arith(
    zero: F, one: F, two: F, nan: F,
    ofInt: int -> F, add: (F, F) -> F, sub: (F, F) -> F, mul: (F, F) -> F, div: (F, F) -> F)
  {
    /** 2 / (period + 1). */
    function Alpha(period: int): F { div(two, add(ofInt(period), one)) }

    /** alpha * price + (1 - alpha) * ema. */
    function Blend(period: int, price: F, ema: F): F {
      add(mul(Alpha(period), price), mul(sub(one, Alpha(period)), ema))
    }

    /** The sum of these prices, oldest first. */
    function Sum(prices: seq<F>): F {
      if prices == [] then zero else add(Sum(prices[..|prices| - 1]), prices[|prices| - 1])
    }

    /** The average of the first `period` prices, then one blend per later price. */
    function Ema(prices: seq<F>, period: int): F
      requires 1 <= period <= |prices|
    {
      if |prices| == period then div(Sum(prices), ofInt(period))
      else Blend(period, prices[|prices| - 1], Ema(prices[..|prices| - 1], period))
    }

    /** What a caller gets: undefined without `period` samples. */
    function EmaOrNan(prices: seq<F>, period: int): F {
      if period < 1 || |prices| < period then nan else Ema(prices, period)
    }
  }

  method CalculateEma<F>(fp: Arith<F>, prices: array<F>, period: int) returns (ema: F)
    ensures ema == fp.EmaOrNan(prices[..], period)
  {
    var n := prices.Length;
    if period < 1 || n < period {
      return fp.nan;
    }
    var seed := fp.zero;
    for i := 0 to period
      invariant seed == fp.Sum(prices[..i])
    {
      seed := fp.add(seed, prices[i]);
      assert prices[..i + 1][..i] == prices[..i];
    }
    ema := fp.div(seed, fp.ofInt(period));
    var alpha := fp.div(fp.two, fp.add(fp.ofInt(period), fp.one));
    for i := period to n
      invariant ema == fp.Ema(prices[..i], period)
    {
      ema := fp.add(fp.mul(alpha, prices[i]), fp.mul(fp.sub(fp.one, alpha), ema));
      assert prices[..i + 1][..i] == prices[..i];
    }
    assert prices[..n] == prices[..];
  }

  /** Exact arithmetic, for what the recurrence means. */
  function Exact(): Arith<real> {
    Arith(0.0, 1.0, 2.0, -1.0, i => i as real, (x, y) => x + y, (x, y) => x - y, (x, y) => Mul(x, y),
          (x, y) => if y == 0.0 then 0.0 else x / y)
  }

  lemma {:induction false} ExactSumIs(prices: seq<real>)
    ensures Exact().Sum(prices) == VSum(prices)
  {
    if prices != [] {
      ExactSumIs(prices[..|prices| - 1]);
    }
  }

  lemma ExactOps(x: real, y: real, n: int)
    ensures var fp := Exact();
      && fp.add(x, y) == x + y && fp.sub(x, y) == x - y && fp.mul(x, y) == Mul(x, y) && fp.ofInt(n) == n as real
      && fp.div(x, y) == (if y == 0.0 then 0.0 else x / y) && fp.one == 1.0 && fp.two == 2.0
  {
  }

  lemma EmaUnfolds<F>(fp: Arith<F>, prices: seq<F>, period: int)
    ensures 1 <= period == |prices| ==> fp.EmaOrNan(prices, period) == fp.div(fp.Sum(prices), fp.ofInt(period))
    ensures 1 <= period < |prices| ==>
      fp.EmaOrNan(prices, period) == fp.Blend(period, prices[|prices| - 1], fp.EmaOrNan(prices[..|prices| - 1], period))
    ensures !(1 <= period <= |prices|) ==> fp.EmaOrNan(prices, period) == fp.nan
  {
  }

  lemma BlendIs(period: int, price: real, ema: real)
    requires period >= 1
    ensures var alpha := 2.0 / (period as real + 1.0);
      Exact().Blend(period, price, ema) == Mul(alpha, price) + Mul(1.0 - alpha, ema)
  {
    hide Mul;
    var alpha := 2.0 / (period as real + 1.0);
    ExactOps(period as real, 1.0, period);
    ExactOps(2.0, period as real + 1.0, period);
    ExactOps(1.0, alpha, period);
    ExactOps(alpha, price, period);
    ExactOps(1.0 - alpha, ema, period);
    ExactOps(Mul(alpha, price), Mul(1.0 - alpha, ema), period);
    hide Exact;
  }

  /** Undefined exactly without `period` samples; the first value is their mean; and every later price
      pulls the EMA two parts in `period + 1` of the way towards itself. */
  lemma EmaMoves(prices: seq<real>, period: int)
    ensures var fp := Exact();
      && (!(1 <= period <= |prices|) ==> fp.EmaOrNan(prices, period) == fp.nan)
      && (1 <= period == |prices| ==> Mul(period as real, fp.EmaOrNan(prices, period)) == VSum(prices))
      && (1 <= period < |prices| ==>
            var last, before := prices[|prices| - 1], fp.EmaOrNan(prices[..|prices| - 1], period);
            Mul(period as real + 1.0, fp.EmaOrNan(prices, period) - before) == 2.0 * (last - before))
  {
    hide Exact, Mul, Arith.EmaOrNan, Arith.Blend;
    var fp := Exact();
    EmaUnfolds(fp, prices, period);
    if 1 <= period == |prices| {
      ExactSumIs(prices);
      ExactOps(VSum(prices), period as real, period);
      MulDiv(VSum(prices), period as real);
      MulUnits(period as real);
    } else if 1 <= period < |prices| {
      var last, before := prices[|prices| - 1], fp.EmaOrNan(prices[..|prices| - 1], period);
      BlendIs(period, last, before);
      BlendStep(period as real + 1.0, 2.0 / (period as real + 1.0), last, before, fp.EmaOrNan(prices, period));
    }
  }

  lemma BlendStep(k: real, alpha: real, last: real, before: real, after: real)
    requires k > 0.0 && alpha == 2.0 / k && after == Mul(alpha, last) + Mul(1.0 - alpha, before)
    ensures Mul(k, after - before) == 2.0 * (last - before)
  {
    hide Mul;
    MulUnits(before);
    MulAdds(1.0, alpha, before);
    MulAdds(last, before, alpha);
    assert after - before == Mul(alpha, last - before);
    MulAssoc(k, alpha, last - before);
    MulDiv(2.0, k);
    MulUnits(k);
    TwiceOf(last - before);
  }

  lemma TwiceOf(x: real)
    ensures Mul(2.0, x) == 2.0 * x
  {
  }

  /** One period's running state after `seen` prices: the seed sum while it fills, then the EMA. */
  ghost predicate Running<F>(fp: Arith<F>, seen: seq<F>, period: int, seed: F, ema: F, alpha: F) {
    && alpha == fp.Alpha(period)
    && (|seen| <= period ==> seed == fp.Sum(seen))
    && (1 <= period <= |seen| ==> ema == fp.Ema(seen, period))
  }

  /** The fused kernel divides by `period + 1` for every period before it looks at any price, so a period
      of -1 raises before anything is written. */
  method CalculateEmas<F(0)>(fp: Arith<F>, prices: array<F>, periods: array<int>, out: array<F>) returns (raised: bool)
    requires periods.Length == out.Length && prices != out && periods as object != out
    modifies out
    ensures raised <==> exists p :: 0 <= p < periods.Length && periods[p] == -1
    ensures raised ==> out[..] == old(out[..])
    ensures !raised ==> forall p :: 0 <= p < out.Length ==> out[p] == fp.EmaOrNan(prices[..], periods[p])
  {
    var n, count := prices.Length, periods.Length;
    var seeds := new F[count](_ => fp.zero);
    var emas := new F[count](_ => fp.zero);
    var alphas := new F[count](_ => fp.zero);
    for p := 0 to count
      modifies alphas
      invariant forall q :: 0 <= q < p ==> periods[q] != -1 && alphas[q] == fp.Alpha(periods[q])
    {
      if periods[p] + 1 == 0 {
        assert periods[p] == -1;
        return true;
      }
      alphas[p] := fp.div(fp.two, fp.add(fp.ofInt(periods[p]), fp.one));
    }
    assert prices[..0] == [];
    for i := 0 to n
      modifies seeds, emas
      invariant forall q :: 0 <= q < count ==> Running(fp, prices[..i], periods[q], seeds[q], emas[q], alphas[q])
    {
      FusedPass(fp, prices, i, periods, seeds, emas, alphas);
    }
    assert prices[..n] == prices[..];
    for p := 0 to count
      modifies out
      invariant forall q :: 0 <= q < p ==> out[q] == fp.EmaOrNan(prices[..], periods[q])
    {
      out[p] := if periods[p] < 1 || n < periods[p] then fp.nan else emas[p];
    }
    raised := false;
  }

  /** One price, handed to every period. */
  method FusedPass<F>(fp: Arith<F>, prices: array<F>, i: nat, periods: array<int>,
                      seeds: array<F>, emas: array<F>, alphas: array<F>)
    requires i < prices.Length && seeds.Length == emas.Length == alphas.Length == periods.Length
    requires seeds != emas && seeds != alphas && emas != alphas && seeds != prices && emas != prices
    requires periods as object != seeds && periods as object != emas
    requires forall q :: 0 <= q < periods.Length ==> Running(fp, prices[..i], periods[q], seeds[q], emas[q], alphas[q])
    modifies seeds, emas
    ensures forall q :: 0 <= q < periods.Length ==> Running(fp, prices[..i + 1], periods[q], seeds[q], emas[q], alphas[q])
  {
    hide Running;
    var price := prices[i];
    assert prices[..i + 1] == prices[..i] + [price];
    for p := 0 to periods.Length
      invariant forall q :: 0 <= q < p ==> Running(fp, prices[..i + 1], periods[q], seeds[q], emas[q], alphas[q])
      invariant forall q :: p <= q < periods.Length ==> Running(fp, prices[..i], periods[q], seeds[q], emas[q], alphas[q])
    {
      var period := periods[p];
      RunningStep(fp, prices[..i], price, period, seeds[p], emas[p], alphas[p]);
      if i < period {
        seeds[p] := fp.add(seeds[p], price);
        if i == period - 1 {
          emas[p] := fp.div(seeds[p], fp.ofInt(period));
        }
      } else {
        emas[p] := fp.add(fp.mul(alphas[p], price), fp.mul(fp.sub(fp.one, alphas[p]), emas[p]));
      }
    }
  }

  lemma RunningStep<F>(fp: Arith<F>, seen: seq<F>, price: F, period: int, seed: F, ema: F, alpha: F)
    requires Running(fp, seen, period, seed, ema, alpha)
    ensures var i := |seen|;
      var seed' := if i < period then fp.add(seed, price) else seed;
      var ema' := if i < period then (if i == period - 1 then fp.div(seed', fp.ofInt(period)) else ema)
                  else fp.add(fp.mul(alpha, price), fp.mul(fp.sub(fp.one, alpha), ema));
      Running(fp, seen + [price], period, seed', ema', alpha)
  {
    assert (seen + [price])[..|seen|] == seen;
  }

  // ---------- VWAP ----------

  function PvSum(prices: seq<real>, volumes: seq<real>): real
    requires |prices| == |volumes|
  {
    if prices == [] then 0.0
    else
      var n := |prices| - 1;
      PvSum(prices[..n], volumes[..n]) + Mul(volumes[n], prices[n])
  }

  function VSum(volumes: seq<real>): real {
    if volumes == [] then 0.0 else VSum(volumes[..|volumes| - 1]) + volumes[|volumes| - 1]
  }

  function Shorter(a: nat, b: nat): nat { if a <= b then a else b }

  function Vwap(prices: seq<real>, volumes: seq<real>): Option<real> {
    var n := Shorter(|prices|, |volumes|);
    var v := VSum(volumes[..n]);
    if n == 0 || v <= 0.0 then None else Some(PvSum(prices[..n], volumes[..n]) / v)
  }

  method CalculateVwap(prices: array<real>, volumes: array<real>) returns (vwap: Option<real>)
    ensures vwap == Vwap(prices[..], volumes[..])
  {
    hide Mul;
    var n := Shorter(prices.Length, volumes.Length);
    assert prices[..][..n] == prices[..n] && volumes[..][..n] == volumes[..n];
    if n == 0 {
      return None;
    }
    var pv, v := 0.0, 0.0;
    for i := 0 to n
      invariant pv == PvSum(prices[..i], volumes[..i]) && v == VSum(volumes[..i])
    {
      pv := pv + Mul(volumes[i], prices[i]);
      v := v + volumes[i];
      assert prices[..i + 1][..i] == prices[..i] && volumes[..i + 1][..i] == volumes[..i];
    }
    vwap := if v <= 0.0 then None else Some(pv / v);
  }

  ghost predicate AllWithin(xs: seq<real>, lo: real, hi: real) {
    forall i :: 0 <= i < |xs| ==> lo <= xs[i] <= hi
  }

  lemma {:induction false} PvSumBounded(prices: seq<real>, volumes: seq<real>, lo: real, hi: real)
    requires |prices| == |volumes| && AllWithin(prices, lo, hi) && forall i :: 0 <= i < |volumes| ==> volumes[i] >= 0.0
    ensures VSum(volumes) >= 0.0
    ensures Mul(VSum(volumes), lo) <= PvSum(prices, volumes) <= Mul(VSum(volumes), hi)
  {
    hide Mul;
    MulUnits(lo);
    MulUnits(hi);
    if prices != [] {
      var n := |prices| - 1;
      var p, v, rest := prices[n], volumes[n], VSum(volumes[..n]);
      PvSumBounded(prices[..n], volumes[..n], lo, hi);
      assert p in prices && v in volumes;
      MulAdds(rest, v, lo);
      MulAdds(rest, v, hi);
      MulOrder(lo, p, v);
      MulOrder(p, hi, v);
      MulUnits(v);
    }
  }

  lemma QuotientBounds(x: real, y: real, lo: real, hi: real)
    requires y > 0.0 && Mul(y, lo) <= x <= Mul(y, hi)
    ensures lo <= x / y <= hi
  {
    hide Mul;
    MulUnits(y);
    MulDiv(x, y);
    MulOrder(x / y, lo, y);
    MulOrder(hi, x / y, y);
  }

  /** With non-negative volumes a defined VWAP lies between the least and the greatest price. */
  lemma VwapIsAnAverage(prices: seq<real>, volumes: seq<real>, lo: real, hi: real)
    requires Vwap(prices, volumes).Some? && AllWithin(prices, lo, hi) && forall i :: 0 <= i < |volumes| ==> volumes[i] >= 0.0
    ensures lo <= Vwap(prices, volumes).value <= hi
  {
    var n := Shorter(|prices|, |volumes|);
    PvSumBounded(prices[..n], volumes[..n], lo, hi);
    QuotientBounds(PvSum(prices[..n], volumes[..n]), VSum(volumes[..n]), lo, hi);
  }

  /** The VWAP is defined exactly when something was traded, and each print pulls it by its own volume. */
  lemma VwapMoves(prices: seq<real>, volumes: seq<real>, price: real, volume: real)
    requires |prices| == |volumes| && (forall i :: 0 <= i < |volumes| ==> volumes[i] >= 0.0) && volume >= 0.0
    ensures Vwap(prices, volumes).Some? <==> exists i :: 0 <= i < |volumes| && volumes[i] > 0.0
    ensures volume > 0.0 && Vwap(prices, volumes).None? ==> Vwap(prices + [price], volumes + [volume]) == Some(price)
    ensures Vwap(prices, volumes).Some? ==>
      var before, after := Vwap(prices, volumes).value, Vwap(prices + [price], volumes + [volume]);
      && after.Some?
      && Mul(VSum(volumes) + volume, after.value) == Mul(VSum(volumes), before) + Mul(volume, price)
  {
    hide PvSum, VSum, Vwap, Mul;
    SomethingTraded(volumes);
    NothingTraded(prices, volumes);
    VwapIs(prices, volumes);
    VwapIs(prices + [price], volumes + [volume]);
    SumsAppend(prices, volumes, price, volume);
    QuotientMoves(PvSum(prices, volumes), VSum(volumes), price, volume);
  }

  lemma VwapIs(prices: seq<real>, volumes: seq<real>)
    requires |prices| == |volumes|
    ensures Vwap(prices, volumes) == if VSum(volumes) <= 0.0 then None else Some(PvSum(prices, volumes) / VSum(volumes))
  {
    hide PvSum;
    assert prices[..|prices|] == prices && volumes[..|volumes|] == volumes;
  }

  lemma SumsAppend(prices: seq<real>, volumes: seq<real>, price: real, volume: real)
    requires |prices| == |volumes|
    ensures VSum(volumes + [volume]) == VSum(volumes) + volume
    ensures PvSum(prices + [price], volumes + [volume]) == PvSum(prices, volumes) + Mul(volume, price)
  {
    assert (prices + [price])[..|prices|] == prices && (volumes + [volume])[..|volumes|] == volumes;
  }

  lemma QuotientMoves(pv: real, v: real, price: real, volume: real)
    requires v >= 0.0 && volume >= 0.0
    ensures v > 0.0 ==> Mul(v + volume, (pv + Mul(volume, price)) / (v + volume)) == Mul(v, pv / v) + Mul(volume, price)
    ensures v == 0.0 && pv == 0.0 && volume > 0.0 ==> (pv + Mul(volume, price)) / (v + volume) == price
  {
    hide Mul;
    if v > 0.0 {
      MulDiv(pv, v);
      MulDiv(pv + Mul(volume, price), v + volume);
      MulUnits(v);
      MulUnits(v + volume);
    } else if volume > 0.0 {
      MulUnits(volume);
      MulDiv(price, volume);
    }
  }

  lemma {:induction false} SomethingTraded(volumes: seq<real>)
    requires forall i :: 0 <= i < |volumes| ==> volumes[i] >= 0.0
    ensures VSum(volumes) >= 0.0
    ensures VSum(volumes) > 0.0 <==> exists i :: 0 <= i < |volumes| && volumes[i] > 0.0
  {
    if volumes != [] {
      var n := |volumes| - 1;
      SomethingTraded(volumes[..n]);
      if i :| 0 <= i < n && volumes[..n][i] > 0.0 {
        assert volumes[i] > 0.0;
      }
      if i :| 0 <= i < |volumes| && volumes[i] > 0.0 {
        assert i < n ==> volumes[..n][i] > 0.0;
      }
    }
  }

  lemma {:induction false} NothingTraded(prices: seq<real>, volumes: seq<real>)
    requires |prices| == |volumes| && forall i :: 0 <= i < |volumes| ==> volumes[i] >= 0.0
    ensures VSum(volumes) <= 0.0 ==> PvSum(prices, volumes) == 0.0
  {
    if volumes != [] {
      var n := |volumes| - 1;
      SomethingTraded(volumes[..n]);
      NothingTraded(prices[..n], volumes[..n]);
      assert VSum(volumes) <= 0.0 ==> volumes[n] == 0.0;
    }
  }

  // ---------- Wilder ATR ----------

  function AbsOf(x: real): real { if x < 0.0 then -x else x }

  function TrueRange(high: real, low: real, previousClose: real): real {
    var a, b, c := high - low, AbsOf(high - previousClose), AbsOf(low - previousClose);
    var d := if b > a then b else a;
    if c > d then c else d
  }

  /** True ranges from the second candle on. */
  function Ranges(h: seq<real>, l: seq<real>, c: seq<real>): seq<real>
    requires |h| == |l| == |c|
  {
    if |h| <= 1 then []
    else
      var n := |h| - 1;
      Ranges(h[..n], l[..n], c[..n]) + [TrueRange(h[n], l[n], c[n - 1])]
  }

  /** The mean of the first `period` ranges, then Wilder's smoothing. */
  function Smoothed(ranges: seq<real>, period: int): real
    requires 1 <= period <= |ranges|
  {
    if |ranges| == period then VSum(ranges) / period as real
    else
      var n := |ranges| - 1;
      (Mul((period - 1) as real, Smoothed(ranges[..n], period)) + ranges[n]) / period as real
  }

  function Atr(h: seq<real>, l: seq<real>, c: seq<real>, period: int): Option<real> {
    var n := Shorter(Shorter(|h|, |l|), |c|);
    if period < 1 || n < period + 1 then None
    else
      RangesLength(h[..n], l[..n], c[..n]);
      Some(Smoothed(Ranges(h[..n], l[..n], c[..n]), period))
  }

  lemma {:induction false} RangesLength(h: seq<real>, l: seq<real>, c: seq<real>)
    requires |h| == |l| == |c|
    ensures |Ranges(h, l, c)| == if |h| == 0 then 0 else |h| - 1
  {
    if |h| > 1 {
      var n := |h| - 1;
      RangesLength(h[..n], l[..n], c[..n]);
    }
  }

  lemma RangesGrow(h: seq<real>, l: seq<real>, c: seq<real>, i: nat)
    requires |h| == |l| == |c| && 1 <= i < |h|
    ensures |RangesTo(h, l, c, i + 1)| == i
    ensures RangesTo(h, l, c, i + 1) == RangesTo(h, l, c, i) + [TrueRange(h[i], l[i], c[i - 1])]
  {
    RangesLength(h[..i], l[..i], c[..i]);
    assert h[..i + 1][..i] == h[..i] && l[..i + 1][..i] == l[..i] && c[..i + 1][..i] == c[..i];
  }

  /** The sum of the first `period` true ranges. */
  method SeedOf(highs: array<real>, lows: array<real>, closes: array<real>, n: nat, period: nat) returns (seed: real)
    requires 1 <= period < n && n <= highs.Length && n <= lows.Length && n <= closes.Length
    ensures var h, l, c := highs[..][..n], lows[..][..n], closes[..][..n];
      |RangesTo(h, l, c, period + 1)| == period && seed == VSum(RangesTo(h, l, c, period + 1))
  {
    ghost var h, l, c := highs[..][..n], lows[..][..n], closes[..][..n];
    hide TrueRange, VSum, RangesTo;
    seed := 0.0;
    RangesStart(h, l, c);
    for i := 1 to period + 1
      invariant |RangesTo(h, l, c, i)| == i - 1 && seed == VSum(RangesTo(h, l, c, i))
    {
      RangesGrow(h, l, c, i);
      VSumAppend(RangesTo(h, l, c, i), TrueRange(h[i], l[i], c[i - 1]));
      seed := seed + TrueRange(highs[i], lows[i], closes[i - 1]);
    }
  }

  method CalculateWilderAtr(highs: array<real>, lows: array<real>, closes: array<real>, period: int)
    returns (atr: Option<real>)
    ensures atr == Atr(highs[..], lows[..], closes[..], period)
  {
    var n := Shorter(Shorter(highs.Length, lows.Length), closes.Length);
    if period < 1 || n < period + 1 {
      return None;
    }
    ghost var h, l, c := highs[..][..n], lows[..][..n], closes[..][..n];
    hide Mul, TrueRange, VSum, Smoothed, RangesTo, Atr;
    var seed := SeedOf(highs, lows, closes, n, period);
    var value := seed / period as real;
    SmoothedSeed(RangesTo(h, l, c, period + 1), period);
    for i := period + 1 to n
      invariant |RangesTo(h, l, c, i)| == i - 1
      invariant value == Smoothed(RangesTo(h, l, c, i), period)
    {
      RangesGrow(h, l, c, i);
      SmoothedAppend(RangesTo(h, l, c, i), TrueRange(h[i], l[i], c[i - 1]), period);
      value := (Mul((period - 1) as real, value) + TrueRange(highs[i], lows[i], closes[i - 1])) / period as real;
    }
    AtrFromRanges(highs[..], lows[..], closes[..], period);
    atr := Some(value);
  }

  lemma AtrFromRanges(highs: seq<real>, lows: seq<real>, closes: seq<real>, period: int)
    requires var n := Shorter(Shorter(|highs|, |lows|), |closes|); 1 <= period < n
    ensures var n := Shorter(Shorter(|highs|, |lows|), |closes|);
      && |RangesTo(highs[..n], lows[..n], closes[..n], n)| == n - 1
      && Atr(highs, lows, closes, period) == Some(Smoothed(RangesTo(highs[..n], lows[..n], closes[..n], n), period))
  {
    var n := Shorter(Shorter(|highs|, |lows|), |closes|);
    var h, l, c := highs[..n], lows[..n], closes[..n];
    assert h[..n] == h && l[..n] == l && c[..n] == c;
    RangesLength(h, l, c);
  }

  ghost function RangesTo(h: seq<real>, l: seq<real>, c: seq<real>, i: nat): seq<real>
    requires |h| == |l| == |c| && i <= |h|
  {
    Ranges(h[..i], l[..i], c[..i])
  }

  lemma RangesStart(h: seq<real>, l: seq<real>, c: seq<real>)
    requires |h| == |l| == |c| && 1 <= |h|
    ensures RangesTo(h, l, c, 1) == [] && VSum([]) == 0.0
  {
  }

  lemma VSumAppend(xs: seq<real>, x: real)
    ensures VSum(xs + [x]) == VSum(xs) + x
  {
    assert (xs + [x])[..|xs + [x]| - 1] == xs;
  }

  lemma SmoothedSeed(ranges: seq<real>, period: int)
    requires 1 <= period == |ranges|
    ensures Smoothed(ranges, period) == VSum(ranges) / period as real
  {
  }

  lemma SmoothedAppend(ranges: seq<real>, r: real, period: int)
    requires 1 <= period <= |ranges|
    ensures Smoothed(ranges + [r], period) == (Mul((period - 1) as real, Smoothed(ranges, period)) + r) / period as real
  {
    assert (ranges + [r])[..|ranges + [r]| - 1] == ranges;
  }

  lemma {:induction false} SumBounded(xs: seq<real>, lo: real, hi: real)
    requires AllWithin(xs, lo, hi)
    ensures Mul(|xs| as real, lo) <= VSum(xs) <= Mul(|xs| as real, hi)
  {
    hide Mul;
    MulUnits(lo);
    MulUnits(hi);
    if xs != [] {
      var n := |xs| - 1;
      SumBounded(xs[..n], lo, hi);
      assert xs[n] in xs;
      MulAdds(n as real, 1.0, lo);
      MulAdds(n as real, 1.0, hi);
    }
  }

  lemma {:induction false} SmoothedBounded(ranges: seq<real>, period: int, lo: real, hi: real)
    requires 1 <= period <= |ranges| && AllWithin(ranges, lo, hi)
    ensures lo <= Smoothed(ranges, period) <= hi
  {
    hide Mul;
    var k := period as real;
    if |ranges| == period {
      SumBounded(ranges, lo, hi);
      QuotientBounds(VSum(ranges), k, lo, hi);
    } else {
      var n := |ranges| - 1;
      var before := Smoothed(ranges[..n], period);
      SmoothedBounded(ranges[..n], period, lo, hi);
      assert ranges[n] in ranges;
      MulUnits(k - 1.0);
      MulOrder(lo, before, k - 1.0);
      MulOrder(before, hi, k - 1.0);
      MulAdds(k - 1.0, 1.0, lo);
      MulAdds(k - 1.0, 1.0, hi);
      MulUnits(lo);
      MulUnits(hi);
      QuotientBounds(Mul(k - 1.0, before) + ranges[n], k, lo, hi);
    }
  }

  lemma {:induction false} RangesNonNegative(h: seq<real>, l: seq<real>, c: seq<real>)
    requires |h| == |l| == |c| && forall i :: 0 <= i < |h| ==> l[i] <= h[i]
    ensures forall i :: 0 <= i < |Ranges(h, l, c)| ==> Ranges(h, l, c)[i] >= 0.0
  {
    if |h| > 1 {
      var n := |h| - 1;
      RangesNonNegative(h[..n], l[..n], c[..n]);
    }
  }

  lemma NonNegativeWithin(xs: seq<real>, lo: real, hi: real)
    requires AllWithin(xs, lo, hi) && forall i :: 0 <= i < |xs| ==> xs[i] >= 0.0
    ensures AllWithin(xs, 0.0, if hi < 0.0 then 0.0 else hi)
  {
  }

  /** A defined ATR lies between the least and the greatest true range of the candles it uses, and is
      non-negative when no low exceeds its high. */
  lemma AtrIsAnAverage(highs: seq<real>, lows: seq<real>, closes: seq<real>, period: int, lo: real, hi: real)
    requires Atr(highs, lows, closes, period).Some?
    requires var n := Shorter(Shorter(|highs|, |lows|), |closes|); AllWithin(Ranges(highs[..n], lows[..n], closes[..n]), lo, hi)
    ensures lo <= Atr(highs, lows, closes, period).value <= hi
    ensures (forall i :: 0 <= i < Shorter(|highs|, |lows|) ==> lows[i] <= highs[i])
        ==> Atr(highs, lows, closes, period).value >= 0.0
  {
    var n := Shorter(Shorter(|highs|, |lows|), |closes|);
    var h, l, c := highs[..n], lows[..n], closes[..n];
    var ranges := Ranges(h, l, c);
    RangesLength(h, l, c);
    assert Atr(highs, lows, closes, period).value == Smoothed(ranges, period);
    SmoothedBounded(ranges, period, lo, hi);
    if forall i :: 0 <= i < Shorter(|highs|, |lows|) ==> lows[i] <= highs[i] {
      RangesNonNegative(h, l, c);
      NonNegativeWithin(ranges, lo, hi);
      SmoothedBounded(ranges, period, 0.0, if hi < 0.0 then 0.0 else hi);
    }
  }

  /** The true range is the greatest of the candle's own range and its two distances from the last close. */
  lemma TrueRangeIsGreatest(high: real, low: real, previousClose: real)
    ensures var r := TrueRange(high, low, previousClose);
      && r >= high - low && r >= high - previousClose && r >= previousClose - high
      && r >= low - previousClose && r >= previousClose - low
      && r in [high - low, high - previousClose, previousClose - high, low - previousClose, previousClose - low]
  {
  }

  /** The ATR is defined exactly from one candle more than its period on, and starts as the mean of the
      first true ranges. */
  lemma AtrStarts(h: seq<real>, l: seq<real>, c: seq<real>, period: int)
    requires |h| == |l| == |c|
    ensures Atr(h, l, c, period).Some? <==> 1 <= period < |h|
    ensures 1 <= period == |h| - 1 ==> Mul(period as real, Atr(h, l, c, period).value) == VSum(Ranges(h, l, c))
  {
    AtrIsSmoothed(h, l, c, period);
    hide Mul, TrueRange, Smoothed, Ranges, VSum, Atr;
    if 1 <= period == |h| - 1 {
      SmoothedSeed(Ranges(h, l, c), period);
      MulDiv(VSum(Ranges(h, l, c)), period as real);
      MulUnits(period as real);
    }
  }

  /** Every later candle replaces one part in `period` of it by its own true range. */
  lemma {:induction false} AtrMoves(h: seq<real>, l: seq<real>, c: seq<real>, period: int)
    requires |h| == |l| == |c| && 1 <= period < |h| - 1
    ensures var n := |h| - 1; var after, before := Atr(h, l, c, period), Atr(h[..n], l[..n], c[..n], period);
      && after.Some? && before.Some?
      && Mul(period as real, after.value - before.value) == TrueRange(h[n], l[n], c[n - 1]) - before.value
  {
    var n := |h| - 1;
    AtrIsSmoothed(h, l, c, period);
    AtrIsSmoothed(h[..n], l[..n], c[..n], period);
    OneMoreRange(h, l, c);
    hide *;
    SmoothedMoves(Ranges(h[..n], l[..n], c[..n]), TrueRange(h[n], l[n], c[n - 1]), period);
  }

  lemma SmoothedMoves(ranges: seq<real>, range: real, period: int)
    requires 1 <= period <= |ranges|
    ensures Mul(period as real, Smoothed(ranges + [range], period) - Smoothed(ranges, period)) == range - Smoothed(ranges, period)
  {
    hide Mul, Smoothed;
    SmoothedAppend(ranges, range, period);
    WilderStep(period as real, Smoothed(ranges, period), range, Smoothed(ranges + [range], period));
  }

  lemma AtrIsSmoothed(h: seq<real>, l: seq<real>, c: seq<real>, period: int)
    requires |h| == |l| == |c|
    ensures |Ranges(h, l, c)| == if |h| == 0 then 0 else |h| - 1
    ensures Atr(h, l, c, period) == if 1 <= period < |h| then Some(Smoothed(Ranges(h, l, c), period)) else None
  {
    RangesLength(h, l, c);
    hide Ranges, Smoothed;
    assert h[..|h|] == h && l[..|h|] == l && c[..|h|] == c;
  }

  lemma OneMoreRange(h: seq<real>, l: seq<real>, c: seq<real>)
    requires |h| == |l| == |c| && |h| > 1
    ensures var n := |h| - 1; Ranges(h, l, c) == Ranges(h[..n], l[..n], c[..n]) + [TrueRange(h[n], l[n], c[n - 1])]
  {
  }

  lemma WilderStep(k: real, before: real, range: real, after: real)
    requires k != 0.0 && after == (Mul(k - 1.0, before) + range) / k
    ensures Mul(k, after - before) == range - before
  {
    hide Mul;
    MulDiv(Mul(k - 1.0, before) + range, k);
    MulUnits(k);
    MulUnits(before);
    MulAdds(k, 1.0, before);
    MulAdds(after, before, k);
  }

  // ---------- depth-weighted imbalance ----------

  /** How the two ladders are weighted: by distance from the mid in half-spreads, or by position. */
  datatype Scale = ByDistance(mid: real, half: real) | ByPosition {
    function Weight(price: real, i: nat): real
      requires ByDistance? ==> half > 0.0
    {
      match this
      case ByDistance(m, h) =>
        var d := AbsOf(price - m) / h;
        WeightIsDefined(price - m, h);
        1.0 / (1.0 + d)
      case ByPosition => 1.0 / (1.0 + i as real)
    }
  }

  lemma WeightIsDefined(x: real, half: real)
    requires half > 0.0
    ensures AbsOf(x) / half >= 0.0
  {
  }

  lemma WeightIsPositive(s: Scale, price: real, i: nat)
    requires s.ByDistance? ==> s.half > 0.0
    ensures s.Weight(price, i) > 0.0
  {
    if s.ByDistance? {
      WeightIsDefined(price - s.mid, s.half);
      ReciprocalPositive(1.0 + AbsOf(price - s.mid) / s.half);
    } else {
      ReciprocalPositive(1.0 + i as real);
    }
  }

  lemma ReciprocalPositive(x: real)
    requires x > 0.0
    ensures 1.0 / x > 0.0
  {
  }

  function ScaleOf(bestBid: real, bestAsk: real): (s: Scale)
    ensures s.ByDistance? ==> s.half > 0.0
  {
    var half := (bestAsk - bestBid) * 0.5;
    if bestBid > 0.0 && bestAsk > 0.0 && half > 0.0 then ByDistance((bestAsk + bestBid) * 0.5, half) else ByPosition
  }

  function Weighted(s: Scale, prices: seq<real>, sizes: seq<real>): real
    requires |prices| == |sizes| && (s.ByDistance? ==> s.half > 0.0)
  {
    if prices == [] then 0.0
    else
      var n := |prices| - 1;
      Weighted(s, prices[..n], sizes[..n]) + Mul(sizes[n], s.Weight(prices[n], n))
  }

  function Imbalance(bid: real, ask: real): real {
    if bid + ask <= 0.0 then 0.0 else (bid - ask) / (bid + ask)
  }

  function Levels(bp: seq<real>, bq: seq<real>, ap: seq<real>, aq: seq<real>): nat {
    Shorter(Shorter(|bp|, |bq|), Shorter(|ap|, |aq|))
  }

  function Obi(bp: seq<real>, bq: seq<real>, ap: seq<real>, aq: seq<real>): real {
    var n := Levels(bp, bq, ap, aq);
    if n == 0 then 0.0
    else
      var s := ScaleOf(bp[0], ap[0]);
      Imbalance(Weighted(s, bp[..n], bq[..n]), Weighted(s, ap[..n], aq[..n]))
  }

  lemma WeightedAppend(s: Scale, prices: seq<real>, sizes: seq<real>, i: nat)
    requires i < |prices| && i < |sizes| && (s.ByDistance? ==> s.half > 0.0)
    ensures Weighted(s, prices[..i + 1], sizes[..i + 1])
         == Weighted(s, prices[..i], sizes[..i]) + Mul(sizes[i], s.Weight(prices[i], i))
  {
    assert prices[..i + 1][..i] == prices[..i] && sizes[..i + 1][..i] == sizes[..i];
  }

  method CalculateDepthWeightedObi(bidPrices: array<real>, bidSizes: array<real>,
                                   askPrices: array<real>, askSizes: array<real>) returns (obi: real)
    ensures obi == Obi(bidPrices[..], bidSizes[..], askPrices[..], askSizes[..])
  {
    hide Mul, Imbalance;
    var n := Shorter(Shorter(bidPrices.Length, bidSizes.Length), Shorter(askPrices.Length, askSizes.Length));
    if n == 0 {
      return 0.0;
    }
    var s := ScaleOf(bidPrices[0], askPrices[0]);
    ghost var bp, bq, ap, aq := bidPrices[..], bidSizes[..], askPrices[..], askSizes[..];
    var bid, ask := 0.0, 0.0;
    assert Weighted(s, bp[..0], bq[..0]) == 0.0 && Weighted(s, ap[..0], aq[..0]) == 0.0;
    hide Weighted, ScaleOf;
    for i := 0 to n
      invariant bid == Weighted(s, bp[..i], bq[..i]) && ask == Weighted(s, ap[..i], aq[..i])
    {
      WeightedAppend(s, bp, bq, i);
      WeightedAppend(s, ap, aq, i);
      bid := bid + Mul(bidSizes[i], s.Weight(bidPrices[i], i));
      ask := ask + Mul(askSizes[i], s.Weight(askPrices[i], i));
    }
    obi := Imbalance(bid, ask);
  }

  lemma {:induction false} WeightedNonNegative(s: Scale, prices: seq<real>, sizes: seq<real>)
    requires |prices| == |sizes| && (s.ByDistance? ==> s.half > 0.0)
    requires forall i :: 0 <= i < |sizes| ==> sizes[i] >= 0.0
    ensures Weighted(s, prices, sizes) >= 0.0
  {
    hide Mul;
    if prices != [] {
      var n := |prices| - 1;
      WeightedNonNegative(s, prices[..n], sizes[..n]);
      WeightIsPositive(s, prices[n], n);
      MulSign(sizes[n], s.Weight(prices[n], n));
    }
  }

  /** With non-negative sizes the imbalance lies in [-1, 1]. */
  lemma ObiIsBounded(bp: seq<real>, bq: seq<real>, ap: seq<real>, aq: seq<real>)
    requires forall i :: 0 <= i < |bq| ==> bq[i] >= 0.0
    requires forall i :: 0 <= i < |aq| ==> aq[i] >= 0.0
    ensures -1.0 <= Obi(bp, bq, ap, aq) <= 1.0
  {
    var n := Levels(bp, bq, ap, aq);
    if n > 0 {
      var s := ScaleOf(bp[0], ap[0]);
      WeightedNonNegative(s, bp[..n], bq[..n]);
      WeightedNonNegative(s, ap[..n], aq[..n]);
      var bid, ask := Weighted(s, bp[..n], bq[..n]), Weighted(s, ap[..n], aq[..n]);
      if bid + ask > 0.0 {
        hide Mul;
        MulUnits(bid + ask);
        MulAdds(bid + ask, 0.0, -1.0);
        MinusOne(bid + ask);
        QuotientBounds(bid - ask, bid + ask, -1.0, 1.0);
      }
    }
  }

  lemma MinusOne(x: real)
    ensures Mul(x, -1.0) == -x
  {
  }

  function Scaled(xs: seq<real>, k: real): seq<real> {
    seq(|xs|, i requires 0 <= i < |xs| => Mul(k, xs[i]))
  }

  lemma RatioScales(x: real, h: real, k: real)
    requires h > 0.0 && k > 0.0
    ensures Mul(k, h) > 0.0 && Mul(k, x) / Mul(k, h) == x / h
  {
    MulOrder(0.0, h, k);
    assert Mul(k, x) == (x / h) * Mul(k, h);
  }

  lemma WeightScales(s: Scale, price: real, i: nat, k: real)
    requires k > 0.0 && s.ByDistance? && s.half > 0.0
    ensures Mul(k, s.half) > 0.0
    ensures ByDistance(Mul(k, s.mid), Mul(k, s.half)).Weight(Mul(k, price), i) == s.Weight(price, i)
  {
    RatioScales(AbsOf(price - s.mid), s.half, k);
    AbsScales(price - s.mid, k);
    MulAdds(price, s.mid, k);
  }

  lemma AbsScales(x: real, k: real)
    requires k > 0.0
    ensures AbsOf(Mul(k, x)) == Mul(k, AbsOf(x))
  {
  }

  lemma {:induction false} WeightedPriceScales(s: Scale, prices: seq<real>, sizes: seq<real>, k: real)
    requires k > 0.0 && s.ByDistance? && s.half > 0.0 && |prices| == |sizes|
    ensures Mul(k, s.half) > 0.0
    ensures Weighted(ByDistance(Mul(k, s.mid), Mul(k, s.half)), Scaled(prices, k), sizes) == Weighted(s, prices, sizes)
  {
    WeightScales(s, 0.0, 0, k);
    if prices != [] {
      hide Mul;
      var n := |prices| - 1;
      WeightedPriceScales(s, prices[..n], sizes[..n], k);
      assert Scaled(prices, k)[..n] == Scaled(prices[..n], k);
      WeightScales(s, prices[n], n, k);
    }
  }

  lemma {:induction false} WeightedIgnoresPrice(prices: seq<real>, others: seq<real>, sizes: seq<real>)
    requires |prices| == |others| == |sizes|
    ensures Weighted(ByPosition, prices, sizes) == Weighted(ByPosition, others, sizes)
  {
    if prices != [] {
      var n := |prices| - 1;
      WeightedIgnoresPrice(prices[..n], others[..n], sizes[..n]);
    }
  }

  lemma ScaleOfScaled(bid: real, ask: real, k: real)
    requires k > 0.0
    ensures ScaleOf(Mul(k, bid), Mul(k, ask))
         == match ScaleOf(bid, ask) case ByDistance(m, h) => ByDistance(Mul(k, m), Mul(k, h)) case ByPosition => ByPosition
  {
    hide Mul;
    MulUnits(k);
    MulSign(bid, k);
    MulSign(ask, k);
    MulSign((ask - bid) * 0.5, k);
    HalfSums(bid, ask, k);
  }

  lemma HalfSums(bid: real, ask: real, k: real)
    ensures Mul(k, (ask - bid) * 0.5) == (Mul(k, ask) - Mul(k, bid)) * 0.5
    ensures Mul(k, (ask + bid) * 0.5) == (Mul(k, ask) + Mul(k, bid)) * 0.5
  {
  }

  /** The imbalance has no unit of price: multiplying every price by one positive factor changes nothing. */
  lemma ObiIgnoresPriceScale(bp: seq<real>, bq: seq<real>, ap: seq<real>, aq: seq<real>, k: real)
    requires k > 0.0
    ensures Obi(Scaled(bp, k), bq, Scaled(ap, k), aq) == Obi(bp, bq, ap, aq)
  {
    hide Mul, Imbalance;
    var n := Levels(bp, bq, ap, aq);
    if n > 0 {
      var s := ScaleOf(bp[0], ap[0]);
      ScaleOfScaled(bp[0], ap[0], k);
      assert Scaled(bp, k)[..n] == Scaled(bp[..n], k) && Scaled(ap, k)[..n] == Scaled(ap[..n], k);
      if s.ByDistance? {
        WeightedPriceScales(s, bp[..n], bq[..n], k);
        WeightedPriceScales(s, ap[..n], aq[..n], k);
      } else {
        WeightedIgnoresPrice(bp[..n], Scaled(bp[..n], k), bq[..n]);
        WeightedIgnoresPrice(ap[..n], Scaled(ap[..n], k), aq[..n]);
      }
    }
  }

  lemma {:induction false} WeightedSizeScales(s: Scale, prices: seq<real>, sizes: seq<real>, k: real)
    requires |prices| == |sizes| && (s.ByDistance? ==> s.half > 0.0)
    ensures Weighted(s, prices, Scaled(sizes, k)) == Mul(k, Weighted(s, prices, sizes))
  {
    hide Mul;
    MulUnits(k);
    if prices != [] {
      var n := |prices| - 1;
      WeightedSizeScales(s, prices[..n], sizes[..n], k);
      assert Scaled(sizes, k)[..n] == Scaled(sizes[..n], k);
      var w := s.Weight(prices[n], n);
      MulAssoc(k, sizes[n], w);
      MulAdds(Weighted(s, prices[..n], sizes[..n]), Mul(sizes[n], w), k);
    }
  }

  lemma ImbalanceScales(bid: real, ask: real, k: real)
    requires k > 0.0
    ensures Imbalance(Mul(k, bid), Mul(k, ask)) == Imbalance(bid, ask)
  {
    hide Mul;
    MulAdds(bid, ask, k);
    MulUnits(k);
    MulSign(bid + ask, k);
    if bid + ask > 0.0 {
      RatioScales(bid - ask, bid + ask, k);
    }
  }

  /** Nor of size. */
  lemma ObiIgnoresSizeScale(bp: seq<real>, bq: seq<real>, ap: seq<real>, aq: seq<real>, k: real)
    requires k > 0.0
    ensures Obi(bp, Scaled(bq, k), ap, Scaled(aq, k)) == Obi(bp, bq, ap, aq)
  {
    hide Mul, Imbalance;
    var n := Levels(bp, bq, ap, aq);
    if n > 0 {
      var s := ScaleOf(bp[0], ap[0]);
      assert Scaled(bq, k)[..n] == Scaled(bq[..n], k) && Scaled(aq, k)[..n] == Scaled(aq[..n], k);
      WeightedSizeScales(s, bp[..n], bq[..n], k);
      WeightedSizeScales(s, ap[..n], aq[..n], k);
      ImbalanceScales(Weighted(s, bp[..n], bq[..n]), Weighted(s, ap[..n], aq[..n]), k);
    }
  }

  // ---------- which way the imbalance points ----------

  /** A level's weight by its distance from the mid in half-spreads when both best prices are positive
      and the ask is above the bid, and by its position otherwise: a best level has weight one half, or
      one. */
  lemma WeightsAre(bid: real, ask: real, price: real, i: nat)
    ensures var w := ScaleOf(bid, ask).Weight(price, i);
      if 0.0 < bid < ask then
        var twice := 2.0 * price - (bid + ask);
        && Mul((ask - bid) + (if twice < 0.0 then -twice else twice), w) == ask - bid
        && (price == bid || price == ask ==> w == 0.5)
      else Mul(1.0 + i as real, w) == 1.0
  {
    var s := ScaleOf(bid, ask);
    if s.ByDistance? {
      WeightIsDefined(price - s.mid, s.half);
      DistanceWeight(AbsOf(price - s.mid), s.half);
      assert AbsOf(price - s.mid) == if 2.0 * price - (bid + ask) < 0.0 then -(price - s.mid) else price - s.mid;
    }
  }

  lemma DistanceWeight(d: real, half: real)
    requires d >= 0.0 && half > 0.0
    ensures var w := 1.0 / (1.0 + d / half);
      Mul(2.0 * half + 2.0 * d, w) == 2.0 * half && (d == half ==> w == 0.5)
  {
    var r := d / half;
    assert r * half == d;
    assert 2.0 * half + 2.0 * d == (1.0 + r) * (2.0 * half);
    if d == half {
      assert r == 1.0;
    }
  }

  /** For non-negative sizes the imbalance is positive exactly when the bids weigh more than the asks,
      and negative exactly when they weigh less. */
  lemma ObiPointsToTheHeavier(bp: seq<real>, bq: seq<real>, ap: seq<real>, aq: seq<real>)
    requires forall i :: 0 <= i < |bq| ==> bq[i] >= 0.0
    requires forall i :: 0 <= i < |aq| ==> aq[i] >= 0.0
    requires Levels(bp, bq, ap, aq) > 0
    ensures var n, s := Levels(bp, bq, ap, aq), ScaleOf(bp[0], ap[0]);
      var bids, asks := Weighted(s, bp[..n], bq[..n]), Weighted(s, ap[..n], aq[..n]);
      && (Obi(bp, bq, ap, aq) > 0.0 <==> bids > asks)
      && (Obi(bp, bq, ap, aq) < 0.0 <==> bids < asks)
  {
    var n, s := Levels(bp, bq, ap, aq), ScaleOf(bp[0], ap[0]);
    WeightedNonNegative(s, bp[..n], bq[..n]);
    WeightedNonNegative(s, ap[..n], aq[..n]);
    ImbalanceSign(Weighted(s, bp[..n], bq[..n]), Weighted(s, ap[..n], aq[..n]));
  }

  lemma ImbalanceSign(bid: real, ask: real)
    requires bid >= 0.0 && ask >= 0.0
    ensures Imbalance(bid, ask) > 0.0 <==> bid > ask
    ensures Imbalance(bid, ask) < 0.0 <==> bid < ask
    ensures bid + ask > 0.0 ==> Mul(bid + ask, Imbalance(bid, ask)) == bid - ask
  {
    if bid + ask > 0.0 {
      MulDiv(bid - ask, bid + ask);
      hide Mul;
      MulUnits(bid + ask);
      MulSign(Imbalance(bid, ask), bid + ask);
      MulSign(-Imbalance(bid, ask), bid + ask);
      MulAdds(0.0, Imbalance(bid, ask), bid + ask);
    }
  }

  /** With one level a side the imbalance is the plain one of the two sizes. */
  lemma OneLevelIsPlain(bid: real, bidSize: real, ask: real, askSize: real)
    requires bidSize >= 0.0 && askSize >= 0.0
    ensures var obi := Obi([bid], [bidSize], [ask], [askSize]);
      if bidSize + askSize > 0.0 then Mul(bidSize + askSize, obi) == bidSize - askSize else obi == 0.0
  {
    var s := ScaleOf(bid, ask);
    WeightsAre(bid, ask, bid, 0);
    WeightsAre(bid, ask, ask, 0);
    var w := s.Weight(bid, 0);
    assert Weighted(s, [bid], [bidSize]) == Mul(bidSize, w) by { WeightedAppend(s, [bid], [bidSize], 0); OneElement(bid, bidSize); }
    assert Weighted(s, [ask], [askSize]) == Mul(askSize, w) by { WeightedAppend(s, [ask], [askSize], 0); OneElement(ask, askSize); }
    ImbalanceSign(bidSize, askSize);
    WeightIsPositive(s, bid, 0);
    hide Mul, Imbalance;
    MulUnits(w);
    ImbalanceScales(bidSize, askSize, w);
    assert [bid][..1] == [bid] && [bidSize][..1] == [bidSize] && [ask][..1] == [ask] && [askSize][..1] == [askSize];
    if bidSize + askSize <= 0.0 {
      ImbalanceSign(bidSize, askSize);
    }
  }

  lemma OneElement(x: real, y: real)
    ensures [x][..0 + 1] == [x] && [y][..0 + 1] == [y] && [x][..0] == [] && [y][..0] == []
  {
  }

  /** The two ladders lie at equal distances from the mid. */
  ghost predicate Opposed(bp: seq<real>, ap: seq<real>) {
    |bp| == |ap| && forall i :: 0 <= i < |bp| ==> bp[i] + ap[i] == bp[0] + ap[0]
  }

  lemma {:induction false} MirroredWeighsEqually(s: Scale, bp: seq<real>, ap: seq<real>, sizes: seq<real>, middle: real)
    requires |bp| == |ap| == |sizes| && forall i :: 0 <= i < |bp| ==> bp[i] + ap[i] == 2.0 * middle
    requires s.ByDistance? ==> s.half > 0.0 && s.mid == middle
    ensures Weighted(s, bp, sizes) == Weighted(s, ap, sizes)
  {
    hide Mul;
    if sizes != [] {
      var n := |sizes| - 1;
      MirroredWeighsEqually(s, bp[..n], ap[..n], sizes[..n], middle);
      assert s.ByDistance? ==> bp[n] - s.mid == -(ap[n] - s.mid);
    }
  }

  /** Swapping the sizes of two ladders that mirror each other turns the imbalance round. */
  lemma SwappingSidesNegates(bp: seq<real>, bq: seq<real>, ap: seq<real>, aq: seq<real>)
    requires Opposed(bp, ap) && |bp| == |bq| == |aq|
    ensures Obi(bp, aq, ap, bq) == -Obi(bp, bq, ap, aq)
  {
    if bp != [] {
      var s, n := ScaleOf(bp[0], ap[0]), |bp|;
      assert bp[..n] == bp && bq[..n] == bq && ap[..n] == ap && aq[..n] == aq;
      MirroredWeighsEqually(s, bp, ap, bq, (bp[0] + ap[0]) / 2.0);
      MirroredWeighsEqually(s, bp, ap, aq, (bp[0] + ap[0]) / 2.0);
      hide Weighted, Opposed;
      ImbalanceTurns(Weighted(s, bp, bq), Weighted(s, ap, aq));
    }
  }

  lemma ImbalanceTurns(bid: real, ask: real)
    ensures Imbalance(ask, bid) == -Imbalance(bid, ask)
  {
    if bid + ask > 0.0 {
      NegatedQuotient(bid - ask, bid + ask);
    }
  }

  lemma NegatedQuotient(x: real, y: real)
    requires y > 0.0
    ensures -x / y == -(x / y)
  {
  }
}
