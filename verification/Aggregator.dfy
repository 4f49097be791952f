/** The per-symbol tick aggregator: gap detection, differencing of cumulative volume, session VWAP,
    rolling buffers and candles, each against a definition over the list of ticks. */
module Aggregator {
  import opened Options
  import opened Reals
  import opened Buffers
  import opened Sequence
  import opened Candles

  /** Everything `on_tick` updates.  `prices` and `sizes` are all values appended since the buffers were
      last cleared; the ring buffers retain their tails. */
  datatype Agg = Agg(
    lastSeq: Option<int>, lastTotal: Option<int>, lastDelta: real, gaps: nat, vwapValid: bool,
    prices: seq<real>, sizes: seq<real>, pv: real, v: real, ltp: Option<real>, lastTs: real, candles: Fold)

  /** `reset_session`: everything but the last print's size. */
  function Reset(a: Agg): Agg {
    Agg(None, None, a.lastDelta, 0, true, [], [], 0.0, 0.0, None, 0.0, Fold([], None))
  }

  function Invalidated(a: Agg): Agg {
    a.(prices := [], sizes := [], pv := 0.0, v := 0.0, lastTotal := None, candles := Fold([], None))
  }

  /** A later total than the last one; the first print and a total that fell count for nothing. */
  function Delta(lastTotal: Option<int>, total: int): int {
    match lastTotal
    case None => 0
    case Some(previous) => if total < previous then 0 else total - previous
  }

  function AfterGapCheck(a: Agg, t: Tick): Agg {
    if a.lastSeq.Some? && t.seqNo != a.lastSeq.value + 1
    then Invalidated(a.(gaps := a.gaps + 1, vwapValid := false))
    else a
  }

  function Ticked(a: Agg, t: Tick): Agg { Recorded(AfterGapCheck(a, t), t) }

  function Recorded(b: Agg, t: Tick): Agg {
    var size := Delta(b.lastTotal, t.volume) as real;
    b.(lastSeq := Some(t.seqNo), lastTotal := Some(t.volume), lastDelta := size,
       ltp := Some(t.ltp), lastTs := t.ts,
       prices := b.prices + [t.ltp], sizes := b.sizes + [size],
       pv := if b.vwapValid then b.pv + Mul(t.ltp, size) else b.pv,
       v := if b.vwapValid then b.v + size else b.v,
       candles := FoldPrint(b.candles, Print(t.ts, t.ltp, size)))
  }

  function SessionVwap(a: Agg): Option<real> {
    if !a.vwapValid || a.v <= 0.0 then None else Some(a.pv / a.v)
  }

  /** Everything since the last reset. */
  function Session(start: Agg, ticks: seq<Tick>): Agg {
    if ticks == [] then Reset(start)
    else Ticked(Session(start, ticks[..|ticks| - 1]), ticks[|ticks| - 1])
  }

  // ---------- what the fields mean, over the list of ticks ----------

  /** The ticks since the latest hole in the numbering. */
  function SinceGap(ticks: seq<Tick>): seq<Tick> {
    if |ticks| <= 1 then ticks
    else
      var init, last := ticks[..|ticks| - 1], ticks[|ticks| - 1];
      if last.seqNo == init[|init| - 1].seqNo + 1 then SinceGap(init) + [last] else [last]
  }

  function Holes(ticks: seq<Tick>): nat {
    if |ticks| <= 1 then 0
    else
      var init, last := ticks[..|ticks| - 1], ticks[|ticks| - 1];
      Holes(init) + if last.seqNo == init[|init| - 1].seqNo + 1 then 0 else 1
  }

  /** A block of prints: the first has no known size, the others what the total grew by. */
  function Prints(block: seq<Tick>): seq<Print> {
    if block == [] then []
    else
      var init, last := block[..|block| - 1], block[|block| - 1];
      Prints(init) + [Print(last.ts, last.ltp,
        Delta(if init == [] then None else Some(init[|init| - 1].volume), last.volume) as real)]
  }

  function Prices(prints: seq<Print>): seq<real> {
    if prints == [] then [] else Prices(prints[..|prints| - 1]) + [prints[|prints| - 1].price]
  }

  function Sizes(prints: seq<Print>): seq<real> {
    if prints == [] then [] else Sizes(prints[..|prints| - 1]) + [prints[|prints| - 1].size]
  }

  /** Turnover: the sum of price times size. */
  function Turnover(prints: seq<Print>): real {
    if prints == [] then 0.0
    else Turnover(prints[..|prints| - 1]) + Mul(prints[|prints| - 1].price, prints[|prints| - 1].size)
  }

  /** The aggregator holds exactly what this block of ticks says, after this many holes. */
  ghost predicate Holds(a: Agg, last: Tick, block: seq<Print>, holes: nat) {
    && a.lastSeq == Some(last.seqNo) && a.lastTotal == Some(last.volume)
    && a.gaps == holes && (a.vwapValid <==> holes == 0)
    && a.prices == Prices(block) && a.sizes == Sizes(block) && a.candles == FoldAll(block)
    && a.pv == (if holes == 0 then Turnover(block) else 0.0)
    && a.v == (if holes == 0 then TotalSize(block) else 0.0)
    && a.ltp == Some(last.ltp) && a.lastTs == last.ts
  }

  lemma RecordExtends(a: Agg, t: Tick, block: seq<Print>, holes: nat)
    requires a.gaps == holes && (a.vwapValid <==> holes == 0)
    requires a.prices == Prices(block) && a.sizes == Sizes(block) && a.candles == FoldAll(block)
    requires a.pv == (if holes == 0 then Turnover(block) else 0.0)
    requires a.v == (if holes == 0 then TotalSize(block) else 0.0)
    ensures Holds(Recorded(a, t), t, block + [Print(t.ts, t.ltp, Delta(a.lastTotal, t.volume) as real)], holes)
  {
    hide Mul, FoldPrint, Delta;
    var p := Print(t.ts, t.ltp, Delta(a.lastTotal, t.volume) as real);
    assert (block + [p])[..|block + [p]| - 1] == block;
  }

  /** For every sequence of ticks since a reset: the gap count is the number of holes, the rolling
      buffers and the candles are those of the ticks since the latest hole, and the session sums are
      exact as long as there was none. */
  lemma {:induction false} SessionIs(start: Agg, ticks: seq<Tick>)
    requires ticks != []
    ensures SinceGap(ticks) != [] && SinceGap(ticks)[|SinceGap(ticks)| - 1] == ticks[|ticks| - 1]
    ensures Holds(Session(start, ticks), ticks[|ticks| - 1], Prints(SinceGap(ticks)), Holes(ticks))
  {
    var init, last := ticks[..|ticks| - 1], ticks[|ticks| - 1];
    hide Recorded, Holds, Reset, Ticked, Prints;
    if init == [] {
      FirstTick(start, last);
      assert ticks == [last];
      assert Session(start, []) == Reset(start);
    } else {
      SessionIs(start, init);
      var block := SinceGap(init);
      if last.seqNo == init[|init| - 1].seqNo + 1 {
        NextTick(Session(start, init), block, last, Holes(init));
      } else {
        TickAfterHole(Session(start, init), init[|init| - 1], Prints(block), last, Holes(init));
      }
    }
  }

  lemma {:induction false} NextTick(a: Agg, block: seq<Tick>, next: Tick, holes: nat)
    requires block != [] && next.seqNo == block[|block| - 1].seqNo + 1
    requires Holds(a, block[|block| - 1], Prints(block), holes)
    ensures Holds(Ticked(a, next), next, Prints(block + [next]), holes)
  {
    hide Recorded, Holds;
    HoldsExpands(a, block[|block| - 1], Prints(block), holes);
    RecordExtends(a, next, Prints(block), holes);
    assert (block + [next])[..|block|] == block;
  }

  lemma TickAfterHole(a: Agg, last: Tick, block: seq<Print>, next: Tick, holes: nat)
    requires Holds(a, last, block, holes) && next.seqNo != last.seqNo + 1
    ensures Holds(Ticked(a, next), next, Prints([next]), holes + 1)
  {
    hide Recorded, Holds;
    HoldsExpands(a, last, block, holes);
    RecordExtends(AfterGapCheck(a, next), next, [], holes + 1);
    OneTick(next);
    assert [] + [Print(next.ts, next.ltp, 0.0)] == [Print(next.ts, next.ltp, 0.0)];
  }

  lemma HoldsExpands(a: Agg, last: Tick, block: seq<Print>, holes: nat)
    requires Holds(a, last, block, holes)
    ensures a.lastSeq == Some(last.seqNo) && a.lastTotal == Some(last.volume)
    ensures a.gaps == holes && (a.vwapValid <==> holes == 0)
    ensures a.prices == Prices(block) && a.sizes == Sizes(block) && a.candles == FoldAll(block)
    ensures a.pv == (if holes == 0 then Turnover(block) else 0.0)
    ensures a.v == (if holes == 0 then TotalSize(block) else 0.0)
  {
  }

  lemma OneTick(t: Tick)
    ensures Prints([t]) == [Print(t.ts, t.ltp, 0.0)]
  {
    assert [t][..0] == [];
  }

  lemma FirstTick(start: Agg, t: Tick)
    ensures Holds(Ticked(Reset(start), t), t, Prints([t]), 0)
  {
    OneTick(t);
    RecordExtends(Reset(start), t, [], 0);
    assert [] + [Print(t.ts, t.ltp, 0.0)] == [Print(t.ts, t.ltp, 0.0)];
  }

  lemma ConsecutiveSnoc(init: seq<Tick>, last: Tick)
    requires init != []
    ensures Consecutive(init + [last]) <==> Consecutive(init) && last.seqNo == init[|init| - 1].seqNo + 1
  {
    var all := init + [last];
    assert forall k :: 0 <= k < |init| ==> all[k] == init[k];
    assert all[|init|] == last;
  }

  /** How one more tick changes the hole count and the block kept. */
  lemma GapSnoc(init: seq<Tick>, last: Tick)
    requires init != []
    ensures var linked := last.seqNo == init[|init| - 1].seqNo + 1;
      && Holes(init + [last]) == Holes(init) + (if linked then 0 else 1)
      && SinceGap(init + [last]) == if linked then SinceGap(init) + [last] else [last]
  {
    assert (init + [last])[..|init + [last]| - 1] == init;
  }

  lemma {:induction false} NoHolesIff(ticks: seq<Tick>)
    ensures Holes(ticks) == 0 <==> Consecutive(ticks)
    ensures Holes(ticks) == 0 ==> SinceGap(ticks) == ticks
  {
    hide Holes, SinceGap, Consecutive;
    if |ticks| <= 1 {
      NoHolesInOne(ticks);
    } else {
      var init, last := ticks[..|ticks| - 1], ticks[|ticks| - 1];
      LastSplit(ticks);
      NoHolesIff(init);
      ConsecutiveSnoc(init, last);
      GapSnoc(init, last);
    }
  }

  lemma NoHolesInOne(ticks: seq<Tick>)
    requires |ticks| <= 1
    ensures Holes(ticks) == 0 && Consecutive(ticks) && SinceGap(ticks) == ticks
  {
  }

  /** What is kept starts at `n`, without a hole, and the tick before it, if any, was not its
      predecessor. */
  ghost predicate KeptFrom(ticks: seq<Tick>, n: nat) {
    && n < |ticks| && SinceGap(ticks) == ticks[n..] && Consecutive(ticks[n..])
    && (n > 0 ==> ticks[n].seqNo != ticks[n - 1].seqNo + 1)
  }

  lemma {:induction false} KeptStep(init: seq<Tick>, last: Tick, n: nat)
    requires KeptFrom(init, n)
    ensures KeptFrom(init + [last], if last.seqNo == init[|init| - 1].seqNo + 1 then n else |init|)
  {
    assert Consecutive([last]);
    hide Consecutive, SinceGap, Holes;
    GapSnoc(init, last);
    if last.seqNo == init[|init| - 1].seqNo + 1 {
      ConsecutiveSnoc(init[n..], last);
      assert (init + [last])[n..] == init[n..] + [last];
    } else {
      assert (init + [last])[|init|..] == [last];
    }
  }

  lemma KeptOne(ticks: seq<Tick>)
    requires |ticks| == 1
    ensures KeptFrom(ticks, 0)
  {
    assert ticks[0..] == ticks;
  }

  /** What is kept is the longest hole-free block that ends with the last tick. */
  lemma {:induction false} SinceGapIsLongestBlock(ticks: seq<Tick>) returns (n: nat)
    requires ticks != []
    ensures KeptFrom(ticks, n)
  {
    hide KeptFrom, SinceGap;
    if |ticks| == 1 {
      KeptOne(ticks);
      n := 0;
    } else {
      var init, last := ticks[..|ticks| - 1], ticks[|ticks| - 1];
      n := SinceGapIsLongestBlock(init);
      KeptStep(init, last, n);
      assert ticks == init + [last];
      n := if last.seqNo == init[|init| - 1].seqNo + 1 then n else |init|;
    }
  }

  /** The session VWAP is defined exactly when no tick was lost and something traded, and then it is
      the true one; one gap leaves it undefined until the session is reset. */
  lemma SessionVwapIff(start: Agg, ticks: seq<Tick>)
    requires ticks != []
    ensures var vwap := SessionVwap(Session(start, ticks));
      && (vwap.Some? <==> Consecutive(ticks) && TotalSize(Prints(ticks)) > 0.0)
      && (vwap.Some? ==> vwap.value == Turnover(Prints(ticks)) / TotalSize(Prints(ticks)))
  {
    SessionIs(start, ticks);
    NoHolesIff(ticks);
  }

  /** Each print of a block: its tick's time and price, and what the cumulative total grew by; the first
      print and a total that fell count for nothing. */
  lemma {:induction false} PrintIs(block: seq<Tick>, k: nat)
    requires k < |block|
    ensures |Prints(block)| == |block|
    ensures var p, t := Prints(block)[k], block[k];
      && p.ts == t.ts && p.price == t.ltp
      && p.size == if k > 0 && t.volume > block[k - 1].volume then (t.volume - block[k - 1].volume) as real else 0.0
  {
    PrintsLength(block);
    var n := |block| - 1;
    PrintsLength(block[..n]);
    if k < n {
      PrintIs(block[..n], k);
      assert block[..n][k] == block[k];
    }
  }

  /** Like any average, a defined session VWAP lies between the least and the greatest price. */
  lemma SessionVwapIsAnAverage(start: Agg, ticks: seq<Tick>, lo: real, hi: real)
    requires ticks != [] && SessionVwap(Session(start, ticks)).Some? && forall t <- ticks :: lo <= t.ltp <= hi
    ensures lo <= SessionVwap(Session(start, ticks)).value <= hi
  {
    SessionVwapIff(start, ticks);
    TurnoverBounded(ticks, lo, hi);
    hide Mul;
    var t, v := Turnover(Prints(ticks)), TotalSize(Prints(ticks));
    MulDiv(t, v);
    MulOrder(t / v, lo, v);
    MulOrder(hi, t / v, v);
    MulUnits(v);
  }

  lemma {:induction false} TurnoverBounded(block: seq<Tick>, lo: real, hi: real)
    requires forall t <- block :: lo <= t.ltp <= hi
    ensures Mul(lo, TotalSize(Prints(block))) <= Turnover(Prints(block)) <= Mul(hi, TotalSize(Prints(block)))
  {
    hide Mul, Delta;
    if block == [] {
      MulUnits(lo);
      MulUnits(hi);
    } else {
      var n := |block| - 1;
      var init, p := Prints(block[..n]), Prints(block)[|Prints(block)| - 1];
      TurnoverBounded(block[..n], lo, hi);
      PrintsLength(block);
      PrintIs(block, n);
      assert Prints(block)[..|Prints(block)| - 1] == init;
      MulAdds(TotalSize(init), p.size, lo);
      MulAdds(TotalSize(init), p.size, hi);
      assert block[n] in block;
      MulOrder(lo, p.price, p.size);
      MulOrder(p.price, hi, p.size);
    }
  }

  /** The last print's size is the last one retained, and a reset keeps it; nothing else of the session
      before survives a reset. */
  lemma ResetIs(a: Agg, t: Tick)
    ensures var b := Ticked(a, t); b.sizes != [] && b.lastDelta == b.sizes[|b.sizes| - 1]
    ensures var r := Reset(a);
      && r.lastSeq == None && r.lastTotal == None && r.gaps == 0 && r.vwapValid && r.prices == r.sizes == []
      && r.pv == r.v == r.lastTs == 0.0 && r.ltp == None && r.candles == Fold([], None) && r.lastDelta == a.lastDelta
  {
  }

  ghost predicate TotalsNeverFall(ticks: seq<Tick>) {
    forall k :: 0 < k < |ticks| ==> ticks[k - 1].volume <= ticks[k].volume
  }

  /** When the cumulative total never falls, the sizes telescope. */
  lemma {:induction false} SizesTelescope(block: seq<Tick>)
    requires block != [] && TotalsNeverFall(block)
    ensures TotalSize(Prints(block)) == (block[|block| - 1].volume - block[0].volume) as real
  {
    hide TotalSize, Prints, TotalsNeverFall;
    var init, last := block[..|block| - 1], block[|block| - 1];
    LastSplit(block);
    PrintsAppend(init, last);
    NeverFallsSplit(block);
    if init == [] {
      NoPrints();
    } else {
      SizesTelescope(init);
    }
  }

  lemma LastSplit<T>(s: seq<T>)
    requires s != []
    ensures s == s[..|s| - 1] + [s[|s| - 1]]
  {
  }

  lemma NeverFallsSplit(block: seq<Tick>)
    requires block != [] && TotalsNeverFall(block)
    ensures TotalsNeverFall(block[..|block| - 1])
    ensures |block| > 1 ==> block[|block| - 2].volume <= block[|block| - 1].volume
  {
  }

  lemma NoPrints()
    ensures TotalSize(Prints([])) == 0.0
  {
  }

  lemma PrintsAppend(init: seq<Tick>, last: Tick)
    ensures var size := Delta(if init == [] then None else Some(init[|init| - 1].volume), last.volume) as real;
      && Prints(init + [last]) == Prints(init) + [Print(last.ts, last.ltp, size)]
      && TotalSize(Prints(init + [last])) == TotalSize(Prints(init)) + size
  {
    hide Delta, TotalSize;
    assert (init + [last])[..|init + [last]| - 1] == init;
    TotalSizeAppends(Prints(init), Prints(init + [last])[|Prints(init)|]);
  }

  lemma TotalSizeAppends(prints: seq<Print>, p: Print)
    ensures TotalSize(prints + [p]) == TotalSize(prints) + p.size
  {
    assert (prints + [p])[..|prints + [p]| - 1] == prints;
  }

  /** Loss detection end to end: with one publisher run and any channel, zero gaps means the received
      ticks are a contiguous block of the published ones, and every sum and buffer is that block's. */
  lemma NoGapsMeansExact(start: Agg, published: seq<Tick>, received: seq<Tick>) returns (i: nat)
    requires received != [] && Consecutive(published) && forall t <- received :: t in published
    requires Session(start, received).gaps == 0
    ensures i + |received| <= |published| && received == published[i..i + |received|]
    ensures var a, block := Session(start, received), published[i..i + |received|];
      && a.pv == Turnover(Prints(block)) && a.v == TotalSize(Prints(block))
      && a.prices == Prices(Prints(block)) && a.sizes == Sizes(Prints(block))
      && a.candles == FoldAll(Prints(block))
      && (TotalsNeverFall(block) ==> a.v == (block[|block| - 1].volume - block[0].volume) as real)
  {
    SessionIs(start, received);
    NoHolesIff(received);
    i := NoGapMeansContiguous(published, received);
    if TotalsNeverFall(received) {
      SizesTelescope(received);
    }
  }

  /** The publisher, the channel and the aggregator together: of the quotes published for any tokens, one
      token's ticks arrive through a channel that may drop, repeat or reorder them, and zero gaps means
      that the sums and buffers are those of a contiguous block of what was published for it. */
  lemma PublishedToAggregated(start: Agg, quotes: seq<Quote>, token: string, received: seq<Tick>) returns (i: nat)
    requires received != [] && forall t <- received :: t in TicksOf(Published(quotes), token)
    requires Session(start, received).gaps == 0
    ensures var published := TicksOf(Published(quotes), token);
      && i + |received| <= |published| && received == published[i..i + |received|]
      && (forall k :: 0 <= k < |received| ==> received[k].seqNo == i + k + 1)
    ensures var a, block := Session(start, received), TicksOf(Published(quotes), token)[i..i + |received|];
      && a.pv == Turnover(Prints(block)) && a.v == TotalSize(Prints(block))
      && a.prices == Prices(Prints(block)) && a.sizes == Sizes(Prints(block))
      && a.candles == FoldAll(Prints(block))
      && (TotalsNeverFall(block) ==> a.v == (block[|block| - 1].volume - block[0].volume) as real)
  {
    hide Session, Published, TicksOf, Consecutive, Prints, TotalsNeverFall;
    PublishedIsConsecutive(quotes, token);
    NumberingIsPerToken(quotes, token);
    i := NoGapsMeansExact(start, TicksOf(Published(quotes), token), received);
  }

  lemma {:induction false} PricesLength(prints: seq<Print>)
    ensures |Prices(prints)| == |prints|
  {
    if prints != [] {
      PricesLength(prints[..|prints| - 1]);
    }
  }

  lemma {:induction false} PrintsLength(block: seq<Tick>)
    ensures |Prints(block)| == |block|
  {
    if block != [] {
      PrintsLength(block[..|block| - 1]);
    }
  }

  /** Rolling indicators are tainted from the first gap until `recovery` clean ticks have arrived, or for
      good if the buffer cannot hold that many. */
  lemma TaintClearsIff(start: Agg, ticks: seq<Tick>, capacity: nat, recovery: int)
    requires ticks != []
    ensures var a := Session(start, ticks);
      (a.gaps > 0 && |Tail(a.prices, capacity)| < recovery)
        <==> !Consecutive(ticks) && (|SinceGap(ticks)| < recovery || capacity < recovery)
  {
    SessionIs(start, ticks);
    NoHolesIff(ticks);
    PricesLength(Prints(SinceGap(ticks)));
    PrintsLength(SinceGap(ticks));
  }

  class TickAggregator {
    const prices: RingBuffer
    const sizes: RingBuffer
    const candleBuffer: CandleBuffer
    const recoveryTicks: int

    var lastSeq: Option<int>
    var lastTotal: Option<int>
    var lastDelta: real
    var gaps: nat
    var vwapValid: bool
    var pv: real
    var v: real
    var ltp: Option<real>
    var lastTs: real
    var openCandle: Option<Candle>

    ghost const parts: set<object>

    ghost predicate Valid()
      reads parts, candleBuffer.parts
    {
      && parts == {prices, prices.data, sizes, sizes.data, candleBuffer} + candleBuffer.parts
      && this !in parts && prices != sizes && prices.data != sizes.data
      && candleBuffer.parts !! {prices, prices.data, sizes, sizes.data}
      && prices.Valid() && sizes.Valid() && candleBuffer.Valid()
    }

    ghost function State(): Agg
      reads this, prices, sizes, candleBuffer
    {
      Agg(lastSeq, lastTotal, lastDelta, gaps, vwapValid, prices.history, sizes.history, pv, v, ltp, lastTs,
          Fold(candleBuffer.history, openCandle))
    }

    constructor (tickCapacity: nat, candleCapacity: nat, recoveryTicks: int)
      requires tickCapacity >= 1 && candleCapacity >= 1
      ensures Valid() && fresh(parts) && this.recoveryTicks == recoveryTicks
      ensures prices.capacity == tickCapacity && sizes.capacity == tickCapacity && candleBuffer.capacity == candleCapacity
      ensures State() == Reset(State()) && State().lastDelta == 0.0
    {
      hide RingBuffer.Valid, CandleBuffer.Valid;
      var p := new RingBuffer(tickCapacity);
      var s := new RingBuffer(tickCapacity);
      var c := new CandleBuffer(candleCapacity);
      prices, sizes, candleBuffer := p, s, c;
      parts := {p, p.data, s, s.data, c} + c.parts;
      this.recoveryTicks := recoveryTicks;
      lastSeq, lastTotal, lastDelta, gaps, vwapValid := None, None, 0.0, 0, true;
      pv, v, ltp, lastTs, openCandle := 0.0, 0.0, None, 0.0, None;
    }

    method Invalidate()
      requires Valid()
      modifies this, parts
      ensures Valid() && State() == Invalidated(old(State()))
    {
      hide RingBuffer.Valid, CandleBuffer.Valid;
      prices.Clear();
      sizes.Clear();
      candleBuffer.Clear();
      openCandle := None;
      pv, v, lastTotal := 0.0, 0.0, None;
    }

    method HandleGap()
      requires Valid()
      modifies this, parts
      ensures Valid() && State() == Invalidated(old(State()).(gaps := old(gaps) + 1, vwapValid := false))
    {
      hide RingBuffer.Valid, CandleBuffer.Valid;
      gaps := gaps + 1;
      vwapValid := false;
      Invalidate();
    }

    method ResetSession()
      requires Valid()
      modifies this, parts
      ensures Valid() && State() == Reset(old(State()))
    {
      hide RingBuffer.Valid, CandleBuffer.Valid;
      Invalidate();
      lastSeq, gaps, vwapValid, ltp, lastTs := None, 0, true, None, 0.0;
    }

    method VolumeDelta(total: int) returns (size: real)
      modifies this`lastTotal
      ensures size == Delta(old(lastTotal), total) as real && lastTotal == Some(total)
    {
      var previous := lastTotal;
      lastTotal := Some(total);
      if previous.None? {
        return 0.0;
      }
      var delta := total - previous.value;
      size := if delta < 0 then 0.0 else delta as real;
    }

    method FoldCandle(ts: real, price: real, size: real)
      requires Valid()
      modifies this`openCandle, candleBuffer, candleBuffer.parts
      ensures Valid()
      ensures Fold(candleBuffer.history, openCandle)
           == FoldPrint(Fold(old(candleBuffer.history), old(openCandle)), Print(ts, price, size))
    {
      hide RingBuffer.Valid, CandleBuffer.Valid;
      var bucket := Bucket(ts);
      var p := Print(ts, price, size);
      match openCandle {
        case None => openCandle := Some(Opened(bucket, p));
        case Some(c) =>
          if bucket > c.start {
            candleBuffer.Push(c);
            openCandle := Some(Opened(bucket, p));
          } else {
            openCandle := Some(Grown(c, p));
          }
      }
    }

    method OnTick(t: Tick)
      requires Valid()
      modifies this, parts
      ensures Valid() && State() == Ticked(old(State()), t)
    {
      hide RingBuffer.Valid, CandleBuffer.Valid, Recorded;
      if lastSeq.Some? && t.seqNo != lastSeq.value + 1 {
        HandleGap();
      }
      Record(t);
    }

    method Record(t: Tick)
      requires Valid()
      modifies this, parts
      ensures Valid() && State() == Recorded(old(State()), t)
    {
      hide RingBuffer.Valid, CandleBuffer.Valid, FoldPrint, Mul, Delta;
      var size := VolumeDelta(t.volume);
      Retain(t.ltp, size);
      FoldCandle(t.ts, t.ltp, size);
      Note(t, size);
    }

    /** Remember the print and add it to the session sums while they still mean something. */
    method Note(t: Tick, size: real)
      modifies this`lastSeq, this`lastDelta, this`ltp, this`lastTs, this`pv, this`v
      ensures lastSeq == Some(t.seqNo) && lastDelta == size && ltp == Some(t.ltp) && lastTs == t.ts
      ensures pv == (if vwapValid then old(pv) + Mul(t.ltp, size) else old(pv))
      ensures v == if vwapValid then old(v) + size else old(v)
    {
      lastSeq, lastDelta, ltp, lastTs := Some(t.seqNo), size, Some(t.ltp), t.ts;
      if vwapValid {
        pv := pv + Mul(t.ltp, size);
        v := v + size;
      }
    }

    method Retain(price: real, size: real)
      requires Valid()
      modifies prices, prices.data, sizes, sizes.data
      ensures Valid() && prices.history == old(prices.history) + [price] && sizes.history == old(sizes.history) + [size]
    {
      hide RingBuffer.Valid, CandleBuffer.Valid;
      prices.Append(price);
      sizes.Append(size);
    }

    /** A gap was seen, and the prices retained since do not yet number `recoveryTicks`. */
    method Tainted() returns (tainted: bool)
      requires Valid()
      ensures tainted <==> gaps > 0 && |Tail(prices.history, prices.capacity)| < recoveryTicks
    {
      var lo, hi := prices.View();
      assert prices.data[lo..hi] == Tail(prices.history, prices.capacity);
      tainted := gaps > 0 && hi - lo < recoveryTicks;
    }

    method Vwap() returns (value: Option<real>)
      requires Valid()
      ensures value == SessionVwap(State())
    {
      value := if !vwapValid || v <= 0.0 then None else Some(pv / v);
    }
  }
}
