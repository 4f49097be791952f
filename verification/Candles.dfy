/** Folding prints into 5-minute candles, against the offline grouping of the same prints. */
module Candles {
  import opened Options
  import opened Buffers

  datatype Print = Print(ts: real, price: real, size: real)

  const CANDLE_SECONDS := 300

  /** Start of the 5-minute bucket an instant falls in. */
  function Bucket(ts: real): int { (ts / 300.0).Floor * CANDLE_SECONDS }

  datatype Fold = Fold(closed: seq<Candle>, open: Option<Candle>)

  function Opened(bucket: int, p: Print): Candle {
    Candle(bucket, p.price, p.price, p.price, p.price, p.size)
  }

  function Grown(c: Candle, p: Print): Candle {
    c.(high := if p.price > c.high then p.price else c.high,
       low := if p.price < c.low then p.price else c.low,
       close := p.price,
       volume := c.volume + p.size)
  }

  function FoldPrint(f: Fold, p: Print): Fold {
    var bucket := Bucket(p.ts);
    match f.open
    case None => Fold(f.closed, Some(Opened(bucket, p)))
    case Some(c) =>
      if bucket > c.start then Fold(f.closed + [c], Some(Opened(bucket, p)))
      else Fold(f.closed, Some(Grown(c, p)))
  }

  function FoldAll(prints: seq<Print>): Fold {
    if prints == [] then Fold([], None)
    else FoldPrint(FoldAll(prints[..|prints| - 1]), prints[|prints| - 1])
  }

  /** The closed candles and the open one. */
  function Series(f: Fold): seq<Candle> {
    f.closed + match f.open case None => [] case Some(c) => [c]
  }

  function TotalVolume(candles: seq<Candle>): real {
    if candles == [] then 0.0 else TotalVolume(candles[..|candles| - 1]) + candles[|candles| - 1].volume
  }

  function TotalSize(prints: seq<Print>): real {
    if prints == [] then 0.0 else TotalSize(prints[..|prints| - 1]) + prints[|prints| - 1].size
  }

  ghost predicate Increasing(candles: seq<Candle>) {
    forall i, j :: 0 <= i < j < |candles| ==> candles[i].start < candles[j].start
  }

  ghost predicate WellFormed(c: Candle) {
    c.low <= c.open <= c.high && c.low <= c.close <= c.high
  }

  lemma TotalVolumeAppend(cs: seq<Candle>, c: Candle)
    ensures TotalVolume(cs + [c]) == TotalVolume(cs) + c.volume
  {
    assert (cs + [c])[..|cs + [c]| - 1] == cs;
  }

  /** What holds of the candles whatever the order of the prints. */
  ghost predicate SoundSeries(f: Fold, prints: seq<Print>) {
    && Increasing(Series(f))
    && (forall c <- Series(f) :: WellFormed(c))
    && TotalVolume(Series(f)) == TotalSize(prints)
    && (f.open.None? <==> prints == [])
    && (f.open.None? ==> f.closed == [])
  }

  lemma VolumeStep(f: Fold, prints: seq<Print>, p: Print)
    requires TotalVolume(Series(f)) == TotalSize(prints)
    requires f.open.None? ==> f.closed == []
    ensures TotalVolume(Series(FoldPrint(f, p))) == TotalSize(prints + [p])
  {
    var cs', b := Series(FoldPrint(f, p)), Bucket(p.ts);
    assert (prints + [p])[..|prints|] == prints;
    assert TotalSize(prints + [p]) == TotalSize(prints) + p.size;
    if f.open.None? {
      assert cs' == [] + [Opened(b, p)];
      TotalVolumeAppend([], Opened(b, p));
    } else if b > f.open.value.start {
      assert cs' == Series(f) + [Opened(b, p)];
      TotalVolumeAppend(Series(f), Opened(b, p));
    } else {
      TotalVolumeAppend(f.closed, f.open.value);
      TotalVolumeAppend(f.closed, Grown(f.open.value, p));
    }
  }

  lemma SoundStep(f: Fold, prints: seq<Print>, p: Print)
    requires SoundSeries(f, prints)
    ensures SoundSeries(FoldPrint(f, p), prints + [p])
  {
    VolumeStep(f, prints, p);
    SeriesStep(f, p);
    hide TotalSize, TotalVolume, Bucket, Increasing, WellFormed;
  }

  ghost predicate Ordered(cs: seq<Candle>) { Increasing(cs) && forall c <- cs :: WellFormed(c) }

  lemma SeriesStep(f: Fold, p: Print)
    requires Ordered(Series(f)) && (f.open.None? ==> f.closed == [])
    ensures Ordered(Series(FoldPrint(f, p)))
  {
    hide Ordered, Bucket;
    var b := Bucket(p.ts);
    if f.open.None? {
      OneCandle(b, p);
    } else if b > f.open.value.start {
      OneMore(f.closed, f.open.value, Opened(b, p));
    } else {
      OneGrown(f.closed, f.open.value, Grown(f.open.value, p));
    }
  }

  lemma OneCandle(b: int, p: Print)
    ensures Ordered([Opened(b, p)]) && [] + [Opened(b, p)] == [Opened(b, p)]
  {
  }

  lemma OneMore(cs: seq<Candle>, c: Candle, d: Candle)
    requires Ordered(cs + [c]) && c.start < d.start && WellFormed(d)
    ensures Ordered(cs + [c] + [d])
  {
    hide WellFormed;
    assert (cs + [c])[|cs|] == c;
  }

  lemma OneGrown(cs: seq<Candle>, c: Candle, d: Candle)
    requires Ordered(cs + [c]) && c.start == d.start && (WellFormed(c) ==> WellFormed(d))
    ensures Ordered(cs + [d])
  {
    hide WellFormed;
    assert (cs + [c])[|cs|] == c;
    StartsKept(cs, c, d);
    forall x | x in cs + [d]
      ensures WellFormed(x)
    {
      if x in cs {
        assert x in cs + [c];
      }
    }
  }

  lemma StartsKept(cs: seq<Candle>, c: Candle, d: Candle)
    requires Increasing(cs + [c]) && c.start == d.start
    ensures Increasing(cs + [d])
  {
    assert forall i :: 0 <= i < |cs| ==> (cs + [d])[i] == (cs + [c])[i];
    assert (cs + [d])[|cs|].start == (cs + [c])[|cs|].start;
  }

  /** For prints in any order: candle starts strictly increase, every candle is well formed, and no
      volume is lost or counted twice. */
  lemma {:induction false} CandlesInAnyOrder(prints: seq<Print>)
    ensures SoundSeries(FoldAll(prints), prints)
  {
    if prints != [] {
      var init := prints[..|prints| - 1];
      CandlesInAnyOrder(init);
      SoundStep(FoldAll(init), init, prints[|prints| - 1]);
      assert prints == init + [prints[|prints| - 1]];
    }
  }

  // ---------- the offline grouping ----------

  /** The prints of one bucket, in order. */
  function InBucket(prints: seq<Print>, bucket: int): seq<Print> {
    if prints == [] then []
    else InBucket(prints[..|prints| - 1], bucket) + if Bucket(prints[|prints| - 1].ts) == bucket then [prints[|prints| - 1]] else []
  }

  function Highest(prints: seq<Print>): real
    requires prints != []
  {
    var p := prints[|prints| - 1].price;
    if |prints| == 1 then p
    else var h := Highest(prints[..|prints| - 1]); if p > h then p else h
  }

  function Lowest(prints: seq<Print>): real
    requires prints != []
  {
    var p := prints[|prints| - 1].price;
    if |prints| == 1 then p
    else var l := Lowest(prints[..|prints| - 1]); if p < l then p else l
  }

  lemma {:induction false} HighestIsMax(prints: seq<Print>)
    requires prints != []
    ensures forall p <- prints :: Lowest(prints) <= p.price <= Highest(prints)
    ensures (exists p <- prints :: p.price == Highest(prints)) && (exists p <- prints :: p.price == Lowest(prints))
  {
    var init, last := prints[..|prints| - 1], prints[|prints| - 1];
    assert prints == init + [last] && last in prints;
    if init != [] {
      HighestIsMax(init);
      var h :| h in init && h.price == Highest(init);
      var l :| l in init && l.price == Lowest(init);
      assert h in prints && l in prints;
    }
  }

  /** First, greatest, least and last price of the bucket, and its volume. */
  function Summary(prints: seq<Print>, bucket: int): Candle
    requires InBucket(prints, bucket) != []
  {
    var ps := InBucket(prints, bucket);
    Candle(bucket, ps[0].price, Highest(ps), Lowest(ps), ps[|ps| - 1].price, TotalSize(ps))
  }

  ghost predicate TimeOrdered(prints: seq<Print>) {
    forall i, j :: 0 <= i < j < |prints| ==> prints[i].ts <= prints[j].ts
  }

  lemma BucketMonotone(a: real, b: real)
    requires a <= b
    ensures Bucket(a) <= Bucket(b)
  {
  }

  lemma {:induction false} NoneInLaterBucket(prints: seq<Print>, bucket: int)
    requires forall p <- prints :: Bucket(p.ts) != bucket
    ensures InBucket(prints, bucket) == []
  {
    if prints != [] {
      NoneInLaterBucket(prints[..|prints| - 1], bucket);
    }
  }

  lemma InBucketAppend(prints: seq<Print>, p: Print, bucket: int)
    ensures InBucket(prints + [p], bucket) == InBucket(prints, bucket) + if Bucket(p.ts) == bucket then [p] else []
  {
    assert (prints + [p])[..|prints + [p]| - 1] == prints;
  }

  /** Growing a bucket's candle by a print is summarising the bucket with that print added. */
  lemma GrownIsSummary(prints: seq<Print>, p: Print, bucket: int)
    requires InBucket(prints, bucket) != [] && Bucket(p.ts) == bucket
    ensures InBucket(prints + [p], bucket) != []
    ensures Grown(Summary(prints, bucket), p) == Summary(prints + [p], bucket)
  {
    var ps := InBucket(prints, bucket);
    InBucketAppend(prints, p, bucket);
    assert (ps + [p])[..|ps + [p]| - 1] == ps;
  }

  lemma OpenedIsSummary(prints: seq<Print>, p: Print)
    requires InBucket(prints, Bucket(p.ts)) == []
    ensures InBucket(prints + [p], Bucket(p.ts)) == [p]
    ensures Opened(Bucket(p.ts), p) == Summary(prints + [p], Bucket(p.ts))
  {
    InBucketAppend(prints, p, Bucket(p.ts));
    assert InBucket(prints + [p], Bucket(p.ts)) == [p];
    assert [p][..0] == [] && TotalSize([p]) == TotalSize([]) + p.size;
  }

  /** The candle is what the offline grouping says of its bucket. */
  ghost predicate Summarises(c: Candle, prints: seq<Print>) {
    InBucket(prints, c.start) != [] && c == Summary(prints, c.start)
  }

  lemma OtherBucketsUntouched(c: Candle, prints: seq<Print>, p: Print)
    requires Summarises(c, prints) && Bucket(p.ts) != c.start
    ensures Summarises(c, prints + [p])
  {
    InBucketAppend(prints, p, c.start);
    assert InBucket(prints + [p], c.start) == InBucket(prints, c.start);
  }

  /** Every candle summarises its bucket, every print has its candle, and the last candle is that of
      the last print. */
  ghost predicate Grouped(f: Fold, prints: seq<Print>) {
    && (forall c <- Series(f) :: Summarises(c, prints))
    && (forall p <- prints :: Covered(f, p))
    && (prints != [] ==> f.open.Some? && f.open.value.start == Bucket(prints[|prints| - 1].ts))
  }

  ghost predicate Covered(f: Fold, p: Print) {
    exists c <- Series(f) :: c.start == Bucket(p.ts)
  }

  /** For time-ordered prints the closed candles and the open one are exactly the offline grouping: one
      candle per bucket that holds a print, in order, each with its first, greatest, least and last
      price and its volume. */
  lemma {:induction false} CandlesAreOfflineGrouping(prints: seq<Print>)
    requires TimeOrdered(prints)
    ensures Grouped(FoldAll(prints), prints) && Increasing(Series(FoldAll(prints)))
  {
    CandlesInAnyOrder(prints);
    if prints != [] {
      var init, p := prints[..|prints| - 1], prints[|prints| - 1];
      assert prints == init + [p];
      CandlesAreOfflineGrouping(init);
      CandlesInAnyOrder(init);
      if init == [] {
        FirstPrint(p);
      } else {
        BucketMonotone(init[|init| - 1].ts, p.ts);
        if Bucket(p.ts) > FoldAll(init).open.value.start {
          NewBucket(FoldAll(init), init, p);
        } else {
          SameBucket(FoldAll(init), init, p);
        }
      }
    }
  }

  lemma FirstPrint(p: Print)
    ensures Grouped(FoldPrint(Fold([], None), p), [p])
  {
    OpenedIsSummary([], p);
    assert [] + [p] == [p];
    assert Series(FoldPrint(Fold([], None), p)) == [Opened(Bucket(p.ts), p)];
    assert Series(FoldPrint(Fold([], None), p))[0].start == Bucket(p.ts);
  }

  /** A print of a later bucket closes the open candle and starts one of its own. */
  lemma {:induction false} NewBucket(f: Fold, init: seq<Print>, p: Print)
    requires SoundSeries(f, init) && Grouped(f, init) && init != []
    requires Bucket(p.ts) > f.open.value.start
    ensures Grouped(FoldPrint(f, p), init + [p])
  {
    var f', b := FoldPrint(f, p), Bucket(p.ts);
    var cs, started := Series(f), Opened(b, p);
    assert Series(f') == cs + [started];
    StartsBelow(f);
    forall q <- init ensures Bucket(q.ts) != b && Covered(f', q) {
      assert Covered(f, q);
      var c :| c in cs && c.start == Bucket(q.ts);
      assert c in Series(f');
    }
    NoneInLaterBucket(init, b);
    OpenedIsSummary(init, p);
    assert started in Series(f');
    forall c <- cs ensures Summarises(c, init + [p]) {
      OtherBucketsUntouched(c, init, p);
    }
  }

  lemma StartsBelow(f: Fold)
    requires f.open.Some? && Increasing(Series(f))
    ensures forall c <- Series(f) :: c == f.open.value || (c in f.closed && c.start < f.open.value.start)
  {
    var cs := Series(f);
    assert cs[|f.closed|] == f.open.value;
    assert forall i :: 0 <= i < |f.closed| ==> cs[i] == f.closed[i];
  }

  /** A print of the open candle's bucket grows it. */
  lemma SameBucket(f: Fold, init: seq<Print>, p: Print)
    requires SoundSeries(f, init) && Grouped(f, init) && init != []
    requires Bucket(p.ts) == f.open.value.start
    ensures Grouped(FoldPrint(f, p), init + [p])
  {
    var f', b, c := FoldPrint(f, p), Bucket(p.ts), f.open.value;
    var cs, grown := Series(f), Grown(c, p);
    assert Series(f') == f.closed + [grown];
    StartsBelow(f);
    assert c in cs by { assert cs[|f.closed|] == c; }
    assert grown in Series(f');
    GrownIsSummary(init, p, b);
    forall d <- f.closed ensures Summarises(d, init + [p]) {
      assert d in cs;
      ClosedStartsBelow(f, d);
      OtherBucketsUntouched(d, init, p);
    }
    forall q <- init ensures Covered(f', q) {
      assert Covered(f, q);
      var d :| d in cs && d.start == Bucket(q.ts);
      if d != c {
        assert d in Series(f');
      }
    }
  }

  lemma ClosedStartsBelow(f: Fold, d: Candle)
    requires f.open.Some? && Increasing(Series(f)) && d in f.closed
    ensures d.start < f.open.value.start
  {
    var i :| 0 <= i < |f.closed| && f.closed[i] == d;
    assert Series(f)[i] == d && Series(f)[|f.closed|] == f.open.value;
  }

  // ---------- the grouping by the clock ----------

  /** A bucket starts at the last multiple of 300 seconds that is not after the instant. */
  lemma BucketIsFiveMinutes(ts: real)
    ensures Bucket(ts) % 300 == 0
    ensures Bucket(ts) as real <= ts < Bucket(ts) as real + 300.0
  {
  }

  /** A multiple of 300 seconds after one instant and at or before another. */
  ghost predicate TurnsBetween(k: int, earlier: real, later: real) {
    earlier < (300 * k) as real <= later
  }

  lemma SameBucketIff(earlier: real, later: real)
    requires earlier <= later
    ensures Bucket(earlier) == Bucket(later) <==> !exists k: int :: TurnsBetween(k, earlier, later)
  {
    hide Bucket;
    var a, b := Bucket(earlier), Bucket(later);
    BucketIsFiveMinutes(earlier);
    BucketIsFiveMinutes(later);
    if a != b {
      Multiples(a, b);
      assert TurnsBetween(b / 300, earlier, later);
    } else if k: int :| TurnsBetween(k, earlier, later) {
      Multiples(a, 300 * k);
      assert false;
    }
  }

  /** Multiples of 300 less than 300 apart are equal. */
  lemma Multiples(a: int, b: int)
    requires a % 300 == b % 300 == 0
    ensures a == b || a + 300 <= b || b + 300 <= a
  {
  }

  /** The candle holds the prints from the index `lo` on and before `hi`, which are all those of its five
      minutes: it opens with the first, closes with the last, spans all of them, touches its greatest and
      least, and adds up their sizes. */
  ghost predicate FiveMinutes(c: Candle, prints: seq<Print>, lo: int, hi: int) {
    && 0 <= lo < hi <= |prints| && c.start % 300 == 0
    && (forall i :: 0 <= i < |prints| ==>
          (lo <= i < hi <==> c.start as real <= prints[i].ts < c.start as real + 300.0))
    && c.open == prints[lo].price && c.close == prints[hi - 1].price
    && (forall p <- prints[lo..hi] :: c.low <= p.price <= c.high)
    && (exists p <- prints[lo..hi] :: p.price == c.high)
    && (exists p <- prints[lo..hi] :: p.price == c.low)
    && c.volume == TotalSize(prints[lo..hi])
  }

  /** The print lies in the candle's five minutes. */
  ghost predicate Spans(c: Candle, p: Print) { c.start as real <= p.ts < c.start as real + 300.0 }

  ghost predicate ShareACandle(candles: seq<Candle>, p: Print, q: Print) {
    exists c <- candles :: Spans(c, p) && Spans(c, q)
  }

  /** The prints of one bucket stand side by side. */
  lemma {:induction false} BucketIsSlice(prints: seq<Print>, bucket: int) returns (lo: int, hi: int)
    requires TimeOrdered(prints)
    ensures 0 <= lo <= hi <= |prints| && InBucket(prints, bucket) == prints[lo..hi]
    ensures forall i :: 0 <= i < |prints| ==> (lo <= i < hi <==> Bucket(prints[i].ts) == bucket)
  {
    hide Bucket;
    if prints == [] {
      lo, hi := 0, 0;
    } else {
      var n := |prints| - 1;
      lo, hi := BucketIsSlice(prints[..n], bucket);
      lo, hi := OneMorePrint(prints, bucket, lo, hi);
    }
  }

  ghost predicate IsSlice(prints: seq<Print>, n: nat, bucket: int, lo: int, hi: int)
    requires n <= |prints|
  {
    && 0 <= lo <= hi <= n
    && forall i :: 0 <= i < n ==> (lo <= i < hi <==> Bucket(prints[i].ts) == bucket)
  }

  lemma {:induction false} OneMorePrint(prints: seq<Print>, bucket: int, lo0: int, hi0: int) returns (lo: int, hi: int)
    requires TimeOrdered(prints) && prints != [] && IsSlice(prints, |prints| - 1, bucket, lo0, hi0)
    requires InBucket(prints[..|prints| - 1], bucket) == prints[..|prints| - 1][lo0..hi0]
    ensures IsSlice(prints, |prints|, bucket, lo, hi) && InBucket(prints, bucket) == prints[lo..hi]
  {
    hide Bucket, TimeOrdered;
    var n := |prints| - 1;
    assert prints[..n][lo0..hi0] == prints[lo0..hi0];
    lo, hi := lo0, hi0;
    if Bucket(prints[n].ts) == bucket {
      if lo == hi {
        lo := n;
      } else {
        NothingBetween(prints, bucket, lo, hi);
      }
      hi := n + 1;
      assert prints[lo..n] + [prints[n]] == prints[lo..hi];
    }
  }

  lemma NothingBetween(prints: seq<Print>, bucket: int, lo: int, hi: int)
    requires TimeOrdered(prints) && 0 <= lo < hi <= |prints| - 1
    requires IsSlice(prints, |prints| - 1, bucket, lo, hi) && Bucket(prints[|prints| - 1].ts) == bucket
    ensures hi == |prints| - 1
  {
    hide Bucket;
    if hi < |prints| - 1 {
      BucketMonotone(prints[lo].ts, prints[hi].ts);
      BucketMonotone(prints[hi].ts, prints[|prints| - 1].ts);
      assert false;
    }
  }

  lemma SummaryIsFiveMinutes(c: Candle, prints: seq<Print>) returns (lo: int, hi: int)
    requires TimeOrdered(prints) && Summarises(c, prints)
    ensures FiveMinutes(c, prints, lo, hi)
  {
    lo, hi := BucketIsSlice(prints, c.start);
    HighestIsMax(prints[lo..hi]);
    BucketIsFiveMinutes(prints[lo].ts);
    forall i | 0 <= i < |prints|
      ensures lo <= i < hi <==> c.start as real <= prints[i].ts < c.start as real + 300.0
    {
      BucketIsFiveMinutes(prints[i].ts);
      Nearest(prints[i].ts, c.start);
    }
  }

  /** Five minutes that start on a multiple of 300 seconds are one bucket. */
  lemma Nearest(ts: real, start: int)
    requires start % 300 == 0
    ensures Bucket(ts) == start <==> start as real <= ts < start as real + 300.0
  {
    BucketIsFiveMinutes(ts);
  }

  /** For time-ordered prints: every candle is that of its five minutes, which start on a multiple of 300
      seconds, and two prints share a candle exactly when no such multiple lies after the earlier and at
      or before the later. */
  lemma CandlesByTheClock(prints: seq<Print>)
    requires TimeOrdered(prints)
    ensures forall c <- Series(FoldAll(prints)) :: exists lo, hi :: FiveMinutes(c, prints, lo, hi)
    ensures forall i, j :: 0 <= i <= j < |prints| ==>
              (ShareACandle(Series(FoldAll(prints)), prints[i], prints[j])
               <==> !exists k: int :: TurnsBetween(k, prints[i].ts, prints[j].ts))
  {
    hide Grouped, ShareACandle, TurnsBetween, FiveMinutes, FoldAll, Bucket, Series;
    CandlesAreOfflineGrouping(prints);
    var f := FoldAll(prints);
    forall c <- Series(f) ensures exists lo, hi :: FiveMinutes(c, prints, lo, hi) {
      EachSummarises(f, prints, c);
      var lo, hi := SummaryIsFiveMinutes(c, prints);
    }
    forall i, j | 0 <= i <= j < |prints|
      ensures ShareACandle(Series(f), prints[i], prints[j])
              <==> !exists k: int :: TurnsBetween(k, prints[i].ts, prints[j].ts)
    {
      SharedIsSameBucket(f, prints, prints[i], prints[j]);
      SameBucketIff(prints[i].ts, prints[j].ts);
    }
  }

  lemma EachSummarises(f: Fold, prints: seq<Print>, c: Candle)
    requires Grouped(f, prints) && c in Series(f)
    ensures Summarises(c, prints)
  {
  }

  lemma SharedIsSameBucket(f: Fold, prints: seq<Print>, p: Print, q: Print)
    requires TimeOrdered(prints) && Grouped(f, prints) && p in prints && q in prints
    ensures ShareACandle(Series(f), p, q) <==> Bucket(p.ts) == Bucket(q.ts)
  {
    assert Covered(f, p);
    var c :| c in Series(f) && c.start == Bucket(p.ts);
    BucketIsFiveMinutes(p.ts);
    BucketIsFiveMinutes(q.ts);
    if Bucket(p.ts) == Bucket(q.ts) {
      assert Spans(c, p) && Spans(c, q);
    } else if ShareACandle(Series(f), p, q) {
      var d :| d in Series(f) && Spans(d, p) && Spans(d, q);
      var lo, hi := SummaryIsFiveMinutes(d, prints);
      Nearest(p.ts, d.start);
      Nearest(q.ts, d.start);
      assert false;
    }
  }
}
