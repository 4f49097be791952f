/** Pre-allocated ring buffers.  The backing array is twice the capacity and every value is written
    twice, so the retained window is always one contiguous slice. */
module Buffers {
  import opened Options

  /** The last `n` elements, or all of them. */
  function Tail<T>(s: seq<T>, n: nat): seq<T> {
    if |s| <= n then s else s[|s| - n..]
  }

  ghost predicate Mirrored(d: seq<real>, capacity: nat) {
    |d| == 2 * capacity && d[..capacity] == d[capacity..]
  }

  function NextSlot(index: nat, capacity: nat): nat {
    if index + 1 == capacity then 0 else index + 1
  }

  /** The buffer's contents as values: both halves agree, and the retained window is the tail of the history. */
  ghost predicate Window(d: seq<real>, capacity: nat, index: nat, count: nat, history: seq<real>) {
    && Mirrored(d, capacity) && index < capacity
    && count == (if |history| < capacity then |history| else capacity)
    && (count < capacity ==> index == count)
    && d[LowOf(index, count, capacity)..LowOf(index, count, capacity) + count] == Tail(history, capacity)
  }

  /** Where the oldest retained value sits. */
  function LowOf(index: nat, count: nat, capacity: nat): nat {
    if count < capacity then 0 else index
  }

  function WriteTwice(d: seq<real>, index: nat, capacity: nat, value: real): seq<real>
    requires |d| == 2 * capacity && index < capacity
  {
    d[index := value][index + capacity := value]
  }

  lemma WriteTwiceMirrors(d: seq<real>, index: nat, capacity: nat, value: real)
    requires Mirrored(d, capacity) && index < capacity
    ensures Mirrored(WriteTwice(d, index, capacity, value), capacity)
  {
    var d' := WriteTwice(d, index, capacity, value);
    assert d'[..capacity] == d[..capacity][index := value];
    assert d'[capacity..] == d[capacity..][index := value];
  }

  lemma WindowFacts(d: seq<real>, capacity: nat, index: nat, count: nat, history: seq<real>)
    requires capacity >= 1 && Window(d, capacity, index, count, history)
    ensures index < capacity && count == |Tail(history, capacity)| <= capacity && |d| == 2 * capacity
    ensures count == 0 <==> history == []
    ensures var newest := if index == 0 then capacity - 1 else index - 1;
            history != [] ==> d[newest] == history[|history| - 1]
  {
    if history != [] {
      var low := LowOf(index, count, capacity);
      assert d[low..low + count][count - 1] == history[|history| - 1];
      assert d[low + count - 1] == history[|history| - 1];
      if count == capacity && index > 0 {
        assert d[..capacity][index - 1] == d[capacity..][index - 1];
      }
    }
  }

  /** While the buffer fills, the window grows at its end. */
  lemma AppendFills(d: seq<real>, history: seq<real>, index: nat, count: nat, capacity: nat, value: real)
    requires Window(d, capacity, index, count, history) && count < capacity
    ensures Window(WriteTwice(d, index, capacity, value), capacity, NextSlot(index, capacity), count + 1, history + [value])
  {
    WriteTwiceMirrors(d, index, capacity, value);
    var d' := WriteTwice(d, index, capacity, value);
    assert d'[0..count + 1] == d[0..count] + [value];
  }

  /** Once full, it slides by one, wrapping through the mirror. */
  lemma AppendSlides(d: seq<real>, history: seq<real>, index: nat, capacity: nat, value: real)
    requires Window(d, capacity, index, capacity, history)
    ensures Window(WriteTwice(d, index, capacity, value), capacity, NextSlot(index, capacity), capacity, history + [value])
  {
    WriteTwiceMirrors(d, index, capacity, value);
    var d', kept := WriteTwice(d, index, capacity, value), Tail(history, capacity);
    assert Tail(history + [value], capacity) == kept[1..] + [value];
    if index + 1 == capacity {
      assert d'[0..capacity] == d[..capacity][..capacity - 1] + [value];
      assert d[capacity..][..capacity - 1] == d[index..index + capacity][1..];
    } else {
      assert d'[index + 1..index + 1 + capacity] == d[index..index + capacity][1..] + [value];
    }
  }

  /** What `last(n)` means on a window: the newest `n`, or for a negative `n` all but the oldest `-n`. */
  ghost function LastOf(history: seq<real>, capacity: nat, n: int): seq<real> {
    if n >= 0 then Tail(history, if n < capacity then n else capacity)
    else if -n <= |Tail(history, capacity)| then Tail(history, capacity)[-n..]
    else []
  }

  lemma LastIsSuffix(history: seq<real>, capacity: nat, n: int, skipped: nat)
    requires var size := |Tail(history, capacity)|;
      skipped == if n >= size then 0 else if n >= 0 then size - n else if -n < size then -n else size
    ensures Tail(history, capacity)[skipped..] == LastOf(history, capacity, n)
  {
  }

  class RingBuffer {
    const capacity: nat
    const data: array<real>
    var index: nat
    var count: nat
    ghost var history: seq<real>    // everything appended since the last clear

    ghost predicate Valid()
      reads this, data
    {
      && capacity >= 1 && data.Length == 2 * capacity
      && Window(data[..], capacity, index, count, history)
    }

    constructor (capacity: nat)
      requires capacity >= 1
      ensures Valid() && fresh(data) && this.capacity == capacity && history == []
    {
      this.capacity := capacity;
      data := new real[2 * capacity](_ => 0.0);
      index, count, history := 0, 0, [];
    }

    method Append(value: real)
      requires Valid()
      modifies this, data
      ensures Valid() && history == old(history) + [value]
    {
      hide Window;
      WindowFacts(data[..], capacity, index, count, history);
      if count < capacity {
        AppendFills(data[..], history, index, count, capacity, value);
      } else {
        AppendSlides(data[..], history, index, capacity, value);
      }
      NextSlotIsMod(index, capacity);
      data[index] := value;
      data[index + capacity] := value;
      assert data[..] == WriteTwice(old(data[..]), index, capacity, value);
      index := (index + 1) % capacity;
      if count < capacity {
        count := count + 1;
      }
      history := history + [value];
    }

    lemma NextSlotIsMod(index: nat, capacity: nat)
      requires index < capacity
      ensures (index + 1) % capacity == NextSlot(index, capacity)
    {
    }

    method Extend(values: seq<real>)
      requires Valid()
      modifies this, data
      ensures Valid() && history == old(history) + values
    {
      hide Valid;
      for i := 0 to |values|
        invariant Valid() && history == old(history) + values[..i]
      {
        Append(values[i]);
        assert values[..i + 1] == values[..i] + [values[i]];
      }
      assert values[..|values|] == values;
    }

    method Clear()
      requires Valid()
      modifies this
      ensures Valid() && history == []
    {
      index, count, history := 0, 0, [];
      assert Tail(history, capacity) == [];
    }

    /** Oldest first: one contiguous slice `data[lo..hi]`. */
    method View() returns (lo: nat, hi: nat)
      requires Valid()
      ensures lo <= hi <= data.Length && data[lo..hi] == Tail(history, capacity)
    {
      lo := LowOf(index, count, capacity);
      hi := lo + count;
      assert data[..][lo..hi] == data[lo..hi];
    }

    /** The most recent `n` values; for a negative `n`, everything retained but the oldest `-n`. */
    method Last(n: int) returns (lo: nat, hi: nat)
      requires Valid()
      ensures lo <= hi <= data.Length && data[lo..hi] == LastOf(history, capacity, n)
    {
      hide Window, Tail, LastOf;
      WindowFacts(data[..], capacity, index, count, history);
      var available := if n < count then n else count;
      ghost var skip := if n >= count then 0 else if n >= 0 then count - n else if -n < count then -n else count;
      LastIsSuffix(history, capacity, n, skip);
      if available == 0 {
        assert Tail(history, capacity)[skip..] == [];
        return 0, 0;
      }
      lo, hi := View();
      var skipped := if available > 0 then count - available else if -available < count then -available else count;
      assert data[lo + skipped..hi] == data[lo..hi][skipped..];
      lo := lo + skipped;
    }

    method Latest() returns (value: Option<real>)
      requires Valid()
      ensures value == if history == [] then None else Some(history[|history| - 1])
    {
      hide Window;
      WindowFacts(data[..], capacity, index, count, history);
      if count == 0 {
        return None;
      }
      var newest := (index + capacity - 1) % capacity;
      PreviousSlot(index, capacity);
      value := Some(data[newest]);
    }

    lemma PreviousSlot(index: nat, capacity: nat)
      requires index < capacity
      ensures (index + capacity - 1) % capacity == if index == 0 then capacity - 1 else index - 1
    {
      if index > 0 {
        assert index + capacity - 1 == (index - 1) + 1 * capacity;
      }
    }
  }

  datatype Candle = Candle(start: int, open: real, high: real, low: real, close: real, volume: real)

  datatype Series = Starts | Opens | Highs | Lows | Closes | Volumes {
    function Of(c: Candle): real {
      match this
      case Starts => c.start as real
      case Opens => c.open
      case Highs => c.high
      case Lows => c.low
      case Closes => c.close
      case Volumes => c.volume
    }
  }

  /** One field of every candle. */
  function Values(candles: seq<Candle>, f: Series): seq<real> {
    if candles == [] then [] else Values(candles[..|candles| - 1], f) + [f.Of(candles[|candles| - 1])]
  }

  lemma ValuesEmpty()
    ensures forall f :: Values([], f) == []
  {
  }

  lemma ValuesAppend(candles: seq<Candle>, c: Candle, f: Series)
    ensures Values(candles + [c], f) == Values(candles, f) + [f.Of(c)]
  {
    assert (candles + [c])[..|candles + [c]| - 1] == candles;
  }

  /** The six series are equally long and aligned: position k of each belongs to the same candle. */
  lemma {:induction false} SeriesAligned(candles: seq<Candle>, f: Series, capacity: nat, k: nat)
    requires k < |Tail(candles, capacity)|
    ensures |Tail(Values(candles, f), capacity)| == |Tail(candles, capacity)|
    ensures Tail(Values(candles, f), capacity)[k] == f.Of(Tail(candles, capacity)[k])
  {
    ValuesAt(candles, f, k + |candles| - |Tail(candles, capacity)|);
  }

  lemma {:induction false} ValuesAt(candles: seq<Candle>, f: Series, k: nat)
    requires k < |candles|
    ensures |Values(candles, f)| == |candles| && Values(candles, f)[k] == f.Of(candles[k])
  {
    var init := candles[..|candles| - 1];
    if init != [] {
      ValuesAt(init, f, if k < |init| then k else 0);
    }
  }

  /** Six parallel series that advance together. */
  class CandleBuffer {
    const capacity: nat
    const starts: RingBuffer
    const opens: RingBuffer
    const highs: RingBuffer
    const lows: RingBuffer
    const closes: RingBuffer
    const volumes: RingBuffer
    ghost var history: seq<Candle>    // everything pushed since the last clear
    ghost const parts: set<object>    // the six buffers and their arrays

    ghost predicate Valid()
      reads this, parts
    {
      && parts == {starts, opens, highs, lows, closes, volumes,
                   starts.data, opens.data, highs.data, lows.data, closes.data, volumes.data}
      && Separate()
      && this !in parts
      && capacity >= 1
      && Holds(starts, Values(history, Starts))
      && Holds(opens, Values(history, Opens))
      && Holds(highs, Values(history, Highs))
      && Holds(lows, Values(history, Lows))
      && Holds(closes, Values(history, Closes))
      && Holds(volumes, Values(history, Volumes))
    }

    ghost predicate Holds(b: RingBuffer, values: seq<real>)
      reads b, b.data
    {
      b.Valid() && b.capacity == capacity && b.history == values
    }

    /** Twelve different objects. */
    ghost predicate Separate() {
      && starts !in {opens, highs, lows, closes, volumes} && opens !in {highs, lows, closes, volumes}
      && highs !in {lows, closes, volumes} && lows !in {closes, volumes} && closes != volumes
      && starts.data !in {opens.data, highs.data, lows.data, closes.data, volumes.data}
      && opens.data !in {highs.data, lows.data, closes.data, volumes.data}
      && highs.data !in {lows.data, closes.data, volumes.data}
      && lows.data !in {closes.data, volumes.data} && closes.data != volumes.data
    }

    constructor (capacity: nat)
      requires capacity >= 1
      ensures Valid() && fresh(parts) && this.capacity == capacity && history == []
    {
      hide RingBuffer.Valid, Values;
      ValuesEmpty();
      this.capacity := capacity;
      var s := new RingBuffer(capacity);
      var o := new RingBuffer(capacity);
      var h := new RingBuffer(capacity);
      var l := new RingBuffer(capacity);
      var c := new RingBuffer(capacity);
      var v := new RingBuffer(capacity);
      starts, opens, highs, lows, closes, volumes := s, o, h, l, c, v;
      parts := {s, o, h, l, c, v, s.data, o.data, h.data, l.data, c.data, v.data};
      history := [];
    }

    method Push(c: Candle)
      requires Valid()
      modifies this, parts
      ensures Valid() && history == old(history) + [c]
    {
      hide RingBuffer.Valid, Values;
      ValuesAppend(history, c, Starts);
      ValuesAppend(history, c, Opens);
      ValuesAppend(history, c, Highs);
      ValuesAppend(history, c, Lows);
      ValuesAppend(history, c, Closes);
      ValuesAppend(history, c, Volumes);
      starts.Append(c.start as real);
      opens.Append(c.open);
      highs.Append(c.high);
      lows.Append(c.low);
      closes.Append(c.close);
      volumes.Append(c.volume);
      history := history + [c];
    }

    method Clear()
      requires Valid()
      modifies this, parts
      ensures Valid() && history == []
    {
      hide RingBuffer.Valid, Values;
      ValuesEmpty();
      starts.Clear();
      opens.Clear();
      highs.Clear();
      lows.Clear();
      closes.Clear();
      volumes.Clear();
      history := [];
    }
  }
}
