/** SmartStream binary packets: framing a buffer of concatenated packets by mode byte, and decoding a
    Mode 3 packet, each against an encoder. */
module Decoder {
  import opened Options
  import Lists

  type Byte = x: int | 0 <= x < 256

  // ---------- framing ----------

  function PacketSize(mode: Byte): (size: Option<nat>)
    ensures size.Some? ==> size.value >= 51
  {
    if mode == 1 then Some(51) else if mode == 2 then Some(123) else if mode == 3 then Some(379) else None
  }

  datatype Frames =
    | Framed(packets: seq<seq<Byte>>)
    | UnknownMode(offset: nat)
    | Truncated(offset: nat)

  /** Framing of what follows `offset`. */
  function Frame(payload: seq<Byte>, offset: nat): Frames
    requires offset <= |payload|
    decreases |payload| - offset
  {
    if offset == |payload| then Framed([])
    else
      match PacketSize(payload[offset])
      case None => UnknownMode(offset)
      case Some(size) =>
        if offset + size > |payload| then Truncated(offset)
        else
          match Frame(payload, offset + size)
          case Framed(rest) => Framed([payload[offset..offset + size]] + rest)
          case failure => failure
  }

  method IterPackets(payload: seq<Byte>) returns (r: Frames)
    ensures r == Frame(payload, 0)
  {
    var packets: seq<seq<Byte>> := [];
    var offset := 0;
    while offset < |payload|
      invariant 0 <= offset <= |payload|
      invariant Frame(payload, 0) == Prepend(packets, Frame(payload, offset))
    {
      var size := PacketSize(payload[offset]);
      if size.None? {
        return UnknownMode(offset);
      }
      var end := offset + size.value;
      if end > |payload| {
        return Truncated(offset);
      }
      PrependOne(packets, payload[offset..end], Frame(payload, end));
      packets := packets + [payload[offset..end]];
      offset := end;
    }
    r := Framed(packets);
    assert packets + [] == packets;
  }

  function Prepend(packets: seq<seq<Byte>>, f: Frames): Frames {
    if f.Framed? then Framed(packets + f.packets) else f
  }

  lemma PrependOne(packets: seq<seq<Byte>>, p: seq<Byte>, f: Frames)
    ensures Prepend(packets, Prepend([p], f)) == Prepend(packets + [p], f)
  {
    if f.Framed? {
      assert packets + ([p] + f.packets) == packets + [p] + f.packets;
    }
  }

  ghost predicate WellSized(p: seq<Byte>) {
    p != [] && PacketSize(p[0]) == Some(|p|)
  }

  function Concat(packets: seq<seq<Byte>>): seq<Byte> {
    if packets == [] then [] else packets[0] + Concat(packets[1..])
  }

  lemma FrameStep(payload: seq<Byte>, offset: nat, p: seq<Byte>)
    requires WellSized(p) && offset + |p| <= |payload| && payload[offset..offset + |p|] == p
    ensures Frame(payload, offset) == Prepend([p], Frame(payload, offset + |p|))
  {
    assert payload[offset] == payload[offset..offset + |p|][0];
  }

  lemma FrameNext(before: seq<Byte>, p: seq<Byte>, after: seq<Byte>)
    requires WellSized(p)
    ensures Frame(before + (p + after), |before|) == Prepend([p], Frame((before + p) + after, |before + p|))
  {
    hide Frame, WellSized, Prepend;
    var payload := before + (p + after);
    assert payload == (before + p) + after;
    assert payload[|before|..|before| + |p|] == p;
    FrameStep(payload, |before|, p);
  }

  lemma {:induction false} FramingAfter(before: seq<Byte>, packets: seq<seq<Byte>>)
    requires forall p <- packets :: WellSized(p)
    ensures Frame(before + Concat(packets), |before|) == Framed(packets)
    decreases |packets|
  {
    hide WellSized;
    if packets == [] {
      assert before + [] == before;
    } else {
      var p, rest := packets[0], packets[1..];
      FramingAfter(before + p, rest);
      FrameNext(before, p, Concat(rest));
      assert packets == [p] + rest;
    }
  }

  /** Framing undoes concatenation. */
  lemma FramingUndoesConcat(packets: seq<seq<Byte>>)
    requires forall p <- packets :: WellSized(p)
    ensures Frame(Concat(packets), 0) == Framed(packets)
  {
    FramingAfter([], packets);
    assert [] + Concat(packets) == Concat(packets);
  }

  /** And concatenation undoes framing: no byte is lost, and every packet has its mode's size. */
  lemma {:induction false} ConcatUndoesFraming(payload: seq<Byte>, offset: nat)
    requires offset <= |payload| && Frame(payload, offset).Framed?
    ensures Concat(Frame(payload, offset).packets) == payload[offset..]
    ensures forall p <- Frame(payload, offset).packets :: WellSized(p)
    decreases |payload| - offset
  {
    if offset < |payload| {
      var size := PacketSize(payload[offset]).value;
      ConcatUndoesFraming(payload, offset + size);
      var p, rest := payload[offset..offset + size], Frame(payload, offset + size).packets;
      assert ([p] + rest)[1..] == rest;
      assert payload[offset..] == p + payload[offset + size..];
    }
  }

  /** A buffer is refused exactly when it is not a concatenation of well-sized packets. */
  lemma FramesIff(payload: seq<Byte>)
    ensures Frame(payload, 0).Framed? <==> exists packets :: Concat(packets) == payload && forall p <- packets :: WellSized(p)
  {
    if Frame(payload, 0).Framed? {
      ConcatUndoesFraming(payload, 0);
      assert payload[0..] == payload;
      assert Concat(Frame(payload, 0).packets) == payload;
    }
    if packets :| Concat(packets) == payload && forall p <- packets :: WellSized(p) {
      FramingUndoesConcat(packets);
    }
  }

  /** A refusal points at the first byte that does not start a whole packet: everything before it is
      framed. */
  lemma {:induction false} RefusalIsAtFirstFault(payload: seq<Byte>, offset: nat)
    requires offset <= |payload| && !Frame(payload, offset).Framed?
    ensures var at := Frame(payload, offset).offset;
      && offset <= at < |payload|
      && (Frame(payload, offset).UnknownMode? <==> PacketSize(payload[at]).None?)
      && (Frame(payload, offset).Truncated? ==> at + PacketSize(payload[at]).value > |payload|)
      && Frame(payload[..at], offset).Framed?
    decreases |payload| - offset
  {
    var size := PacketSize(payload[offset]);
    if size.Some? && offset + size.value <= |payload| {
      RefusalIsAtFirstFault(payload, offset + size.value);
      var at := Frame(payload, offset + size.value).offset;
      assert payload[..at][offset] == payload[offset];
    }
  }

  // ---------- fixed layouts ----------

  /** A little-endian signed integer of some width, raw bytes kept as they are (text, doubles). */
  datatype Field = Int(width: nat) | Raw(width: nat)

  datatype Value = Number(i: int) | Bytes(b: seq<Byte>)

  function Pow256(width: nat): nat
    ensures Pow256(width) >= 1
  {
    if width == 0 then 1 else 256 * Pow256(width - 1)
  }

  function LittleEndian(n: nat, width: nat): (b: seq<Byte>)
    ensures |b| == width
  {
    if width == 0 then [] else [n % 256] + LittleEndian(n / 256, width - 1)
  }

  function Unsigned(b: seq<Byte>): nat {
    if b == [] then 0 else b[0] + 256 * Unsigned(b[1..])
  }

  function Signed(b: seq<Byte>): int {
    var u: int := Unsigned(b); if 2 * u < Pow256(|b|) then u else u - Pow256(|b|)
  }

  function TwosComplement(i: int, width: nat): nat
    requires i + Pow256(width) >= 0
  {
    if i < 0 then i + Pow256(width) else i
  }

  lemma {:induction false} UnsignedUndoes(n: nat, width: nat)
    requires n < Pow256(width)
    ensures Unsigned(LittleEndian(n, width)) == n
  {
    if width > 0 {
      UnsignedUndoes(n / 256, width - 1);
      assert LittleEndian(n, width)[1..] == LittleEndian(n / 256, width - 1);
    }
  }

  lemma {:induction false} LittleEndianUndoes(b: seq<Byte>)
    ensures Unsigned(b) < Pow256(|b|) && LittleEndian(Unsigned(b), |b|) == b
  {
    if b != [] {
      LittleEndianUndoes(b[1..]);
      assert Unsigned(b) % 256 == b[0] && Unsigned(b) / 256 == Unsigned(b[1..]);
      assert b == [b[0]] + b[1..];
    }
  }

  ghost predicate Fits(f: Field, v: Value) {
    match f
    case Int(w) => v.Number? && w >= 1 && 0 <= 2 * v.i + Pow256(w) < 2 * Pow256(w)
    case Raw(w) => v.Bytes? && |v.b| == w
  }

  ghost predicate AllFit(layout: seq<Field>, values: seq<Value>) {
    |layout| == |values| && forall i :: 0 <= i < |layout| ==> Fits(layout[i], values[i])
  }

  function Width(layout: seq<Field>): nat {
    if layout == [] then 0 else layout[0].width + Width(layout[1..])
  }

  function Write(f: Field, v: Value): (b: seq<Byte>)
    requires Fits(f, v)
    ensures |b| == f.width
  {
    match f
    case Int(w) => LittleEndian(TwosComplement(v.i, w), w)
    case Raw(w) => v.b
  }

  function Read(f: Field, b: seq<Byte>): Value
    requires |b| == f.width
  {
    match f
    case Int(_) => Number(Signed(b))
    case Raw(_) => Bytes(b)
  }

  lemma ReadUndoesWrite(f: Field, v: Value)
    requires Fits(f, v)
    ensures Read(f, Write(f, v)) == v
  {
    if f.Int? {
      UnsignedUndoes(TwosComplement(v.i, f.width), f.width);
    }
  }

  function Pack(layout: seq<Field>, values: seq<Value>): (b: seq<Byte>)
    requires AllFit(layout, values)
    ensures |b| == Width(layout)
  {
    if layout == [] then [] else Write(layout[0], values[0]) + Pack(layout[1..], values[1..])
  }

  function Unpack(layout: seq<Field>, b: seq<Byte>): (values: seq<Value>)
    requires |b| == Width(layout)
    ensures |values| == |layout|
  {
    if layout == [] then []
    else
      var w := layout[0].width;
      [Read(layout[0], b[..w])] + Unpack(layout[1..], b[w..])
  }

  /** Unpacking undoes packing, for any layout. */
  lemma {:induction false} UnpackUndoesPack(layout: seq<Field>, values: seq<Value>)
    requires AllFit(layout, values)
    ensures Unpack(layout, Pack(layout, values)) == values
  {
    if layout != [] {
      var w, b := layout[0].width, Pack(layout, values);
      ReadUndoesWrite(layout[0], values[0]);
      UnpackUndoesPack(layout[1..], values[1..]);
      assert b[..w] == Write(layout[0], values[0]) && b[w..] == Pack(layout[1..], values[1..]);
      assert values == [values[0]] + values[1..];
    }
  }

  lemma WriteUndoesRead(f: Field, b: seq<Byte>)
    requires |b| == f.width && (f.Int? ==> f.width >= 1)
    ensures Fits(f, Read(f, b)) && Write(f, Read(f, b)) == b
  {
    LittleEndianUndoes(b);
    hide Pow256, Unsigned, LittleEndian;
  }

  lemma FitCons(layout: seq<Field>, first: Value, rest: seq<Value>)
    requires layout != [] && Fits(layout[0], first) && AllFit(layout[1..], rest)
    ensures AllFit(layout, [first] + rest)
  {
    hide Fits;
    forall i | 0 <= i < |layout|
      ensures Fits(layout[i], ([first] + rest)[i])
    {
      assert i > 0 ==> layout[i] == layout[1..][i - 1] && ([first] + rest)[i] == rest[i - 1];
    }
  }

  /** And packing undoes unpacking: different bytes never read as the same fields. */
  lemma {:induction false} PackUndoesUnpack(layout: seq<Field>, b: seq<Byte>)
    requires |b| == Width(layout) && forall f <- layout :: f.Int? ==> f.width >= 1
    ensures AllFit(layout, Unpack(layout, b)) && Pack(layout, Unpack(layout, b)) == b
  {
    hide Fits, Read, Write, Pack, Unpack;
    if layout == [] {
      NoFields(b);
    } else {
      var w := layout[0].width;
      var first, rest := Read(layout[0], b[..w]), Unpack(layout[1..], b[w..]);
      UnpackCons(layout, b);
      WriteUndoesRead(layout[0], b[..w]);
      PackUndoesUnpack(layout[1..], b[w..]);
      FitCons(layout, first, rest);
      PackCons(layout, first, rest);
      assert b == b[..w] + b[w..];
    }
  }

  lemma NoFields(b: seq<Byte>)
    requires b == []
    ensures Unpack([], b) == [] && AllFit([], []) && Pack([], []) == b
  {
  }

  lemma UnpackCons(layout: seq<Field>, b: seq<Byte>)
    requires layout != [] && |b| == Width(layout)
    ensures Unpack(layout, b) == [Read(layout[0], b[..layout[0].width])] + Unpack(layout[1..], b[layout[0].width..])
  {
    hide Read;
  }

  lemma PackCons(layout: seq<Field>, first: Value, rest: seq<Value>)
    requires layout != [] && Fits(layout[0], first) && AllFit(layout[1..], rest) && AllFit(layout, [first] + rest)
    ensures Pack(layout, [first] + rest) == Write(layout[0], first) + Pack(layout[1..], rest)
  {
    hide Fits, Write;
    assert ([first] + rest)[1..] == rest;
  }

  lemma {:induction false} WidthConcat(a: seq<Field>, b: seq<Field>)
    ensures Width(a + b) == Width(a) + Width(b)
  {
    if a == [] {
      assert a + b == b;
    } else {
      WidthConcat(a[1..], b);
      assert (a + b)[1..] == a[1..] + b;
    }
  }

  function Repeat(f: Field, n: nat): seq<Field> { seq(n, _ => f) }

  lemma {:induction false} WidthRepeat(f: Field, n: nat)
    ensures Width(Repeat(f, n)) == n * f.width
  {
    if n > 0 {
      WidthRepeat(f, n - 1);
      assert Repeat(f, n)[1..] == Repeat(f, n - 1);
    }
  }

  // ---------- the Mode 3 packet ----------

  /** mode, exchange, token; six integers; two doubles; six integers; a double. */
  function HeadLayout(): seq<Field> {
    [Int(1), Int(1), Raw(25)] + Repeat(Int(8), 6) + Repeat(Raw(8), 2) + Repeat(Int(8), 6) + [Raw(8)]
  }

  /** flag, quantity, price, orders. */
  function EntryLayout(): seq<Field> { [Int(2), Int(8), Int(8), Int(2)] }

  function TailLayout(): seq<Field> { Repeat(Int(8), 4) }

  lemma HeadWidth()
    ensures Width(HeadLayout()) == 147 && |HeadLayout()| == 18
  {
    var a, b, c, d := [Int(1), Int(1), Raw(25)], Repeat(Int(8), 6), Repeat(Raw(8), 2), [Raw(8)];
    assert a == [Int(1)] + [Int(1)] + [Raw(25)];
    WidthConcat([Int(1)] + [Int(1)], [Raw(25)]);
    WidthConcat([Int(1)], [Int(1)]);
    WidthRepeat(Int(8), 6);
    WidthRepeat(Raw(8), 2);
    hide Repeat;
    WidthConcat(a + b + c + b, d);
    WidthConcat(a + b + c, b);
    WidthConcat(a + b, c);
    WidthConcat(a, b);
  }

  lemma EntryWidth()
    ensures Width(EntryLayout()) == 20
  {
    assert EntryLayout() == [Int(2)] + [Int(8)] + [Int(8)] + [Int(2)];
    WidthConcat([Int(2)] + [Int(8)] + [Int(8)], [Int(2)]);
    WidthConcat([Int(2)] + [Int(8)], [Int(8)]);
    WidthConcat([Int(2)], [Int(8)]);
  }

  lemma LayoutWidths()
    ensures Width(HeadLayout()) == 147 && Width(EntryLayout()) == 20 && Width(TailLayout()) == 32
    ensures |HeadLayout()| == 18 && |TailLayout()| == 4
  {
    HeadWidth();
    EntryWidth();
    WidthRepeat(Int(8), 4);
  }

  /** One of the ten depth entries, as sent. */
  datatype Entry = Entry(flag: int, quantity: int, price: int, orders: int) {
    ghost predicate Fits() {
      Is16(flag) && Is16(orders) && Is64(quantity) && Is64(price)
    }
  }

  predicate Is16(i: int) { -32768 <= i < 32768 }
  predicate Is64(i: int) { -0x8000_0000_0000_0000 <= i < 0x8000_0000_0000_0000 }

  lemma Powers()
    ensures Pow256(1) == 256 && Pow256(2) == 65536 && Pow256(8) == 0x1_0000_0000_0000_0000
  {
    assert Pow256(4) == 0x1_0000_0000;
    assert Pow256(6) == 0x1_0000_0000_0000;
  }

  /** A Mode 3 packet as sent: integers as on the wire, doubles as their eight bytes. */
  datatype Packet = Packet(
    mode: int, exchange: int, token: seq<Byte>,
    sequence: int, timestampMs: int, ltp: int, ltq: int, atp: int, volume: int,
    totalBuy: seq<Byte>, totalSell: seq<Byte>,
    open: int, high: int, low: int, close: int, lastTradedMs: int, openInterest: int,
    oiChange: seq<Byte>,
    depth: seq<Entry>,
    upperCircuit: int, lowerCircuit: int, high52: int, low52: int)
  {
    ghost predicate Fits() {
      && -128 <= mode < 128 && -128 <= exchange < 128 && |token| == 25
      && Is64(sequence) && Is64(timestampMs) && Is64(ltp) && Is64(ltq) && Is64(atp) && Is64(volume)
      && |totalBuy| == 8 && |totalSell| == 8 && |oiChange| == 8
      && Is64(open) && Is64(high) && Is64(low) && Is64(close) && Is64(lastTradedMs) && Is64(openInterest)
      && |depth| == 10 && (forall e <- depth :: e.Fits())
      && Is64(upperCircuit) && Is64(lowerCircuit) && Is64(high52) && Is64(low52)
    }

    function Head(): seq<Value> {
      [Number(mode), Number(exchange), Bytes(token)]
      + Numbers([sequence, timestampMs, ltp, ltq, atp, volume])
      + [Bytes(totalBuy), Bytes(totalSell)]
      + Numbers([open, high, low, close, lastTradedMs, openInterest])
      + [Bytes(oiChange)]
    }

    function Tail(): seq<Value> {
      Numbers([upperCircuit, lowerCircuit, high52, low52])
    }
  }

  function Numbers(xs: seq<int>): seq<Value> { seq(|xs|, i requires 0 <= i < |xs| => Number(xs[i])) }

  function EntryValues(e: Entry): seq<Value> {
    [Number(e.flag), Number(e.quantity), Number(e.price), Number(e.orders)]
  }

  lemma EntryFits(e: Entry)
    requires e.Fits()
    ensures AllFit(EntryLayout(), EntryValues(e))
  {
    Powers();
  }

  lemma NumbersFit(xs: seq<int>)
    requires forall x <- xs :: Is64(x)
    ensures AllFit(Repeat(Int(8), |xs|), Numbers(xs))
  {
    Powers();
    hide Pow256;
    forall i | 0 <= i < |xs|
      ensures Fits(Int(8), Number(xs[i]))
    {
      assert xs[i] in xs;
    }
  }

  lemma FitConcat(a: seq<Field>, b: seq<Field>, x: seq<Value>, y: seq<Value>)
    requires AllFit(a, x) && AllFit(b, y)
    ensures AllFit(a + b, x + y)
  {
  }

  lemma HeadFits(p: Packet)
    requires p.Fits()
    ensures AllFit(HeadLayout(), p.Head()) && AllFit(TailLayout(), p.Tail())
  {
    Powers();
    var i, j := [p.sequence, p.timestampMs, p.ltp, p.ltq, p.atp, p.volume],
                [p.open, p.high, p.low, p.close, p.lastTradedMs, p.openInterest];
    var a, x := [Int(1), Int(1), Raw(25)], [Number(p.mode), Number(p.exchange), Bytes(p.token)];
    var c, y := Repeat(Raw(8), 2), [Bytes(p.totalBuy), Bytes(p.totalSell)];
    assert AllFit(a, x) && AllFit(c, y) && AllFit([Raw(8)], [Bytes(p.oiChange)]);
    NumbersFit(i);
    NumbersFit(j);
    NumbersFit([p.upperCircuit, p.lowerCircuit, p.high52, p.low52]);
    hide AllFit, Repeat, Numbers;
    var n := Repeat(Int(8), 6);
    FitConcat(a, n, x, Numbers(i));
    FitConcat(a + n, c, x + Numbers(i), y);
    FitConcat(a + n + c, n, x + Numbers(i) + y, Numbers(j));
    FitConcat(a + n + c + n, [Raw(8)], x + Numbers(i) + y + Numbers(j), [Bytes(p.oiChange)]);
  }

  function EncodeDepth(entries: seq<Entry>): (b: seq<Byte>)
    requires forall e <- entries :: e.Fits()
    ensures |b| == 20 * |entries|
  {
    if entries == [] then []
    else
      EntryFits(entries[0]);
      LayoutWidths();
      Pack(EntryLayout(), EntryValues(entries[0])) + EncodeDepth(entries[1..])
  }

  function Encode(p: Packet): (b: seq<Byte>)
    requires p.Fits()
    ensures |b| == 379
  {
    HeadFits(p);
    LayoutWidths();
    Pack(HeadLayout(), p.Head()) + EncodeDepth(p.depth) + Pack(TailLayout(), p.Tail())
  }

  datatype Level = Level(price: real, quantity: int, orders: int)

  datatype SnapQuote = SnapQuote(
    token: string, exchange: int, sequence: int, timestampMs: int,
    ltp: real, ltq: int, atp: real, volume: int, totalBuy: seq<Byte>, totalSell: seq<Byte>,
    open: real, high: real, low: real, close: real, lastTradedMs: int, openInterest: int,
    bids: seq<Level>, asks: seq<Level>,
    upperCircuit: real, lowerCircuit: real, high52: real, low52: real)

  datatype Decoded = Quote(value: SnapQuote) | WrongLength | WrongMode

  function Divisor(exchange: int): real { if exchange == 13 then 10000000.0 else 100.0 }

  function Price(raw: int, divisor: real): real
    requires divisor != 0.0
  {
    raw as real / divisor
  }

  function LevelOf(e: Entry, divisor: real): Level
    requires divisor != 0.0
  {
    Level(Price(e.price, divisor), e.quantity, e.orders)
  }

  function NumberAt(values: seq<Value>, k: nat): int {
    if k < |values| && values[k].Number? then values[k].i else 0
  }

  function BytesAt(values: seq<Value>, k: nat): seq<Byte> {
    if k < |values| && values[k].Bytes? then values[k].b else []
  }

  function EntryOf(values: seq<Value>): Entry {
    Entry(NumberAt(values, 0), NumberAt(values, 1), NumberAt(values, 2), NumberAt(values, 3))
  }

  function Entries(b: seq<Byte>): seq<Entry>
    requires |b| % 20 == 0
  {
    if b == [] then []
    else
      LayoutWidths();
      [EntryOf(Unpack(EntryLayout(), b[..20]))] + Entries(b[20..])
  }

  /** The levels of one side, in the order they were sent. */
  function SideOf(entries: seq<Entry>, bids: bool, divisor: real): seq<Level>
    requires divisor != 0.0
  {
    if entries == [] then []
    else
      var e := entries[|entries| - 1];
      SideOf(entries[..|entries| - 1], bids, divisor) + if (e.flag == 1) == bids then [LevelOf(e, divisor)] else []
  }

  /** Classify by flag, not by position. */
  method SplitDepth(entries: seq<Entry>, divisor: real) returns (bids: seq<Level>, asks: seq<Level>)
    requires divisor != 0.0
    ensures bids == SideOf(entries, true, divisor) && asks == SideOf(entries, false, divisor)
  {
    bids, asks := [], [];
    for i := 0 to |entries|
      invariant bids == SideOf(entries[..i], true, divisor) && asks == SideOf(entries[..i], false, divisor)
    {
      var level := LevelOf(entries[i], divisor);
      assert entries[..i + 1][..i] == entries[..i];
      if entries[i].flag == 1 {
        bids := bids + [level];
      } else {
        asks := asks + [level];
      }
    }
    assert entries[..|entries|] == entries;
  }

  function Levels(entries: seq<Entry>, divisor: real): seq<Level>
    requires divisor != 0.0
  {
    if entries == [] then [] else Levels(entries[..|entries| - 1], divisor) + [LevelOf(entries[|entries| - 1], divisor)]
  }

  /** No level is lost, repeated or moved to the other side. */
  lemma {:induction false} NoLevelIsLost(entries: seq<Entry>, divisor: real)
    requires divisor != 0.0
    ensures multiset(SideOf(entries, true, divisor)) + multiset(SideOf(entries, false, divisor)) == multiset(Levels(entries, divisor))
    ensures |SideOf(entries, true, divisor)| + |SideOf(entries, false, divisor)| == |entries|
  {
    if entries != [] {
      NoLevelIsLost(entries[..|entries| - 1], divisor);
    }
  }

  /** A side is empty exactly when no entry carries its flag. */
  lemma {:induction false} SideEmptyIff(entries: seq<Entry>, bids: bool, divisor: real)
    requires divisor != 0.0
    ensures SideOf(entries, bids, divisor) == [] <==> forall e <- entries :: (e.flag == 1) != bids
  {
    if entries != [] {
      var most, e := entries[..|entries| - 1], entries[|entries| - 1];
      SideEmptyIff(most, bids, divisor);
      assert entries == most + [e];
    }
  }

  /** ASCII text, trailing NULs dropped, then stripped of white space. */
  function DecodeToken(raw: seq<Byte>): string { Strip(DropNuls(Ascii(raw))) }

  function Ascii(raw: seq<Byte>): string {
    if raw == [] then [] else Letter(raw[0]) + Ascii(raw[1..])
  }

  function Letter(b: Byte): string { if b < 128 then [b as char] else [] }

  function DropNuls(s: string): string {
    if s != [] && s[|s| - 1] == 0 as char then DropNuls(s[..|s| - 1]) else s
  }

  predicate IsSpace(c: char) {
    c == ' ' || 9 as char <= c <= 13 as char || 28 as char <= c <= 31 as char
  }

  function Strip(s: string): string {
    if s != [] && IsSpace(s[0]) then Strip(s[1..])
    else if s != [] && IsSpace(s[|s| - 1]) then Strip(s[..|s| - 1])
    else s
  }

  /** A token that survives: ASCII, with neither white space at an end nor a NUL at the last place. */
  ghost predicate CleanToken(token: string) {
    && |token| <= 25 && IsAscii(token)
    && (token != [] ==> !IsSpace(token[0]) && !IsSpace(token[|token| - 1]) && token[|token| - 1] != 0 as char)
  }

  predicate IsAscii(token: string) { forall i :: 0 <= i < |token| ==> token[i] < 128 as char }

  function AsciiBytes(token: string): (b: seq<Byte>)
    requires IsAscii(token)
    ensures |b| == |token|
  {
    if token == [] then [] else [token[0] as int] + AsciiBytes(token[1..])
  }

  function Zeros(n: nat): (b: seq<Byte>)
    ensures |b| == n
  {
    if n == 0 then [] else Zeros(n - 1) + [0]
  }

  function PadToken(token: string): (b: seq<Byte>)
    requires |token| <= 25 && IsAscii(token)
    ensures |b| == 25
  {
    AsciiBytes(token) + Zeros(25 - |token|)
  }

  lemma AsciiCons(x: Byte, raw: seq<Byte>)
    ensures Ascii([x] + raw) == Letter(x) + Ascii(raw)
  {
    assert ([x] + raw)[1..] == raw;
  }

  lemma {:induction false} AsciiConcat(a: seq<Byte>, b: seq<Byte>)
    ensures Ascii(a + b) == Ascii(a) + Ascii(b)
  {
    if a == [] {
      assert a + b == b;
    } else {
      hide Ascii, Letter;
      var x, rest := a[0], a[1..];
      AsciiConcat(rest, b);
      AsciiCons(x, rest);
      AsciiCons(x, rest + b);
      assert a == [x] + rest;
      Lists.Associates([x], rest, b);
      Lists.Associates(Letter(x), Ascii(rest), Ascii(b));
    }
  }

  lemma {:induction false} AsciiIdentity(token: string)
    requires IsAscii(token)
    ensures Ascii(AsciiBytes(token)) == token
  {
    if token != [] {
      AsciiIdentity(token[1..]);
      assert AsciiBytes(token)[1..] == AsciiBytes(token[1..]);
      assert token == [token[0]] + token[1..];
    }
  }

  lemma NulDropped(s: string)
    ensures DropNuls(s + [0 as char]) == DropNuls(s)
  {
    assert (s + [0 as char])[..|s|] == s;
  }

  lemma {:induction false} NulsDropped(token: string, n: nat)
    requires token != [] ==> token[|token| - 1] != 0 as char
    ensures DropNuls(token + Ascii(Zeros(n))) == token
  {
    if n == 0 {
      assert token + [] == token;
    } else {
      NulsDropped(token, n - 1);
      AsciiConcat(Zeros(n - 1), [0]);
      assert Ascii([0]) == [0 as char];
      hide Ascii, DropNuls;
      NulDropped(token + Ascii(Zeros(n - 1)));
      assert token + Ascii(Zeros(n)) == token + Ascii(Zeros(n - 1)) + [0 as char];
    }
  }

  /** The padded token field reads back as the token. */
  lemma TokenRoundTrip(token: string)
    requires CleanToken(token)
    ensures DecodeToken(PadToken(token)) == token
  {
    hide Ascii, AsciiBytes, Zeros, DropNuls, IsAscii;
    AsciiConcat(AsciiBytes(token), Zeros(25 - |token|));
    AsciiIdentity(token);
    NulsDropped(token, 25 - |token|);
  }

  /** What a packet means: prices in rupees, depth split into two ladders. */
  function Meaning(p: Packet): SnapQuote {
    var d := Divisor(p.exchange);
    SnapQuote(
      DecodeToken(p.token), p.exchange, p.sequence, p.timestampMs,
      Price(p.ltp, d), p.ltq, Price(p.atp, d), p.volume, p.totalBuy, p.totalSell,
      Price(p.open, d), Price(p.high, d), Price(p.low, d), Price(p.close, d), p.lastTradedMs, p.openInterest,
      SideOf(p.depth, true, d), SideOf(p.depth, false, d),
      Price(p.upperCircuit, d), Price(p.lowerCircuit, d), Price(p.high52, d), Price(p.low52, d))
  }

  /** The 18 head fields, the depth and the four tail fields. */
  function FromParts(h: seq<Value>, depth: seq<Entry>, t: seq<Value>): Packet {
    Packet(NumberAt(h, 0), NumberAt(h, 1), BytesAt(h, 2),
           NumberAt(h, 3), NumberAt(h, 4), NumberAt(h, 5), NumberAt(h, 6), NumberAt(h, 7), NumberAt(h, 8),
           BytesAt(h, 9), BytesAt(h, 10),
           NumberAt(h, 11), NumberAt(h, 12), NumberAt(h, 13), NumberAt(h, 14), NumberAt(h, 15), NumberAt(h, 16),
           BytesAt(h, 17),
           depth,
           NumberAt(t, 0), NumberAt(t, 1), NumberAt(t, 2), NumberAt(t, 3))
  }

  /** The three parts of a packet, unpacked at their fixed offsets 0, 147 and 347. */
  function Unpacked(payload: seq<Byte>): Packet
    requires |payload| == 379
  {
    LayoutWidths();
    FromParts(Unpack(HeadLayout(), payload[..147]), Entries(payload[147..347]), Unpack(TailLayout(), payload[347..]))
  }

  function DecodeSnapQuote(payload: seq<Byte>): Decoded {
    if |payload| != 379 then WrongLength
    else if Unpacked(payload).mode != 3 then WrongMode
    else Quote(Meaning(Unpacked(payload)))
  }

  lemma EntryUndone(e: Entry)
    requires e.Fits()
    ensures AllFit(EntryLayout(), EntryValues(e)) && Width(EntryLayout()) == 20
    ensures EntryOf(Unpack(EntryLayout(), Pack(EntryLayout(), EntryValues(e)))) == e
  {
    EntryFits(e);
    LayoutWidths();
    hide Pack, Unpack, AllFit, EntryLayout;
    UnpackUndoesPack(EntryLayout(), EntryValues(e));
  }

  lemma {:induction false} EntriesUndo(entries: seq<Entry>)
    requires forall e <- entries :: e.Fits()
    ensures Entries(EncodeDepth(entries)) == entries
  {
    if entries != [] {
      var e, rest := entries[0], entries[1..];
      EntriesUndo(rest);
      EntryUndone(e);
      var b, first := EncodeDepth(entries), Pack(EntryLayout(), EntryValues(e));
      hide Pack, Unpack, AllFit, EntryLayout, EntryValues, EntryOf;
      assert b == first + EncodeDepth(rest);
      assert b[..20] == first && b[20..] == EncodeDepth(rest);
      assert entries == [e] + rest;
    }
  }

  /** The three slices of an encoded packet. */
  lemma EncodedParts(p: Packet)
    requires p.Fits()
    ensures AllFit(HeadLayout(), p.Head()) && AllFit(TailLayout(), p.Tail())
    ensures Encode(p)[..147] == Pack(HeadLayout(), p.Head())
    ensures Encode(p)[147..347] == EncodeDepth(p.depth)
    ensures Encode(p)[347..] == Pack(TailLayout(), p.Tail())
  {
    hide Pack, EncodeDepth, HeadLayout, TailLayout, AllFit, Width, Packet.Head, Packet.Tail;
    HeadFits(p);
    LayoutWidths();
  }

  lemma FirstHeadFields(p: Packet, h: seq<Value>)
    requires h == p.Head()
    ensures |h| == 18
    ensures h[0] == Number(p.mode) && h[1] == Number(p.exchange) && h[2] == Bytes(p.token)
    ensures h[3] == Number(p.sequence) && h[4] == Number(p.timestampMs) && h[5] == Number(p.ltp)
    ensures h[6] == Number(p.ltq) && h[7] == Number(p.atp) && h[8] == Number(p.volume)
  {
  }

  lemma LastHeadFields(p: Packet, h: seq<Value>)
    requires h == p.Head()
    ensures |h| == 18
    ensures h[9] == Bytes(p.totalBuy) && h[10] == Bytes(p.totalSell) && h[11] == Number(p.open)
    ensures h[12] == Number(p.high) && h[13] == Number(p.low) && h[14] == Number(p.close)
    ensures h[15] == Number(p.lastTradedMs) && h[16] == Number(p.openInterest) && h[17] == Bytes(p.oiChange)
  {
  }

  lemma PartsUndone(p: Packet)
    ensures FromParts(p.Head(), p.depth, p.Tail()) == p
  {
    FirstHeadFields(p, p.Head());
    LastHeadFields(p, p.Head());
    hide Packet.Head;
  }

  /** Unpacking undoes the encoder, field by field. */
  lemma UnpackedUndoesEncode(p: Packet)
    requires p.Fits()
    ensures Unpacked(Encode(p)) == p
  {
    EncodedParts(p);
    EntriesUndo(p.depth);
    LayoutWidths();
    PartsUndone(p);
    UnpackUndoesPack(HeadLayout(), p.Head());
    UnpackUndoesPack(TailLayout(), p.Tail());
    hide Pack, Unpack, HeadLayout, TailLayout, EncodeDepth, Entries, AllFit, Width, FromParts, Encode,
         Packet.Head, Packet.Tail, Packet.Fits;
  }

  /** Decoding an encoded packet gives its meaning, or says that its mode is not 3. */
  lemma DecodeUndoesEncode(p: Packet)
    requires p.Fits()
    ensures DecodeSnapQuote(Encode(p)) == if p.mode == 3 then Quote(Meaning(p)) else WrongMode
  {
    UnpackedUndoesEncode(p);
  }
}
