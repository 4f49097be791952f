/** Where every field of a Mode 3 packet stands, byte by byte and without the layouts. */
module Offsets {
  import opened Decoder

  function ByteAt(b: seq<Byte>, i: nat): int
    requires i < |b|
  {
    b[i]
  }

  /** The signed little-endian number in the eight bytes from `at` on. */
  function Word(b: seq<Byte>, at: nat): int
    requires at + 8 <= |b|
  {
    ByteAt(b, at) + 0x100 * ByteAt(b, at + 1) + 0x1_0000 * ByteAt(b, at + 2) + 0x100_0000 * ByteAt(b, at + 3) + 0x1_0000_0000 * ByteAt(b, at + 4)
    + 0x100_0000_0000 * ByteAt(b, at + 5) + 0x1_0000_0000_0000 * ByteAt(b, at + 6) + 0x100_0000_0000_0000 * ByteAt(b, at + 7)
    - if ByteAt(b, at + 7) >= 128 then 0x1_0000_0000_0000_0000 else 0
  }

  /** The signed little-endian number in the two bytes from `at` on. */
  function Half(b: seq<Byte>, at: nat): int
    requires at + 2 <= |b|
  {
    ByteAt(b, at) + 0x100 * ByteAt(b, at + 1) - if ByteAt(b, at + 1) >= 128 then 0x1_0000 else 0
  }

  /** The signed number in one byte. */
  function SmallByte(b: Byte): int { var i: int := b; if i >= 128 then i - 256 else i }

  lemma UnsignedCons(b: seq<Byte>, at: nat, end: nat)
    requires at < end <= |b|
    ensures Unsigned(b[at..end]) == ByteAt(b, at) + 256 * Unsigned(b[at + 1..end])
  {
    assert b[at..end][1..] == b[at + 1..end];
  }

  lemma SignedByte(b: seq<Byte>, at: nat)
    requires at < |b|
    ensures Signed(b[at..at + 1]) == SmallByte(b[at])
  {
    UnsignedCons(b, at, at + 1);
    Powers();
  }

  lemma SignedHalf(b: seq<Byte>, at: nat)
    requires at + 2 <= |b|
    ensures Signed(b[at..at + 2]) == Half(b, at)
  {
    UnsignedCons(b, at, at + 2);
    UnsignedCons(b, at + 1, at + 2);
    Powers();
  }

  lemma SignedWord(b: seq<Byte>, at: nat)
    requires at + 8 <= |b|
    ensures Signed(b[at..at + 8]) == Word(b, at)
  {
    var u := Unsigned(b[at..at + 8]);
    UnsignedWord(b, at);
    LittleEndianUndoes(b[at..at + 7]);
    SevenBytes(b, at);
    Powers();
    hide Unsigned, Pow256, LittleEndian;
  }

  /** The seven lower bytes stay below 2 to the 56th. */
  lemma SevenBytes(b: seq<Byte>, at: nat)
    requires at + 8 <= |b|
    ensures ByteAt(b, at) + 0x100 * ByteAt(b, at + 1) + 0x1_0000 * ByteAt(b, at + 2) + 0x100_0000 * ByteAt(b, at + 3) + 0x1_0000_0000 * ByteAt(b, at + 4)
            + 0x100_0000_0000 * ByteAt(b, at + 5) + 0x1_0000_0000_0000 * ByteAt(b, at + 6) < 0x100_0000_0000_0000
  {
  }

  lemma UnsignedWord(b: seq<Byte>, at: nat)
    requires at + 8 <= |b|
    ensures Unsigned(b[at..at + 8])
         == ByteAt(b, at) + 0x100 * ByteAt(b, at + 1) + 0x1_0000 * ByteAt(b, at + 2) + 0x100_0000 * ByteAt(b, at + 3) + 0x1_0000_0000 * ByteAt(b, at + 4)
            + 0x100_0000_0000 * ByteAt(b, at + 5) + 0x1_0000_0000_0000 * ByteAt(b, at + 6) + 0x100_0000_0000_0000 * ByteAt(b, at + 7)
  {
    assert b[at + 8..at + 8] == [];
    UnsignedCons(b, at, at + 8);
    UnsignedCons(b, at + 1, at + 8);
    UnsignedCons(b, at + 2, at + 8);
    UnsignedCons(b, at + 3, at + 8);
    UnsignedCons(b, at + 4, at + 8);
    UnsignedCons(b, at + 5, at + 8);
    UnsignedCons(b, at + 6, at + 8);
    UnsignedCons(b, at + 7, at + 8);
    assert Unsigned([]) == 0;
    hide Unsigned;
  }

  // ---------- fields of a layout ----------

  lemma WidthSnoc(layout: seq<Field>, k: nat)
    requires k < |layout|
    ensures Width(layout[..k + 1]) == Width(layout[..k]) + layout[k].width
  {
    assert layout[..k + 1] == layout[..k] + [layout[k]];
    WidthConcat(layout[..k], [layout[k]]);
  }

  lemma PrefixWidth(layout: seq<Field>, k: nat)
    requires 0 < k < |layout|
    ensures Width(layout[..k]) == layout[0].width + Width(layout[1..][..k - 1])
    ensures Width(layout) == layout[0].width + Width(layout[1..])
  {
    assert layout[..k][1..] == layout[1..][..k - 1];
  }

  lemma SliceOfSlice(b: seq<Byte>, lo: nat, hi: nat, i: nat, j: nat)
    requires lo <= hi <= |b| && i <= j <= hi - lo
    ensures b[lo..hi][i..j] == b[lo + i..lo + j]
  {
    forall t | 0 <= t < j - i
      ensures b[lo..hi][i..j][t] == b[lo + i..lo + j][t]
    {
      assert b[lo..hi][i + t] == b[lo + (i + t)];
    }
  }

  /** Field `k` is read where the fields before it end. */
  lemma {:induction false} FieldAt(layout: seq<Field>, b: seq<Byte>, k: nat)
    requires |b| == Width(layout) && k < |layout|
    ensures Width(layout[..k]) + layout[k].width <= |b|
    ensures Unpack(layout, b)[k] == Read(layout[k], b[Width(layout[..k])..Width(layout[..k]) + layout[k].width])
  {
    UnpackCons(layout, b);
    if k == 0 {
      hide Read, Unpack;
      assert layout[..0] == [];
    } else {
      hide Read, Unpack, Width;
      var w := layout[0].width;
      PrefixWidth(layout, k);
      FieldAt(layout[1..], b[w..], k - 1);
      var at := Width(layout[1..][..k - 1]);
      SliceOfSlice(b, w, |b|, at, at + layout[k].width);
      assert b[w..|b|] == b[w..];
    }
  }

  /** The same of the part of a payload that a layout fills. */
  lemma PartFieldAt(layout: seq<Field>, b: seq<Byte>, lo: nat, hi: nat, k: nat, at: nat)
    requires lo <= hi <= |b| && Width(layout) == hi - lo && k < |layout| && Width(layout[..k]) == at
    ensures lo + at + layout[k].width <= hi
    ensures Unpack(layout, b[lo..hi])[k] == Read(layout[k], b[lo + at..lo + at + layout[k].width])
  {
    hide Unpack, Width, Read;
    FieldAt(layout, b[lo..hi], k);
    SliceOfSlice(b, lo, hi, at, at + layout[k].width);
  }

  lemma NumberField(layout: seq<Field>, b: seq<Byte>, lo: nat, hi: nat, k: nat, at: nat)
    requires lo <= hi <= |b| && Width(layout) == hi - lo && k < |layout| && Width(layout[..k]) == at
    requires layout[k].Int?
    ensures lo + at + layout[k].width <= hi
    ensures NumberAt(Unpack(layout, b[lo..hi]), k) == Signed(b[lo + at..lo + at + layout[k].width])
  {
    hide Unpack, Width, Signed;
    PartFieldAt(layout, b, lo, hi, k, at);
  }

  lemma BytesField(layout: seq<Field>, b: seq<Byte>, lo: nat, hi: nat, k: nat, at: nat)
    requires lo <= hi <= |b| && Width(layout) == hi - lo && k < |layout| && Width(layout[..k]) == at
    requires layout[k].Raw?
    ensures lo + at + layout[k].width <= hi
    ensures BytesAt(Unpack(layout, b[lo..hi]), k) == b[lo + at..lo + at + layout[k].width]
  {
    hide Unpack, Width, Signed;
    PartFieldAt(layout, b, lo, hi, k, at);
  }

  /** The head: mode, exchange, the token, and eight bytes each. */
  lemma HeadField(k: nat)
    requires k < 18
    ensures |HeadLayout()| == 18
    ensures HeadLayout()[k] == if k < 2 then Int(1) else if k == 2 then Raw(25)
                               else if k in {9, 10, 17} then Raw(8) else Int(8)
  {
  }

  lemma {:induction false} HeadStarts(k: nat)
    requires k < 18
    ensures |HeadLayout()| == 18 && Width(HeadLayout()) == 147
    ensures Width(HeadLayout()[..k]) == if k < 3 then k else 27 + 8 * (k - 3)
    ensures HeadLayout()[k] == if k < 2 then Int(1) else if k == 2 then Raw(25)
                               else if k in {9, 10, 17} then Raw(8) else Int(8)
  {
    hide HeadLayout;
    LayoutWidths();
    HeadField(k);
    if k > 0 {
      HeadStarts(k - 1);
      hide Width;
      WidthSnoc(HeadLayout(), k - 1);
    }
  }

  /** The numbers and byte strings of the head, by their place in it. */
  lemma HeadNumber(b: seq<Byte>, k: nat)
    requires |b| == 379 && 3 <= k < 17 && k !in {9, 10}
    ensures Width(HeadLayout()) == 147 && NumberAt(Unpack(HeadLayout(), b[..147]), k) == Word(b, 3 + 8 * k)
  {
    hide HeadLayout, Unpack, Width, Signed, NumberAt, Word;
    HeadStarts(k);
    NumberField(HeadLayout(), b, 0, 147, k, 3 + 8 * k);
    SignedWord(b, 3 + 8 * k);
  }

  lemma HeadBytes(b: seq<Byte>, k: nat)
    requires |b| == 379 && k in {9, 10}
    ensures Width(HeadLayout()) == 147 && BytesAt(Unpack(HeadLayout(), b[..147]), k) == b[3 + 8 * k..11 + 8 * k]
  {
    hide HeadLayout, Unpack, Width, BytesAt;
    HeadStarts(k);
    BytesField(HeadLayout(), b, 0, 147, k, 3 + 8 * k);
  }

  lemma HeadOpening(b: seq<Byte>)
    requires |b| == 379
    ensures Width(HeadLayout()) == 147
    ensures var h := Unpack(HeadLayout(), b[..147]);
      && NumberAt(h, 0) == SmallByte(b[0]) && NumberAt(h, 1) == SmallByte(b[1]) && BytesAt(h, 2) == b[2..27]
  {
    hide HeadLayout, Unpack, Width, Signed, NumberAt, BytesAt;
    HeadStarts(0);
    HeadStarts(1);
    HeadStarts(2);
    NumberField(HeadLayout(), b, 0, 147, 0, 0);
    NumberField(HeadLayout(), b, 0, 147, 1, 1);
    BytesField(HeadLayout(), b, 0, 147, 2, 2);
    SignedByte(b, 0);
    SignedByte(b, 1);
  }

  lemma TailStarts(k: nat)
    requires k < 4
    ensures |TailLayout()| == 4 && Width(TailLayout()) == 32 && Width(TailLayout()[..k]) == 8 * k
    ensures TailLayout()[k] == Int(8)
  {
    hide Width;
    LayoutWidths();
    WidthRepeat(Int(8), k);
    assert TailLayout()[..k] == Repeat(Int(8), k);
  }

  lemma TailNumber(b: seq<Byte>, k: nat)
    requires |b| == 379 && k < 4
    ensures Width(TailLayout()) == 32 && NumberAt(Unpack(TailLayout(), b[347..]), k) == Word(b, 347 + 8 * k)
  {
    hide TailLayout, Unpack, Width, Signed, NumberAt, Word;
    TailStarts(k);
    NumberField(TailLayout(), b, 347, 379, k, 8 * k);
    SignedWord(b, 347 + 8 * k);
    assert b[347..379] == b[347..];
  }

  /** The depth entry in the twenty bytes from `at` on. */
  function EntryAt(b: seq<Byte>, at: nat): Entry
    requires at + 20 <= |b|
  {
    Entry(Half(b, at), Word(b, at + 2), Word(b, at + 10), Half(b, at + 18))
  }

  lemma EntryStarts()
    ensures |EntryLayout()| == 4 && Width(EntryLayout()) == 20
    ensures Width(EntryLayout()[..0]) == 0 && Width(EntryLayout()[..1]) == 2
    ensures Width(EntryLayout()[..2]) == 10 && Width(EntryLayout()[..3]) == 18
  {
    LayoutWidths();
    WidthSnoc(EntryLayout(), 0);
    WidthSnoc(EntryLayout(), 1);
    WidthSnoc(EntryLayout(), 2);
  }

  lemma EntryIsRead(b: seq<Byte>, at: nat)
    requires at + 20 <= |b|
    ensures Width(EntryLayout()) == 20 && EntryOf(Unpack(EntryLayout(), b[at..at + 20])) == EntryAt(b, at)
  {
    EntryStarts();
    var layout := EntryLayout();
    assert layout[0] == layout[3] == Int(2) && layout[1] == layout[2] == Int(8);
    hide Unpack, Width, Signed, Word, Half, NumberAt, EntryLayout;
    NumberField(layout, b, at, at + 20, 0, 0);
    NumberField(layout, b, at, at + 20, 1, 2);
    NumberField(layout, b, at, at + 20, 2, 10);
    NumberField(layout, b, at, at + 20, 3, 18);
    SignedHalf(b, at);
    SignedWord(b, at + 2);
    SignedWord(b, at + 10);
    SignedHalf(b, at + 18);
  }

  lemma {:induction false} EntriesAre(b: seq<Byte>, from: nat, count: nat)
    requires from + 20 * count <= |b|
    ensures |Entries(b[from..from + 20 * count])| == count
    ensures forall k :: 0 <= k < count ==> Entries(b[from..from + 20 * count])[k] == EntryAt(b, from + 20 * k)
    decreases count
  {
    hide EntryAt, EntryOf, Unpack;
    if count > 0 {
      var d := b[from..from + 20 * count];
      EntriesAre(b, from + 20, count - 1);
      EntryIsRead(b, from);
      SliceOfSlice(b, from, from + 20 * count, 0, 20);
      SliceOfSlice(b, from, from + 20 * count, 20, 20 * count);
      assert d[20..] == d[20..20 * count];
      forall k | 0 <= k < count
        ensures Entries(d)[k] == EntryAt(b, from + 20 * k)
      {
        if k > 0 {
          assert Entries(d)[k] == Entries(d[20..])[k - 1] == EntryAt(b, from + 20 + 20 * (k - 1));
        }
      }
    }
  }

  // ---------- the packet ----------

  /** A Mode 3 payload of the right length decodes to these bytes: numbers at fixed offsets, prices over
      the exchange's divisor, which is ten million for exchange 13 and a hundred for any other. */
  lemma QuoteByOffset(b: seq<Byte>)
    requires |b| == 379 && b[0] == 3
    ensures DecodeSnapQuote(b).Quote?
    ensures var q, d := DecodeSnapQuote(b).value, if b[1] == 13 then 10000000.0 else 100.0;
      && q.token == DecodeToken(b[2..27]) && q.exchange == SmallByte(b[1])
      && q.sequence == Word(b, 27) && q.timestampMs == Word(b, 35)
      && q.ltp == Word(b, 43) as real / d && q.ltq == Word(b, 51)
      && q.atp == Word(b, 59) as real / d && q.volume == Word(b, 67)
      && q.totalBuy == b[75..83] && q.totalSell == b[83..91]
      && q.open == Word(b, 91) as real / d && q.high == Word(b, 99) as real / d
      && q.low == Word(b, 107) as real / d && q.close == Word(b, 115) as real / d
      && q.lastTradedMs == Word(b, 123) && q.openInterest == Word(b, 131)
      && q.upperCircuit == Word(b, 347) as real / d && q.lowerCircuit == Word(b, 355) as real / d
      && q.high52 == Word(b, 363) as real / d && q.low52 == Word(b, 371) as real / d
  {
    hide Word, Signed, Unpack, HeadLayout, TailLayout, Entries, SideOf, DecodeToken, NumberAt, BytesAt;
    HeadOpening(b);
    HeadNumber(b, 3);
    HeadNumber(b, 4);
    HeadNumber(b, 5);
    HeadNumber(b, 6);
    HeadNumber(b, 7);
    HeadNumber(b, 8);
    HeadBytes(b, 9);
    HeadBytes(b, 10);
    HeadNumber(b, 11);
    HeadNumber(b, 12);
    HeadNumber(b, 13);
    HeadNumber(b, 14);
    HeadNumber(b, 15);
    HeadNumber(b, 16);
    TailNumber(b, 0);
    TailNumber(b, 1);
    TailNumber(b, 2);
    TailNumber(b, 3);
  }

  /** Any other payload is refused: for its length, or for its mode byte. */
  lemma RefusedIff(b: seq<Byte>)
    ensures DecodeSnapQuote(b) == WrongLength <==> |b| != 379
    ensures DecodeSnapQuote(b) == WrongMode <==> |b| == 379 && b[0] != 3
  {
    if |b| == 379 {
      hide Signed, Unpack, HeadLayout, TailLayout, Entries, SideOf, DecodeToken, Meaning;
      HeadOpening(b);
    }
  }

  // ---------- the ladders ----------

  predicate OnSide(entries: seq<Entry>, i: int, bids: bool) {
    0 <= i < |entries| && (entries[i].flag == 1) == bids
  }

  /** How many of the first `k` entries are on this side. */
  function Ahead(entries: seq<Entry>, k: nat, bids: bool): nat {
    |set i | 0 <= i < k && OnSide(entries, i, bids)|
  }

  lemma NoneAhead(entries: seq<Entry>, bids: bool)
    ensures Ahead(entries, 0, bids) == 0
  {
    hide OnSide;
    assert (set i | 0 <= i < 0 && OnSide(entries, i, bids)) == {};
  }

  lemma AheadStep(entries: seq<Entry>, k: nat, bids: bool)
    ensures Ahead(entries, k + 1, bids) == Ahead(entries, k, bids) + if OnSide(entries, k, bids) then 1 else 0
  {
    hide OnSide;
    var before := set i | 0 <= i < k && OnSide(entries, i, bids);
    var all := set i | 0 <= i < k + 1 && OnSide(entries, i, bids);
    if OnSide(entries, k, bids) {
      assert all == before + {k};
    } else {
      assert all == before;
    }
  }

  lemma {:induction false} SideCounts(entries: seq<Entry>, k: nat, bids: bool, divisor: real)
    requires divisor != 0.0 && k <= |entries|
    ensures |SideOf(entries[..k], bids, divisor)| == Ahead(entries, k, bids)
  {
    hide LevelOf, Ahead;
    if k == 0 {
      NoneAhead(entries, bids);
    } else {
      SideCounts(entries, k - 1, bids, divisor);
      AheadStep(entries, k - 1, bids);
      assert entries[..k][..k - 1] == entries[..k - 1];
    }
  }

  /** Each entry is a level of the side its flag names, behind those of that side before it. */
  lemma {:induction false} LevelInOrder(entries: seq<Entry>, k: nat, n: nat, divisor: real)
    requires k < n <= |entries| && divisor != 0.0
    ensures var bid := entries[k].flag == 1;
      var side, ahead := SideOf(entries[..n], bid, divisor), Ahead(entries, k, bid);
      ahead < |side| && side[ahead] == LevelOf(entries[k], divisor)
    decreases n
  {
    hide LevelOf, Ahead;
    assert entries[..n][..n - 1] == entries[..n - 1];
    if k < n - 1 {
      LevelInOrder(entries, k, n - 1, divisor);
    } else {
      SideCounts(entries, k, entries[k].flag == 1, divisor);
    }
  }

  /** The ten entries of twenty bytes from byte 147 on make up the two ladders: each is a level of its
      side, a bid exactly when its flag is 1, behind those of that side that are sent before it. */
  lemma LevelByOffset(b: seq<Byte>, k: nat)
    requires |b| == 379 && b[0] == 3 && k < 10
    ensures DecodeSnapQuote(b).Quote?
    ensures var q, d, sent := DecodeSnapQuote(b).value, if b[1] == 13 then 10000000.0 else 100.0, Sent(b);
      var bid := sent[k].flag == 1;
      var side, ahead := if bid then q.bids else q.asks, Ahead(sent, k, bid);
      && |q.bids| + |q.asks| == 10 && ahead < |side|
      && side[ahead] == Level(sent[k].price as real / d, sent[k].quantity, sent[k].orders)
  {
    hide Word, Half, Signed, Unpack, HeadLayout, TailLayout, Entries, SideOf, DecodeToken, NumberAt, BytesAt, Ahead, Sent;
    QuoteByOffset(b);
    HeadOpening(b);
    var sent, d := Sent(b), Divisor(DecodeSnapQuote(b).value.exchange);
    SentIsRead(b);
    LevelInOrder(sent, k, 10, d);
    NoLevelIsLost(sent, d);
    assert sent[..10] == sent;
  }

  /** The entries as sent: flag, quantity, price and number of orders. */
  function Sent(b: seq<Byte>): (entries: seq<Entry>)
    requires |b| == 379
    ensures |entries| == 10
  {
    seq(10, k requires 0 <= k < 10 => EntryAt(b, 147 + 20 * k))
  }

  lemma SentIsRead(b: seq<Byte>)
    requires |b| == 379
    ensures Entries(b[147..347]) == Sent(b)
  {
    hide EntryAt, Entries;
    EntriesAre(b, 147, 10);
  }

  // ---------- the token ----------

  /** What Python calls white space among the first 128 characters. */
  ghost predicate AllBlank(s: string) { forall c <- s :: c as int in {9, 10, 11, 12, 13, 28, 29, 30, 31, 32} }

  ghost predicate StartsBlank(s: string) { s != [] && AllBlank(s[..1]) }

  ghost predicate EndsBlank(s: string) { s != [] && AllBlank(s[|s| - 1..]) }

  /** A byte above 127 is dropped, and any other is its character. */
  lemma OnlyAsciiIsKept(before: seq<Byte>, x: Byte, after: seq<Byte>)
    ensures Ascii([]) == []
    ensures Ascii(before + [x] + after) == Ascii(before) + (if x > 127 then [] else [x as char]) + Ascii(after)
  {
    AsciiConcat(before + [x], after);
    AsciiConcat(before, [x]);
    assert Ascii([x]) == Letter(x) + Ascii([]);
    assert Letter(x) + [] == Letter(x);
  }

  lemma {:induction false} NulsAtTheEnd(s: string) returns (nuls: string)
    ensures s == DropNuls(s) + nuls && forall c <- nuls :: c as int == 0
    ensures DropNuls(s) != [] ==> DropNuls(s)[|DropNuls(s)| - 1] as int != 0
  {
    nuls := [];
    if s != [] && s[|s| - 1] == 0 as char {
      nuls := NulsAtTheEnd(s[..|s| - 1]);
      nuls := nuls + [0 as char];
    } else {
      assert s + [] == s;
    }
  }

  lemma SpaceIsBlank(c: char)
    ensures IsSpace(c) <==> AllBlank([c])
  {
    assert c in [c];
  }

  /** `core` stands between blanks, and has none at its own ends. */
  ghost predicate Between(s: string, left: string, core: string, right: string) {
    && s == left + core + right && AllBlank(left) && AllBlank(right)
    && !StartsBlank(core) && !EndsBlank(core)
  }

  lemma BlankBefore(c: char, s: string, left: string, core: string, right: string)
    requires Between(s, left, core, right) && AllBlank([c])
    ensures Between([c] + s, [c] + left, core, right)
  {
    hide StartsBlank, EndsBlank;
    assert c in [c];
    assert [c] + (left + core + right) == [c] + left + core + right;
  }

  lemma BlankAfter(c: char, s: string, left: string, core: string, right: string)
    requires Between(s, left, core, right) && AllBlank([c])
    ensures Between(s + [c], left, core, right + [c])
  {
    hide StartsBlank, EndsBlank;
    assert c in [c];
    assert left + core + right + [c] == left + core + (right + [c]);
  }

  lemma NoBlanksAtTheEnds(s: string)
    requires s != "" ==> !IsSpace(s[0]) && !IsSpace(s[|s| - 1])
    ensures Between(s, "", s, "")
  {
    assert "" + s + "" == s;
    if s != "" {
      SpaceIsBlank(s[0]);
      SpaceIsBlank(s[|s| - 1]);
      assert s[..1] == [s[0]] && s[|s| - 1..] == [s[|s| - 1]];
    }
  }

  lemma {:induction false} BlanksAtTheEnds(s: string) returns (left: string, right: string)
    ensures Between(s, left, Strip(s), right)
  {
    hide Between, AllBlank, IsSpace;
    left, right := "", "";
    if s != "" && IsSpace(s[0]) {
      SpaceIsBlank(s[0]);
      left, right := BlanksAtTheEnds(s[1..]);
      BlankBefore(s[0], s[1..], left, Strip(s[1..]), right);
      left := [s[0]] + left;
      assert s == [s[0]] + s[1..];
    } else if s != "" && IsSpace(s[|s| - 1]) {
      SpaceIsBlank(s[|s| - 1]);
      left, right := BlanksAtTheEnds(s[..|s| - 1]);
      BlankAfter(s[|s| - 1], s[..|s| - 1], left, Strip(s[..|s| - 1]), right);
      right := right + [s[|s| - 1]];
      assert s == s[..|s| - 1] + [s[|s| - 1]];
    } else {
      NoBlanksAtTheEnds(s);
    }
  }

  /** The token is what is left of the field's ASCII text once the NULs at its end and then the white
      space at both ends are taken off. */
  lemma TokenIs(raw: seq<Byte>) returns (left: string, right: string, nuls: string)
    ensures Ascii(raw) == left + DecodeToken(raw) + right + nuls
    ensures AllBlank(left) && AllBlank(right) && !StartsBlank(DecodeToken(raw)) && !EndsBlank(DecodeToken(raw))
    ensures forall c <- nuls :: c as int == 0
    ensures var text := left + DecodeToken(raw) + right; text != [] ==> text[|text| - 1] as int != 0
  {
    hide Ascii, DropNuls, Strip, AllBlank, StartsBlank, EndsBlank;
    nuls := NulsAtTheEnd(Ascii(raw));
    left, right := BlanksAtTheEnds(DropNuls(Ascii(raw)));
  }

  /** A whole packet is one of 51 bytes in mode 1, 123 in mode 2 or 379 in mode 3. */
  lemma WellSizedIff(p: seq<Byte>)
    ensures WellSized(p) <==> p != [] && (p[0], |p|) in {(1, 51), (2, 123), (3, 379)}
  {
  }
}
