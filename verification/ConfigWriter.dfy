/** Line surgery on the settings file: replace one top-level block, or one scalar inside a block, and
    leave every other byte alone.  Lines hold no line terminators. */
module ConfigWriter {
  import opened Options
  import opened Texts
  import Lists

  // ---------- what the patterns match ----------

  predicate IsLetter(c: char) { 'A' <= c <= 'Z' || 'a' <= c <= 'z' || c == '_' }

  predicate IsWordChar(c: char) { IsLetter(c) || '0' <= c <= '9' || c == '-' }

  function WordEnd(line: string, i: nat): (end: nat)
    requires i <= |line|
    ensures i <= end <= |line|
    decreases |line| - i
  {
    if i < |line| && IsWordChar(line[i]) then WordEnd(line, i + 1) else i
  }

  function SpaceEnd(line: string, i: nat): (end: nat)
    requires i <= |line|
    ensures i <= end <= |line|
    decreases |line| - i
  {
    if i < |line| && IsSpace(line[i]) then SpaceEnd(line, i + 1) else i
  }

  /** The key of a line that starts a top-level block. */
  function KeyOf(line: string): Option<string> {
    if line == "" || !IsLetter(line[0]) then None
    else
      var end := WordEnd(line, 0);
      var colon := SpaceEnd(line, end);
      if colon < |line| && line[colon] == ':' then Some(line[..end]) else None
  }

  lemma KeyLineIsNotBlank(line: string)
    ensures IsBlank(line) ==> KeyOf(line).None?
    ensures line != "" && IsSpace(line[0]) ==> KeyOf(line).None?
  {
    if line != "" && IsLetter(line[0]) {
      assert !IsSpace(line[0]);
    }
  }

  // ---------- blocks ----------

  datatype Bounds = At(start: nat, end: nat) | Missing | Ambiguous

  /** The first `n` lines that carry `key`. */
  function StartsOf(lines: seq<string>, key: string, n: nat): seq<nat>
    requires n <= |lines|
  {
    if n == 0 then []
    else StartsOf(lines, key, n - 1) + if KeyOf(lines[n - 1]) == Some(key) then [n - 1] else []
  }

  function NextKey(lines: seq<string>, i: nat): (end: nat)
    requires i <= |lines|
    ensures i <= end <= |lines|
    decreases |lines| - i
  {
    if i == |lines| || KeyOf(lines[i]).Some? then i else NextKey(lines, i + 1)
  }

  /** `[s, e)` is the only block of `key`: it ends at the next key, whatever it is, or with the file. */
  ghost predicate IsBlockAt(lines: seq<string>, key: string, s: nat, e: nat) {
    && s < e <= |lines| && KeyOf(lines[s]) == Some(key)
    && (forall i :: 0 <= i < |lines| && i != s ==> KeyOf(lines[i]) != Some(key))
    && (forall i :: s < i < e ==> KeyOf(lines[i]) == None)
    && (e < |lines| ==> KeyOf(lines[e]).Some?)
  }

  ghost predicate Lacks(lines: seq<string>, key: string) {
    forall i :: 0 <= i < |lines| ==> KeyOf(lines[i]) != Some(key)
  }

  /** Where the block of `key` lies: missing, ambiguous, or the one place `IsBlockAt` describes. */
  method BlockBounds(lines: seq<string>, key: string) returns (r: Bounds)
    ensures r == BoundsOf(lines, key)
  {
    hide KeyOf;
    var starts := [];
    for index := 0 to |lines|
      invariant starts == StartsOf(lines, key, index)
    {
      if KeyOf(lines[index]) == Some(key) {
        starts := starts + [index];
      }
    }
    if starts == [] {
      return Missing;
    }
    if |starts| > 1 {
      return Ambiguous;
    }
    StartsAreTheKeyLines(lines, key, |lines|);
    var start := starts[0];
    assert start in starts;
    var end := |lines|;
    for index := start + 1 to |lines|
      invariant NextKey(lines, start + 1) == NextKey(lines, index)
    {
      if KeyOf(lines[index]).Some? {
        end := index;
        break;
      }
    }
    r := At(start, end);
  }

  function BoundsOf(lines: seq<string>, key: string): Bounds {
    var starts := StartsOf(lines, key, |lines|);
    if starts == [] then Missing
    else if |starts| > 1 then Ambiguous
    else
      StartsAreTheKeyLines(lines, key, |lines|);
      assert starts[0] in starts;
      At(starts[0], NextKey(lines, starts[0] + 1))
  }

  lemma {:induction false} StartsAreTheKeyLines(lines: seq<string>, key: string, n: nat)
    requires n <= |lines|
    ensures forall i :: i in StartsOf(lines, key, n) <==> 0 <= i < n && KeyOf(lines[i]) == Some(key)
    ensures forall j, k :: 0 <= j < k < |StartsOf(lines, key, n)| ==> StartsOf(lines, key, n)[j] < StartsOf(lines, key, n)[k]
  {
    hide KeyOf;
    if n > 0 {
      StartsAreTheKeyLines(lines, key, n - 1);
      var most := StartsOf(lines, key, n - 1);
      forall j | 0 <= j < |most|
        ensures most[j] < n - 1
      {
        assert most[j] in most;
      }
    }
  }

  lemma {:induction false} NextKeyIsFirst(lines: seq<string>, i: nat)
    requires i <= |lines|
    ensures forall j :: i <= j < NextKey(lines, i) ==> KeyOf(lines[j]) == None
    ensures NextKey(lines, i) < |lines| ==> KeyOf(lines[NextKey(lines, i)]).Some?
    decreases |lines| - i
  {
    hide KeyOf;
    if i < |lines| && KeyOf(lines[i]).None? {
      NextKeyIsFirst(lines, i + 1);
    }
  }

  /** The bounds found are the block, and there is at most one. */
  lemma BoundsIff(lines: seq<string>, key: string, s: nat, e: nat)
    ensures BoundsOf(lines, key) == At(s, e) <==> IsBlockAt(lines, key, s, e)
    ensures BoundsOf(lines, key) == Missing <==> Lacks(lines, key)
  {
    hide KeyOf;
    var starts := StartsOf(lines, key, |lines|);
    StartsAreTheKeyLines(lines, key, |lines|);
    if starts != [] {
      assert starts[0] in starts;
      NextKeyIsFirst(lines, starts[0] + 1);
    }
    if |starts| > 1 {
      assert starts[1] in starts;
    }
    if IsBlockAt(lines, key, s, e) {
      assert s in starts;
      var end := NextKey(lines, starts[0] + 1);
      if |starts| > 1 {
        assert false;
      }
      assert starts[0] == s;
      if end < e { assert false; }
      if e < end { assert false; }
    }
  }

  // ---------- a file as a store of blocks ----------

  datatype Block = Found(text: seq<string>) | Absent | Doubled

  /** The text of the block of `key`. */
  function Get(lines: seq<string>, key: string): Block {
    match BoundsOf(lines, key)
    case At(s, e) => BoundsIff(lines, key, s, e); Found(lines[s..e])
    case Missing => Absent
    case Ambiguous => Doubled
  }

  function Splice(lines: seq<string>, s: nat, e: nat, text: seq<string>): seq<string>
    requires s <= e <= |lines|
  {
    lines[..s] + text + lines[e..]
  }

  function Put(lines: seq<string>, key: string, text: seq<string>): seq<string>
    requires BoundsOf(lines, key).At?
  {
    var b := BoundsOf(lines, key);
    BoundsIff(lines, key, b.start, b.end);
    Splice(lines, b.start, b.end, text)
  }

  /** One key line, the first. */
  ghost predicate IsBlock(text: seq<string>, key: string) {
    text != [] && KeyOf(text[0]) == Some(key) && forall i :: 0 < i < |text| ==> KeyOf(text[i]) == None
  }

  lemma BlockFound(lines: seq<string>, key: string)
    ensures Get(lines, key).Found? <==> BoundsOf(lines, key).At?
    ensures Get(lines, key).Found? ==> IsBlock(Get(lines, key).text, key)
  {
    var b := BoundsOf(lines, key);
    if b.At? {
      BoundsIff(lines, key, b.start, b.end);
    }
  }

  /** Storing what is there changes nothing. */
  lemma PutOfGet(lines: seq<string>, key: string)
    requires Get(lines, key).Found?
    ensures Put(lines, key, Get(lines, key).text) == lines
  {
    var b := BoundsOf(lines, key);
    BoundsIff(lines, key, b.start, b.end);
    assert lines == lines[..b.start] + lines[b.start..b.end] + lines[b.end..];
  }

  lemma PutBounds(lines: seq<string>, key: string, text: seq<string>)
    requires BoundsOf(lines, key).At? && IsBlock(text, key)
    ensures var b := BoundsOf(lines, key);
      BoundsOf(Put(lines, key, text), key) == At(b.start, b.start + |text|)
  {
    hide KeyOf;
    var b := BoundsOf(lines, key);
    BoundsIff(lines, key, b.start, b.end);
    var out := Put(lines, key, text);
    BoundsIff(out, key, b.start, b.start + |text|);
    assert out == lines[..b.start] + text + lines[b.end..];
    hide Put, BoundsOf;
    assert IsBlockAt(out, key, b.start, b.start + |text|);
  }

  /** What was stored is read back. */
  lemma GetOfPut(lines: seq<string>, key: string, text: seq<string>)
    requires Get(lines, key).Found? && IsBlock(text, key)
    ensures Get(Put(lines, key, text), key) == Found(text)
  {
    BlockFound(lines, key);
    PutBounds(lines, key, text);
    var b := BoundsOf(lines, key);
    BoundsIff(lines, key, b.start, b.end);
    assert (lines[..b.start] + text + lines[b.end..])[b.start..b.start + |text|] == text;
  }

  /** The last store wins. */
  lemma PutOfPut(lines: seq<string>, key: string, first: seq<string>, second: seq<string>)
    requires Get(lines, key).Found? && IsBlock(first, key)
    ensures Get(Put(lines, key, first), key).Found?
    ensures Put(Put(lines, key, first), key, second) == Put(lines, key, second)
  {
    BlockFound(lines, key);
    GetOfPut(lines, key, first);
    PutBounds(lines, key, first);
    var b := BoundsOf(lines, key);
    BoundsIff(lines, key, b.start, b.end);
    var mid := lines[..b.start] + first + lines[b.end..];
    assert mid[..b.start] == lines[..b.start] && mid[b.start + |first|..] == lines[b.end..];
  }

  /** The two blocks lie apart, and only the later one moves. */
  lemma PutMovesOthers(lines: seq<string>, key: string, text: seq<string>, other: string)
    requires BoundsOf(lines, key).At? && IsBlock(text, key) && other != key && BoundsOf(lines, other).At?
    ensures var b, o := BoundsOf(lines, key), BoundsOf(lines, other);
      && (o.end <= b.start || b.end <= o.start)
      && BoundsOf(Put(lines, key, text), other)
         == if o.end <= b.start then o else At(o.start + |text| - (b.end - b.start), o.end + |text| - (b.end - b.start))
  {
    hide KeyOf;
    var b, o := BoundsOf(lines, key), BoundsOf(lines, other);
    BoundsIff(lines, key, b.start, b.end);
    BoundsIff(lines, other, o.start, o.end);
    var out := lines[..b.start] + text + lines[b.end..];
    assert Put(lines, key, text) == out;
    var d := |text| - (b.end - b.start);
    if o.end <= b.start {
      EarlierBlockStays(lines, text, b, other, o);
      BoundsIff(out, other, o.start, o.end);
    } else {
      assert o.start >= b.end;
      LaterBlockShifts(lines, text, b, other, o);
      BoundsIff(out, other, o.start + d, o.end + d);
    }
  }

  lemma EarlierBlockStays(lines: seq<string>, text: seq<string>, b: Bounds, other: string, o: Bounds)
    requires b.At? && o.At? && o.end <= b.start <= b.end <= |lines| && IsBlockAt(lines, other, o.start, o.end)
    requires Lacks(text, other) && text != [] && KeyOf(text[0]).Some?
    ensures IsBlockAt(lines[..b.start] + text + lines[b.end..], other, o.start, o.end)
  {
    hide KeyOf;
  }

  lemma LaterBlockShifts(lines: seq<string>, text: seq<string>, b: Bounds, other: string, o: Bounds)
    requires b.At? && o.At? && b.start <= b.end <= o.start && IsBlockAt(lines, other, o.start, o.end)
    requires Lacks(text, other)
    ensures var d := |text| - (b.end - b.start);
      IsBlockAt(lines[..b.start] + text + lines[b.end..], other, o.start + d, o.end + d)
  {
    hide KeyOf;
    var d, out := |text| - (b.end - b.start), lines[..b.start] + text + lines[b.end..];
    assert forall i :: b.end <= i < |lines| ==> out[i + d] == lines[i];
  }

  lemma PutKeepsLacks(lines: seq<string>, key: string, text: seq<string>, other: string)
    requires BoundsOf(lines, key).At? && IsBlock(text, key) && other != key && Lacks(lines, other)
    ensures Lacks(Put(lines, key, text), other)
  {
    hide KeyOf, BoundsOf;
    var b := BoundsOf(lines, key);
    BoundsIff(lines, key, b.start, b.end);
    assert Put(lines, key, text) == lines[..b.start] + text + lines[b.end..];
  }

  /** Every other key reads as before: found with the same text, absent, or ambiguous. */
  lemma GetOfOther(lines: seq<string>, key: string, text: seq<string>, other: string)
    requires Get(lines, key).Found? && IsBlock(text, key) && other != key
    ensures Get(Put(lines, key, text), other) == Get(lines, other)
  {
    BlockFound(lines, key);
    hide KeyOf, IsBlock;
    var out, old_ := Put(lines, key, text), Get(lines, key).text;
    match BoundsOf(lines, other)
    case At(s, e) =>
      FoundElsewhere(lines, key, text, other);
    case Missing =>
      BoundsIff(lines, other, 0, 0);
      PutKeepsLacks(lines, key, text, other);
      BoundsIff(out, other, 0, 0);
    case Ambiguous =>
      GetOfPut(lines, key, text);
      PutOfPut(lines, key, text, old_);
      PutOfGet(lines, key);
      BlockFound(out, key);
      assert Put(out, key, old_) == lines;
      if BoundsOf(out, other).At? {
        PutMovesOthers(out, key, old_, other);
        assert false;
      }
      if BoundsOf(out, other).Missing? {
        BoundsIff(out, other, 0, 0);
        PutKeepsLacks(out, key, old_, other);
        BoundsIff(lines, other, 0, 0);
        assert false;
      }
  }

  lemma FoundElsewhere(lines: seq<string>, key: string, text: seq<string>, other: string)
    requires BoundsOf(lines, key).At? && IsBlock(text, key) && other != key && BoundsOf(lines, other).At?
    ensures Get(Put(lines, key, text), other) == Get(lines, other)
  {
    PutMovesOthers(lines, key, text, other);
    var b, o := BoundsOf(lines, key), BoundsOf(lines, other);
    BoundsIff(lines, key, b.start, b.end);
    BoundsIff(lines, other, o.start, o.end);
    hide BoundsOf, IsBlock, IsBlockAt, Splice;
    if o.end <= b.start {
      SliceBefore(lines, b.start, b.end, text, o.start, o.end);
    } else {
      SliceAfter(lines, b.start, b.end, text, o.start, o.end);
    }
  }

  lemma SliceBefore(lines: seq<string>, s: nat, e: nat, text: seq<string>, t: nat, f: nat)
    requires t <= f <= s <= e <= |lines|
    ensures f <= |Splice(lines, s, e, text)| && Splice(lines, s, e, text)[t..f] == lines[t..f]
  {
  }

  lemma SliceAfter(lines: seq<string>, s: nat, e: nat, text: seq<string>, t: nat, f: nat)
    requires s <= e <= t <= f <= |lines|
    ensures var d := |text| - (e - s);
      f + d <= |Splice(lines, s, e, text)| && Splice(lines, s, e, text)[t + d..f + d] == lines[t..f]
  {
  }

  lemma PutIs(lines: seq<string>, key: string, text: seq<string>)
    requires BoundsOf(lines, key).At?
    ensures var b := BoundsOf(lines, key);
      b.start < b.end <= |lines| && Put(lines, key, text) == Splice(lines, b.start, b.end, text)
  {
    var b := BoundsOf(lines, key);
    BoundsIff(lines, key, b.start, b.end);
  }

  /** Stores under different keys commute. */
  lemma PutsCommute(lines: seq<string>, key: string, text: seq<string>, other: string, words: seq<string>)
    requires Get(lines, key).Found? && Get(lines, other).Found? && key != other
    requires IsBlock(text, key) && IsBlock(words, other)
    ensures Get(Put(lines, key, text), other).Found? && Get(Put(lines, other, words), key).Found?
    ensures Put(Put(lines, key, text), other, words) == Put(Put(lines, other, words), key, text)
  {
    BlockFound(lines, key);
    BlockFound(lines, other);
    PutMovesOthers(lines, key, text, other);
    if BoundsOf(lines, key).start < BoundsOf(lines, other).start {
      PutsApart(lines, key, text, other, words);
    } else {
      PutMovesOthers(lines, other, words, key);
      PutsApart(lines, other, words, key, text);
    }
  }

  lemma PutsApart(lines: seq<string>, first: string, text: seq<string>, second: string, words: seq<string>)
    requires BoundsOf(lines, first).At? && BoundsOf(lines, second).At? && first != second
    requires IsBlock(text, first) && IsBlock(words, second)
    requires BoundsOf(lines, first).end <= BoundsOf(lines, second).start
    ensures BoundsOf(Put(lines, first, text), second).At? && BoundsOf(Put(lines, second, words), first).At?
    ensures Put(Put(lines, first, text), second, words) == Put(Put(lines, second, words), first, text)
  {
    hide BoundsOf, IsBlock, Splice, Put;
    PutMovesOthers(lines, first, text, second);
    PutMovesOthers(lines, second, words, first);
    var a, b := BoundsOf(lines, first), BoundsOf(lines, second);
    PutIs(lines, first, text);
    PutIs(lines, second, words);
    PutIs(Put(lines, first, text), second, words);
    PutIs(Put(lines, second, words), first, text);
    SplicesApart(lines, a.start, a.end, text, b.start, b.end, words);
  }

  lemma SplicesApart(lines: seq<string>, s: nat, e: nat, text: seq<string>, t: nat, f: nat, words: seq<string>)
    requires s <= e <= t <= f <= |lines|
    ensures var d := |text| - (e - s);
      && f + d <= |Splice(lines, s, e, text)| && e <= |Splice(lines, t, f, words)|
      && Splice(Splice(lines, s, e, text), t + d, f + d, words) == Splice(Splice(lines, t, f, words), s, e, text)
  {
    var d, mid := |text| - (e - s), lines[e..t];
    var one, two := Splice(lines, s, e, text), Splice(lines, t, f, words);
    assert one[..t + d] == lines[..s] + text + mid;
    assert one[f + d..] == lines[f..];
    assert two[..s] == lines[..s];
    assert two[e..] == mid + words + lines[f..];
  }

  // ---------- replacing a block ----------

  function BodyEnd(text: seq<string>, n: nat): (end: nat)
    requires n <= |text|
    ensures end <= n && (n > 0 ==> end > 0)
  {
    if n > 1 && IsBlank(text[n - 1]) then BodyEnd(text, n - 1) else n
  }

  /** The blank lines at the end of a block, which belong to the gap after it; never its key line. */
  function Gap(text: seq<string>): seq<string> { text[BodyEnd(text, |text|)..] }

  datatype Edit = Edited(lines: seq<string>) | NoBlock | ManyBlocks | NoScalar

  function Rewrite(lines: seq<string>, key: string, replacement: seq<string>): Edit {
    match Get(lines, key)
    case Found(text) => BlockFound(lines, key); Edited(Put(lines, key, replacement + Gap(text)))
    case Absent => NoBlock
    case Doubled => ManyBlocks
  }

  method ReplaceBlock(lines: seq<string>, key: string, replacement: seq<string>) returns (r: Edit)
    ensures r == Rewrite(lines, key, replacement)
  {
    var b := BlockBounds(lines, key);
    if b.Missing? {
      return NoBlock;
    }
    if b.Ambiguous? {
      return ManyBlocks;
    }
    BoundsIff(lines, key, b.start, b.end);
    var tailBlanks := TailBlanks(lines, b.start, b.end);
    r := Edited(lines[..b.start] + replacement + tailBlanks + lines[b.end..]);
    assert lines[..b.start] + (replacement + tailBlanks) == lines[..b.start] + replacement + tailBlanks;
  }

  method TailBlanks(lines: seq<string>, start: nat, end: nat) returns (tailBlanks: seq<string>)
    requires start < end <= |lines|
    ensures tailBlanks == Gap(lines[start..end])
  {
    hide IsBlank;
    ghost var text := lines[start..end];
    tailBlanks := [];
    var index := end - 1;
    while index > start && IsBlank(lines[index])
      invariant start <= index < end
      invariant tailBlanks == text[index + 1 - start..]
      invariant BodyEnd(text, |text|) == BodyEnd(text, index + 1 - start)
    {
      assert text[index - start] == lines[index];
      tailBlanks := [lines[index]] + tailBlanks;
      index := index - 1;
    }
    assert text[index - start] == lines[index];
  }

  ghost predicate AllBlank(text: seq<string>) { forall i :: 0 <= i < |text| ==> IsBlank(text[i]) }

  lemma {:induction false} BodyEndIs(text: seq<string>, n: nat, end: nat)
    requires 0 < end <= n <= |text| && (forall i :: end <= i < n ==> IsBlank(text[i]))
    ensures BodyEnd(text, n) == BodyEnd(text, end)
  {
    if end < n {
      BodyEndIs(text, n - 1, end);
    }
  }

  lemma {:induction false} GapIsBlank(text: seq<string>, n: nat)
    requires n <= |text|
    ensures forall i :: BodyEnd(text, n) <= i < n ==> IsBlank(text[i])
    ensures n > 0 ==> BodyEnd(text, n) == 1 || !IsBlank(text[BodyEnd(text, n) - 1])
  {
    hide IsBlank;
    if n > 1 && IsBlank(text[n - 1]) {
      GapIsBlank(text, n - 1);
    }
  }

  lemma {:induction false} BodyEndOfPrefix(a: seq<string>, b: seq<string>, n: nat)
    requires n <= |a|
    ensures BodyEnd(a + b, n) == BodyEnd(a, n)
  {
    hide IsBlank;
    if n > 1 && IsBlank(a[n - 1]) {
      BodyEndOfPrefix(a, b, n - 1);
    }
  }

  /** Blank lines after a text join its gap. */
  lemma GapOfConcat(text: seq<string>, blanks: seq<string>)
    requires text != [] && AllBlank(blanks)
    ensures Gap(text + blanks) == Gap(text) + blanks
  {
    hide IsBlank, BodyEnd;
    BodyEndIs(text + blanks, |text + blanks|, |text|);
    BodyEndOfPrefix(text, blanks, |text|);
  }

  lemma BlockWithGap(replacement: seq<string>, key: string, gap: seq<string>)
    requires IsBlock(replacement, key) && AllBlank(gap)
    ensures IsBlock(replacement + gap, key)
  {
    hide KeyOf, IsBlank;
    forall i | 0 <= i < |gap|
      ensures KeyOf(gap[i]) == None
    {
      KeyLineIsNotBlank(gap[i]);
    }
  }

  /** After a rewrite the block reads as the replacement followed by the old gap. */
  lemma RewriteLands(lines: seq<string>, key: string, replacement: seq<string>)
    requires Get(lines, key).Found? && IsBlock(replacement, key)
    ensures IsBlock(replacement + Gap(Get(lines, key).text), key)
    ensures Rewrite(lines, key, replacement).Edited?
    ensures Get(Rewrite(lines, key, replacement).lines, key) == Found(replacement + Gap(Get(lines, key).text))
  {
    var text := Get(lines, key).text;
    GapIsBlank(text, |text|);
    hide AllBlank, IsBlock, Get, Put;
    BlockWithGap(replacement, key, Gap(text));
    GetOfPut(lines, key, replacement + Gap(text));
  }

  /** The last rewrite wins. */
  lemma LastRewriteWins(lines: seq<string>, key: string, first: seq<string>, second: seq<string>)
    requires Rewrite(lines, key, first).Edited? && IsBlock(first, key) && Gap(first) == []
    ensures Rewrite(Rewrite(lines, key, first).lines, key, second) == Rewrite(lines, key, second)
  {
    var text := Get(lines, key).text;
    RewriteLands(lines, key, first);
    GapIsBlank(text, |text|);
    hide Get, Put, IsBlock, BodyEnd;
    GapOfConcat(first, Gap(text));
    PutOfPut(lines, key, first + Gap(text), second + Gap(text));
    assert [] + Gap(text) == Gap(text);
  }

  lemma RewriteTwice(lines: seq<string>, key: string, replacement: seq<string>)
    requires Rewrite(lines, key, replacement).Edited? && IsBlock(replacement, key)
    ensures Get(lines, key).Found? && IsBlock(replacement + Gap(Get(lines, key).text), key)
    ensures Rewrite(Rewrite(lines, key, replacement).lines, key, replacement)
            == Edited(Put(lines, key, replacement + (Gap(replacement) + Gap(Get(lines, key).text))))
  {
    var text := Get(lines, key).text;
    RewriteLands(lines, key, replacement);
    GapIsBlank(text, |text|);
    hide IsBlock, BodyEnd, Put, Get;
    GapOfConcat(replacement, Gap(text));
    PutOfPut(lines, key, replacement + Gap(text), replacement + (Gap(replacement) + Gap(text)));
  }

  lemma GapOfBlock(text: seq<string>, key: string)
    requires IsBlock(text, key)
    ensures Gap(text) == [] <==> !IsBlank(text[|text| - 1])
  {
    GapIsBlank(text, |text|);
    KeyLineIsNotBlank(text[0]);
    hide IsBlank, KeyOf;
  }

  /** Repeating a rewrite changes nothing exactly when the replacement does not end in a blank line;
      otherwise every repetition adds its blank lines once more. */
  lemma RepeatIsStableIff(lines: seq<string>, key: string, replacement: seq<string>)
    requires Rewrite(lines, key, replacement).Edited? && IsBlock(replacement, key)
    ensures var once := Rewrite(lines, key, replacement).lines; var twice := Rewrite(once, key, replacement);
      twice.Edited? && |twice.lines| == |once| + |Gap(replacement)|
      && (twice.lines == once <==> !IsBlank(replacement[|replacement| - 1]))
  {
    hide IsBlock, IsBlank, Gap, Put, Get;
    RewriteTwice(lines, key, replacement);
    GapOfBlock(replacement, key);
    var gap := Gap(Get(lines, key).text);
    PutLength(lines, key, replacement + gap);
    PutLength(lines, key, replacement + (Gap(replacement) + gap));
    assert Gap(replacement) == [] ==> Gap(replacement) + gap == gap;
  }

  lemma PutLength(lines: seq<string>, key: string, text: seq<string>)
    requires Get(lines, key).Found?
    ensures |Put(lines, key, text)| == |lines| - |Get(lines, key).text| + |text|
  {
    var b := BoundsOf(lines, key);
    BoundsIff(lines, key, b.start, b.end);
  }

  /** Any number of rewrites, one after the other. */
  function RewriteAll(lines: seq<string>, key: string, replacements: seq<seq<string>>): Edit
    decreases |replacements|
  {
    if replacements == [] then Edited(lines)
    else
      match Rewrite(lines, key, replacements[0])
      case Edited(next) => RewriteAll(next, key, replacements[1..])
      case failure => failure
  }

  /** The blank lines after the block survive every one of them, and only the last one shows. */
  lemma {:induction false} BlanksSurvive(lines: seq<string>, key: string, replacements: seq<seq<string>>)
    requires Get(lines, key).Found? && replacements != []
    requires forall r <- replacements :: IsBlock(r, key) && Gap(r) == []
    ensures RewriteAll(lines, key, replacements) == Rewrite(lines, key, replacements[|replacements| - 1])
    ensures RewriteAll(lines, key, replacements).Edited?
    ensures Get(RewriteAll(lines, key, replacements).lines, key)
            == Found(replacements[|replacements| - 1] + Gap(Get(lines, key).text))
    decreases |replacements|
  {
    hide Get, Put, IsBlock, Gap, Rewrite;
    var first, last := replacements[0], replacements[|replacements| - 1];
    RewriteLands(lines, key, first);
    RewriteLands(lines, key, last);
    if |replacements| > 1 {
      var next := Rewrite(lines, key, first).lines;
      BlanksSurvive(next, key, replacements[1..]);
      LastRewriteWins(lines, key, first, last);
    }
  }

  /** Writing back the text that is there, without its gap, changes nothing. */
  lemma WriteBack(lines: seq<string>, key: string)
    requires Get(lines, key).Found?
    ensures var text := Get(lines, key).text;
      Rewrite(lines, key, text[..BodyEnd(text, |text|)]) == Edited(lines)
  {
    var text := Get(lines, key).text;
    PutOfGet(lines, key);
    assert text[..BodyEnd(text, |text|)] + Gap(text) == text;
  }

  /** Every other key's block reads as before. */
  lemma RewriteKeepsOthers(lines: seq<string>, key: string, replacement: seq<string>, other: string)
    requires Rewrite(lines, key, replacement).Edited? && IsBlock(replacement, key) && other != key
    ensures Get(Rewrite(lines, key, replacement).lines, other) == Get(lines, other)
  {
    RewriteLands(lines, key, replacement);
    GetOfOther(lines, key, replacement + Gap(Get(lines, key).text), other);
  }

  lemma HashIsNotSpace()
    ensures !IsSpace('#') && !IsLetter('#')
  {
  }

  /** A comment at column zero is in the file after a rewrite exactly when the replacement has it or the
      file had it elsewhere than between the block's key line and the next key line: there, even just
      above the next block, it goes with the old text. */
  lemma CommentSurvivesIff(lines: seq<string>, key: string, replacement: seq<string>, s: nat, e: nat, comment: string)
    requires IsBlockAt(lines, key, s, e) && comment != "" && comment[0] == '#'
    ensures Rewrite(lines, key, replacement).Edited?
    ensures comment in Rewrite(lines, key, replacement).lines
       <==> comment in replacement || exists j :: 0 <= j < |lines| && lines[j] == comment && !(s < j < e)
  {
    HashIsNotSpace();
    BoundsIff(lines, key, s, e);
    var text := lines[s..e];
    var gap, out := Gap(text), Rewrite(lines, key, replacement).lines;
    GapIsBlank(text, |text|);
    NotBlank(comment, gap);
    assert out == lines[..s] + (replacement + gap) + lines[e..];
    assert KeyOf(comment) == None;
    hide KeyOf, IsBlank, BodyEnd, Rewrite;
    InThree(lines[..s], replacement + gap, lines[e..], comment);
    InSlices(lines, s, e, comment);
  }

  lemma NotBlank(comment: string, gap: seq<string>)
    requires comment != "" && !IsSpace(comment[0]) && forall i :: 0 <= i < |gap| ==> IsBlank(gap[i])
    ensures comment !in gap
  {
  }

  lemma InThree(a: seq<string>, b: seq<string>, c: seq<string>, x: string)
    ensures x in a + b + c <==> x in a || x in b || x in c
  {
  }

  lemma InSlices(lines: seq<string>, s: nat, e: nat, x: string)
    requires s < e <= |lines| && lines[s] != x
    ensures x in lines[..s] || x in lines[e..] <==> exists j :: 0 <= j < |lines| && lines[j] == x && !(s < j < e)
  {
    if j :| 0 <= j < |lines| && lines[j] == x && !(s < j < e) {
      if j < s {
        assert lines[..s][j] == x;
      } else {
        assert lines[e..][j - e] == x;
      }
    }
    if x in lines[..s] {
      var j :| 0 <= j < s && lines[..s][j] == x;
      assert lines[j] == x;
    } else if x in lines[e..] {
      var j :| 0 <= j < |lines| - e && lines[e..][j] == x;
      assert lines[e + j] == x;
    }
  }

  // ---------- replacing a scalar ----------

  /** Leading white space, and what follows it. */
  function Indent(s: string): string {
    if s != "" && IsSpace(s[0]) then [s[0]] + Indent(s[1..]) else ""
  }

  function AfterIndent(s: string): string {
    if s != "" && IsSpace(s[0]) then AfterIndent(s[1..]) else s
  }

  /** What comes before the first `#`, and the rest from it on. */
  function Before(s: string): string {
    if s == "" || s[0] == '#' then "" else [s[0]] + Before(s[1..])
  }

  function Comment(s: string): (c: string)
    ensures c != "" ==> c[0] == '#'
    ensures c == "" <==> '#' !in s
  {
    if s == "" || s[0] == '#' then s else Comment(s[1..])
  }

  /** A matching line: its indentation and what follows the colon. */
  datatype Scalar = Scalar(indent: string, rest: string)

  function ScalarOf(line: string, key: string): Option<Scalar> {
    var tail := AfterIndent(line);
    if Indent(line) == "" || !(key <= tail) then None
    else
      var colon := AfterIndent(tail[|key|..]);
      if colon == "" || colon[0] != ':' then None else Some(Scalar(Indent(line), colon[1..]))
  }

  function Suffix(comment: string): string { if comment != "" then "  " + comment else "" }

  /** A new value with the old comment, if any, two blanks after it. */
  function RestWith(value: string, comment: string): string { " " + (value + Suffix(comment)) }

  function Assign(s: Scalar, key: string, value: string): string {
    s.indent + (key + (":" + RestWith(value, Comment(s.rest))))
  }

  function FirstScalar(lines: seq<string>, key: string, i: nat, end: nat): (at: nat)
    requires i <= end <= |lines|
    ensures i <= at <= end && (at < end ==> ScalarOf(lines[at], key).Some?)
    decreases end - i
  {
    if i < end && ScalarOf(lines[i], key).None? then FirstScalar(lines, key, i + 1, end) else i
  }

  /** The first matching line of a block, its key line excepted, rewritten. */
  function AssignIn(text: seq<string>, key: string, value: string): Option<seq<string>> {
    if text == [] then None
    else
      var at := FirstScalar(text, key, 1, |text|);
      if at == |text| then None else Some(text[at := Assign(ScalarOf(text[at], key).value, key, value)])
  }

  function SetScalar(lines: seq<string>, block: string, key: string, value: string): Edit {
    match Get(lines, block)
    case Absent => NoBlock
    case Doubled => ManyBlocks
    case Found(text) =>
      BlockFound(lines, block);
      match AssignIn(text, key, value)
      case None => NoScalar
      case Some(edited) => Edited(Put(lines, block, edited))
  }

  lemma {:induction false} FirstScalarOfSlice(lines: seq<string>, key: string, start: nat, i: nat, end: nat)
    requires start <= i <= end <= |lines|
    ensures FirstScalar(lines, key, i, end) == start + FirstScalar(lines[start..end], key, i - start, end - start)
    decreases end - i
  {
    hide ScalarOf;
    if i < end {
      FirstScalarOfSlice(lines, key, start, i + 1, end);
    }
  }

  lemma UpdateIsSplice(lines: seq<string>, s: nat, e: nat, at: nat, line: string)
    requires s <= at < e <= |lines|
    ensures lines[at := line] == Splice(lines, s, e, lines[s..e][at - s := line])
  {
  }

  lemma AssignInSlice(lines: seq<string>, s: nat, e: nat, key: string, value: string)
    requires s < e <= |lines|
    ensures var at := FirstScalar(lines, key, s + 1, e); var edited := AssignIn(lines[s..e], key, value);
      if at == e then edited == None
      else edited.Some?
           && Splice(lines, s, e, edited.value) == lines[at := Assign(ScalarOf(lines[at], key).value, key, value)]
  {
    hide Assign, ScalarOf, FirstScalar, Splice;
    FirstScalarOfSlice(lines, key, s, s + 1, e);
    var at := FirstScalar(lines, key, s + 1, e);
    if at < e {
      UpdateIsSplice(lines, s, e, at, Assign(ScalarOf(lines[at], key).value, key, value));
    }
  }

  /** In the file's own line numbers. */
  lemma SetScalarIs(lines: seq<string>, block: string, key: string, value: string)
    requires BoundsOf(lines, block).At?
    ensures var b := BoundsOf(lines, block); b.start < b.end <= |lines|
    ensures var b := BoundsOf(lines, block); var at := FirstScalar(lines, key, b.start + 1, b.end);
      SetScalar(lines, block, key, value)
      == if at == b.end then NoScalar else Edited(lines[at := Assign(ScalarOf(lines[at], key).value, key, value)])
  {
    var b := BoundsOf(lines, block);
    BoundsIff(lines, block, b.start, b.end);
    assert b.start < b.end <= |lines|;
    hide Assign, ScalarOf, BoundsOf, IsBlockAt, Lacks, FirstScalar, Splice, KeyOf, AssignIn;
    AssignInSlice(lines, b.start, b.end, key, value);
  }

  method ReplaceScalar(lines: seq<string>, block: string, key: string, value: string) returns (r: Edit)
    ensures r == SetScalar(lines, block, key, value)
  {
    hide BoundsOf, AssignIn, Assign, ScalarOf, KeyOf, Put;
    var b := BlockBounds(lines, block);
    if b.Missing? {
      return NoBlock;
    }
    if b.Ambiguous? {
      return ManyBlocks;
    }
    SetScalarIs(lines, block, key, value);
    hide SetScalar;
    for index := b.start + 1 to b.end
      invariant FirstScalar(lines, key, b.start + 1, b.end) == FirstScalar(lines, key, index, b.end)
    {
      var s := ScalarOf(lines[index], key);
      if s.Some? {
        return Edited(lines[index := Assign(s.value, key, value)]);
      }
    }
    r := NoScalar;
  }

  /** A key as configuration keys are: it does not start with white space. */
  ghost predicate IsPlain(key: string) { key != "" && !IsSpace(key[0]) }

  lemma {:induction false} SpaceEndIs(line: string, i: nat, end: nat)
    requires i <= end <= |line| && IsBlank(line[i..end]) && (end < |line| ==> !IsSpace(line[end]))
    ensures SpaceEnd(line, i) == end
    decreases end - i
  {
    hide IsSpace;
    if i < end {
      assert line[i] == line[i..end][0] && line[i + 1..end] == line[i..end][1..];
      SpaceEndIs(line, i + 1, end);
    }
  }

  lemma {:induction false} IndentIsBlank(line: string)
    ensures IsBlank(Indent(line))
    ensures Indent(line) != "" ==> line[0] == Indent(line)[0]
  {
    if line != "" && IsSpace(line[0]) {
      IndentIsBlank(line[1..]);
    }
  }

  lemma {:induction false} IndentSplits(indent: string, tail: string)
    requires IsBlank(indent) && (tail != "" ==> !IsSpace(tail[0]))
    ensures Indent(indent + tail) == indent && AfterIndent(indent + tail) == tail
  {
    if indent == "" {
      assert indent + tail == tail;
    } else {
      IndentSplits(indent[1..], tail);
      assert (indent + tail)[1..] == indent[1..] + tail;
      assert indent == [indent[0]] + indent[1..];
    }
  }

  /** The comment that a rewritten line shows: a value holding `#` starts it early. */
  function CommentAfter(value: string, comment: string): string {
    if '#' in value then Comment(value) + Suffix(comment) else comment
  }

  lemma {:induction false} CommentSkips(a: string, b: string)
    requires '#' !in a
    ensures Comment(a + b) == Comment(b)
  {
    if a == "" {
      assert a + b == b;
    } else {
      CommentSkips(a[1..], b);
      assert (a + b)[1..] == a[1..] + b;
    }
  }

  lemma {:induction false} CommentGrows(a: string, b: string)
    requires '#' in a
    ensures Comment(a + b) == Comment(a) + b
  {
    if a[0] != '#' {
      CommentGrows(a[1..], b);
      assert (a + b)[1..] == a[1..] + b;
    }
  }

  lemma CommentIs(value: string, comment: string)
    requires comment != "" ==> comment[0] == '#'
    ensures Comment(RestWith(value, comment)) == CommentAfter(value, comment)
  {
    CommentSkips(" ", value + Suffix(comment));
    if '#' in value {
      CommentGrows(value, Suffix(comment));
    } else {
      CommentSkips(value, Suffix(comment));
      CommentSkips("  ", comment);
    }
  }

  lemma ScalarShape(indent: string, key: string, rest: string)
    requires indent != "" && IsBlank(indent) && IsPlain(key)
    ensures ScalarOf(indent + (key + (":" + rest)), key) == Some(Scalar(indent, rest))
  {
    var tail := key + (":" + rest);
    assert !IsSpace(':');
    assert tail[0] == key[0];
    IndentSplits(indent, tail);
    assert key <= tail && tail[|key|..] == ":" + rest;
    assert AfterIndent(":" + rest) == ":" + rest && (":" + rest)[1..] == rest;
    hide IsSpace, IsBlank, Indent, AfterIndent;
  }

  /** A rewritten line still matches, with the same indentation. */
  lemma AssignedReads(s: Scalar, key: string, value: string)
    requires s.indent != "" && IsBlank(s.indent) && IsPlain(key)
    ensures ScalarOf(Assign(s, key, value), key) == Some(Scalar(s.indent, RestWith(value, Comment(s.rest))))
    ensures Comment(RestWith(value, Comment(s.rest))) == CommentAfter(value, Comment(s.rest))
  {
    hide ScalarOf, Comment, IsBlank, RestWith;
    ScalarShape(s.indent, key, RestWith(value, Comment(s.rest)));
    CommentIs(value, Comment(s.rest));
  }

  lemma BeforeCons(c: char, s: string)
    requires c != '#'
    ensures Before([c] + s) == [c] + Before(s)
  {
    assert ([c] + s)[1..] == s;
  }

  lemma {:induction false} BeforeSkips(a: string, b: string)
    requires '#' !in a
    ensures Before(a + b) == a + Before(b)
  {
    hide Before;
    if a == "" {
      assert a + b == b && a + Before(b) == Before(b);
    } else {
      var c, rest := a[0], a[1..];
      assert a == [c] + rest;
      BeforeSkips(rest, b);
      BeforeCons(c, rest + b);
      Lists.Associates([c], rest, b);
      Lists.Associates([c], rest, Before(b));
    }
  }

  ghost predicate Padded(value: string, text: string) { text == " " + value || text == " " + value + "  " }

  /** The text before the comment is the new value, up to blanks around it. */
  lemma ValueReads(value: string, comment: string)
    requires '#' !in value && (comment != "" ==> comment[0] == '#')
    ensures Padded(value, Before(RestWith(value, comment)))
  {
    BeforeSkips(" ", value + Suffix(comment));
    BeforeSkips(value, Suffix(comment));
    BeforeSkips("  ", comment);
    assert " " + (value + "") == " " + value && " " + (value + ("  " + "")) == " " + value + "  ";
  }

  lemma {:induction false} FirstScalarStays(text: seq<string>, key: string, i: nat, at: nat, line: string)
    requires i <= at < |text| && FirstScalar(text, key, i, |text|) == at && ScalarOf(line, key).Some?
    ensures FirstScalar(text[at := line], key, i, |text|) == at
    decreases at - i
  {
    hide ScalarOf;
    if i < at {
      FirstScalarStays(text, key, i + 1, at, line);
    }
  }

  /** What is left of a matching line once `first` has been assigned to it. */
  function Reassigned(s: Scalar, first: string): Scalar { Scalar(s.indent, RestWith(first, Comment(s.rest))) }

  lemma ScalarFound(line: string, key: string)
    requires ScalarOf(line, key).Some?
    ensures var s := ScalarOf(line, key).value; s.indent != "" && IsBlank(s.indent)
  {
    IndentIsBlank(line);
  }

  /** In a block, a second assignment finds the first one's line. */
  lemma AssignTwice(text: seq<string>, key: string, first: string, second: string)
    requires IsPlain(key) && AssignIn(text, key, first).Some?
    ensures var at := FirstScalar(text, key, 1, |text|); var s := ScalarOf(text[at], key).value;
      AssignIn(AssignIn(text, key, first).value, key, second) == Some(text[at := Assign(Reassigned(s, first), key, second)])
  {
    hide ScalarOf, FirstScalar, Assign, IsBlank, IsPlain, RestWith, Comment, CommentAfter;
    var at := FirstScalar(text, key, 1, |text|);
    var s := ScalarOf(text[at], key).value;
    ScalarFound(text[at], key);
    AssignedReads(s, key, first);
    FirstScalarStays(text, key, 1, at, Assign(s, key, first));
    var once := text[at := Assign(s, key, first)];
    assert once[at := Assign(Reassigned(s, first), key, second)] == text[at := Assign(Reassigned(s, first), key, second)];
  }

  lemma LongerComment(s: Scalar, key: string, first: string, second: string)
    ensures Assign(Reassigned(s, first), key, second) == Assign(s, key, second) <==> '#' !in first
  {
    var old_ := Comment(s.rest);
    CommentIs(first, old_);
    if '#' in first {
      assert |CommentAfter(first, old_)| > |Suffix(old_)|;
      assert |Assign(Reassigned(s, first), key, second)| > |Assign(s, key, second)|;
    }
  }

  /** Where the edited line still starts no block. */
  lemma AssignKeepsBlock(text: seq<string>, block: string, key: string, value: string)
    requires IsBlock(text, block) && AssignIn(text, key, value).Some?
    ensures IsBlock(AssignIn(text, key, value).value, block)
  {
    hide KeyOf, ScalarOf, FirstScalar;
    var at := FirstScalar(text, key, 1, |text|);
    var s := ScalarOf(text[at], key).value;
    ScalarFound(text[at], key);
    var line := Assign(s, key, value);
    assert line[0] == s.indent[0];
    KeyLineIsNotBlank(line);
  }

  /** The last assignment wins exactly when the earlier value holds no `#`. */
  lemma LastSetWinsIff(lines: seq<string>, block: string, key: string, first: string, second: string)
    requires IsPlain(key) && SetScalar(lines, block, key, first).Edited?
    ensures SetScalar(SetScalar(lines, block, key, first).lines, block, key, second) == SetScalar(lines, block, key, second)
            <==> '#' !in first
  {
    BlockFound(lines, block);
    var text := Get(lines, block).text;
    AssignKeepsBlock(text, block, key, first);
    AssignKeepsBlock(text, block, key, second);
    AssignTwice(text, key, first, second);
    var once := AssignIn(text, key, first).value;
    var at := FirstScalar(text, key, 1, |text|);
    var s := ScalarOf(text[at], key).value;
    LongerComment(s, key, first, second);
    var again, direct := AssignIn(once, key, second).value, AssignIn(text, key, second).value;
    assert again[at] == direct[at] <==> again == direct;
    AssignKeepsBlock(once, block, key, second);
    GetOfPut(lines, block, once);
    PutOfPut(lines, block, once, again);
    GetOfPut(lines, block, again);
    GetOfPut(lines, block, direct);
    hide Get, Put, IsBlock, AssignIn, Assign, ScalarOf, FirstScalar;
  }

  function GetScalar(lines: seq<string>, block: string, key: string): Option<string> {
    match Get(lines, block)
    case Found(text) =>
      if text == [] then None
      else
        var at := FirstScalar(text, key, 1, |text|);
        if at == |text| then None else Some(Before(ScalarOf(text[at], key).value.rest))
    case _ => None
  }

  /** After a scalar edit the block reads as the new value. */
  lemma SetLands(lines: seq<string>, block: string, key: string, value: string)
    requires IsPlain(key) && '#' !in value && SetScalar(lines, block, key, value).Edited?
    ensures var read := GetScalar(SetScalar(lines, block, key, value).lines, block, key);
      read.Some? && Padded(value, read.value)
  {
    BlockFound(lines, block);
    var text := Get(lines, block).text;
    AssignKeepsBlock(text, block, key, value);
    var at := FirstScalar(text, key, 1, |text|);
    var s := ScalarOf(text[at], key).value;
    ScalarFound(text[at], key);
    AssignedReads(s, key, value);
    ValueReads(value, Comment(s.rest));
    FirstScalarStays(text, key, 1, at, Assign(s, key, value));
    var edited := AssignIn(text, key, value).value;
    assert edited == text[at := Assign(s, key, value)];
    GetOfPut(lines, block, edited);
    hide Get, Put, IsBlock, AssignIn, Assign, ScalarOf, FirstScalar, RestWith, Before, Comment, Padded;
  }

  /** A scalar edit leaves every other key's block as it was. */
  lemma SetKeepsOthers(lines: seq<string>, block: string, key: string, value: string, other: string)
    requires SetScalar(lines, block, key, value).Edited? && other != block
    ensures Get(SetScalar(lines, block, key, value).lines, other) == Get(lines, other)
  {
    BlockFound(lines, block);
    var text := Get(lines, block).text;
    AssignKeepsBlock(text, block, key, value);
    GetOfOther(lines, block, AssignIn(text, key, value).value, other);
  }

  // ---------- both edits ----------

  function RewriteThenSet(lines: seq<string>, key: string, replacement: seq<string>, block: string, scalar: string, value: string): Edit {
    match Rewrite(lines, key, replacement)
    case Edited(next) => SetScalar(next, block, scalar, value)
    case failure => failure
  }

  function SetThenRewrite(lines: seq<string>, key: string, replacement: seq<string>, block: string, scalar: string, value: string): Edit {
    match SetScalar(lines, block, scalar, value)
    case Edited(next) => Rewrite(next, key, replacement)
    case failure => failure
  }

  /** A scalar edit in one block commutes with a rewrite of another: either order succeeds exactly when
      the other does, with the same result. */
  lemma EditsCommute(lines: seq<string>, key: string, replacement: seq<string>, block: string, scalar: string, value: string)
    requires IsBlock(replacement, key) && key != block
    ensures var one, two := RewriteThenSet(lines, key, replacement, block, scalar, value),
                            SetThenRewrite(lines, key, replacement, block, scalar, value);
      (one.Edited? <==> two.Edited?) && (one.Edited? ==> one == two)
  {
    hide IsBlock, AssignIn, Gap;
    if Rewrite(lines, key, replacement).Edited? {
      RewriteKeepsOthers(lines, key, replacement, block);
    }
    if SetScalar(lines, block, scalar, value).Edited? {
      SetKeepsOthers(lines, block, scalar, value, key);
    }
    if Get(lines, key).Found? && Get(lines, block).Found? {
      BlockFound(lines, block);
      RewriteLands(lines, key, replacement);
      var text, gap := Get(lines, block).text, Gap(Get(lines, key).text);
      if AssignIn(text, scalar, value).Some? {
        AssignKeepsBlock(text, block, scalar, value);
        PutsCommute(lines, key, replacement + gap, block, AssignIn(text, scalar, value).value);
      }
    }
  }

  datatype Item = Item(symbol: string, token: string, exchange: string, tickSize: string, lotSize: string)

  function ItemRow(i: Item): string {
    "  - {symbol: " + i.symbol + ", token: \"" + i.token + "\", exchange: " + i.exchange
    + ", tick_size: " + i.tickSize + ", lot_size: " + i.lotSize + "}"
  }

  function CommentRow(text: string): string { "  #" + text }

  /** The generated block: its key line, a header comment and one row an item. */
  function WatchlistBlock(header: seq<string>, items: seq<Item>): seq<string> {
    ["watchlist:"]
    + seq(|header|, i requires 0 <= i < |header| => CommentRow(header[i]))
    + seq(|items|, i requires 0 <= i < |items| => ItemRow(items[i]))
  }

  lemma {:induction false} WordEndIs(line: string, i: nat, end: nat)
    requires i <= end <= |line| && (forall j :: i <= j < end ==> IsWordChar(line[j])) && (end < |line| ==> !IsWordChar(line[end]))
    ensures WordEnd(line, i) == end
    decreases end - i
  {
    if i < end {
      WordEndIs(line, i + 1, end);
    }
  }

  lemma WatchlistKey()
    ensures KeyOf("watchlist:") == Some("watchlist")
  {
    var line := "watchlist:";
    WordEndIs(line, 0, 9);
    assert line[9..9] == "";
    SpaceEndIs(line, 9, 9);
    assert line[..9] == "watchlist";
  }

  lemma RowsAreInside(header: string, i: Item)
    ensures KeyOf(CommentRow(header)) == None && KeyOf(ItemRow(i)) == None
    ensures !IsBlank(ItemRow(i))
  {
    var row := ItemRow(i);
    assert IsSpace(' ') && !IsSpace('}');
    hide IsSpace;
    assert row[0] == ' ' && CommentRow(header)[0] == ' ' && row[|row| - 1] == '}';
    KeyLineIsNotBlank(row);
    KeyLineIsNotBlank(CommentRow(header));
  }

  /** A generated block is one block and ends in a line that is not blank, so the laws above hold of it. */
  lemma WatchlistBlockIsBlock(header: seq<string>, items: seq<Item>)
    requires items != []
    ensures IsBlock(WatchlistBlock(header, items), "watchlist") && Gap(WatchlistBlock(header, items)) == []
  {
    var text := WatchlistBlock(header, items);
    WatchlistKey();
    hide KeyOf, IsBlank, ItemRow, CommentRow;
    forall i | 0 < i < |text|
      ensures KeyOf(text[i]) == None
    {
      RowsAreInside(if i <= |header| then header[i - 1] else "", if i > |header| then items[i - 1 - |header|] else items[0]);
    }
    RowsAreInside("", items[|items| - 1]);
    assert text[|text| - 1] == ItemRow(items[|items| - 1]);
  }

  /** The two edits that the scanner asks for, in the order they are made. */
  function RenderLines(lines: seq<string>, budget: Option<string>, watchlist: Option<seq<string>>): Edit {
    match if budget.Some? then SetScalar(lines, "capital", "session_budget_inr", budget.value) else Edited(lines)
    case Edited(next) => if watchlist.Some? then Rewrite(next, "watchlist", watchlist.value) else Edited(next)
    case failure => failure
  }

  /** Rendering again with the same request changes nothing. */
  lemma RenderTwice(lines: seq<string>, budget: Option<string>, watchlist: Option<seq<string>>)
    requires budget.Some? ==> '#' !in budget.value
    requires watchlist.Some? ==> IsBlock(watchlist.value, "watchlist") && Gap(watchlist.value) == []
    requires RenderLines(lines, budget, watchlist).Edited?
    ensures RenderLines(RenderLines(lines, budget, watchlist).lines, budget, watchlist) == RenderLines(lines, budget, watchlist)
  {
    hide Rewrite, SetScalar, IsBlock, Gap;
    if budget.Some? && watchlist.None? {
      LastSetWinsIff(lines, "capital", "session_budget_inr", budget.value, budget.value);
    } else if watchlist.Some? && budget.None? {
      LastRewriteWins(lines, "watchlist", watchlist.value, watchlist.value);
    } else if watchlist.Some? {
      var b, w, key := budget.value, watchlist.value, "session_budget_inr";
      var set_ := SetScalar(lines, "capital", key, b).lines;
      EditsCommute(lines, "watchlist", w, "capital", key, b);
      var rewritten := Rewrite(lines, "watchlist", w).lines;
      LastSetWinsIff(rewritten, "capital", key, b, b);
      LastRewriteWins(set_, "watchlist", w, w);
    }
  }

  // ---------- text and lines ----------

  /** The terminators of `str.splitlines`. */
  predicate IsTerminator(c: char) {
    var n := c as int;
    10 <= n <= 13 || 28 <= n <= 30 || n == 0x85 || n == 0x2028 || n == 0x2029
  }

  function LineEnd(text: string, i: nat): (end: nat)
    requires i <= |text|
    ensures i <= end <= |text| && (end < |text| ==> IsTerminator(text[end]))
    ensures forall j :: i <= j < end ==> !IsTerminator(text[j])
    decreases |text| - i
  {
    if i < |text| && !IsTerminator(text[i]) then LineEnd(text, i + 1) else i
  }

  /** Where the next line starts: CR LF is one terminator. */
  function NextLine(text: string, end: nat): (next: nat)
    requires end < |text|
    ensures end < next <= |text|
  {
    if text[end] == 13 as char && end + 1 < |text| && text[end + 1] == '\n' then end + 2 else end + 1
  }

  function SplitLines(text: string): (lines: seq<string>)
    ensures text != "" ==> lines != []
  {
    if text == "" then []
    else
      var end := LineEnd(text, 0);
      [text[..end]] + if end == |text| then [] else SplitLines(text[NextLine(text, end)..])
  }

  function Join(lines: seq<string>): string {
    if lines == [] then "" else if |lines| == 1 then lines[0] else lines[0] + "\n" + Join(lines[1..])
  }

  predicate EndsInNewline(text: string) { text != "" && text[|text| - 1] == '\n' }

  function JoinAs(text: string, lines: seq<string>): string {
    Join(lines) + if EndsInNewline(text) then "\n" else ""
  }

  lemma {:induction false} LinesHoldNoTerminator(text: string)
    ensures forall line <- SplitLines(text) :: forall j :: 0 <= j < |line| ==> !IsTerminator(line[j])
    decreases |text|
  {
    if text != "" && LineEnd(text, 0) < |text| {
      LinesHoldNoTerminator(text[NextLine(text, LineEnd(text, 0))..]);
    }
  }

  function Again(text: string): string { JoinAs(text, SplitLines(text)) }

  lemma SplitStep(text: string)
    requires text != "" && LineEnd(text, 0) < |text|
    ensures SplitLines(text) == [text[..LineEnd(text, 0)]] + SplitLines(text[NextLine(text, LineEnd(text, 0))..])
  {
  }

  lemma AgainOfMore(text: string, first: string, rest: string)
    requires SplitLines(text) == [first] + SplitLines(rest) && rest != "" && EndsInNewline(rest) == EndsInNewline(text)
    ensures Again(text) == first + "\n" + Again(rest)
  {
    hide SplitLines, EndsInNewline, Join;
    JoinStep(first, SplitLines(rest), if EndsInNewline(text) then "\n" else "");
  }

  lemma AgainOfOne(text: string, line: string)
    requires SplitLines(text) == [line]
    ensures Again(text) == line + (if EndsInNewline(text) then "\n" else "")
  {
    hide SplitLines, EndsInNewline;
  }

  lemma EndsAlike(text: string, n: nat)
    requires n < |text|
    ensures EndsInNewline(text[n..]) == EndsInNewline(text)
  {
  }

  lemma AgainOfParts(text: string, first: string, rest: string)
    requires SplitLines(text) == [first] + SplitLines(rest)
    requires rest != "" ==> EndsInNewline(rest) == EndsInNewline(text)
    ensures if rest != "" || EndsInNewline(text) then Again(text) == first + "\n" + Again(rest) else Again(text) == first
  {
    hide SplitLines, EndsInNewline, Again;
    if rest != "" {
      AgainOfMore(text, first, rest);
    } else {
      AgainOfLast(text, first);
    }
  }

  lemma AgainStep(text: string)
    requires text != "" && LineEnd(text, 0) < |text|
    ensures var end := LineEnd(text, 0); var rest := text[NextLine(text, end)..];
      if rest != "" || EndsInNewline(text) then Again(text) == text[..end] + "\n" + Again(rest) else Again(text) == text[..end]
  {
    SplitStep(text);
    hide SplitLines, LineEnd, NextLine, EndsInNewline, Again;
    var end := LineEnd(text, 0);
    var next := NextLine(text, end);
    if next < |text| {
      EndsAlike(text, next);
    }
    AgainOfParts(text, text[..end], text[next..]);
  }

  lemma AgainOfLast(text: string, first: string)
    requires SplitLines(text) == [first] + SplitLines("")
    ensures if EndsInNewline(text) then Again(text) == first + "\n" + Again("") else Again(text) == first
  {
    EmptyHasNoLines();
    EmptySurvives();
    hide SplitLines, EndsInNewline, Again;
    assert [first] + [] == [first];
    AgainOfOne(text, first);
  }

  lemma EmptyHasNoLines()
    ensures SplitLines("") == []
  {
  }

  lemma JoinStep(first: string, others: seq<string>, last: string)
    requires others != []
    ensures Join([first] + others) + last == first + "\n" + (Join(others) + last)
  {
    assert ([first] + others)[1..] == others;
  }

  lemma SameAfter(a: string, b: string, c: string)
    ensures a + b == a + c <==> b == c
  {
    if a + b == a + c {
      assert b == (a + b)[|a|..] && c == (a + c)[|a|..];
    }
  }

  predicate OnlyNewlines(text: string) { forall j :: 0 <= j < |text| && IsTerminator(text[j]) ==> text[j] == '\n' }

  lemma OnlyNewlinesStep(text: string, end: nat)
    requires end < |text| && text[end] == '\n' && forall j :: 0 <= j < end ==> !IsTerminator(text[j])
    ensures OnlyNewlines(text) <==> OnlyNewlines(text[end + 1..])
  {
    hide IsTerminator;
    var rest := text[end + 1..];
    assert forall j :: end < j < |text| ==> text[j] == rest[j - end - 1];
    assert forall j :: 0 <= j < |rest| ==> rest[j] == text[j + end + 1];
  }

  /** Splitting and joining again leaves a text as it was exactly when newline is its only terminator. */
  lemma {:induction false} TextSurvivesIff(text: string)
    ensures Again(text) == text <==> OnlyNewlines(text)
    decreases |text|
  {
    hide Again, IsTerminator, OnlyNewlines;
    if text == "" {
      EmptySurvives();
    } else if LineEnd(text, 0) == |text| {
      OneLineSurvives(text);
    } else {
      var end := LineEnd(text, 0);
      var rest := text[NextLine(text, end)..];
      TextSurvivesIff(rest);
      AgainStep(text);
      if text[end] == '\n' {
        NewlineTerminator(text, end, rest);
      } else {
        OtherTerminator(text, end, rest);
      }
    }
  }

  lemma NewlineTerminator(text: string, end: nat, rest: string)
    requires end < |text| && text[end] == '\n' && rest == text[end + 1..] && forall j :: 0 <= j < end ==> !IsTerminator(text[j])
    requires Again(text) == text[..end] + "\n" + Again(rest) && (Again(rest) == rest <==> OnlyNewlines(rest))
    ensures Again(text) == text <==> OnlyNewlines(text)
  {
    OnlyNewlinesStep(text, end);
    hide Again, IsTerminator, OnlyNewlines;
    LineSplits(text, end);
    SameAfter(text[..end] + "\n", Again(rest), rest);
  }

  lemma LineSplits(text: string, end: nat)
    requires end < |text| && text[end] == '\n'
    ensures text == text[..end] + "\n" + text[end + 1..]
  {
  }

  lemma EmptySurvives()
    ensures Again("") == "" && OnlyNewlines("")
  {
  }

  lemma OneLineSurvives(text: string)
    requires text != "" && LineEnd(text, 0) == |text|
    ensures Again(text) == text && OnlyNewlines(text)
  {
    assert text[..|text|] == text;
    assert SplitLines(text) == [text];
    assert IsTerminator('\n');
  }

  lemma OtherTerminator(text: string, end: nat, rest: string)
    requires end < |text| && IsTerminator(text[end]) && text[end] != '\n'
    requires Again(text) == text[..end] + "\n" + Again(rest) || Again(text) == text[..end]
    ensures Again(text) != text && !OnlyNewlines(text)
  {
    hide Again, IsTerminator;
    assert (text[..end] + "\n" + Again(rest))[end] == '\n';
  }
}
