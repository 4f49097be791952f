/** What the two patterns and the line splitter of the settings writer match, character by character, and
    what a whole rendering leaves in the file. */
module Patterns {
  import opened Options
  import opened Texts
  import opened ConfigWriter

  // ---------- a key line ----------

  /** A to Z, a to z, and the underscore. */
  predicate OpensKey(c: char) { var n := c as int; 65 <= n <= 90 || 97 <= n <= 122 || n == 95 }

  /** Those, the digits and the hyphen. */
  predicate InKey(c: char) { var n := c as int; OpensKey(c) || 48 <= n <= 57 || n == 45 }

  /** `key`, perhaps some white space up to `colon`, and a colon. */
  ghost predicate KeyLine(line: string, key: string, colon: nat) {
    && |key| <= colon < |line| && line[..|key|] == key && line[colon] == ':' && IsBlank(line[|key|..colon])
    && key != "" && OpensKey(key[0]) && forall i :: 0 <= i < |key| ==> InKey(key[i])
  }

  lemma ClassesAre(c: char)
    ensures IsLetter(c) <==> OpensKey(c)
    ensures IsWordChar(c) <==> InKey(c)
    ensures InKey(c) ==> !IsSpace(c) && c != ':'
    ensures !IsSpace(':') && !IsWordChar(':')
  {
  }

  lemma {:induction false} WordEnds(line: string, i: nat)
    requires i <= |line|
    ensures var end := WordEnd(line, i);
      && (forall j :: i <= j < end ==> InKey(line[j])) && (end < |line| ==> !InKey(line[end]))
    decreases |line| - i
  {
    hide IsWordChar, InKey;
    if i < |line| {
      ClassesAre(line[i]);
      if IsWordChar(line[i]) {
        WordEnds(line, i + 1);
      }
    }
  }

  lemma {:induction false} SpaceEnds(line: string, i: nat)
    requires i <= |line|
    ensures var end := SpaceEnd(line, i); IsBlank(line[i..end]) && (end < |line| ==> !IsSpace(line[end]))
    decreases |line| - i
  {
    hide IsSpace;
    if i < |line| && IsSpace(line[i]) {
      SpaceEnds(line, i + 1);
      assert line[i..SpaceEnd(line, i)] == [line[i]] + line[i + 1..SpaceEnd(line, i)];
    }
  }

  /** A line starts a block exactly when it is a key at column zero, white space or none, and a colon. */
  lemma KeyIff(line: string, key: string)
    ensures KeyOf(line) == Some(key) <==> exists colon: nat :: KeyLine(line, key, colon)
  {
    hide IsSpace, IsBlank, IsLetter, IsWordChar, OpensKey, InKey;
    if KeyOf(line) == Some(key) {
      var end := WordEnd(line, 0);
      WordEnds(line, 0);
      SpaceEnds(line, end);
      ClassesAre(line[0]);
      WordGoesOn(line);
      assert KeyLine(line, key, SpaceEnd(line, end));
    }
    if colon: nat :| KeyLine(line, key, colon) {
      KeyIsFound(line, key, colon);
    }
  }

  lemma WordGoesOn(line: string)
    requires line != "" && IsLetter(line[0])
    ensures WordEnd(line, 0) > 0
  {
  }

  lemma KeyIsFound(line: string, key: string, colon: nat)
    requires KeyLine(line, key, colon)
    ensures KeyOf(line) == Some(key)
  {
    hide IsSpace, IsBlank, IsLetter, IsWordChar, OpensKey, InKey, WordEnd, SpaceEnd;
    assert line[0] == key[0];
    ClassesAre(key[0]);
    forall j | 0 <= j < |key| ensures IsWordChar(line[j]) {
      assert line[j] == key[j];
      ClassesAre(key[j]);
    }
    ClassesAre(':');
    AfterTheKey(line, key, colon);
    WordEndIs(line, 0, |key|);
    SpaceEndIs(line, |key|, colon);
  }

  lemma AfterTheKey(line: string, key: string, colon: nat)
    requires KeyLine(line, key, colon)
    ensures !IsWordChar(line[|key|])
  {
    hide IsSpace, IsWordChar, InKey;
    if |key| < colon {
      assert line[|key|..colon][0] == line[|key|];
      ClassesAre(line[|key|]);
    } else {
      ClassesAre(':');
    }
  }

  // ---------- a scalar line ----------

  /** Indentation, `key`, perhaps some white space, a colon, and the rest of the line. */
  ghost predicate ScalarLine(line: string, key: string, indent: string, gap: string, rest: string) {
    indent != "" && IsBlank(indent) && IsBlank(gap) && line == indent + (key + (gap + (":" + rest)))
  }

  lemma {:induction false} IndentAndRest(s: string)
    ensures s == Indent(s) + AfterIndent(s) && IsBlank(Indent(s))
    ensures AfterIndent(s) != "" ==> !IsSpace(AfterIndent(s)[0])
  {
    hide IsSpace;
    if s != "" && IsSpace(s[0]) {
      IndentAndRest(s[1..]);
      assert s == [s[0]] + s[1..];
      assert [s[0]] + Indent(s[1..]) + AfterIndent(s[1..]) == [s[0]] + (Indent(s[1..]) + AfterIndent(s[1..]));
    }
  }

  lemma ScalarIsLine(line: string, key: string)
    requires ScalarOf(line, key).Some?
    ensures var s := ScalarOf(line, key).value; exists gap :: ScalarLine(line, key, s.indent, gap, s.rest)
  {
    var s, tail := ScalarOf(line, key).value, AfterIndent(line);
    IndentAndRest(line);
    var after := tail[|key|..];
    IndentAndRest(after);
    hide IsBlank, Indent, AfterIndent, ScalarOf;
    var gap, colon := Indent(after), AfterIndent(after);
    assert colon == ":" + s.rest;
    assert tail == key + after;
    assert ScalarLine(line, key, s.indent, gap, s.rest);
  }

  lemma LineIsScalar(line: string, key: string, indent: string, gap: string, rest: string)
    requires IsPlain(key) && ScalarLine(line, key, indent, gap, rest)
    ensures ScalarOf(line, key) == Some(Scalar(indent, rest))
  {
    var tail := key + (gap + (":" + rest));
    hide IsSpace, IsBlank, Indent, AfterIndent;
    assert tail[0] == key[0];
    IndentSplits(indent, tail);
    assert tail[|key|..] == gap + (":" + rest);
    ColonIsNoSpace();
    IndentSplits(gap, ":" + rest);
    assert (":" + rest)[1..] == rest;
  }

  lemma ColonIsNoSpace()
    ensures !IsSpace(':')
  {
  }

  /** A line carries the scalar exactly when it is white space, the key, white space or none, a colon, and
      anything. */
  lemma ScalarIff(line: string, key: string, indent: string, rest: string)
    requires IsPlain(key)
    ensures ScalarOf(line, key) == Some(Scalar(indent, rest)) <==> exists gap :: ScalarLine(line, key, indent, gap, rest)
  {
    hide ScalarOf, ScalarLine, IsPlain;
    if ScalarOf(line, key) == Some(Scalar(indent, rest)) {
      ScalarIsLine(line, key);
    }
    if gap :| ScalarLine(line, key, indent, gap, rest) {
      LineIsScalar(line, key, indent, gap, rest);
    }
  }

  /** The comment is what starts at the first `#`. */
  lemma {:induction false} CommentSplits(rest: string)
    ensures rest == Before(rest) + Comment(rest) && '#' !in Before(rest)
    ensures Comment(rest) != "" ==> Comment(rest)[0] == '#'
  {
    if rest != "" && rest[0] != '#' {
      CommentSplits(rest[1..]);
      assert rest == [rest[0]] + rest[1..];
      assert [rest[0]] + Before(rest[1..]) + Comment(rest[1..]) == [rest[0]] + (Before(rest[1..]) + Comment(rest[1..]));
    }
  }

  /** A rewritten line: the old indentation, the key, `: `, the value, and two blanks before the comment if
      there is one, which is what starts at the first `#` of the old line's rest. */
  lemma AssignedIs(s: Scalar, key: string, value: string) returns (before: string, comment: string)
    ensures s.rest == before + comment && '#' !in before && (comment != "" ==> comment[0] == '#')
    ensures Assign(s, key, value) == s.indent + key + ": " + value + if comment == "" then "" else "  " + comment
  {
    before, comment := Before(s.rest), Comment(s.rest);
    CommentSplits(s.rest);
    hide Comment, Before;
    var tail := value + Suffix(comment);
    assert s.indent + (key + (":" + (" " + tail))) == s.indent + key + ": " + tail;
    assert s.indent + key + ": " + value + Suffix(comment) == s.indent + key + ": " + tail;
  }

  /** It is the first matching line below the block's key line that is rewritten. */
  lemma {:induction false} FirstScalarIs(lines: seq<string>, key: string, i: nat, end: nat)
    requires i <= end <= |lines|
    ensures forall j :: i <= j < FirstScalar(lines, key, i, end) ==> ScalarOf(lines[j], key).None?
    decreases end - i
  {
    hide ScalarOf;
    if i < end && ScalarOf(lines[i], key).None? {
      FirstScalarIs(lines, key, i + 1, end);
    }
  }

  // ---------- which error ----------

  ghost predicate Twice(lines: seq<string>, key: string) {
    exists i, j :: 0 <= i < j < |lines| && KeyOf(lines[i]) == Some(key) && KeyOf(lines[j]) == Some(key)
  }

  /** An edit names a block as missing exactly when no line carries its key, and as ambiguous exactly when
      two lines do. */
  lemma RewriteErrsIff(lines: seq<string>, key: string, replacement: seq<string>)
    ensures Rewrite(lines, key, replacement) == NoBlock <==> Lacks(lines, key)
    ensures Rewrite(lines, key, replacement) == ManyBlocks <==> Twice(lines, key)
    ensures Rewrite(lines, key, replacement) != NoScalar
  {
    hide KeyOf, Put, Gap;
    DoubledIff(lines, key);
  }

  lemma DoubledIff(lines: seq<string>, key: string)
    ensures Get(lines, key) == Absent <==> Lacks(lines, key)
    ensures Get(lines, key) == Doubled <==> Twice(lines, key)
  {
    hide KeyOf;
    BoundsIff(lines, key, 0, 0);
    var starts := StartsOf(lines, key, |lines|);
    StartsAreTheKeyLines(lines, key, |lines|);
    if |starts| > 1 {
      assert starts[0] in starts && starts[1] in starts;
    }
    if i, j :| 0 <= i < j < |lines| && KeyOf(lines[i]) == Some(key) && KeyOf(lines[j]) == Some(key) {
      assert i in starts && j in starts;
    }
  }

  /** The block is there, and no line of it below the key line has the scalar. */
  ghost predicate Unmatched(lines: seq<string>, block: string, key: string) {
    var b := BoundsOf(lines, block);
    b.At? && forall i :: b.start < i < b.end && i < |lines| ==> ScalarOf(lines[i], key).None?
  }

  /** And a scalar as missing exactly when no line of its block has it. */
  lemma SetErrsIff(lines: seq<string>, block: string, key: string, value: string)
    ensures var r := SetScalar(lines, block, key, value);
      && (r == NoBlock <==> Lacks(lines, block)) && (r == ManyBlocks <==> Twice(lines, block))
      && (r == NoScalar <==> Unmatched(lines, block, key))
  {
    hide KeyOf, ScalarOf, Put, Assign, AssignIn;
    DoubledIff(lines, block);
    BlockFound(lines, block);
    var b := BoundsOf(lines, block);
    if b.At? {
      SetScalarIs(lines, block, key, value);
      FirstScalarIs(lines, key, b.start + 1, b.end);
    }
  }

  // ---------- lines ----------

  /** Line feed, vertical tab, form feed, carriage return, the three separators from file to record, next
      line, and the line and paragraph separators. */
  lemma TerminatorsAre(c: char)
    ensures IsTerminator(c) <==> c as int in {10, 11, 12, 13, 28, 29, 30, 0x85, 0x2028, 0x2029}
  {
  }

  /** White space, as `str.strip` and the patterns take it. */
  lemma SpacesAre(c: char)
    ensures IsSpace(c) <==> c as int in {9, 10, 11, 12, 13, 28, 29, 30, 31, 32, 0x85, 0xA0, 0x1680, 0x2000, 0x2001, 0x2002,
      0x2003, 0x2004, 0x2005, 0x2006, 0x2007, 0x2008, 0x2009, 0x200A, 0x2028, 0x2029, 0x202F, 0x205F, 0x3000}
  {
  }

  /** One terminator: carriage return with line feed, or a single one of the ten characters. */
  ghost predicate IsEnding(ending: string) {
    ending == [13 as char, 10 as char] || (|ending| == 1 && IsTerminator(ending[0]))
  }

  /** Each line with the terminator behind it. */
  function Woven(lines: seq<string>, endings: seq<string>): string
    requires |lines| == |endings|
  {
    if lines == [] then "" else lines[0] + endings[0] + Woven(lines[1..], endings[1..])
  }

  /** The text is these lines with a terminator after each, save perhaps after the last; a carriage return
      is a terminator of its own only when no line feed follows. */
  ghost predicate Weaves(text: string, lines: seq<string>, endings: seq<string>) {
    |lines| == |endings| && Woven(lines, endings) == text && WellEnded(lines, endings)
  }

  ghost predicate WellEnded(lines: seq<string>, endings: seq<string>)
    requires |lines| == |endings|
  {
    && (forall i :: 0 <= i < |lines| - 1 ==> IsEnding(endings[i]))
    && (lines != [] ==> IsEnding(endings[|lines| - 1]) || (endings[|lines| - 1] == "" && lines[|lines| - 1] != ""))
    && (forall i :: 0 <= i < |lines| - 1 && endings[i] == [13 as char] ==> !(['\n'] <= lines[i + 1] + endings[i + 1]))
  }

  lemma {:induction false} SplitIs(text: string) returns (endings: seq<string>)
    ensures Weaves(text, SplitLines(text), endings)
    decreases |text|
  {
    hide IsTerminator, Weaves;
    var end := LineEnd(text, 0);
    if text == "" {
      endings := [];
      NoLines();
    } else if end == |text| {
      endings := [""];
      OneLine(text);
    } else {
      var next := NextLine(text, end);
      endings := SplitIs(text[next..]);
      SplitMore(text, endings);
      endings := [text[end..next]] + endings;
    }
  }

  lemma NoLines()
    ensures Weaves("", [], []) && SplitLines("") == []
  {
  }

  lemma SplitMore(text: string, more: seq<string>)
    requires text != "" && LineEnd(text, 0) < |text|
    requires Weaves(text[NextLine(text, LineEnd(text, 0))..], SplitLines(text[NextLine(text, LineEnd(text, 0))..]), more)
    ensures var end := LineEnd(text, 0); Weaves(text, SplitLines(text), [text[end..NextLine(text, end)]] + more)
  {
    hide SplitLines, LineEnd, IsTerminator, NextLine, Weaves, IsEnding;
    var end := LineEnd(text, 0);
    var next := NextLine(text, end);
    SplitStep(text);
    EndingIs(text, end);
    ThreeSlices(text, end, next);
    OneLineMore(text[..end], text[end..next], text[next..], SplitLines(text[next..]), more);
  }

  lemma ThreeSlices(text: string, i: nat, j: nat)
    requires i <= j <= |text|
    ensures text == text[..i] + text[i..j] + text[j..]
  {
  }

  lemma OneLine(text: string)
    requires text != "" && LineEnd(text, 0) == |text|
    ensures SplitLines(text) == [text] && Weaves(text, [text], [""])
  {
    assert text[..|text|] == text && [text] + [] == [text];
    assert Woven([text][1..], [""][1..]) == "";
    assert text + "" + "" == text;
  }

  lemma OneLineMore(line: string, ending: string, rest: string, lines: seq<string>, endings: seq<string>)
    requires Weaves(rest, lines, endings) && IsEnding(ending) && (ending == [13 as char] ==> !(['\n'] <= rest))
    ensures Weaves(line + ending + rest, [line] + lines, [ending] + endings)
  {
    hide IsEnding, WellEnded;
    assert ([line] + lines)[1..] == lines && ([ending] + endings)[1..] == endings;
    FirstCharacter(lines, endings);
    OneMoreEnded(line, ending, lines, endings);
  }

  lemma FirstCharacter(lines: seq<string>, endings: seq<string>)
    requires |lines| == |endings| && WellEnded(lines, endings)
    ensures lines != [] && ['\n'] <= lines[0] + endings[0] ==> ['\n'] <= Woven(lines, endings)
  {
    hide IsEnding;
  }

  lemma OneMoreEnded(line: string, ending: string, lines: seq<string>, endings: seq<string>)
    requires |lines| == |endings| && WellEnded(lines, endings) && IsEnding(ending)
    requires lines != [] && ending == [13 as char] ==> !(['\n'] <= lines[0] + endings[0])
    ensures WellEnded([line] + lines, [ending] + endings)
  {
    hide IsEnding;
  }

  lemma EndingIs(text: string, end: nat)
    requires end < |text| && IsTerminator(text[end])
    ensures var next := NextLine(text, end);
      && IsEnding(text[end..next]) && (text[end..next] == [13 as char] ==> !(['\n'] <= text[next..]))
  {
    hide IsTerminator;
  }

  // ---------- a whole rendering ----------

  /** A rendering that succeeds leaves the watchlist block as asked for, before its old gap, the capital
      block's session budget as asked for, and every other block as it was. */
  lemma RenderLands(lines: seq<string>, budget: string, watchlist: seq<string>, other: string)
    requires RenderLines(lines, Some(budget), Some(watchlist)).Edited?
    requires '#' !in budget && IsBlock(watchlist, "watchlist")
    ensures var out := RenderLines(lines, Some(budget), Some(watchlist)).lines;
      && Get(lines, "watchlist").Found?
      && Get(out, "watchlist") == Found(watchlist + Gap(Get(lines, "watchlist").text))
      && GetScalar(out, "capital", "session_budget_inr").Some?
      && Padded(budget, GetScalar(out, "capital", "session_budget_inr").value)
      && (other != "watchlist" && other != "capital" ==> Get(out, other) == Get(lines, other))
  {
    hide Rewrite, SetScalar, Get, Gap, Padded;
    var next := SetScalar(lines, "capital", "session_budget_inr", budget).lines;
    SetLands(lines, "capital", "session_budget_inr", budget);
    SetKeepsOthers(lines, "capital", "session_budget_inr", budget, "watchlist");
    RewriteFindsBlock(next, "watchlist", watchlist);
    RewriteLands(next, "watchlist", watchlist);
    RewriteKeepsOthers(next, "watchlist", watchlist, "capital");
    if other != "watchlist" && other != "capital" {
      SetKeepsOthers(lines, "capital", "session_budget_inr", budget, other);
      RewriteKeepsOthers(next, "watchlist", watchlist, other);
    }
  }

  lemma RewriteFindsBlock(lines: seq<string>, key: string, replacement: seq<string>)
    requires Rewrite(lines, key, replacement).Edited?
    ensures Get(lines, key).Found?
  {
  }
}
