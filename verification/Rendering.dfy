/** `render_settings` from text to text: rendering the same request twice is rendering it once. */
module Rendering {
  import opened Options
  import opened Texts
  import opened ConfigWriter
  import Lists

  datatype Rendered = Text(text: string) | Failed(why: Edit)

  /** Split, edit, join again, with a final newline if the text had one. */
  function Render(text: string, budget: Option<string>, watchlist: Option<seq<string>>): Rendered {
    match RenderLines(SplitLines(text), budget, watchlist)
    case Edited(lines) => Text(JoinAs(text, lines))
    case failure => Failed(failure)
  }

  method RenderSettings(text: string, budget: Option<string>, watchlist: Option<seq<string>>) returns (r: Rendered)
    ensures r == Render(text, budget, watchlist)
  {
    hide SetScalar, Rewrite;
    var edit := Edited(SplitLines(text));
    if budget.Some? {
      edit := ReplaceScalar(edit.lines, "capital", "session_budget_inr", budget.value);
      if !edit.Edited? {
        return Failed(edit);
      }
    }
    if watchlist.Some? {
      edit := ReplaceBlock(edit.lines, "watchlist", watchlist.value);
      if !edit.Edited? {
        return Failed(edit);
      }
    }
    r := Text(JoinAs(text, edit.lines));
  }

  /** A line is a line. */
  ghost predicate OneLine(line: string) { forall j :: 0 <= j < |line| ==> !IsTerminator(line[j]) }

  ghost predicate Lines(lines: seq<string>) { forall line <- lines :: OneLine(line) }

  // ---------- splitting what was joined ----------

  lemma {:induction false} LineEndIs(text: string, i: nat, end: nat)
    requires i <= end <= |text| && (forall j :: i <= j < end ==> !IsTerminator(text[j]))
    requires end < |text| ==> IsTerminator(text[end])
    ensures LineEnd(text, i) == end
    decreases end - i
  {
    hide IsTerminator;
    if i < end {
      LineEndIs(text, i + 1, end);
    }
  }

  lemma NewlineEndsALine()
    ensures IsTerminator('\n') && '\n' != 13 as char
  {
  }

  lemma SplitCons(first: string, rest: string)
    requires OneLine(first)
    ensures SplitLines(first + "\n" + rest) == [first] + SplitLines(rest)
  {
    NewlineEndsALine();
    hide IsTerminator;
    var text := first + "\n" + rest;
    LineEndIs(text, 0, |first|);
    assert text[..|first|] == first && text[|first| + 1..] == rest;
    if rest == "" {
      assert [first] + [] == [first];
    }
  }

  lemma SplitOne(line: string)
    requires OneLine(line) && line != ""
    ensures SplitLines(line) == [line]
  {
    hide IsTerminator;
    LineEndIs(line, 0, |line|);
    assert line[..|line|] == line;
  }

  /** Lines joined with a final newline split into themselves. */
  lemma {:induction false} SplitUndoesJoin(lines: seq<string>)
    requires Lines(lines) && lines != []
    ensures SplitLines(Join(lines) + "\n") == lines
  {
    hide SplitLines, OneLine;
    var first, rest := lines[0], lines[1..];
    assert lines == [first] + rest;
    if rest == [] {
      SplitCons(first, "");
      EmptyHasNoLines();
      assert first + "\n" + "" == first + "\n";
    } else {
      SplitUndoesJoin(rest);
      JoinStep(first, rest, "\n");
      SplitCons(first, Join(rest) + "\n");
      Lists.Associates(first, "\n", Join(rest) + "\n");
    }
  }

  /** So do lines joined without one, if the last is not empty. */
  lemma {:induction false} SplitUndoesPlainJoin(lines: seq<string>)
    requires Lines(lines) && lines != [] && lines[|lines| - 1] != ""
    ensures SplitLines(Join(lines)) == lines && !EndsInNewline(Join(lines)) && Join(lines) != ""
  {
    NewlineEndsALine();
    var first, rest := lines[0], lines[1..];
    assert lines == [first] + rest;
    if rest == [] {
      SplitOne(first);
      hide SplitLines, IsTerminator;
    } else {
      hide SplitLines, IsTerminator, OneLine;
      SplitUndoesPlainJoin(rest);
      JoinStep(first, rest, "");
      assert Join(lines) + "" == Join(lines) && Join(rest) + "" == Join(rest);
      SplitCons(first, Join(rest));
      assert Join(lines)[|first| + 1..] == Join(rest);
      EndsAlike(Join(lines), |first| + 1);
    }
  }

  lemma {:induction false} JoinWithBlank(lines: seq<string>)
    requires lines != []
    ensures Join(lines + [""]) == Join(lines) + "\n"
  {
    if |lines| == 1 {
      assert (lines + [""])[1..] == [""];
    } else {
      assert (lines + [""])[1..] == lines[1..] + [""];
      JoinWithBlank(lines[1..]);
    }
  }

  // ---------- edits keep lines lines ----------

  lemma {:induction false} PartsAreOneLine(s: string)
    requires OneLine(s)
    ensures OneLine(Indent(s)) && OneLine(AfterIndent(s)) && OneLine(Comment(s))
  {
    hide IsTerminator, IsSpace;
    if s != "" {
      assert forall j :: 0 <= j < |s[1..]| ==> s[1..][j] == s[j + 1];
      PartsAreOneLine(s[1..]);
    }
  }

  lemma DropIsOneLine(s: string, n: nat)
    requires OneLine(s) && n <= |s|
    ensures OneLine(s[n..])
  {
    hide IsTerminator;
  }

  lemma PlusIsOneLine(a: string, b: string)
    requires OneLine(a) && OneLine(b)
    ensures OneLine(a + b)
  {
    hide IsTerminator;
  }

  lemma ScalarIsOneLine(line: string, key: string)
    requires OneLine(line) && ScalarOf(line, key).Some?
    ensures OneLine(ScalarOf(line, key).value.indent) && OneLine(ScalarOf(line, key).value.rest)
  {
    hide OneLine, Indent, AfterIndent;
    PartsAreOneLine(line);
    var tail := AfterIndent(line);
    DropIsOneLine(tail, |key|);
    PartsAreOneLine(tail[|key|..]);
    DropIsOneLine(AfterIndent(tail[|key|..]), 1);
  }

  lemma LiteralsAreOneLine()
    ensures OneLine(":") && OneLine(" ") && OneLine("  ") && OneLine("")
  {
  }

  lemma AssignIsOneLine(s: Scalar, key: string, value: string)
    requires OneLine(s.indent) && OneLine(s.rest) && OneLine(key) && OneLine(value)
    ensures OneLine(Assign(s, key, value))
  {
    LiteralsAreOneLine();
    hide OneLine, Comment;
    PartsAreOneLine(s.rest);
    PlusIsOneLine("  ", Comment(s.rest));
    PlusIsOneLine(value, Suffix(Comment(s.rest)));
    PlusIsOneLine(" ", value + Suffix(Comment(s.rest)));
    PlusIsOneLine(":", RestWith(value, Comment(s.rest)));
    PlusIsOneLine(key, ":" + RestWith(value, Comment(s.rest)));
    PlusIsOneLine(s.indent, key + (":" + RestWith(value, Comment(s.rest))));
  }

  lemma SplicedLines(lines: seq<string>, s: nat, e: nat, text: seq<string>)
    requires Lines(lines) && Lines(text) && s <= e <= |lines|
    ensures Lines(lines[..s] + text + lines[e..])
  {
    hide OneLine;
  }

  lemma SliceOfLines(lines: seq<string>, s: nat, e: nat)
    requires Lines(lines) && s <= e <= |lines|
    ensures Lines(lines[s..e])
  {
    hide OneLine;
  }

  lemma SetKeepsLines(lines: seq<string>, block: string, key: string, value: string)
    requires Lines(lines) && OneLine(key) && OneLine(value) && SetScalar(lines, block, key, value).Edited?
    ensures Lines(SetScalar(lines, block, key, value).lines)
    ensures SetScalar(lines, block, key, value).lines != []
  {
    BlockFound(lines, block);
    var b := BoundsOf(lines, block);
    SetScalarIs(lines, block, key, value);
    hide OneLine, Assign, ScalarOf, BoundsOf, SetScalar, FirstScalar;
    var at := FirstScalar(lines, key, b.start + 1, b.end);
    ScalarIsOneLine(lines[at], key);
    AssignIsOneLine(ScalarOf(lines[at], key).value, key, value);
  }

  lemma RewriteKeepsLines(lines: seq<string>, key: string, replacement: seq<string>)
    requires Lines(lines) && Lines(replacement) && replacement != [] && Rewrite(lines, key, replacement).Edited?
    ensures Lines(Rewrite(lines, key, replacement).lines)
    ensures Rewrite(lines, key, replacement).lines != []
  {
    hide OneLine, BodyEnd;
    BlockFound(lines, key);
    var b := BoundsOf(lines, key);
    BoundsIff(lines, key, b.start, b.end);
    hide BoundsOf, IsBlockAt, IsBlock;
    var text := lines[b.start..b.end];
    SliceOfLines(lines, b.start, b.end);
    SliceOfLines(text, BodyEnd(text, |text|), |text|);
    assert text[BodyEnd(text, |text|)..|text|] == Gap(text);
    SplicedLines(lines, b.start, b.end, replacement + Gap(text));
  }

  const BUDGET_KEY := "session_budget_inr"

  lemma BudgetKeyIsOneLine()
    ensures OneLine(BUDGET_KEY)
  {
  }

  lemma RenderKeepsLines(lines: seq<string>, budget: Option<string>, watchlist: Option<seq<string>>)
    requires Lines(lines) && (budget.Some? || watchlist.Some?)
    requires budget.Some? ==> OneLine(budget.value)
    requires watchlist.Some? ==> Lines(watchlist.value) && watchlist.value != []
    requires RenderLines(lines, budget, watchlist).Edited?
    ensures Lines(RenderLines(lines, budget, watchlist).lines) && RenderLines(lines, budget, watchlist).lines != []
  {
    BudgetKeyIsOneLine();
    hide Lines, OneLine, SetScalar, Rewrite;
    var next := lines;
    if budget.Some? {
      SetKeepsLines(lines, "capital", BUDGET_KEY, budget.value);
      next := SetScalar(lines, "capital", BUDGET_KEY, budget.value).lines;
    }
    if watchlist.Some? {
      RewriteKeepsLines(next, "watchlist", watchlist.value);
    }
  }

  // ---------- an empty line at the end is carried along ----------

  lemma EmptyIsNoKey()
    ensures KeyOf("") == None && IsBlank("") && forall key :: ScalarOf("", key) == None
  {
  }

  lemma BoundsWithBlank(lines: seq<string>, key: string)
    ensures BoundsOf(lines + [""], key)
         == match BoundsOf(lines, key)
            case At(s, e) => At(s, if e == |lines| then e + 1 else e)
            case other => other
  {
    EmptyIsNoKey();
    var b := BoundsOf(lines, key);
    hide KeyOf, BoundsOf;
    match b
    case At(s, e) =>
      BoundsIff(lines, key, s, e);
      BoundsIff(lines + [""], key, s, if e == |lines| then e + 1 else e);
    case Missing =>
      BoundsIff(lines, key, 0, 0);
      BoundsIff(lines + [""], key, 0, 0);
    case Ambiguous =>
      StillAmbiguous(lines, key);
  }

  lemma StillAmbiguous(lines: seq<string>, key: string)
    requires BoundsOf(lines, key).Ambiguous?
    ensures BoundsOf(lines + [""], key).Ambiguous?
  {
    EmptyIsNoKey();
    hide KeyOf;
    StartsWithBlank(lines, key, |lines|);
    assert (lines + [""])[|lines|] == "";
  }

  lemma {:induction false} StartsWithBlank(lines: seq<string>, key: string, n: nat)
    requires n <= |lines|
    ensures StartsOf(lines + [""], key, n) == StartsOf(lines, key, n)
  {
    hide KeyOf;
    if n > 0 {
      StartsWithBlank(lines, key, n - 1);
    }
  }

  lemma {:induction false} FirstScalarWithBlank(lines: seq<string>, key: string, i: nat, end: nat)
    requires i <= end <= |lines|
    ensures FirstScalar(lines + [""], key, i, end) == FirstScalar(lines, key, i, end)
    ensures end == |lines| ==>
      var at := FirstScalar(lines, key, i, end);
      FirstScalar(lines + [""], key, i, end + 1) == if at == end then end + 1 else at
    decreases end - i
  {
    EmptyIsNoKey();
    hide ScalarOf;
    if i < end {
      FirstScalarWithBlank(lines, key, i + 1, end);
    } else if end == |lines| {
      assert (lines + [""])[end] == "";
    }
  }

  lemma SetWithBlank(lines: seq<string>, block: string, key: string, value: string)
    ensures SetScalar(lines + [""], block, key, value)
         == match SetScalar(lines, block, key, value)
            case Edited(next) => Edited(next + [""])
            case failure => failure
  {
    hide Assign, ScalarOf, FirstScalar, BoundsOf, AssignIn;
    BoundsWithBlank(lines, block);
    if BoundsOf(lines, block).At? {
      SetScalarIs(lines, block, key, value);
      SetScalarIs(lines + [""], block, key, value);
      ScalarsWithBlank(lines, BoundsOf(lines, block), key, value);
    }
  }

  lemma ScalarsWithBlank(lines: seq<string>, b: Bounds, key: string, value: string)
    requires b.At? && b.start < b.end <= |lines|
    ensures var at := FirstScalar(lines, key, b.start + 1, b.end); var end := if b.end == |lines| then b.end + 1 else b.end;
      var next := FirstScalar(lines + [""], key, b.start + 1, end);
      && (at == b.end <==> next == end)
      && (at < b.end ==>
            && next == at
            && (lines + [""])[at := Assign(ScalarOf((lines + [""])[at], key).value, key, value)]
               == lines[at := Assign(ScalarOf(lines[at], key).value, key, value)] + [""])
  {
    FirstScalarWithBlank(lines, key, b.start + 1, b.end);
    hide Assign, ScalarOf, FirstScalar;
    var at := FirstScalar(lines, key, b.start + 1, b.end);
    if at < b.end {
      assert (lines + [""])[at] == lines[at];
      UpdateBeforeBlank(lines, at, Assign(ScalarOf(lines[at], key).value, key, value));
    }
  }

  lemma UpdateBeforeBlank(lines: seq<string>, at: nat, line: string)
    requires at < |lines|
    ensures (lines + [""])[at := line] == lines[at := line] + [""]
  {
  }

  lemma RewriteWithBlank(lines: seq<string>, key: string, replacement: seq<string>)
    ensures Rewrite(lines + [""], key, replacement)
         == match Rewrite(lines, key, replacement)
            case Edited(next) => Edited(next + [""])
            case failure => failure
  {
    BoundsWithBlank(lines, key);
    if BoundsOf(lines, key).At? {
      var b := BoundsOf(lines, key);
      BoundsIff(lines, key, b.start, b.end);
      var text := lines[b.start..b.end];
      EmptyIsNoKey();
      hide IsBlank, IsBlockAt, BoundsOf;
      var c := BoundsOf(lines + [""], key);
      if b.end == |lines| {
        assert (lines + [""])[c.start..c.end] == text + [""];
        GapOfConcat(text, [""]);
        assert (lines + [""])[c.end..] == [] && lines[b.end..] == [];
        LastBlockRewritten(lines[..b.start], replacement, Gap(text));
      } else {
        assert (lines + [""])[c.start..c.end] == text;
        assert (lines + [""])[c.end..] == lines[b.end..] + [""];
        EarlierBlockRewritten(lines[..b.start], replacement + Gap(text), lines[b.end..]);
      }
      assert (lines + [""])[..c.start] == lines[..b.start];
    }
  }

  lemma LastBlockRewritten(a: seq<string>, b: seq<string>, gap: seq<string>)
    ensures a + (b + (gap + [""])) + [] == a + (b + gap) + [] + [""]
  {
  }

  lemma EarlierBlockRewritten(a: seq<string>, b: seq<string>, c: seq<string>)
    ensures a + b + (c + [""]) == a + b + c + [""]
  {
  }

  lemma RenderWithBlank(lines: seq<string>, budget: Option<string>, watchlist: Option<seq<string>>)
    ensures RenderLines(lines + [""], budget, watchlist)
         == match RenderLines(lines, budget, watchlist)
            case Edited(next) => Edited(next + [""])
            case failure => failure
  {
    hide SetScalar, Rewrite;
    var next := Edited(lines);
    if budget.Some? {
      SetWithBlank(lines, "capital", "session_budget_inr", budget.value);
      next := SetScalar(lines, "capital", "session_budget_inr", budget.value);
    }
    if watchlist.Some? && next.Edited? {
      RewriteWithBlank(next.lines, "watchlist", watchlist.value);
    }
  }

  // ---------- rendering twice ----------

  /** For every text, whatever its terminators and however it ends: rendering the same request again
      changes nothing. */
  lemma RenderTextTwice(text: string, budget: Option<string>, watchlist: Option<seq<string>>)
    requires budget.Some? || watchlist.Some?
    requires budget.Some? ==> '#' !in budget.value && OneLine(budget.value)
    requires watchlist.Some? ==>
      IsBlock(watchlist.value, "watchlist") && Gap(watchlist.value) == [] && Lines(watchlist.value)
    requires Render(text, budget, watchlist).Text?
    ensures Render(Render(text, budget, watchlist).text, budget, watchlist) == Render(text, budget, watchlist)
  {
    hide Lines, OneLine, SplitLines, RenderLines, IsBlock, Gap, Join, EndsInNewline;
    var lines := SplitLines(text);
    SplitGivesLines(text);
    RenderTwice(lines, budget, watchlist);
    BlockIsNotEmpty(watchlist);
    RenderKeepsLines(lines, budget, watchlist);
    AgainIsSame(text, RenderLines(lines, budget, watchlist).lines, budget, watchlist);
  }

  lemma SplitGivesLines(text: string)
    ensures Lines(SplitLines(text))
  {
    hide IsTerminator, SplitLines;
    LinesHoldNoTerminator(text);
  }

  lemma BlockIsNotEmpty(watchlist: Option<seq<string>>)
    requires watchlist.Some? ==> IsBlock(watchlist.value, "watchlist")
    ensures watchlist.Some? ==> watchlist.value != []
  {
  }

  lemma NothingInNothing(budget: Option<string>, watchlist: Option<seq<string>>)
    requires budget.Some? || watchlist.Some?
    ensures !RenderLines([], budget, watchlist).Edited?
  {
    BoundsIff([], "capital", 0, 0);
    BoundsIff([], "watchlist", 0, 0);
  }

  /** Lines that an edit leaves alone, joined as any text is, are split again and left alone again. */
  lemma AgainIsSame(text: string, lines: seq<string>, budget: Option<string>, watchlist: Option<seq<string>>)
    requires budget.Some? || watchlist.Some?
    requires Lines(lines) && lines != [] && RenderLines(lines, budget, watchlist) == Edited(lines)
    ensures Render(JoinAs(text, lines), budget, watchlist) == Text(JoinAs(text, lines))
  {
    hide OneLine, SplitLines, RenderLines, Join;
    var most, last := lines[..|lines| - 1], lines[|lines| - 1];
    if EndsInNewline(text) {
      SplitUndoesJoin(lines);
    } else if last != "" {
      SplitUndoesPlainJoin(lines);
      assert Join(lines) + "" == Join(lines);
    } else {
      assert lines == most + [""];
      assert Lines(most);
      RenderWithBlank(most, budget, watchlist);
      LastDropped(most, RenderLines(most, budget, watchlist));
      NothingInNothing(budget, watchlist);
      JoinWithBlank(most);
      SplitUndoesJoin(most);
      assert Join(lines) + "" == Join(most) + "\n";
    }
  }

  lemma LastDropped(most: seq<string>, e: Edit)
    ensures e.Edited? && e.lines + [""] == most + [""] ==> e.lines == most
  {
    if e.Edited? && e.lines + [""] == most + [""] {
      assert e.lines == (e.lines + [""])[..|most|];
    }
  }

  /** The blank line that a carriage return closes is lost, once. */
  lemma ClosedByACarriageReturn(text: string)
    requires text == "x\n" + [13 as char]
    ensures Again(text) == "x\n" && Again("x\n") == "x\n"
  {
    var cr := [13 as char];
    assert text == "x" + "\n" + cr && "x\n" == "x" + "\n" + "";
    SplitCons("x", cr);
    SplitCons("x", "");
    EmptyHasNoLines();
    LineEndIs(cr, 0, 0);
    assert SplitLines(cr) == [""];
    assert ["x"] + [""] == ["x", ""] && ["x"] + [] == ["x"];
    assert SplitLines(text) == ["x", ""] && SplitLines("x\n") == ["x"];
    hide SplitLines;
    JoinWithBlank(["x"]);
    assert Join(["x"]) == "x" && text[|text| - 1] == 13 as char;
  }
}
