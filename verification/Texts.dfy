/** Characters and words, as `str.strip` and `str.lower` treat them. */
module Texts {

  /** The characters that both `\s` and `str.strip` take for white space. */
  predicate IsSpace(c: char) {
    var n := c as int;
    9 <= n <= 13 || 28 <= n <= 32 || n == 0x85 || n == 0xA0 || n == 0x1680 || 0x2000 <= n <= 0x200A
    || n == 0x2028 || n == 0x2029 || n == 0x202F || n == 0x205F || n == 0x3000
  }

  predicate IsBlank(line: string) { forall i :: 0 <= i < |line| ==> IsSpace(line[i]) }

  /** Lower case for the letters A to Z; no other character becomes one of theirs, save for k and i. */
  function Lower(c: char): char { if 'A' <= c <= 'Z' then (c as int + 32) as char else c }

  function Lowered(text: string): string { seq(|text|, i requires 0 <= i < |text| => Lower(text[i])) }

  function Stripped(text: string): string {
    if text == "" then ""
    else if IsSpace(text[0]) then Stripped(text[1..])
    else if IsSpace(text[|text| - 1]) then Stripped(text[..|text| - 1])
    else text
  }

  /** Blanks around one part of the text, and no blank at either end of that part. */
  ghost predicate IsCore(text: string, i: nat, j: nat) {
    && i <= j <= |text| && IsBlank(text[..i]) && IsBlank(text[j..])
    && (i < j ==> !IsSpace(text[i]) && !IsSpace(text[j - 1]))
  }

  /** Stripping leaves what lies between the blanks at both ends. */
  lemma {:induction false} StrippedIs(text: string) returns (i: nat, j: nat)
    ensures IsCore(text, i, j) && Stripped(text) == text[i..j]
    decreases |text|
  {
    hide IsSpace;
    if text == "" {
      i, j := 0, 0;
    } else if IsSpace(text[0]) {
      i, j := StrippedIs(text[1..]);
      ShiftCore(text, i, j);
      i, j := i + 1, j + 1;
    } else if IsSpace(text[|text| - 1]) {
      i, j := StrippedIs(text[..|text| - 1]);
      ExtendCore(text, i, j);
    } else {
      i, j := 0, |text|;
    }
  }

  lemma ShiftCore(text: string, i: nat, j: nat)
    requires text != "" && IsSpace(text[0]) && IsCore(text[1..], i, j)
    ensures IsCore(text, i + 1, j + 1) && text[i + 1..j + 1] == text[1..][i..j]
  {
    hide IsSpace;
    TailSlices(text, i, j);
    var left := text[..i + 1];
    forall k | 0 <= k < |left|
      ensures IsSpace(left[k])
    {
      assert k > 0 ==> left[k] == text[1..][..i][k - 1];
    }
    assert i < j ==> text[i + 1] == text[1..][i] && text[j] == text[1..][j - 1];
  }

  lemma TailSlices(text: string, i: nat, j: nat)
    requires text != "" && i <= j <= |text| - 1
    ensures text[1..][i..j] == text[i + 1..j + 1] && text[1..][j..] == text[j + 1..]
    ensures text[..i + 1] == [text[0]] + text[1..][..i]
  {
    var tail, core := text[1..], text[i + 1..j + 1];
    forall k | 0 <= k < |core|
      ensures tail[i..j][k] == core[k]
    {
      assert tail[i + k] == text[i + k + 1];
    }
  }

  lemma ExtendCore(text: string, i: nat, j: nat)
    requires text != "" && IsSpace(text[|text| - 1]) && IsCore(text[..|text| - 1], i, j)
    ensures IsCore(text, i, j) && text[i..j] == text[..|text| - 1][i..j]
  {
    hide IsSpace;
    var init := text[..|text| - 1];
    assert text[..i] == init[..i];
    forall k | 0 <= k < |text| - j
      ensures IsSpace(text[j..][k])
    {
      assert j + k < |init| ==> text[j..][k] == init[j..][k];
    }
  }

  /** A word in any case, with blanks around it. */
  ghost predicate Says(text: string, word: string) {
    exists i: nat :: SaysAt(text, word, i)
  }

  ghost predicate SaysAt(text: string, word: string, i: nat) {
    && i + |word| <= |text| && IsBlank(text[..i]) && IsBlank(text[i + |word|..])
    && forall k :: 0 <= k < |word| ==> text[i + k] == word[k] || (text[i + k] as int + 32 == word[k] as int && 'A' <= text[i + k] <= 'Z')
  }

  /** A word as the program writes it: not empty, in small letters. */
  ghost predicate IsWord(word: string) { word != "" && forall k :: 0 <= k < |word| ==> 'a' <= word[k] <= 'z' }

  /** Stripped and lowered, a text is a word exactly when it says that word. */
  lemma SaysIff(text: string, word: string)
    requires IsWord(word)
    ensures Lowered(Stripped(text)) == word <==> Says(text, word)
  {
    var i, j := StrippedIs(text);
    if Lowered(Stripped(text)) == word {
      assert |word| == j - i;
      forall k | 0 <= k < |word|
        ensures text[i + k] == word[k] || (text[i + k] as int + 32 == word[k] as int && 'A' <= text[i + k] <= 'Z')
      {
        assert Lowered(text[i..j])[k] == word[k] && text[i..j][k] == text[i + k];
      }
      assert SaysAt(text, word, i);
    }
    if m: nat :| SaysAt(text, word, m) {
      SameCore(text, word, m, i, j);
      forall k | 0 <= k < |word|
        ensures Lower(text[m + k]) == word[k]
      {
      }
      assert Lowered(text[i..j]) == word;
    }
  }

  lemma LettersAreNoBlanks(c: char)
    requires 'a' <= c <= 'z' || 'A' <= c <= 'Z'
    ensures !IsSpace(c)
  {
  }

  lemma SameCore(text: string, word: string, m: nat, i: nat, j: nat)
    requires IsWord(word) && SaysAt(text, word, m) && IsCore(text, i, j)
    ensures i == m && j == m + |word|
  {
    var e := m + |word|;
    assert 'a' <= word[0] <= 'z' && 'a' <= word[|word| - 1] <= 'z';
    LettersAreNoBlanks(text[m + 0]);
    LettersAreNoBlanks(text[m + (|word| - 1)]);
    hide IsSpace, IsBlank;
    NotBefore(text, i, m);
    NotAfter(text, j, e);
    NotBefore(text, m, i);
    NotAfter(text, e, j);
  }

  /** A blank start ends at or before the first character that is no blank; and so at the other end. */
  lemma NotBefore(text: string, n: nat, k: nat)
    requires n <= |text| && IsBlank(text[..n]) && k < |text| && !IsSpace(text[k])
    ensures n <= k
  {
    hide IsBlank, IsSpace;
    if k < n {
      BlankBefore(text, n, k);
    }
  }

  lemma NotAfter(text: string, n: nat, k: nat)
    requires n <= |text| && IsBlank(text[n..]) && 0 < k <= |text| && !IsSpace(text[k - 1])
    ensures k <= n
  {
    hide IsBlank, IsSpace;
    if n < k {
      BlankFrom(text, n, k - 1);
    }
  }

  lemma BlankBefore(text: string, n: nat, k: nat)
    requires k < n <= |text| && IsBlank(text[..n])
    ensures IsSpace(text[k])
  {
    assert text[..n][k] == text[k];
  }

  lemma BlankFrom(text: string, n: nat, k: nat)
    requires n <= k < |text| && IsBlank(text[n..])
    ensures IsSpace(text[k])
  {
    assert text[n..][k - n] == text[k];
  }
}
