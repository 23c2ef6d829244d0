/** The text-statistics counter of the `match` exercise: it reads bytes
    until end of input and counts characters, words and lines, where a word
    is a maximal run of bytes other than space, tab, newline and carriage
    return, and a non-empty text without a newline counts as one line.
    `_alternative_char_classifier` is the same word-counting step written
    with more `match` arms. */
module WordCount {
  import opened Bytes

  /** The four separators both `match` statements single out. */
  predicate IsSeparator(ch: char) {
    ch == ' ' || ch == '\t' || ch == '\n' || ch == '\r'
  }

  /** The byte `main` reads, taken `as char`. */
  function AsChar(b: byte): char {
    b as int as char
  }

  /** Position `k` of `text` starts a word: it is not a separator and
      either opens the text or follows one. */
  predicate StartsWord(text: seq<byte>, k: nat)
    requires k < |text|
  {
    !IsSeparator(AsChar(text[k])) && (k == 0 || IsSeparator(AsChar(text[k - 1])))
  }

  /** The number of words of `text`: the positions that start one. */
  function Words(text: seq<byte>): nat {
    if |text| == 0 then 0
    else Words(text[..|text| - 1]) + (if StartsWord(text, |text| - 1) then 1 else 0)
  }

  /** The number of newline bytes in `text`. */
  function Newlines(text: seq<byte>): nat {
    if |text| == 0 then 0
    else Newlines(text[..|text| - 1]) + (if AsChar(text[|text| - 1]) == '\n' then 1 else 0)
  }

  /** The line count `main` reports: the newlines, raised to one for a
      non-empty text that has none. */
  function Lines(text: seq<byte>): (r: nat)
    ensures |text| > 0 ==> r >= 1
    ensures |text| == 0 ==> r == 0
  {
    var n := Newlines(text);
    NewlinesBounded(text);
    if |text| > 0 && n == 0 then 1 else n
  }

  /** There are no more newlines or words than bytes. */
  lemma {:induction false} NewlinesBounded(text: seq<byte>)
    ensures Newlines(text) <= |text| && Words(text) <= |text|
  {
    if |text| > 0 {
      NewlinesBounded(text[..|text| - 1]);
    }
  }

  /** `_alternative_char_classifier(ch, in_word, word_count)`: every
      separator arm ends the current word; every other arm (letters and
      digits, `_ - '`, and everything else) starts a word and counts it
      when none is open. Returns the new `(in_word, word_count)`. */
  function ClassifyChar(ch: char, inWord: bool, wordCount: int): (r: (bool, int))
    ensures r.0 <==> !IsSeparator(ch)
    ensures r.1 == if !IsSeparator(ch) && !inWord then wordCount + 1 else wordCount
  {
    match ch
    case ' ' => (if inWord then false else inWord, wordCount)
    case '\t' => (if inWord then false else inWord, wordCount)
    case '\n' | '\r' => (if inWord then false else inWord, wordCount)
    case _ =>
      if ('a' <= ch <= 'z') || ('A' <= ch <= 'Z') || ('0' <= ch <= '9') then
        if !inWord then (true, wordCount + 1) else (inWord, wordCount)
      else if ch == '_' || ch == '-' || ch == '\'' then
        if !inWord then (true, wordCount + 1) else (inWord, wordCount)
      else
        if !inWord then (true, wordCount + 1) else (inWord, wordCount)
  }

  /** `_alternative_char_classifier` applied to each byte of `text` in turn. */
  function ClassifyAll(text: seq<byte>): (bool, int) {
    if |text| == 0 then (false, 0)
    else
      var prev := ClassifyAll(text[..|text| - 1]);
      ClassifyChar(AsChar(text[|text| - 1]), prev.0, prev.1)
  }

  /** Folding the classifier over a text from `in_word = false` and a zero
      count yields the word count, and `in_word` tells whether the text
      ends inside a word. */
  lemma {:induction false} ClassifierCountsWords(text: seq<byte>)
    ensures ClassifyAll(text).1 == Words(text)
    ensures ClassifyAll(text).0 <==> |text| > 0 && !IsSeparator(AsChar(text[|text| - 1]))
  {
    if |text| > 0 {
      ClassifierCountsWords(text[..|text| - 1]);
    }
  }

  /** The reading loop of `main` and the line adjustment after it. `input`
      stands for the standard-input byte stream: its end is end of file
      (a read error ends the loop the same way). */
  method CountText(input: seq<byte>) returns (charCount: nat, wordCount: nat, lineCount: nat)
    ensures charCount == |input|
    ensures wordCount == Words(input)
    ensures lineCount == Lines(input)
  {
    charCount, wordCount, lineCount := 0, 0, 0;
    var inWord := false;
    var i := 0;
    while i < |input|
      invariant i <= |input| && charCount == i
      invariant wordCount == Words(input[..i]) && lineCount == Newlines(input[..i])
      invariant inWord <==> i > 0 && !IsSeparator(AsChar(input[i - 1]))
    {
      var ch := AsChar(input[i]);
      charCount := charCount + 1;
      match ch {
        case '\n' =>
          lineCount := lineCount + 1;
          if inWord {
            inWord := false;
          }
        case ' ' | '\t' | '\r' =>
          if inWord {
            inWord := false;
          }
        case _ =>
          if !inWord {
            wordCount := wordCount + 1;
            inWord := true;
          }
      }
      assert input[..i + 1][..i] == input[..i];
      i := i + 1;
    }
    assert input[..i] == input;
    if charCount > 0 && lineCount == 0 {
      lineCount := 1;
    }
  }

  /** Counting examples: "a b\n" has two words and one line, "ab" has one
      word and, having no newline, one line; the empty text has none. */
  lemma CountExamples()
    ensures Words(Ascii("a b\n")) == 2 && Lines(Ascii("a b\n")) == 1
    ensures Words(Ascii("ab")) == 1 && Lines(Ascii("ab")) == 1
    ensures Words([]) == 0 && Lines([]) == 0
  {
    var s1: seq<byte> := [97];
    var s2 := s1 + [32];
    var s3 := s2 + [98];
    var s4 := s3 + [10];
    assert s1[..0] == [] && s2[..1] == s1 && s3[..2] == s2 && s4[..3] == s3;
    assert Words(s1) == 1 && Newlines(s1) == 0;
    assert Words(s2) == 1 && Newlines(s2) == 0;
    assert Words(s3) == 2 && Newlines(s3) == 0;
    assert Words(s4) == 2 && Newlines(s4) == 1;
    assert Ascii("a b\n") == s4;
    var u := s1 + [98];
    assert u[..1] == s1;
    assert Words(u) == 1 && Newlines(u) == 0;
    assert Ascii("ab") == u;
  }
}
