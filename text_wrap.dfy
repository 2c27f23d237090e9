/**
 * `Text.wordWrap(String, maxWidth, stringWidth)`: the loop that reads the text one character at
 * a time, keeps `line` and `word` as growing strings and appends to the output as it goes.
 * The `java.lang.StringBuilder` buffers are local string values here, and the `StringReader`
 * and `StringWriter` are the index into the text and the output string.
 */
module TextWrapLoop {
  import opened Chars
  import opened WrapState
  import opened TextEngine
  import opened TextProperties

  /** `leftTrim(StringBuilder)`: skips leading whitespace and deletes it if something follows. */
  method LeftTrim(word: string) returns (r: string)
    ensures r == LeftTrimmed(word)
  {
    var i := 0;
    while i < |word|
      invariant 0 <= i <= |word|
      invariant forall j :: 0 <= j < i ==> IsWhitespaceChar(word[j])
    {
      if !IsWhitespaceChar(word[i]) {
        break;
      }
      i := i + 1;
    }
    FirstNonWhitespaceAt(word, 0, i);
    r := word;
    if i < |word| && i > 0 {
      r := word[i..];
    }
  }

  /** `tooLong`: measures the right-trimmed string against the maximum. */
  method IsTooLong(cfg: TextConfig, s: string) returns (b: bool)
    ensures b == TooLong(cfg, s)
  {
    var t := RightTrim(s);
    b := cfg.width(t) > cfg.maxWidth;
  }

  /** `writeBrokenWord`: writes all but the last character and a newline, keeps the last one. */
  method WriteBrokenWord(out: string, word: string, newLine: string) returns (out': string, word': string)
    requires |word| >= 1
    ensures out' == out + BrokenWord(word, newLine).0 && word' == BrokenWord(word, newLine).1
  {
    out' := out + word[..|word| - 1];
    out' := out' + newLine;
    word' := word[|word| - 1..];
  }

  /** The branch for a word character (lines 69-85 of the source). */
  method WordCharCase(cfg: TextConfig, ch: char, out: string, line: string, word: string, broken: bool,
                      ghost prev: bool)
    returns (out': string, line': string, word': string, broken': bool)
    ensures State(out', line', word', broken', prev) == WordCharStep(cfg, State(out, line, word, broken, prev), ch)
  {
    ghost var st := State(out, line, word, broken, prev);
    out', line', word', broken' := out, line, word + [ch], broken;
    if broken && |line| == 0 {
      word' := LeftTrim(word');
    }
    assert word' == GrownWord(st, ch);
    var over := IsTooLong(cfg, line + word');
    if over {
      if |line| > 0 {
        out' := out + line + cfg.newLine;
        line' := [];
        word' := LeftTrim(word');
        var over2 := IsTooLong(cfg, word');
        if over2 {
          out', word' := WriteBrokenWord(out', word', cfg.newLine);
          WordCharFlushBreak(cfg, st, ch);
        } else {
          broken' := true;
          WordCharFlush(cfg, st, ch);
        }
      } else {
        out', word' := WriteBrokenWord(out', word', cfg.newLine);
        WordCharBreak(cfg, st, ch);
      }
    } else {
      WordCharFits(cfg, st, ch);
    }
  }

  /** `appendWordToLine` and the trim after a break (lines 87-92 of the source). */
  method CommitWord(line: string, word: string, broken: bool, ghost st: State)
    returns (line': string, word': string)
    requires line == st.line && word == st.word && broken == st.broken
    ensures (line', word') == Commit(st)
  {
    line', word' := line, word;
    var blank := IsWhitespace(word);
    if |word| > 0 && !blank {
      line' := line + word;
      word' := [];
      if broken {
        line' := LeftTrim(line');
      }
    }
  }

  /** The branch for any other character (lines 87-114 of the source). */
  method OtherCase(cfg: TextConfig, ch: char, out: string, line: string, word: string, broken: bool,
                   ghost prev: bool)
    returns (out': string, line': string, word': string, broken': bool)
    ensures State(out', line', word', broken', prev) == OtherStep(cfg, State(out, line, word, broken, prev), ch)
  {
    ghost var st := State(out, line, word, broken, prev);
    out', broken' := out, broken;
    line', word' := CommitWord(line, word, broken, st);
    ghost var word1 := word';
    word' := word' + [ch];
    var over := IsTooLong(cfg, line' + word');
    if over {
      if |line'| > 0 {
        out' := FlushLine(out', line', cfg.newLine);
        line' := [];
        broken' := true;
        OtherFlush(cfg, st, ch);
      } else {
        assert word'[..|word'| - 1] == word1 && word'[|word'| - 1..] == [ch];
        out', word', broken' := WriteHead(out, word', broken, cfg.newLine);
        OtherHead(cfg, st, ch);
      }
    } else {
      OtherFits(cfg, st, ch);
    }
  }

  /** An overflow with a line (lines 95-101 of the source): the line goes out unless it is blank. */
  method FlushLine(out: string, line: string, newLine: string) returns (out': string)
    ensures out' == out + (if AllWhitespace(line) then [] else line + newLine)
  {
    out' := out;
    var blank := IsWhitespace(line);
    if !blank {
      out' := out' + line + newLine;
    }
  }

  /**
   * An overflow with an empty line (lines 103-112 of the source): the word's head, left-trimmed
   * after a break, goes out on a line of its own unless it is empty; the last character stays.
   */
  method WriteHead(out: string, word: string, broken: bool, newLine: string)
    returns (out': string, word': string, broken': bool)
    requires |word| >= 1
    ensures var w := word[..|word| - 1];
      var head := if broken then LeftTrimmed(w) else w;
      && word' == word[|word| - 1..]
      && out' == (if head != [] then out + head + newLine else out)
      && broken' == (broken && head == [])
  {
    var w := word[..|word| - 1];
    word' := word[|word| - 1..];
    if broken {
      w := LeftTrim(w);
    }
    out', broken' := out, broken;
    if |w| > 0 {
      out' := out' + w;
      out' := out' + newLine;
      broken' := false;
    }
  }

  /** One character of the loop body (lines 55-117 of the source). */
  method Consume(cfg: TextConfig, ch: char, out: string, line: string, word: string, broken: bool, prev: bool)
    returns (out': string, line': string, word': string, broken': bool, prev': bool)
    ensures State(out', line', word', broken', prev') == Step(cfg, State(out, line, word, broken, prev), ch)
  {
    ghost var st := State(out, line, word, broken, prev);
    var alphanumeric := IsLetter(ch) || ch in TextWordChars;
    out', line', word', broken' := out, line, word, broken;
    if ch == '\n' {
      line' := line' + word';
      out' := out' + line';
      out' := out' + cfg.newLine;
      word' := [];
      line' := [];
      broken' := false;
    } else if ch == '\r' {
    } else if alphanumeric && !prev {
      out', line', word', broken' := WordCharCase(cfg, ch, out, line, word, broken, prev);
    } else {
      out', line', word', broken' := OtherCase(cfg, ch, out, line, word, broken, prev);
    }
    prev' := IsPunctuation(ch) && ch !in TextWordChars;
  }

  /** The flush after the last character (lines 119-130 of the source). */
  method FinishCase(out: string, line: string, word: string, broken: bool, ghost prev: bool)
    returns (out': string)
    ensures out' == Finish(State(out, line, word, broken, prev))
  {
    if |line| > 0 {
      var s := line + word;
      if broken {
        s := LeftTrim(s);
      }
      out' := out + s;
    } else {
      var w := word;
      if broken {
        w := LeftTrim(w);
      }
      out' := out + w;
    }
  }

  /**
   * `wordWrap(String, maxWidth, stringWidth)` with the newline "\n" (and, with `cfg.newLine`,
   * the Reader/Writer overload): reads every character, then flushes what is left.
   */
  method TextWordWrap(text: string, cfg: TextConfig) returns (out: string)
    ensures out == Wrap(cfg, text)
  {
    var line: string := [];
    var word: string := [];
    var broken := false;
    var previousWasPunctuation := false;
    out := [];
    var i := 0;
    while i < |text|
      invariant 0 <= i <= |text|
      invariant Run(cfg, text[..i]) == State(out, line, word, broken, previousWasPunctuation)
    {
      var ch := text[i];
      assert text[..i + 1][..i] == text[..i];
      out, line, word, broken, previousWasPunctuation :=
        Consume(cfg, ch, out, line, word, broken, previousWasPunctuation);
      i := i + 1;
    }
    assert text[..i] == text;
    out := FinishCase(out, line, word, broken, previousWasPunctuation);
  }
}
