/** What the `Text` engine guarantees, stated over its step function. */
module TextProperties {
  import opened Chars
  import opened WrapState
  import opened TextEngine

  /** `writeBrokenWord` loses nothing but the newline it inserts. */
  lemma BrokenWordKeepsText(word: string, newLine: string)
    requires |word| >= 1 && Kept(newLine, false) == []
    ensures Kept(BrokenWord(word, newLine).0 + BrokenWord(word, newLine).1, false) == Kept(word, false)
  {
    var L := |word|;
    var prefix := word[..L - 1];
    var rest := word[L - 1..];
    assert BrokenWord(word, newLine).0 + BrokenWord(word, newLine).1 == prefix + newLine + rest;
    KeptOfThree(prefix, newLine, rest, false);
    assert word == prefix + rest;
    KeptAppend(prefix, rest, false);
  }

  lemma NewlineStepKeepsText(cfg: TextConfig, st: State)
    requires Kept(cfg.newLine, false) == []
    ensures Kept(Consumed(NewlineStep(cfg, st)), false) == Kept(Consumed(st) + ['\n'], false)
  {
    assert Consumed(NewlineStep(cfg, st)) == Consumed(st) + cfg.newLine;
    KeptAppend(Consumed(st), cfg.newLine, false);
    KeptAppend(Consumed(st), ['\n'], false);
    KeptOfLineBreak(false);
  }

  lemma WordCharFits(cfg: TextConfig, st: State, ch: char)
    requires !TooLong(cfg, st.line + GrownWord(st, ch))
    ensures WordCharStep(cfg, st, ch) == st.(word := GrownWord(st, ch))
  {
  }

  lemma WordCharFlushBreak(cfg: TextConfig, st: State, ch: char)
    requires TooLong(cfg, st.line + GrownWord(st, ch)) && st.line != []
    requires TooLong(cfg, LeftTrimmed(GrownWord(st, ch)))
    ensures var r := BrokenWord(LeftTrimmed(GrownWord(st, ch)), cfg.newLine);
      WordCharStep(cfg, st, ch) == st.(out := st.out + st.line + cfg.newLine + r.0, line := [], word := r.1)
  {
  }

  lemma WordCharFlush(cfg: TextConfig, st: State, ch: char)
    requires TooLong(cfg, st.line + GrownWord(st, ch)) && st.line != []
    requires !TooLong(cfg, LeftTrimmed(GrownWord(st, ch)))
    ensures WordCharStep(cfg, st, ch)
      == st.(out := st.out + st.line + cfg.newLine, line := [], word := LeftTrimmed(GrownWord(st, ch)), broken := true)
  {
  }

  lemma WordCharBreak(cfg: TextConfig, st: State, ch: char)
    requires TooLong(cfg, st.line + GrownWord(st, ch)) && st.line == []
    ensures var r := BrokenWord(GrownWord(st, ch), cfg.newLine);
      WordCharStep(cfg, st, ch) == st.(out := st.out + r.0, word := r.1)
  {
  }

  /** The branch that flushes a non-empty line, then breaks the word that follows. */
  lemma WordCharFlushBreakKeepsText(cfg: TextConfig, st: State, ch: char)
    requires Kept(cfg.newLine, false) == []
    requires TooLong(cfg, st.line + GrownWord(st, ch)) && st.line != []
    requires TooLong(cfg, LeftTrimmed(GrownWord(st, ch)))
    ensures Kept(Consumed(WordCharStep(cfg, st, ch)), false) == Kept(st.out + st.line + GrownWord(st, ch), false)
  {
    var w1 := GrownWord(st, ch);
    var w2 := LeftTrimmed(w1);
    var r := BrokenWord(w2, cfg.newLine);
    WordCharFlushBreak(cfg, st, ch);
    assert Consumed(WordCharStep(cfg, st, ch)) == st.out + st.line + cfg.newLine + (r.0 + r.1);
    assert Kept(r.0 + r.1, false) == Kept(w1, false) by {
      BrokenWordKeepsText(w2, cfg.newLine);
      KeptLeftTrimmed(w1, false);
    }
    KeptInserted(st.out + st.line, cfg.newLine, w1, r.0 + r.1, false);
  }

  /** The branch that flushes a non-empty line and moves the word to the next one. */
  lemma WordCharFlushKeepsText(cfg: TextConfig, st: State, ch: char)
    requires Kept(cfg.newLine, false) == []
    requires TooLong(cfg, st.line + GrownWord(st, ch)) && st.line != []
    requires !TooLong(cfg, LeftTrimmed(GrownWord(st, ch)))
    ensures Kept(Consumed(WordCharStep(cfg, st, ch)), false) == Kept(st.out + st.line + GrownWord(st, ch), false)
  {
    var w1 := GrownWord(st, ch);
    WordCharFlush(cfg, st, ch);
    assert Consumed(WordCharStep(cfg, st, ch)) == st.out + st.line + cfg.newLine + LeftTrimmed(w1);
    KeptLeftTrimmed(w1, false);
    KeptInserted(st.out + st.line, cfg.newLine, w1, LeftTrimmed(w1), false);
  }

  /** The branch that breaks a word standing alone on its line. */
  lemma WordCharBreakKeepsText(cfg: TextConfig, st: State, ch: char)
    requires Kept(cfg.newLine, false) == []
    requires TooLong(cfg, st.line + GrownWord(st, ch)) && st.line == []
    ensures Kept(Consumed(WordCharStep(cfg, st, ch)), false) == Kept(st.out + st.line + GrownWord(st, ch), false)
  {
    var w1 := GrownWord(st, ch);
    var r := BrokenWord(w1, cfg.newLine);
    WordCharBreak(cfg, st, ch);
    assert Consumed(WordCharStep(cfg, st, ch)) == st.out + st.line + (r.0 + r.1);
    BrokenWordKeepsText(w1, cfg.newLine);
    KeptReplaced(st.out + st.line, w1, r.0 + r.1, false);
  }

  lemma WordCharStepKeepsText(cfg: TextConfig, st: State, ch: char)
    requires Kept(cfg.newLine, false) == []
    ensures Kept(Consumed(WordCharStep(cfg, st, ch)), false) == Kept(Consumed(st) + [ch], false)
  {
    GrownWordKeepsText(st, ch, false);
    var w1 := GrownWord(st, ch);
    if !TooLong(cfg, st.line + w1) {
      assert WordCharStep(cfg, st, ch) == st.(word := w1);
    } else if st.line != [] && TooLong(cfg, LeftTrimmed(w1)) {
      WordCharFlushBreakKeepsText(cfg, st, ch);
    } else if st.line != [] {
      WordCharFlushKeepsText(cfg, st, ch);
    } else {
      WordCharBreakKeepsText(cfg, st, ch);
    }
  }

  /** The word's head that an overflow with an empty line writes: nothing visible is lost. */
  lemma HeadKeepsText(st: State)
    ensures var word1 := Commit(st).1;
      var head := if st.broken then LeftTrimmed(word1) else word1;
      Kept(head, false) == Kept(word1, false) && (head == [] ==> word1 == [])
  {
    var word1 := Commit(st).1;
    KeptLeftTrimmed(word1, false);
    if word1 != [] && !AllWhitespace(word1) {
      assert |LeftTrimmed(word1)| > 0;
    }
  }

  lemma OtherFlush(cfg: TextConfig, st: State, ch: char)
    requires TooLong(cfg, Commit(st).0 + (Commit(st).1 + [ch])) && Commit(st).0 != []
    ensures OtherStep(cfg, st, ch) == st.(
      out := st.out + (if AllWhitespace(Commit(st).0) then [] else Commit(st).0 + cfg.newLine),
      line := [], word := Commit(st).1 + [ch], broken := true)
  {
  }

  lemma OtherHead(cfg: TextConfig, st: State, ch: char)
    requires TooLong(cfg, Commit(st).0 + (Commit(st).1 + [ch])) && Commit(st).0 == []
    ensures var head := if st.broken then LeftTrimmed(Commit(st).1) else Commit(st).1;
      OtherStep(cfg, st, ch) == (
        if head != [] then st.(out := st.out + head + cfg.newLine, line := [], word := [ch], broken := false)
        else st.(line := [], word := [ch]))
  {
  }

  lemma OtherFits(cfg: TextConfig, st: State, c: char)
    requires !TooLong(cfg, Commit(st).0 + (Commit(st).1 + [c]))
    ensures OtherStep(cfg, st, c) == st.(line := Commit(st).0, word := Commit(st).1 + [c])
  {
  }

  /** The overflow branch with a line that is not blank: the line goes out, the word stays. */
  lemma OtherFlushKeepsText(cfg: TextConfig, st: State, ch: char)
    requires Kept(cfg.newLine, false) == []
    requires TooLong(cfg, Commit(st).0 + (Commit(st).1 + [ch]))
    requires Commit(st).0 != [] && !AllWhitespace(Commit(st).0)
    ensures Kept(Consumed(OtherStep(cfg, st, ch)), false)
      == Kept(st.out + Commit(st).0 + (Commit(st).1 + [ch]), false)
  {
    var line1 := Commit(st).0;
    var word2 := Commit(st).1 + [ch];
    OtherFlush(cfg, st, ch);
    assert Consumed(OtherStep(cfg, st, ch)) == st.out + line1 + cfg.newLine + word2;
    KeptInserted(st.out + line1, cfg.newLine, word2, word2, false);
  }

  /** The overflow branch with a blank line: the line is dropped, the word stays. */
  lemma OtherClearKeepsText(cfg: TextConfig, st: State, ch: char)
    requires TooLong(cfg, Commit(st).0 + (Commit(st).1 + [ch]))
    requires Commit(st).0 != [] && AllWhitespace(Commit(st).0)
    ensures Kept(Consumed(OtherStep(cfg, st, ch)), false)
      == Kept(st.out + Commit(st).0 + (Commit(st).1 + [ch]), false)
  {
    var line1 := Commit(st).0;
    var word2 := Commit(st).1 + [ch];
    OtherFlush(cfg, st, ch);
    assert Consumed(OtherStep(cfg, st, ch)) == st.out + word2;
    KeptWhitespace(line1, false);
    KeptInserted(st.out, line1, word2, word2, false);
  }

  /** The overflow branch with an empty line and a head to write: it goes out on its own line. */
  lemma OtherHeadKeepsText(cfg: TextConfig, st: State, ch: char)
    requires Kept(cfg.newLine, false) == []
    requires TooLong(cfg, Commit(st).0 + (Commit(st).1 + [ch])) && Commit(st).0 == []
    requires (if st.broken then LeftTrimmed(Commit(st).1) else Commit(st).1) != []
    ensures Kept(Consumed(OtherStep(cfg, st, ch)), false)
      == Kept(st.out + Commit(st).0 + (Commit(st).1 + [ch]), false)
  {
    var word1 := Commit(st).1;
    var head := if st.broken then LeftTrimmed(word1) else word1;
    OtherHead(cfg, st, ch);
    HeadKeepsText(st);
    HeadLineKeepsText(st.out, head, word1, cfg.newLine, ch);
  }

  lemma HeadLineKeepsText(out: string, head: string, word1: string, newLine: string, ch: char)
    requires Kept(newLine, false) == [] && Kept(head, false) == Kept(word1, false)
    ensures Kept(out + head + newLine + [] + [ch], false) == Kept(out + [] + (word1 + [ch]), false)
  {
    assert out + head + newLine + [] == out + head + newLine;
    KeptInserted(out + head, newLine, [ch], [ch], false);
    KeptOfThree(out, head, [ch], false);
    KeptOfThree(out, word1, [ch], false);
    assert out + [] + (word1 + [ch]) == out + word1 + [ch];
  }

  /** The overflow branch with an empty line and an empty head: only the character stays. */
  lemma OtherNoHeadKeepsText(cfg: TextConfig, st: State, ch: char)
    requires TooLong(cfg, Commit(st).0 + (Commit(st).1 + [ch])) && Commit(st).0 == []
    requires (if st.broken then LeftTrimmed(Commit(st).1) else Commit(st).1) == []
    ensures Kept(Consumed(OtherStep(cfg, st, ch)), false)
      == Kept(st.out + Commit(st).0 + (Commit(st).1 + [ch]), false)
  {
    OtherHead(cfg, st, ch);
    HeadKeepsText(st);
    assert Consumed(OtherStep(cfg, st, ch)) == st.out + Commit(st).0 + (Commit(st).1 + [ch]);
  }

  lemma OtherStepKeepsText(cfg: TextConfig, st: State, ch: char)
    requires Kept(cfg.newLine, false) == []
    ensures Kept(Consumed(OtherStep(cfg, st, ch)), false) == Kept(Consumed(st) + [ch], false)
  {
    var line1 := Commit(st).0;
    var word1 := Commit(st).1;
    var word2 := word1 + [ch];
    assert Kept(Consumed(st) + [ch], false) == Kept(st.out + line1 + word2, false) by {
      CommitThenAppendKeepsText(st, ch, false);
      KeptOfThree(st.out, line1, word2, false);
    }
    var head := if st.broken then LeftTrimmed(word1) else word1;
    if !TooLong(cfg, line1 + word2) {
      OtherFits(cfg, st, ch);
    } else if line1 != [] && !AllWhitespace(line1) {
      OtherFlushKeepsText(cfg, st, ch);
    } else if line1 != [] {
      OtherClearKeepsText(cfg, st, ch);
    } else if head != [] {
      OtherHeadKeepsText(cfg, st, ch);
    } else {
      OtherNoHeadKeepsText(cfg, st, ch);
    }
  }

  lemma StepKeepsText(cfg: TextConfig, st: State, ch: char)
    requires Kept(cfg.newLine, false) == []
    ensures Kept(Consumed(Step(cfg, st, ch)), false) == Kept(Consumed(st) + [ch], false)
  {
    if ch == '\n' {
      NewlineStepKeepsText(cfg, st);
    } else if ch == '\r' {
      KeptOfLineBreak(false);
      KeptAppend(Consumed(st), [ch], false);
    } else if IsWordChar(ch) && !st.previousWasPunctuation {
      WordCharStepKeepsText(cfg, st, ch);
    } else {
      OtherStepKeepsText(cfg, st, ch);
    }
  }

  lemma {:induction false} RunKeepsText(cfg: TextConfig, input: string)
    requires Kept(cfg.newLine, false) == []
    ensures Kept(Consumed(Run(cfg, input)), false) == Kept(input, false)
    decreases |input|
  {
    if input != [] {
      var p := input[..|input| - 1];
      var c := input[|input| - 1];
      RunKeepsText(cfg, p);
      StepKeepsText(cfg, Run(cfg, p), c);
      KeptAppend(Consumed(Run(cfg, p)), [c], false);
      assert input == p + [c];
      KeptAppend(p, [c], false);
    }
  }

  lemma FinishLineKeepsText(st: State)
    requires st.line != []
    ensures Kept(Finish(st), false) == Kept(Consumed(st), false)
  {
    var lw := st.line + st.word;
    var t := if st.broken then LeftTrimmed(lw) else lw;
    assert Finish(st) == st.out + t;
    KeptLeftTrimmed(lw, false);
    KeptReplaced(st.out, lw, t, false);
    assert Consumed(st) == st.out + lw;
  }

  lemma FinishWordKeepsText(st: State)
    requires st.line == []
    ensures Kept(Finish(st), false) == Kept(Consumed(st), false)
  {
    var t := if st.broken then LeftTrimmed(st.word) else st.word;
    assert Finish(st) == st.out + t;
    KeptLeftTrimmed(st.word, false);
    KeptReplaced(st.out, st.word, t, false);
    assert Consumed(st) == st.out + st.word;
  }

  lemma FinishKeepsText(st: State)
    ensures Kept(Finish(st), false) == Kept(Consumed(st), false)
  {
    if st.line != [] {
      FinishLineKeepsText(st);
    } else {
      FinishWordKeepsText(st);
    }
  }

  /**
   * Wrapping only adds or removes whitespace: the non-whitespace characters of the output are
   * those of the input, in order, whatever the width function.
   */
  lemma WrapKeepsText(cfg: TextConfig, input: string)
    requires Kept(cfg.newLine, false) == []
    ensures Kept(Wrap(cfg, input), false) == Kept(input, false)
  {
    RunKeepsText(cfg, input);
    FinishKeepsText(Run(cfg, input));
  }

  /** A `'\n'` writes `line ++ word` untrimmed, blank or not, then exactly one newline. */
  lemma NewlineWritesVerbatim(cfg: TextConfig, st: State)
    ensures var st' := Step(cfg, st, '\n');
      && st'.out == st.out + st.line + st.word + cfg.newLine
      && st'.line == [] && st'.word == [] && !st'.broken && !st'.previousWasPunctuation
  {
  }

  lemma CarriageReturnIgnored(cfg: TextConfig, st: State)
    ensures Step(cfg, st, '\r') == st.(previousWasPunctuation := false)
  {
  }

  /**
   * A character right after a punctuation mark that is not one of the fixed word characters
   * goes through the non-word branch, even when it is a letter.
   */
  lemma AfterPunctuationNotWord(cfg: TextConfig, s: string, p: char, c: char)
    requires IsPunctuation(p) && p !in TextWordChars && c != '\n' && c != '\r'
    ensures Run(cfg, s + [p]).previousWasPunctuation
    ensures Step(cfg, Run(cfg, s + [p]), c)
      == OtherStep(cfg, Run(cfg, s + [p]), c).(previousWasPunctuation := IsPunctuation(c) && c !in TextWordChars)
  {
    assert (s + [p])[..|s|] == s;
  }

  /**
   * A non-word character that overflows while the line is empty: the word's head, left-trimmed
   * after a break, goes out on a line of its own unless it is empty, and the character stays.
   * Nothing fails here, unlike in `WordWrap`.
   */
  lemma OverflowWithEmptyLine(cfg: TextConfig, st: State, ch: char)
    requires ch != '\n' && ch != '\r' && !(IsWordChar(ch) && !st.previousWasPunctuation)
    requires Commit(st).0 == [] && TooLong(cfg, Commit(st).1 + [ch])
    ensures var head := if st.broken then LeftTrimmed(Commit(st).1) else Commit(st).1;
      var st' := Step(cfg, st, ch);
      && st'.line == [] && st'.word == [ch]
      && st'.out == st.out + (if head == [] then [] else head + cfg.newLine)
      && st'.broken == (st.broken && head == [])
  {
    assert [] + (Commit(st).1 + [ch]) == Commit(st).1 + [ch];
    OtherHead(cfg, st, ch);
    StepIsOtherStep(cfg, st, ch);
  }

  /**
   * One character of the reference for text that needs no wrapping: `.0` holds the finished
   * lines, `.1` the current one. Unlike `WordWrap`, a blank line is written as it is.
   */
  function LineStep(l: (string, string), c: char, newLine: string): (string, string) {
    if c == '\n' then (l.0 + l.1 + newLine, [])
    else if c == '\r' then l
    else (l.0, l.1 + [c])
  }

  function Lines(input: string, newLine: string): (l: (string, string))
    ensures |l.1| <= |input|
    decreases |input|
  {
    if input == [] then ([], [])
    else LineStep(Lines(input[..|input| - 1], newLine), input[|input| - 1], newLine)
  }

  /** The length of the longest line of `input`, counting every line as far as it has grown. */
  function LongestLine(input: string, newLine: string): (n: nat)
    ensures |Lines(input, newLine).1| <= n <= |input|
    decreases |input|
  {
    if input == [] then 0
    else
      var m := LongestLine(input[..|input| - 1], newLine);
      var k := |Lines(input, newLine).1|;
      if k > m then k else m
  }

  /** Text that needs no wrapping: every `'\r'` dropped and every `'\n'` replaced by `newLine`. */
  function Unwrapped(input: string, newLine: string): string {
    var l := Lines(input, newLine);
    l.0 + l.1
  }

  /** No string of at most `n` characters is too wide. */
  ghost predicate Fits(cfg: TextConfig, n: nat) {
    forall s: string :: |s| <= n ==> !TooLong(cfg, s)
  }

  /** The engine's state agrees with the reference state `l` and no break has happened. */
  predicate Tracks(st: State, l: (string, string)) {
    st.out == l.0 && st.line + st.word == l.1 && !st.broken
  }

  lemma StepIsWordCharStep(cfg: TextConfig, st: State, c: char)
    requires c != '\n' && c != '\r' && IsWordChar(c) && !st.previousWasPunctuation
    ensures Step(cfg, st, c)
      == WordCharStep(cfg, st, c).(previousWasPunctuation := IsPunctuation(c) && c !in TextWordChars)
  {
  }

  lemma StepIsOtherStep(cfg: TextConfig, st: State, c: char)
    requires c != '\n' && c != '\r' && !(IsWordChar(c) && !st.previousWasPunctuation)
    ensures Step(cfg, st, c)
      == OtherStep(cfg, st, c).(previousWasPunctuation := IsPunctuation(c) && c !in TextWordChars)
  {
  }

  /** A character added to the word is added to the current line. */
  lemma GrowTracks(st: State, l: (string, string), c: char, p: bool)
    requires Tracks(st, l)
    ensures st.line + (st.word + [c]) == l.1 + [c]
    ensures Tracks(st.(word := st.word + [c], previousWasPunctuation := p), (l.0, l.1 + [c]))
  {
    assert st.line + (st.word + [c]) == (st.line + st.word) + [c];
  }

  lemma WordCharStepWhenFits(cfg: TextConfig, st: State, l: (string, string), c: char)
    requires Tracks(st, l) && Fits(cfg, |l.1| + 1)
    ensures WordCharStep(cfg, st, c) == st.(word := st.word + [c])
  {
    assert GrownWord(st, c) == st.word + [c];
    GrowTracks(st, l, c, st.previousWasPunctuation);
    FitsAt(cfg, |l.1| + 1, st.line + (st.word + [c]));
  }

  /** One string that fits. */
  lemma FitsAt(cfg: TextConfig, n: nat, s: string)
    requires Fits(cfg, n) && |s| <= n
    ensures !TooLong(cfg, s)
  {
  }

  /** Committing the word moves no character: line and word still spell the current line. */
  lemma CommitThenAppend(st: State, l: (string, string), c: char)
    requires Tracks(st, l)
    ensures Commit(st).0 + (Commit(st).1 + [c]) == l.1 + [c]
  {
    if |st.word| > 0 && !AllWhitespace(st.word) {
      assert Commit(st) == (st.line + st.word, []);
      assert [] + [c] == [c];
    } else {
      assert st.line + (st.word + [c]) == (st.line + st.word) + [c];
    }
  }

  lemma OtherStepWhenFits(cfg: TextConfig, st: State, l: (string, string), c: char)
    requires Tracks(st, l) && Fits(cfg, |l.1| + 1)
    ensures OtherStep(cfg, st, c) == st.(line := Commit(st).0, word := Commit(st).1 + [c])
    ensures Commit(st).0 + (Commit(st).1 + [c]) == l.1 + [c]
  {
    CommitThenAppend(st, l, c);
    FitsAt(cfg, |l.1| + 1, l.1 + [c]);
    OtherFits(cfg, st, c);
  }

  lemma NewlineWhenFits(cfg: TextConfig, st: State, l: (string, string))
    requires Tracks(st, l)
    ensures Tracks(Step(cfg, st, '\n'), LineStep(l, '\n', cfg.newLine))
  {
    NewlineWritesVerbatim(cfg, st);
  }

  lemma WordCharWhenFits(cfg: TextConfig, st: State, l: (string, string), c: char)
    requires Tracks(st, l) && Fits(cfg, |l.1| + 1)
    requires c != '\n' && c != '\r' && IsWordChar(c) && !st.previousWasPunctuation
    ensures Tracks(Step(cfg, st, c), LineStep(l, c, cfg.newLine))
  {
    StepIsWordCharStep(cfg, st, c);
    WordCharStepWhenFits(cfg, st, l, c);
    GrowTracks(st, l, c, IsPunctuation(c) && c !in TextWordChars);
  }

  lemma OtherWhenFits(cfg: TextConfig, st: State, l: (string, string), c: char)
    requires Tracks(st, l) && Fits(cfg, |l.1| + 1)
    requires c != '\n' && c != '\r' && !(IsWordChar(c) && !st.previousWasPunctuation)
    ensures Tracks(Step(cfg, st, c), LineStep(l, c, cfg.newLine))
  {
    StepIsOtherStep(cfg, st, c);
    OtherStepWhenFits(cfg, st, l, c);
  }

  /** One character keeps the engine in step with the reference while the line it grows fits. */
  lemma StepWhenFits(cfg: TextConfig, st: State, l: (string, string), c: char)
    requires Tracks(st, l) && Fits(cfg, |LineStep(l, c, cfg.newLine).1|)
    ensures Tracks(Step(cfg, st, c), LineStep(l, c, cfg.newLine))
  {
    if c != '\n' && c != '\r' {
      assert |LineStep(l, c, cfg.newLine).1| == |l.1| + 1;
    }
    if c == '\n' {
      NewlineWhenFits(cfg, st, l);
    } else if c == '\r' {
      CarriageReturnIgnored(cfg, st);
    } else if IsWordChar(c) && !st.previousWasPunctuation {
      WordCharWhenFits(cfg, st, l, c);
    } else {
      OtherWhenFits(cfg, st, l, c);
    }
  }

  /** While no line grows too wide the engine stays in step with the reference. */
  lemma {:induction false} RunWhenFits(cfg: TextConfig, input: string)
    requires Fits(cfg, LongestLine(input, cfg.newLine))
    ensures Tracks(Run(cfg, input), Lines(input, cfg.newLine))
    decreases |input|
  {
    if input != [] {
      var p := input[..|input| - 1];
      assert LongestLine(p, cfg.newLine) <= LongestLine(input, cfg.newLine);
      RunWhenFits(cfg, p);
      StepWhenFits(cfg, Run(cfg, p), Lines(p, cfg.newLine), input[|input| - 1]);
    }
  }

  /**
   * Text whose every line fits comes out as it went in, except that `'\r'` is dropped and each
   * `'\n'` becomes `newLine`; blank lines and trailing whitespace are kept.
   */
  lemma WrapWhenFits(cfg: TextConfig, input: string)
    requires Fits(cfg, LongestLine(input, cfg.newLine))
    ensures Wrap(cfg, input) == Unwrapped(input, cfg.newLine)
  {
    RunWhenFits(cfg, input);
    var st := Run(cfg, input);
    if st.line == [] {
      assert st.line + st.word == st.word;
    }
  }

  /** With the default width, text whose lines are no longer than the maximum width needs no wrapping. */
  lemma ShortTextUnwrapped(maxWidth: int, input: string)
    requires maxWidth >= LongestLine(input, "\n")
    ensures Wrap(DefaultTextConfig(maxWidth), input) == Unwrapped(input, "\n")
  {
    WrapWhenFits(DefaultTextConfig(maxWidth), input);
  }

  /** A space after blank input only grows the word, while nothing is too wide. */
  lemma SpaceStep(cfg: TextConfig, n: nat)
    requires cfg.maxWidth >= 0 && forall s :: cfg.width(s) == |s|
    ensures Step(cfg, State([], [], Spaces(n), false, false), ' ') == State([], [], Spaces(n + 1), false, false)
  {
    assert !IsPunctuation(' ');
    SpaceStepOther(cfg, n);
    StepIsOtherStep(cfg, State([], [], Spaces(n), false, false), ' ');
  }

  lemma SpaceStepOther(cfg: TextConfig, n: nat)
    requires cfg.maxWidth >= 0 && forall s :: cfg.width(s) == |s|
    ensures OtherStep(cfg, State([], [], Spaces(n), false, false), ' ') == State([], [], Spaces(n + 1), false, false)
  {
    var st := State([], [], Spaces(n), false, false);
    assert Commit(st) == ([], Spaces(n));
    assert Spaces(n) + [' '] == Spaces(n + 1);
    assert !TooLong(cfg, [] + Spaces(n + 1)) by {
      assert [] + Spaces(n + 1) == Spaces(n + 1);
      RightTrimmedBlank(Spaces(n + 1));
    }
    OtherFits(cfg, st, ' ');
  }

  lemma {:induction false} SpacesRun(cfg: TextConfig, n: nat)
    requires cfg.maxWidth >= 0 && forall s :: cfg.width(s) == |s|
    ensures Run(cfg, Spaces(n)) == State([], [], Spaces(n), false, false)
  {
    if n > 0 {
      assert Spaces(n)[..n - 1] == Spaces(n - 1);
      SpacesRun(cfg, n - 1);
      SpaceStep(cfg, n - 1);
    }
  }

  /**
   * `n` spaces then a character that ends no word, at width `n`: the spaces go out as a line
   * of their own and the character starts the next. `WordWrap` fails on the same input.
   */
  lemma SpacesThenOverflow(n: nat, c: char)
    requires n >= 1 && c != '\n' && c != '\r' && !IsWordChar(c) && !IsWhitespaceChar(c)
    ensures Wrap(DefaultTextConfig(n), Spaces(n) + [c]) == Spaces(n) + "\n" + [c]
  {
    var cfg := DefaultTextConfig(n);
    var input := Spaces(n) + [c];
    assert input[..|input| - 1] == Spaces(n);
    SpacesRun(cfg, n);
    var st := Run(cfg, Spaces(n));
    assert Commit(st) == ([], Spaces(n));
    var w := Spaces(n) + [c];
    assert RightTrimmed(w) == w;
    assert TooLong(cfg, [] + w) by {
      assert [] + w == w;
    }
    assert OtherStep(cfg, st, c).out == Spaces(n) + "\n";
  }

  /** Running over one more character is one more step. */
  lemma RunSnoc(cfg: TextConfig, s: string, c: char)
    ensures Run(cfg, s + [c]) == Step(cfg, Run(cfg, s), c)
  {
    assert (s + [c])[..|s|] == s;
  }

  /** A letter that fits only grows the word, to `w`. */
  lemma LetterGrowsWord(cfg: TextConfig, st: State, c: char, w: string)
    requires IsLetter(c) && !st.previousWasPunctuation
    requires GrownWord(st, c) == w && !TooLong(cfg, st.line + w)
    ensures Step(cfg, st, c) == st.(word := w)
  {
    assert !IsPunctuation(c);
    StepIsWordCharStep(cfg, st, c);
    WordCharFits(cfg, st, c);
  }

  /** A letter after a word of letters that still fits. */
  lemma LetterStep(cfg: TextConfig, w: string, c: char)
    requires forall t :: cfg.width(t) == |t|
    requires |w| < cfg.maxWidth && IsLetter(c)
    ensures Step(cfg, State([], [], w, false, false), c) == State([], [], w + [c], false, false)
  {
    var st := State([], [], w, false, false);
    assert GrownWord(st, c) == w + [c];
    assert !TooLong(cfg, st.line + (w + [c])) by {
      assert st.line + (w + [c]) == w + [c];
    }
    LetterGrowsWord(cfg, st, c, w + [c]);
  }

  lemma LetterAfterLetters(cfg: TextConfig, p: string, c: char)
    requires forall t :: cfg.width(t) == |t|
    requires |p| < cfg.maxWidth && IsLetter(c)
    requires Run(cfg, p) == State([], [], p, false, false)
    ensures Run(cfg, p + [c]) == State([], [], p + [c], false, false)
  {
    RunSnoc(cfg, p, c);
    LetterStep(cfg, p, c);
  }

  /**
   * With the default width, a run of letters no wider than the maximum stays in the word
   * buffer: nothing is written and no line is started.
   */
  lemma {:induction false} LettersRun(cfg: TextConfig, s: string)
    requires forall t :: cfg.width(t) == |t|
    requires |s| <= cfg.maxWidth && forall i :: 0 <= i < |s| ==> IsLetter(s[i])
    ensures Run(cfg, s) == State([], [], s, false, false)
    decreases |s|
  {
    if s != [] {
      var p, c := s[..|s| - 1], s[|s| - 1];
      LettersRun(cfg, p);
      LetterAfterLetters(cfg, p, c);
      assert p + [c] == s;
    }
  }

  /** A word that starts with a letter has nothing to left-trim. */
  lemma LeftTrimmedFromLetter(w: string)
    requires w != [] && IsLetter(w[0])
    ensures LeftTrimmed(w) == w
  {
    FirstNonWhitespaceAt(w, 0, 0);
  }

  /** A letter after a break on an empty line grows a word that starts with a letter. */
  lemma LetterAfterBreakStep(cfg: TextConfig, out: string, w: string, c: char)
    requires forall t :: cfg.width(t) == |t|
    requires IsLetter(c) && |w| < cfg.maxWidth && (w == [] || IsLetter(w[0]))
    ensures Step(cfg, State(out, [], w, true, false), c) == State(out, [], w + [c], true, false)
  {
    var st := State(out, [], w, true, false);
    var w1 := w + [c];
    assert w1[0] == if w == [] then c else w[0];
    LeftTrimmedFromLetter(w1);
    assert GrownWord(st, c) == w1;
    assert !TooLong(cfg, st.line + w1) by {
      assert st.line + w1 == w1;
    }
    LetterGrowsWord(cfg, st, c, w1);
  }

  lemma AppendSnoc(p: string, t: string)
    requires t != []
    ensures (p + t[..|t| - 1]) + [t[|t| - 1]] == p + t
  {
    assert t == t[..|t| - 1] + [t[|t| - 1]];
  }

  /**
   * After a forced break, letters keep growing the word on the empty line for as long as it
   * fits; nothing is written.
   */
  lemma {:induction false} LettersAfterBreak(cfg: TextConfig, p: string, t: string, out: string, w: string)
    requires forall x :: cfg.width(x) == |x|
    requires w != [] && IsLetter(w[0]) && |w| + |t| <= cfg.maxWidth
    requires forall i :: 0 <= i < |t| ==> IsLetter(t[i])
    requires Run(cfg, p) == State(out, [], w, true, false)
    ensures Run(cfg, p + t) == State(out, [], w + t, true, false)
    decreases |t|
  {
    if t == [] {
      assert p + t == p && w + t == w;
    } else {
      var t', c := t[..|t| - 1], t[|t| - 1];
      LettersAfterBreak(cfg, p, t', out, w);
      AppendSnoc(p, t);
      AppendSnoc(w, t);
      RunSnoc(cfg, p + t', c);
      LetterAfterBreakStep(cfg, out, w + t', c);
    }
  }

  /** A trailing space does not count towards the width of a line. */
  lemma RightTrimmedDropsSpace(w: string)
    ensures |RightTrimmed(w + [' '])| <= |w|
  {
    assert (w + [' '])[..|w|] == w;
    assert RightTrimmed(w + [' ']) == RightTrimmed(w);
  }

  lemma SpaceAfterWordOther(cfg: TextConfig, w: string)
    requires forall t :: cfg.width(t) == |t|
    requires w != [] && IsLetter(w[0]) && |w| <= cfg.maxWidth
    ensures OtherStep(cfg, State([], [], w, false, false), ' ') == State([], w, " ", false, false)
  {
    var st := State([], [], w, false, false);
    assert !AllWhitespace(w) by { assert !IsWhitespaceChar(w[0]); }
    assert Commit(st) == (w, []) by { assert [] + w == w; }
    assert !TooLong(cfg, w + ([] + [' '])) by {
      assert w + ([] + [' ']) == w + [' '];
      RightTrimmedDropsSpace(w);
    }
    OtherFits(cfg, st, ' ');
  }

  /** A space after a word of letters that fits commits the word to the line. */
  lemma SpaceAfterWord(cfg: TextConfig, w: string)
    requires forall t :: cfg.width(t) == |t|
    requires w != [] && IsLetter(w[0]) && |w| <= cfg.maxWidth
    ensures Step(cfg, State([], [], w, false, false), ' ') == State([], w, " ", false, false)
  {
    assert !IsPunctuation(' ');
    SpaceAfterWordOther(cfg, w);
    StepIsOtherStep(cfg, State([], [], w, false, false), ' ');
  }

  lemma LetterBreaksLineWordChar(cfg: TextConfig, line: string, c: char)
    requires forall t :: cfg.width(t) == |t|
    requires line != [] && |line| + 2 > cfg.maxWidth >= 1 && IsLetter(c)
    ensures WordCharStep(cfg, State([], line, " ", false, false), c) == State(line + cfg.newLine, [], [c], true, false)
  {
    var st := State([], line, " ", false, false);
    var w1 := " " + [c];
    assert GrownWord(st, c) == w1;
    assert RightTrimmed(line + w1) == line + w1;
    FirstNonWhitespaceAt(w1, 0, 1);
    assert LeftTrimmed(w1) == [c];
    assert RightTrimmed([c]) == [c];
    WordCharFlush(cfg, st, c);
    assert [] + line + cfg.newLine == line + cfg.newLine;
  }

  /**
   * A letter after "line " that does not fit: the line goes out with a newline, the space is
   * dropped by the left trim, and the letter starts the next line after a break.
   */
  lemma LetterBreaksLine(cfg: TextConfig, line: string, c: char)
    requires forall t :: cfg.width(t) == |t|
    requires line != [] && |line| + 2 > cfg.maxWidth >= 1 && IsLetter(c)
    ensures Step(cfg, State([], line, " ", false, false), c) == State(line + cfg.newLine, [], [c], true, false)
  {
    assert !IsPunctuation(c);
    LetterBreaksLineWordChar(cfg, line, c);
    StepIsWordCharStep(cfg, State([], line, " ", false, false), c);
  }

  lemma SplitAtFirst(a: string, b: string)
    requires b != []
    ensures (a + [' '] + [b[0]]) + b[1..] == a + [' '] + b && [b[0]] + b[1..] == b
  {
    assert b == [b[0]] + b[1..];
  }

  /**
   * Two words of letters separated by one space, each of which fits but not both together:
   * the first goes out with a newline and the second is left on the next line.
   */
  lemma TwoWordsOnTwoLines(cfg: TextConfig, a: string, b: string)
    requires forall t :: cfg.width(t) == |t|
    requires a != [] && b != [] && |a| <= cfg.maxWidth < |a| + 2 && |b| <= cfg.maxWidth
    requires forall i :: 0 <= i < |a| ==> IsLetter(a[i])
    requires forall i :: 0 <= i < |b| ==> IsLetter(b[i])
    ensures Wrap(cfg, a + [' '] + b) == a + cfg.newLine + b
  {
    var out := a + cfg.newLine;
    LettersRun(cfg, a);
    RunSnoc(cfg, a, ' ');
    SpaceAfterWord(cfg, a);
    RunSnoc(cfg, a + [' '], b[0]);
    LetterBreaksLine(cfg, a, b[0]);
    LettersAfterBreak(cfg, a + [' '] + [b[0]], b[1..], out, [b[0]]);
    SplitAtFirst(a, b);
    LeftTrimmedFromLetter(b);
  }

  lemma HelloThereParts(s: string)
    requires s == "hello there"
    ensures s == s[..5] + [' '] + s[6..] && |s[..5]| == 5 && |s[6..]| == 5
    ensures forall i :: 0 <= i < 5 ==> IsLetter(s[..5][i])
    ensures forall i :: 0 <= i < 5 ==> IsLetter(s[6..][i])
    ensures s[..5] + "\n" + s[6..] == "hello\nthere"
  {
  }

  /**
   * `wordWrap("hello there", 6)`: the second word does not fit after the first and goes to a
   * line of its own.
   */
  lemma HelloThereOf(s: string)
    requires s == "hello there"
    ensures Wrap(DefaultTextConfig(6), s) == "hello\nthere"
  {
    HelloThereParts(s);
    TwoWordsOnTwoLines(DefaultTextConfig(6), s[..5], s[6..]);
  }
}
