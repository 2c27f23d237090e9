/** What the `WordWrap` engine guarantees, stated over its step function. */
module WordWrapProperties {
  import opened Wrappers
  import opened Chars
  import opened WrapState
  import opened WordWrapEngine
  import ConcatRightTrimView
  import Buffer

  /** A break with a hyphen: only the hyphen and the newline are added. */
  lemma HyphenBreakKeepsText(word: string, newLine: string)
    requires HyphenBreak(word, true) && Kept(newLine, true) == []
    ensures Kept(BrokenWord(word, newLine, true).0 + BrokenWord(word, newLine, true).1, true) == Kept(word, true)
  {
    var r := BrokenWord(word, newLine, true);
    var head := word[..|word| - 2];
    assert r.0 + r.1 == head + "-" + (newLine + r.1);
    assert Kept("-", true) == [] by {
      assert "-"[1..] == [];
    }
    KeptAppend(newLine, r.1, true);
    KeptInserted(head, "-", r.1, newLine + r.1, true);
    assert word == head + r.1;
  }

  /** A break without a hyphen: only the newline is added, and a blank head is dropped. */
  lemma PlainBreakKeepsText(word: string, newLine: string, e: bool)
    requires |word| >= 1 && !HyphenBreak(word, e) && Kept(newLine, e) == []
    ensures Kept(BrokenWord(word, newLine, e).0 + BrokenWord(word, newLine, e).1, e) == Kept(word, e)
  {
    var r := BrokenWord(word, newLine, e);
    var prefix := word[..|word| - 1];
    var shown := if AllWhitespace(prefix) then [] else prefix;
    assert Kept(shown, e) == Kept(prefix, e) by {
      if AllWhitespace(prefix) {
        KeptWhitespace(prefix, e);
      }
    }
    assert r.0 + r.1 == shown + newLine + r.1;
    KeptInserted(shown, newLine, r.1, r.1, e);
    assert word == prefix + r.1;
    KeptAppend(shown, r.1, e);
    KeptAppend(prefix, r.1, e);
  }

  /** `writeBrokenWord` loses nothing but whitespace and the hyphen it inserts. */
  lemma BrokenWordKeepsText(word: string, newLine: string, insertHyphens: bool)
    requires |word| >= 1 && Kept(newLine, insertHyphens) == []
    ensures Kept(BrokenWord(word, newLine, insertHyphens).0 + BrokenWord(word, newLine, insertHyphens).1, insertHyphens)
      == Kept(word, insertHyphens)
  {
    if HyphenBreak(word, insertHyphens) {
      HyphenBreakKeepsText(word, newLine);
    } else {
      PlainBreakKeepsText(word, newLine, insertHyphens);
    }
  }

  lemma NewlineStepKeepsText(cfg: Config, st: State, e: bool)
    requires Kept(cfg.newLine, e) == []
    ensures Kept(Consumed(NewlineStep(cfg, st)), e) == Kept(Consumed(st) + ['\n'], e)
  {
    var l := st.line + st.word;
    var l' := if TooLong(cfg, l) then RightTrimmed(l) else l;
    var written := if AllWhitespace(l') then [] else l';
    assert Kept(written, e) == Kept(l, e) by {
      KeptRightTrimmed(l, e);
      if AllWhitespace(l') {
        KeptWhitespace(l', e);
      }
    }
    assert Consumed(NewlineStep(cfg, st)) == st.out + written + cfg.newLine;
    assert Kept(st.out + written + cfg.newLine, e) == Kept(st.out, e) + Kept(l, e) by {
      KeptOfThree(st.out, written, cfg.newLine, e);
    }
    assert Kept(Consumed(st) + ['\n'], e) == Kept(st.out, e) + Kept(l, e) by {
      assert Consumed(st) + ['\n'] == st.out + l + ['\n'];
      KeptOfThree(st.out, l, ['\n'], e);
      KeptOfLineBreak(e);
    }
  }

  lemma WordCharFlushBreakState(cfg: Config, st: State, ch: char)
    requires TooLong(cfg, Probe(st.line, GrownWord(st, ch))) && st.line != []
    requires TooLong(cfg, LeftTrimmed(GrownWord(st, ch))) && cfg.breakWords
    ensures var r := BrokenWord(LeftTrimmed(GrownWord(st, ch)), cfg.newLine, cfg.insertHyphens);
      Consumed(WordCharStep(cfg, st, ch)) == st.out + st.line + cfg.newLine + (r.0 + r.1)
  {
  }

  /** The branch that flushes a non-empty line, then breaks the word that follows. */
  lemma WordCharFlushBreakKeepsText(cfg: Config, st: State, ch: char)
    requires Kept(cfg.newLine, cfg.insertHyphens) == []
    requires TooLong(cfg, Probe(st.line, GrownWord(st, ch))) && st.line != []
    requires TooLong(cfg, LeftTrimmed(GrownWord(st, ch))) && cfg.breakWords
    ensures Kept(Consumed(WordCharStep(cfg, st, ch)), cfg.insertHyphens)
      == Kept(st.out + st.line + GrownWord(st, ch), cfg.insertHyphens)
  {
    var e := cfg.insertHyphens;
    var w1 := GrownWord(st, ch);
    var w2 := LeftTrimmed(w1);
    var r := BrokenWord(w2, cfg.newLine, e);
    WordCharFlushBreakState(cfg, st, ch);
    assert Kept(r.0 + r.1, e) == Kept(w1, e) by {
      BrokenWordKeepsText(w2, cfg.newLine, e);
      KeptLeftTrimmed(w1, e);
    }
    KeptInserted(st.out + st.line, cfg.newLine, w1, r.0 + r.1, e);
  }

  lemma WordCharFlushState(cfg: Config, st: State, ch: char)
    requires TooLong(cfg, Probe(st.line, GrownWord(st, ch))) && st.line != []
    requires !(TooLong(cfg, LeftTrimmed(GrownWord(st, ch))) && cfg.breakWords)
    ensures Consumed(WordCharStep(cfg, st, ch)) == st.out + st.line + cfg.newLine + LeftTrimmed(GrownWord(st, ch))
  {
  }

  /** The branch that flushes a non-empty line and moves the word to the next one. */
  lemma WordCharFlushKeepsText(cfg: Config, st: State, ch: char, e: bool)
    requires Kept(cfg.newLine, e) == []
    requires TooLong(cfg, Probe(st.line, GrownWord(st, ch))) && st.line != []
    requires !(TooLong(cfg, LeftTrimmed(GrownWord(st, ch))) && cfg.breakWords)
    ensures Kept(Consumed(WordCharStep(cfg, st, ch)), e) == Kept(st.out + st.line + GrownWord(st, ch), e)
  {
    var w1 := GrownWord(st, ch);
    WordCharFlushState(cfg, st, ch);
    KeptLeftTrimmed(w1, e);
    KeptInserted(st.out + st.line, cfg.newLine, w1, LeftTrimmed(w1), e);
  }

  lemma WordCharBreakState(cfg: Config, st: State, ch: char)
    requires TooLong(cfg, Probe(st.line, GrownWord(st, ch))) && st.line == [] && cfg.breakWords
    ensures var r := BrokenWord(GrownWord(st, ch), cfg.newLine, cfg.insertHyphens);
      Consumed(WordCharStep(cfg, st, ch)) == st.out + st.line + (r.0 + r.1)
  {
  }

  /** The branch that breaks a word standing alone on its line. */
  lemma WordCharBreakKeepsText(cfg: Config, st: State, ch: char)
    requires Kept(cfg.newLine, cfg.insertHyphens) == []
    requires TooLong(cfg, Probe(st.line, GrownWord(st, ch))) && st.line == [] && cfg.breakWords
    ensures Kept(Consumed(WordCharStep(cfg, st, ch)), cfg.insertHyphens)
      == Kept(st.out + st.line + GrownWord(st, ch), cfg.insertHyphens)
  {
    var e := cfg.insertHyphens;
    var w1 := GrownWord(st, ch);
    var r := BrokenWord(w1, cfg.newLine, e);
    WordCharBreakState(cfg, st, ch);
    BrokenWordKeepsText(w1, cfg.newLine, e);
    KeptReplaced(st.out + st.line, w1, r.0 + r.1, e);
  }

  lemma WordCharStepKeepsText(cfg: Config, st: State, ch: char)
    requires Kept(cfg.newLine, cfg.insertHyphens) == []
    ensures Kept(Consumed(WordCharStep(cfg, st, ch)), cfg.insertHyphens)
      == Kept(Consumed(st) + [ch], cfg.insertHyphens)
  {
    GrownWordKeepsText(st, ch, cfg.insertHyphens);
    var w1 := GrownWord(st, ch);
    if !TooLong(cfg, Probe(st.line, w1)) {
      assert WordCharStep(cfg, st, ch) == st.(word := w1);
    } else if st.line != [] && TooLong(cfg, LeftTrimmed(w1)) && cfg.breakWords {
      WordCharFlushBreakKeepsText(cfg, st, ch);
    } else if st.line != [] {
      WordCharFlushKeepsText(cfg, st, ch, cfg.insertHyphens);
    } else if cfg.breakWords {
      WordCharBreakKeepsText(cfg, st, ch);
    } else {
      assert WordCharStep(cfg, st, ch) == st.(word := w1, broken := true);
    }
  }

  lemma OtherFitsConsumed(cfg: Config, st: State, ch: char)
    requires !TooLong(cfg, Probe(Commit(st).0, Commit(st).1 + [ch]))
    ensures Consumed(OtherStep(cfg, st, ch)) == st.out + Commit(st).0 + (Commit(st).1 + [ch])
  {
  }

  lemma OtherFlushConsumed(cfg: Config, st: State, ch: char)
    requires TooLong(cfg, Probe(Commit(st).0, Commit(st).1 + [ch])) && !AllWhitespace(Commit(st).0)
    ensures Consumed(OtherStep(cfg, st, ch)) == st.out + Commit(st).0 + cfg.newLine + (Commit(st).1 + [ch])
  {
  }

  lemma OtherClearConsumed(cfg: Config, st: State, ch: char)
    requires TooLong(cfg, Probe(Commit(st).0, Commit(st).1 + [ch])) && AllWhitespace(Commit(st).0)
    ensures Consumed(OtherStep(cfg, st, ch)) == st.out + (Commit(st).1 + [ch])
  {
  }

  lemma OtherStepKeepsText(cfg: Config, st: State, ch: char, e: bool)
    requires Kept(cfg.newLine, e) == []
    ensures Kept(Consumed(OtherStep(cfg, st, ch)), e) == Kept(Consumed(st) + [ch], e)
  {
    var line1 := Commit(st).0;
    var word2 := Commit(st).1 + [ch];
    assert Kept(Consumed(st) + [ch], e) == Kept(st.out + line1 + word2, e) by {
      CommitThenAppendKeepsText(st, ch, e);
      KeptOfThree(st.out, line1, word2, e);
    }
    if !TooLong(cfg, Probe(line1, word2)) {
      OtherFitsConsumed(cfg, st, ch);
    } else if !AllWhitespace(line1) {
      OtherFlushConsumed(cfg, st, ch);
      KeptInserted(st.out + line1, cfg.newLine, word2, word2, e);
    } else {
      OtherClearConsumed(cfg, st, ch);
      KeptWhitespace(line1, e);
      KeptInserted(st.out, line1, word2, word2, e);
    }
  }

  lemma StepKeepsText(cfg: Config, st: State, ch: char)
    requires Kept(cfg.newLine, cfg.insertHyphens) == []
    ensures Kept(Consumed(Step(cfg, st, ch)), cfg.insertHyphens)
      == Kept(Consumed(st) + [ch], cfg.insertHyphens)
  {
    var e := cfg.insertHyphens;
    if ch == '\n' {
      NewlineStepKeepsText(cfg, st, e);
    } else if ch == '\r' {
      KeptOfLineBreak(e);
      KeptAppend(Consumed(st), [ch], e);
    } else if IsWordChar(cfg, ch) && !st.previousWasPunctuation {
      WordCharStepKeepsText(cfg, st, ch);
    } else {
      OtherStepKeepsText(cfg, st, ch, e);
    }
  }

  lemma {:induction false} RunKeepsText(cfg: Config, input: string)
    requires Kept(cfg.newLine, cfg.insertHyphens) == []
    ensures Kept(Consumed(Run(cfg, input)), cfg.insertHyphens) == Kept(input, cfg.insertHyphens)
    decreases |input|
  {
    if input != [] {
      var e := cfg.insertHyphens;
      var p := input[..|input| - 1];
      var c := input[|input| - 1];
      RunKeepsText(cfg, p);
      StepKeepsText(cfg, Run(cfg, p), c);
      KeptAppend(Consumed(Run(cfg, p)), [c], e);
      assert input == p + [c];
      KeptAppend(p, [c], e);
    }
  }

  lemma FinishLineKeepsText(st: State, e: bool)
    requires st.line != []
    ensures Kept(Finish(st), e) == Kept(Consumed(st), e)
  {
    var lw := st.line + st.word;
    var t := if st.broken then LeftTrimmed(lw) else lw;
    calc {
      Kept(Finish(st), e);
      Kept(st.out + t, e);
      { KeptLeftTrimmed(lw, e); KeptReplaced(st.out, lw, t, e); }
      Kept(st.out + lw, e);
      { assert st.out + lw == Consumed(st); }
      Kept(Consumed(st), e);
    }
  }

  lemma FinishWordKeepsText(st: State, e: bool)
    requires st.line == []
    ensures Kept(Finish(st), e) == Kept(Consumed(st), e)
  {
    var w := if st.broken then LeftTrimmed(st.word) else st.word;
    var t := if AllWhitespace(w) then [] else w;
    assert Finish(st) == st.out + t;
    assert Kept(t, e) == Kept(st.word, e) by {
      KeptLeftTrimmed(st.word, e);
      if AllWhitespace(w) {
        KeptWhitespace(w, e);
      }
    }
    KeptReplaced(st.out, st.word, t, e);
    assert Consumed(st) == st.out + st.word;
  }

  lemma FinishKeepsText(st: State, e: bool)
    ensures Kept(Finish(st), e) == Kept(Consumed(st), e)
  {
    if st.line != [] {
      FinishLineKeepsText(st, e);
    } else {
      FinishWordKeepsText(st, e);
    }
  }

  /**
   * Wrapping only adds or removes whitespace and, when hyphens are inserted, hyphens: the
   * visible text of the output is that of the input, in order, whatever the width function.
   */
  lemma WrapKeepsText(cfg: Config, input: string)
    requires Kept(cfg.newLine, cfg.insertHyphens) == []
    ensures Kept(Wrap(cfg, input), cfg.insertHyphens) == Kept(input, cfg.insertHyphens)
  {
    RunKeepsText(cfg, input);
    FinishKeepsText(Run(cfg, input), cfg.insertHyphens);
  }

  /** `writeBrokenWord` adds at most one hyphen to the visible text, and nothing else. */
  lemma BrokenWordHyphenates(word: string, newLine: string, insertHyphens: bool)
    requires |word| >= 1 && Kept(newLine, false) == []
    ensures var r := BrokenWord(word, newLine, insertHyphens);
      Hyphenated(Kept(word, false), Kept(r.0 + r.1, false))
  {
    var r := BrokenWord(word, newLine, insertHyphens);
    if HyphenBreak(word, insertHyphens) {
      var head := word[..|word| - 2];
      assert r.0 + r.1 == head + "-" + (newLine + r.1);
      assert Kept("-", false) == "-" by {
        assert "-"[1..] == [];
      }
      assert Kept(r.0 + r.1, false) == Kept(head, false) + "-" + Kept(r.1, false) by {
        KeptOfThree(head, "-", newLine + r.1, false);
        KeptAppend(newLine, r.1, false);
      }
      assert Kept(word, false) == Kept(head, false) + Kept(r.1, false) by {
        assert word == head + r.1;
        KeptAppend(head, r.1, false);
      }
      HyphenInserted(Kept(head, false), Kept(r.1, false));
    } else {
      assert r == BrokenWord(word, newLine, false);
      PlainBreakKeepsText(word, newLine, false);
      HyphenatedReflexive(Kept(word, false));
    }
  }

  /** A part whose visible text gains hyphens, after a common prefix. */
  lemma HyphenatedAfter(pre: string, w: string, w': string)
    requires Hyphenated(Kept(w, false), Kept(w', false))
    ensures Hyphenated(Kept(pre + w, false), Kept(pre + w', false))
  {
    HyphenatedReflexive(Kept(pre, false));
    HyphenatedAppend(Kept(pre, false), Kept(pre, false), Kept(w, false), Kept(w', false));
    KeptAppend(pre, w, false);
    KeptAppend(pre, w', false);
  }

  /** The branch that flushes a non-empty line, then breaks the word that follows. */
  lemma WordCharFlushBreakHyphenates(cfg: Config, st: State, ch: char)
    requires Kept(cfg.newLine, false) == []
    requires TooLong(cfg, Probe(st.line, GrownWord(st, ch))) && st.line != []
    requires TooLong(cfg, LeftTrimmed(GrownWord(st, ch))) && cfg.breakWords
    ensures Hyphenated(Kept(st.out + st.line + GrownWord(st, ch), false), Kept(Consumed(WordCharStep(cfg, st, ch)), false))
  {
    var w1 := GrownWord(st, ch);
    var r := BrokenWord(LeftTrimmed(w1), cfg.newLine, cfg.insertHyphens);
    WordCharFlushBreakState(cfg, st, ch);
    TrimmedBreakHyphenates(w1, cfg.newLine, cfg.insertHyphens);
    HyphenatedAfterBlank(st.out + st.line, cfg.newLine, w1, r.0 + r.1);
  }

  /** The left-trimmed word broken: only hyphens are added to what is shown. */
  lemma TrimmedBreakHyphenates(w: string, newLine: string, insertHyphens: bool)
    requires |w| >= 1 && Kept(newLine, false) == []
    ensures |LeftTrimmed(w)| >= 1
    ensures var r := BrokenWord(LeftTrimmed(w), newLine, insertHyphens);
      Hyphenated(Kept(w, false), Kept(r.0 + r.1, false))
  {
    BrokenWordHyphenates(LeftTrimmed(w), newLine, insertHyphens);
    KeptLeftTrimmed(w, false);
  }

  /** The branch that breaks a word standing alone on its line. */
  lemma WordCharBreakHyphenates(cfg: Config, st: State, ch: char)
    requires Kept(cfg.newLine, false) == []
    requires TooLong(cfg, Probe(st.line, GrownWord(st, ch))) && st.line == [] && cfg.breakWords
    ensures Hyphenated(Kept(st.out + st.line + GrownWord(st, ch), false), Kept(Consumed(WordCharStep(cfg, st, ch)), false))
  {
    var w1 := GrownWord(st, ch);
    WordCharBreakState(cfg, st, ch);
    BrokenWordHyphenates(w1, cfg.newLine, cfg.insertHyphens);
    HyphenatedAfter(st.out + st.line, w1, BrokenWord(w1, cfg.newLine, cfg.insertHyphens).0 + BrokenWord(w1, cfg.newLine, cfg.insertHyphens).1);
  }

  /** As `HyphenatedAfter`, with an invisible part inserted before the changed one. */
  lemma HyphenatedAfterBlank(pre: string, blank: string, w: string, w': string)
    requires Kept(blank, false) == [] && Hyphenated(Kept(w, false), Kept(w', false))
    ensures Hyphenated(Kept(pre + w, false), Kept(pre + blank + w', false))
  {
    KeptAppend(pre, blank, false);
    assert Kept(pre + blank, false) == Kept(pre, false);
    HyphenatedReflexive(Kept(pre, false));
    HyphenatedAppend(Kept(pre, false), Kept(pre, false), Kept(w, false), Kept(w', false));
    KeptAppend(pre, w, false);
    KeptAppend(pre + blank, w', false);
  }

  lemma WordCharStepHyphenates(cfg: Config, st: State, ch: char)
    requires Kept(cfg.newLine, false) == []
    ensures Hyphenated(Kept(Consumed(st) + [ch], false), Kept(Consumed(WordCharStep(cfg, st, ch)), false))
  {
    GrownWordKeepsText(st, ch, false);
    var w1 := GrownWord(st, ch);
    if !TooLong(cfg, Probe(st.line, w1)) {
      assert WordCharStep(cfg, st, ch) == st.(word := w1);
      HyphenatedReflexive(Kept(Consumed(st) + [ch], false));
    } else if st.line != [] && TooLong(cfg, LeftTrimmed(w1)) && cfg.breakWords {
      WordCharFlushBreakHyphenates(cfg, st, ch);
    } else if st.line != [] {
      WordCharFlushKeepsText(cfg, st, ch, false);
      HyphenatedReflexive(Kept(Consumed(st) + [ch], false));
    } else if cfg.breakWords {
      WordCharBreakHyphenates(cfg, st, ch);
    } else {
      assert WordCharStep(cfg, st, ch) == st.(word := w1, broken := true);
      HyphenatedReflexive(Kept(Consumed(st) + [ch], false));
    }
  }

  lemma StepHyphenates(cfg: Config, st: State, ch: char)
    requires Kept(cfg.newLine, false) == []
    ensures Hyphenated(Kept(Consumed(st) + [ch], false), Kept(Consumed(Step(cfg, st, ch)), false))
  {
    var before := Kept(Consumed(st) + [ch], false);
    if ch == '\n' {
      NewlineStepIsStep(cfg, st);
      NewlineStepKeepsText(cfg, st, false);
      HyphenatedReflexive(before);
    } else if ch == '\r' {
      CarriageReturnIgnored(cfg, st);
      KeptOfLineBreak(false);
      KeptAppend(Consumed(st), [ch], false);
      assert before == Kept(Consumed(st), false);
      HyphenatedReflexive(before);
    } else if IsWordChar(cfg, ch) && !st.previousWasPunctuation {
      StepIsWordCharStep(cfg, st, ch);
      WordCharStepHyphenates(cfg, st, ch);
    } else {
      StepIsOtherStep(cfg, st, ch);
      OtherStepKeepsText(cfg, st, ch, false);
      HyphenatedReflexive(before);
    }
  }

  lemma {:induction false} RunHyphenates(cfg: Config, input: string)
    requires Kept(cfg.newLine, false) == []
    ensures Hyphenated(Kept(input, false), Kept(Consumed(Run(cfg, input)), false))
    decreases |input|
  {
    if input == [] {
      HyphenatedReflexive([]);
    } else {
      var p := input[..|input| - 1];
      var c := input[|input| - 1];
      var st := Run(cfg, p);
      RunHyphenates(cfg, p);
      HyphenatedReflexive(Kept([c], false));
      HyphenatedAppend(Kept(p, false), Kept(Consumed(st), false), Kept([c], false), Kept([c], false));
      KeptAppend(p, [c], false);
      KeptAppend(Consumed(st), [c], false);
      assert input == p + [c];
      StepHyphenates(cfg, st, c);
      HyphenatedTransitive(Kept(input, false), Kept(Consumed(st) + [c], false), Kept(Consumed(Step(cfg, st, c)), false));
    }
  }

  /**
   * The visible text of the output, hyphens included, is that of the input with hyphens
   * inserted; without `insertHyphens` it is exactly that of the input.
   */
  lemma WrapInsertsOnlyHyphens(cfg: Config, input: string)
    requires Kept(cfg.newLine, false) == []
    ensures Hyphenated(Kept(input, false), Kept(Wrap(cfg, input), false))
    ensures !cfg.insertHyphens ==> Kept(Wrap(cfg, input), false) == Kept(input, false)
  {
    RunHyphenates(cfg, input);
    FinishKeepsText(Run(cfg, input), false);
    if !cfg.insertHyphens {
      WrapKeepsText(cfg, input);
    }
  }

  /** One more character: the append to the line buffer, the check, then the step. */
  lemma RunCheckedSnoc(cfg: Config, input: string, c: char)
    ensures RunChecked(cfg, input + [c]) ==
      var r := RunChecked(cfg, input);
      var st := Run(cfg, input);
      if r.Failure? then r
      else if Overflows(cfg, st, r.value, c) then Failure(IndexOutOfBounds)
      else if Throws(cfg, st, c) then Failure(IllegalArgument(LineLengthWasZero))
      else Success(NextCapacity(cfg, st, r.value, c))
  {
    assert (input + [c])[..|input|] == input;
  }

  /** Once the check has failed, the rest of the input is never looked at. */
  lemma {:induction false} FailureSticks(cfg: Config, input: string, rest: string)
    requires RunChecked(cfg, input).Failure?
    ensures RunChecked(cfg, input + rest) == RunChecked(cfg, input)
    decreases |rest|
  {
    if rest == [] {
      assert input + rest == input;
    } else {
      var front := rest[..|rest| - 1];
      FailureSticks(cfg, input, front);
      AppendSnoc(input, rest);
      RunCheckedSnoc(cfg, input + front, rest[|rest| - 1]);
    }
  }

  lemma AppendSnoc(a: string, b: string)
    requires b != []
    ensures a + b == (a + b[..|b| - 1]) + [b[|b| - 1]]
  {
    assert b == b[..|b| - 1] + [b[|b| - 1]];
  }

  lemma WrapAsWrittenAgrees(cfg: Config, input: string)
    ensures WrapAsWritten(cfg, input).Success? ==> WrapAsWritten(cfg, input).value == Wrap(cfg, input)
  {
  }

  lemma NewlineStepIsStep(cfg: Config, st: State)
    ensures Step(cfg, st, '\n') == NewlineStep(cfg, st).(previousWasPunctuation := false)
  {
  }

  /** Each `'\n'` flushes `line ++ word` and then writes exactly one newline. */
  lemma NewlineFlushesLine(cfg: Config, st: State)
    ensures var l := st.line + st.word;
      var st' := Step(cfg, st, '\n');
      && st'.line == [] && st'.word == [] && !st'.broken && !st'.previousWasPunctuation
      && st'.out == st.out
           + (if AllWhitespace(l) then [] else if TooLong(cfg, l) then RightTrimmed(l) else l)
           + cfg.newLine
  {
    NewlineStepIsStep(cfg, st);
    var l := st.line + st.word;
    var r := RightTrimmed(l);
    RightTrimmedBlank(l);
    if r != [] {
      assert !IsWhitespaceChar(r[|r| - 1]);
    }
  }

  /** A `'\r'` changes nothing but the punctuation flag, which it clears. */
  lemma CarriageReturnIgnored(cfg: Config, st: State)
    ensures Step(cfg, st, '\r') == st.(previousWasPunctuation := false)
  {
  }

  /**
   * A character right after a punctuation mark that is not an extra word character goes
   * through the non-word branch, even when it is a letter.
   */
  lemma AfterPunctuationNotWord(cfg: Config, s: string, p: char, c: char)
    requires IsPunctuation(p) && p !in cfg.extraWordChars
    requires c != '\n' && c != '\r'
    ensures Run(cfg, s + [p, c])
      == OtherStep(cfg, Run(cfg, s + [p]), c).(previousWasPunctuation := IsPunctuation(c) && c !in cfg.extraWordChars)
  {
    assert s + [p, c] == (s + [p]) + [c];
    RunSnoc(cfg, s, p);
    RunSnoc(cfg, s + [p], c);
    StepIsOtherStep(cfg, Run(cfg, s + [p]), c);
  }

  /** Running over one more character is one more step. */
  lemma RunSnoc(cfg: Config, s: string, c: char)
    ensures Run(cfg, s + [c]) == Step(cfg, Run(cfg, s), c)
  {
    assert (s + [c])[..|s|] == s;
  }

  /** Committing leaves the line empty only when it was empty and the word blank. */
  lemma CommitEmptyLine(st: State)
    ensures Commit(st).0 == [] ==> st.line == [] && AllWhitespace(st.word)
  {
    if |st.word| > 0 && !AllWhitespace(st.word) {
      var lw := st.line + st.word;
      assert !AllWhitespace(lw) by {
        var i :| 0 <= i < |st.word| && !IsWhitespaceChar(st.word[i]);
        assert lw[|st.line| + i] == st.word[i];
      }
      assert |Commit(st).0| > 0;
    }
  }

  /** The check at the non-word overflow fails only on an empty line and a blank word. */
  lemma ThrowsOnlyOnBlankWord(cfg: Config, st: State, ch: char)
    requires Throws(cfg, st, ch)
    ensures st.line == [] && AllWhitespace(st.word)
  {
    CommitEmptyLine(st);
  }

  /**
   * With the default width the check fails exactly when a non-word character arrives on an
   * empty line after a blank word whose trimmed width with it exceeds the maximum.
   */
  lemma ThrowsExactly(cfg: Config, st: State, ch: char)
    requires forall s :: cfg.width(s) == |s|
    requires ch != '\n' && ch != '\r' && !(IsWordChar(cfg, ch) && !st.previousWasPunctuation)
    ensures Throws(cfg, st, ch) <==>
      st.line == [] && AllWhitespace(st.word)
      && ConcatRightTrimView.TrimmedLength(st.word + [ch]) > cfg.maxWidth
  {
    if Throws(cfg, st, ch) {
      ThrowsOnlyOnBlankWord(cfg, st, ch);
    }
    if st.line == [] && AllWhitespace(st.word) {
      assert Commit(st) == (st.line, st.word);
      assert [] + (st.word + [ch]) == st.word + [ch];
    }
  }

  lemma ProbeOfSpaces(n: nat)
    requires n >= 1
    ensures Probe([], Spaces(n)) == " "
  {
    var s := [] + Spaces(n);
    assert s == Spaces(n);
    var k := ConcatRightTrimView.TrimmedLength(s);
    assert k >= 1;
    assert s[k - 1] == ' ';
  }

  lemma BlankState(n: nat)
    ensures Commit(Init.(word := Spaces(n))) == ([], Spaces(n))
  {
    assert AllWhitespace(Spaces(n));
  }

  /** One more space after a run of spaces: no overflow, since only the first one counts. */
  lemma BlankStep(cfg: Config, n: nat)
    requires ' ' !in cfg.extraWordChars && !TooLong(cfg, " ")
    ensures !Throws(cfg, Init.(word := Spaces(n)), ' ') && !AppendsWord(cfg, Init.(word := Spaces(n)), ' ')
    ensures Step(cfg, Init.(word := Spaces(n)), ' ') == Init.(word := Spaces(n + 1))
  {
    BlankState(n);
    assert Spaces(n) + [' '] == Spaces(n + 1);
    ProbeOfSpaces(n + 1);
  }

  /** A run of spaces stays in the word buffer: the line stays empty. */
  lemma {:induction false} BlankRun(cfg: Config, n: nat)
    requires ' ' !in cfg.extraWordChars && !TooLong(cfg, " ")
    ensures Run(cfg, Spaces(n)) == Init.(word := Spaces(n))
    ensures RunChecked(cfg, Spaces(n)) == Success(Buffer.DefaultCapacity)
  {
    if n > 0 {
      BlankRun(cfg, n - 1);
      assert Spaces(n)[..n - 1] == Spaces(n - 1);
      BlankStep(cfg, n - 1);
    }
  }

  /** A non-word character that overflows after a run of spaces fails the check. */
  lemma BlankThenOverflow(cfg: Config, n: nat, c: char)
    requires c != '\n' && c != '\r' && !IsWordChar(cfg, c) && !IsWhitespaceChar(c)
    requires TooLong(cfg, Spaces(n) + [c])
    ensures Throws(cfg, Init.(word := Spaces(n)), c) && !AppendsWord(cfg, Init.(word := Spaces(n)), c)
    ensures Step(cfg, Init.(word := Spaces(n)), c)
      == Init.(word := Spaces(n) + [c], broken := true, previousWasPunctuation := IsPunctuation(c) && c !in cfg.extraWordChars)
  {
    BlankState(n);
    var w := Spaces(n) + [c];
    assert [] + w == w;
    assert Probe([], w) == w;
  }

  lemma LeftTrimmedSpacesThen(n: nat, c: char)
    requires !IsWhitespaceChar(c)
    ensures LeftTrimmed(Spaces(n) + [c]) == [c]
  {
    var w := Spaces(n) + [c];
    var r := LeftTrimmed(w);
    assert !IsWhitespaceChar(w[n]);
    var k := |w| - |r|;
    assert r[0] == w[k];
    assert forall j :: 0 <= j < n ==> w[j] == ' ';
  }

  /**
   * The run-time check at WordWrap.java:432 is reachable: spaces followed by a non-word,
   * non-whitespace character that overflows fail it. Without the check the engine writes the
   * character alone.
   */
  lemma CheckFailsAfterBlankRun(cfg: Config, n: nat, c: char)
    requires ' ' !in cfg.extraWordChars && !TooLong(cfg, " ")
    requires c != '\n' && c != '\r' && !IsWordChar(cfg, c) && !IsWhitespaceChar(c)
    requires TooLong(cfg, Spaces(n) + [c])
    ensures WrapAsWritten(cfg, Spaces(n) + [c]) == Failure(IllegalArgument(LineLengthWasZero))
    ensures Wrap(cfg, Spaces(n) + [c]) == [c]
  {
    var input := Spaces(n) + [c];
    assert input[..n] == Spaces(n);
    BlankRun(cfg, n);
    BlankThenOverflow(cfg, n, c);
    LeftTrimmedSpacesThen(n, c);
  }

  /** The configuration the `Builder` starts from, with a given maximum width. */
  function DefaultConfig(maxWidth: int): Config {
    Config(maxWidth, DefaultWidth, "\n", SpecialWordChars, true, true)
  }

  /** Six spaces and a digit at width 6 fail the check; the corrected engine writes "1". */
  lemma SixSpacesThenDigit()
    ensures WrapAsWritten(DefaultConfig(6), "      1") == Failure(IllegalArgument(LineLengthWasZero))
    ensures Wrap(DefaultConfig(6), "      1") == "1"
  {
    assert "      1" == Spaces(6) + ['1'];
    CheckFailsAfterBlankRun(DefaultConfig(6), 6, '1');
  }

  /** A letter after a run of letters that still fits only grows the word. */
  lemma LetterAfterLetters(cfg: Config, s: string)
    requires forall t :: cfg.width(t) == |t|
    requires 0 < |s| <= cfg.maxWidth && IsLetter(s[|s| - 1])
    ensures var st, c := Init.(word := s[..|s| - 1]), s[|s| - 1];
      !AppendsWord(cfg, st, c) && !Throws(cfg, st, c) && Step(cfg, st, c) == Init.(word := s)
  {
    var p, c := s[..|s| - 1], s[|s| - 1];
    var st := Init.(word := p);
    assert GrownWord(st, c) == p + [c] == s;
    assert |Probe([], s)| <= |s|;
  }

  /**
   * With the default width, a run of letters no wider than the maximum stays in the word
   * buffer, and the line buffer keeps its initial capacity.
   */
  lemma {:induction false} LettersRun(cfg: Config, s: string)
    requires forall t :: cfg.width(t) == |t|
    requires |s| <= cfg.maxWidth && forall i :: 0 <= i < |s| ==> IsLetter(s[i])
    ensures Run(cfg, s) == Init.(word := s)
    ensures RunChecked(cfg, s) == Success(Buffer.DefaultCapacity)
    decreases |s|
  {
    if s != [] {
      var p, c := s[..|s| - 1], s[|s| - 1];
      LettersRun(cfg, p);
      LetterAfterLettersRun(cfg, s);
    }
  }

  /** The step of `LettersRun`: one more letter after a run of letters that fits. */
  lemma LetterAfterLettersRun(cfg: Config, s: string)
    requires forall t :: cfg.width(t) == |t|
    requires 0 < |s| <= cfg.maxWidth && IsLetter(s[|s| - 1])
    requires Run(cfg, s[..|s| - 1]) == Init.(word := s[..|s| - 1])
    requires RunChecked(cfg, s[..|s| - 1]) == Success(Buffer.DefaultCapacity)
    ensures Run(cfg, s) == Init.(word := s)
    ensures RunChecked(cfg, s) == Success(Buffer.DefaultCapacity)
  {
    LetterAfterLetters(cfg, s);
  }

  /**
   * A word of more than 32 letters followed by a space, at a width it fits in: moving the word
   * to the line buffer (16 characters, doubled once to 32) overruns the array, so the engine as
   * written throws, while the corrected engine writes the input unchanged.
   */
  lemma LongWordOverrunsLine(cfg: Config, s: string)
    requires forall t :: cfg.width(t) == |t|
    requires 2 * Buffer.DefaultCapacity < |s| <= cfg.maxWidth
    requires forall i :: 0 <= i < |s| ==> IsLetter(s[i])
    requires ' ' !in cfg.extraWordChars
    ensures WrapAsWritten(cfg, s + [' ']) == Failure(IndexOutOfBounds)
    ensures Wrap(cfg, s + [' ']) == s + [' ']
  {
    LongWordThenSpace(cfg, s);
    WordThenSpace(cfg, s);
  }

  /** The checked run over a long word and a space: appending the word overruns the line buffer. */
  lemma LongWordThenSpace(cfg: Config, s: string)
    requires forall t :: cfg.width(t) == |t|
    requires 2 * Buffer.DefaultCapacity < |s| <= cfg.maxWidth
    requires forall i :: 0 <= i < |s| ==> IsLetter(s[i])
    requires ' ' !in cfg.extraWordChars
    ensures RunChecked(cfg, s + [' ']) == Failure(IndexOutOfBounds)
  {
    LettersRun(cfg, s);
    RunCheckedSnoc(cfg, s, ' ');
    SpaceAfterLetters(cfg, s);
  }

  /** The corrected run over a word and a space: the word moves to the line. */
  lemma WordThenSpace(cfg: Config, s: string)
    requires forall t :: cfg.width(t) == |t|
    requires 0 < |s| <= cfg.maxWidth
    requires forall i :: 0 <= i < |s| ==> IsLetter(s[i])
    requires ' ' !in cfg.extraWordChars
    ensures Run(cfg, s + [' ']) == Init.(line := s, word := " ")
    ensures Finish(Init.(line := s, word := " ")) == s + [' ']
  {
    LettersRun(cfg, s);
    RunSnoc(cfg, s, ' ');
    SpaceAfterLetters(cfg, s);
  }

  /** A space after a run of letters moves the word to the line and starts a blank word. */
  lemma SpaceAfterLetters(cfg: Config, s: string)
    requires forall t :: cfg.width(t) == |t|
    requires 0 < |s| <= cfg.maxWidth && !IsWhitespaceChar(s[|s| - 1])
    requires ' ' !in cfg.extraWordChars
    ensures AppendsWord(cfg, Init.(word := s), ' ')
    ensures Step(cfg, Init.(word := s), ' ') == Init.(line := s, word := " ")
    ensures Finish(Init.(line := s, word := " ")) == s + [' ']
  {
    var st := Init.(word := s);
    CommitOfWord(s);
    ProbeOfTrailingSpace(s);
    assert !IsWordChar(cfg, ' ');
    StepIsOtherStep(cfg, st, ' ');
    OtherFits(cfg, st, ' ');
    FinishOfLine(s);
  }

  /** A word that is not blank, alone in the state, is committed whole to the line. */
  lemma CommitOfWord(s: string)
    requires s != [] && !IsWhitespaceChar(s[|s| - 1])
    ensures !AllWhitespace(s) && Commit(Init.(word := s)) == (s, [])
  {
    assert [] + s == s;
  }

  /** The final flush of a line that ends in a space writes both. */
  lemma FinishOfLine(s: string)
    requires s != []
    ensures Finish(Init.(line := s, word := " ")) == s + [' ']
  {
  }

  lemma ProbeOfTrailingSpace(s: string)
    requires s != [] && !IsWhitespaceChar(s[|s| - 1])
    ensures Probe(s, [' ']) == s
  {
    var t := s + [' '];
    assert t[|s| - 1] == s[|s| - 1];
    assert ConcatRightTrimView.TrimmedLength(t) == |s|;
    assert t[..|s|] == s;
  }

  /** A non-word character that does not overflow only commits the word and grows it. */
  lemma OtherFits(cfg: Config, st: State, ch: char)
    requires !TooLong(cfg, Probe(Commit(st).0, Commit(st).1 + [ch]))
    ensures OtherStep(cfg, st, ch) == st.(line := Commit(st).0, word := Commit(st).1 + [ch])
  {
  }

  /** 33 letters and a space at width 80: the engine as written throws. */
  lemma ThirtyThreeLettersThenSpace()
    ensures WrapAsWritten(DefaultConfig(80), seq(33, _ => 'a') + " ") == Failure(IndexOutOfBounds)
    ensures Wrap(DefaultConfig(80), seq(33, _ => 'a') + " ") == seq(33, _ => 'a') + " "
  {
    LongWordOverrunsLine(DefaultConfig(80), seq(33, _ => 'a'));
  }

  function Blanked(s: string): string {
    if AllWhitespace(s) then [] else s
  }

  /**
   * One character of the reference for text that needs no wrapping: `.0` holds the finished
   * lines, `.1` the current one.
   */
  function LineStep(l: (string, string), c: char, newLine: string): (string, string) {
    if c == '\n' then (l.0 + Blanked(l.1) + newLine, [])
    else if c == '\r' then l
    else (l.0, l.1 + [c])
  }

  function Lines(input: string, newLine: string): (l: (string, string))
    ensures |l.1| <= |input|
    decreases |input|
  {
    if input == [] then ([], [])
    else LineStep(Lines(input[..|input| - 1], newLine), input[|input| - 1], newLine)
  }

  /** The length of the longest line of `input`, counting every line as far as it has grown. */
  function LongestLine(input: string, newLine: string): (n: nat)
    ensures |Lines(input, newLine).1| <= n <= |input|
    decreases |input|
  {
    if input == [] then 0
    else
      var m := LongestLine(input[..|input| - 1], newLine);
      var k := |Lines(input, newLine).1|;
      if k > m then k else m
  }

  /**
   * Text that needs no wrapping: every `'\r'` dropped, every line kept as it is except that a
   * blank line is written empty, each line but the last followed by `newLine`.
   */
  function Unwrapped(input: string, newLine: string): string {
    var l := Lines(input, newLine);
    l.0 + Blanked(l.1)
  }

  /** No string of at most `n` characters is too wide. */
  ghost predicate Fits(cfg: Config, n: nat) {
    forall s: string :: |s| <= n ==> !TooLong(cfg, s)
  }

  /** The engine's state agrees with the reference state `l` and no break has happened. */
  predicate Tracks(st: State, l: (string, string)) {
    && st.out == l.0
    && st.line + st.word == l.1
    && !st.broken
    && (st.line != [] ==> !AllWhitespace(st.line))
  }

  lemma WordCharStepWhenFits(cfg: Config, st: State, l: (string, string), c: char)
    requires Tracks(st, l) && Fits(cfg, |l.1| + 1)
    ensures WordCharStep(cfg, st, c) == st.(word := st.word + [c])
  {
    assert GrownWord(st, c) == st.word + [c];
    assert |Probe(st.line, st.word + [c])| <= |l.1| + 1;
  }

  lemma OtherStepWhenFits(cfg: Config, st: State, l: (string, string), c: char)
    requires Tracks(st, l) && Fits(cfg, |l.1| + 1)
    ensures !Throws(cfg, st, c)
    ensures OtherStep(cfg, st, c) == st.(line := Commit(st).0, word := Commit(st).1 + [c])
    ensures Commit(st).0 + Commit(st).1 == l.1
    ensures Commit(st).0 != [] ==> !AllWhitespace(Commit(st).0)
  {
    var line1 := Commit(st).0;
    var word2 := Commit(st).1 + [c];
    assert line1 + word2 == l.1 + [c];
    assert |Probe(line1, word2)| <= |l.1| + 1;
    if |st.word| > 0 && !AllWhitespace(st.word) {
      var i :| 0 <= i < |st.word| && !IsWhitespaceChar(st.word[i]);
      assert line1[|st.line| + i] == st.word[i];
    }
  }

  lemma StepIsWordCharStep(cfg: Config, st: State, c: char)
    requires c != '\n' && c != '\r' && IsWordChar(cfg, c) && !st.previousWasPunctuation
    ensures Step(cfg, st, c)
      == WordCharStep(cfg, st, c).(previousWasPunctuation := IsPunctuation(c) && c !in cfg.extraWordChars)
  {
  }

  lemma StepIsOtherStep(cfg: Config, st: State, c: char)
    requires c != '\n' && c != '\r' && !(IsWordChar(cfg, c) && !st.previousWasPunctuation)
    ensures Step(cfg, st, c)
      == OtherStep(cfg, st, c).(previousWasPunctuation := IsPunctuation(c) && c !in cfg.extraWordChars)
  {
  }

  lemma NewlineWhenFits(cfg: Config, st: State, l: (string, string))
    requires Tracks(st, l) && Fits(cfg, |l.1|)
    ensures Tracks(Step(cfg, st, '\n'), LineStep(l, '\n', cfg.newLine))
  {
    NewlineStepIsStep(cfg, st);
    assert !TooLong(cfg, st.line + st.word);
  }

  lemma WordCharWhenFits(cfg: Config, st: State, l: (string, string), c: char)
    requires Tracks(st, l) && Fits(cfg, |l.1| + 1)
    requires c != '\n' && c != '\r' && IsWordChar(cfg, c) && !st.previousWasPunctuation
    ensures Tracks(Step(cfg, st, c), LineStep(l, c, cfg.newLine))
  {
    StepIsWordCharStep(cfg, st, c);
    WordCharStepWhenFits(cfg, st, l, c);
  }

  lemma OtherWhenFits(cfg: Config, st: State, l: (string, string), c: char)
    requires Tracks(st, l) && Fits(cfg, |l.1| + 1)
    requires c != '\n' && c != '\r' && !(IsWordChar(cfg, c) && !st.previousWasPunctuation)
    ensures !Throws(cfg, st, c)
    ensures Tracks(Step(cfg, st, c), LineStep(l, c, cfg.newLine))
  {
    StepIsOtherStep(cfg, st, c);
    OtherStepWhenFits(cfg, st, l, c);
  }

  /** One character keeps the engine in step with the reference while the line it grows fits. */
  lemma StepWhenFits(cfg: Config, st: State, l: (string, string), c: char)
    requires Tracks(st, l) && Fits(cfg, |l.1|) && Fits(cfg, |LineStep(l, c, cfg.newLine).1|)
    ensures !Throws(cfg, st, c)
    ensures Tracks(Step(cfg, st, c), LineStep(l, c, cfg.newLine))
  {
    if c != '\n' && c != '\r' {
      assert |LineStep(l, c, cfg.newLine).1| == |l.1| + 1;
    }
    if c == '\n' {
      NewlineWhenFits(cfg, st, l);
    } else if c == '\r' {
      CarriageReturnIgnored(cfg, st);
    } else if IsWordChar(cfg, c) && !st.previousWasPunctuation {
      WordCharWhenFits(cfg, st, l, c);
    } else {
      OtherWhenFits(cfg, st, l, c);
    }
  }

  /** While no line grows too wide the engine stays in step with the reference. */
  lemma {:induction false} RunWhenFits(cfg: Config, input: string)
    requires Fits(cfg, LongestLine(input, cfg.newLine))
    ensures Tracks(Run(cfg, input), Lines(input, cfg.newLine))
    decreases |input|
  {
    if input != [] {
      var p := input[..|input| - 1];
      var n := LongestLine(input, cfg.newLine);
      assert LongestLine(p, cfg.newLine) <= n;
      FitsBelow(cfg, n, LongestLine(p, cfg.newLine));
      RunWhenFits(cfg, p);
      FitsBelow(cfg, n, |Lines(p, cfg.newLine).1|);
      FitsBelow(cfg, n, |Lines(input, cfg.newLine).1|);
      StepWhenFits(cfg, Run(cfg, p), Lines(p, cfg.newLine), input[|input| - 1]);
    }
  }

  /**
   * The loop as written runs to the end when, besides, no line is longer than twice the line
   * buffer's initial capacity, so that no append overruns it.
   */
  lemma {:induction false} RunCheckedWhenShort(cfg: Config, input: string)
    requires Fits(cfg, LongestLine(input, cfg.newLine))
    requires LongestLine(input, cfg.newLine) <= 2 * Buffer.DefaultCapacity
    ensures RunChecked(cfg, input).Success?
    decreases |input|
  {
    if input != [] {
      var p := input[..|input| - 1];
      assert LongestLine(p, cfg.newLine) <= LongestLine(input, cfg.newLine);
      FitsBelow(cfg, LongestLine(input, cfg.newLine), LongestLine(p, cfg.newLine));
      RunCheckedWhenShort(cfg, p);
      ShortStep(cfg, input);
      NoOverrunWhenShort(cfg, input);
    }
  }

  /**
   * The last character of a run whose lines all fit and are short: the state before it is in
   * step with the reference, the check passes and the line is short.
   */
  lemma ShortStep(cfg: Config, input: string)
    requires input != []
    requires Fits(cfg, LongestLine(input, cfg.newLine))
    requires LongestLine(input, cfg.newLine) <= 2 * Buffer.DefaultCapacity
    ensures var p := input[..|input| - 1];
      && Tracks(Run(cfg, p), Lines(p, cfg.newLine))
      && |Lines(p, cfg.newLine).1| <= 2 * Buffer.DefaultCapacity
      && !Throws(cfg, Run(cfg, p), input[|input| - 1])
  {
    var p, c := input[..|input| - 1], input[|input| - 1];
    var n := LongestLine(input, cfg.newLine);
    LongestLinePrefix(input, cfg.newLine);
    FitsBelow(cfg, n, LongestLine(p, cfg.newLine));
    RunWhenFits(cfg, p);
    FitsBelow(cfg, n, |Lines(p, cfg.newLine).1|);
    FitsBelow(cfg, n, |Lines(input, cfg.newLine).1|);
    NoThrowWhenFits(cfg, Run(cfg, p), Lines(p, cfg.newLine), c);
  }

  lemma LongestLinePrefix(input: string, newLine: string)
    requires input != []
    ensures var n := LongestLine(input, newLine);
      LongestLine(input[..|input| - 1], newLine) <= n && |Lines(input[..|input| - 1], newLine).1| <= n
  {
  }

  lemma FitsBelow(cfg: Config, n: nat, m: nat)
    requires Fits(cfg, n) && m <= n
    ensures Fits(cfg, m)
  {
  }

  /** The check passes while the line fits. */
  lemma NoThrowWhenFits(cfg: Config, st: State, l: (string, string), c: char)
    requires Tracks(st, l) && Fits(cfg, |l.1|) && Fits(cfg, |LineStep(l, c, cfg.newLine).1|)
    ensures !Throws(cfg, st, c)
  {
    StepWhenFits(cfg, st, l, c);
  }

  /** A step from a state in step with the reference: no line is long enough to overrun. */
  lemma NoOverrunWhenShort(cfg: Config, input: string)
    requires input != [] && RunChecked(cfg, input[..|input| - 1]).Success?
    requires var p := input[..|input| - 1];
      && Tracks(Run(cfg, p), Lines(p, cfg.newLine))
      && |Lines(p, cfg.newLine).1| <= 2 * Buffer.DefaultCapacity
      && !Throws(cfg, Run(cfg, p), input[|input| - 1])
    ensures RunChecked(cfg, input).Success?
  {
  }

  lemma FinishUnbroken(st: State)
    requires !st.broken && (st.line != [] ==> !AllWhitespace(st.line))
    ensures Finish(st) == st.out + Blanked(st.line + st.word)
  {
    if st.line != [] {
      var i :| 0 <= i < |st.line| && !IsWhitespaceChar(st.line[i]);
      assert (st.line + st.word)[i] == st.line[i];
    } else {
      assert st.line + st.word == st.word;
    }
  }

  /**
   * Text in which nothing is too wide comes out as it went in, except that `'\r'` is dropped,
   * a blank line is written empty and each `'\n'` becomes `newLine`; the check never fails.
   */
  lemma WrapWhenFits(cfg: Config, input: string)
    requires Fits(cfg, LongestLine(input, cfg.newLine))
    ensures Wrap(cfg, input) == Unwrapped(input, cfg.newLine)
    ensures LongestLine(input, cfg.newLine) <= 2 * Buffer.DefaultCapacity ==>
              WrapAsWritten(cfg, input) == Success(Unwrapped(input, cfg.newLine))
  {
    RunWhenFits(cfg, input);
    if LongestLine(input, cfg.newLine) <= 2 * Buffer.DefaultCapacity {
      RunCheckedWhenShort(cfg, input);
    }
    FinishUnbroken(Run(cfg, input));
  }

  /**
   * With the default width, text whose lines are no longer than the maximum width needs no
   * wrapping; as written, only while no line is longer than 32 characters.
   */
  lemma ShortTextUnwrapped(cfg: Config, input: string)
    requires forall s :: cfg.width(s) == |s|
    requires cfg.maxWidth >= LongestLine(input, cfg.newLine)
    ensures Wrap(cfg, input) == Unwrapped(input, cfg.newLine)
    ensures LongestLine(input, cfg.newLine) <= 2 * Buffer.DefaultCapacity ==>
              WrapAsWritten(cfg, input) == Success(Unwrapped(input, cfg.newLine))
  {
    WrapWhenFits(cfg, input);
  }

  lemma BlankStepStaysBlank(cfg: Config, st: State, c: char)
    requires st.out == [] && st.line == [] && AllWhitespace(st.word)
    requires IsWhitespaceChar(c) && c != '\n' && c !in cfg.extraWordChars
    ensures var st' := Step(cfg, st, c); st'.out == [] && st'.line == [] && AllWhitespace(st'.word)
  {
    if c != '\r' {
      assert Commit(st) == (st.line, st.word);
      assert AllWhitespace(st.word + [c]);
    }
  }

  lemma {:induction false} BlankRunStaysBlank(cfg: Config, input: string)
    requires AllWhitespace(input) && '\n' !in input
    requires forall i :: 0 <= i < |input| ==> input[i] !in cfg.extraWordChars
    ensures var st := Run(cfg, input); st.out == [] && st.line == [] && AllWhitespace(st.word)
    decreases |input|
  {
    if input != [] {
      var p := input[..|input| - 1];
      assert AllWhitespace(p);
      BlankRunStaysBlank(cfg, p);
      BlankStepStaysBlank(cfg, Run(cfg, p), input[|input| - 1]);
    }
  }

  /** Whitespace without a line break writes nothing, whatever the width. */
  lemma BlankInputWritesNothing(cfg: Config, input: string)
    requires AllWhitespace(input) && '\n' !in input
    requires forall i :: 0 <= i < |input| ==> input[i] !in cfg.extraWordChars
    ensures Wrap(cfg, input) == []
  {
    BlankRunStaysBlank(cfg, input);
  }

  /** Ten spaces at width 6 wrap to nothing. */
  lemma TenSpaces()
    ensures WrapAsWritten(DefaultConfig(6), Spaces(10)) == Success([])
  {
    var cfg := DefaultConfig(6);
    assert ' ' !in cfg.extraWordChars && !TooLong(cfg, " ");
    BlankWrapsToNothing(cfg, 10);
  }

  /** Spaces alone wrap to nothing, also as written, while one space fits. */
  lemma BlankWrapsToNothing(cfg: Config, n: nat)
    requires ' ' !in cfg.extraWordChars && !TooLong(cfg, " ")
    ensures WrapAsWritten(cfg, Spaces(n)) == Success([])
  {
    BlankRun(cfg, n);
  }

  /**
   * `writeBrokenWord` on the word "helloth" that overflows width 6 in "hellothere": with
   * hyphens it writes "hello-" and keeps "th"; without, it writes "hellot" and keeps "h". A
   * head that is all whitespace is not written.
   */
  lemma BrokenWordExamples()
    ensures BrokenWord("helloth", "\n", true) == ("hello-\n", "th")
    ensures BrokenWord("helloth", "\n", false) == ("hellot\n", "h")
    ensures BrokenWord("        a", "\n", true) == ("\n", "a")
  {
    assert !AllWhitespace("hello") by { assert !IsWhitespaceChar("helloth"[0]); }
    assert "helloth"[..5] == "hello";
    assert "helloth"[..6] == "hellot";
    assert "helloth"[5..] == "th";
    assert "helloth"[6..] == "h";
    assert "hello" + "-" + "\n" == "hello-\n";
    assert "hellot" + "\n" == "hellot\n";
    assert HyphenBreak("helloth", true);
    assert !AllWhitespace("hellot") by { assert !IsWhitespaceChar("hellot"[0]); }
    assert "        a"[..7] == "       ";
    assert "        a"[..8] == "        ";
    assert AllWhitespace("       ");
    assert AllWhitespace("        ");
  }
}
