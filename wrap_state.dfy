/** The state both wrapping engines carry from one input character to the next. */
module WrapState {
  import opened Chars

  /**
   * `out` is everything written so far; `line` holds the words committed to the current output
   * line, `word` the word being read; `broken` records that the current line was started by a
   * forced break; `previousWasPunctuation` that the last character was a punctuation mark that
   * is not a word character.
   */
  datatype State = State(
    out: string,
    line: string,
    word: string,
    broken: bool,
    previousWasPunctuation: bool)

  const Init: State := State([], [], [], false, false)

  /** The word after a word character: left-trimmed when it starts a line after a break. */
  function GrownWord(st: State, ch: char): (w: string)
    ensures |w| >= 1
  {
    var w0 := st.word + [ch];
    if st.broken && st.line == [] then LeftTrimmed(w0) else w0
  }

  /** Before a non-word character, a word that is not blank moves into the line. */
  function Commit(st: State): (lw: (string, string))
    ensures lw.0 + lw.1 == st.line + st.word || (st.broken && lw.1 == [])
  {
    if |st.word| > 0 && !AllWhitespace(st.word) then
      (if st.broken then LeftTrimmed(st.line + st.word) else st.line + st.word, [])
    else
      (st.line, st.word)
  }

  /** Everything a state accounts for: the text written and the text still buffered. */
  function Consumed(st: State): string {
    st.out + st.line + st.word
  }

  lemma KeptOfThree(a: string, b: string, c: string, e: bool)
    ensures Kept(a + b + c, e) == Kept(a, e) + Kept(b, e) + Kept(c, e)
  {
    KeptAppend(a + b, c, e);
    KeptAppend(a, b, e);
  }

  /** Swapping the tail of a text for one with the same visible text keeps the visible text. */
  lemma KeptReplaced(pre: string, w: string, w': string, e: bool)
    requires Kept(w', e) == Kept(w, e)
    ensures Kept(pre + w', e) == Kept(pre + w, e)
  {
    KeptAppend(pre, w', e);
    KeptAppend(pre, w, e);
  }

  /** Inserting text with nothing visible in it, as a newline is, keeps the visible text. */
  lemma KeptInserted(pre: string, blank: string, w: string, w': string, e: bool)
    requires Kept(blank, e) == [] && Kept(w', e) == Kept(w, e)
    ensures Kept(pre + blank + w', e) == Kept(pre + w, e)
  {
    KeptAppend(pre + blank, w', e);
    KeptAppend(pre, blank, e);
    KeptAppend(pre, w, e);
    assert Kept(pre, e) + [] == Kept(pre, e);
  }

  lemma KeptOfLineBreak(e: bool)
    ensures Kept(['\n'], e) == [] && Kept(['\r'], e) == []
  {
    KeptWhitespace(['\n'], e);
    KeptWhitespace(['\r'], e);
  }

  lemma GrownWordKeepsText(st: State, ch: char, e: bool)
    ensures Kept(st.out + st.line + GrownWord(st, ch), e) == Kept(Consumed(st) + [ch], e)
  {
    var w0 := st.word + [ch];
    assert Kept(GrownWord(st, ch), e) == Kept(w0, e) by {
      KeptLeftTrimmed(w0, e);
    }
    assert Kept(st.out + st.line + w0, e) == Kept(st.out, e) + Kept(st.line, e) + Kept(w0, e) by {
      KeptOfThree(st.out, st.line, w0, e);
    }
    assert Kept(st.out + st.line + GrownWord(st, ch), e)
        == Kept(st.out, e) + Kept(st.line, e) + Kept(GrownWord(st, ch), e) by {
      KeptOfThree(st.out, st.line, GrownWord(st, ch), e);
    }
    assert Consumed(st) + [ch] == st.out + st.line + w0;
  }

  lemma CommitKeepsText(st: State, e: bool)
    ensures Kept(Commit(st).0 + Commit(st).1, e) == Kept(st.line + st.word, e)
  {
    if |st.word| > 0 && !AllWhitespace(st.word) {
      assert Commit(st).0 + Commit(st).1 == Commit(st).0;
      KeptLeftTrimmed(st.line + st.word, e);
    }
  }

  lemma CommitThenAppendKeepsText(st: State, ch: char, e: bool)
    ensures Kept(Consumed(st) + [ch], e)
      == Kept(st.out, e) + Kept(Commit(st).0, e) + Kept(Commit(st).1 + [ch], e)
  {
    var line1 := Commit(st).0;
    var word1 := Commit(st).1;
    CommitKeepsText(st, e);
    assert Consumed(st) + [ch] == st.out + (st.line + st.word) + [ch];
    KeptOfThree(st.out, st.line + st.word, [ch], e);
    KeptAppend(line1, word1, e);
    KeptAppend(word1, [ch], e);
  }
}
