/**
 * `WordWrap.wordWrap` as the loop it is: characters are read one at a time from a
 * `CharSequenceReader`, the line and the word live in two `StringBuilder2` buffers, and the
 * one live `CharSequenceConcatRightTrim` view over them is re-queried after every change.
 * Each branch is proved against the step function of `WordWrapEngine`.
 */
module WordWrapLoop {
  import opened Wrappers
  import opened Chars
  import opened WrapState
  import opened WordWrapEngine
  import opened Buffer
  import opened ConcatRightTrimView
  import opened SequenceReader
  import WordWrapProperties

  /** The two buffers of the engine: distinct, over distinct arrays. */
  ghost predicate Buffers(line: StringBuilder2, word: StringBuilder2)
    reads line, word
  {
    line != word && line.chars != word.chars && line.Valid() && word.Valid()
  }

  /**
   * `leftTrim(StringBuilder2)`: finds the first non-whitespace character and deletes what
   * precedes it, but only when there is such a character.
   */
  method LeftTrim(word: StringBuilder2)
    requires word.Valid()
    modifies word, word.chars
    ensures word.Valid() && word.chars == old(word.chars)
    ensures word.ToString() == LeftTrimmed(old(word.ToString()))
  {
    ghost var s := word.ToString();
    var i := 0;
    while i < word.Length()
      invariant 0 <= i <= |s| && word.ToString() == s
      invariant forall j :: 0 <= j < i ==> IsWhitespaceChar(s[j])
    {
      if !IsWhitespaceChar(word.CharAt(i)) {
        break;
      }
      i := i + 1;
    }
    FirstNonWhitespaceAt(s, 0, i);
    if i < word.Length() && i > 0 {
      word.Delete(0, i);
      assert s[..0] + s[i..] == s[i..];
    }
  }

  /** `leftTrim(String)`: the same trim, through a buffer built from the string. */
  method LeftTrimString(s: string) returns (r: string)
    ensures r == LeftTrimmed(s)
  {
    var b := new StringBuilder2.FromString(s);
    LeftTrim(b);
    r := b.ToString();
  }

  /** `writeLine`: writes the line and a newline, then empties the line. */
  method WriteLine(out: string, line: StringBuilder2, newLine: string) returns (out': string)
    requires line.Valid()
    modifies line
    ensures line.Valid() && line.chars == old(line.chars) && line.ToString() == []
    ensures out' == out + old(line.ToString()) + newLine
  {
    out' := out + line.ToString() + newLine;
    line.SetLength(0);
  }

  /**
   * `appendWordToLine`: moves the word to the end of the line. The line buffer is doubled at
   * most once, and the append throws when the line and the word need more than that.
   */
  method AppendWordToLine(line: StringBuilder2, word: StringBuilder2) returns (r: Result<()>)
    requires Buffers(line, word)
    modifies line, line.chars, word
    ensures Buffers(line, word) && word.chars == old(word.chars)
    ensures line.chars == old(line.chars) || fresh(line.chars)
    ensures line.chars.Length
      == GrownCapacityAsWritten(old(line.chars.Length), |old(line.ToString())|, |old(word.ToString())|)
    ensures r == if |old(line.ToString())| + |old(word.ToString())| <= 2 * old(line.chars.Length)
      then Success(()) else Failure(IndexOutOfBounds)
    ensures r.Success? ==>
      line.ToString() == old(line.ToString()) + old(word.ToString()) && word.ToString() == []
  {
    r := line.AppendAsWritten(word);
    if r.Failure? {
      return;
    }
    word.SetLength(0);
  }

  /**
   * `writeBrokenWord`: writes the head of an overlong word, hyphenated when that leaves a
   * non-blank head, and keeps its last one or two characters.
   */
  method WriteBrokenWord(out: string, word: StringBuilder2, newLine: string, insertHyphens: bool)
    returns (out': string)
    requires word.Valid() && word.length >= 1
    modifies word, word.chars
    ensures word.Valid() && word.chars == old(word.chars)
    ensures out' == out + BrokenWord(old(word.ToString()), newLine, insertHyphens).0
    ensures word.ToString() == BrokenWord(old(word.ToString()), newLine, insertHyphens).1
  {
    ghost var w := word.ToString();
    ghost var bw := BrokenWord(w, newLine, insertHyphens);
    var hyphen := false;
    var x: string := [];
    if insertHyphens && word.Length() > 2 {
      x := word.Substring(0, word.Length() - 2);
      assert x == w[..|w| - 2];
      var blank := IsWhitespace(x);
      hyphen := !blank;
    }
    assert hyphen == HyphenBreak(w, insertHyphens);
    if hyphen {
      assert bw == (x + "-" + newLine, w[|w| - 2..]);
      out' := out + x + "-" + newLine;
      word.Delete(0, word.Length() - 2);
      assert w[..0] + w[|w| - 2..] == w[|w| - 2..];
    } else {
      var prefix := word.Substring(0, word.Length() - 1);
      assert prefix == w[..|w| - 1];
      var blank := IsWhitespace(prefix);
      assert bw == ((if blank then [] else prefix) + newLine, w[|w| - 1..]);
      out' := out;
      if !blank {
        out' := out' + prefix;
      }
      out' := out' + newLine;
      word.Delete(0, word.Length() - 1);
      assert w[..0] + w[|w| - 1..] == w[|w| - 1..];
    }
  }

  /**
   * The `'\n'` branch: flush the line and the word, then write the newline. The append of the
   * word to the line comes first, and throws when it overruns the line buffer.
   */
  method NewlineCase(cfg: Config, line: StringBuilder2, word: StringBuilder2, out: string,
                     ghost broken: bool, ghost previousWasPunctuation: bool)
    returns (out': string, r: Result<()>)
    requires Buffers(line, word)
    modifies line, line.chars, word
    ensures Buffers(line, word) && word.chars == old(word.chars)
    ensures line.chars == old(line.chars) || fresh(line.chars)
    ensures line.chars.Length
      == GrownCapacityAsWritten(old(line.chars.Length), |old(line.ToString())|, |old(word.ToString())|)
    ensures r == if |old(line.ToString())| + |old(word.ToString())| <= 2 * old(line.chars.Length)
      then Success(()) else Failure(IndexOutOfBounds)
    ensures r.Success? ==>
      State(out', line.ToString(), word.ToString(), false, previousWasPunctuation)
        == NewlineStep(cfg, State(out, old(line.ToString()), old(word.ToString()), broken, previousWasPunctuation))
  {
    out' := out;
    r := line.AppendAsWritten(word);
    if r.Failure? {
      return;
    }
    out' := FlushLine(cfg, line, word, out);
  }

  /**
   * The rest of the `'\n'` branch once the word is on the line: right-trim the line if it is too
   * wide, write it unless it is blank, write the newline and empty both buffers.
   */
  method FlushLine(cfg: Config, line: StringBuilder2, word: StringBuilder2, out: string)
    returns (out': string)
    requires Buffers(line, word)
    modifies line, word
    ensures Buffers(line, word) && line.chars == old(line.chars) && word.chars == old(word.chars)
    ensures line.ToString() == [] && word.ToString() == []
    ensures var l := old(line.ToString());
      var l' := if TooLong(cfg, l) then RightTrimmed(l) else l;
      out' == out + (if AllWhitespace(l') then [] else l') + cfg.newLine
  {
    ghost var l := line.ToString();
    ghost var l' := if TooLong(cfg, l) then RightTrimmed(l) else l;
    if cfg.width(line.ToString()) > cfg.maxWidth {
      var trimmed := line.RightTrim();
    }
    assert line.ToString() == l';
    out' := out;
    var blank := IsWhitespace(line.ToString());
    if !blank {
      out' := out' + line.ToString();
    }
    out' := out' + cfg.newLine;
    word.SetLength(0);
    line.SetLength(0);
  }

  /** The word-character branch: grow the word, and break the line or the word on overflow. */
  method WordCharCase(cfg: Config, ch: char, line: StringBuilder2, word: StringBuilder2,
                      lineAndWordRightTrim: CharSequenceConcatRightTrim, out: string, broken: bool,
                      ghost previousWasPunctuation: bool)
    returns (out': string, broken': bool)
    requires Buffers(line, word)
    requires lineAndWordRightTrim.a == line && lineAndWordRightTrim.b == word
    modifies line, word, word.chars
    ensures Buffers(line, word) && line.chars == old(line.chars)
    ensures word.chars == old(word.chars) || fresh(word.chars)
    ensures State(out', line.ToString(), word.ToString(), broken', previousWasPunctuation)
      == WordCharStep(cfg, State(out, old(line.ToString()), old(word.ToString()), broken, previousWasPunctuation), ch)
  {
    ghost var st := State(out, line.ToString(), word.ToString(), broken, previousWasPunctuation);
    GrowWord(line, word, broken, ch, st);
    var probe := lineAndWordRightTrim.ToString();
    assert probe == Probe(st.line, GrownWord(st, ch));
    if cfg.width(probe) > cfg.maxWidth {
      out', broken' := WordOverflow(cfg, line, word, out, broken, st, ch);
    } else {
      out', broken' := out, broken;
      WordCharFits(cfg, st, ch);
    }
  }

  /** Appends a word character, left-trimming the word when it starts a line after a break. */
  method GrowWord(line: StringBuilder2, word: StringBuilder2, broken: bool, ch: char, ghost st: State)
    requires Buffers(line, word) && line.ToString() == st.line && word.ToString() == st.word
    requires broken == st.broken
    modifies word, word.chars
    ensures Buffers(line, word) && line.ToString() == st.line
    ensures word.chars == old(word.chars) || fresh(word.chars)
    ensures word.ToString() == GrownWord(st, ch)
  {
    word.AppendChar(ch);
    if broken && line.Length() == 0 {
      LeftTrim(word);
    }
  }

  lemma WordCharFits(cfg: Config, st: State, ch: char)
    requires !TooLong(cfg, Probe(st.line, GrownWord(st, ch)))
    ensures WordCharStep(cfg, st, ch) == st.(word := GrownWord(st, ch))
  {
  }

  /** A grown word that overflows: flush a non-empty line first, then break the word if need be. */
  method WordOverflow(cfg: Config, line: StringBuilder2, word: StringBuilder2, out: string, broken: bool,
                      ghost st: State, ghost ch: char)
    returns (out': string, broken': bool)
    requires Buffers(line, word) && out == st.out && broken == st.broken
    requires line.ToString() == st.line && word.ToString() == GrownWord(st, ch)
    requires TooLong(cfg, Probe(st.line, GrownWord(st, ch)))
    modifies line, word, word.chars
    ensures Buffers(line, word) && line.chars == old(line.chars) && word.chars == old(word.chars)
    ensures State(out', line.ToString(), word.ToString(), broken', st.previousWasPunctuation)
      == WordCharStep(cfg, st, ch)
  {
    ghost var w1 := GrownWord(st, ch);
    if line.Length() > 0 {
      out' := WriteLine(out, line, cfg.newLine);
      LeftTrim(word);
      if cfg.width(word.ToString()) > cfg.maxWidth && cfg.breakWords {
        out' := WriteBrokenWord(out', word, cfg.newLine, cfg.insertHyphens);
        broken' := broken;
        WordCharFlushBreak(cfg, st, ch);
      } else {
        broken' := true;
        WordCharFlush(cfg, st, ch);
      }
    } else if cfg.breakWords {
      out' := WriteBrokenWord(out, word, cfg.newLine, cfg.insertHyphens);
      broken' := broken;
      WordCharBreak(cfg, st, ch);
    } else {
      out', broken' := out, true;
      WordCharOverflow(cfg, st, ch);
    }
  }

  lemma WordCharFlushBreak(cfg: Config, st: State, ch: char)
    requires TooLong(cfg, Probe(st.line, GrownWord(st, ch))) && st.line != []
    requires TooLong(cfg, LeftTrimmed(GrownWord(st, ch))) && cfg.breakWords
    ensures var r := BrokenWord(LeftTrimmed(GrownWord(st, ch)), cfg.newLine, cfg.insertHyphens);
      WordCharStep(cfg, st, ch) == st.(out := st.out + st.line + cfg.newLine + r.0, line := [], word := r.1)
  {
  }

  lemma WordCharFlush(cfg: Config, st: State, ch: char)
    requires TooLong(cfg, Probe(st.line, GrownWord(st, ch))) && st.line != []
    requires !(TooLong(cfg, LeftTrimmed(GrownWord(st, ch))) && cfg.breakWords)
    ensures WordCharStep(cfg, st, ch)
      == st.(out := st.out + st.line + cfg.newLine, line := [], word := LeftTrimmed(GrownWord(st, ch)), broken := true)
  {
  }

  lemma WordCharBreak(cfg: Config, st: State, ch: char)
    requires TooLong(cfg, Probe(st.line, GrownWord(st, ch))) && st.line == [] && cfg.breakWords
    ensures var r := BrokenWord(GrownWord(st, ch), cfg.newLine, cfg.insertHyphens);
      WordCharStep(cfg, st, ch) == st.(out := st.out + r.0, word := r.1)
  {
  }

  lemma WordCharOverflow(cfg: Config, st: State, ch: char)
    requires TooLong(cfg, Probe(st.line, GrownWord(st, ch))) && st.line == [] && !cfg.breakWords
    ensures WordCharStep(cfg, st, ch) == st.(word := GrownWord(st, ch), broken := true)
  {
  }

  /**
   * The non-word branch: commit a non-blank word to the line, grow the word, and flush the line
   * on overflow. `r` reports the exception thrown instead: the append of the word overrunning
   * the line buffer, or else the precondition check on the line length failing.
   */
  method OtherCase(cfg: Config, ch: char, line: StringBuilder2, word: StringBuilder2,
                   lineAndWordRightTrim: CharSequenceConcatRightTrim, out: string, broken: bool,
                   previousWasPunctuation: bool)
    returns (out': string, broken': bool, r: Result<()>)
    requires Buffers(line, word)
    requires lineAndWordRightTrim.a == line && lineAndWordRightTrim.b == word
    requires ch != '\n' && ch != '\r' && !(IsWordChar(cfg, ch) && !previousWasPunctuation)
    modifies line, line.chars, word, word.chars
    ensures Buffers(line, word)
    ensures line.chars == old(line.chars) || fresh(line.chars)
    ensures word.chars == old(word.chars) || fresh(word.chars)
    ensures var st := State(out, old(line.ToString()), old(word.ToString()), broken, previousWasPunctuation);
      r == if Overflows(cfg, st, old(line.chars.Length), ch) then Failure(IndexOutOfBounds)
           else if Throws(cfg, st, ch) then Failure(IllegalArgument(LineLengthWasZero))
           else Success(())
    ensures var st := State(out, old(line.ToString()), old(word.ToString()), broken, previousWasPunctuation);
      r.Success? ==>
        && State(out', line.ToString(), word.ToString(), broken', previousWasPunctuation) == OtherStep(cfg, st, ch)
        && line.chars.Length == NextCapacity(cfg, st, old(line.chars.Length), ch)
  {
    ghost var st := State(out, line.ToString(), word.ToString(), broken, previousWasPunctuation);
    OverflowsAt(cfg, st, line.chars.Length, ch);
    out', broken' := out, broken;
    r := CommitWord(line, word, broken, st);
    if r.Failure? {
      return;
    }
    out', broken', r := GrowAfterCommit(cfg, ch, line, word, lineAndWordRightTrim, out, broken, st);
  }

  /**
   * The rest of the non-word branch once the word is committed: append the character, and on
   * overflow run the check and flush the line.
   */
  method GrowAfterCommit(cfg: Config, ch: char, line: StringBuilder2, word: StringBuilder2,
                         lineAndWordRightTrim: CharSequenceConcatRightTrim, out: string, broken: bool,
                         ghost st: State)
    returns (out': string, broken': bool, r: Result<()>)
    requires Buffers(line, word) && out == st.out && broken == st.broken
    requires lineAndWordRightTrim.a == line && lineAndWordRightTrim.b == word
    requires ch != '\n' && ch != '\r' && !(IsWordChar(cfg, ch) && !st.previousWasPunctuation)
    requires (line.ToString(), word.ToString()) == Commit(st)
    modifies line, word, word.chars
    ensures Buffers(line, word) && line.chars == old(line.chars)
    ensures word.chars == old(word.chars) || fresh(word.chars)
    ensures r == if Throws(cfg, st, ch) then Failure(IllegalArgument(LineLengthWasZero)) else Success(())
    ensures r.Success? ==>
      State(out', line.ToString(), word.ToString(), broken', st.previousWasPunctuation) == OtherStep(cfg, st, ch)
  {
    ThrowsAt(cfg, st, ch);
    out', broken', r := out, broken, Success(());
    word.AppendChar(ch);
    var probe := lineAndWordRightTrim.ToString();
    assert probe == Probe(Commit(st).0, Commit(st).1 + [ch]);
    if cfg.width(probe) > cfg.maxWidth {
      // Preconditions.checkArgument(line.length() > 0, ...)
      if line.Length() == 0 {
        r := Failure(IllegalArgument(LineLengthWasZero));
        return;
      }
      out' := LineOverflow(cfg, line, word, out, st, ch);
      broken' := true;
    } else {
      WordWrapProperties.OtherFits(cfg, st, ch);
    }
  }

  /** Which branches append the word to the line, and so can overrun the line buffer. */
  lemma OverflowsAt(cfg: Config, st: State, capacity: nat, ch: char)
    ensures ch == '\n' ==> AppendsWord(cfg, st, ch) && !Throws(cfg, st, ch)
    ensures ch != '\n' && (ch == '\r' || (IsWordChar(cfg, ch) && !st.previousWasPunctuation)) ==>
      !AppendsWord(cfg, st, ch) && !Throws(cfg, st, ch)
    ensures ch != '\n' && ch != '\r' && !(IsWordChar(cfg, ch) && !st.previousWasPunctuation) ==>
      (AppendsWord(cfg, st, ch) <==> |st.word| > 0 && !AllWhitespace(st.word))
    ensures Overflows(cfg, st, capacity, ch) <==> AppendsWord(cfg, st, ch) && |st.line| + |st.word| > 2 * capacity
  {
  }

  /** The condition of the check, for a character that takes the non-word branch. */
  lemma ThrowsAt(cfg: Config, st: State, ch: char)
    requires ch != '\n' && ch != '\r' && !(IsWordChar(cfg, ch) && !st.previousWasPunctuation)
    ensures Throws(cfg, st, ch) <==> TooLong(cfg, Probe(Commit(st).0, Commit(st).1 + [ch])) && Commit(st).0 == []
  {
  }

  /** A non-word character that overflows a non-empty line: flush it, or drop it if blank. */
  method LineOverflow(cfg: Config, line: StringBuilder2, word: StringBuilder2, out: string,
                      ghost st: State, ghost ch: char)
    returns (out': string)
    requires Buffers(line, word) && out == st.out
    requires line.ToString() == Commit(st).0 && word.ToString() == Commit(st).1 + [ch]
    requires TooLong(cfg, Probe(Commit(st).0, Commit(st).1 + [ch])) && line.length > 0
    modifies line
    ensures Buffers(line, word) && line.chars == old(line.chars)
    ensures State(out', line.ToString(), word.ToString(), true, st.previousWasPunctuation)
      == OtherStep(cfg, st, ch)
  {
    var blank := IsWhitespace(line.ToString());
    if !blank {
      out' := WriteLine(out, line, cfg.newLine);
      OtherFlush(cfg, st, ch);
    } else {
      out' := out;
      line.SetLength(0);
      OtherClear(cfg, st, ch);
    }
  }

  /**
   * Before a non-word character: a word that is not blank moves to the line, unless the append
   * overruns the line buffer.
   */
  method CommitWord(line: StringBuilder2, word: StringBuilder2, broken: bool, ghost st: State)
    returns (r: Result<()>)
    requires Buffers(line, word)
    requires line.ToString() == st.line && word.ToString() == st.word && broken == st.broken
    modifies line, line.chars, word
    ensures Buffers(line, word) && word.chars == old(word.chars)
    ensures line.chars == old(line.chars) || fresh(line.chars)
    ensures line.chars.Length == if |st.word| > 0 && !AllWhitespace(st.word)
      then GrownCapacityAsWritten(old(line.chars.Length), |st.line|, |st.word|) else old(line.chars.Length)
    ensures r == if |st.word| > 0 && !AllWhitespace(st.word) && |st.line| + |st.word| > 2 * old(line.chars.Length)
      then Failure(IndexOutOfBounds) else Success(())
    ensures r.Success? ==> (line.ToString(), word.ToString()) == Commit(st)
  {
    r := Success(());
    if word.Length() > 0 {
      var blank := IsWhitespace(word.ToString());
      if !blank {
        r := AppendWordToLine(line, word);
        if r.Failure? {
          return;
        }
        if broken {
          LeftTrim(line);
        }
      }
    }
  }

  lemma OtherFlush(cfg: Config, st: State, ch: char)
    requires TooLong(cfg, Probe(Commit(st).0, Commit(st).1 + [ch])) && !AllWhitespace(Commit(st).0)
    ensures OtherStep(cfg, st, ch)
      == st.(out := st.out + Commit(st).0 + cfg.newLine, line := [], word := Commit(st).1 + [ch], broken := true)
  {
  }

  lemma OtherClear(cfg: Config, st: State, ch: char)
    requires TooLong(cfg, Probe(Commit(st).0, Commit(st).1 + [ch])) && AllWhitespace(Commit(st).0)
    ensures OtherStep(cfg, st, ch) == st.(line := [], word := Commit(st).1 + [ch], broken := true)
  {
  }

  /** The flush at end of input. */
  method FinishCase(line: StringBuilder2, word: StringBuilder2, out: string, broken: bool,
                    ghost previousWasPunctuation: bool)
    returns (out': string)
    requires Buffers(line, word)
    modifies word, word.chars
    ensures out' == Finish(State(out, old(line.ToString()), old(word.ToString()), broken, previousWasPunctuation))
  {
    if line.Length() > 0 {
      var s := line.ToString() + word.ToString();
      if broken {
        s := LeftTrimString(s);
      }
      out' := out + s;
    } else {
      if broken {
        LeftTrim(word);
      }
      var blank := IsWhitespace(word.ToString());
      out' := out;
      if !blank {
        out' := out' + word.ToString();
      }
    }
  }

  /** The body of the read loop for one character `ch`. */
  method Consume(cfg: Config, ch: char, line: StringBuilder2, word: StringBuilder2,
                 lineAndWordRightTrim: CharSequenceConcatRightTrim, out: string, broken: bool,
                 previousWasPunctuation: bool)
    returns (out': string, broken': bool, previousWasPunctuation': bool, r: Result<()>)
    requires Buffers(line, word)
    requires lineAndWordRightTrim.a == line && lineAndWordRightTrim.b == word
    modifies line, line.chars, word, word.chars
    ensures Buffers(line, word)
    ensures line.chars == old(line.chars) || fresh(line.chars)
    ensures word.chars == old(word.chars) || fresh(word.chars)
    ensures var st := State(out, old(line.ToString()), old(word.ToString()), broken, previousWasPunctuation);
      r == if Overflows(cfg, st, old(line.chars.Length), ch) then Failure(IndexOutOfBounds)
           else if Throws(cfg, st, ch) then Failure(IllegalArgument(LineLengthWasZero))
           else Success(())
    ensures var st := State(out, old(line.ToString()), old(word.ToString()), broken, previousWasPunctuation);
      r.Success? ==>
        && State(out', line.ToString(), word.ToString(), broken', previousWasPunctuation') == Step(cfg, st, ch)
        && line.chars.Length == NextCapacity(cfg, st, old(line.chars.Length), ch)
  {
    ghost var st := State(out, line.ToString(), word.ToString(), broken, previousWasPunctuation);
    var isWordCharacter := IsLetter(ch) || ch in cfg.extraWordChars;
    OverflowsAt(cfg, st, line.chars.Length, ch);
    r := Success(());
    previousWasPunctuation' := previousWasPunctuation;
    if ch == '\n' {
      out', r := NewlineCase(cfg, line, word, out, broken, previousWasPunctuation);
      broken' := false;
      if r.Failure? {
        return;
      }
      WordWrapProperties.NewlineStepIsStep(cfg, st);
    } else if ch == '\r' {
      // ignore carriage return
      out', broken' := out, broken;
      WordWrapProperties.CarriageReturnIgnored(cfg, st);
    } else if isWordCharacter && !previousWasPunctuation {
      out', broken' := WordCharCase(cfg, ch, line, word, lineAndWordRightTrim, out, broken, previousWasPunctuation);
      WordWrapProperties.StepIsWordCharStep(cfg, st, ch);
    } else {
      out', broken', r := OtherCase(cfg, ch, line, word, lineAndWordRightTrim, out, broken, previousWasPunctuation);
      if r.Failure? {
        return;
      }
      WordWrapProperties.StepIsOtherStep(cfg, st, ch);
    }
    previousWasPunctuation' := IsPunctuation(ch) && ch !in cfg.extraWordChars;
  }

  /** `Consume` on `text[p]`, stated over the checked run of `text[start..p]`. */
  method ConsumeChecked(cfg: Config, ch: char, line: StringBuilder2, word: StringBuilder2,
                        lineAndWordRightTrim: CharSequenceConcatRightTrim, out: string, broken: bool,
                        previousWasPunctuation: bool, ghost text: string, ghost start: int, ghost p: int)
    returns (out': string, broken': bool, previousWasPunctuation': bool, r: Result<()>)
    requires Buffers(line, word)
    requires lineAndWordRightTrim.a == line && lineAndWordRightTrim.b == word
    requires 0 <= start <= p < |text| && ch == text[p]
    requires Run(cfg, text[start..p]) == State(out, line.ToString(), word.ToString(), broken, previousWasPunctuation)
    requires RunChecked(cfg, text[start..p]) == Success(line.chars.Length)
    modifies line, line.chars, word, word.chars
    ensures Buffers(line, word)
    ensures line.chars == old(line.chars) || fresh(line.chars)
    ensures word.chars == old(word.chars) || fresh(word.chars)
    ensures r.Failure? ==> WrapAsWritten(cfg, text[start..]) == Failure(r.error)
    ensures r.Success? ==>
      Run(cfg, text[start..p + 1]) == State(out', line.ToString(), word.ToString(), broken', previousWasPunctuation')
    ensures r.Success? ==> RunChecked(cfg, text[start..p + 1]) == Success(line.chars.Length)
  {
    ghost var capacity := line.chars.Length;
    out', broken', previousWasPunctuation', r :=
      Consume(cfg, ch, line, word, lineAndWordRightTrim, out, broken, previousWasPunctuation);
    CheckedStep(cfg, text, start, p, capacity, r,
      State(out', line.ToString(), word.ToString(), broken', previousWasPunctuation'), line.chars.Length);
  }

  /**
   * `wordWrap(in, out, newLine, maxWidth, stringWidth, extraWordChars, insertHyphens,
   * breakWords)`: reads the reader to its end and returns what the writer receives. A closed
   * reader fails the first read; an append that overruns the line buffer, or the check at the
   * non-word overflow, fails the whole call.
   */
  method WordWrap(reader: CharSequenceReader, cfg: Config) returns (r: Result<string>)
    requires reader.Valid()
    modifies reader
    ensures reader.Valid() && reader.text == old(reader.text)
    ensures reader.text.None? ==> r == Failure(IOException(ReaderClosed))
    ensures reader.text.Some? ==> r == WrapAsWritten(cfg, reader.text.value[old(reader.pos)..])
  {
    var line := new StringBuilder2();
    var word := new StringBuilder2();
    var lineAndWordRightTrim := new CharSequenceConcatRightTrim(line, word);
    var broken := false;
    var previousWasPunctuation := false;
    var out: string := [];
    ghost var start := reader.pos;
    ghost var consumed: string := [];
    while true
      invariant reader.Valid() && reader.text == old(reader.text)
      invariant reader.text.Some? ==> start <= reader.pos && consumed == reader.text.value[start..reader.pos]
      invariant Buffers(line, word)
      invariant lineAndWordRightTrim.a == line && lineAndWordRightTrim.b == word
      invariant fresh(line) && fresh(word) && fresh(line.chars) && fresh(word.chars)
      invariant Run(cfg, consumed) == State(out, line.ToString(), word.ToString(), broken, previousWasPunctuation)
      invariant RunChecked(cfg, consumed) == Success(line.chars.Length)
      decreases if reader.text.Some? then |reader.text.value| - reader.pos else 0
    {
      ghost var p := reader.pos;
      var c := reader.Read();
      if c.Failure? {
        return Failure(c.error);
      }
      if c.value == -1 {
        break;
      }
      var ch := c.value as char;
      assert ch == reader.text.value[p] && reader.pos == p + 1;
      var thrown;
      out, broken, previousWasPunctuation, thrown := ConsumeChecked(cfg, ch, line, word,
        lineAndWordRightTrim, out, broken, previousWasPunctuation, reader.text.value, start, p);
      if thrown.Failure? {
        return Failure(thrown.error);
      }
      consumed := reader.text.value[start..p + 1];
    }
    if reader.text.Some? {
      FinishEnds(cfg, reader.text.value, start, reader.pos, consumed, line.chars.Length);
    }
    out := FinishCase(line, word, out, broken, previousWasPunctuation);
    r := Success(out);
  }

  /**
   * What one call of `Consume` on `text[p]` does to the checked run of `text[start..p]`; a
   * failure there is the failure of the whole call.
   */
  lemma CheckedStep(cfg: Config, text: string, start: int, p: int, capacity: nat,
                    thrown: Result<()>, st': State, capacity': nat)
    requires 0 <= start <= p < |text|
    requires RunChecked(cfg, text[start..p]) == Success(capacity)
    requires var st := Run(cfg, text[start..p]);
      thrown == if Overflows(cfg, st, capacity, text[p]) then Failure(IndexOutOfBounds)
                else if Throws(cfg, st, text[p]) then Failure(IllegalArgument(LineLengthWasZero))
                else Success(())
    requires var st := Run(cfg, text[start..p]);
      thrown.Success? ==> st' == Step(cfg, st, text[p]) && capacity' == NextCapacity(cfg, st, capacity, text[p])
    ensures thrown.Failure? ==> WrapAsWritten(cfg, text[start..]) == Failure(thrown.error)
    ensures thrown.Success? ==> RunChecked(cfg, text[start..p + 1]) == Success(capacity')
    ensures thrown.Success? ==> Run(cfg, text[start..p + 1]) == st'
  {
    SliceSnoc(text, start, p);
    WordWrapProperties.RunCheckedSnoc(cfg, text[start..p], text[p]);
    WordWrapProperties.RunSnoc(cfg, text[start..p], text[p]);
    if thrown.Failure? {
      FailureEnds(cfg, text, start, p + 1, text[start..p + 1], thrown.error);
    }
  }

  /** The end of the input: the loop as written returns what `Finish` makes of the last state. */
  lemma FinishEnds(cfg: Config, text: string, start: int, pos: int, consumed: string, capacity: nat)
    requires 0 <= start <= pos <= |text| && consumed == text[start..pos] && text[pos..] == []
    requires RunChecked(cfg, consumed) == Success(capacity)
    ensures WrapAsWritten(cfg, text[start..]) == Success(Finish(Run(cfg, consumed)))
  {
    SliceSplit(text, start, pos);
    assert consumed + [] == consumed;
  }

  /** A failure after `text[start..pos]` is the failure of the whole of `text[start..]`. */
  lemma FailureEnds(cfg: Config, text: string, start: int, pos: int, consumed: string, e: Exception)
    requires 0 <= start <= pos <= |text| && consumed == text[start..pos]
    requires RunChecked(cfg, consumed) == Failure(e)
    ensures WrapAsWritten(cfg, text[start..]) == Failure(e)
  {
    SliceSplit(text, start, pos);
    WordWrapProperties.FailureSticks(cfg, consumed, text[pos..]);
  }

  lemma SliceSnoc(s: string, i: int, j: int)
    requires 0 <= i <= j < |s|
    ensures s[i..j] + [s[j]] == s[i..j + 1]
  {
  }

  lemma SliceSplit(s: string, i: int, j: int)
    requires 0 <= i <= j <= |s|
    ensures s[i..] == s[i..j] + s[j..]
  {
  }
}
