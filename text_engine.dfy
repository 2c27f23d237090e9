/**
 * `Text.wordWrap`: the older one-pass engine. It has a fixed set of extra word characters,
 * never inserts hyphens, measures the right-trimmed `line ++ word`, and handles an overflow
 * with an empty line by splitting the word instead of failing.
 */
module TextEngine {
  import opened Chars
  import opened WrapState

  /** `SPECIAL_WORD_CHARS`: quotes and `?./!,`. */
  const TextWordChars: set<char> :=
    {'\'', '"', '\U{2018}', '\U{2019}', '\U{201C}', '\U{201D}', '?', '.', '/', '!', ','}

  /** The parameters: the bound, the string-width function and the newline string. */
  datatype TextConfig = TextConfig(maxWidth: int, width: string -> int, newLine: string)

  /** `wordWrap(String, int)`: the character count as width and "\n" as newline. */
  function DefaultTextConfig(maxWidth: int): TextConfig {
    TextConfig(maxWidth, s => |s|, "\n")
  }

  predicate IsWordChar(ch: char) {
    IsLetter(ch) || ch in TextWordChars
  }

  /** `tooLong`: the width of `s` without its trailing whitespace exceeds the maximum. */
  predicate TooLong(cfg: TextConfig, s: string) {
    cfg.width(RightTrimmed(s)) > cfg.maxWidth
  }

  /** `writeBrokenWord`: all but the last character, then a newline; the last one stays. */
  function BrokenWord(word: string, newLine: string): (r: (string, string))
    requires |word| >= 1
  {
    (word[..|word| - 1] + newLine, word[|word| - 1..])
  }

  /** A `'\n'`: write `line ++ word` as it is, then the newline. */
  function NewlineStep(cfg: TextConfig, st: State): State {
    st.(out := st.out + st.line + st.word + cfg.newLine, line := [], word := [], broken := false)
  }

  /** A word character: extend the word and break the line or the word if it overflows. */
  function WordCharStep(cfg: TextConfig, st: State, ch: char): State {
    var w1 := GrownWord(st, ch);
    if !TooLong(cfg, st.line + w1) then
      st.(word := w1)
    else if st.line != [] then
      var out1 := st.out + st.line + cfg.newLine;
      var w2 := LeftTrimmed(w1);
      if TooLong(cfg, w2) then
        var (emitted, rest) := BrokenWord(w2, cfg.newLine);
        st.(out := out1 + emitted, line := [], word := rest)
      else
        st.(out := out1, line := [], word := w2, broken := true)
    else
      var (emitted, rest) := BrokenWord(w1, cfg.newLine);
      st.(out := st.out + emitted, word := rest)
  }

  /**
   * A non-word character: commit the word, extend it, and on overflow flush a non-empty line
   * or, when the line is empty, write the word's head on a line of its own.
   */
  function OtherStep(cfg: TextConfig, st: State, ch: char): State {
    var (line1, word1) := Commit(st);
    var word2 := word1 + [ch];
    if !TooLong(cfg, line1 + word2) then
      st.(line := line1, word := word2)
    else if line1 != [] then
      st.(out := st.out + (if AllWhitespace(line1) then [] else line1 + cfg.newLine),
          line := [], word := word2, broken := true)
    else
      var head := if st.broken then LeftTrimmed(word1) else word1;
      if head != [] then
        st.(out := st.out + head + cfg.newLine, line := [], word := [ch], broken := false)
      else
        st.(line := [], word := [ch])
  }

  function Step(cfg: TextConfig, st: State, ch: char): State {
    var st1 :=
      if ch == '\n' then NewlineStep(cfg, st)
      else if ch == '\r' then st
      else if IsWordChar(ch) && !st.previousWasPunctuation then WordCharStep(cfg, st, ch)
      else OtherStep(cfg, st, ch);
    st1.(previousWasPunctuation := IsPunctuation(ch) && ch !in TextWordChars)
  }

  function Run(cfg: TextConfig, input: string): State
    decreases |input|
  {
    if input == [] then Init else Step(cfg, Run(cfg, input[..|input| - 1]), input[|input| - 1])
  }

  /** End of input: flush what is left, left-trimmed after a forced break, blank or not. */
  function Finish(st: State): string {
    if st.line != [] then
      st.out + (if st.broken then LeftTrimmed(st.line + st.word) else st.line + st.word)
    else
      st.out + (if st.broken then LeftTrimmed(st.word) else st.word)
  }

  function Wrap(cfg: TextConfig, input: string): string {
    Finish(Run(cfg, input))
  }
}
