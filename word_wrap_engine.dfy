/**
 * `WordWrap.wordWrap`: the one-pass wrapping engine with its `Builder` configuration. The
 * reader is a sequence of characters and the writer an output sequence that only grows.
 */
module WordWrapEngine {
  import opened Wrappers
  import opened Chars
  import opened WrapState
  import ConcatRightTrimView
  import Buffer
  import SequenceReader

  /** The default extra word characters: quotes, `?./!,;:` and `_`. */
  const SpecialWordChars: set<char> :=
    {'"', '\'', '\U{2018}', '\U{2019}', '\U{201C}', '\U{201D}', '?', '.', '/', '!', ',', ';', ':', '_'}

  const LineLengthWasZero: string :=
    "line length was zero. If this happens please contribute unit test that provokes this failure to the project!"

  /** The default string width: the number of characters. */
  function DefaultWidth(s: string): int {
    |s|
  }

  /**
   * The wrapping parameters. `width` stands for the string-width function and `maxWidth` for
   * the bound it is compared with.
   */
  datatype Config = Config(
    maxWidth: int,
    width: string -> int,
    newLine: string,
    extraWordChars: set<char>,
    insertHyphens: bool,
    breakWords: bool)

  predicate IsWordChar(cfg: Config, ch: char) {
    IsLetter(ch) || ch in cfg.extraWordChars
  }

  predicate TooLong(cfg: Config, s: string) {
    cfg.width(s) > cfg.maxWidth
  }

  /** What the live view `concatRightTrim(line, word)` holds: index 0 is never trimmed. */
  function Probe(line: string, word: string): (p: string)
    ensures |p| <= |line + word| && p == (line + word)[..|p|]
    ensures AllWhitespace((line + word)[|p|..])
    ensures line + word != [] ==> |p| >= 1
  {
    (line + word)[..ConcatRightTrimView.TrimmedLength(line + word)]
  }

  predicate HyphenBreak(word: string, insertHyphens: bool) {
    insertHyphens && |word| > 2 && !AllWhitespace(word[..|word| - 2])
  }

  /**
   * `writeBrokenWord`: what it writes (`r.0`) and what stays in the word buffer (`r.1`). With
   * a hyphen it writes all but the last two characters followed by "-" and a newline; otherwise
   * all but the last character, dropped when it is all whitespace, and a newline.
   */
  function BrokenWord(word: string, newLine: string, insertHyphens: bool): (r: (string, string))
    requires |word| >= 1
    ensures |r.1| == (if HyphenBreak(word, insertHyphens) then 2 else 1)
    ensures r.1 == word[|word| - |r.1|..]
    ensures HyphenBreak(word, insertHyphens) ==> r.0 == word[..|word| - 2] + "-" + newLine
    ensures !HyphenBreak(word, insertHyphens) && AllWhitespace(word[..|word| - 1]) ==> r.0 == newLine
    ensures !HyphenBreak(word, insertHyphens) && !AllWhitespace(word[..|word| - 1]) ==>
      r.0 == word[..|word| - 1] + newLine
  {
    if HyphenBreak(word, insertHyphens) then
      (word[..|word| - 2] + "-" + newLine, word[|word| - 2..])
    else
      var prefix := word[..|word| - 1];
      ((if AllWhitespace(prefix) then [] else prefix) + newLine, word[|word| - 1..])
  }

  /** A `'\n'`: flush `line ++ word`, right-trimmed if too wide and omitted if blank. */
  function NewlineStep(cfg: Config, st: State): State {
    var l := st.line + st.word;
    var l' := if TooLong(cfg, l) then RightTrimmed(l) else l;
    st.(out := st.out + (if AllWhitespace(l') then [] else l') + cfg.newLine,
        line := [], word := [], broken := false)
  }

  /** A word character: extend the word and break the line or the word if it overflows. */
  function WordCharStep(cfg: Config, st: State, ch: char): State {
    var w1 := GrownWord(st, ch);
    if !TooLong(cfg, Probe(st.line, w1)) then
      st.(word := w1)
    else if st.line != [] then
      var out1 := st.out + st.line + cfg.newLine;
      var w2 := LeftTrimmed(w1);
      if TooLong(cfg, w2) && cfg.breakWords then
        var (emitted, rest) := BrokenWord(w2, cfg.newLine, cfg.insertHyphens);
        st.(out := out1 + emitted, line := [], word := rest)
      else if TooLong(cfg, w2) then
        st.(out := out1, line := [], word := w2, broken := true)
      else
        st.(out := out1, line := [], word := w2, broken := true)
    else if cfg.breakWords then
      var (emitted, rest) := BrokenWord(w1, cfg.newLine, cfg.insertHyphens);
      st.(out := st.out + emitted, word := rest)
    else
      st.(word := w1, broken := true)
  }

  /** The run-time check at the non-word overflow: it fails when the line is empty. */
  predicate Throws(cfg: Config, st: State, ch: char) {
    && ch != '\n' && ch != '\r' && !(IsWordChar(cfg, ch) && !st.previousWasPunctuation)
    && var (line1, word1) := Commit(st);
    && TooLong(cfg, Probe(line1, word1 + [ch]))
    && line1 == []
  }

  /** A non-word character: commit the word, extend it and flush the line if it overflows. */
  function OtherStep(cfg: Config, st: State, ch: char): State {
    var (line1, word1) := Commit(st);
    var word2 := word1 + [ch];
    if !TooLong(cfg, Probe(line1, word2)) then
      st.(line := line1, word := word2)
    else if !AllWhitespace(line1) then
      st.(out := st.out + line1 + cfg.newLine, line := [], word := word2, broken := true)
    else
      st.(line := [], word := word2, broken := true)
  }

  /** One character of input, without the run-time check. */
  function Step(cfg: Config, st: State, ch: char): State {
    var st1 :=
      if ch == '\n' then NewlineStep(cfg, st)
      else if ch == '\r' then st
      else if IsWordChar(cfg, ch) && !st.previousWasPunctuation then WordCharStep(cfg, st, ch)
      else OtherStep(cfg, st, ch);
    st1.(previousWasPunctuation := IsPunctuation(ch) && ch !in cfg.extraWordChars)
  }

  function Run(cfg: Config, input: string): State
    decreases |input|
  {
    if input == [] then Init else Step(cfg, Run(cfg, input[..|input| - 1]), input[|input| - 1])
  }

  /**
   * Whether the character makes the loop append the word buffer to the line buffer: always at
   * a `'\n'`, and at a non-word character when the word is not blank.
   */
  predicate AppendsWord(cfg: Config, st: State, ch: char) {
    || ch == '\n'
    || (&& ch != '\r' && !(IsWordChar(cfg, ch) && !st.previousWasPunctuation)
        && |st.word| > 0 && !AllWhitespace(st.word))
  }

  /** The line buffer's capacity after the character: an append doubles it at most once. */
  function NextCapacity(cfg: Config, st: State, capacity: nat, ch: char): (c: nat)
    ensures c >= capacity
    ensures !AppendsWord(cfg, st, ch) ==> c == capacity
  {
    if AppendsWord(cfg, st, ch) then Buffer.GrownCapacityAsWritten(capacity, |st.line|, |st.word|)
    else capacity
  }

  /**
   * The append of the word to the line overruns the line buffer, whose single doubling leaves
   * room for at most twice its capacity.
   */
  predicate Overflows(cfg: Config, st: State, capacity: nat, ch: char) {
    AppendsWord(cfg, st, ch) && |st.line| + |st.word| > 2 * capacity
  }

  /**
   * The loop as written, as far as it differs from `Run`: the capacity of the line buffer once
   * `input` has been read (16 at first), or the exception that stops it. It stops with
   * `ArrayIndexOutOfBoundsException` when appending the word overruns the line buffer, and with
   * `IllegalArgumentException` when the check fails; until then it walks through the states of
   * `Run`.
   */
  function RunChecked(cfg: Config, input: string): (r: Result<nat>)
    ensures r.Success? ==> r.value >= Buffer.DefaultCapacity
    decreases |input|
  {
    if input == [] then Success(Buffer.DefaultCapacity)
    else
      var r := RunChecked(cfg, input[..|input| - 1]);
      if r.Failure? then r
      else
        var st := Run(cfg, input[..|input| - 1]);
        var c := input[|input| - 1];
        if Overflows(cfg, st, r.value, c) then Failure(IndexOutOfBounds)
        else if Throws(cfg, st, c) then Failure(IllegalArgument(LineLengthWasZero))
        else Success(NextCapacity(cfg, st, r.value, c))
  }

  /** End of input: flush what is left, left-trimmed after a forced break. */
  function Finish(st: State): string {
    if st.line != [] then
      st.out + (if st.broken then LeftTrimmed(st.line + st.word) else st.line + st.word)
    else
      var w := if st.broken then LeftTrimmed(st.word) else st.word;
      st.out + (if AllWhitespace(w) then [] else w)
  }

  /** The engine without the check at the non-word overflow. */
  function Wrap(cfg: Config, input: string): string {
    Finish(Run(cfg, input))
  }

  /** The engine as written. */
  function WrapAsWritten(cfg: Config, input: string): Result<string> {
    var r := RunChecked(cfg, input);
    if r.Failure? then Failure(r.error) else Success(Finish(Run(cfg, input)))
  }
}
