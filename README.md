# word-wrap: a verified model of the wrapping core

The library wraps text to a maximum width in one pass. It reads one character at a time and keeps
two growable buffers: `line`, the words committed to the current output line, and `word`, the token
being read. It also keeps two flags. `broken` says that the current line was started by a forced
break. `previousWasPunctuation` makes the character after an ASCII punctuation mark a non-word
character. After every character the engine measures `line ++ word` against the maximum width and
then does one of four things:

- flushes the line;
- force-breaks the word, with a hyphen or without;
- left-trims what follows a break;
- keeps accumulating.

At the end of input it writes what is left.

The project models:

- the `WordWrap` engine with its `Builder`;
- the older `Text.wordWrap` engine, which never hyphenates and has a fixed set of word characters;
- the growable buffer `StringBuilder2`;
- the two zero-copy views `CharSequenceConcat` and `CharSequenceConcatRightTrim`;
- the `CharSequenceReader` cursor.

## Layout

Each engine has two layers:

- **A specification on values.** `WrapState.State` holds `out`, `line`, `word`, `broken` and
  `previousWasPunctuation`. `Step` is one character of the loop body, `Run` folds it over the input
  and `Finish` is the flush at the end. They live in `WordWrapEngine` and `TextEngine`.
- **The imperative loop.** `WordWrapLoop.WordWrap` drives a `CharSequenceReader`, two
  `StringBuilder2` buffers and a `CharSequenceConcatRightTrim` view over them, which is created
  once and re-queried. `TextWrapLoop.TextWordWrap` is the counterpart for `Text`. Each loop is
  proved to compute that engine's specification, one branch at a time.

The properties are proved about the specification in `WordWrapProperties` and `TextProperties`.
They use two reference definitions that do not follow the loop:

- **`Kept`:** the visible text of a string. It keeps the non-whitespace characters and, when
  hyphens may be inserted, drops `-`. Wrapping must not add, lose or reorder any of them.
- **`Unwrapped`:** what text that never needs a break must come out as.

The `WordWrap` loop as written can stop with an exception in two places:

- the run-time check at `WordWrap.java:431-433` fails;
- appending the word to the line overruns the line buffer, because `StringBuilder2.checkSize`
  doubles its array only once (see Findings).

`WordWrapEngine.Step` is the engine without either. `RunChecked` and `WrapAsWritten` add both back:
`RunChecked` tracks the line buffer's capacity and returns the exception as a `Result`.
`WordWrapLoop.WordWrap` is proved equal to `WrapAsWritten`.

Three details of the code decide several results:

- In `WordWrap`, a `'\n'` right-trims `line ++ word` only when it is too wide, and omits it when it
  is blank.
- In `Text`, a `'\n'` writes `line ++ word` verbatim.
- The `WordWrap` overflow test measures the live right-trimming view, which never trims index 0.
  `Text` measures a true right trim.
## Model

| member | source | states |
|---|---|---|
| Chars.RightTrimmed | src/main/java/org/davidmoten/text/utils/WordWrap.java:474-488 | the longest prefix of the text that does not end in whitespace: only whitespace follows it |
| Chars.RightTrim | src/main/java/org/davidmoten/text/utils/WordWrap.java:474-488 | the countdown loop returns `RightTrimmed(s)`, and `s` itself when nothing is trimmed |
| Chars.RightTrimmedBlank | src/main/java/org/davidmoten/text/utils/WordWrap.java:474-488 | right-trimming gives the empty text exactly when the text is all whitespace |
| Chars.RightTrimmedIdempotent | src/main/java/org/davidmoten/text/utils/WordWrap.java:474-488 | right-trimming a second time changes nothing |
| Chars.KeptRightTrimmed | src/main/java/org/davidmoten/text/utils/WordWrap.java:474-488 | right-trimming removes no visible character |
| Chars.IsWhitespace | src/main/java/org/davidmoten/text/utils/WordWrap.java:490-497 | true exactly when every character is whitespace, so true for the empty text |
| Chars.FirstNonWhitespace | src/main/java/org/davidmoten/text/utils/WordWrap.java:500-512 | the index where the leading scan stops: whitespace before it, and a non-whitespace character at it unless it is the end |
| Chars.FirstNonWhitespaceAt | src/main/java/org/davidmoten/text/utils/WordWrap.java:500-512 | a scan that stops at the first non-whitespace character finds that same index |
| Chars.LeftTrimmed | src/main/java/org/davidmoten/text/utils/WordWrap.java:500-512 | empty or all-whitespace text is unchanged; otherwise the result is the suffix that starts at the first non-whitespace character, and only whitespace is dropped |
| Chars.KeptLeftTrimmed | src/main/java/org/davidmoten/text/utils/WordWrap.java:500-512 | left-trimming removes no visible character |
| Chars.IsWhitespaceChar | src/main/java/org/davidmoten/text/utils/WordWrap.java:477 | `Character.isWhitespace`, written out for the separators and controls it accepts; the three no-break spaces are not whitespace |
| Chars.IsLetter | src/main/java/org/davidmoten/text/utils/WordWrap.java:382 | `Character.isLetter`, restricted to the ASCII letters |
| Chars.IsPunctuation | src/main/java/org/davidmoten/text/utils/WordWrap.java:464-466 | membership in `PUNCTUATION`, the 32 printable ASCII marks |
| Chars.Kept | src/main/java/org/davidmoten/text/utils/WordWrap.java:366-458 | the visible text that wrapping must preserve: the characters that are not whitespace, and not `-` when hyphens are erased; the result holds only such characters (`KeptOnlyShown`) |
| Chars.KeptAppend | src/main/java/org/davidmoten/text/utils/WordWrap.java:366-458 | (proof step) the visible text of a concatenation is the concatenation of the visible texts |
| Chars.KeptOnlyShown | src/main/java/org/davidmoten/text/utils/WordWrap.java:366-458 | (proof step) every character of the visible text is shown, and visible text is its own visible text |
| Chars.KeptWhitespace | src/main/java/org/davidmoten/text/utils/WordWrap.java:366-458 | (proof step) whitespace has no visible text |
| Chars.HyphenatedReflexive | src/main/java/org/davidmoten/text/utils/WordWrap.java:525-543 | (proof step) inserting no hyphen is an insertion |
| Chars.HyphenatedAppend | src/main/java/org/davidmoten/text/utils/WordWrap.java:525-543 | (proof step) insertions into two parts are an insertion into their concatenation |
| Chars.HyphenInserted | src/main/java/org/davidmoten/text/utils/WordWrap.java:530-534 | one `-` between two parts is an insertion |
| Chars.HyphenatedTransitive | src/main/java/org/davidmoten/text/utils/WordWrap.java:366-458 | (proof step) two rounds of insertion are one |
| Chars.HyphenatedErased | src/main/java/org/davidmoten/text/utils/WordWrap.java:366-458 | hyphens inserted into a text vanish once hyphens are erased, so `Hyphenated` is finer than `Kept(_, true)` |
| Buffer.GrownCapacityAsWritten | src/main/java/org/davidmoten/text/utils/StringBuilder2.java:51-55 | `checkSize` as written never shrinks the array, and leaves room for `length + len` exactly when that is at most twice the old capacity |
| Buffer.CheckSizeAsWrittenFallsShort | src/main/java/org/davidmoten/text/utils/StringBuilder2.java:51-55 | two inputs on which the single doubling is not enough: 33 characters into a fresh buffer, and 1 character into a buffer made from "" |
| Buffer.Shifted | src/main/java/org/davidmoten/text/utils/StringBuilder2.java:67-70 | (proof step) the array after the shift of `delete` holds the text without `[start, end)` |
| Buffer.StringBuilder2.ToString | src/main/java/org/davidmoten/text/utils/StringBuilder2.java:77-79 | the first `length` characters of the array |
| Buffer.StringBuilder2.CheckSizeAsWritten | src/main/java/org/davidmoten/text/utils/StringBuilder2.java:51-55 | the text is unchanged and the array grows to `GrownCapacityAsWritten`: doubled once when `len` more characters do not fit |
| Buffer.StringBuilder2.AppendAsWritten | src/main/java/org/davidmoten/text/utils/StringBuilder2.java:44-49 | after the single doubling, `ArrayIndexOutOfBoundsException` exactly when the old text and `s` still do not fit, with the text unchanged; otherwise the text becomes the old text followed by that of `s` |
| Buffer.StringBuilder2.constructor | src/main/java/org/davidmoten/text/utils/StringBuilder2.java:14-16 | a new buffer is empty, with an array of 16 characters |
| Buffer.StringBuilder2.FromString | src/main/java/org/davidmoten/text/utils/StringBuilder2.java:10-12 | the buffer holds exactly `s`, in an array of exactly its size |
| Buffer.StringBuilder2.OfArray | src/main/java/org/davidmoten/text/utils/StringBuilder2.java:18-21 | the buffer adopts the given array and fill length |
| Buffer.StringBuilder2.Length | src/main/java/org/davidmoten/text/utils/StringBuilder2.java:28-30 | the number of characters in the text |
| Buffer.StringBuilder2.CharAt | src/main/java/org/davidmoten/text/utils/StringBuilder2.java:33-35 | below `length`, the character of the text at that index; the array is read without a check against `length` |
| Buffer.StringBuilder2.Substring | src/main/java/org/davidmoten/text/utils/StringBuilder2.java:72-74 | a copy of `end - start` characters of the array, which is the slice of the text when `end <= length` |
| Buffer.StringBuilder2.SubSequence | src/main/java/org/davidmoten/text/utils/StringBuilder2.java:38-42 | a new buffer over a new array that holds the same slice; this buffer is untouched |
| Buffer.StringBuilder2.CheckSize | src/main/java/org/davidmoten/text/utils/StringBuilder2.java:51-55 | (corrected) afterwards `len` more characters fit; the text is unchanged, and the array is replaced only when it lacked room |
| Buffer.StringBuilder2.Append | src/main/java/org/davidmoten/text/utils/StringBuilder2.java:44-49 | the text becomes the old text followed by the old text of `s`, also when `s` is this buffer; `s` is unchanged when it is another buffer |
| Buffer.StringBuilder2.AppendChar | src/main/java/org/davidmoten/text/utils/StringBuilder2.java:61-65 | the text becomes the old text followed by `ch`, and `length` grows by one |
| Buffer.StringBuilder2.SetLength | src/main/java/org/davidmoten/text/utils/StringBuilder2.java:57-59 | `length` becomes `n` over the same array; when `n` is not more than the old length the text is cut to its first `n` characters |
| Buffer.StringBuilder2.Delete | src/main/java/org/davidmoten/text/utils/StringBuilder2.java:67-70 | exactly the characters in `[start, end)` are removed, the rest keep their order, and `length` shrinks by `end - start` |
| Buffer.StringBuilder2.RightTrim | src/main/java/org/davidmoten/text/utils/StringBuilder2.java:86-96 | the text becomes its right trim, in place over the same array, and the buffer itself is returned |
| Buffer.RightTrimLeavesNoTrailingWhitespace | src/main/java/org/davidmoten/text/utils/StringBuilder2.java:86-96 | after `rightTrim` the text does not end in whitespace, and a second `rightTrim` changes nothing |
| ConcatView.CharSequenceConcat.Length | src/main/java/org/davidmoten/text/utils/CharSequenceConcat.java:14-16 | `|a| + |b|` |
| ConcatView.CharSequenceConcat.CharAt | src/main/java/org/davidmoten/text/utils/CharSequenceConcat.java:19-25 | the character at that index of `a ++ b` |
| ConcatView.CharSequenceConcat.ToString | src/main/java/org/davidmoten/text/utils/CharSequenceConcat.java:65-67 | exactly `a ++ b` |
| ConcatView.CharSequenceConcat.SubSequence | src/main/java/org/davidmoten/text/utils/CharSequenceConcat.java:28-62 | a view of length `end - start` whose `i`-th character is that of `a ++ b` at `start + i`; nothing is copied |
| ConcatView.ConcatSlice.CharAt | src/main/java/org/davidmoten/text/utils/CharSequenceConcat.java:37-39 | the character of the underlying view at `start + index` |
| ConcatView.ConcatSlice.SubSequence | src/main/java/org/davidmoten/text/utils/CharSequenceConcat.java:42-49 | a copy of the nested slice: the characters of `a ++ b` from `start + start2` to `start + end2` |
| ConcatView.ConcatSlice.ToString | src/main/java/org/davidmoten/text/utils/CharSequenceConcat.java:52-59 | the characters of `a ++ b` from `start` to `end` |
| ConcatView.ConcatOfAbAndCd | src/test/java/org/davidmoten/text/utils/CharSequenceConcatTest.java:9-18 | the view over "ab" and "cd" has length 4, holds "abcd", and its character 3 is `d` |
| ConcatRightTrimView.LastKept | src/main/java/org/davidmoten/text/utils/CharSequenceConcatRightTrim.java:14-20 | the countdown stops at the last non-whitespace index at or below `i`, and never goes below index 0 |
| ConcatRightTrimView.TrimmedLength | src/main/java/org/davidmoten/text/utils/CharSequenceConcatRightTrim.java:14-20 | 0 for empty text; otherwise between 1 and the full length, with only whitespace after it; the full length when the last character is not whitespace |
| ConcatRightTrimView.TrimmedLengthAgainstRightTrim | src/main/java/org/davidmoten/text/utils/CharSequenceConcatRightTrim.java:14-20 | the view trims like a true right trim except on non-empty all-whitespace text, where it keeps one character |
| ConcatRightTrimView.CharSequenceConcatRightTrim.constructor | src/main/java/org/davidmoten/text/utils/CharSequenceConcatRightTrim.java:8-11 | the view holds the two buffers themselves, not copies |
| ConcatRightTrimView.CharSequenceConcatRightTrim.Text | src/main/java/org/davidmoten/text/utils/CharSequenceConcatRightTrim.java:23-29 | the characters the view reads: the current text of `a` followed by that of `b` |
| ConcatRightTrimView.CharSequenceConcatRightTrim.CharAt | src/main/java/org/davidmoten/text/utils/CharSequenceConcatRightTrim.java:23-29 | the character at that index of the buffers' current text `a ++ b` |
| ConcatRightTrimView.CharSequenceConcatRightTrim.LastKeptFrom | src/main/java/org/davidmoten/text/utils/CharSequenceConcatRightTrim.java:14-20 | the countdown through `charAt` finds `LastKept` of the current text |
| ConcatRightTrimView.CharSequenceConcatRightTrim.Length | src/main/java/org/davidmoten/text/utils/CharSequenceConcatRightTrim.java:14-20 | the trimmed length of the buffers' current text, worked out again on each call |
| ConcatRightTrimView.CharSequenceConcatRightTrim.ToString | src/main/java/org/davidmoten/text/utils/CharSequenceConcatRightTrim.java:69-76 | the first `length()` characters of the current text |
| ConcatRightTrimView.CharSequenceConcatRightTrim.SubSequence | src/main/java/org/davidmoten/text/utils/CharSequenceConcatRightTrim.java:32-66 | a new slice over this view of length `end - start`, reading through the view |
| ConcatRightTrimView.ConcatRightTrimSlice.constructor | src/main/java/org/davidmoten/text/utils/CharSequenceConcatRightTrim.java:32-40 | the slice refers to the view and its bounds |
| ConcatRightTrimView.ConcatRightTrimSlice.CharAt | src/main/java/org/davidmoten/text/utils/CharSequenceConcatRightTrim.java:41-43 | the view's character at `start + index` |
| ConcatRightTrimView.ConcatRightTrimSlice.SubSequence | src/main/java/org/davidmoten/text/utils/CharSequenceConcatRightTrim.java:46-53 | a copy of the view's characters from `start + start2` to `start + end2` |
| ConcatRightTrimView.ConcatRightTrimSlice.ToString | src/main/java/org/davidmoten/text/utils/CharSequenceConcatRightTrim.java:56-63 | the view's characters from `start` to `end` |
| ConcatRightTrimView.TrimmedLengthOfAbCd | src/test/java/org/davidmoten/text/utils/CharSequenceConcatRighTrimTest.java:20-24 | the view over "ab " and "cd  " has length 5 and shows "ab cd" |
| SequenceReader.CharSequenceReader.constructor | src/main/java/org/davidmoten/text/utils/CharSequenceReader.java:35-37 | a reader opens at position 0 with mark 0 |
| SequenceReader.CharSequenceReader.CheckOpen | src/main/java/org/davidmoten/text/utils/CharSequenceReader.java:39-43 | fails with "reader closed" exactly when the reader is closed |
| SequenceReader.CharSequenceReader.Remaining | src/main/java/org/davidmoten/text/utils/CharSequenceReader.java:49-51 | the number of characters between the position and the end |
| SequenceReader.CharSequenceReader.Read | src/main/java/org/davidmoten/text/utils/CharSequenceReader.java:68-71 | the next character and one step on; -1 and no move at the end; "reader closed" after `close` |
| SequenceReader.CharSequenceReader.ReadInto | src/main/java/org/davidmoten/text/utils/CharSequenceReader.java:74-87 | bad bounds fail first; then a closed reader fails; -1 at the end; otherwise `k = min(len, remaining)` characters are copied into `cbuf[off..off+k)`, the position moves by `k` and `k` is returned |
| SequenceReader.CharSequenceReader.Skip | src/main/java/org/davidmoten/text/utils/CharSequenceReader.java:90-96 | a negative count fails before the open check; otherwise the position moves by `min(remaining, n)`, which is returned |
| SequenceReader.CharSequenceReader.Ready | src/main/java/org/davidmoten/text/utils/CharSequenceReader.java:99-102 | true while open, "reader closed" after `close` |
| SequenceReader.CharSequenceReader.Mark | src/main/java/org/davidmoten/text/utils/CharSequenceReader.java:110-114 | a negative limit fails; otherwise `mark` becomes the position; the position never changes |
| SequenceReader.CharSequenceReader.Reset | src/main/java/org/davidmoten/text/utils/CharSequenceReader.java:117-120 | the position returns to `mark`; "reader closed" after `close` |
| SequenceReader.CharSequenceReader.Close | src/main/java/org/davidmoten/text/utils/CharSequenceReader.java:123-125 | the reader is closed, and position and mark stay within bounds |
| WrapState.GrownWord | src/main/java/org/davidmoten/text/utils/WordWrap.java:398-401 | the word after a word character: never empty, left-trimmed when it starts a line after a break |
| WrapState.Commit | src/main/java/org/davidmoten/text/utils/WordWrap.java:424-429 | a word that is not blank moves into the line and the word empties; `line ++ word` is unchanged unless a break trimmed it |
| WrapState.Consumed | src/main/java/org/davidmoten/text/utils/WordWrap.java:366-458 | everything the state holds, output first, then line and word: `out ++ line ++ word` |
| WrapState.KeptOfThree | src/main/java/org/davidmoten/text/utils/WordWrap.java:366-458 | (proof step) visible text of three parts |
| WrapState.KeptReplaced | src/main/java/org/davidmoten/text/utils/WordWrap.java:366-458 | (proof step) replacing a part by one with the same visible text |
| WrapState.KeptInserted | src/main/java/org/davidmoten/text/utils/WordWrap.java:366-458 | (proof step) inserting an invisible part |
| WrapState.KeptOfLineBreak | src/main/java/org/davidmoten/text/utils/WordWrap.java:383-396 | `'\n'` and `'\r'` are not visible |
| WrapState.CommitThenAppendKeepsText | src/main/java/org/davidmoten/text/utils/WordWrap.java:424-430 | committing and then appending a character keeps the visible text |
| WrapState.GrownWordKeepsText | src/main/java/org/davidmoten/text/utils/WordWrap.java:398-401 | growing the word keeps the visible text of everything read so far |
| WrapState.CommitKeepsText | src/main/java/org/davidmoten/text/utils/WordWrap.java:424-429 | committing the word keeps the visible text of `line ++ word` |
| WordWrapEngine.DefaultWidth | src/main/java/org/davidmoten/text/utils/WordWrap.java:34 | `STRING_WIDTH_DEFAULT`: the number of characters |
| WordWrapEngine.IsWordChar | src/main/java/org/davidmoten/text/utils/WordWrap.java:382 | a letter or one of the extra word characters |
| WordWrapEngine.TooLong | src/main/java/org/davidmoten/text/utils/WordWrap.java:468-471 | the width is more than the maximum |
| WordWrapEngine.HyphenBreak | src/main/java/org/davidmoten/text/utils/WordWrap.java:530 | `writeBrokenWord` hyphenates when hyphens are on, the word is longer than 2 and all but its last two characters are not blank |
| WordWrapEngine.NewlineStep | src/main/java/org/davidmoten/text/utils/WordWrap.java:383-394 | the `'\n'` branch; what it writes is stated by `NewlineFlushesLine` and its effect on visible text by `NewlineStepKeepsText` |
| WordWrapEngine.WordCharStep | src/main/java/org/davidmoten/text/utils/WordWrap.java:397-422 | the word-character branch; its four overflow cases are pinned down by `WordWrapLoop.WordCharFlushBreak` … `WordCharOverflow` and `WordCharStepKeepsText` |
| WordWrapEngine.Throws | src/main/java/org/davidmoten/text/utils/WordWrap.java:431-433 | the condition of `checkArgument`; stated exactly by `ThrowsExactly` and `ThrowsOnlyOnBlankWord` |
| WordWrapEngine.OtherStep | src/main/java/org/davidmoten/text/utils/WordWrap.java:423-441 | the non-word branch without the check; described by `OtherFits`, `OtherFlush`, `OtherClear` and `OtherStepKeepsText` |
| WordWrapEngine.Step | src/main/java/org/davidmoten/text/utils/WordWrap.java:381-442 | one pass of the loop body, then the update of `previousWasPunctuation`; `StepKeepsText` and `StepWhenFits` are its partners |
| WordWrapEngine.Run | src/main/java/org/davidmoten/text/utils/WordWrap.java:376-443 | the loop, folding `Step` over the input from the left (`RunSnoc`) |
| WordWrapEngine.AppendsWord | src/main/java/org/davidmoten/text/utils/WordWrap.java:383-425 | the character makes the loop append the word to the line: every `'\n'`, and a non-word character after a word that is not blank |
| WordWrapEngine.NextCapacity | src/main/java/org/davidmoten/text/utils/WordWrap.java:369-425 | the line buffer's capacity never shrinks, and changes only when the word is appended |
| WordWrapEngine.Overflows | src/main/java/org/davidmoten/text/utils/StringBuilder2.java:44-55 | the append of the word overruns the line buffer: `|line| + |word|` exceeds twice its capacity |
| WordWrapEngine.RunChecked | src/main/java/org/davidmoten/text/utils/WordWrap.java:366-443 | a successful run reports a capacity of at least 16; it fails on the first overrun or failed check (`RunCheckedSnoc`) and stays failed (`FailureSticks`) |
| WordWrapEngine.Finish | src/main/java/org/davidmoten/text/utils/WordWrap.java:444-457 | the flush at the end of input; `FinishKeepsText` and `FinishUnbroken` state what it writes |
| WordWrapEngine.Wrap | src/main/java/org/davidmoten/text/utils/WordWrap.java:366-458 | the engine with the corrected buffer and without the check; `WrapKeepsText`, `WrapInsertsOnlyHyphens` and `WrapWhenFits` are its partners |
| WordWrapEngine.WrapAsWritten | src/main/java/org/davidmoten/text/utils/WordWrap.java:366-458 | the engine as written: the exception of `RunChecked`, or the output of `Wrap` (`WrapAsWrittenAgrees`) |
| WordWrapEngine.Probe | src/main/java/org/davidmoten/text/utils/WordWrap.java:371 | what the live view measures: a prefix of `line ++ word` with only whitespace after it, at least one character long when the text is not empty |
| WordWrapEngine.BrokenWord | src/main/java/org/davidmoten/text/utils/WordWrap.java:525-543 | with a hyphen: all but the last two characters, then "-" and a newline, keeping the last two; otherwise all but the last character (dropped when blank), then a newline, keeping the last one |
| WordWrapProperties.HyphenBreakKeepsText | src/main/java/org/davidmoten/text/utils/WordWrap.java:530-534 | a hyphenated break keeps the visible text, hyphens aside |
| WordWrapProperties.PlainBreakKeepsText | src/main/java/org/davidmoten/text/utils/WordWrap.java:535-542 | a break without a hyphen keeps the visible text |
| WordWrapProperties.BrokenWordKeepsText | src/main/java/org/davidmoten/text/utils/WordWrap.java:525-543 | `writeBrokenWord` keeps the visible text |
| WordWrapProperties.NewlineStepKeepsText | src/main/java/org/davidmoten/text/utils/WordWrap.java:383-394 | the `'\n'` branch keeps the visible text |
| WordWrapProperties.WordCharFlushBreakState | src/main/java/org/davidmoten/text/utils/WordWrap.java:403-408 | the state after a word overflow that flushes the line and then breaks the word |
| WordWrapProperties.WordCharFlushBreakKeepsText | src/main/java/org/davidmoten/text/utils/WordWrap.java:403-408 | that branch keeps the visible text |
| WordWrapProperties.WordCharFlushState | src/main/java/org/davidmoten/text/utils/WordWrap.java:403-414 | the state after a word overflow that flushes the line and sets `broken` |
| WordWrapProperties.WordCharFlushKeepsText | src/main/java/org/davidmoten/text/utils/WordWrap.java:403-414 | that branch keeps the visible text |
| WordWrapProperties.WordCharBreakState | src/main/java/org/davidmoten/text/utils/WordWrap.java:415-421 | the state after a word overflow on an empty line |
| WordWrapProperties.WordCharBreakKeepsText | src/main/java/org/davidmoten/text/utils/WordWrap.java:415-421 | that branch keeps the visible text |
| WordWrapProperties.WordCharStepKeepsText | src/main/java/org/davidmoten/text/utils/WordWrap.java:397-422 | the word-character branch keeps the visible text |
| WordWrapProperties.OtherFitsConsumed | src/main/java/org/davidmoten/text/utils/WordWrap.java:423-431 | with no overflow, the other branch only commits and appends |
| WordWrapProperties.OtherFlushConsumed | src/main/java/org/davidmoten/text/utils/WordWrap.java:434-435 | an overflow writes the line, when it is not blank, and a newline |
| WordWrapProperties.OtherClearConsumed | src/main/java/org/davidmoten/text/utils/WordWrap.java:436-439 | after the flush the line is empty and `broken` is set |
| WordWrapProperties.OtherStepKeepsText | src/main/java/org/davidmoten/text/utils/WordWrap.java:423-441 | the non-word branch keeps the visible text |
| WordWrapProperties.StepKeepsText | src/main/java/org/davidmoten/text/utils/WordWrap.java:381-442 | one character keeps the visible text of everything read |
| WordWrapProperties.RunKeepsText | src/main/java/org/davidmoten/text/utils/WordWrap.java:376-443 | the whole loop keeps the visible text |
| WordWrapProperties.FinishLineKeepsText | src/main/java/org/davidmoten/text/utils/WordWrap.java:444-449 | the final flush of a line keeps the visible text |
| WordWrapProperties.FinishWordKeepsText | src/main/java/org/davidmoten/text/utils/WordWrap.java:450-457 | the final flush of a lone word keeps the visible text |
| WordWrapProperties.FinishKeepsText | src/main/java/org/davidmoten/text/utils/WordWrap.java:444-457 | the final flush keeps the visible text |
| WordWrapProperties.WrapKeepsText | src/main/java/org/davidmoten/text/utils/WordWrap.java:366-458 | wrapping never adds, loses or reorders a visible character, for any width function and newline without visible characters; with hyphens on, this compares texts with all hyphens erased |
| WordWrapProperties.BrokenWordHyphenates | src/main/java/org/davidmoten/text/utils/WordWrap.java:525-543 | `writeBrokenWord` adds at most one `-` to the visible text, hyphens included, and nothing else |
| WordWrapProperties.HyphenatedAfter | src/main/java/org/davidmoten/text/utils/WordWrap.java:366-458 | (proof step) a common prefix keeps an insertion of hyphens |
| WordWrapProperties.HyphenatedAfterBlank | src/main/java/org/davidmoten/text/utils/WordWrap.java:366-458 | (proof step) as `HyphenatedAfter`, with an invisible part inserted before the changed one |
| WordWrapProperties.TrimmedBreakHyphenates | src/main/java/org/davidmoten/text/utils/WordWrap.java:404-408 | left-trimming and then breaking the word only inserts hyphens into its visible text |
| WordWrapProperties.WordCharFlushBreakHyphenates | src/main/java/org/davidmoten/text/utils/WordWrap.java:403-408 | the flush-and-break branch only inserts hyphens |
| WordWrapProperties.WordCharBreakHyphenates | src/main/java/org/davidmoten/text/utils/WordWrap.java:415-418 | the break on an empty line only inserts hyphens |
| WordWrapProperties.WordCharStepHyphenates | src/main/java/org/davidmoten/text/utils/WordWrap.java:397-422 | the word-character branch only inserts hyphens |
| WordWrapProperties.StepHyphenates | src/main/java/org/davidmoten/text/utils/WordWrap.java:381-442 | one character only inserts hyphens into the visible text, hyphens included |
| WordWrapProperties.RunHyphenates | src/main/java/org/davidmoten/text/utils/WordWrap.java:376-443 | the whole loop only inserts hyphens |
| WordWrapProperties.WrapInsertsOnlyHyphens | src/main/java/org/davidmoten/text/utils/WordWrap.java:366-458 | the output's visible text, hyphens included, is the input's with hyphens inserted, so no `-` of the input is lost and nothing else is added; without `insertHyphens` it is exactly the input's |
| WordWrapProperties.RunCheckedSnoc | src/main/java/org/davidmoten/text/utils/WordWrap.java:376-443 | each character first risks the overrun of the line buffer, then the check, and otherwise updates the capacity |
| WordWrapProperties.AppendSnoc | src/main/java/org/davidmoten/text/utils/WordWrap.java:376-443 | (proof step) splitting off the last character of an appended text |
| WordWrapProperties.FailureSticks | src/main/java/org/davidmoten/text/utils/WordWrap.java:432-433 | once the check fails, the rest of the input is never read |
| WordWrapProperties.WrapAsWrittenAgrees | src/main/java/org/davidmoten/text/utils/WordWrap.java:366-458 | when the code as written succeeds, its output is that of the engine without the check |
| WordWrapProperties.NewlineStepIsStep | src/main/java/org/davidmoten/text/utils/WordWrap.java:383-394 | a `'\n'` always takes the newline branch |
| WordWrapProperties.NewlineFlushesLine | src/main/java/org/davidmoten/text/utils/WordWrap.java:383-394 | a `'\n'` writes `line ++ word` (omitted when blank, right-trimmed only when too wide) and exactly one newline; both buffers end empty and `broken` false |
| WordWrapProperties.CarriageReturnIgnored | src/main/java/org/davidmoten/text/utils/WordWrap.java:395-396 | a `'\r'` writes nothing and changes no buffer |
| WordWrapProperties.AfterPunctuationNotWord | src/main/java/org/davidmoten/text/utils/WordWrap.java:397-442 | after ASCII punctuation that is not a word character, even a letter takes the non-word branch |
| WordWrapProperties.RunSnoc | src/main/java/org/davidmoten/text/utils/WordWrap.java:376-443 | the loop reads the input left to right, one step per character |
| WordWrapProperties.CommitEmptyLine | src/main/java/org/davidmoten/text/utils/WordWrap.java:424-429 | the line is empty after the commit only when it was empty before and the word was blank |
| WordWrapProperties.ThrowsOnlyOnBlankWord | src/main/java/org/davidmoten/text/utils/WordWrap.java:431-433 | the check can fail only when the line is empty and the word before the new character is blank |
| WordWrapProperties.ThrowsExactly | src/main/java/org/davidmoten/text/utils/WordWrap.java:431-433 | with the default width the check fails exactly when the line is empty, the word is blank, and the view over the word and the new character is wider than the maximum |
| WordWrapProperties.ProbeOfSpaces | src/main/java/org/davidmoten/text/utils/CharSequenceConcatRightTrim.java:14-20 | the view over a run of spaces keeps one space |
| WordWrapProperties.BlankState | src/main/java/org/davidmoten/text/utils/WordWrap.java:424-429 | a word of spaces is never committed to the line |
| WordWrapProperties.BlankStep | src/main/java/org/davidmoten/text/utils/WordWrap.java:423-441 | one more space after a word of spaces passes the check, writes nothing and joins the word |
| WordWrapProperties.BlankRun | src/main/java/org/davidmoten/text/utils/WordWrap.java:376-443 | the loop as written reads `n` spaces without failing and without growing the line buffer, leaving the line empty and the spaces in the word |
| WordWrapProperties.BlankThenOverflow | src/main/java/org/davidmoten/text/utils/WordWrap.java:431-433 | a visible non-word character that overflows after spaces fails the check; without the check it joins the word and sets `broken` |
| WordWrapProperties.LeftTrimmedSpacesThen | src/main/java/org/davidmoten/text/utils/WordWrap.java:500-512 | spaces followed by a visible character left-trim to that character |
| WordWrapProperties.CheckFailsAfterBlankRun | src/main/java/org/davidmoten/text/utils/WordWrap.java:431-433 | spaces followed by a visible non-word character that overflows make the code as written throw; without the check the engine writes that character alone |
| WordWrapProperties.SixSpacesThenDigit | src/main/java/org/davidmoten/text/utils/WordWrap.java:431-433 | "      1" at width 6 makes the code as written throw "line length was zero"; without the check the output is "1" |
| WordWrapProperties.DefaultConfig | src/main/java/org/davidmoten/text/utils/WordWrap.java:136-148 | the configuration of a new `Builder` at a given width: the character count, "\n", the default word characters, hyphens and word breaking on |
| WordWrapProperties.LetterAfterLetters | src/main/java/org/davidmoten/text/utils/WordWrap.java:397-402 | with the default width, one more letter after letters that fit only grows the word, appends nothing and passes the check |
| WordWrapProperties.LetterAfterLettersRun | src/main/java/org/davidmoten/text/utils/WordWrap.java:376-443 | (proof step) the induction step of `LettersRun` |
| WordWrapProperties.LettersRun | src/main/java/org/davidmoten/text/utils/WordWrap.java:376-443 | letters up to the width stay in the word; the line buffer keeps its 16 characters |
| WordWrapProperties.SpaceAfterLetters | src/main/java/org/davidmoten/text/utils/WordWrap.java:423-429 | a space after a word of letters appends the word to the line and starts a blank word; the final flush writes both |
| WordWrapProperties.CommitOfWord | src/main/java/org/davidmoten/text/utils/WordWrap.java:424-429 | (proof step) a word that is not blank, alone in the state, is committed whole |
| WordWrapProperties.FinishOfLine | src/main/java/org/davidmoten/text/utils/WordWrap.java:444-449 | (proof step) the final flush of a line and a trailing space writes both |
| WordWrapProperties.ProbeOfTrailingSpace | src/main/java/org/davidmoten/text/utils/CharSequenceConcatRightTrim.java:14-20 | the view trims the space after a word |
| WordWrapProperties.LongWordThenSpace | src/main/java/org/davidmoten/text/utils/WordWrap.java:423-425 | a word of more than 32 letters, then a space: the loop as written stops with `ArrayIndexOutOfBoundsException` at the append |
| WordWrapProperties.WordThenSpace | src/main/java/org/davidmoten/text/utils/WordWrap.java:423-429 | the corrected loop moves the word to the line and keeps the space |
| WordWrapProperties.LongWordOverrunsLine | src/main/java/org/davidmoten/text/utils/WordWrap.java:520-523 | a word of more than 32 letters and a space, at a width they fit in, make the code as written throw; the corrected engine writes them unchanged |
| WordWrapProperties.ThirtyThreeLettersThenSpace | src/main/java/org/davidmoten/text/utils/WordWrap.java:520-523 | 33 letters and a space at width 80: the code as written throws `ArrayIndexOutOfBoundsException`, the corrected engine writes the input |
| WordWrapProperties.OtherFits | src/main/java/org/davidmoten/text/utils/WordWrap.java:431 | with no overflow a non-word character only commits the word and grows it |
| WordWrapProperties.Lines | src/main/java/org/davidmoten/text/utils/WordWrap.java:383-430 | the reference for text that needs no wrapping, finished lines and current line; the current line is no longer than the input |
| WordWrapProperties.Unwrapped | src/main/java/org/davidmoten/text/utils/WordWrap.java:383-430 | the reference output for text that needs no wrapping: `'\r'` dropped, each `'\n'` as the newline, blank lines written empty |
| WordWrapProperties.LongestLine | src/main/java/org/davidmoten/text/utils/WordWrap.java:383-430 | the length of the longest line: at least the current line, at most the whole input |
| WordWrapProperties.LongestLinePrefix | src/main/java/org/davidmoten/text/utils/WordWrap.java:383-430 | (proof step) the longest line of a prefix is no longer |
| WordWrapProperties.FitsBelow | src/main/java/org/davidmoten/text/utils/WordWrap.java:468-471 | (proof step) what fits at one length fits at every shorter one |
| WordWrapProperties.StepIsWordCharStep | src/main/java/org/davidmoten/text/utils/WordWrap.java:397 | (proof step) a word character not after punctuation takes the word branch |
| WordWrapProperties.StepIsOtherStep | src/main/java/org/davidmoten/text/utils/WordWrap.java:423 | (proof step) every other character but `'\n'` and `'\r'` takes the non-word branch |
| WordWrapProperties.WordCharStepWhenFits | src/main/java/org/davidmoten/text/utils/WordWrap.java:397-402 | while nothing overflows, a word character only grows the word |
| WordWrapProperties.OtherStepWhenFits | src/main/java/org/davidmoten/text/utils/WordWrap.java:423-431 | while nothing overflows, a non-word character only commits and appends |
| WordWrapProperties.NewlineWhenFits | src/main/java/org/davidmoten/text/utils/WordWrap.java:383-394 | without a break, a `'\n'` writes the line as it is, or nothing when it is blank, then a newline |
| WordWrapProperties.WordCharWhenFits | src/main/java/org/davidmoten/text/utils/WordWrap.java:397-402 | the engine keeps tracking the reference `Lines` after a word character |
| WordWrapProperties.OtherWhenFits | src/main/java/org/davidmoten/text/utils/WordWrap.java:423-441 | the engine keeps tracking the reference `Lines` after a non-word character |
| WordWrapProperties.StepWhenFits | src/main/java/org/davidmoten/text/utils/WordWrap.java:381-442 | while the line before and after the character fits, one character keeps the engine in step with the reference and the check passes |
| WordWrapProperties.NoThrowWhenFits | src/main/java/org/davidmoten/text/utils/WordWrap.java:431-433 | the check passes while the line fits |
| WordWrapProperties.RunWhenFits | src/main/java/org/davidmoten/text/utils/WordWrap.java:376-443 | while no line is too wide, the whole loop stays in step with the reference |
| WordWrapProperties.ShortStep | src/main/java/org/davidmoten/text/utils/WordWrap.java:376-443 | (proof step) before the last character of such text the engine is in step, the line is short and the check passes |
| WordWrapProperties.NoOverrunWhenShort | src/main/java/org/davidmoten/text/utils/StringBuilder2.java:44-55 | a step from such a state neither overruns the line buffer nor fails the check |
| WordWrapProperties.RunCheckedWhenShort | src/main/java/org/davidmoten/text/utils/WordWrap.java:376-443 | the loop as written runs to the end when no line is too wide and none is longer than 32 characters |
| WordWrapProperties.FinishUnbroken | src/main/java/org/davidmoten/text/utils/WordWrap.java:444-457 | without a break the final flush writes `line ++ word`, or nothing when it is blank |
| WordWrapProperties.WrapWhenFits | src/main/java/org/davidmoten/text/utils/WordWrap.java:366-458 | text whose every line fits is written as `Unwrapped`: unchanged except for dropped `'\r'` and emptied blank lines; as written too when no line is longer than 32 characters |
| WordWrapProperties.ShortTextUnwrapped | src/main/java/org/davidmoten/text/utils/WordWrap.java:366-458 | with the default width, text whose lines are no longer than the maximum is not wrapped; as written only while no line is longer than 32 characters |
| WordWrapProperties.BlankStepStaysBlank | src/main/java/org/davidmoten/text/utils/WordWrap.java:423-441 | whitespace other than `'\n'` keeps a blank state blank |
| WordWrapProperties.BlankRunStaysBlank | src/main/java/org/davidmoten/text/utils/WordWrap.java:376-443 | a run of such whitespace leaves output and line empty, at any width |
| WordWrapProperties.BlankInputWritesNothing | src/main/java/org/davidmoten/text/utils/WordWrap.java:444-457 | whitespace without a line break wraps to nothing |
| WordWrapProperties.BlankWrapsToNothing | src/main/java/org/davidmoten/text/utils/WordWrap.java:366-458 | spaces alone wrap to nothing, also as written, whenever one space fits |
| WordWrapProperties.TenSpaces | src/test/java/org/davidmoten/text/utils/WordWrapTest.java:211-214 | ten spaces at width 6 wrap to "", as written |
| WordWrapProperties.BrokenWordExamples | src/main/java/org/davidmoten/text/utils/WordWrap.java:525-543 | `writeBrokenWord` on "helloth" gives "hello-" or "hellot" as in "hellothere"; a blank head is not written |
| WordWrapLoop.LeftTrim | src/main/java/org/davidmoten/text/utils/WordWrap.java:500-512 | the buffer's text becomes its left trim, over the same array |
| WordWrapLoop.LeftTrimString | src/main/java/org/davidmoten/text/utils/WordWrap.java:514-518 | the left trim of a string |
| WordWrapLoop.WriteLine | src/main/java/org/davidmoten/text/utils/WordWrap.java:545-549 | the line goes to the output, and then the newline |
| WordWrapLoop.AppendWordToLine | src/main/java/org/davidmoten/text/utils/WordWrap.java:520-523 | `ArrayIndexOutOfBoundsException` exactly when line and word exceed twice the line's capacity; otherwise the word moves to the end of the line and the word buffer empties; the capacity is `GrownCapacityAsWritten` |
| WordWrapLoop.WriteBrokenWord | src/main/java/org/davidmoten/text/utils/WordWrap.java:525-543 | the output gains the head of `BrokenWord` and the word buffer keeps its tail |
| WordWrapLoop.NewlineCase | src/main/java/org/davidmoten/text/utils/WordWrap.java:383-394 | `ArrayIndexOutOfBoundsException` exactly when the append at line 384 overruns the line buffer; otherwise the buffers and the output end as `NewlineStep` says |
| WordWrapLoop.FlushLine | src/main/java/org/davidmoten/text/utils/WordWrap.java:385-393 | the line, right-trimmed when too wide, goes out unless blank, then the newline; both buffers end empty over the same arrays |
| WordWrapLoop.GrowWord | src/main/java/org/davidmoten/text/utils/WordWrap.java:398-401 | the word buffer ends holding `GrownWord` |
| WordWrapLoop.WordCharFits | src/main/java/org/davidmoten/text/utils/WordWrap.java:402 | (proof step) with no overflow the step only grows the word |
| WordWrapLoop.WordCharFlushBreak | src/main/java/org/davidmoten/text/utils/WordWrap.java:403-408 | (proof step) the flush-and-break branch: the line and a newline, then the head of the broken word |
| WordWrapLoop.WordCharFlush | src/main/java/org/davidmoten/text/utils/WordWrap.java:403-414 | (proof step) the flush-only branch keeps the left-trimmed word and sets `broken` |
| WordWrapLoop.WordCharBreak | src/main/java/org/davidmoten/text/utils/WordWrap.java:415-418 | (proof step) the break on an empty line writes the head of the broken word |
| WordWrapLoop.WordCharOverflow | src/main/java/org/davidmoten/text/utils/WordWrap.java:419-420 | (proof step) without word breaking, an overflow on an empty line keeps the word and sets `broken` |
| WordWrapLoop.WordOverflow | src/main/java/org/davidmoten/text/utils/WordWrap.java:402-421 | the overflow branches on the buffers end as the engine's step says |
| WordWrapLoop.WordCharCase | src/main/java/org/davidmoten/text/utils/WordWrap.java:397-422 | the word-character branch on the buffers ends as the engine's step says |
| WordWrapLoop.ThrowsAt | src/main/java/org/davidmoten/text/utils/WordWrap.java:431-432 | (proof step) the loop's test through the view is the check's condition |
| WordWrapLoop.CommitWord | src/main/java/org/davidmoten/text/utils/WordWrap.java:424-429 | `ArrayIndexOutOfBoundsException` exactly when a word that is not blank overruns the line buffer; otherwise the buffers end holding `Commit` of the state |
| WordWrapLoop.GrowAfterCommit | src/main/java/org/davidmoten/text/utils/WordWrap.java:430-440 | after the commit: the check fails exactly when `Throws` holds, and otherwise the buffers end as `OtherStep` says |
| WordWrapLoop.OverflowsAt | src/main/java/org/davidmoten/text/utils/WordWrap.java:381-442 | which characters append the word, and that only a non-word character can fail the check |
| WordWrapLoop.OtherFlush | src/main/java/org/davidmoten/text/utils/WordWrap.java:434-435 | (proof step) the flush of a line that is not blank |
| WordWrapLoop.OtherClear | src/main/java/org/davidmoten/text/utils/WordWrap.java:436-439 | (proof step) the clearing of a blank line |
| WordWrapLoop.LineOverflow | src/main/java/org/davidmoten/text/utils/WordWrap.java:431-439 | the overflow branch fails exactly when the check does, and otherwise ends as the engine's step says |
| WordWrapLoop.OtherCase | src/main/java/org/davidmoten/text/utils/WordWrap.java:423-441 | `ArrayIndexOutOfBoundsException` exactly when the commit overruns the line buffer, else `IllegalArgumentException` exactly when the check fails, else the buffers end as `OtherStep` says with the capacity `NextCapacity` |
| WordWrapLoop.FinishCase | src/main/java/org/davidmoten/text/utils/WordWrap.java:444-457 | the output gains exactly what `Finish` writes |
| WordWrapLoop.Consume | src/main/java/org/davidmoten/text/utils/WordWrap.java:381-442 | one pass of the loop body: the overrun, then the check, exactly as `RunChecked` orders them; otherwise one `Step` with the capacity `NextCapacity` |
| WordWrapLoop.ConsumeChecked | src/main/java/org/davidmoten/text/utils/WordWrap.java:376-442 | one pass in terms of the text read so far: a failure is the result of `WrapAsWritten`, and otherwise `Run` and `RunChecked` of one more character describe the buffers |
| WordWrapLoop.CheckedStep | src/main/java/org/davidmoten/text/utils/WordWrap.java:376-443 | (proof step) one more character extends `Run` and `RunChecked` as the loop body does, and a failure ends the wrap |
| WordWrapLoop.FailureEnds | src/main/java/org/davidmoten/text/utils/WordWrap.java:376-443 | a failure of the run so far is the failure of the whole wrap |
| WordWrapLoop.FinishEnds | src/main/java/org/davidmoten/text/utils/WordWrap.java:377-379 | at the end of input, the wrap succeeds with `Finish` of the run |
| WordWrapLoop.SliceSnoc | src/main/java/org/davidmoten/text/utils/WordWrap.java:376-380 | (proof step) reading one character extends the slice read so far |
| WordWrapLoop.SliceSplit | src/main/java/org/davidmoten/text/utils/WordWrap.java:376-380 | (proof step) what is read and what is left make up the text |
| WordWrapLoop.WordWrap | src/main/java/org/davidmoten/text/utils/WordWrap.java:366-458 | the loop over the reader returns `WrapAsWritten` of the text left in it, including `ArrayIndexOutOfBoundsException` on an overrun and `IllegalArgumentException` from the check; a closed reader fails with "reader closed" |
| WrapBuilder.ToSet | src/main/java/org/davidmoten/text/utils/WordWrap.java:358-364 | a character is in the set exactly when it is in the string |
| WrapBuilder.Builder.constructor | src/main/java/org/davidmoten/text/utils/WordWrap.java:136-148 | the defaults: width 80, the character count as string width, the shared default word characters, "\n", hyphens and word breaking on |
| WrapBuilder.Builder.FromText | src/main/java/org/davidmoten/text/utils/WordWrap.java:82-84 | a builder over a new open reader on the text, which it closes after wrapping |
| WrapBuilder.Builder.MaxWidth | src/main/java/org/davidmoten/text/utils/WordWrap.java:161-165 | a width that is not positive is rejected and the old one kept; otherwise it is set; nothing else changes |
| WrapBuilder.Builder.StringWidth | src/main/java/org/davidmoten/text/utils/WordWrap.java:176-179 | sets the width function and nothing else |
| WrapBuilder.Builder.NewLine | src/main/java/org/davidmoten/text/utils/WordWrap.java:188-191 | sets the newline and nothing else |
| WrapBuilder.Builder.InsertHyphens | src/main/java/org/davidmoten/text/utils/WordWrap.java:251-254 | sets the hyphen flag and nothing else |
| WrapBuilder.Builder.BreakWords | src/main/java/org/davidmoten/text/utils/WordWrap.java:264-267 | sets the word-breaking flag and nothing else |
| WrapBuilder.Builder.ExtraWordChars | src/main/java/org/davidmoten/text/utils/WordWrap.java:201-204 | adopts the caller's set object itself |
| WrapBuilder.Builder.ExtraWordCharsOf | src/main/java/org/davidmoten/text/utils/WordWrap.java:214-216 | a new set of its own holding exactly the given characters |
| WrapBuilder.Builder.IncludeExtraWordChars | src/main/java/org/davidmoten/text/utils/WordWrap.java:225-229 | adds the characters to the set object the builder holds, in place |
| WrapBuilder.Builder.ExcludeExtraWordChars | src/main/java/org/davidmoten/text/utils/WordWrap.java:238-242 | removes the characters from the set object the builder holds, in place |
| WrapBuilder.Builder.IncludeExtraWordCharsOwn | src/main/java/org/davidmoten/text/utils/WordWrap.java:225-229 | (corrected) the builder gets a new set holding the old characters and the added ones |
| WrapBuilder.Builder.ExcludeExtraWordCharsOwn | src/main/java/org/davidmoten/text/utils/WordWrap.java:238-242 | (corrected) the builder gets a new set holding the old characters without the removed ones |
| WrapBuilder.Builder.Wrap | src/main/java/org/davidmoten/text/utils/WordWrap.java:338-345 | `WrapAsWritten` over what is left in the reader, with the current settings, exceptions included; the reader is closed afterwards when the builder owns it |
| WrapBuilder.IncludeReachesOtherBuilder | src/main/java/org/davidmoten/text/utils/WordWrap.java:225-229 | two builders sharing the default set: characters included through one become word characters of the other |
| WrapBuilder.IncludeOwnLeavesOtherBuilder | src/main/java/org/davidmoten/text/utils/WordWrap.java:225-229 | with the corrected include, the other builder's settings do not change |
| TextEngine.DefaultTextConfig | src/main/java/org/davidmoten/text/utils/Text.java:24-26 | `wordWrap(text, maxWidth)`: the character count as width and "\n" |
| TextEngine.IsWordChar | src/main/java/org/davidmoten/text/utils/Text.java:56-57 | an alphabetic character or one of `SPECIAL_WORD_CHARS` |
| TextEngine.TooLong | src/main/java/org/davidmoten/text/utils/Text.java:137-140 | the width of the right-trimmed text is more than the maximum |
| TextEngine.BrokenWord | src/main/java/org/davidmoten/text/utils/Text.java:194-199 | `writeBrokenWord`; stated by `TextWrapLoop.WriteBrokenWord` and `TextProperties.BrokenWordKeepsText` |
| TextEngine.NewlineStep | src/main/java/org/davidmoten/text/utils/Text.java:58-64 | the `'\n'` branch; stated by `NewlineWritesVerbatim` |
| TextEngine.WordCharStep | src/main/java/org/davidmoten/text/utils/Text.java:68-85 | the word branch; its cases are pinned down by `WordCharFits`, `WordCharFlushBreak`, `WordCharFlush` and `WordCharBreak` |
| TextEngine.OtherStep | src/main/java/org/davidmoten/text/utils/Text.java:86-115 | the non-word branch; described by `OtherFits`, `OtherFlush`, `OtherHead` and `OverflowWithEmptyLine` |
| TextEngine.Step | src/main/java/org/davidmoten/text/utils/Text.java:55-117 | one pass of the loop body; `StepKeepsText` and `StepWhenFits` are its partners |
| TextEngine.Run | src/main/java/org/davidmoten/text/utils/Text.java:50-118 | the loop, folding `Step` over the input from the left (`RunSnoc`) |
| TextEngine.Finish | src/main/java/org/davidmoten/text/utils/Text.java:119-130 | the flush at the end; `FinishKeepsText` states it |
| TextEngine.Wrap | src/main/java/org/davidmoten/text/utils/Text.java:42-131 | the whole engine; `WrapKeepsText` and `WrapWhenFits` are its partners, `TextWrapLoop.TextWordWrap` computes it |
| TextProperties.BrokenWordKeepsText | src/main/java/org/davidmoten/text/utils/Text.java:194-199 | `writeBrokenWord` keeps the visible text |
| TextProperties.NewlineStepKeepsText | src/main/java/org/davidmoten/text/utils/Text.java:58-64 | the `'\n'` branch keeps the visible text |
| TextProperties.WordCharFits | src/main/java/org/davidmoten/text/utils/Text.java:73 | (proof step) with no overflow a word character only grows the word |
| TextProperties.WordCharFlushBreak | src/main/java/org/davidmoten/text/utils/Text.java:74-78 | (proof step) the state after a word overflow that flushes the line and then breaks the word |
| TextProperties.WordCharFlush | src/main/java/org/davidmoten/text/utils/Text.java:74-81 | (proof step) the state after a word overflow that flushes the line and sets `broken` |
| TextProperties.WordCharBreak | src/main/java/org/davidmoten/text/utils/Text.java:82-84 | (proof step) the state after a word overflow on an empty line |
| TextProperties.WordCharFlushBreakKeepsText | src/main/java/org/davidmoten/text/utils/Text.java:74-78 | that branch keeps the visible text |
| TextProperties.WordCharFlushKeepsText | src/main/java/org/davidmoten/text/utils/Text.java:74-81 | that branch keeps the visible text |
| TextProperties.WordCharBreakKeepsText | src/main/java/org/davidmoten/text/utils/Text.java:82-84 | that branch keeps the visible text |
| TextProperties.WordCharStepKeepsText | src/main/java/org/davidmoten/text/utils/Text.java:68-85 | the word-character branch keeps the visible text |
| TextProperties.HeadKeepsText | src/main/java/org/davidmoten/text/utils/Text.java:103-107 | the head split off the word, left-trimmed after a break, keeps its visible text |
| TextProperties.OtherFlush | src/main/java/org/davidmoten/text/utils/Text.java:95-101 | (proof step) an overflow with a line writes the line unless it is blank, and sets `broken` |
| TextProperties.OtherHead | src/main/java/org/davidmoten/text/utils/Text.java:102-113 | (proof step) an overflow with an empty line writes the word's head on its own line unless it is empty (which also clears `broken`) and keeps the last character |
| TextProperties.OtherFits | src/main/java/org/davidmoten/text/utils/Text.java:94 | (proof step) with no overflow a non-word character only commits and appends |
| TextProperties.OtherFlushKeepsText | src/main/java/org/davidmoten/text/utils/Text.java:95-101 | the flush keeps the visible text |
| TextProperties.OtherClearKeepsText | src/main/java/org/davidmoten/text/utils/Text.java:95-101 | discarding a blank line keeps the visible text |
| TextProperties.OtherHeadKeepsText | src/main/java/org/davidmoten/text/utils/Text.java:102-113 | writing the head keeps the visible text |
| TextProperties.HeadLineKeepsText | src/main/java/org/davidmoten/text/utils/Text.java:102-113 | a head line with its newline keeps the visible text |
| TextProperties.OtherNoHeadKeepsText | src/main/java/org/davidmoten/text/utils/Text.java:102-113 | an empty head writes nothing and keeps the visible text |
| TextProperties.OtherStepKeepsText | src/main/java/org/davidmoten/text/utils/Text.java:86-115 | the non-word branch keeps the visible text |
| TextProperties.StepKeepsText | src/main/java/org/davidmoten/text/utils/Text.java:55-117 | one character keeps the visible text |
| TextProperties.RunKeepsText | src/main/java/org/davidmoten/text/utils/Text.java:50-118 | the whole loop keeps the visible text |
| TextProperties.FinishLineKeepsText | src/main/java/org/davidmoten/text/utils/Text.java:119-124 | the final flush of a line keeps the visible text |
| TextProperties.FinishWordKeepsText | src/main/java/org/davidmoten/text/utils/Text.java:125-130 | the final flush of a lone word keeps the visible text |
| TextProperties.FinishKeepsText | src/main/java/org/davidmoten/text/utils/Text.java:119-130 | the final flush keeps the visible text |
| TextProperties.WrapKeepsText | src/main/java/org/davidmoten/text/utils/Text.java:42-131 | wrapping never adds, loses or reorders a visible character |
| TextProperties.NewlineWritesVerbatim | src/main/java/org/davidmoten/text/utils/Text.java:58-64 | a `'\n'` writes `line ++ word` verbatim and one newline, then clears both buffers and `broken` |
| TextProperties.CarriageReturnIgnored | src/main/java/org/davidmoten/text/utils/Text.java:65-66 | a `'\r'` writes nothing and changes no buffer |
| TextProperties.AfterPunctuationNotWord | src/main/java/org/davidmoten/text/utils/Text.java:117 | after ASCII punctuation outside the word characters, even a letter takes the non-word branch |
| TextProperties.OverflowWithEmptyLine | src/main/java/org/davidmoten/text/utils/Text.java:102-113 | a non-word character overflowing an empty line splits off the head and keeps only itself in the word |
| TextProperties.Lines | src/main/java/org/davidmoten/text/utils/Text.java:55-117 | the reference for text that needs no wrapping; the current line is no longer than the input |
| TextProperties.Unwrapped | src/main/java/org/davidmoten/text/utils/Text.java:55-117 | the reference output for text that needs no wrapping: `'\r'` dropped and each `'\n'` as the newline |
| TextProperties.LongestLine | src/main/java/org/davidmoten/text/utils/Text.java:55-117 | the length of the longest line: at least the current line, at most the whole input |
| TextProperties.StepIsWordCharStep | src/main/java/org/davidmoten/text/utils/Text.java:68 | (proof step) a word character not after punctuation takes the word branch |
| TextProperties.StepIsOtherStep | src/main/java/org/davidmoten/text/utils/Text.java:86 | (proof step) every other character but `'\n'` and `'\r'` takes the non-word branch |
| TextProperties.GrowTracks | src/main/java/org/davidmoten/text/utils/Text.java:73 | (proof step) a character added to the word is added to the current line |
| TextProperties.FitsAt | src/main/java/org/davidmoten/text/utils/Text.java:137-140 | (proof step) one string that fits |
| TextProperties.CommitThenAppend | src/main/java/org/davidmoten/text/utils/Text.java:87-93 | (proof step) committing the word moves no character between the line and the word |
| TextProperties.WordCharStepWhenFits | src/main/java/org/davidmoten/text/utils/Text.java:68-73 | while nothing overflows, a word character only grows the word |
| TextProperties.OtherStepWhenFits | src/main/java/org/davidmoten/text/utils/Text.java:86-94 | while nothing overflows, a non-word character only commits and appends |
| TextProperties.NewlineWhenFits | src/main/java/org/davidmoten/text/utils/Text.java:58-64 | without a break, a `'\n'` writes the line as it is and a newline |
| TextProperties.WordCharWhenFits | src/main/java/org/davidmoten/text/utils/Text.java:68-85 | the engine keeps tracking the reference `Lines` after a word character |
| TextProperties.OtherWhenFits | src/main/java/org/davidmoten/text/utils/Text.java:86-115 | the engine keeps tracking the reference `Lines` after a non-word character |
| TextProperties.StepWhenFits | src/main/java/org/davidmoten/text/utils/Text.java:55-117 | while the line it grows fits, one character keeps the engine in step with the reference |
| TextProperties.RunWhenFits | src/main/java/org/davidmoten/text/utils/Text.java:50-118 | while no line is too wide, the whole loop stays in step with the reference |
| TextProperties.WrapWhenFits | src/main/java/org/davidmoten/text/utils/Text.java:42-131 | text whose every line fits comes out as `Unwrapped`: unchanged except for dropped `'\r'` and each `'\n'` as the newline |
| TextProperties.ShortTextUnwrapped | src/main/java/org/davidmoten/text/utils/Text.java:24-26 | with the default width, text whose lines are no longer than the maximum is not wrapped |
| TextProperties.SpaceStep | src/main/java/org/davidmoten/text/utils/Text.java:86-94 | with the default width, one more space after a word of spaces joins the word and writes nothing, at any width |
| TextProperties.SpacesRun | src/main/java/org/davidmoten/text/utils/Text.java:50-118 | with the default width, a run of spaces writes nothing and stays in the word, since its right trim is empty |
| TextProperties.SpacesThenOverflow | src/main/java/org/davidmoten/text/utils/Text.java:102-113 | `n` spaces and a visible non-word character at width `n` come out as the spaces, a newline and the character; this engine does not fail where `WordWrap` does |
| TextProperties.SpaceStepOther | src/main/java/org/davidmoten/text/utils/Text.java:86-94 | (proof step) the non-word branch on a space after spaces |
| TextProperties.RunSnoc | src/main/java/org/davidmoten/text/utils/Text.java:50-118 | the loop reads the input left to right, one step per character |
| TextProperties.LetterStep | src/main/java/org/davidmoten/text/utils/Text.java:68-73 | a letter that fits is added to the word |
| TextProperties.LetterGrowsWord | src/main/java/org/davidmoten/text/utils/Text.java:68-73 | (proof step) a letter that fits only grows the word |
| TextProperties.LetterAfterLetters | src/main/java/org/davidmoten/text/utils/Text.java:50-118 | (proof step) the induction step of `LettersRun` |
| TextProperties.LettersRun | src/main/java/org/davidmoten/text/utils/Text.java:50-118 | letters up to the width make up one word |
| TextProperties.LetterAfterBreakStep | src/main/java/org/davidmoten/text/utils/Text.java:68-73 | after a break, a letter that fits is added to the word |
| TextProperties.LeftTrimmedFromLetter | src/main/java/org/davidmoten/text/utils/Text.java:168-181 | a word that starts with a letter has nothing to left-trim |
| TextProperties.AppendSnoc | src/main/java/org/davidmoten/text/utils/Text.java:50-118 | (proof step) splitting off the last character of an appended text |
| TextProperties.LettersAfterBreak | src/main/java/org/davidmoten/text/utils/Text.java:68-73 | after a break, letters that fit go on growing the word |
| TextProperties.RightTrimmedDropsSpace | src/main/java/org/davidmoten/text/utils/Text.java:137-140 | a trailing space does not count towards the width |
| TextProperties.SpaceAfterWordOther | src/main/java/org/davidmoten/text/utils/Text.java:86-94 | (proof step) the non-word branch on a space after a word |
| TextProperties.SpaceAfterWord | src/main/java/org/davidmoten/text/utils/Text.java:86-94 | a space ends a word: the word moves into the line and the space starts the next word |
| TextProperties.LetterBreaksLineWordChar | src/main/java/org/davidmoten/text/utils/Text.java:73-81 | (proof step) the word branch on a letter that does not fit after a line |
| TextProperties.LetterBreaksLine | src/main/java/org/davidmoten/text/utils/Text.java:73-81 | a letter that makes the line too wide sends the line out and starts a new one |
| TextProperties.TwoWordsOnTwoLines | src/main/java/org/davidmoten/text/utils/Text.java:42-131 | two words that fit only on lines of their own come out separated by the newline |
| TextProperties.SplitAtFirst | src/main/java/org/davidmoten/text/utils/Text.java:42-131 | (proof step) splitting off the first character of the second word |
| TextProperties.HelloThereParts | src/test/java/org/davidmoten/text/utils/TextTest.java:9-14 | (proof step) "hello there" is two words of five letters around a space |
| TextProperties.HelloThereOf | src/test/java/org/davidmoten/text/utils/TextTest.java:9-14 | `wordWrap("hello there", 6)` is "hello\nthere" |
| TextWrapLoop.LeftTrim | src/main/java/org/davidmoten/text/utils/Text.java:168-181 | the left trim of the word |
| TextWrapLoop.IsTooLong | src/main/java/org/davidmoten/text/utils/Text.java:137-140 | whether the right-trimmed text is wider than the maximum |
| TextWrapLoop.WriteBrokenWord | src/main/java/org/davidmoten/text/utils/Text.java:194-199 | the output gains all but the last character and a newline; the word keeps the last character |
| TextWrapLoop.WordCharCase | src/main/java/org/davidmoten/text/utils/Text.java:68-85 | the word-character branch ends as the engine's step says |
| TextWrapLoop.CommitWord | src/main/java/org/davidmoten/text/utils/Text.java:87-92 | line and word end as `Commit` says |
| TextWrapLoop.FlushLine | src/main/java/org/davidmoten/text/utils/Text.java:95-101 | the line goes out with a newline unless it is blank |
| TextWrapLoop.WriteHead | src/main/java/org/davidmoten/text/utils/Text.java:102-113 | the head, left-trimmed after a break, goes out with a newline unless it is empty; the word keeps its last character; `broken` clears when something was written |
| TextWrapLoop.OtherCase | src/main/java/org/davidmoten/text/utils/Text.java:86-115 | the non-word branch ends as the engine's step says |
| TextWrapLoop.Consume | src/main/java/org/davidmoten/text/utils/Text.java:55-117 | one pass of the loop body is one step of the engine |
| TextWrapLoop.FinishCase | src/main/java/org/davidmoten/text/utils/Text.java:119-130 | the output gains exactly what `Finish` writes |
| TextWrapLoop.TextWordWrap | src/main/java/org/davidmoten/text/utils/Text.java:42-131 | the loop over the text returns the engine's `Wrap` |

## Left out

- The source and sink plumbing is not part of this model, because it is I/O and resource handling. The input is a `CharSequenceReader` over a string, or a string, and the output is a string that only grows. This covers:
  - the `from(...)`, `fromClasspath` and `fromUtf8` factories;
  - the `BufferedReader` wrapping;
  - `Builder.wrap(Writer)`, `wrap(File)` and `wrap(String)`;
  - `close(Reader)`;
  - the wrapping of `IOException` in `IORuntimeException`.
- Floating point is not modelled. `maxWidth` and the string width are integers, and the width function is a parameter; its default is the character count.
- `Character.isLetter` and `Character.isAlphabetic` are approximated by the ASCII letters. `Character.isWhitespace` and `\p{Punct}` are written out in full.
- `synchronized` has no counterpart, because the model is sequential.
- Characters are Unicode scalar values, while Java reads UTF-16 code units (`WordWrap.java:381`, `Text.java:55`). A character outside the Basic Multilingual Plane is one character here and two units in Java. So `WordWrapEngine.DefaultWidth` gives it width 1 where `s.length()` gives 2, and the surrogate pair that `writeBrokenWord` can split in Java cannot be represented.
- `CharSequenceReader.read(CharBuffer)` is left out, because it depends on the NIO buffer API.
- `LineConsumer`, `IORuntimeException` and `Benchmarks` have no logic to model.
- `Text.wordWrap(Reader, Writer, ...)` uses `java.lang.StringBuilder`, `StringReader` and `StringWriter`. They are modelled as string values, an index into the text, and an output string.
- The static `SPECIAL_WORD_CHARS_SET_DEFAULT` is the `CharSet` object passed to `WrapBuilder.Builder.constructor`. This lets two builders share it, as they do in Java.
- WrapBuilder.Builder.MaxWidth: `checkArgument`'s null message is modelled as the empty string.
- SequenceReader.CharSequenceReader.ReadInto: `off + len` is unbounded here, so Java's `int` overflow in that sum is not modelled.
- Buffer.StringBuilder2.Delete: it requires `0 <= start <= end <= length`. Outside that range `System.arraycopy` throws or corrupts the fill length, and that is not modelled.
- Buffer.StringBuilder2.SetLength: it requires `n <= chars.length`. The source does no check, and a larger `n` would break the buffer's invariant.
- Buffer.StringBuilder2.Substring and Buffer.StringBuilder2.SubSequence: they require `end <= chars.length`. Beyond it the `String` constructor throws.
- Buffer.StringBuilder2.Append and Buffer.StringBuilder2.AppendChar grow the array with the corrected `checkSize` (see Findings). The as-written growth is `Buffer.StringBuilder2.CheckSizeAsWritten`, and `Buffer.StringBuilder2.AppendAsWritten` is the append as written, which the `WordWrap` loop uses. `AppendChar` as written fails only on a buffer of capacity 0, which the loop never has: its buffers start with 16 characters.
- WordWrapProperties.WrapKeepsText compares texts through `Kept`: whitespace is erased, and with `insertHyphens` on every `-` is erased, not only inserted ones. `WordWrapProperties.WrapInsertsOnlyHyphens` closes that gap: with hyphens counted, the output's visible text is the input's with hyphens inserted. Where a layout is fixed, it is stated exactly instead:
  - `WordWrapProperties.WrapWhenFits` and `TextProperties.WrapWhenFits`;
  - `TextProperties.TwoWordsOnTwoLines`;
  - the branch lemmas.
- No general bound on line width is proved, because the code does not keep one. A `'\n'` after a forced break does not left-trim, and the final fragment is written verbatim.
- The engine functions (`Step`, `Run`, `NewlineStep`, `WordCharStep`, `OtherStep`, `Finish` and `Wrap` of both engines, and `WordWrapEngine.WrapAsWritten`), `TextEngine.BrokenWord`, `SequenceReader.CharSequenceReader.MarkSupported` and `ConcatRightTrimView.LiveView` carry no `ensures` of their own. Their rows name the lemmas and methods that state what they do. `LiveView` exercises the view over buffers that change.

## Findings

| source | as written | input that shows it | evidently intended | confidence | as-written member | corrected member |
|---|---|---|---|---|---|---|
| src/main/java/org/davidmoten/text/utils/WordWrap.java:431-433 | a non-word character that overflows is asserted to find a non-empty `line`, and `checkArgument` throws otherwise | `"      1"` at width 6: six spaces stay in `word`, then the digit overflows the view with `line` empty | no exception; the line-length check should never fire, and the digit is written (output "1") | not executed | WordWrapProperties.SixSpacesThenDigit | WordWrapProperties.CheckFailsAfterBlankRun |
| src/main/java/org/davidmoten/text/utils/StringBuilder2.java:51-55 | `checkSize` doubles the array once, whatever `len` is | 33 letters then a space at width 80: the space appends the 33-letter word to the fresh 16-character line buffer, which doubles only to 32 (`WordWrap.java:369, 424-425, 520-523`) | the array grows until `length + len` fits, and the input is written unchanged | not executed | WordWrapProperties.ThirtyThreeLettersThenSpace | Buffer.StringBuilder2.CheckSize |
| src/main/java/org/davidmoten/text/utils/WordWrap.java:225-242 | `include`/`exclude` change the set object in place, and by default that is the shared static set | two builders with the defaults: `includeExtraWordChars("1")` on one makes `1` a word character of the other | each builder changes only its own set | not executed | WrapBuilder.IncludeReachesOtherBuilder | WrapBuilder.IncludeOwnLeavesOtherBuilder |
