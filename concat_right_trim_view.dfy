/**
 * `CharSequenceConcatRightTrim`: a live view of two buffers, one after the other, whose length
 * leaves out trailing whitespace. The wrapping engine creates one over its `line` and `word`
 * buffers and asks it again after every change.
 */
module ConcatRightTrimView {
  import opened Chars
  import opened Buffer

  /**
   * The countdown of `length()` over the text `s`: from index `i` down past whitespace, but
   * never below index 0.
   */
  function LastKept(s: string, i: int): (k: int)
    requires -1 <= i < |s|
    ensures -1 <= k <= i && (i >= 0 ==> k >= 0)
    ensures forall j :: k < j <= i ==> IsWhitespaceChar(s[j])
    ensures k > 0 ==> !IsWhitespaceChar(s[k])
    decreases i + 1
  {
    if i > 0 && IsWhitespaceChar(s[i]) then LastKept(s, i - 1) else i
  }

  /**
   * The length the view reports for the text `s`: 0 for empty text, otherwise one more than
   * the last index of a non-whitespace character, where index 0 counts as kept whatever it is.
   * So non-empty all-whitespace text has length 1.
   */
  function TrimmedLength(s: string): (n: nat)
    ensures |s| == 0 ==> n == 0
    ensures |s| > 0 ==> 1 <= n <= |s|
    ensures forall j :: n <= j < |s| ==> IsWhitespaceChar(s[j])
    ensures n > 1 ==> !IsWhitespaceChar(s[n - 1])
    ensures |s| > 0 && !IsWhitespaceChar(s[|s| - 1]) ==> n == |s|
  {
    LastKept(s, |s| - 1) + 1
  }

  /**
   * The view's trimmed length differs from proper right-trimming only on non-empty
   * all-whitespace text, where it keeps one character.
   */
  lemma TrimmedLengthAgainstRightTrim(s: string)
    ensures |RightTrimmed(s)| <= TrimmedLength(s)
    ensures RightTrimmed(s) == s[..TrimmedLength(s)] || (s != [] && AllWhitespace(s) && TrimmedLength(s) == 1)
  {
    var n, r := TrimmedLength(s), RightTrimmed(s);
    forall k | |r| <= k < |s|
      ensures IsWhitespaceChar(s[k])
    {
      assert s[|r|..][k - |r|] == s[k];
    }
    if !AllWhitespace(s) {
      var j :| 0 <= j < |s| && !IsWhitespaceChar(s[j]);
      assert |r| > 0 && !IsWhitespaceChar(s[|r| - 1]);
      assert n == |r|;
    }
  }

  class CharSequenceConcatRightTrim {
    const a: StringBuilder2
    const b: StringBuilder2

    constructor (a: StringBuilder2, b: StringBuilder2)
      ensures this.a == a && this.b == b
    {
      this.a := a;
      this.b := b;
    }

    ghost predicate Valid()
      reads a, b
    {
      a.Valid() && b.Valid()
    }

    /** The text under the view, as it stands in the two buffers now. */
    function Text(): string
      reads a, b, a.chars, b.chars
      requires Valid()
    {
      a.ToString() + b.ToString()
    }

    function CharAt(index: int): (c: char)
      reads a, b, a.chars, b.chars
      requires Valid() && 0 <= index < a.length + b.length
      ensures c == Text()[index]
    {
      if index < a.Length() then a.CharAt(index) else b.CharAt(index - a.Length())
    }

    /** The countdown loop of `length()`, reading through `charAt`. */
    function LastKeptFrom(i: int): (k: int)
      reads a, b, a.chars, b.chars
      requires Valid() && -1 <= i < a.length + b.length
      ensures k == LastKept(Text(), i)
      decreases i + 1
    {
      if i > 0 && IsWhitespaceChar(CharAt(i)) then LastKeptFrom(i - 1) else i
    }

    /** `length()`: recomputed from the buffers' current contents on every call. */
    function Length(): (n: int)
      reads a, b, a.chars, b.chars
      requires Valid()
      ensures n == TrimmedLength(Text())
    {
      LastKeptFrom(a.Length() + b.Length() - 1) + 1
    }

    /** `toString()`: the first `length()` characters of the text. */
    method ToString() returns (s: string)
      requires Valid()
      ensures s == Text()[..Length()]
    {
      s := [];
      var len := Length();
      for i := 0 to len
        invariant s == Text()[..i]
      {
        s := s + [CharAt(i)];
      }
    }

    /** `subSequence(start, end)`: a view shifted by `start`; nothing is copied. */
    method SubSequence(start: int, end: int) returns (v: ConcatRightTrimSlice)
      requires Valid() && 0 <= start <= end <= |Text()|
      ensures fresh(v) && v.outer == this && v.start == start && v.end == end
      ensures v.Valid() && v.Length() == end - start
    {
      v := new ConcatRightTrimSlice(this, start, end);
    }
  }

  /** The anonymous view that `subSequence` returns. */
  class ConcatRightTrimSlice {
    const outer: CharSequenceConcatRightTrim
    const start: int
    const end: int

    constructor (outer: CharSequenceConcatRightTrim, start: int, end: int)
      ensures this.outer == outer && this.start == start && this.end == end
    {
      this.outer := outer;
      this.start := start;
      this.end := end;
    }

    ghost predicate Valid()
      reads outer.a, outer.b, outer.a.chars, outer.b.chars
    {
      outer.Valid() && 0 <= start <= end <= |outer.Text()|
    }

    function Length(): int {
      end - start
    }

    function CharAt(index: int): (c: char)
      reads outer.a, outer.b, outer.a.chars, outer.b.chars
      requires Valid() && 0 <= index < Length()
      ensures c == outer.Text()[start + index]
    {
      outer.CharAt(start + index)
    }

    /** A nested `subSequence` copies the characters it covers. */
    method SubSequence(start2: int, end2: int) returns (s: string)
      requires Valid() && 0 <= start2 <= end2 <= Length()
      ensures s == outer.Text()[start + start2..start + end2]
    {
      s := [];
      for i := start2 to end2
        invariant s == outer.Text()[start + start2..start + i]
      {
        s := s + [CharAt(i)];
      }
    }

    method ToString() returns (s: string)
      requires Valid()
      ensures s == outer.Text()[start..end]
    {
      s := [];
      var len := Length();
      for i := 0 to len
        invariant s == outer.Text()[start..start + i]
      {
        s := s + [CharAt(i)];
      }
    }
  }

  /** The text ("ab ", "cd  ") trims to "ab cd", as the class's test expects. */
  lemma TrimmedLengthOfAbCd()
    ensures TrimmedLength("ab " + "cd  ") == 5
    ensures ("ab " + "cd  ")[..TrimmedLength("ab " + "cd  ")] == "ab cd"
  {
    assert LastKept("ab cd  ", 6) == 4;
  }

  /**
   * One view serves a whole wrapping run: after the buffers under it change, the view reports
   * the new contents.
   */
  method LiveView()
  {
    var line := new StringBuilder2();
    var word := new StringBuilder2();
    var view := new CharSequenceConcatRightTrim(line, word);
    word.AppendChar('a');
    assert view.Text() == "a";
    word.AppendChar(' ');
    assert view.Text() == "a ";
    line.Append(word);
    word.SetLength(0);
    assert view.Text() == "a ";
    word.AppendChar('b');
    assert view.Text() == "a b";
  }
}
