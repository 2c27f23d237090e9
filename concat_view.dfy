/** `CharSequenceConcat`: a read-only view of one character sequence followed by another. */
module ConcatView {

  /** The view over `a` then `b`; neither is copied or changed. */
  datatype CharSequenceConcat = CharSequenceConcat(a: string, b: string) {

    function Length(): (n: nat)
      ensures n == |a + b|
    {
      |a| + |b|
    }

    /** Indices below `|a|` read `a`, the others read `b`. */
    function CharAt(index: int): (c: char)
      requires 0 <= index < Length()
      ensures c == (a + b)[index]
    {
      if index < |a| then a[index] else b[index - |a|]
    }

    function ToString(): (s: string)
      ensures |s| == Length()
      ensures forall i :: 0 <= i < |s| ==> s[i] == CharAt(i)
    {
      a + b
    }

    /** `subSequence(start, end)`: a view shifted by `start`, nothing is copied. */
    function SubSequence(start: int, end: int): (v: ConcatSlice)
      requires 0 <= start <= end <= Length()
      ensures v.Valid() && v.Length() == end - start
      ensures forall i :: 0 <= i < v.Length() ==> v.CharAt(i) == (a + b)[start + i]
    {
      ConcatSlice(this, start, end)
    }
  }

  /** The view that `subSequence` returns: `outer` restricted to `[start, end)`. */
  datatype ConcatSlice = ConcatSlice(outer: CharSequenceConcat, start: int, end: int) {

    ghost predicate Valid() {
      0 <= start <= end <= outer.Length()
    }

    function Length(): int {
      end - start
    }

    function CharAt(index: int): (c: char)
      requires Valid() && 0 <= index < Length()
      ensures c == outer.ToString()[start + index]
    {
      outer.CharAt(start + index)
    }

    /** A nested `subSequence` copies the characters it covers into a new string. */
    method SubSequence(start2: int, end2: int) returns (s: string)
      requires Valid() && 0 <= start2 <= end2 <= Length()
      ensures s == outer.ToString()[start + start2..start + end2]
    {
      s := [];
      for i := start2 to end2
        invariant s == outer.ToString()[start + start2..start + i]
      {
        s := s + [CharAt(i)];
      }
    }

    method ToString() returns (s: string)
      requires Valid()
      ensures s == outer.ToString()[start..end]
    {
      s := [];
      var len := Length();
      for i := 0 to len
        invariant s == outer.ToString()[start..start + i]
      {
        s := s + [CharAt(i)];
      }
    }
  }

  /** The view and its nested slices agree with the text "abcd" the way the class's test expects. */
  lemma ConcatOfAbAndCd()
    ensures CharSequenceConcat("ab", "cd").ToString() == "abcd"
    ensures CharSequenceConcat("ab", "cd").Length() == 4
    ensures CharSequenceConcat("ab", "cd").CharAt(3) == 'd'
  {
  }
}
