/** `StringBuilder2`: a growable character buffer, an array plus a fill length. */
module Buffer {
  import opened Chars
  import opened Wrappers

  /** The capacity of a buffer created with no initial text. */
  const DefaultCapacity := 16

  /**
   * The capacity `checkSize(len)` leaves behind as written: the array is doubled once when
   * `length + len` does not fit. That is enough exactly when `length + len` is at most twice
   * the old capacity.
   */
  function GrownCapacityAsWritten(capacity: nat, length: nat, len: nat): (c: nat)
    ensures c >= capacity
    ensures c >= length + len <==> length + len <= 2 * capacity
  {
    if length + len > capacity then capacity * 2 else capacity
  }

  /**
   * Two inputs on which the single doubling falls short: appending a 33-character buffer to a
   * fresh (16-character) empty buffer, and appending one character to a buffer built from "".
   */
  lemma CheckSizeAsWrittenFallsShort()
    ensures GrownCapacityAsWritten(DefaultCapacity, 0, 33) < 0 + 33
    ensures GrownCapacityAsWritten(0, 0, 1) < 0 + 1
  {
  }

  /**
   * The array after `delete(start, end)` has moved `was[end..len]` down to `start`: its first
   * `len - (end - start)` characters are the text without the deleted range.
   */
  lemma Shifted(was: seq<char>, now: seq<char>, start: int, end: int, len: int)
    requires 0 <= start <= end <= len <= |was| == |now|
    requires forall j :: 0 <= j < start ==> now[j] == was[j]
    requires forall j :: start <= j < start + (len - end) ==> now[j] == was[j + (end - start)]
    ensures now[..len - (end - start)] == was[..len][..start] + was[..len][end..]
  {
    var n := len - (end - start);
    assert |now[..n]| == |was[..len][..start] + was[..len][end..]|;
    forall j | 0 <= j < n
      ensures now[..n][j] == (was[..len][..start] + was[..len][end..])[j]
    {
      if j >= start {
        assert now[j] == was[j + (end - start)];
      }
    }
  }

  class StringBuilder2 {
    var chars: array<char>
    var length: int

    ghost predicate Valid()
      reads this
    {
      0 <= length <= chars.Length
    }

    /** `toString()`: the characters in use. */
    function ToString(): string
      reads this, chars
      requires Valid()
    {
      chars[..length]
    }

    /** `new StringBuilder2()`: empty, with room for 16 characters. */
    constructor ()
      ensures Valid() && fresh(chars)
      ensures chars.Length == DefaultCapacity && ToString() == []
    {
      chars := new char[DefaultCapacity];
      length := 0;
    }

    /** `new StringBuilder2(s)`: holds `s` in an array of exactly its size. */
    constructor FromString(s: string)
      ensures Valid() && fresh(chars)
      ensures chars.Length == |s| && ToString() == s
    {
      chars := new char[|s|](i requires 0 <= i < |s| => s[i]);
      length := |s|;
    }

    /** The private constructor that adopts an array. */
    constructor OfArray(chars: array<char>, length: int)
      requires 0 <= length <= chars.Length
      ensures Valid() && this.chars == chars && this.length == length
    {
      this.chars := chars;
      this.length := length;
    }

    function Length(): (n: int)
      reads this, chars
      requires Valid()
      ensures n == |ToString()|
    {
      length
    }

    /** `charAt` reads the array directly, so it only agrees with the text below `length`. */
    function CharAt(index: int): (c: char)
      reads this, chars
      requires Valid() && 0 <= index < chars.Length
      ensures index < length ==> c == ToString()[index]
    {
      chars[index]
    }

    /** `substring(start, end)`: a copy of the array slice. */
    function Substring(start: int, end: int): (s: string)
      reads this, chars
      requires Valid() && 0 <= start <= end <= chars.Length
      ensures |s| == end - start
      ensures end <= length ==> s == ToString()[start..end]
    {
      chars[start..end]
    }

    /** `subSequence(start, end)`: a new buffer over a copy of the slice. */
    method SubSequence(start: int, end: int) returns (r: StringBuilder2)
      requires Valid() && 0 <= start <= end <= chars.Length
      ensures fresh(r) && fresh(r.chars) && r.Valid()
      ensures r.ToString() == Substring(start, end)
      ensures end <= length ==> r.ToString() == ToString()[start..end]
    {
      var copy := new char[end - start];
      forall i | 0 <= i < end - start {
        copy[i] := chars[start + i];
      }
      r := new StringBuilder2.OfArray(copy, copy.Length);
    }

    /**
     * `checkSize(len)`, corrected: grows the array so that `len` more characters fit, to twice
     * its size or, when that is still too small, to exactly the size needed.
     */
    method CheckSize(len: int)
      requires Valid() && len >= 0
      modifies this
      ensures Valid() && length == old(length) && ToString() == old(ToString())
      ensures chars.Length >= length + len && chars.Length >= old(chars.Length)
      ensures chars == old(chars) || fresh(chars)
      ensures old(length) + len <= old(chars.Length) ==> chars == old(chars)
      ensures old(length) + len <= 2 * old(chars.Length) ==>
                chars.Length == GrownCapacityAsWritten(old(chars.Length), old(length), len)
    {
      if length + len > chars.Length {
        var capacity := if chars.Length * 2 >= length + len then chars.Length * 2 else length + len;
        var grown := new char[capacity];
        forall i | 0 <= i < chars.Length {
          grown[i] := chars[i];
        }
        chars := grown;
      }
    }

    /** `checkSize(len)` as written: doubles the array once when `len` more characters do not fit. */
    method CheckSizeAsWritten(len: int)
      requires Valid() && len >= 0
      modifies this
      ensures Valid() && length == old(length) && ToString() == old(ToString())
      ensures chars.Length == GrownCapacityAsWritten(old(chars.Length), old(length), len)
      ensures chars == old(chars) || fresh(chars)
    {
      if length + len > chars.Length {
        var grown := new char[chars.Length * 2];
        forall i | 0 <= i < chars.Length {
          grown[i] := chars[i];
        }
        chars := grown;
      }
    }

    /**
     * `append(StringBuilder2 s)` as written: after the single doubling of `checkSize`, the copy
     * into the array throws `ArrayIndexOutOfBoundsException` when the text still does not fit,
     * leaving the text as it was.
     */
    method AppendAsWritten(s: StringBuilder2) returns (r: Result<()>)
      requires Valid() && s.Valid()
      modifies this, chars
      ensures Valid() && (chars == old(chars) || fresh(chars))
      ensures chars.Length == GrownCapacityAsWritten(old(chars.Length), old(length), old(s.length))
      ensures r == if old(length) + old(s.length) <= chars.Length then Success(()) else Failure(IndexOutOfBounds)
      ensures r.Success? ==> ToString() == old(ToString()) + old(s.ToString())
      ensures r.Success? ==> length == old(length) + old(s.length)
      ensures r.Failure? ==> ToString() == old(ToString())
      ensures s != this && s.chars != old(chars) ==> s.ToString() == old(s.ToString())
    {
      var len := s.length;
      var source := s.chars[..len];
      CheckSizeAsWritten(len);
      if length + len > chars.Length {
        return Failure(IndexOutOfBounds);
      }
      forall i | 0 <= i < len {
        chars[length + i] := source[i];
      }
      length := length + len;
      r := Success(());
    }

    /** `append(StringBuilder2 s)`: appends the text of `s` (which may be this buffer itself). */
    method Append(s: StringBuilder2)
      requires Valid() && s.Valid()
      modifies this, chars
      ensures Valid() && ToString() == old(ToString()) + old(s.ToString())
      ensures length == old(length) + old(s.length)
      ensures chars == old(chars) || fresh(chars)
      ensures s != this && s.chars != old(chars) ==> s.ToString() == old(s.ToString())
    {
      var len := s.length;
      // System.arraycopy behaves as if it copied through a temporary
      var source := s.chars[..len];
      CheckSize(len);
      forall i | 0 <= i < len {
        chars[length + i] := source[i];
      }
      length := length + len;
    }

    /** `append(char ch)`. */
    method AppendChar(ch: char)
      requires Valid()
      modifies this, chars
      ensures Valid() && ToString() == old(ToString()) + [ch]
      ensures length == old(length) + 1
      ensures chars == old(chars) || fresh(chars)
      ensures old(chars.Length) > 0 ==>
                chars.Length == GrownCapacityAsWritten(old(chars.Length), old(length), 1)
    {
      CheckSize(1);
      chars[length] := ch;
      length := length + 1;
    }

    /** `setLength(n)`: moves the fill mark; shrinking truncates the text. */
    method SetLength(n: int)
      requires Valid() && 0 <= n <= chars.Length
      modifies this
      ensures Valid() && length == n && chars == old(chars)
      ensures n <= old(length) ==> ToString() == old(ToString())[..n]
    {
      length := n;
    }

    /** `delete(start, end)`: removes the characters in `[start, end)`, shifting the tail left. */
    method Delete(start: int, end: int)
      requires Valid() && 0 <= start <= end <= length
      modifies this, chars
      ensures Valid() && chars == old(chars)
      ensures length == old(length) - (end - start)
      ensures ToString() == old(ToString())[..start] + old(ToString())[end..]
    {
      // System.arraycopy(chars, end, chars, start, length - end) moves the tail downwards, so
      // copying in increasing order reads every character before it is overwritten
      var k := 0;
      while k < length - end
        invariant chars == old(chars) && length == old(length)
        invariant 0 <= k <= length - end
        invariant forall j :: 0 <= j < start ==> chars[j] == old(chars[j])
        invariant forall j :: start <= j < start + k ==> chars[j] == old(chars[j + (end - start)])
        invariant forall j :: end + k <= j < chars.Length ==> chars[j] == old(chars[j])
      {
        chars[start + k] := chars[end + k];
        k := k + 1;
      }
      Shifted(old(chars[..]), chars[..], start, end, length);
      length := length - (end - start);
    }

    /** `rightTrim()`: drops the trailing whitespace in place and returns this buffer. */
    method RightTrim() returns (r: StringBuilder2)
      requires Valid()
      modifies this
      ensures r == this && Valid() && chars == old(chars)
      ensures ToString() == RightTrimmed(old(ToString()))
    {
      var i := length;
      while i > 0
        invariant 0 <= i <= length
        invariant RightTrimmed(chars[..i]) == RightTrimmed(chars[..length])
      {
        if !IsWhitespaceChar(CharAt(i - 1)) {
          break;
        }
        assert chars[..i - 1] == chars[..i][..i - 1];
        i := i - 1;
      }
      length := i;
      r := this;
    }
  }

  /** `rightTrim()` leaves no trailing whitespace, and a second call changes nothing. */
  lemma RightTrimLeavesNoTrailingWhitespace(s: string)
    ensures RightTrimmed(s) == [] || !IsWhitespaceChar(RightTrimmed(s)[|RightTrimmed(s)| - 1])
    ensures RightTrimmed(RightTrimmed(s)) == RightTrimmed(s)
  {
  }
}
