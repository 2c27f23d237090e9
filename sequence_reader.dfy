/** `CharSequenceReader`: a `Reader` over an in-memory character sequence. */
module SequenceReader {
  import opened Wrappers

  const ReaderClosed: string := "reader closed"

  class CharSequenceReader {
    /** The text being read; `None` once the reader is closed. */
    var text: Option<string>
    var pos: int
    var mark: int

    /** Position and mark stay within the text while it is open. */
    ghost predicate Valid()
      reads this
    {
      0 <= pos && 0 <= mark && (text.Some? ==> pos <= |text.value| && mark <= |text.value|)
    }

    constructor (initial: string)
      ensures Valid() && text == Some(initial) && pos == 0 && mark == 0
    {
      text := Some(initial);
      pos := 0;
      mark := 0;
    }

    /** `checkOpen()`: a closed reader throws "reader closed". */
    function CheckOpen(): (r: Result<()>)
      reads this
      ensures r.Success? <==> text.Some?
      ensures r.Failure? ==> r.error == IOException(ReaderClosed)
    {
      if text.None? then Failure(IOException(ReaderClosed)) else Success(())
    }

    function Remaining(): (n: int)
      reads this
      requires Valid() && text.Some?
      ensures n >= 0 && pos + n == |text.value|
    {
      |text.value| - pos
    }

    /** `read()`: the next character as an int, or -1 at the end of the text. */
    method Read() returns (r: Result<int>)
      requires Valid()
      modifies this
      ensures Valid() && text == old(text) && mark == old(mark)
      ensures text.None? ==> r == Failure(IOException(ReaderClosed)) && pos == old(pos)
      ensures text.Some? && old(pos) < |text.value| ==>
        r == Success(text.value[old(pos)] as int) && pos == old(pos) + 1
      ensures text.Some? && old(pos) == |text.value| ==> r == Success(-1) && pos == old(pos)
    {
      var open := CheckOpen();
      if open.Failure? {
        return Failure(open.error);
      }
      if Remaining() > 0 {
        r := Success(text.value[pos] as int);
        pos := pos + 1;
      } else {
        r := Success(-1);
      }
    }

    /**
     * `read(cbuf, off, len)`: checks the bounds first, then that the reader is open, then
     * copies up to `len` characters into `cbuf[off..]`.
     */
    method ReadInto(cbuf: array<char>, off: int, len: int) returns (r: Result<int>)
      requires Valid()
      modifies this, cbuf
      ensures Valid() && text == old(text) && mark == old(mark)
      ensures len < 0 || off < 0 || off + len > cbuf.Length ==>
        r == Failure(IndexOutOfBounds) && pos == old(pos) && cbuf[..] == old(cbuf[..])
      ensures 0 <= len && 0 <= off && off + len <= cbuf.Length && text.None? ==>
        r == Failure(IOException(ReaderClosed)) && pos == old(pos) && cbuf[..] == old(cbuf[..])
      ensures 0 <= len && 0 <= off && off + len <= cbuf.Length && text.Some? && old(pos) == |text.value| ==>
        r == Success(-1) && pos == old(pos) && cbuf[..] == old(cbuf[..])
      ensures 0 <= len && 0 <= off && off + len <= cbuf.Length && text.Some? && old(pos) < |text.value| ==>
        var k := if len < |text.value| - old(pos) then len else |text.value| - old(pos);
        && r == Success(k)
        && pos == old(pos) + k
        && cbuf[off..off + k] == text.value[old(pos)..pos]
        && cbuf[..off] == old(cbuf[..off])
        && cbuf[off + k..] == old(cbuf[off + k..])
    {
      if len < 0 || off < 0 || off + len > cbuf.Length {
        return Failure(IndexOutOfBounds);
      }
      var open := CheckOpen();
      if open.Failure? {
        return Failure(open.error);
      }
      if Remaining() == 0 {
        return Success(-1);
      }
      var charsToRead := if len < Remaining() then len else Remaining();
      for i := 0 to charsToRead
        invariant text == old(text) && mark == old(mark) && pos == old(pos) + i
        invariant cbuf[off..off + i] == text.value[old(pos)..pos]
        invariant cbuf[..off] == old(cbuf[..off])
        invariant cbuf[off + i..] == old(cbuf[off + i..])
      {
        cbuf[off + i] := text.value[pos];
        pos := pos + 1;
      }
      r := Success(charsToRead);
    }

    /** `skip(n)`: rejects a negative count before checking that the reader is open. */
    method Skip(n: int) returns (r: Result<int>)
      requires Valid()
      modifies this
      ensures Valid() && text == old(text) && mark == old(mark)
      ensures n < 0 ==> r == Failure(IllegalArgument("n may not be negative")) && pos == old(pos)
      ensures n >= 0 && text.None? ==> r == Failure(IOException(ReaderClosed)) && pos == old(pos)
      ensures n >= 0 && text.Some? ==>
        var k := if |text.value| - old(pos) < n then |text.value| - old(pos) else n;
        r == Success(k) && pos == old(pos) + k
    {
      if n < 0 {
        return Failure(IllegalArgument("n may not be negative"));
      }
      var open := CheckOpen();
      if open.Failure? {
        return Failure(open.error);
      }
      var charsToSkip := if Remaining() < n then Remaining() else n;
      pos := pos + charsToSkip;
      r := Success(charsToSkip);
    }

    /** `ready()`: an open reader is always ready. */
    function Ready(): (r: Result<bool>)
      reads this
      ensures r.Success? <==> text.Some?
      ensures r.Success? ==> r.value
      ensures r.Failure? ==> r.error == IOException(ReaderClosed)
    {
      var open := CheckOpen();
      if open.Failure? then Failure(open.error) else Success(true)
    }

    function MarkSupported(): bool {
      true
    }

    /** `mark(readAheadLimit)`: remembers the current position. */
    method Mark(readAheadLimit: int) returns (r: Result<()>)
      requires Valid()
      modifies this
      ensures Valid() && text == old(text) && pos == old(pos)
      ensures readAheadLimit < 0 ==>
        r == Failure(IllegalArgument("readAheadLimit may not be negative")) && mark == old(mark)
      ensures readAheadLimit >= 0 && text.None? ==> r == Failure(IOException(ReaderClosed)) && mark == old(mark)
      ensures readAheadLimit >= 0 && text.Some? ==> r == Success(()) && mark == pos
    {
      if readAheadLimit < 0 {
        return Failure(IllegalArgument("readAheadLimit may not be negative"));
      }
      var open := CheckOpen();
      if open.Failure? {
        return Failure(open.error);
      }
      mark := pos;
      r := Success(());
    }

    /** `reset()`: returns to the marked position. */
    method Reset() returns (r: Result<()>)
      requires Valid()
      modifies this
      ensures Valid() && text == old(text) && mark == old(mark)
      ensures text.None? ==> r == Failure(IOException(ReaderClosed)) && pos == old(pos)
      ensures text.Some? ==> r == Success(()) && pos == mark
    {
      var open := CheckOpen();
      if open.Failure? {
        return Failure(open.error);
      }
      pos := mark;
      r := Success(());
    }

    /** `close()`: drops the text; closing twice is harmless. */
    method Close()
      requires Valid()
      modifies this
      ensures Valid() && text.None? && pos == old(pos) && mark == old(mark)
    {
      text := None;
    }
  }
}
