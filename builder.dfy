/**
 * `WordWrap.Builder`: the wrapping parameters with their defaults, the `maxWidth` check, and
 * `wrap()`, which runs the engine over the builder's reader and closes it when asked to.
 */
module WrapBuilder {
  import opened Wrappers
  import opened WordWrapEngine
  import opened SequenceReader
  import opened WordWrapLoop

  /**
   * A mutable set of characters. `SPECIAL_WORD_CHARS_SET_DEFAULT` is one such object, shared
   * by every builder that has not been given a set of its own.
   */
  class CharSet {
    var elements: set<char>

    constructor (elements: set<char>)
      ensures this.elements == elements
    {
      this.elements := elements;
    }
  }

  /** `toSet(String)`: the characters of `chars`, added one at a time. */
  method ToSet(chars: string) returns (r: set<char>)
    ensures forall c :: c in r <==> c in chars
  {
    r := {};
    for i := 0 to |chars|
      invariant forall c :: c in r <==> c in chars[..i]
    {
      assert chars[..i + 1] == chars[..i] + [chars[i]];
      r := r + {chars[i]};
    }
    assert chars[..|chars|] == chars;
  }

  class Builder {
    const reader: CharSequenceReader
    const closeReader: bool
    var maxWidth: int
    var stringWidth: string -> int
    var extraWordChars: CharSet
    var newLine: string
    var insertHyphens: bool
    var breakWords: bool

    /** A builder keeps a positive maximum width and a reader in a consistent state. */
    ghost predicate Valid()
      reads this, reader
    {
      maxWidth > 0 && reader.Valid()
    }

    /**
     * `new Builder(reader, closeReader)` with the field defaults: width 80, the character
     * count as string width, the shared default word characters, "\n", hyphens and breaking on.
     */
    constructor (reader: CharSequenceReader, closeReader: bool, defaults: CharSet)
      requires reader.Valid()
      ensures Valid() && this.reader == reader && this.closeReader == closeReader
      ensures maxWidth == 80 && extraWordChars == defaults && newLine == "\n"
      ensures insertHyphens && breakWords
      ensures forall s :: stringWidth(s) == |s|
    {
      this.reader := reader;
      this.closeReader := closeReader;
      maxWidth := 80;
      stringWidth := DefaultWidth;
      extraWordChars := defaults;
      newLine := "\n";
      insertHyphens := true;
      breakWords := true;
    }

    /** `WordWrap.from(CharSequence)`: a new reader over `text`, closed once wrapped. */
    constructor FromText(text: string, defaults: CharSet)
      ensures Valid() && fresh(reader) && closeReader
      ensures reader.text == Some(text) && reader.pos == 0
      ensures maxWidth == 80 && extraWordChars == defaults && newLine == "\n"
      ensures insertHyphens && breakWords
      ensures forall s :: stringWidth(s) == |s|
    {
      reader := new CharSequenceReader(text);
      closeReader := true;
      maxWidth := 80;
      stringWidth := DefaultWidth;
      extraWordChars := defaults;
      newLine := "\n";
      insertHyphens := true;
      breakWords := true;
    }

    /** The parameters the engine is called with, as they stand now. */
    function Settings(): Config
      reads this, extraWordChars
    {
      Config(maxWidth, stringWidth, newLine, extraWordChars.elements, insertHyphens, breakWords)
    }

    /** `maxWidth(n)`: rejects a width that is not positive and leaves the old one in place. */
    method MaxWidth(n: int) returns (r: Result<()>)
      requires Valid()
      modifies this
      ensures Valid()
      ensures r.Success? <==> n > 0
      ensures r.Failure? ==> r.error == IllegalArgument([]) && maxWidth == old(maxWidth)
      ensures r.Success? ==> maxWidth == n
      ensures stringWidth == old(stringWidth) && extraWordChars == old(extraWordChars)
      ensures newLine == old(newLine) && insertHyphens == old(insertHyphens) && breakWords == old(breakWords)
    {
      if !(n > 0) {
        return Failure(IllegalArgument([]));
      }
      maxWidth := n;
      r := Success(());
    }

    method StringWidth(stringWidth: string -> int)
      requires Valid()
      modifies this
      ensures Valid() && Settings() == old(Settings()).(width := stringWidth)
      ensures extraWordChars == old(extraWordChars)
    {
      this.stringWidth := stringWidth;
    }

    method NewLine(newLine: string)
      requires Valid()
      modifies this
      ensures Valid() && Settings() == old(Settings()).(newLine := newLine)
      ensures extraWordChars == old(extraWordChars)
    {
      this.newLine := newLine;
    }

    method InsertHyphens(insertHyphens: bool)
      requires Valid()
      modifies this
      ensures Valid() && Settings() == old(Settings()).(insertHyphens := insertHyphens)
      ensures extraWordChars == old(extraWordChars)
    {
      this.insertHyphens := insertHyphens;
    }

    method BreakWords(breakWords: bool)
      requires Valid()
      modifies this
      ensures Valid() && Settings() == old(Settings()).(breakWords := breakWords)
      ensures extraWordChars == old(extraWordChars)
    {
      this.breakWords := breakWords;
    }

    /** `extraWordChars(Set)`: adopts the caller's set object itself. */
    method ExtraWordChars(chars: CharSet)
      requires Valid()
      modifies this
      ensures Valid() && extraWordChars == chars
      ensures Settings() == old(Settings()).(extraWordChars := chars.elements)
    {
      extraWordChars := chars;
    }

    /** `extraWordChars(String)`: a set of its own holding exactly the given characters. */
    method ExtraWordCharsOf(chars: string)
      requires Valid()
      modifies this
      ensures Valid() && fresh(extraWordChars)
      ensures forall c :: c in extraWordChars.elements <==> c in chars
      ensures Settings() == old(Settings()).(extraWordChars := extraWordChars.elements)
    {
      var s := ToSet(chars);
      extraWordChars := new CharSet(s);
    }

    /**
     * `includeExtraWordChars(String)`: adds to the set the builder holds, in place. When that
     * is the shared default set, every builder that holds it sees the addition.
     */
    method IncludeExtraWordChars(chars: string)
      requires Valid()
      modifies extraWordChars
      ensures Valid()
      ensures forall c :: c in extraWordChars.elements <==> c in old(extraWordChars.elements) || c in chars
    {
      var s := ToSet(chars);
      extraWordChars.elements := extraWordChars.elements + s;
    }

    /** `excludeExtraWordChars(String)`: removes from the set the builder holds, in place. */
    method ExcludeExtraWordChars(chars: string)
      requires Valid()
      modifies extraWordChars
      ensures Valid()
      ensures forall c :: c in extraWordChars.elements <==> c in old(extraWordChars.elements) && c !in chars
    {
      var s := ToSet(chars);
      extraWordChars.elements := extraWordChars.elements - s;
    }

    /** `includeExtraWordChars`, corrected: the builder gets a set of its own first. */
    method IncludeExtraWordCharsOwn(chars: string)
      requires Valid()
      modifies this
      ensures Valid() && fresh(extraWordChars)
      ensures forall c :: c in extraWordChars.elements <==> c in old(extraWordChars.elements) || c in chars
      ensures Settings() == old(Settings()).(extraWordChars := extraWordChars.elements)
    {
      var s := ToSet(chars);
      extraWordChars := new CharSet(extraWordChars.elements + s);
    }

    /** `excludeExtraWordChars`, corrected: the builder gets a set of its own first. */
    method ExcludeExtraWordCharsOwn(chars: string)
      requires Valid()
      modifies this
      ensures Valid() && fresh(extraWordChars)
      ensures forall c :: c in extraWordChars.elements <==> c in old(extraWordChars.elements) && c !in chars
      ensures Settings() == old(Settings()).(extraWordChars := extraWordChars.elements)
    {
      var s := ToSet(chars);
      extraWordChars := new CharSet(extraWordChars.elements - s);
    }

    /**
     * `wrap()`: the engine over what is left in the reader, with the current settings; the
     * reader is closed afterwards, whatever the outcome, when the builder owns it.
     */
    method Wrap() returns (r: Result<string>)
      requires Valid()
      modifies reader
      ensures Valid()
      ensures closeReader ==> reader.text.None?
      ensures !closeReader ==> reader.text == old(reader.text)
      ensures old(reader.text).None? ==> r == Failure(IOException(ReaderClosed))
      ensures old(reader.text).Some? ==>
        r == WrapAsWritten(Settings(), old(reader.text.value[reader.pos..]))
    {
      r := WordWrap(reader, Settings());
      if closeReader {
        reader.Close();
      }
    }
  }

  /**
   * Two builders that hold the same set, as any two made with the defaults do: characters
   * included through one become word characters of the other.
   */
  method IncludeReachesOtherBuilder(a: Builder, b: Builder, chars: string)
    requires a.Valid() && b.Valid() && a.extraWordChars == b.extraWordChars
    modifies a.extraWordChars
    ensures forall c :: c in chars ==> c in b.Settings().extraWordChars
  {
    a.IncludeExtraWordChars(chars);
  }

  /** With the corrected `include`, the other builder's settings do not change. */
  method IncludeOwnLeavesOtherBuilder(a: Builder, b: Builder, chars: string)
    requires a.Valid() && b.Valid() && a != b && a.extraWordChars == b.extraWordChars
    modifies a
    ensures forall c :: c in chars ==> c in a.Settings().extraWordChars
    ensures b.Settings() == old(b.Settings())
  {
    a.IncludeExtraWordCharsOwn(chars);
  }
}
