/**
 * Character classes and the trimming helpers shared by both wrapping engines
 * (`WordWrap` and its older variant `Text`).
 */
module Chars {

  /**
   * `Character.isWhitespace` for a UTF-16 unit: the ASCII controls TAB, LF, VT, FF, CR and the
   * four separators U+001C..U+001F, and the Unicode space, line and paragraph separators except
   * the three no-break spaces U+00A0, U+2007 and U+202F.
   */
  predicate IsWhitespaceChar(c: char) {
    || ('\U{9}' <= c <= '\U{D}')
    || ('\U{1C}' <= c <= '\U{20}')
    || c == '\U{1680}'
    || ('\U{2000}' <= c <= '\U{200A}' && c != '\U{2007}')
    || c == '\U{2028}' || c == '\U{2029}' || c == '\U{205F}' || c == '\U{3000}'
  }

  /** `Character.isLetter` (and `Character.isAlphabetic`), restricted to the ASCII letters. */
  predicate IsLetter(c: char) {
    ('a' <= c <= 'z') || ('A' <= c <= 'Z')
  }

  /**
   * The ASCII punctuation marks, the POSIX class `\p{Punct}`: the printable ASCII characters
   * that are neither letters, digits nor the space, namely !"#$%&'()*+,-./ :;<=>?@ [\]^_` {|}~.
   */
  predicate IsPunctuation(c: char) {
    || ('!' <= c <= '/')
    || (':' <= c <= '@')
    || ('[' <= c <= '`')
    || ('{' <= c <= '~')
  }

  /** Every character of `s` is whitespace; true of the empty sequence. */
  predicate AllWhitespace(s: seq<char>) {
    forall i :: 0 <= i < |s| ==> IsWhitespaceChar(s[i])
  }

  /** `n` spaces. */
  function Spaces(n: nat): (s: seq<char>)
    ensures |s| == n && AllWhitespace(s)
  {
    seq(n, _ => ' ')
  }

  /** The longest prefix of `s` that does not end in whitespace. */
  function RightTrimmed(s: seq<char>): (r: seq<char>)
    ensures |r| <= |s| && r == s[..|r|]
    ensures AllWhitespace(s[|r|..])
    ensures r == [] || !IsWhitespaceChar(r[|r| - 1])
    decreases |s|
  {
    if |s| > 0 && IsWhitespaceChar(s[|s| - 1]) then RightTrimmed(s[..|s| - 1]) else s
  }

  /** The index of the first non-whitespace character of `s` at or after `i`, or `|s|`. */
  function FirstNonWhitespace(s: seq<char>, i: nat): (k: nat)
    requires i <= |s|
    ensures i <= k <= |s|
    ensures forall j :: i <= j < k ==> IsWhitespaceChar(s[j])
    ensures k < |s| ==> !IsWhitespaceChar(s[k])
    decreases |s| - i
  {
    if i < |s| && IsWhitespaceChar(s[i]) then FirstNonWhitespace(s, i + 1) else i
  }

  /**
   * Removes the leading whitespace run, but only when a non-whitespace character follows it:
   * an empty or all-whitespace sequence is returned unchanged.
   */
  function LeftTrimmed(s: seq<char>): (r: seq<char>)
    ensures AllWhitespace(s) ==> r == s
    ensures !AllWhitespace(s) ==>
      0 < |r| <= |s| && r == s[|s| - |r|..] && !IsWhitespaceChar(r[0]) && AllWhitespace(s[..|s| - |r|])
  {
    var k := FirstNonWhitespace(s, 0);
    if k < |s| && k > 0 then s[k..] else s
  }

  /** A scan that stops at `k` finds the same index as `FirstNonWhitespace`. */
  lemma {:induction false} FirstNonWhitespaceAt(s: seq<char>, i: nat, k: nat)
    requires i <= k <= |s|
    requires forall j :: i <= j < k ==> IsWhitespaceChar(s[j])
    requires k < |s| ==> !IsWhitespaceChar(s[k])
    ensures FirstNonWhitespace(s, i) == k
    decreases k - i
  {
    if i < k {
      FirstNonWhitespaceAt(s, i + 1, k);
    }
  }

  /** `c` survives the erasure that `Kept` performs. */
  predicate Shown(c: char, eraseHyphens: bool) {
    !IsWhitespaceChar(c) && !(eraseHyphens && c == '-')
  }

  /**
   * The visible text of `s`: its non-whitespace characters in order, without hyphens when
   * `eraseHyphens` holds. Wrapping only adds or removes characters that `Kept` erases.
   */
  predicate AllShown(s: seq<char>, e: bool) {
    forall i :: 0 <= i < |s| ==> Shown(s[i], e)
  }

  function Kept(s: seq<char>, eraseHyphens: bool): (r: seq<char>)
    ensures |r| <= |s|
  {
    if s == [] then []
    else if Shown(s[0], eraseHyphens) then [s[0]] + Kept(s[1..], eraseHyphens)
    else Kept(s[1..], eraseHyphens)
  }

  /** `Kept` erases exactly the characters that are not shown. */
  lemma {:induction false} KeptOnlyShown(s: seq<char>, e: bool)
    ensures forall i :: 0 <= i < |Kept(s, e)| ==> Shown(Kept(s, e)[i], e)
    ensures AllShown(s, e) ==> Kept(s, e) == s
    decreases |s|
  {
    if s != [] {
      KeptOnlyShown(s[1..], e);
      if AllShown(s, e) {
        assert AllShown(s[1..], e) by {
          forall i | 0 <= i < |s[1..]|
            ensures Shown(s[1..][i], e)
          {
            assert s[1..][i] == s[i + 1];
          }
        }
        assert s == [s[0]] + s[1..];
      }
    }
  }

  lemma {:induction false} KeptAppend(a: seq<char>, b: seq<char>, e: bool)
    ensures Kept(a + b, e) == Kept(a, e) + Kept(b, e)
    decreases |a|
  {
    if a == [] {
      assert a + b == b;
    } else {
      assert (a + b)[0] == a[0] && (a + b)[1..] == a[1..] + b;
      KeptAppend(a[1..], b, e);
      if Shown(a[0], e) {
        assert [a[0]] + (Kept(a[1..], e) + Kept(b, e)) == ([a[0]] + Kept(a[1..], e)) + Kept(b, e);
      }
    }
  }

  lemma {:induction false} KeptWhitespace(s: seq<char>, e: bool)
    requires AllWhitespace(s)
    ensures Kept(s, e) == []
    decreases |s|
  {
    if s != [] {
      KeptWhitespace(s[1..], e);
    }
  }

  /** Left-trimming removes only whitespace. */
  lemma KeptLeftTrimmed(s: seq<char>, e: bool)
    ensures Kept(LeftTrimmed(s), e) == Kept(s, e)
  {
    var r := LeftTrimmed(s);
    if !AllWhitespace(s) {
      var k := |s| - |r|;
      assert s == s[..k] + r;
      KeptAppend(s[..k], r, e);
      KeptWhitespace(s[..k], e);
    }
  }

  /** Right-trimming removes only whitespace. */
  lemma KeptRightTrimmed(s: seq<char>, e: bool)
    ensures Kept(RightTrimmed(s), e) == Kept(s, e)
  {
    var r := RightTrimmed(s);
    assert s == r + s[|r|..];
    KeptAppend(r, s[|r|..], e);
    KeptWhitespace(s[|r|..], e);
  }

  /**
   * `b` is `a` with hyphens inserted: deleting some of the hyphens of `b`, and nothing else,
   * gives `a`.
   */
  predicate Hyphenated(a: seq<char>, b: seq<char>)
    decreases |b|
  {
    if b == [] then a == []
    else
      || (a != [] && a[|a| - 1] == b[|b| - 1] && Hyphenated(a[..|a| - 1], b[..|b| - 1]))
      || (b[|b| - 1] == '-' && Hyphenated(a, b[..|b| - 1]))
  }

  lemma {:induction false} HyphenatedReflexive(a: seq<char>)
    ensures Hyphenated(a, a)
    decreases |a|
  {
    if a != [] {
      HyphenatedReflexive(a[..|a| - 1]);
    }
  }

  /** Insertions in two parts are an insertion in their concatenation. */
  lemma {:induction false} HyphenatedAppend(a: seq<char>, b: seq<char>, c: seq<char>, d: seq<char>)
    requires Hyphenated(a, b) && Hyphenated(c, d)
    ensures Hyphenated(a + c, b + d)
    decreases |d|
  {
    if d == [] {
      assert a + c == a && b + d == b;
    } else {
      var d' := d[..|d| - 1];
      assert (b + d)[..|b + d| - 1] == b + d';
      if c != [] && c[|c| - 1] == d[|d| - 1] && Hyphenated(c[..|c| - 1], d') {
        HyphenatedAppend(a, b, c[..|c| - 1], d');
        assert (a + c)[..|a + c| - 1] == a + c[..|c| - 1];
      } else {
        HyphenatedAppend(a, b, c, d');
      }
    }
  }

  /** One hyphen inserted between two parts. */
  lemma HyphenInserted(a: seq<char>, c: seq<char>)
    ensures Hyphenated(a + c, a + "-" + c)
  {
    HyphenatedReflexive(a);
    HyphenatedReflexive(c);
    assert (a + "-")[..|a|] == a;
    HyphenatedAppend(a, a + "-", c, c);
  }

  /** Two rounds of insertion are one. */
  lemma {:induction false} HyphenatedTransitive(a: seq<char>, b: seq<char>, c: seq<char>)
    requires Hyphenated(a, b) && Hyphenated(b, c)
    ensures Hyphenated(a, c)
    decreases |c|
  {
    if c != [] {
      var c' := c[..|c| - 1];
      if b != [] && b[|b| - 1] == c[|c| - 1] && Hyphenated(b[..|b| - 1], c') {
        if a != [] && a[|a| - 1] == b[|b| - 1] && Hyphenated(a[..|a| - 1], b[..|b| - 1]) {
          HyphenatedTransitive(a[..|a| - 1], b[..|b| - 1], c');
        } else {
          HyphenatedTransitive(a, b[..|b| - 1], c');
        }
      } else {
        HyphenatedTransitive(a, b, c');
      }
    }
  }

  /** Inserted hyphens are invisible once hyphens are erased. */
  lemma {:induction false} HyphenatedErased(a: seq<char>, b: seq<char>)
    requires Hyphenated(a, b)
    ensures Kept(a, true) == Kept(b, true)
    decreases |b|
  {
    if b != [] {
      var b' := b[..|b| - 1];
      assert b == b' + [b[|b| - 1]];
      KeptAppend(b', [b[|b| - 1]], true);
      if a != [] && a[|a| - 1] == b[|b| - 1] && Hyphenated(a[..|a| - 1], b') {
        HyphenatedErased(a[..|a| - 1], b');
        assert a == a[..|a| - 1] + [a[|a| - 1]];
        KeptAppend(a[..|a| - 1], [a[|a| - 1]], true);
      } else {
        HyphenatedErased(a, b');
        assert Kept(['-'], true) == [] by {
          assert ['-'][1..] == [];
        }
      }
    }
  }

  /** Right-trimming yields the empty sequence exactly on all-whitespace input. */
  lemma {:induction false} RightTrimmedBlank(s: seq<char>)
    ensures RightTrimmed(s) == [] <==> AllWhitespace(s)
    decreases |s|
  {
    if RightTrimmed(s) == [] {
      assert s[|RightTrimmed(s)|..] == s;
    }
    if AllWhitespace(s) && |s| > 0 {
      assert AllWhitespace(s[..|s| - 1]);
      RightTrimmedBlank(s[..|s| - 1]);
    }
  }

  /** Right-trimming twice changes nothing more. */
  lemma RightTrimmedIdempotent(s: seq<char>)
    ensures RightTrimmed(RightTrimmed(s)) == RightTrimmed(s)
  {
  }

  /** `isWhitespace(CharSequence)`: a scan that stops at the first non-whitespace character. */
  method IsWhitespace(s: seq<char>) returns (b: bool)
    ensures b == AllWhitespace(s)
  {
    for i := 0 to |s|
      invariant forall j :: 0 <= j < i ==> IsWhitespaceChar(s[j])
    {
      if !IsWhitespaceChar(s[i]) {
        return false;
      }
    }
    return true;
  }

  /**
   * `rightTrim(CharSequence)`: counts down over trailing whitespace and returns the prefix
   * (or `s` itself when nothing is trimmed).
   */
  method RightTrim(s: seq<char>) returns (r: seq<char>)
    ensures r == RightTrimmed(s)
    ensures |r| == |s| ==> r == s
  {
    var i := |s|;
    while i > 0
      invariant 0 <= i <= |s|
      invariant RightTrimmed(s[..i]) == RightTrimmed(s)
    {
      if IsWhitespaceChar(s[i - 1]) {
        assert s[..i - 1] == s[..i][..i - 1];
        i := i - 1;
      } else {
        break;
      }
    }
    if i != |s| {
      r := s[..i];
    } else {
      r := s;
    }
  }
}
