/**
 * The few Python string operations the linkpost pipeline relies on, over `string`
 * (a sequence of characters): `str.split(sep)` for a one-character separator,
 * `str.strip(' ')`, and the fixed-width zero-padded decimal numbers that
 * `strftime` prints for `%Y`, `%m`, `%d`, `%H`, `%M` and `%S`.
 */
module Text {

  /** Python's `s.split(sep)`: the pieces between the separators, in order. */
  function Split(s: string, sep: char): (parts: seq<string>)
    ensures |parts| >= 1
    ensures forall k :: 0 <= k < |parts| ==> sep !in parts[k]
    decreases |s|
  {
    if s == [] then [""]
    else
      var rest := Split(s[1..], sep);
      if s[0] == sep then [""] + rest
      else [[s[0]] + rest[0]] + rest[1..]
  }

  /** Python's `sep.join(parts)`, the inverse of `Split`. */
  function Join(parts: seq<string>, sep: char): string
    requires |parts| >= 1
  {
    if |parts| == 1 then parts[0] else parts[0] + [sep] + Join(parts[1..], sep)
  }

  /** Joining the pieces of a split gives back the original string. */
  lemma {:induction false} JoinSplit(s: string, sep: char)
    ensures Join(Split(s, sep), sep) == s
    decreases |s|
  {
    if s != [] {
      var rest := Split(s[1..], sep);
      JoinSplit(s[1..], sep);
      if s[0] == sep {
        assert Split(s, sep) == [""] + rest;
        assert ([""] + rest)[1..] == rest;
      } else {
        var parts := [[s[0]] + rest[0]] + rest[1..];
        assert Split(s, sep) == parts;
        if |rest| == 1 {
          assert Join(parts, sep) == [s[0]] + rest[0];
        } else {
          assert parts[1..] == rest[1..];
          assert Join(parts, sep) == [s[0]] + (rest[0] + [sep] + Join(rest[1..], sep));
        }
        assert [s[0]] + s[1..] == s;
      }
    }
  }

  /** A string without the separator splits into itself alone. */
  lemma {:induction false} SplitWithoutSeparator(a: string, sep: char)
    requires sep !in a
    ensures Split(a, sep) == [a]
    decreases |a|
  {
    if a != [] {
      SplitWithoutSeparator(a[1..], sep);
      assert [a[0]] + a[1..] == a;
    }
  }

  /** A leading piece without the separator becomes the first part of the split. */
  lemma {:induction false} SplitAfterPiece(a: string, sep: char, b: string)
    requires sep !in a
    ensures Split(a + [sep] + b, sep) == [a] + Split(b, sep)
    decreases |a|
  {
    var s := a + [sep] + b;
    if a == [] {
      assert s[1..] == b;
    } else {
      assert s[1..] == a[1..] + [sep] + b;
      SplitAfterPiece(a[1..], sep, b);
      assert [a[0]] + a[1..] == a;
    }
  }

  /** Splitting a join of separator-free pieces gives back the pieces. */
  lemma {:induction false} SplitJoin(parts: seq<string>, sep: char)
    requires |parts| >= 1
    requires forall k :: 0 <= k < |parts| ==> sep !in parts[k]
    ensures Split(Join(parts, sep), sep) == parts
    decreases |parts|
  {
    if |parts| == 1 {
      SplitWithoutSeparator(parts[0], sep);
    } else {
      SplitJoin(parts[1..], sep);
      SplitAfterPiece(parts[0], sep, Join(parts[1..], sep));
      assert [parts[0]] + parts[1..] == parts;
    }
  }

  /** A string with no space at either end, as `str.strip(' ')` leaves it. */
  predicate Stripped(w: string) {
    w == [] || (w[0] != ' ' && w[|w| - 1] != ' ')
  }

  /** Python's `s.lstrip(' ')`: the text left after removing the leading spaces. */
  function StripLeft(s: string): (r: string)
    ensures |r| <= |s|
    ensures r == [] || r[0] != ' '
    decreases |s|
  {
    if s != [] && s[0] == ' ' then StripLeft(s[1..]) else s
  }

  /** Python's `s.rstrip(' ')`: the text left after removing the trailing spaces. */
  function StripRight(s: string): (r: string)
    ensures |r| <= |s|
    ensures r != [] ==> r[0] == s[0]
    ensures r == [] || r[|r| - 1] != ' '
    decreases |s|
  {
    if s != [] && s[|s| - 1] == ' ' then StripRight(s[..|s| - 1]) else s
  }

  /** `lstrip` removes exactly a run of leading spaces: what is left is a suffix. */
  lemma {:induction false} StripLeftSuffix(s: string)
    ensures var r := StripLeft(s);
      r == s[|s| - |r|..] && forall k :: 0 <= k < |s| - |r| ==> s[k] == ' '
    decreases |s|
  {
    if s != [] && s[0] == ' ' {
      StripLeftSuffix(s[1..]);
    }
  }

  /** `rstrip` removes exactly a run of trailing spaces: what is left is a prefix. */
  lemma {:induction false} StripRightPrefix(s: string)
    ensures var r := StripRight(s);
      r == s[..|r|] && forall k :: |r| <= k < |s| ==> s[k] == ' '
    decreases |s|
  {
    if s != [] && s[|s| - 1] == ' ' {
      StripRightPrefix(s[..|s| - 1]);
    }
  }

  /**
   * Python's `s.strip(' ')`: what is left once every space at either end is
   * removed. Only the space character is removed, not tabs or newlines.
   */
  function Strip(s: string): (r: string)
    ensures Stripped(r)
  {
    StripRight(StripLeft(s))
  }

  /** The stripped text is the infix of `s` between a run of spaces at either end. */
  lemma StripInfix(s: string)
    ensures var i := |s| - |StripLeft(s)|; var r := Strip(s);
      i + |r| <= |s| && r == s[i..i + |r|] &&
      (forall k :: 0 <= k < i ==> s[k] == ' ') &&
      (forall k :: i + |r| <= k < |s| ==> s[k] == ' ')
  {
    var l := StripLeft(s);
    var i := |s| - |l|;
    var r := StripRight(l);
    StripLeftSuffix(s);
    StripRightPrefix(l);
    assert r == s[i..i + |r|];
    forall k | i + |r| <= k < |s|
      ensures s[k] == ' '
    {
      assert s[k] == l[k - i];
    }
  }

  /** Stripping a string with no space at either end leaves it unchanged. */
  lemma StripKeepsStripped(s: string)
    requires Stripped(s)
    ensures Strip(s) == s
  {
    assert StripLeft(s) == s;
  }

  /** A leading space makes no difference to the stripped text. */
  lemma StripLeadingSpace(s: string)
    ensures Strip([' '] + s) == Strip(s)
  {
    assert ([' '] + s)[1..] == s;
  }

  /** Python's `xs[:n]`. */
  function Take<T>(xs: seq<T>, n: nat): (r: seq<T>)
    ensures |r| == if |xs| <= n then |xs| else n
    ensures r == xs[..|r|]
  {
    if |xs| <= n then xs else xs[..n]
  }

  function Pow10(w: nat): (p: nat)
    ensures p >= 1
  {
    if w == 0 then 1 else 10 * Pow10(w - 1)
  }

  predicate IsDigits(s: string) {
    forall k :: 0 <= k < |s| ==> '0' <= s[k] <= '9'
  }

  function DigitChar(d: nat): (c: char)
    requires d < 10
    ensures '0' <= c <= '9'
  {
    (48 + d) as char
  }

  /** The number that a string of decimal digits denotes. */
  function Value(s: string): nat
    requires IsDigits(s)
  {
    if s == [] then 0 else 10 * Value(s[..|s| - 1]) + (s[|s| - 1] as int - 48)
  }

  /**
   * The last `width` decimal digits of `n`, zero-padded on the left: what
   * `strftime` prints for a field of fixed width.
   */
  function Fixed(n: nat, width: nat): (r: string)
    ensures |r| == width
  {
    if width == 0 then "" else Fixed(n / 10, width - 1) + [DigitChar(n % 10)]
  }

  /** The padded form consists of decimal digits only. */
  lemma {:induction false} FixedDigits(n: nat, width: nat)
    ensures IsDigits(Fixed(n, width))
  {
    if width > 0 {
      FixedDigits(n / 10, width - 1);
    }
  }

  /**
   * The padded form consists of decimal digits, and a number that fits in `width`
   * digits is read back from it.
   */
  lemma {:induction false} FixedValue(n: nat, width: nat)
    requires n < Pow10(width)
    ensures IsDigits(Fixed(n, width)) && Value(Fixed(n, width)) == n
  {
    if width > 0 {
      var f := Fixed(n / 10, width - 1);
      FixedDigits(n, width);
      assert n / 10 < Pow10(width - 1);
      FixedValue(n / 10, width - 1);
      assert (f + [DigitChar(n % 10)])[..|f|] == f;
    }
  }

  /** Numbers that fit in `width` digits have distinct padded forms. */
  lemma FixedInjective(a: nat, b: nat, width: nat)
    requires a < Pow10(width) && b < Pow10(width)
    requires Fixed(a, width) == Fixed(b, width)
    ensures a == b
  {
    FixedValue(a, width);
    FixedValue(b, width);
  }
}
