/** Small text and option helpers shared by the calculator model: Python's notion of
    whitespace, str.strip, str.split, str.rfind, decimal formatting with %d and the
    one-letter plural rule used in every error message. */
module Text {

  datatype Option<+T> = None | Some(value: T) {
    function GetOr(default: T): T {
      match this
      case Some(v) => v
      case None => default
    }
  }

  /** Python's str.isspace() for one character (the Unicode whitespace set that
      str.strip() and str.split() also use). */
  predicate IsSpace(c: char) {
    c == ' ' || ('\t' <= c <= '\r') || ('\U{1c}' <= c <= '\U{1f}') || c == '\U{85}' || c == '\U{a0}'
    || c == '\U{1680}' || ('\U{2000}' <= c <= '\U{200a}') || c == '\U{2028}' || c == '\U{2029}'
    || c == '\U{202f}' || c == '\U{205f}' || c == '\U{3000}'
  }

  /** The zeros of the blocks of ten Unicode decimal digits (general category Nd,
      Unicode 15.0) beyond ASCII and below U+10000, in increasing order. */
  const BmpDigitZeros: seq<int> := [
    0x660, 0x6F0, 0x7C0, 0x966, 0x9E6, 0xA66, 0xAE6, 0xB66,
    0xBE6, 0xC66, 0xCE6, 0xD66, 0xDE6, 0xE50, 0xED0, 0xF20,
    0x1040, 0x1090, 0x17E0, 0x1810, 0x1946, 0x19D0, 0x1A80, 0x1A90,
    0x1B50, 0x1BB0, 0x1C40, 0x1C50, 0xA620, 0xA8D0, 0xA900, 0xA9D0,
    0xA9F0, 0xAA50, 0xABF0, 0xFF10
  ]

  /** The zeros of the blocks of decimal digits in the supplementary planes, in
      increasing order. */
  const SupplementaryDigitZeros: seq<int> := [
    0x104A0, 0x10D30, 0x11066, 0x110F0, 0x11136, 0x111D0, 0x112F0, 0x11450,
    0x114D0, 0x11650, 0x116C0, 0x11730, 0x118E0, 0x11950, 0x11C50, 0x11D50,
    0x11DA0, 0x11F50, 0x16A60, 0x16AC0, 0x16B50, 0x1D7CE, 0x1D7D8, 0x1D7E2,
    0x1D7EC, 0x1D7F6, 0x1E140, 0x1E2F0, 0x1E4F0, 0x1E950, 0x1FBF0
  ]

  /** The zero of the block, from zeros[i] on, that holds x, or -1; the blocks are in
      increasing order, so the search stops at the first one above x. */
  function ZeroIn(x: int, zeros: seq<int>, i: nat): (z: int)
    requires i <= |zeros|
    ensures z == -1 || (z <= x < z + 10)
    decreases |zeros| - i
  {
    if i == |zeros| || x < zeros[i] then -1
    else if x < zeros[i] + 10 then zeros[i]
    else ZeroIn(x, zeros, i + 1)
  }

  /** The code point of the zero of the block of ten Unicode decimal digits that c
      belongs to, or -1 when c is not a decimal digit. Python's str.isdecimal(), the \d
      of a str pattern and int() all use these blocks: every block holds the digits zero
      to nine in order. */
  function DecimalZero(c: char): (z: int)
    ensures z == -1 || (0 <= z <= c as int < z + 10)
  {
    var x := c as int;
    if x < 0x30 then -1
    else if x < 0x3A then 0x30
    else if x < 0x660 then -1
    else if x < 0x10000 then ZeroIn(x, BmpDigitZeros, 0)
    else ZeroIn(x, SupplementaryDigitZeros, 0)
  }

  /** No block holds x when x lies below zeros[k] and above the blocks from zeros[i] to
      zeros[k - 1]. */
  lemma {:induction false} NoBlockFrom(x: int, zeros: seq<int>, i: nat, k: nat)
    requires i <= k < |zeros| && x < zeros[k]
    requires forall j :: i <= j < k ==> zeros[j] + 10 <= x
    ensures ZeroIn(x, zeros, i) == -1
    decreases k - i
  {
    if i < k {
      NoBlockFrom(x, zeros, i + 1, k);
    }
  }

  /** No whitespace character is a decimal digit. */
  lemma SpaceNotDigit(c: char)
    requires IsSpace(c)
    ensures !IsDigit(c)
  {
    var x := c as int;
    if 0x660 <= x < 0x17E0 {
      NoBlockFrom(x, BmpDigitZeros, 0, 18);
    } else if x >= 0x17E0 {
      NoBlockFrom(x, BmpDigitZeros, 0, 28);
    }
  }

  /** A Unicode decimal digit, as \d matches it in a str pattern. */
  predicate IsDigit(c: char) {
    DecimalZero(c) >= 0
  }

  predicate NoSpace(s: string) {
    forall i :: 0 <= i < |s| ==> !IsSpace(s[i])
  }

  /** The number of leading whitespace characters of s. */
  function LeadingSpace(s: string): (n: nat)
    ensures n <= |s|
    ensures forall i :: 0 <= i < n ==> IsSpace(s[i])
    ensures n < |s| ==> !IsSpace(s[n])
  {
    if s == [] || !IsSpace(s[0]) then 0 else 1 + LeadingSpace(s[1..])
  }

  /** The number of trailing whitespace characters of s. */
  function TrailingSpace(s: string): (n: nat)
    ensures n <= |s|
    ensures forall i :: |s| - n <= i < |s| ==> IsSpace(s[i])
    ensures n < |s| ==> !IsSpace(s[|s| - 1 - n])
  {
    if s == [] || !IsSpace(s[|s| - 1]) then 0 else 1 + TrailingSpace(s[..|s| - 1])
  }

  /** Python's str.strip() with no argument. */
  function Strip(s: string): (r: string)
    ensures |r| <= |s|
    ensures r != [] ==> !IsSpace(r[0]) && !IsSpace(r[|r| - 1])
    ensures (forall i :: 0 <= i < |s| ==> IsSpace(s[i])) <==> r == []
  {
    var a := LeadingSpace(s);
    if a == |s| then [] else
      var t := s[a..];
      var b := TrailingSpace(t);
      assert b < |t| by { assert !IsSpace(t[0]); }
      t[..|t| - b]
  }

  /** Python's str.split() with no argument: the maximal runs of non-whitespace. */
  function SplitWhitespace(s: string): (fields: seq<string>)
    ensures forall k :: 0 <= k < |fields| ==> fields[k] != [] && NoSpace(fields[k])
    decreases |s|
  {
    var a := LeadingSpace(s);
    if a == |s| then [] else
      var t := s[a..];
      var w := WordLength(t);
      assert t[..w] != [] && NoSpace(t[..w]);
      [t[..w]] + SplitWhitespace(t[w..])
  }

  /** A string that neither starts nor ends with whitespace is its own strip(). */
  lemma StripUnpadded(s: string)
    requires s != [] && !IsSpace(s[0]) && !IsSpace(s[|s| - 1])
    ensures Strip(s) == s
  {
    assert s[0..] == s;
    assert s[..|s|] == s;
  }

  /** split() of a word followed by nothing or by whitespace: the word, then the fields
      of the rest. */
  lemma SplitWhitespaceWord(w: string, rest: string)
    requires w != [] && NoSpace(w) && (rest == [] || IsSpace(rest[0]))
    ensures SplitWhitespace(w + rest) == [w] + SplitWhitespace(rest)
  {
    var t := w + rest;
    assert t[0..] == t;
    WordLengthOfWord(w, rest);
    assert t[..|w|] == w && t[|w|..] == rest;
  }

  lemma {:induction false} WordLengthOfWord(w: string, rest: string)
    requires NoSpace(w) && (rest == [] || IsSpace(rest[0]))
    ensures WordLength(w + rest) == |w|
    decreases |w|
  {
    if w != [] {
      WordLengthOfWord(w[1..], rest);
      assert (w + rest)[1..] == w[1..] + rest;
    } else {
      assert w + rest == rest;
    }
  }

  /** Leading whitespace does not change split(). */
  lemma SplitWhitespaceSkip(s: string)
    requires s != [] && IsSpace(s[0])
    ensures SplitWhitespace(s) == SplitWhitespace(s[1..])
  {
    var a := LeadingSpace(s[1..]);
    assert LeadingSpace(s) == 1 + a;
    if a < |s| - 1 {
      assert s[1 + a..] == s[1..][a..];
    }
  }

  /** The length of the run of non-whitespace characters that starts s. */
  function WordLength(s: string): (n: nat)
    ensures n <= |s|
    ensures s != [] && !IsSpace(s[0]) ==> n > 0
    ensures forall i :: 0 <= i < n ==> !IsSpace(s[i])
    ensures n < |s| ==> IsSpace(s[n])
  {
    if s == [] || IsSpace(s[0]) then 0 else 1 + WordLength(s[1..])
  }

  /** Python's str.split(sep) for a one-character separator: the pieces between
      successive occurrences of sep (possibly empty; always at least one). */
  function SplitOn(s: string, sep: char): (fields: seq<string>)
    ensures |fields| >= 1
    ensures forall k :: 0 <= k < |fields| ==> sep !in fields[k]
  {
    if s == [] then [""]
    else if s[0] == sep then [""] + SplitOn(s[1..], sep)
    else
      var rest := SplitOn(s[1..], sep);
      [[s[0]] + rest[0]] + rest[1..]
  }

  /** Python's str.rfind(c): the offset of the last occurrence of c, or -1. */
  function RFind(s: string, c: char): (i: int)
    ensures -1 <= i < |s|
    ensures i >= 0 ==> s[i] == c
    ensures forall k :: i < k < |s| ==> s[k] != c
  {
    if s == [] then -1
    else if s[|s| - 1] == c then |s| - 1
    else
      var j := RFind(s[..|s| - 1], c);
      assert s[..|s| - 1] + [s[|s| - 1]] == s;
      j
  }

  /** The value of a decimal digit, its distance from the zero of its block (0 for any
      other character). */
  function DigitValue(c: char): (d: nat)
    ensures IsDigit(c) ==> d < 10
  {
    if IsDigit(c) then (c as int) - DecimalZero(c) else 0
  }

  /** int() of a non-empty string of decimal digits, from any blocks (it is only applied
      to such strings). */
  function DigitsValue(s: string): nat {
    if s == [] then 0 else DigitsValue(s[..|s| - 1]) * 10 + DigitValue(s[|s| - 1])
  }

  function DigitChar(d: nat): (c: char)
    requires d < 10
    ensures IsDigit(c) && DigitValue(c) == d
  {
    (('0' as int) + d) as char
  }

  /** '%d' % n for a natural number. */
  function NatToString(n: nat): (s: string)
    ensures s != [] && forall i :: 0 <= i < |s| ==> IsDigit(s[i])
    ensures DigitsValue(s) == n
  {
    if n < 10 then [DigitChar(n)]
    else
      var p := NatToString(n / 10);
      var s := p + [DigitChar(n % 10)];
      assert s[..|s| - 1] == p;
      s
  }

  /** '%d' % i for any integer. */
  function IntToString(i: int): string {
    if i < 0 then "-" + NatToString(-i) else NatToString(i)
  }

  /** The suffix every message uses after a count: '' when the count is 1, else 's'. */
  function Plural(n: int): string {
    if n == 1 then "" else "s"
  }

  /** sep.join(parts) */
  function Join(sep: string, parts: seq<string>): string {
    if parts == [] then ""
    else if |parts| == 1 then parts[0]
    else parts[0] + sep + Join(sep, parts[1..])
  }

  predicate StartsWith(s: string, prefix: string) {
    |prefix| <= |s| && s[..|prefix|] == prefix
  }

  function Reverse<T>(s: seq<T>): (r: seq<T>)
    ensures |r| == |s|
    ensures forall i :: 0 <= i < |s| ==> r[i] == s[|s| - 1 - i]
  {
    if s == [] then [] else Reverse(s[1..]) + [s[0]]
  }

  lemma ReverseInvolutive<T>(s: seq<T>)
    ensures Reverse(Reverse(s)) == s
  {
    assert forall i :: 0 <= i < |s| ==> Reverse(Reverse(s))[i] == s[i];
  }

  function Repeat<T>(x: T, n: nat): (r: seq<T>)
    ensures |r| == n
    ensures forall i :: 0 <= i < n ==> r[i] == x
  {
    if n == 0 then [] else [x] + Repeat(x, n - 1)
  }

  // ----- Python's order on str -----

  /** a <= b for Python strings: code point by code point, a prefix first. */
  predicate AtMost(a: string, b: string)
    decreases |a|
  {
    a == [] || (b != [] && (a[0] < b[0] || (a[0] == b[0] && AtMost(a[1..], b[1..]))))
  }

  lemma {:induction false} AtMostReflexive(a: string)
    ensures AtMost(a, a)
    decreases |a|
  {
    if a != [] {
      AtMostReflexive(a[1..]);
    }
  }

  lemma {:induction false} AtMostTotal(a: string, b: string)
    ensures AtMost(a, b) || AtMost(b, a)
    decreases |a|
  {
    if a != [] && b != [] && a[0] == b[0] {
      AtMostTotal(a[1..], b[1..]);
    }
  }

  lemma {:induction false} AtMostAntisymmetric(a: string, b: string)
    requires AtMost(a, b) && AtMost(b, a)
    ensures a == b
    decreases |a|
  {
    if a != [] {
      AtMostAntisymmetric(a[1..], b[1..]);
      assert a == [a[0]] + a[1..] && b == [b[0]] + b[1..];
    }
  }

  lemma {:induction false} AtMostTransitive(a: string, b: string, c: string)
    requires AtMost(a, b) && AtMost(b, c)
    ensures AtMost(a, c)
    decreases |a|
  {
    if a != [] && a[0] == b[0] && b[0] == c[0] {
      AtMostTransitive(a[1..], b[1..], c[1..]);
    }
  }

  /** x comes first among names in Python's order. */
  predicate IsLeast(x: string, names: set<string>) {
    x in names && forall n :: n in names ==> AtMost(x, n)
  }

  /** Every non-empty set of strings has a first one. */
  lemma {:induction false} LeastExists(names: set<string>)
    requires names != {}
    ensures exists x :: IsLeast(x, names)
    decreases |names|
  {
    var y :| y in names;
    AtMostReflexive(y);
    if names == {y} {
      assert IsLeast(y, names);
    } else {
      var rest := names - {y};
      LeastExists(rest);
      var x :| IsLeast(x, rest);
      AtMostTotal(x, y);
      if AtMost(x, y) {
        assert IsLeast(x, names);
      } else {
        forall n | n in names ensures AtMost(y, n) {
          if n != y {
            AtMostTransitive(y, x, n);
          }
        }
        assert IsLeast(y, names);
      }
    }
  }

  /** At most one string comes first. */
  lemma LeastUnique(names: set<string>)
    ensures forall x, y :: IsLeast(x, names) && IsLeast(y, names) ==> x == y
  {
    forall x, y | IsLeast(x, names) && IsLeast(y, names) ensures x == y {
      AtMostAntisymmetric(x, y);
    }
  }

  /** The first of a non-empty set of strings, as min() or sorted() finds it. */
  function Least(names: set<string>): (r: string)
    requires names != {}
    ensures IsLeast(r, names)
  {
    LeastExists(names);
    LeastUnique(names);
    var x :| IsLeast(x, names);
    x
  }
}
