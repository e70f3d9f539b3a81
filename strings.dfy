/**
 * The JavaScript string primitives the model relies on: decimal rendering of
 * numbers (`String(n)`), `Number(s)` on decimal text, `padStart`, `split` on a
 * separator character and on whitespace runs, `trim`, and ASCII case mapping.
 */
module Strings {
  import opened Optional

  // ---------------------------------------------------------------------------
  // Decimal digits
  // ---------------------------------------------------------------------------

  predicate IsDigit(c: char) {
    '0' <= c <= '9'
  }

  predicate AllDigits(s: string) {
    forall i :: 0 <= i < |s| ==> IsDigit(s[i])
  }

  function DigitChar(d: nat): (c: char)
    requires d < 10
    ensures IsDigit(c) && (c as int) - ('0' as int) == d
  {
    (('0' as int) + d) as char
  }

  function DigitValue(c: char): (d: nat)
    requires IsDigit(c)
    ensures d < 10 && DigitChar(d) == c
  {
    (c as int) - ('0' as int)
  }

  /** `String(n)` for a natural number: its decimal digits, without leading zeros. */
  function NatToString(n: nat): (s: string)
    ensures |s| >= 1 && AllDigits(s)
    ensures |s| > 1 ==> s[0] != '0'
    ensures '-' !in s
  {
    if n < 10 then [DigitChar(n)] else NatToString(n / 10) + [DigitChar(n % 10)]
  }

  /** `String(i)` for an integer: a minus sign before the digits of a negative number. */
  function IntToString(i: int): (s: string)
    ensures i >= 0 ==> s == NatToString(i)
    ensures i < 0 ==> s == "-" + NatToString(-i)
  {
    if i < 0 then "-" + NatToString(-i) else NatToString(i)
  }

  /** `String(x)` for a number that may be NaN (None). */
  function NumberToString(x: Option<int>): (s: string)
    ensures x.None? ==> s == "NaN"
    ensures x.Some? ==> s == IntToString(x.value)
  {
    match x
    case None => "NaN"
    case Some(i) => IntToString(i)
  }

  /** The value of a string of decimal digits; the empty string has value 0. */
  function DigitsValue(s: string): nat
    requires AllDigits(s)
  {
    if s == [] then 0 else DigitsValue(s[..|s| - 1]) * 10 + DigitValue(s[|s| - 1])
  }

  /**
   * JavaScript's `Number(s)` on the strings this application produces: the
   * empty string is 0, a string of decimal digits is its value, and anything
   * else is NaN, written None.
   */
  function ParseNumber(s: string): (r: Option<int>)
    ensures r.Some? <==> AllDigits(s)
    ensures r.Some? ==> r.value >= 0
    ensures s == "" ==> r == Some(0)
  {
    if AllDigits(s) then Some(DigitsValue(s)) else None
  }

  /** The value of a two- or four-digit string, digit by digit. */
  lemma DigitsValueShort(s: string)
    requires AllDigits(s) && (|s| == 2 || |s| == 4)
    ensures |s| == 2 ==> DigitsValue(s) == 10 * DigitValue(s[0]) + DigitValue(s[1])
    ensures |s| == 4 ==> (DigitsValue(s) ==
      1000 * DigitValue(s[0]) + 100 * DigitValue(s[1]) + 10 * DigitValue(s[2]) + DigitValue(s[3]))
  {
    assert s[..|s| - 1][..|s| - 2] == s[..|s| - 2];
    if |s| == 4 {
      assert s[..2][..1] == s[..1];
      assert s[..3][..2] == s[..2];
      assert s[..1][..0] == [];
    } else {
      assert s[..1][..0] == [];
    }
  }

  lemma {:induction false} NatToStringRoundTrip(n: nat)
    ensures DigitsValue(NatToString(n)) == n
    ensures ParseNumber(NatToString(n)) == Some(n)
  {
    if n >= 10 {
      NatToStringRoundTrip(n / 10);
      var s := NatToString(n);
      assert s[..|s| - 1] == NatToString(n / 10);
    }
  }

  /** The number of decimal digits `String(n)` has, for the ranges the model needs. */
  lemma NatToStringLength(n: nat)
    ensures n < 10 ==> |NatToString(n)| == 1
    ensures 10 <= n < 100 ==> |NatToString(n)| == 2
    ensures 100 <= n < 1000 ==> |NatToString(n)| == 3
    ensures 1000 <= n < 10000 ==> |NatToString(n)| == 4
  {
    if n >= 10 {
      NatToStringLength(n / 10);
    }
  }

  lemma {:induction false} LeadingZeros(k: nat, s: string)
    requires AllDigits(s)
    ensures AllDigits(seq(k, _ => '0') + s)
    ensures DigitsValue(seq(k, _ => '0') + s) == DigitsValue(s)
    decreases k + |s|
  {
    var z := seq(k, _ => '0');
    if s != [] {
      var t := s[..|s| - 1];
      LeadingZeros(k, t);
      assert (z + s)[..|z + s| - 1] == z + t;
    } else {
      assert z + s == z;
      if k > 0 {
        assert z[..k - 1] == seq(k - 1, _ => '0');
        LeadingZeros(k - 1, s);
        assert z[..k - 1] + s == z[..k - 1];
      }
    }
  }

  // ---------------------------------------------------------------------------
  // padStart
  // ---------------------------------------------------------------------------

  /** `s.padStart(width, c)` with a one-character pad string. */
  function PadStart(s: string, width: nat, c: char): (r: string)
    ensures |r| == if |s| >= width then |s| else width
    ensures r[|r| - |s|..] == s
    ensures forall i :: 0 <= i < |r| - |s| ==> r[i] == c
  {
    if |s| >= width then s else seq(width - |s|, _ => c) + s
  }

  /** `String(n).padStart(width, '0')`. */
  function ZeroPad(n: int, width: nat): string {
    PadStart(IntToString(n), width, '0')
  }

  /** Zero-padding keeps the digits readable: the padded text parses back to `n`. */
  lemma ZeroPadRoundTrip(n: nat, width: nat)
    ensures AllDigits(ZeroPad(n, width))
    ensures ParseNumber(ZeroPad(n, width)) == Some(n)
    ensures '-' !in ZeroPad(n, width)
  {
    var s := NatToString(n);
    NatToStringRoundTrip(n);
    if |s| < width {
      LeadingZeros(width - |s|, s);
    }
  }

  /** A zero-padded two- or four-digit field: its text, its length and the value it reads back as. */
  lemma ZeroPadField(n: nat, width: nat) returns (s: string)
    requires width == 2 || width == 4
    requires width == 2 ==> n < 100
    requires width == 4 ==> n < 10000
    ensures s == ZeroPad(n, width) && |s| == width && AllDigits(s) && DigitsValue(s) == n
  {
    s := ZeroPad(n, width);
    ZeroPadLength(n, width);
    ZeroPadRoundTrip(n, width);
  }

  lemma ZeroPadLength(n: nat, width: nat)
    requires width == 2 || width == 4
    requires width == 2 ==> n < 100
    requires width == 4 ==> n < 10000
    ensures |ZeroPad(n, width)| == width
  {
    NatToStringLength(n);
  }

  // ---------------------------------------------------------------------------
  // split on one character
  // ---------------------------------------------------------------------------

  function IndexOf(s: string, c: char): (i: nat)
    requires c in s
    ensures i < |s| && s[i] == c && c !in s[..i]
  {
    if s[0] == c then 0 else 1 + IndexOf(s[1..], c)
  }

  /** `s.split(sep)` for a one-character separator. */
  function Split(s: string, sep: char): (parts: seq<string>)
    ensures |parts| >= 1
    ensures forall i :: 0 <= i < |parts| ==> sep !in parts[i]
    ensures sep !in s ==> parts == [s]
    ensures |parts[0]| <= |s| && parts[0] == s[..|parts[0]|]
    ensures |parts[0]| < |s| ==> s[|parts[0]|] == sep
    decreases |s|
  {
    if sep !in s then [s]
    else
      var i := IndexOf(s, sep);
      [s[..i]] + Split(s[i + 1..], sep)
  }

  /** The first occurrence is the only index with `c` and no earlier `c`. */
  lemma {:induction false} IndexOfUnique(s: string, c: char, j: nat)
    requires j < |s| && s[j] == c && c !in s[..j]
    ensures IndexOf(s, c) == j
  {
    if j > 0 {
      assert s[0] in s[..j];
      assert s[1..][j - 1] == c;
      assert s[1..][..j - 1] == s[1..j];
      assert forall x :: x in s[1..j] ==> x in s[..j];
      IndexOfUnique(s[1..], c, j - 1);
    }
  }

  /** Three dash-free fields joined by dashes split back into those fields. */
  lemma SplitThree(a: string, b: string, c: string)
    requires '-' !in a && '-' !in b && '-' !in c
    ensures Split(a + "-" + b + "-" + c, '-') == [a, b, c]
  {
    assert a + "-" + b + "-" + c == a + ['-'] + (b + ['-'] + c);
    SplitFirst(a, '-', b + ['-'] + c);
    SplitFirst(b, '-', c);
  }

  /** Splitting peels off the text before the first separator. */
  lemma SplitFirst(a: string, sep: char, b: string)
    requires sep !in a
    ensures Split(a + [sep] + b, sep) == [a] + Split(b, sep)
  {
    var s := a + [sep] + b;
    assert s[..|a|] == a;
    IndexOfUnique(s, sep, |a|);
    assert s[|a| + 1..] == b;
  }

  // ---------------------------------------------------------------------------
  // Case mapping (ASCII letters only)
  // ---------------------------------------------------------------------------

  function ToLowerChar(c: char): char {
    if 'A' <= c <= 'Z' then ((c as int) + 32) as char else c
  }

  function ToUpperChar(c: char): char {
    if 'a' <= c <= 'z' then ((c as int) - 32) as char else c
  }

  /** `s.toLowerCase()` on ASCII letters. */
  function ToLower(s: string): (r: string)
    ensures |r| == |s|
    ensures forall i :: 0 <= i < |s| ==> r[i] == ToLowerChar(s[i])
  {
    seq(|s|, i requires 0 <= i < |s| => ToLowerChar(s[i]))
  }

  /** `s.toUpperCase()` on ASCII letters. */
  function ToUpper(s: string): (r: string)
    ensures |r| == |s|
    ensures forall i :: 0 <= i < |s| ==> r[i] == ToUpperChar(s[i])
  {
    seq(|s|, i requires 0 <= i < |s| => ToUpperChar(s[i]))
  }

  // ---------------------------------------------------------------------------
  // Whitespace: trim and split(/\s+/)
  // ---------------------------------------------------------------------------

  /**
   * The characters JavaScript's `\s` and `trim` treat as white space: the
   * WhiteSpace and LineTerminator productions of ECMAScript.
   */
  predicate IsWhitespace(c: char) {
    || c == ' ' || c == '\t' || c == '\n' || c == '\r'
    || c == '\U{000B}' || c == '\U{000C}' || c == '\U{00A0}' || c == '\U{FEFF}'
    || c == '\U{1680}' || ('\U{2000}' <= c <= '\U{200A}')
    || c == '\U{2028}' || c == '\U{2029}' || c == '\U{202F}' || c == '\U{205F}'
    || c == '\U{3000}'
  }

  predicate AllWhitespace(s: string) {
    forall i :: 0 <= i < |s| ==> IsWhitespace(s[i])
  }

  predicate NoWhitespace(s: string) {
    forall i :: 0 <= i < |s| ==> !IsWhitespace(s[i])
  }

  function TrimStart(s: string): (r: string)
    ensures |r| <= |s| && r == s[|s| - |r|..]
    ensures AllWhitespace(s[..|s| - |r|])
    ensures r != [] ==> !IsWhitespace(r[0])
  {
    if s != [] && IsWhitespace(s[0]) then TrimStart(s[1..]) else s
  }

  function TrimEnd(s: string): (r: string)
    ensures |r| <= |s| && r == s[..|r|]
    ensures AllWhitespace(s[|r|..])
    ensures r != [] ==> !IsWhitespace(r[|r| - 1])
  {
    if s != [] && IsWhitespace(s[|s| - 1]) then TrimEnd(s[..|s| - 1]) else s
  }

  /** `s.trim()`. */
  function Trim(s: string): (r: string)
    ensures r != [] ==> !IsWhitespace(r[0]) && !IsWhitespace(r[|r| - 1])
  {
    TrimEnd(TrimStart(s))
  }

  /** The index just past the run of white space that starts at `i`. */
  function WhitespaceRunEnd(s: string, i: nat): (j: nat)
    requires i <= |s|
    ensures i <= j <= |s|
    ensures forall k :: i <= k < j ==> IsWhitespace(s[k])
    ensures j < |s| ==> !IsWhitespace(s[j])
    decreases |s| - i
  {
    if i < |s| && IsWhitespace(s[i]) then WhitespaceRunEnd(s, i + 1) else i
  }

  function FirstWhitespace(s: string): (i: nat)
    requires !NoWhitespace(s)
    ensures i < |s| && IsWhitespace(s[i]) && NoWhitespace(s[..i])
  {
    if IsWhitespace(s[0]) then 0 else 1 + FirstWhitespace(s[1..])
  }

  /** `s.split(/\s+/)`: the pieces between maximal runs of white space. */
  function SplitWhitespace(s: string): (parts: seq<string>)
    ensures |parts| >= 1
    ensures forall k :: 0 <= k < |parts| ==> NoWhitespace(parts[k])
    ensures |parts| == 1 <==> NoWhitespace(s)
    ensures NoWhitespace(s) ==> parts == [s]
    ensures |parts[0]| <= |s| && parts[0] == s[..|parts[0]|]
    ensures |parts[0]| < |s| ==> IsWhitespace(s[|parts[0]|])
    decreases |s|
  {
    if NoWhitespace(s) then [s]
    else
      var i := FirstWhitespace(s);
      var j := WhitespaceRunEnd(s, i);
      assert j > i;
      [s[..i]] + SplitWhitespace(s[j..])
  }

  /** One step of the split: the piece before the first run of white space, then the split of the rest. */
  lemma SplitStep(s: string) returns (i: nat, j: nat)
    requires !NoWhitespace(s)
    ensures i < j <= |s| && IsWhitespace(s[i])
    ensures forall k :: i <= k < j ==> IsWhitespace(s[k])
    ensures SplitWhitespace(s) == [s[..i]] + SplitWhitespace(s[j..])
  {
    i := FirstWhitespace(s);
    j := WhitespaceRunEnd(s, i);
  }

  /** A string that ends in a character other than white space has a non-empty last piece. */
  lemma {:induction false} SplitWhitespaceLast(s: string) returns (parts: seq<string>)
    requires s != [] && !IsWhitespace(s[|s| - 1])
    ensures parts == SplitWhitespace(s) && parts[|parts| - 1] != []
    decreases |s|
  {
    parts := SplitWhitespace(s);
    if !NoWhitespace(s) {
      var head, t := SplitStepVisible(s);
      var rest := SplitWhitespaceLast(t);
      LastOfCons(head, rest);
    }
  }

  /** The step of the split of a string whose last character is not white space leaves such a string. */
  lemma SplitStepVisible(s: string) returns (head: string, t: string)
    requires !NoWhitespace(s) && s != [] && !IsWhitespace(s[|s| - 1])
    ensures |t| < |s| && t != [] && t[|t| - 1] == s[|s| - 1]
    ensures SplitWhitespace(s) == [head] + SplitWhitespace(t)
  {
    var i, j := SplitStep(s);
    RunEndsBeforeLast(s, i, j);
    head, t := s[..i], s[j..];
  }

  /** A run of white space cannot reach a last character that is not white space. */
  lemma RunEndsBeforeLast(s: string, i: nat, j: nat)
    requires i < j <= |s| && !IsWhitespace(s[|s| - 1])
    requires forall k :: i <= k < j ==> IsWhitespace(s[k])
    ensures j < |s|
  {
    if j == |s| {
      assert false;
    }
  }

  lemma LastOfCons(head: string, rest: seq<string>)
    requires |rest| >= 1
    ensures var parts := [head] + rest; parts[|parts| - 1] == rest[|rest| - 1]
  {
  }

  /** A string with visible ends splits into words whose first and last are not empty. */
  lemma SplitTrimmed(t: string) returns (parts: seq<string>)
    requires t != [] && !IsWhitespace(t[0]) && !IsWhitespace(t[|t| - 1])
    ensures parts == SplitWhitespace(t)
    ensures |parts| >= 1 && parts[0] != [] && parts[0][0] == t[0] && parts[|parts| - 1] != []
  {
    parts := SplitWhitespaceLast(t);
  }

  /** A string trims to nothing exactly when it is all white space. */
  lemma TrimBlank(s: string)
    ensures Trim(s) == [] <==> AllWhitespace(s)
  {
    var t := TrimStart(s);
    if t != [] {
      assert !IsWhitespace(s[|s| - |t|]);
      assert TrimEnd(t)[..1] == t[..1];
    } else {
      assert s[..|s|] == s;
    }
  }

  /** The trimmed string starts with the first character that is not white space. */
  lemma TrimFirst(s: string)
    requires Trim(s) != []
    ensures Trim(s)[0] == TrimStart(s)[0]
  {
  }

  /** White space added at either end does not change what `trim` returns. */
  lemma TrimPadded(pre: string, s: string, post: string)
    requires AllWhitespace(pre) && AllWhitespace(post)
    ensures Trim(pre + s + post) == Trim(s)
  {
    var u := s + post;
    assert pre + s + post == pre + u;
    TrimStartPadded(pre, u);
    if AllWhitespace(s) {
      BlankConcat(s, post);
      TrimStartBlank(u);
      TrimStartBlank(s);
    } else {
      TrimStartKeepsEnd(s, post);
      TrimEndPadded(TrimStart(s), post);
    }
  }

  lemma BlankConcat(s: string, post: string)
    requires AllWhitespace(s) && AllWhitespace(post)
    ensures AllWhitespace(s + post)
  {
    forall i | 0 <= i < |s + post|
      ensures IsWhitespace((s + post)[i])
    {
      if i < |s| {
        assert (s + post)[i] == s[i];
      } else {
        assert (s + post)[i] == post[i - |s|];
      }
    }
  }

  lemma {:induction false} TrimStartPadded(pre: string, s: string)
    requires AllWhitespace(pre)
    ensures TrimStart(pre + s) == TrimStart(s)
    decreases |pre|
  {
    if pre != [] {
      assert (pre + s)[1..] == pre[1..] + s;
      TrimStartPadded(pre[1..], s);
    } else {
      assert pre + s == s;
    }
  }

  lemma TrimStartBlank(s: string)
    requires AllWhitespace(s)
    ensures TrimStart(s) == []
  {
  }

  lemma {:induction false} TrimStartKeepsEnd(s: string, post: string)
    requires !AllWhitespace(s)
    ensures TrimStart(s + post) == TrimStart(s) + post
    decreases |s|
  {
    if IsWhitespace(s[0]) {
      assert (s + post)[1..] == s[1..] + post;
      TrimStartKeepsEnd(s[1..], post);
    }
  }

  lemma {:induction false} TrimEndPadded(s: string, post: string)
    requires AllWhitespace(post)
    ensures TrimEnd(s + post) == TrimEnd(s)
    decreases |post|
  {
    if post != [] {
      var p := post[..|post| - 1];
      assert (s + post)[..|s + post| - 1] == s + p;
      TrimEndPadded(s, p);
    } else {
      assert s + post == s;
    }
  }

  /** A string whose ends are not white space trims to itself. */
  lemma TrimTrimmed(s: string)
    requires s != [] && !IsWhitespace(s[0]) && !IsWhitespace(s[|s| - 1])
    ensures Trim(s) == s
  {
  }

  lemma {:induction false} FirstWhitespaceAt(s: string, i: nat)
    requires i < |s| && IsWhitespace(s[i]) && NoWhitespace(s[..i])
    ensures !NoWhitespace(s) && FirstWhitespace(s) == i
    decreases i
  {
    if i > 0 {
      assert s[1..][..i - 1] == s[1..i];
      FirstWhitespaceAt(s[1..], i - 1);
    }
  }

  /** A word, one space and the rest split into the word and the rest's pieces. */
  lemma SplitWhitespaceFirst(word: string, rest: string)
    requires NoWhitespace(word) && rest != [] && !IsWhitespace(rest[0])
    ensures SplitWhitespace(word + " " + rest) == [word] + SplitWhitespace(rest)
  {
    var s := word + " " + rest;
    assert s[..|word|] == word;
    FirstWhitespaceAt(s, |word|);
    assert s[|word| + 1] == rest[0];
    assert WhitespaceRunEnd(s, |word| + 1) == |word| + 1;
    assert s[|word| + 1..] == rest;
  }
}
