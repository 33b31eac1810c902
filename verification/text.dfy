/**
  Text helpers the plugin relies on through PHP itself or the host framework:
  the decimal rendering of an integer guid (string interpolation in PHP) and
  the '/' split that turns a request path into the segments a page handler
  receives.
 */
module Text {

  predicate IsDigit(c: char) {
    '0' <= c <= '9'
  }

  predicate AllDigits(s: string) {
    forall i :: 0 <= i < |s| ==> IsDigit(s[i])
  }

  function DigitChar(d: nat): (c: char)
    requires d < 10
    ensures IsDigit(c)
  {
    ('0' as int + d) as char
  }

  function DigitValue(c: char): (d: nat)
    requires IsDigit(c)
    ensures d < 10 && DigitChar(d) == c
  {
    c as int - '0' as int
  }

  /** Decimal rendering of a natural number, most significant digit first, no leading zeros. */
  function NatToString(n: nat): (s: string)
    ensures |s| >= 1
    ensures AllDigits(s)
    ensures |s| > 1 ==> s[0] != '0'
    decreases n
  {
    if n < 10 then [DigitChar(n)] else NatToString(n / 10) + [DigitChar(n % 10)]
  }

  /** Reads a string of decimal digits back as a number (the empty string reads as 0). */
  function ParseNat(s: string): (n: nat)
    requires AllDigits(s)
    decreases |s|
  {
    if |s| == 0 then 0 else ParseNat(s[..|s| - 1]) * 10 + DigitValue(s[|s| - 1])
  }

  /** Rendering a guid and reading it back gives the same guid. */
  lemma {:induction false} ParseNatToString(n: nat)
    ensures ParseNat(NatToString(n)) == n
    decreases n
  {
    var s := NatToString(n);
    if n >= 10 {
      var p := NatToString(n / 10);
      assert s[..|s| - 1] == p;
      ParseNatToString(n / 10);
    }
  }

  /** Position of the first occurrence of `sep` in `s`. */
  function FirstIndex(s: string, sep: char): (i: nat)
    requires sep in s
    ensures i < |s| && s[i] == sep
    ensures sep !in s[..i]
  {
    if s[0] == sep then 0 else 1 + FirstIndex(s[1..], sep)
  }

  /** Splits `s` at every `sep`; the pieces never contain `sep` and there is always at least one. */
  function Split(s: string, sep: char): (parts: seq<string>)
    ensures |parts| >= 1
    ensures forall i :: 0 <= i < |parts| ==> sep !in parts[i]
    decreases |s|
  {
    if sep !in s then [s]
    else
      var i := FirstIndex(s, sep);
      [s[..i]] + Split(s[i + 1..], sep)
  }

  /** Joins pieces with `sep` between consecutive ones. */
  function Join(parts: seq<string>, sep: char): string
    requires |parts| >= 1
  {
    if |parts| == 1 then parts[0] else parts[0] + [sep] + Join(parts[1..], sep)
  }

  /** Joining the pieces of a split gives back the original text. */
  lemma {:induction false} JoinSplit(s: string, sep: char)
    ensures Join(Split(s, sep), sep) == s
    decreases |s|
  {
    if sep in s {
      var i := FirstIndex(s, sep);
      var rest := Split(s[i + 1..], sep);
      assert Split(s, sep) == [s[..i]] + rest;
      assert (Split(s, sep))[1..] == rest;
      JoinSplit(s[i + 1..], sep);
      assert s == s[..i] + [sep] + s[i + 1..];
    }
  }

  /** Splitting pieces that are joined back gives the same pieces, as long as no piece holds `sep`. */
  lemma {:induction false} SplitJoin(parts: seq<string>, sep: char)
    requires |parts| >= 1
    requires forall i :: 0 <= i < |parts| ==> sep !in parts[i]
    ensures Split(Join(parts, sep), sep) == parts
    decreases |parts|
  {
    if |parts| > 1 {
      var head, rest := parts[0], parts[1..];
      assert forall i :: 0 <= i < |rest| ==> rest[i] == parts[i + 1];
      SplitJoin(rest, sep);
      JoinCons(parts, sep);
      SplitCons(head, sep, Join(rest, sep));
      assert parts == [head] + rest;
    }
  }

  /** Join of two or more pieces, one step unfolded. */
  lemma JoinCons(parts: seq<string>, sep: char)
    requires |parts| > 1
    ensures Join(parts, sep) == parts[0] + [sep] + Join(parts[1..], sep)
  {
  }

  /** Split of a text whose first separator follows `a`, one step unfolded. */
  lemma {:induction false} SplitCons(a: string, sep: char, b: string)
    requires sep !in a
    ensures Split(a + [sep] + b, sep) == [a] + Split(b, sep)
  {
    var s := a + [sep] + b;
    FirstIndexAfterPrefix(a, sep, b);
    assert s[..|a|] == a;
    assert s[|a| + 1..] == b;
  }

  lemma {:induction false} FirstIndexAfterPrefix(a: string, sep: char, b: string)
    requires sep !in a
    ensures sep in a + [sep] + b
    ensures FirstIndex(a + [sep] + b, sep) == |a|
    decreases |a|
  {
    var s := a + [sep] + b;
    assert s[|a|] == sep;
    if |a| > 0 {
      assert s[0] == a[0];
      assert s[1..] == a[1..] + [sep] + b;
      FirstIndexAfterPrefix(a[1..], sep, b);
    }
  }
}
