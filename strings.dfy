/**
 String helpers the service relies on: the order used to sort the two ends of
 an edge, the decimal rendering of a distance inside a template string, and
 joining the DOT lines with a separator.
 */
module Strings {

  /**
   Lexicographic order on code points. It stands for `localeCompare`, whose
   locale rules are not modelled. For ids without `-`, or ids of one common
   length (`EdgeKeySameLength`), any total order gives the same edge
   deduplication; for `-`-containing ids of different lengths, which pairs
   share a key depends on the order chosen.

   `LexLeReflexive`, `LexLeTransitive`, `LexLeTotal` and `LexLeAntisymmetric`
   together make it a total order, which is what makes it a valid comparator
   for sorting the two ends of an edge.
   */
  predicate LexLe(a: string, b: string)
    decreases |a|
  {
    |a| == 0 || (|b| > 0 && (a[0] < b[0] || (a[0] == b[0] && LexLe(a[1..], b[1..]))))
  }

  lemma {:induction false} LexLeReflexive(a: string)
    ensures LexLe(a, a)
    decreases |a|
  {
    if |a| > 0 {
      LexLeReflexive(a[1..]);
    }
  }

  lemma {:induction false} LexLeTotal(a: string, b: string)
    ensures LexLe(a, b) || LexLe(b, a)
    decreases |a|
  {
    if |a| > 0 && |b| > 0 && a[0] == b[0] {
      LexLeTotal(a[1..], b[1..]);
    }
  }

  lemma {:induction false} LexLeAntisymmetric(a: string, b: string)
    requires LexLe(a, b) && LexLe(b, a)
    ensures a == b
    decreases |a|
  {
    if |a| > 0 {
      LexLeAntisymmetric(a[1..], b[1..]);
      assert a == [a[0]] + a[1..];
      assert b == [b[0]] + b[1..];
    }
  }

  lemma {:induction false} LexLeTransitive(a: string, b: string, c: string)
    requires LexLe(a, b) && LexLe(b, c)
    ensures LexLe(a, c)
    decreases |a|
  {
    if |a| > 0 && a[0] == b[0] && b[0] == c[0] {
      LexLeTransitive(a[1..], b[1..], c[1..]);
    }
  }

  /** The decimal digit for `n`. */
  function DigitChar(n: nat): (c: char)
    requires n < 10
    ensures '0' <= c <= '9' && (c - '0') as int == n
  {
    "0123456789"[n]
  }

  predicate IsDigits(s: string)
  {
    forall i :: 0 <= i < |s| ==> '0' <= s[i] <= '9'
  }

  /** Decimal rendering of a natural number, without leading zeros. */
  function NatToString(n: nat): (s: string)
    ensures |s| >= 1 && IsDigits(s)
    ensures |s| > 1 ==> s[0] != '0'
    decreases n
  {
    if n < 10 then [DigitChar(n)] else NatToString(n / 10) + [DigitChar(n % 10)]
  }

  /** How a JavaScript template literal renders an integer number. */
  function IntToString(i: int): (s: string)
    ensures |s| >= 1
    ensures (s[0] == '-') == (i < 0)
  {
    if i < 0 then "-" + NatToString(-i) else NatToString(i)
  }

  /** Reads back a string of decimal digits. */
  function ParseNat(s: string): (n: nat)
    requires IsDigits(s)
    decreases |s|
  {
    if |s| == 0 then 0 else ParseNat(s[..|s| - 1]) * 10 + (s[|s| - 1] - '0') as int
  }

  /** A minus sign followed by digits, or digits alone. */
  predicate IsNumeral(s: string)
  {
    |s| >= 1 && if s[0] == '-' then IsDigits(s[1..]) else IsDigits(s)
  }

  /** Reads back an optionally signed decimal integer. */
  function ParseInt(s: string): int
    requires IsNumeral(s)
  {
    if s[0] == '-' then -(ParseNat(s[1..]) as int) else ParseNat(s)
  }

  lemma {:induction false} NatToStringRoundTrip(n: nat)
    ensures ParseNat(NatToString(n)) == n
    decreases n
  {
    if n >= 10 {
      var s := NatToString(n);
      NatToStringRoundTrip(n / 10);
      assert s[..|s| - 1] == NatToString(n / 10);
    }
  }

  lemma {:induction false} IntToStringRoundTrip(i: int)
    ensures IsNumeral(IntToString(i)) && ParseInt(IntToString(i)) == i
  {
    if i < 0 {
      var t := NatToString(-i);
      var s := "-" + t;
      assert s[1..] == t;
      NatToStringRoundTrip(-i);
    } else {
      NatToStringRoundTrip(i);
    }
  }

  /** Distinct integers are rendered differently. */
  lemma {:induction false} IntToStringInjective(i: int, j: int)
    requires IntToString(i) == IntToString(j)
    ensures i == j
  {
    IntToStringRoundTrip(i);
    IntToStringRoundTrip(j);
  }

  /** `Array.prototype.join`: the elements with `sep` between consecutive ones. */
  function Join(lines: seq<string>, sep: string): string
  {
    if |lines| == 0 then ""
    else if |lines| == 1 then lines[0]
    else lines[0] + sep + Join(lines[1..], sep)
  }

  lemma {:induction false} JoinAppend(a: seq<string>, b: seq<string>, sep: string)
    requires |a| > 0 && |b| > 0
    ensures Join(a + b, sep) == Join(a, sep) + sep + Join(b, sep)
    decreases |a|
  {
    assert (a + b)[0] == a[0];
    if |a| == 1 {
      assert (a + b)[1..] == b;
    } else {
      assert (a + b)[1..] == a[1..] + b;
      JoinAppend(a[1..], b, sep);
    }
  }

  /** `String.prototype.split` on one separator character. */
  function Split(s: string, c: char): (parts: seq<string>)
    ensures |parts| >= 1
    decreases |s|
  {
    if |s| == 0 then [""]
    else
      var rest := Split(s[1..], c);
      if s[0] == c then [""] + rest else [[s[0]] + rest[0]] + rest[1..]
  }

  lemma {:induction false} SplitWithoutSeparator(x: string, c: char)
    requires c !in x
    ensures Split(x, c) == [x]
    decreases |x|
  {
    if |x| > 0 {
      SplitWithoutSeparator(x[1..], c);
      assert x == [x[0]] + x[1..];
    }
  }

  lemma {:induction false} SplitAtFirstSeparator(x: string, y: string, c: char)
    requires c !in x
    ensures Split(x + [c] + y, c) == [x] + Split(y, c)
    decreases |x|
  {
    var s := x + [c] + y;
    if |x| == 0 {
      assert s[1..] == y;
    } else {
      assert s[1..] == x[1..] + [c] + y;
      SplitAtFirstSeparator(x[1..], y, c);
      assert x == [x[0]] + x[1..];
    }
  }

  /** Splitting the joined text on the separator gives the lines back when no line holds it. */
  lemma {:induction false} SplitJoin(lines: seq<string>, c: char)
    requires |lines| > 0
    requires forall i :: 0 <= i < |lines| ==> c !in lines[i]
    ensures Split(Join(lines, [c]), c) == lines
    decreases |lines|
  {
    if |lines| == 1 {
      SplitWithoutSeparator(lines[0], c);
    } else {
      SplitJoin(lines[1..], c);
      SplitAtFirstSeparator(lines[0], Join(lines[1..], [c]), c);
      assert lines == [lines[0]] + lines[1..];
    }
  }
}
