/**
  The string primitives the generator leans on: Python's `sep.join(parts)`
  and the decimal rendering an f-string gives an integer (`f'{n}'`).
  `Split`, Python's `s.split(c)`, is never called by the generator: it is
  the inverse through which the model states what a join produced.
 */
module Text {

  /** `sep.join(parts)`: the parts with `sep` between neighbours. */
  function Join(parts: seq<string>, sep: string): (r: string)
    ensures |parts| == 0 ==> r == ""
    ensures |parts| == 1 ==> r == parts[0]
    ensures |parts| > 0 ==> parts[0] <= r
  {
    if |parts| == 0 then ""
    else if |parts| == 1 then parts[0]
    else parts[0] + sep + Join(parts[1..], sep)
  }

  /**
    `s.split(c)` for a one-character separator: never empty. Not used by
    the generator; it serves as the inverse of `Join` in the lemmas below.
   */
  function Split(s: string, c: char): (r: seq<string>)
    ensures |r| >= 1
  {
    if s == [] then [""]
    else
      var rest := Split(s[1..], c);
      if s[0] == c then [""] + rest
      else [[s[0]] + rest[0]] + rest[1..]
  }

  /** The pieces of each string, one string after the other. */
  function SplitEach(parts: seq<string>, c: char): seq<string>
  {
    if parts == [] then [] else Split(parts[0], c) + SplitEach(parts[1..], c)
  }

  /** A string without the separator is a single piece. */
  lemma {:induction false} SplitWithoutSeparator(s: string, c: char)
    requires c !in s
    ensures Split(s, c) == [s]
  {
    if s != [] {
      assert c !in s[1..] by {
        forall i | 0 <= i < |s[1..]| ensures s[1..][i] != c { assert s[1..][i] == s[i + 1]; }
      }
      SplitWithoutSeparator(s[1..], c);
      assert [s[0]] + s[1..] == s;
    }
  }

  /** Splitting at a separator splits the two sides independently. */
  lemma {:induction false} SplitAround(x: string, c: char, y: string)
    ensures Split(x + [c] + y, c) == Split(x, c) + Split(y, c)
  {
    if x == [] {
      var s := x + [c] + y;
      assert s[0] == c && s[1..] == y;
    } else {
      SplitAround(x[1..], c, y);
      SplitAroundStep(x[0], x[1..], c, y);
      assert [x[0]] + x[1..] == x;
    }
  }

  /** The step of `SplitAround`: one more character `h` in front of the separator. */
  lemma SplitAroundStep(h: char, t: string, c: char, y: string)
    requires Split(t + [c] + y, c) == Split(t, c) + Split(y, c)
    ensures Split([h] + t + [c] + y, c) == Split([h] + t, c) + Split(y, c)
  {
    var rest := t + [c] + y;
    var sx, sy := Split(t, c), Split(y, c);
    assert Split([h] + t + [c] + y, c) == Split([h] + rest, c) by {
      assert [h] + t + [c] + y == [h] + rest;
    }
    SplitCons(h, rest, c);
    SplitCons(h, t, c);
    ConsAppend(h, c, sx, sy);
  }

  /** The cons step of `Split` commutes with appending the pieces after the first. */
  lemma ConsAppend(h: char, c: char, sx: seq<string>, sy: seq<string>)
    requires |sx| >= 1
    ensures (if h == c then [""] + (sx + sy) else [[h] + (sx + sy)[0]] + (sx + sy)[1..]) ==
      (if h == c then [""] + sx else [[h] + sx[0]] + sx[1..]) + sy
  {
    if h != c {
      assert (sx + sy)[0] == sx[0] && (sx + sy)[1..] == sx[1..] + sy;
    }
  }

  /** `Split` of a string with a first character `h`. */
  lemma SplitCons(h: char, t: string, c: char)
    ensures Split([h] + t, c) ==
      if h == c then [""] + Split(t, c) else [[h] + Split(t, c)[0]] + Split(t, c)[1..]
  {
    assert ([h] + t)[0] == h && ([h] + t)[1..] == t;
  }

  /** Snoc form of `Join`: appending a part appends the separator and the part. */
  lemma {:induction false} JoinAppend(parts: seq<string>, x: string, sep: string)
    requires |parts| > 0
    ensures Join(parts + [x], sep) == Join(parts, sep) + sep + x
  {
    if |parts| > 1 {
      assert (parts + [x])[1..] == parts[1..] + [x];
      JoinAppend(parts[1..], x, sep);
    }
  }

  /** Splitting a joined text yields the pieces of every part, in order. */
  lemma {:induction false} SplitJoin(parts: seq<string>, c: char)
    requires |parts| > 0
    ensures Split(Join(parts, [c]), c) == SplitEach(parts, c)
  {
    if |parts| == 1 {
      assert SplitEach(parts[1..], c) == [];
    } else {
      SplitAround(parts[0], c, Join(parts[1..], [c]));
      SplitJoin(parts[1..], c);
    }
  }

  /** Joining parts that hold no separator is undone by splitting. */
  lemma {:induction false} SplitJoinInverse(parts: seq<string>, c: char)
    requires |parts| > 0
    requires forall i :: 0 <= i < |parts| ==> c !in parts[i]
    ensures Split(Join(parts, [c]), c) == parts
  {
    SplitJoin(parts, c);
    SplitEachWithoutSeparator(parts, c);
  }

  lemma {:induction false} SplitEachWithoutSeparator(parts: seq<string>, c: char)
    requires forall i :: 0 <= i < |parts| ==> c !in parts[i]
    ensures SplitEach(parts, c) == parts
  {
    if parts != [] {
      SplitWithoutSeparator(parts[0], c);
      SplitEachWithoutSeparator(parts[1..], c);
      assert [parts[0]] + parts[1..] == parts;
    }
  }

  predicate IsDecimalDigit(c: char)
  {
    '0' <= c <= '9'
  }

  function DigitChar(d: nat): (c: char)
    requires d < 10
    ensures IsDecimalDigit(c)
  {
    ('0' as int + d) as char
  }

  /** `f'{n}'` for a non-negative `n`: decimal digits without leading zeros. */
  function NatToDecimal(n: nat): (r: string)
    ensures |r| >= 1
    ensures forall i :: 0 <= i < |r| ==> IsDecimalDigit(r[i])
    ensures |r| > 1 ==> r[0] != '0'
  {
    if n < 10 then [DigitChar(n)] else NatToDecimal(n / 10) + [DigitChar(n % 10)]
  }

  /** `f'{n}'` for any integer: a minus sign for negative values. */
  function IntToDecimal(n: int): (r: string)
    ensures |r| >= 1
    ensures r[0] == '-' <==> n < 0
    ensures forall i :: (if n < 0 then 1 else 0) <= i < |r| ==> IsDecimalDigit(r[i])
  {
    if n < 0 then "-" + NatToDecimal(-n) else NatToDecimal(n)
  }

  /** The integer a string of decimal digits denotes. */
  function ParseDecimal(s: string): nat
    requires forall i :: 0 <= i < |s| ==> IsDecimalDigit(s[i])
  {
    if s == [] then 0
    else ParseDecimal(s[..|s| - 1]) * 10 + DigitValue(s[|s| - 1])
  }

  function DigitValue(c: char): (d: nat)
    requires IsDecimalDigit(c)
    ensures d < 10
  {
    c as int - '0' as int
  }

  lemma {:induction false} DecimalRoundTrip(n: nat)
    ensures ParseDecimal(NatToDecimal(n)) == n
  {
    if n >= 10 {
      var s := NatToDecimal(n);
      assert s[..|s| - 1] == NatToDecimal(n / 10);
      DecimalRoundTrip(n / 10);
    }
  }

  /** Different naturals never render alike. */
  lemma NatToDecimalInjective(m: nat, n: nat)
    requires NatToDecimal(m) == NatToDecimal(n)
    ensures m == n
  {
    DecimalRoundTrip(m);
    DecimalRoundTrip(n);
  }

  /** Different integers never render alike. */
  lemma IntToDecimalInjective(a: int, b: int)
    requires IntToDecimal(a) == IntToDecimal(b)
    ensures a == b
  {
    if a < 0 && b < 0 {
      NegativeDecimal(a);
      NegativeDecimal(b);
      NatToDecimalInjective(-a, -b);
    } else if a >= 0 && b >= 0 {
      NatToDecimalInjective(a, b);
    }
  }

  lemma NegativeDecimal(n: int)
    requires n < 0
    ensures IntToDecimal(n)[0] == '-' && IntToDecimal(n)[1..] == NatToDecimal(-n)
  {
  }

  /** The decimal rendering of an integer holds no space and no line break. */
  lemma DecimalHasNoBreaks(n: int)
    ensures ' ' !in IntToDecimal(n) && '\n' !in IntToDecimal(n)
  {
    var d := NatToDecimal(if n < 0 then -n else n);
    assert forall i :: 0 <= i < |d| ==> d[i] != ' ' && d[i] != '\n';
    if n < 0 {
      assert IntToDecimal(n) == "-" + d;
      assert forall i :: 1 <= i < |IntToDecimal(n)| ==> IntToDecimal(n)[i] == d[i - 1];
    }
  }
}
