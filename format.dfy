/**
  The small formatters the generator builds its fields with:
  `getIndent`, `hexfmt`, `gen_description`, the per-deck group name
  `[Channel{n}]`, and the reading of a hex literal by `int(s, 16)`.
 */
module Format {
  import opened Text
  import opened Wrappers

  /** A run of `n` blanks (Python's `' ' * n`). */
  function Spaces(n: nat): (r: string)
    ensures |r| == n
    ensures forall i :: 0 <= i < |r| ==> r[i] == ' '
  {
    if n == 0 then "" else " " + Spaces(n - 1)
  }

  /**
    `getIndent(level)`: four blanks per level and nothing else; Python's
    string repetition by a negative count gives the empty string.
   */
  function Indent(level: int): (r: string)
    ensures level >= 0 ==> |r| == 4 * level
    ensures level < 0 ==> r == ""
    ensures forall i :: 0 <= i < |r| ==> r[i] == ' '
  {
    Spaces(if level > 0 then 4 * level else 0)
  }

  lemma IndentHasNoBreak(level: int)
    ensures '\n' !in Indent(level)
  {
    var r := Indent(level);
    assert forall i :: 0 <= i < |r| ==> r[i] != '\n';
  }

  // ---------------------------------------------------------------------
  // Hexadecimal: `hexfmt(val)` is `f'0x{val:02X}'`

  predicate IsUpperHexDigit(c: char)
  {
    '0' <= c <= '9' || 'A' <= c <= 'F'
  }

  /** What `int(…, 16)` accepts as a digit: either case. */
  predicate IsHexDigit(c: char)
  {
    IsUpperHexDigit(c) || 'a' <= c <= 'f'
  }

  function HexDigit(d: nat): (c: char)
    requires d < 16
    ensures IsUpperHexDigit(c)
  {
    if d < 10 then ('0' as int + d) as char else ('A' as int + d - 10) as char
  }

  function HexValue(c: char): (d: nat)
    requires IsHexDigit(c)
    ensures d < 16
  {
    if '0' <= c <= '9' then c as int - '0' as int
    else if 'A' <= c <= 'F' then c as int - 'A' as int + 10
    else c as int - 'a' as int + 10
  }

  lemma HexValueOfDigit(d: nat)
    requires d < 16
    ensures HexValue(HexDigit(d)) == d
  {
  }

  /** The format `X`: upper-case hex digits of `n`, no leading zeros. */
  function HexDigits(n: nat): (r: string)
    ensures |r| >= 1
    ensures forall i :: 0 <= i < |r| ==> IsUpperHexDigit(r[i])
  {
    if n < 16 then [HexDigit(n)] else HexDigits(n / 16) + [HexDigit(n % 16)]
  }

  /** The value a string of hex digits denotes. */
  function ParseHexDigits(s: string): nat
    requires forall i :: 0 <= i < |s| ==> IsHexDigit(s[i])
  {
    if s == [] then 0
    else ParseHexDigits(s[..|s| - 1]) * 16 + HexValue(s[|s| - 1])
  }

  /** Width 2 with zero fill: one zero in front of a single digit. */
  function ZeroFillTwo(s: string): string
  {
    if |s| < 2 then "0" + s else s
  }

  /**
    `hexfmt(val)`. For a negative value the sign already fills the width of
    two, so no zero is inserted: `hexfmt(-5)` is `0x-5`.
   */
  function HexFmt(val: int): (r: string)
    ensures |r| >= 4 && r[..2] == "0x"
    ensures val < 0 <==> r[2] == '-'
    ensures val >= 0 ==> forall i :: 2 <= i < |r| ==> IsUpperHexDigit(r[i])
    ensures val < 0 ==> forall i :: 3 <= i < |r| ==> IsUpperHexDigit(r[i])
  {
    "0x" + if val < 0 then "-" + HexDigits(-val) else ZeroFillTwo(HexDigits(val))
  }

  /**
    `int(s, 16)` on the literals the generator feeds it: an optional `0x`
    or `0X` prefix followed by at least one hex digit of either case;
    anything else is the `ValueError` Python raises.
   */
  function ParseHexLiteral(s: string): (r: Option<int>)
    ensures r.Some? ==> r.value >= 0
    ensures s == "" || s == "0x" || s == "0X" ==> r == None
  {
    var body := if |s| >= 2 && s[0] == '0' && (s[1] == 'x' || s[1] == 'X') then s[2..] else s;
    if |body| > 0 && AllHexDigits(body) then Some(ParseHexDigits(body)) else None
  }

  predicate AllHexDigits(s: string)
  {
    forall i :: 0 <= i < |s| ==> IsHexDigit(s[i])
  }

  /** Without a prefix, `int(s, 16)` reads a run of hex digits as it stands. */
  lemma ParseHexUnprefixed(s: string)
    requires |s| > 0 && AllHexDigits(s)
    ensures ParseHexLiteral(s) == Some(ParseHexDigits(s))
  {
    if |s| >= 2 {
      assert IsHexDigit(s[1]);
    }
  }

  lemma {:induction false} HexDigitsRoundTrip(n: nat)
    ensures ParseHexDigits(HexDigits(n)) == n
  {
    if n >= 16 {
      var s := HexDigits(n);
      assert s[..|s| - 1] == HexDigits(n / 16);
      HexDigitsRoundTrip(n / 16);
    }
  }

  /** A leading zero does not change the value of a hex string. */
  lemma {:induction false} LeadingZero(s: string)
    requires forall i :: 0 <= i < |s| ==> IsHexDigit(s[i])
    ensures ParseHexDigits("0" + s) == ParseHexDigits(s)
  {
    if s != [] {
      assert ("0" + s)[..|"0" + s| - 1] == "0" + s[..|s| - 1];
      LeadingZero(s[..|s| - 1]);
    }
  }

  /**
    `int(hexfmt(val), 16)` gives back `val` for every non-negative value,
    and fails for a negative one.
   */
  lemma HexFmtRoundTrip(val: int)
    ensures ParseHexLiteral(HexFmt(val)) == if val >= 0 then Some(val) else None
  {
    if val >= 0 {
      var d := HexDigits(val);
      HexLiteralBody(ZeroFillTwo(d));
      HexDigitsRoundTrip(val);
      if |d| < 2 {
        LeadingZero(d);
      }
    } else {
      var body := "-" + HexDigits(-val);
      HexLiteralBody(body);
      assert !IsHexDigit(body[0]);
    }
  }

  /** After the `0x` prefix, `int(…, 16)` reads the rest as hex digits. */
  lemma HexLiteralBody(body: string)
    ensures ParseHexLiteral("0x" + body) ==
      if |body| > 0 && AllHexDigits(body) then Some(ParseHexDigits(body)) else None
  {
    var s := "0x" + body;
    assert s[0] == '0' && s[1] == 'x' && s[2..] == body;
  }

  /** `int("0x" + hi + lo, 16)` for two hex digits. */
  lemma TwoDigitHex(hi: char, lo: char)
    requires IsHexDigit(hi) && IsHexDigit(lo)
    ensures ParseHexLiteral("0x" + [hi, lo]) == Some(HexValue(hi) * 16 + HexValue(lo))
  {
    var body := [hi, lo];
    HexLiteralBody(body);
    assert AllHexDigits(body) by {
      forall i | 0 <= i < |body| ensures IsHexDigit(body[i]) { }
    }
    assert body[..1] == [hi] && [hi][..0] == [];
    assert ParseHexDigits(body) == ParseHexDigits([hi]) * 16 + HexValue(lo);
  }

  /** Different non-negative values never format alike. */
  lemma HexFmtInjective(a: int, b: int)
    requires a >= 0 && b >= 0
    requires HexFmt(a) == HexFmt(b)
    ensures a == b
  {
    HexFmtRoundTrip(a);
    HexFmtRoundTrip(b);
  }

  /**
    For a byte, `hexfmt` is `0x` and exactly two upper-case digits: the
    high nibble, then the low one.
   */
  lemma HexFmtByte(val: int)
    requires 0 <= val <= 255
    ensures HexFmt(val) == "0x" + [HexDigit(val / 16), HexDigit(val % 16)]
    ensures |HexFmt(val)| == 4
    ensures IsUpperHexDigit(HexFmt(val)[2]) && IsUpperHexDigit(HexFmt(val)[3])
  {
    if val >= 16 {
      assert HexDigits(val / 16) == [HexDigit(val / 16)];
    }
  }

  /** Above a byte there is no padding: more than two digits follow `0x`. */
  lemma HexFmtWide(val: int)
    requires val > 255
    ensures |HexFmt(val)| > 4
  {
    assert HexDigits(val) == HexDigits(val / 16) + [HexDigit(val % 16)];
    assert HexDigits(val / 16) == HexDigits(val / 256) + [HexDigit(val / 16 % 16)];
  }

  // ---------------------------------------------------------------------
  // Descriptions and group names

  /** `gen_description(hwid, feature, deck_num, modus)`. */
  function GenDescription(hwid: string, feature: string, deckNum: int, modus: string): string
  {
    hwid + " " + feature + " - Deck " + IntToDecimal(deckNum) + " - " + modus
  }

  /** The per-deck group name `f'[Channel{n}]'`. */
  function ChannelGroup(n: int): string
  {
    "[Channel" + IntToDecimal(n) + "]"
  }

  /** The group name is `[Channel`, the decimal deck number and `]`. */
  lemma ChannelGroupLayout(n: int)
    ensures var g := ChannelGroup(n);
      && |g| >= 10 && g[..8] == "[Channel" && g[|g| - 1] == ']'
      && g[8..|g| - 1] == IntToDecimal(n)
  {
    var g := ChannelGroup(n);
    assert g[8..|g| - 1] == IntToDecimal(n);
  }

  /**
    The description is `hwid`, a blank, `feature`, ` - Deck `, the deck
    number in decimal, ` - ` and `modus`.
   */
  lemma GenDescriptionLayout(hwid: string, feature: string, deckNum: int, modus: string)
    ensures var r, start := GenDescription(hwid, feature, deckNum, modus), |hwid| + |feature| + 9;
      && hwid + " " + feature + " - Deck " <= r
      && start + 3 + |modus| <= |r|
      && r[start..|r| - 3 - |modus|] == IntToDecimal(deckNum)
      && r[|r| - 3 - |modus|..] == " - " + modus
  {
    var head, d, tail := hwid + " " + feature + " - Deck ", IntToDecimal(deckNum), " - " + modus;
    var r := GenDescription(hwid, feature, deckNum, modus);
    assert r == head + (d + tail);
    assert r[..|head|] == head;
    var rest := r[|head|..];
    assert rest == d + tail;
    assert rest[..|d|] == d && rest[|d|..] == tail;
    assert r[|head|..|r| - |tail|] == rest[..|d|];
    assert r[|r| - |tail|..] == rest[|d|..];
  }

  /** Two decks never share a group name. */
  lemma ChannelGroupInjective(a: int, b: int)
    requires ChannelGroup(a) == ChannelGroup(b)
    ensures a == b
  {
    var ga, gb := ChannelGroup(a), ChannelGroup(b);
    assert IntToDecimal(a) == ga[8..|ga| - 1];
    assert IntToDecimal(b) == gb[8..|gb| - 1];
    IntToDecimalInjective(a, b);
  }

  /**
    With the other three fields fixed, the description tells the decks
    apart: the deck number ends at the space of the following " - ".
   */
  lemma GenDescriptionInjective(hwid: string, feature: string, a: int, b: int, modus: string)
    requires GenDescription(hwid, feature, a, modus) == GenDescription(hwid, feature, b, modus)
    ensures a == b
  {
    var head := hwid + " " + feature + " - Deck ";
    var tail := " - " + modus;
    var da, db := IntToDecimal(a), IntToDecimal(b);
    assert GenDescription(hwid, feature, a, modus) == head + (da + tail);
    assert GenDescription(hwid, feature, b, modus) == head + (db + tail);
    assert da + tail == db + tail by {
      assert (head + (da + tail))[|head|..] == da + tail;
      assert (head + (db + tail))[|head|..] == db + tail;
    }
    DecimalHasNoBreaks(a);
    DecimalHasNoBreaks(b);
    EndsAtSpace(da, db, tail);
    IntToDecimalInjective(a, b);
  }

  /** Two space-free words followed by the same text starting with a space are equal. */
  lemma EndsAtSpace(x: string, y: string, tail: string)
    requires ' ' !in x && ' ' !in y
    requires |tail| > 0 && tail[0] == ' '
    requires x + tail == y + tail
    ensures x == y
  {
    assert |x| == |y|;
    assert x == (x + tail)[..|x|];
    assert y == (y + tail)[..|y|];
  }
}
