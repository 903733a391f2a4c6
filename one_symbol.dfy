/**
 * One terminal cell (`OneSymbol`, src/OneSymbol.cpp): a character with a
 * foreground and a background colour, and its serialisation as ANSI SGR
 * escape sequences. The colours are set with SGR (section 8.3.117 of
 * ECMA-48) parameters 38 and 48 followed by selector 2 and three decimal
 * channel values, the direct-colour form of ITU-T T.416; parameter 0 resets.
 */
module Symbols {
  import opened Colors
  import opened Wrappers

  datatype OneSymbol = OneSymbol(symbol: char, foreground: Rgb, background: Rgb) {

    /** Both colours lie in [0, 255]. */
    predicate Valid() {
      foreground.Valid() && background.Valid()
    }

    /** invertColor(): both colours inverted, the character kept. */
    function Inverted(): (s: OneSymbol)
      ensures s.Valid()
      ensures s.symbol == symbol
    {
      OneSymbol(symbol, foreground.Inverted(), background.Inverted())
    }
  }

  /** Inverting an in-range cell twice gives back the same cell. */
  lemma InvertCellTwice(s: OneSymbol)
    requires s.Valid()
    ensures s.Inverted().Inverted() == s
  {
    InvertTwice(s.foreground);
    InvertTwice(s.background);
  }

  /** A grid of cells as the source's vector of rows. */
  type Grid = seq<seq<OneSymbol>>

  /** The colour-only constructor: the character defaults to a space. */
  function WithColors(foreground: Rgb, background: Rgb): (s: OneSymbol)
    ensures s.symbol == ' '
    ensures s.foreground == foreground && s.background == background
  {
    OneSymbol(' ', foreground, background)
  }

  const Esc: char := '\U{1B}'
  /** Control sequence introducer followed by "38;2;": direct-colour foreground. */
  const ForegroundIntro: string := [Esc] + "[38;2;"
  /** Control sequence introducer followed by "48;2;": direct-colour background. */
  const BackgroundIntro: string := [Esc] + "[48;2;"
  /** SGR 0: all attributes reset. */
  const Reset: string := [Esc] + "[0m"

  predicate IsDigit(c: char) {
    '0' <= c <= '9'
  }

  predicate AllDigits(s: string) {
    forall i :: 0 <= i < |s| ==> IsDigit(s[i])
  }

  function DigitChar(d: nat): char
    requires d < 10
  {
    "0123456789"[d]
  }

  function DigitValue(c: char): (d: nat)
    requires IsDigit(c)
    ensures d < 10
  {
    (c as int - '0' as int) as nat
  }

  /** The decimal form of a natural number, without leading zeros. */
  function NatText(n: nat): (s: string)
    ensures |s| >= 1 && AllDigits(s)
    ensures |s| > 1 ==> s[0] != '0'
  {
    if n < 10 then [DigitChar(n)] else NatText(n / 10) + [DigitChar(n % 10)]
  }

  /**
   * How the stream prints a channel: its integer part in decimal. This is the
   * stream's own output for whole channels below 1000000, which includes every
   * in-range channel; see README for fractions and exponent form.
   */
  function ChannelText(x: real): string {
    var n := Trunc(x);
    if n < 0 then "-" + NatText(-n) else NatText(n)
  }

  /** One SGR colour sequence: intro, three channels separated by ';', then 'm'. */
  function ColorSequence(intro: string, c: Rgb): string {
    intro + ChannelText(c.r) + ";" + ChannelText(c.g) + ";" + ChannelText(c.b) + "m"
  }

  /** `operator<<`: foreground sequence, background sequence, the character, then the reset. */
  function Serialize(s: OneSymbol): (t: string)
    ensures ForegroundIntro <= t
    ensures |t| > |Reset| && t[|t| - |Reset|..] == Reset
    ensures t[|t| - |Reset| - 1] == s.symbol
  {
    ColorSequence(ForegroundIntro, s.foreground) + ColorSequence(BackgroundIntro, s.background) + [s.symbol] + Reset
  }

  // ----- reading a serialised cell back -----

  /** Number of leading decimal digits. */
  function DigitRun(s: string): (k: nat)
    ensures k <= |s|
    ensures AllDigits(s[..k])
    ensures k < |s| ==> !IsDigit(s[k])
  {
    if |s| > 0 && IsDigit(s[0]) then
      var k := 1 + DigitRun(s[1..]);
      assert s[..k] == [s[0]] + s[1..][..k - 1];
      k
    else 0
  }

  /** The value of a string of decimal digits. */
  function DigitsValue(s: string): nat
    requires AllDigits(s)
  {
    if |s| == 0 then 0 else 10 * DigitsValue(s[..|s| - 1]) + DigitValue(s[|s| - 1])
  }

  /** Reads a non-empty run of digits as a number. */
  function ReadNat(s: string): (o: Option<(nat, string)>)
    ensures o.Some? ==> |o.value.1| < |s|
  {
    var k := DigitRun(s);
    if k == 0 then None else Some((DigitsValue(s[..k]), s[k..]))
  }

  /** Consumes an expected literal. */
  function Expect(s: string, lit: string): (o: Option<string>)
    ensures o.Some? <==> lit <= s
    ensures o.Some? ==> s == lit + o.value
  {
    if lit <= s then Some(s[|lit|..]) else None
  }

  /** Reads one colour sequence with the given intro. */
  function ParseColorSequence(intro: string, s: string): Option<(Rgb, string)> {
    var s0 :- Expect(s, intro);
    var red :- ReadNat(s0);
    var s1 :- Expect(red.1, ";");
    var green :- ReadNat(s1);
    var s2 :- Expect(green.1, ";");
    var blue :- ReadNat(s2);
    var s3 :- Expect(blue.1, "m");
    Some((Rgb(red.0 as real, green.0 as real, blue.0 as real), s3))
  }

  /** Reads back a whole serialised cell; None if the text is not one. */
  function Parse(t: string): Option<OneSymbol> {
    var fg :- ParseColorSequence(ForegroundIntro, t);
    var bg :- ParseColorSequence(BackgroundIntro, fg.1);
    var rest := bg.1;
    if |rest| == 1 + |Reset| && rest[1..] == Reset then Some(OneSymbol(rest[0], fg.0, bg.0)) else None
  }

  lemma {:induction false} NatTextValue(n: nat)
    ensures DigitsValue(NatText(n)) == n
  {
    var s := NatText(n);
    if n >= 10 {
      NatTextValue(n / 10);
      assert s[..|s| - 1] == NatText(n / 10);
      assert DigitValue(s[|s| - 1]) == n % 10;
    } else {
      assert s[..0] == [];
    }
  }

  lemma {:induction false} DigitRunOf(ds: string, rest: string)
    requires AllDigits(ds)
    requires rest == [] || !IsDigit(rest[0])
    ensures DigitRun(ds + rest) == |ds|
  {
    if |ds| > 0 {
      assert (ds + rest)[1..] == ds[1..] + rest;
      DigitRunOf(ds[1..], rest);
    }
  }

  /** Reading the decimal form of n followed by a non-digit gives n back. */
  lemma ReadNatText(n: nat, rest: string)
    requires rest == [] || !IsDigit(rest[0])
    ensures ReadNat(NatText(n) + rest) == Some((n, rest))
  {
    var t := NatText(n);
    DigitRunOf(t, rest);
    assert (t + rest)[..|t|] == t;
    assert (t + rest)[|t|..] == rest;
    NatTextValue(n);
  }

  predicate WholeColor(c: Rgb) {
    IsWhole(c.r) && IsWhole(c.g) && IsWhole(c.b)
  }

  /** A colour sequence with whole non-negative channels reads back to the same colour. */
  lemma ColorSequenceRoundTrip(intro: string, c: Rgb, rest: string)
    requires WholeColor(c)
    ensures ParseColorSequence(intro, ColorSequence(intro, c) + rest) == Some((c, rest))
  {
    var a, b, d := c.r.Floor, c.g.Floor, c.b.Floor;
    var tr, tg, tb := NatText(a), NatText(b), NatText(d);
    var s := ColorSequence(intro, c) + rest;
    assert s == intro + (tr + (";" + (tg + (";" + (tb + ("m" + rest))))));
    ReadNatText(a, ";" + (tg + (";" + (tb + ("m" + rest)))));
    ReadNatText(b, ";" + (tb + ("m" + rest)));
    ReadNatText(d, "m" + rest);
  }

  /** Parse succeeds on two colour sequences followed by one character and the reset. */
  lemma ParseOfParts(t: string, rest: string, fg: Rgb, bg: Rgb, symbol: char)
    requires ParseColorSequence(ForegroundIntro, t) == Some((fg, rest))
    requires ParseColorSequence(BackgroundIntro, rest) == Some((bg, [symbol] + Reset))
    ensures Parse(t) == Some(OneSymbol(symbol, fg, bg))
  {
    var tail := [symbol] + Reset;
    assert |tail| == 1 + |Reset| && tail[0] == symbol && tail[1..] == Reset;
  }

  /**
   * The six numbers of the serialisation are the decimal forms of the
   * channels: for whole non-negative channels, parsing restores the cell.
   */
  lemma SerializeRoundTrip(s: OneSymbol)
    requires WholeColor(s.foreground) && WholeColor(s.background)
    ensures Parse(Serialize(s)) == Some(s)
  {
    var fgPart := ColorSequence(ForegroundIntro, s.foreground);
    var bgPart := ColorSequence(BackgroundIntro, s.background);
    var tail := [s.symbol] + Reset;
    assert Serialize(s) == fgPart + (bgPart + tail);
    ColorSequenceRoundTrip(ForegroundIntro, s.foreground, bgPart + tail);
    ColorSequenceRoundTrip(BackgroundIntro, s.background, tail);
    ParseOfParts(Serialize(s), bgPart + tail, s.foreground, s.background, s.symbol);
  }

  /** Two cells with whole channels serialise identically exactly when they are the same cell. */
  lemma SerializeInjective(s: OneSymbol, u: OneSymbol)
    requires WholeColor(s.foreground) && WholeColor(s.background)
    requires WholeColor(u.foreground) && WholeColor(u.background)
    ensures Serialize(s) == Serialize(u) <==> s == u
  {
    SerializeRoundTrip(s);
    SerializeRoundTrip(u);
  }
}
