/** Black or white text on a theme colour, over exact reals. */
module Theme {
  import opened Wrappers

  predicate IsHexDigit(c: char) {
    '0' <= c <= '9' || 'a' <= c <= 'f' || 'A' <= c <= 'F'
  }

  function HexValue(c: char): (v: nat)
    requires IsHexDigit(c)
    ensures v < 16
  {
    if '0' <= c <= '9' then c as int - '0' as int
    else if 'a' <= c <= 'f' then c as int - 'a' as int + 10
    else c as int - 'A' as int + 10
  }

  /** ^#(?:[0-9a-f]{3}|[0-9a-f]{6})$, either case */
  predicate IsHex(s: string) {
    (|s| == 4 || |s| == 7) && s[0] == '#' && forall i | 1 <= i < |s| :: IsHexDigit(s[i])
  }

  function Full(hex: string): (full: string)
    requires IsHex(hex)
    ensures IsHex(full) && |full| == 7
  {
    if |hex| == 4 then ['#', hex[1], hex[1], hex[2], hex[2], hex[3], hex[3]] else hex
  }

  /** One channel, 0 to 255. */
  function Channel(hex: string, i: nat): (v: nat)
    requires IsHex(hex) && |hex| == 7 && i in {1, 3, 5}
    ensures v <= 255
  {
    16 * HexValue(hex[i]) + HexValue(hex[i + 1])
  }

  /** The 2.4 power, of which only this is used: it maps the unit interval into itself and never decreases. */
  ghost predicate IsPower(power: real -> real) {
    && (forall x | 0.0 <= x <= 1.0 :: 0.0 <= power(x) <= 1.0)
    && (forall x, y | 0.0 <= x <= y <= 1.0 :: power(x) <= power(y))
    && power(0.093) >= 0.00304
  }

  function Linear(power: real -> real, v: nat): real {
    var c := v as real / 255.0;
    if c <= 0.03928 then c / 12.92 else power((c + 0.055) / 1.055)
  }

  function Luminance(power: real -> real, hex: string): real
    requires IsHex(hex)
  {
    var full := Full(hex);
    0.2126 * Linear(power, Channel(full, 1)) + 0.7152 * Linear(power, Channel(full, 3))
    + 0.0722 * Linear(power, Channel(full, 5))
  }

  function OnWhite(l: real): real
    requires l >= 0.0
  {
    1.05 / (l + 0.05)
  }

  function OnBlack(l: real): real {
    (l + 0.05) / 0.05
  }

  datatype Foreground = Black | White

  /** 1.05/(L+0.05) >= (L+0.05)/0.05 picks white. */
  function Choice(l: real): Foreground
    requires l >= 0.0
  {
    if OnWhite(l) >= OnBlack(l) then White else Black
  }

  /** None is the thrown error. */
  ghost function ReadableOn(power: real -> real, hex: string): Option<Foreground>
    requires IsPower(power)
  {
    if !IsHex(hex) then None
    else
      LuminanceInRange(power, hex);
      Some(Choice(Luminance(power, hex)))
  }

  lemma LinearInRange(power: real -> real, v: nat)
    requires IsPower(power) && v <= 255
    ensures 0.0 <= Linear(power, v) <= 1.0
  {
    var c := v as real / 255.0;
    assert 0.0 <= c <= 1.0;
  }

  lemma LuminanceInRange(power: real -> real, hex: string)
    requires IsPower(power) && IsHex(hex)
    ensures 0.0 <= Luminance(power, hex) <= 1.0
  {
    var full := Full(hex);
    LinearInRange(power, Channel(full, 1));
    LinearInRange(power, Channel(full, 3));
    LinearInRange(power, Channel(full, 5));
  }

  function Contrast(l: real, f: Foreground): (r: real)
    requires l >= 0.0
  {
    if f.White? then OnWhite(l) else OnBlack(l)
  }

  function Opposite(f: Foreground): Foreground {
    if f.White? then Black else White
  }

  lemma ProductIs21(l: real)
    requires l >= 0.0
    ensures OnWhite(l) * OnBlack(l) == 21.0
  {
    var x := l + 0.05;
    assert 1.05 / x * x == 1.05;
    assert x / 0.05 == 20.0 * x;
  }

  lemma SquareGrows(x: real, y: real)
    requires 0.0 <= x <= y
    ensures x * x <= x * y <= y * y
  {
  }

  lemma LargerFactorExceeds(a: real, b: real)
    requires a >= b > 0.0 && a * b == 21.0
    ensures a > 4.5
  {
    SquareGrows(b, a);
    if a <= 4.5 {
      SquareGrows(a, 4.5);
    }
  }

  /** The larger of two contrasts whose product is 21, and so more than 4.5. */
  predicate IsReadable(l: real, chosen: Foreground)
    requires l >= 0.0
  {
    && Contrast(l, chosen) * Contrast(l, Opposite(chosen)) == 21.0
    && Contrast(l, chosen) >= Contrast(l, Opposite(chosen))
    && Contrast(l, chosen) > 4.5
  }

  lemma ChoiceIsReadable(l: real)
    requires l >= 0.0
    ensures IsReadable(l, Choice(l))
  {
    ProductIs21(l);
    assert OnWhite(l) > 0.0 && OnBlack(l) > 0.0;
    LargerFactorExceeds(Contrast(l, Choice(l)), Contrast(l, Opposite(Choice(l))));
  }

  /**
   For every valid colour the chosen foreground has the larger of two contrasts whose product is 21, so it
   always exceeds the 4.5:1 that success criterion 1.4.3 of WCAG 2.1 asks for.
   */
  lemma ChosenIsReadable(power: real -> real, hex: string)
    requires IsPower(power)
    ensures ReadableOn(power, hex).Some? <==> IsHex(hex)
    ensures IsHex(hex) ==>
              0.0 <= Luminance(power, hex) <= 1.0 && IsReadable(Luminance(power, hex), ReadableOn(power, hex).value)
  {
    if IsHex(hex) {
      LuminanceInRange(power, hex);
      ChoiceIsReadable(Luminance(power, hex));
    }
  }

  function Lower(c: char): char {
    if 'A' <= c <= 'F' then (c as int + 32) as char else c
  }

  lemma HexTable(c: char, k: nat)
    requires k < 16 && (c == "0123456789abcdef"[k] || c == "0123456789ABCDEF"[k])
    ensures IsHexDigit(c) && HexValue(c) == k && Lower(c) == "0123456789abcdef"[k]
  {
  }

  lemma HexDigitsAre(c: char)
    ensures IsHexDigit(c) <==> c in "0123456789abcdefABCDEF"
  {
  }

  ghost predicate ThreeOrSixDigits(digits: string) {
    (|digits| == 3 || |digits| == 6) && forall i | 0 <= i < |digits| :: digits[i] in "0123456789abcdefABCDEF"
  }

  lemma ColoursHaveDigits(hex: string)
    requires IsHex(hex)
    ensures hex[0] == '#' && ThreeOrSixDigits(hex[1..])
  {
    forall i | 1 <= i < |hex| ensures hex[i] in "0123456789abcdefABCDEF" {
      HexDigitsAre(hex[i]);
    }
  }

  lemma DigitsMakeAColour(digits: string)
    requires ThreeOrSixDigits(digits)
    ensures IsHex("#" + digits)
  {
    var hex := "#" + digits;
    forall i | 1 <= i < |hex| ensures IsHexDigit(hex[i]) {
      HexDigitsAre(digits[i - 1]);
    }
  }

  /** A colour gets an answer if and only if it is a number sign and three or six hexadecimal digits. */
  lemma AnswersExactlyColours(power: real -> real, hex: string)
    requires IsPower(power)
    ensures ReadableOn(power, hex).Some? <==> |hex| > 0 && hex[0] == '#' && ThreeOrSixDigits(hex[1..])
  {
    if IsHex(hex) {
      ColoursHaveDigits(hex);
    }
    if |hex| > 0 && hex[0] == '#' && ThreeOrSixDigits(hex[1..]) {
      DigitsMakeAColour(hex[1..]);
      assert hex == "#" + hex[1..];
    }
  }

  /** Channels 0 to 10 are on the straight part of the curve, the rest on the power. */
  lemma ElevenStepsAreStraight(power: real -> real, v: nat)
    ensures Linear(power, v) == if v <= 10 then v as real / 3294.6 else power((v as real / 255.0 + 0.055) / 1.055)
  {
    var c := v as real / 255.0;
    assert v <= 10 ==> c <= 10.0 / 255.0 <= 0.03928;
    assert v >= 11 ==> c >= 11.0 / 255.0 > 0.03928;
    assert c / 12.92 == v as real / 3294.6;
  }

  /** Neither the short form nor the case of the digits makes a difference. */
  lemma SpellingDoesNotMatter(power: real -> real, hex: string, other: string)
    requires IsPower(power) && IsHex(hex) && IsHex(other)
    requires |Full(hex)| == |Full(other)| && forall i | 1 <= i < 7 :: Lower(Full(hex)[i]) == Lower(Full(other)[i])
    ensures ReadableOn(power, hex) == ReadableOn(power, other)
  {
    var a, b := Full(hex), Full(other);
    forall i | 1 <= i < 7 ensures HexValue(a[i]) == HexValue(b[i]) {
      assert Lower(a[i]) == Lower(b[i]);
    }
    assert Channel(a, 1) == Channel(b, 1) && Channel(a, 3) == Channel(b, 3) && Channel(a, 5) == Channel(b, 5);
  }

  /** A three-digit colour is the six-digit one with each of its digits twice. */
  lemma ShortFormMeansDoubled(power: real -> real, hex: string, long: string)
    requires IsPower(power) && IsHex(hex) && |hex| == 4 && |long| == 7 && long[0] == '#'
    requires forall i | 1 <= i <= 3 :: long[2 * i - 1] == hex[i] && long[2 * i] == hex[i]
    ensures IsHex(long) && ReadableOn(power, long) == ReadableOn(power, hex)
  {
    assert long[1] == long[2] == hex[1] by { assert long[2 * 1] == hex[1]; }
    assert long[3] == long[4] == hex[2] by { assert long[2 * 2] == hex[2]; }
    assert long[5] == long[6] == hex[3] by { assert long[2 * 3] == hex[3]; }
    SpellingDoesNotMatter(power, hex, long);
  }

  // ---- A lighter colour never goes back to white text ----------------------------------------------------------

  lemma LinearIsMonotone(power: real -> real, u: nat, v: nat)
    requires IsPower(power) && u <= v <= 255
    ensures Linear(power, u) <= Linear(power, v)
  {
    var a, b := u as real / 255.0, v as real / 255.0;
    assert a <= b <= 1.0;
    if a <= 0.03928 < b {
      assert u <= 10 && v >= 11;
      assert b >= 11.0 / 255.0;
      assert (b + 0.055) / 1.055 >= 0.093;
      assert a / 12.92 <= 0.03928 / 12.92 <= 0.0030403;
      LinearAtTheJoin(power, a, (b + 0.055) / 1.055);
    }
  }

  lemma LinearAtTheJoin(power: real -> real, a: real, x: real)
    requires IsPower(power) && 0.0 <= a <= 10.0 / 255.0 && 0.093 <= x <= 1.0
    ensures a / 12.92 <= power(x)
  {
    assert a / 12.92 <= 0.00304;
    assert power(0.093) <= power(x);
  }

  lemma ChoiceByLuminance(l: real)
    requires l >= 0.0
    ensures OnWhite(l) >= OnBlack(l) <==> (l + 0.05) * (l + 0.05) <= 0.0525
  {
    var x := l + 0.05;
    assert OnWhite(l) * x == 1.05;
    assert OnBlack(l) == 20.0 * x;
    if OnWhite(l) >= OnBlack(l) {
      assert OnWhite(l) * x >= OnBlack(l) * x;
    }
    if 20.0 * x * x <= 1.05 && OnWhite(l) < OnBlack(l) {
      assert OnWhite(l) * x < OnBlack(l) * x;
    }
  }

  lemma LuminanceIsMonotone(power: real -> real, darker: string, lighter: string)
    requires IsPower(power) && IsHex(darker) && IsHex(lighter)
    requires forall i | i in {1, 3, 5} :: Channel(Full(darker), i) <= Channel(Full(lighter), i)
    ensures 0.0 <= Luminance(power, darker) <= Luminance(power, lighter)
  {
    var a, b := Full(darker), Full(lighter);
    LinearIsMonotone(power, Channel(a, 1), Channel(b, 1));
    LinearIsMonotone(power, Channel(a, 3), Channel(b, 3));
    LinearIsMonotone(power, Channel(a, 5), Channel(b, 5));
    LuminanceInRange(power, darker);
  }

  lemma ChoiceIsMonotone(l: real, m: real)
    requires 0.0 <= l <= m
    ensures Choice(l) == Black ==> Choice(m) == Black
  {
    ChoiceByLuminance(l);
    ChoiceByLuminance(m);
    SquareGrows(l + 0.05, m + 0.05);
  }

  /** Raising any channel can only move the choice from white text to black. */
  lemma LighterColoursKeepBlackText(power: real -> real, darker: string, lighter: string)
    requires IsPower(power) && IsHex(darker) && IsHex(lighter)
    requires forall i | i in {1, 3, 5} :: Channel(Full(darker), i) <= Channel(Full(lighter), i)
    ensures ReadableOn(power, darker) == Some(Black) ==> ReadableOn(power, lighter) == Some(Black)
  {
    LuminanceIsMonotone(power, darker, lighter);
    ChoiceIsMonotone(Luminance(power, darker), Luminance(power, lighter));
  }

  /** Equal averages, opposite answers: full green and full red take black text, full blue takes white. */
  lemma GreenIsLightBlueIsDark(power: real -> real)
    requires IsPower(power) && power(1.0) == 1.0
    ensures ReadableOn(power, "#00ff00") == Some(Black) && ReadableOn(power, "#ff0000") == Some(Black)
    ensures ReadableOn(power, "#0000ff") == Some(White)
  {
    assert Linear(power, 0) == 0.0 && Linear(power, 255) == 1.0;
    var green, red, blue := "#00ff00", "#ff0000", "#0000ff";
    assert Channel(green, 1) == 0 && Channel(green, 3) == 255 && Channel(green, 5) == 0;
    assert Channel(red, 1) == 255 && Channel(red, 3) == 0 && Channel(red, 5) == 0;
    assert Channel(blue, 1) == 0 && Channel(blue, 3) == 0 && Channel(blue, 5) == 255;
    ChoiceByLuminance(0.7152);
    ChoiceByLuminance(0.2126);
    ChoiceByLuminance(0.0722);
  }
}
