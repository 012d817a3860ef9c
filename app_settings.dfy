/**
 * The integer part of `Color(hex:)`: trimming the text, scanning it as a
 * hexadecimal number, and splitting that number into alpha, red, green and
 * blue channels according to the number of characters.
 */
module HexColors {
  import opened Strings

  /** The four channels, each meant to be in 0..255, before division by 255. */
  datatype Argb = Argb(a: int, r: int, g: int, b: int)

  predicate IsHexDigit(c: char) {
    ('0' <= c <= '9') || ('a' <= c <= 'f') || ('A' <= c <= 'F')
  }

  function HexDigitValue(c: char): (v: int)
    requires IsHexDigit(c)
    ensures 0 <= v < 16
  {
    if '0' <= c <= '9' then c as int - '0' as int
    else if 'a' <= c <= 'f' then c as int - 'a' as int + 10
    else c as int - 'A' as int + 10
  }

  /** The number of hex digits at the start of `s`. */
  function LeadingHexDigits(s: string): (n: nat)
    ensures n <= |s|
    ensures forall i :: 0 <= i < n ==> IsHexDigit(s[i])
    ensures n < |s| ==> !IsHexDigit(s[n])
    decreases |s|
  {
    if s != [] && IsHexDigit(s[0]) then 1 + LeadingHexDigits(s[1..]) else 0
  }

  function Pow16(n: nat): (p: nat)
    ensures p >= 1
  {
    if n == 0 then 1 else 16 * Pow16(n - 1)
  }

  /** The value of a string of hex digits, most significant first. */
  function DigitsValue(ds: string): int
    requires forall i :: 0 <= i < |ds| ==> IsHexDigit(ds[i])
    decreases |ds|
  {
    if ds == [] then 0 else DigitsValue(ds[..|ds| - 1]) * 16 + HexDigitValue(ds[|ds| - 1])
  }

  /** `n` hex digits make a number below 16^n. */
  lemma {:induction false} DigitsValueBound(ds: string)
    requires forall i :: 0 <= i < |ds| ==> IsHexDigit(ds[i])
    ensures 0 <= DigitsValue(ds) < Pow16(|ds|)
    decreases |ds|
  {
    if ds != [] {
      DigitsValueBound(ds[..|ds| - 1]);
    }
  }

  /**
   * `Scanner(string: s).scanHexInt64(&int)` starting from 0: the value of
   * the longest run of hex digits at the start of `s` (0 when there is none).
   */
  function ScannedHex(s: string): (v: int)
    ensures 0 <= v < Pow16(|s|)
  {
    var n := LeadingHexDigits(s);
    DigitsValueBound(s[..n]);
    PowMonotone(n, |s|);
    DigitsValue(s[..n])
  }

  lemma {:induction false} PowMonotone(m: nat, n: nat)
    requires m <= n
    ensures Pow16(m) <= Pow16(n)
    decreases n - m
  {
    if m < n {
      PowMonotone(m, n - 1);
    }
  }

  /** `Color(hex:)`'s integer channels: the channel selection on the trimmed text. */
  function HexColor(hex: string): (c: Argb)
    ensures 0 <= c.a <= 255 && 0 <= c.r <= 255 && 0 <= c.g <= 255 && 0 <= c.b <= 255
  {
    Channels(TrimmedHex(hex))
  }

  /** The `switch hex.count` of `Color(hex:)`, on text already trimmed. */
  function Channels(h: string): (c: Argb)
    ensures 0 <= c.a <= 255 && 0 <= c.r <= 255 && 0 <= c.g <= 255 && 0 <= c.b <= 255
  {
    var v := ScannedHex(h);
    if |h| == 3 then
      assert Pow16(3) == 4096;
      Argb(255, (v / 256) * 17, (v / 16 % 16) * 17, (v % 16) * 17)
    else if |h| == 6 then
      assert Pow16(6) == 0x100_0000;
      Argb(255, v / 0x1_0000, v / 0x100 % 0x100, v % 0x100)
    else if |h| == 8 then
      assert Pow16(8) == 0x1_0000_0000;
      Argb(v / 0x100_0000, v / 0x1_0000 % 0x100, v / 0x100 % 0x100, v % 0x100)
    else
      Argb(255, 0, 0, 0)
  }

  lemma NibblesRecompose(v: int)
    requires 0 <= v < 0x1000
    ensures (v / 0x100) * 0x100 + (v / 0x10 % 0x10) * 0x10 + v % 0x10 == v
  {
    assert v == (v / 0x10) * 0x10 + v % 0x10;
    assert v / 0x10 == (v / 0x100) * 0x10 + v / 0x10 % 0x10;
  }

  lemma TimesSeventeen(k: int)
    ensures (k * 17) % 17 == 0 && (k * 17) / 17 == k
  {
  }

  lemma BytesRecompose(v: int)
    requires 0 <= v < 0x1_0000_0000
    ensures (v / 0x100_0000) * 0x100_0000 + (v / 0x1_0000 % 0x100) * 0x1_0000 + (v / 0x100 % 0x100) * 0x100 + v % 0x100 == v
    ensures v < 0x100_0000 ==> (v / 0x1_0000) * 0x1_0000 + (v / 0x100 % 0x100) * 0x100 + v % 0x100 == v
  {
    assert v == (v / 0x100) * 0x100 + v % 0x100;
    assert v / 0x100 == (v / 0x1_0000) * 0x100 + v / 0x100 % 0x100;
    assert v / 0x1_0000 == (v / 0x100_0000) * 0x100 + v / 0x1_0000 % 0x100;
  }

  /**
   * The trimmed text `Color(hex:)` dispatches on: what is left of `hex`
   * between the runs of non-alphanumerics at either end.
   */
  function TrimmedHex(hex: string): (t: string)
    ensures exists a, b :: StrippedFromEnds(hex, t, IsNotAlphanumeric, a, b)
    ensures t != [] ==> IsAlphanumeric(t[0]) && IsAlphanumeric(t[|t| - 1])
    ensures t == [] <==> forall i :: 0 <= i < |hex| ==> !IsAlphanumeric(hex[i])
  {
    Trimmed(hex, IsNotAlphanumeric)
  }

  /** A leading '#' is dropped, and digits and letters after it are kept as they are. */
  lemma HashPrefixStripped(digits: string)
    requires forall i :: 0 <= i < |digits| ==> IsAlphanumeric(digits[i])
    ensures TrimmedHex(['#'] + digits) == digits
  {
    var hex := ['#'] + digits;
    var t := TrimmedHex(hex);
    var a, b :| StrippedFromEnds(hex, t, IsNotAlphanumeric, a, b);
    if digits != [] {
      assert IsAlphanumeric(hex[1]);
      assert a <= 1;
      assert IsAlphanumeric(hex[|hex| - 1]);
      assert b == |hex|;
      assert t != [];
      assert a != 0;
      assert hex[1..] == digits;
    }
  }

  /** Three characters: alpha 255, and each channel is a digit times 17, in order. */
  lemma ThreeDigitChannels(hex: string)
    requires |TrimmedHex(hex)| == 3
    ensures var c := HexColor(hex);
            && c.a == 255 && c.r % 17 == 0 && c.g % 17 == 0 && c.b % 17 == 0
            && (c.r / 17) * 0x100 + (c.g / 17) * 0x10 + c.b / 17 == ScannedHex(TrimmedHex(hex))
  {
    var v := ScannedHex(TrimmedHex(hex));
    assert Pow16(3) == 0x1000;
    assert HexColor(hex) == Argb(255, (v / 256) * 17, (v / 16 % 16) * 17, (v % 16) * 17);
    TimesSeventeen(v / 256);
    TimesSeventeen(v / 16 % 16);
    TimesSeventeen(v % 16);
    NibblesRecompose(v);
  }

  /** Six characters: alpha 255, and red, green, blue are the number's three bytes. */
  lemma SixDigitChannels(hex: string)
    requires |TrimmedHex(hex)| == 6
    ensures var c := HexColor(hex);
            c.a == 255 && c.r * 0x1_0000 + c.g * 0x100 + c.b == ScannedHex(TrimmedHex(hex))
  {
    var v := ScannedHex(TrimmedHex(hex));
    assert Pow16(6) == 0x100_0000;
    BytesRecompose(v);
  }

  /** Eight characters: alpha, red, green, blue are the number's four bytes, alpha first. */
  lemma EightDigitChannels(hex: string)
    requires |TrimmedHex(hex)| == 8
    ensures var c := HexColor(hex);
            c.a * 0x100_0000 + c.r * 0x1_0000 + c.g * 0x100 + c.b == ScannedHex(TrimmedHex(hex))
  {
    var v := ScannedHex(TrimmedHex(hex));
    assert Pow16(8) == 0x1_0000_0000;
    BytesRecompose(v);
  }

  /** Any other length: opaque black. */
  lemma OtherLengthIsBlack(hex: string)
    requires |TrimmedHex(hex)| != 3 && |TrimmedHex(hex)| != 6 && |TrimmedHex(hex)| != 8
    ensures HexColor(hex) == Argb(255, 0, 0, 0)
  {
  }

  lemma DarkGreenTrimmed()
    ensures TrimmedHex("#013220") == "013220"
  {
    assert "#013220" == ['#'] + "013220";
    HashPrefixStripped("013220");
  }

  lemma DarkGreenScanned()
    ensures ScannedHex("013220") == 0x013220
  {
    var h := "013220";
    assert LeadingHexDigits(h) == 6;
    assert h[..6] == h;
    assert h[..5] == "01322" && h[..5][..4] == "0132" && h[..5][..4][..3] == "013";
    assert "013"[..2] == "01" && "01"[..1] == "0" && "0"[..0] == "";
    assert DigitsValue("013") == 0x013;
    assert DigitsValue("0132") == 0x0132;
    assert DigitsValue("01322") == 0x01322;
  }

  lemma DarkGreenChannels()
    ensures Channels("013220") == Argb(255, 0x01, 0x32, 0x20)
  {
    DarkGreenScanned();
    assert Pow16(6) == 0x100_0000;
  }

  /** `darkGreen`, `Color(hex: "#013220")`: the '#' is trimmed and six digits remain. */
  lemma DarkGreen()
    ensures HexColor("#013220") == Argb(255, 0x01, 0x32, 0x20)
  {
    DarkGreenTrimmed();
    DarkGreenChannels();
  }
}
