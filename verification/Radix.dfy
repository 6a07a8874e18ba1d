/** Positional numerals: the checked 64-bit folds that read them and the minimal hex that is written. */
module Radix {
  import opened Prelude
  import opened Syntax

  predicate IsHexDigit(b: Byte) { IsDigit(b) || 65 <= b <= 70 || 97 <= b <= 102 }

  function DigitOf(b: Byte): (d: nat)
    ensures IsHexDigit(b) ==> d < 16
    ensures IsDigit(b) ==> d < 10
  {
    if IsDigit(b) then b - 48
    else if 97 <= b <= 102 then b - 87
    else if 65 <= b <= 70 then b - 55
    else 0
  }

  /** The number a digit string denotes, most significant digit first. */
  function Value(text: Bytes, radix: nat): (v: nat)
  {
    if text == [] then 0
    else Value(text[..|text| - 1], radix) * radix + DigitOf(text[|text| - 1])
  }

  predicate AllHex(text: Bytes) { forall i :: 0 <= i < |text| ==> IsHexDigit(text[i]) }

  predicate AllDecimal(text: Bytes) { forall i :: 0 <= i < |text| ==> IsDigit(text[i]) }

  lemma ScaleGrows(a: nat, radix: nat)
    requires radix > 0
    ensures a * radix >= a
  {
    assert a * radix == a + a * (radix - 1);
  }

  lemma {:induction false} ValuePrefix(text: Bytes, n: nat, radix: nat)
    requires n <= |text| && radix > 0
    ensures Value(text[..n], radix) <= Value(text, radix)
    decreases |text| - n
  {
    if n == |text| {
      assert text[..n] == text;
    } else {
      ValuePrefix(text, n + 1, radix);
      assert text[..n + 1][..n] == text[..n];
      ScaleGrows(Value(text[..n], radix), radix);
    }
  }

  /** The left fold with a checked multiplication and a checked addition succeeds
      exactly when the number fits 64 bits, and then yields that number. */
  method CheckedFold(text: Bytes, radix: nat) returns (value: Option<nat>)
    requires radix == 10 || radix == 16
    ensures value.Some? <==> Value(text, radix) < U64_LIMIT
    ensures value.Some? ==> value.value == Value(text, radix)
  {
    var acc := 0;
    for i := 0 to |text|
      invariant acc == Value(text[..i], radix) < U64_LIMIT
    {
      assert text[..i + 1][..i] == text[..i];
      ValuePrefix(text, i + 1, radix);
      var product := acc * radix;
      if product >= U64_LIMIT { return None; }
      var sum := product + DigitOf(text[i]);
      if sum >= U64_LIMIT { return None; }
      acc := sum;
    }
    assert text[..|text|] == text;
    return Some(acc);
  }

  // ---- the sixteen digits -----------------------------------------------------------

  /** The digits in order: 0 to 9, then a to f. */
  const HEX_DIGITS: Bytes := [48, 49, 50, 51, 52, 53, 54, 55, 56, 57, 97, 98, 99, 100, 101, 102]

  /** A byte is a hex digit exactly when it is, up to case, one of the sixteen, and its value is
      its place among them. */
  lemma DigitIsPlace(b: Byte)
    ensures IsHexDigit(b) <==> LowerByte(b) in HEX_DIGITS
    ensures IsHexDigit(b) ==> DigitOf(b) < |HEX_DIGITS| && HEX_DIGITS[DigitOf(b)] == LowerByte(b)
  {
    assert HEX_DIGITS == HEX_DIGITS[..10] + HEX_DIGITS[10..];
    if IsHexDigit(b) {
      var d := LowerByte(b) - (if IsDigit(b) then 48 else 87);
      assert HEX_DIGITS[d] == LowerByte(b);
    }
  }

  /** Case makes no difference to what a hexadecimal text denotes. */
  lemma {:induction false} CaseIsIgnored(a: Bytes, b: Bytes)
    requires EqIgnoreCase(a, b) && AllHex(a)
    ensures AllHex(b) && Value(a, 16) == Value(b, 16)
  {
    if a != [] {
      var n := |a| - 1;
      CaseIsIgnored(a[..n], b[..n]);
      DigitIsPlace(a[n]);
      DigitIsPlace(b[n]);
      assert b == b[..n] + [b[n]];
    }
  }

  function HexByte(d: nat): (b: Byte)
    requires d < 16
    ensures IsHexDigit(b) && DigitOf(b) == d
  {
    if d < 10 then 48 + d else 87 + d
  }

  /** Minimal lower-case hexadecimal; the empty string for zero. */
  function Hex(n: nat): (text: Bytes)
    ensures AllHex(text)
    ensures n > 0 ==> text != [] && text[0] != ZERO
    ensures n == 0 ==> text == []
  {
    if n == 0 then [] else
      var high := Hex(n / 16);
      high + [HexByte(n % 16)]
  }

  lemma {:induction false} HexReadsBack(n: nat)
    ensures Value(Hex(n), 16) == n
  {
    if n != 0 {
      HexReadsBack(n / 16);
      var text := Hex(n);
      assert text[..|text| - 1] == Hex(n / 16);
      assert text[|text| - 1] == HexByte(n % 16);
    }
  }

  /** The texts that denote a number are its minimal hexadecimal in any case, after any zeros. */
  predicate Denotes16(text: Bytes, n: nat)
  {
    var zeros := |text| - |Hex(n)|;
    && 0 <= zeros
    && (forall i :: 0 <= i < zeros ==> text[i] == ZERO)
    && EqIgnoreCase(text[zeros..], Hex(n))
  }

  /** Reading is exact: a text of hex digits has the value n if and only if it is one of n's texts. */
  lemma {:induction false} HexTextsOf(text: Bytes, n: nat)
    ensures AllHex(text) && Value(text, 16) == n <==> Denotes16(text, n)
  {
    if AllHex(text) && Value(text, 16) == n {
      HexTextSound(text);
    } else if Denotes16(text, n) {
      HexTextComplete(text, n);
    }
  }

  lemma {:induction false} HexTextSound(text: Bytes)
    requires AllHex(text)
    ensures Denotes16(text, Value(text, 16))
  {
    hide Denotes16, Hex, HexByte;
    if text == [] {
      DenotesNothing();
    } else {
      var init, b := text[..|text| - 1], text[|text| - 1];
      HexTextSound(init);
      OneMoreDigit(init, b, Value(init, 16));
      assert text == init + [b];
    }
  }

  lemma DenotesNothing()
    ensures Denotes16([], 0)
  {
  }

  lemma OneMoreDigit(text: Bytes, b: Byte, high: nat)
    requires IsHexDigit(b) && Denotes16(text, high)
    ensures Denotes16(text + [b], high * 16 + DigitOf(b))
  {
    hide IsHexDigit, LowerByte, DigitOf, HexByte, AllHex;
    var n := high * 16 + DigitOf(b);
    assert n / 16 == high && n % 16 == DigitOf(b);
    if n != 0 {
      SameDigit(b);
      assert Hex(n) == Hex(high) + [HexByte(DigitOf(b))];
      var zeros := |text| - |Hex(high)|;
      assert (text + [b])[zeros..] == text[zeros..] + [b];
    } else {
      ZeroDigit(b);
    }
  }

  lemma SameDigit(b: Byte)
    requires IsHexDigit(b)
    ensures LowerByte(b) == LowerByte(HexByte(DigitOf(b)))
  {
  }

  lemma ZeroDigit(b: Byte)
    requires IsHexDigit(b) && DigitOf(b) == 0
    ensures b == ZERO
  {
  }

  lemma {:induction false} HexTextComplete(text: Bytes, n: nat)
    requires Denotes16(text, n)
    ensures AllHex(text) && Value(text, 16) == n
    decreases |text|
  {
    var zeros := |text| - |Hex(n)|;
    HexReadsBack(n);
    CaseIsIgnored(Hex(n), text[zeros..]);
    LeadingZeros(text, zeros);
    assert text == text[..zeros] + text[zeros..];
  }

  lemma {:induction false} LeadingZeros(text: Bytes, zeros: nat)
    requires zeros <= |text| && forall i :: 0 <= i < zeros ==> text[i] == ZERO
    ensures Value(text, 16) == Value(text[zeros..], 16)
  {
    if zeros < |text| {
      var n := |text| - 1;
      LeadingZeros(text[..n], zeros);
      assert text[zeros..][..n - zeros] == text[..n][zeros..];
    } else if text != [] {
      var n := |text| - 1;
      LeadingZeros(text[..n], n);
      assert text[zeros..] == [] && text[..n][n..] == [];
    }
  }

  function Decimal(n: nat): (text: Bytes)
    ensures text != [] && AllDecimal(text)
    ensures n > 0 ==> text[0] != ZERO
  {
    if n < 10 then [48 + n] else Decimal(n / 10) + [48 + n % 10]
  }

  lemma {:induction false} DecimalReadsBack(n: nat)
    ensures Value(Decimal(n), 10) == n
  {
    var text := Decimal(n);
    if n < 10 {
      assert text[..0] == [];
      assert Value(text[..0], 10) == 0;
    } else {
      DecimalReadsBack(n / 10);
      assert text[..|text| - 1] == Decimal(n / 10);
      assert DigitOf(text[|text| - 1]) == n % 10;
    }
  }

  /** The number of bits up to the highest set one: the word size less the leading zeros. */
  function BitLength(n: nat): (bits: nat)
  {
    if n == 0 then 0 else 1 + BitLength(n / 2)
  }

  /** Rounding the bit length up to whole nibbles gives the number of hex digits. */
  lemma {:induction false} NibblesAreHexDigits(n: nat)
    ensures (BitLength(n) + 3) / 4 == |Hex(n)|
  {
    if n >= 16 {
      NibblesAreHexDigits(n / 16);
      FourBits(n);
    } else if n >= 8 {
      FourBits(n);
      assert n / 16 == 0 && Hex(n / 16) == [];
    } else if n > 0 {
      assert n / 16 == 0 && Hex(n / 16) == [];
      assert 1 <= BitLength(n) <= 3 by {
        assert BitLength(n) == 1 + BitLength(n / 2);
        assert n / 2 > 0 ==> BitLength(n / 2) == 1 + BitLength(n / 2 / 2);
        assert n / 2 / 2 > 0 ==> n / 2 / 2 == 1;
      }
    }
  }

  lemma FourBits(n: nat)
    requires n >= 8
    ensures BitLength(n) == 4 + BitLength(n / 16)
  {
    assert BitLength(n) == 1 + BitLength(n / 2);
    assert BitLength(n / 2) == 1 + BitLength(n / 2 / 2);
    assert BitLength(n / 2 / 2) == 1 + BitLength(n / 2 / 2 / 2);
    assert BitLength(n / 2 / 2 / 2) == 1 + BitLength(n / 2 / 2 / 2 / 2);
    assert n / 2 / 2 / 2 / 2 == n / 16;
  }

  lemma {:induction false} BitLengthBound(n: nat, width: nat, limit: nat)
    requires limit == Power2(width) && n < limit
    ensures BitLength(n) <= width
  {
    if n > 0 {
      BitLengthBound(n / 2, width - 1, Power2(width - 1));
    }
  }

  function Power2(k: nat): (p: nat)
    ensures p > 0
  {
    if k == 0 then 1 else 2 * Power2(k - 1)
  }

  lemma WordIs64Bits()
    ensures Power2(64) == U64_LIMIT
  {
    assert Power2(8) == 256;
    assert Power2(16) == 65536 by { assert Power2(12) == 4096; }
    assert Power2(24) == 0x100_0000 by { assert Power2(20) == 0x10_0000; }
    assert Power2(32) == 0x1_0000_0000 by { assert Power2(28) == 0x1000_0000; }
    assert Power2(40) == 0x100_0000_0000 by { assert Power2(36) == 0x10_0000_0000; }
    assert Power2(48) == 0x1_0000_0000_0000 by { assert Power2(44) == 0x1000_0000_0000; }
    assert Power2(56) == 0x100_0000_0000_0000 by { assert Power2(52) == 0x10_0000_0000_0000; }
    assert Power2(60) == 0x1000_0000_0000_0000;
  }

  /** A 64-bit length never needs more than sixteen hex digits. */
  lemma HexFits(n: nat)
    requires n < U64_LIMIT
    ensures |Hex(n)| <= 16
  {
    WordIs64Bits();
    BitLengthBound(n, 64, U64_LIMIT);
    NibblesAreHexDigits(n);
  }
}
