/**
 * `utility::hexToBinaryStr`: a byte as the eight-character string
 * `std::bitset<8>::to_string` produces, most significant bit first.
 */
module Utility {

  /** The digit for one bit. */
  function Digit(bit: bv8): char
  {
    if bit & 1 == 1 then '1' else '0'
  }

  /**
   * The n lowest bits of b as binary digits, most significant first: the
   * digits of the higher bits, then the digit of bit 0.
   */
  function Digits(b: bv8, n: nat): (s: string)
    requires n <= 8
    ensures |s| == n
    ensures forall i :: 0 <= i < n ==> s[i] == '0' || s[i] == '1'
  {
    if n == 0 then [] else Digits(b >> 1, n - 1) + [Digit(b)]
  }

  /** `hexToBinaryStr`: the byte written out in base 2 with all eight digits. */
  function HexToBinaryStr(hex: bv8): (s: string)
    ensures |s| == 8
    ensures forall i :: 0 <= i < 8 ==> s[i] == '0' || s[i] == '1'
  {
    Digits(hex, 8)
  }

  /** Reads a string of binary digits back, most significant first; any digit but '1' counts as 0. */
  function ParseBinary(s: string): bv8
  {
    if s == [] then 0
    else (ParseBinary(s[..|s| - 1]) << 1) | (if s[|s| - 1] == '1' then 1 else 0)
  }

  /** A mask of the n lowest bits. */
  function LowMask(n: nat): bv8
  {
    if n == 0 then 0 else (LowMask(n - 1) << 1) | 1
  }

  /** Bit k of b is set. */
  predicate BitSet(b: bv8, k: nat)
    requires k < 8
  {
    (b >> k) & 1 == 1
  }

  /** Bit k of b shifted right once is bit k + 1 of b. */
  lemma ShiftedBit(b: bv8, k: nat)
    requires k < 7
    ensures BitSet(b >> 1, k) == BitSet(b, k + 1)
  {
    if k == 0 {
    } else if k == 1 {
    } else if k == 2 {
    } else if k == 3 {
    } else if k == 4 {
    } else if k == 5 {
    } else {
    }
  }

  /** Digit i of the n lowest bits is '1' exactly when bit n-1-i is set. */
  lemma {:induction false} DigitsBit(b: bv8, n: nat, i: nat)
    requires i < n <= 8
    ensures Digits(b, n)[i] == '1' <==> BitSet(b, n - 1 - i)
  {
    if i < n - 1 {
      assert Digits(b, n)[i] == Digits(b >> 1, n - 1)[i];
      DigitsBit(b >> 1, n - 1, i);
      var k := n - 2 - i;
      ShiftedBit(b, k);
      assert n - 1 - i == k + 1;
    } else {
      assert Digits(b, n)[i] == Digit(b);
      assert b >> 0 == b;
    }
  }

  /** One more low bit: the higher bits shifted back, then bit 0. */
  lemma MaskStep(b: bv8, m: bv8)
    ensures (((b >> 1) & m) << 1) | (b & 1) == b & ((m << 1) | 1)
  {
  }

  /** Parsing the n lowest digits gives back the n lowest bits. */
  lemma {:induction false} DigitsParse(b: bv8, n: nat)
    requires n <= 8
    ensures ParseBinary(Digits(b, n)) == b & LowMask(n)
  {
    if n > 0 {
      var s := Digits(b, n);
      assert s[..|s| - 1] == Digits(b >> 1, n - 1);
      assert (if s[|s| - 1] == '1' then 1 else 0) == b & 1;
      DigitsParse(b >> 1, n - 1);
      MaskStep(b, LowMask(n - 1));
    }
  }

  /** The output is most significant bit first: character i is '1' exactly when bit 7 - i is set. */
  lemma MostSignificantFirst(hex: bv8, i: nat)
    requires i < 8
    ensures HexToBinaryStr(hex)[i] == '1' <==> BitSet(hex, 7 - i)
  {
    DigitsBit(hex, 8, i);
  }

  /** Reading the string in base 2 gives back the byte. */
  lemma ParseRoundTrip(hex: bv8)
    ensures ParseBinary(HexToBinaryStr(hex)) == hex
  {
    DigitsParse(hex, 8);
    assert LowMask(8) == 0xFF;
  }

  /** Distinct bytes give distinct strings. */
  lemma Injective(a: bv8, b: bv8)
    requires HexToBinaryStr(a) == HexToBinaryStr(b)
    ensures a == b
  {
    ParseRoundTrip(a);
    ParseRoundTrip(b);
  }

  /** Revision id 0x04 prints as "00000100". */
  lemma RevisionExample()
    ensures HexToBinaryStr(0x04) == "00000100"
  {
    assert Digits(0x00, 5) == "00000";
    assert Digits(0x01, 6) == "000001";
    assert Digits(0x02, 7) == "0000010";
  }

  /** The two extremes: all zeros and all ones. */
  lemma ExtremeExamples()
    ensures HexToBinaryStr(0x00) == "00000000"
    ensures HexToBinaryStr(0xFF) == "11111111"
  {
    assert Digits(0x01, 1) == "1";
    assert Digits(0x03, 2) == "11";
    assert Digits(0x07, 3) == "111";
    assert Digits(0x0F, 4) == "1111";
    assert Digits(0x1F, 5) == "11111";
    assert Digits(0x3F, 6) == "111111";
    assert Digits(0x7F, 7) == "1111111";
  }
}
