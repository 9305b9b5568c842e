/**
 The JavaScript calls that turn a digest into hex text:
 `hashArray.map((b) => b.toString(16).padStart(2, "0")).join("")`.
 Each is modelled with its JavaScript meaning, and the composition is shown to
 be the Base16 encoding.
 */
module JsHex {
  import opened Base16

  /**
   `n.toString(16)` for a non-negative integer: the shortest radix-16 numeral,
   most significant digit first, with no padding.
   */
  function Radix16(n: nat): (r: string)
    ensures 1 <= |r|
    ensures |r| == 1 <==> n < 16
    ensures n != 0 ==> r[0] != '0'
  {
    if n < 16 then [HexDigit(n)] else Radix16(n / 16) + [HexDigit(n % 16)]
  }

  /** The value of a lowercase hex numeral, most significant digit first. */
  function NumeralValue(s: string): nat
    requires IsLowerHex(s)
  {
    if s == [] then 0
    else NumeralValue(s[..|s| - 1]) * 16 + HexDigitValue(s[|s| - 1]).value
  }

  /** The numeral `toString(16)` writes is made of lowercase hex digits and denotes `n`. */
  lemma {:induction false} Radix16Value(n: nat)
    ensures IsLowerHex(Radix16(n))
    ensures NumeralValue(Radix16(n)) == n
  {
    if n >= 16 {
      Radix16Value(n / 16);
      var front, last := Radix16(n / 16), [HexDigit(n % 16)];
      LowerHexConcat(front, last);
      assert (front + last)[..|front + last| - 1] == front;
      HexDigitValueOfDigit(n % 16);
    } else {
      HexDigitValueOfDigit(n);
    }
  }

  /** For a byte value the numeral is one digit below 16, and the two nibbles from 16 on. */
  lemma Radix16OfByte(n: nat)
    requires n < 256
    ensures n < 16 ==> Radix16(n) == [HexDigit(n)]
    ensures 16 <= n ==> Radix16(n) == [HexDigit(n / 16), HexDigit(n % 16)]
  {
    if 16 <= n {
      assert Radix16(n / 16) == [HexDigit(n / 16)];
    }
  }

  /**
   JavaScript's `s.padStart(targetLength, fill)` for a one-character fill:
   `s` is returned unchanged when it is already long enough, otherwise copies
   of `fill` are prepended until it has `targetLength` characters.
   */
  function PadStart(s: string, targetLength: nat, fill: char): (r: string)
    ensures |r| == if |s| < targetLength then targetLength else |s|
    ensures r[|r| - |s|..] == s
    ensures forall i :: 0 <= i < |r| - |s| ==> r[i] == fill
  {
    if targetLength <= |s| then s else seq(targetLength - |s|, _ => fill) + s
  }

  /** `b.toString(16).padStart(2, "0")` is the two-digit Base16 form of the byte. */
  function ByteToHex(b: uint8): (r: string)
    ensures r == EncodeByte(b)
  {
    Radix16OfByte(b as int);
    PadStart(Radix16(b as int), 2, '0')
  }

  /** `bytes.map(ByteToHex).join("")` is the Base16 encoding of the bytes. */
  function EncodeHex(bytes: seq<uint8>): (r: string)
    ensures r == Encode(bytes)
  {
    if bytes == [] then "" else ByteToHex(bytes[0]) + EncodeHex(bytes[1..])
  }
}
