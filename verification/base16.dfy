/**
 The lowercase variant of the Base16 encoding (section 8 of RFC 4648): each
 byte is written as two hex digits, high nibble first, from the alphabet
 `0-9a-f`. A strict decoder is its inverse, so the encoding can be shown to
 lose nothing.
 */
module Base16 {
  import opened Wrappers

  /** An element of a `Uint8Array`: an integer from 0 to 255. */
  newtype uint8 = x: int | 0 <= x < 256

  /** The characters of the lowercase Base16 alphabet. */
  predicate IsLowerHexDigit(c: char) {
    ('0' <= c <= '9') || ('a' <= c <= 'f')
  }

  /** True iff every character of `s` is a lowercase hex digit. */
  predicate IsLowerHex(s: string) {
    forall i :: 0 <= i < |s| ==> IsLowerHexDigit(s[i])
  }

  lemma LowerHexConcat(a: string, b: string)
    requires IsLowerHex(a) && IsLowerHex(b)
    ensures IsLowerHex(a + b)
  {
    forall i | 0 <= i < |a + b|
      ensures IsLowerHexDigit((a + b)[i])
    {
      if i < |a| { assert (a + b)[i] == a[i]; } else { assert (a + b)[i] == b[i - |a|]; }
    }
  }

  /** The digit for a value below 16; these are also the digits of JavaScript's radix-16 `toString`. */
  function HexDigit(n: nat): (c: char)
    requires n < 16
    ensures IsLowerHexDigit(c)
  {
    if n < 10 then ('0' as int + n) as char else ('a' as int + (n - 10)) as char
  }

  /** The value of a lowercase hex digit; upper-case and other characters are rejected. */
  function HexDigitValue(c: char): (r: Option<nat>)
    ensures r.Some? <==> IsLowerHexDigit(c)
    ensures r.Some? ==> r.value < 16 && HexDigit(r.value) == c
  {
    if '0' <= c <= '9' then Some(c as int - '0' as int)
    else if 'a' <= c <= 'f' then Some(c as int - 'a' as int + 10)
    else None
  }

  lemma HexDigitValueOfDigit(n: nat)
    requires n < 16
    ensures HexDigitValue(HexDigit(n)) == Some(n)
  {
  }

  /** One byte as two digits, high nibble first. */
  function EncodeByte(b: uint8): string {
    [HexDigit(b as int / 16), HexDigit(b as int % 16)]
  }

  /** The Base16 encoding of a byte sequence. */
  function Encode(bytes: seq<uint8>): (r: string)
    ensures |r| == 2 * |bytes|
  {
    if bytes == [] then "" else EncodeByte(bytes[0]) + Encode(bytes[1..])
  }

  lemma EncodeCons(b: uint8, rest: seq<uint8>)
    ensures Encode([b] + rest) == EncodeByte(b) + Encode(rest)
  {
    assert ([b] + rest)[0] == b && ([b] + rest)[1..] == rest;
  }

  /** The encoding uses only the lowercase alphabet. */
  lemma {:induction false} EncodeLowerHex(bytes: seq<uint8>)
    ensures IsLowerHex(Encode(bytes))
  {
    if bytes != [] {
      EncodeLowerHex(bytes[1..]);
      var head := EncodeByte(bytes[0]);
      assert IsLowerHexDigit(head[0]) && IsLowerHexDigit(head[1]);
      LowerHexConcat(head, Encode(bytes[1..]));
    }
  }

  /** Encoding distributes over concatenation. */
  lemma {:induction false} EncodeAppend(a: seq<uint8>, b: seq<uint8>)
    ensures Encode(a + b) == Encode(a) + Encode(b)
  {
    if a == [] {
      assert a + b == b;
    } else {
      assert (a + b)[1..] == a[1..] + b;
      EncodeAppend(a[1..], b);
    }
  }

  /** The first `2k` characters of the encoding are exactly the encoding of the first `k` bytes. */
  lemma EncodePrefix(bytes: seq<uint8>, k: nat)
    requires k <= |bytes|
    ensures Encode(bytes)[..2 * k] == Encode(bytes[..k])
  {
    assert bytes == bytes[..k] + bytes[k..];
    EncodeAppend(bytes[..k], bytes[k..]);
  }

  /** Byte `i` occupies characters `2i` (high nibble) and `2i+1` (low nibble). */
  lemma EncodeAt(bytes: seq<uint8>, i: nat)
    requires i < |bytes|
    ensures Encode(bytes)[2 * i] == HexDigit(bytes[i] as int / 16)
    ensures Encode(bytes)[2 * i + 1] == HexDigit(bytes[i] as int % 16)
  {
    var front, back := bytes[..i], bytes[i..];
    assert bytes == front + back;
    EncodeAppend(front, back);
    assert back == [bytes[i]] + back[1..];
    EncodeCons(bytes[i], back[1..]);
    var a, pair, c := Encode(front), EncodeByte(bytes[i]), Encode(back[1..]);
    assert Encode(bytes) == a + (pair + c);
    assert |a| == 2 * i;
    assert (a + (pair + c))[2 * i] == pair[0];
    assert (a + (pair + c))[2 * i + 1] == pair[1];
  }

  lemma NibblesOfByte(b: uint8)
    ensures (b as int / 16 * 16 + b as int % 16) as uint8 == b
  {
  }

  lemma ByteOfNibbles(hi: nat, lo: nat)
    requires hi < 16 && lo < 16
    ensures (hi * 16 + lo) as uint8 as int / 16 == hi
    ensures (hi * 16 + lo) as uint8 as int % 16 == lo
  {
    var v := hi * 16 + lo;
    assert v < 256;
    assert v as uint8 as int == v;
  }

  /** Two lowercase hex digits read as one byte, which encodes back to the same two digits. */
  function DecodePair(c0: char, c1: char): (r: Option<uint8>)
    ensures r.Some? <==> IsLowerHexDigit(c0) && IsLowerHexDigit(c1)
    ensures r.Some? ==> EncodeByte(r.value) == [c0, c1]
  {
    var hi, lo := HexDigitValue(c0), HexDigitValue(c1);
    if hi.Some? && lo.Some? then
      ByteOfNibbles(hi.value, lo.value);
      Some((hi.value * 16 + lo.value) as uint8)
    else None
  }

  /** DecodePair reads back the byte from its two digits. */
  lemma DecodePairOfByte(b: uint8)
    ensures DecodePair(EncodeByte(b)[0], EncodeByte(b)[1]) == Some(b)
  {
    var n := b as int;
    HexDigitValueOfDigit(n / 16);
    HexDigitValueOfDigit(n % 16);
    NibblesOfByte(b);
  }

  /** The inverse of Encode: pairs of lowercase hex digits back to bytes. */
  function Decode(s: string): (r: Option<seq<uint8>>)
    ensures r.Some? ==> 2 * |r.value| == |s|
  {
    if s == [] then Some([])
    else if |s| == 1 then None
    else
      var first, rest := DecodePair(s[0], s[1]), Decode(s[2..]);
      if first.Some? && rest.Some? then Some([first.value] + rest.value) else None
  }

  /** Decoding an encoding gives the bytes back. */
  lemma {:induction false} DecodeEncode(bytes: seq<uint8>)
    ensures Decode(Encode(bytes)) == Some(bytes)
  {
    if bytes != [] {
      var s := Encode(bytes);
      var head, tail := EncodeByte(bytes[0]), Encode(bytes[1..]);
      assert s == head + tail;
      assert s[0] == head[0] && s[1] == head[1] && s[2..] == tail;
      DecodePairOfByte(bytes[0]);
      DecodeEncode(bytes[1..]);
      assert bytes == [bytes[0]] + bytes[1..];
    }
  }

  lemma DecodeCons(s: string)
    requires |s| >= 2 && Decode(s).Some?
    ensures DecodePair(s[0], s[1]).Some? && Decode(s[2..]).Some?
    ensures Decode(s).value == [DecodePair(s[0], s[1]).value] + Decode(s[2..]).value
  {
  }

  lemma EncodeDecodeStep(s: string, b: uint8, rest: seq<uint8>)
    requires |s| >= 2
    requires EncodeByte(b) == [s[0], s[1]]
    requires Encode(rest) == s[2..]
    ensures Encode([b] + rest) == s
  {
    EncodeCons(b, rest);
    assert s == [s[0], s[1]] + s[2..];
  }

  /** Every string the decoder accepts is the encoding of what it decodes to. */
  lemma {:induction false} EncodeDecode(s: string)
    requires Decode(s).Some?
    ensures Encode(Decode(s).value) == s
  {
    if s != [] {
      DecodeCons(s);
      var b, rest := DecodePair(s[0], s[1]).value, Decode(s[2..]).value;
      EncodeDecode(s[2..]);
      EncodeDecodeStep(s, b, rest);
    }
  }

  /** Two byte sequences share an encoding only if they are equal. */
  lemma EncodeInjective(a: seq<uint8>, b: seq<uint8>)
    ensures Encode(a) == Encode(b) <==> a == b
  {
    if Encode(a) == Encode(b) {
      DecodeEncode(a);
      DecodeEncode(b);
    }
  }
}
