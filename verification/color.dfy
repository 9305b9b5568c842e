/**
 Project-colour derivation: the project key is lower-cased, encoded as UTF-8
 and hashed with SHA-256; the digest is rendered in lowercase hex and the
 colour is `'#'` followed by the first six hex characters.

 Lower-casing, UTF-8 encoding and SHA-256 are calls into the platform; they are
 carried by a `Platform` value and left uninterpreted, except that the digest
 is known to have 32 bytes.
 */
module ProjectColor {
  import opened Base16
  import JsHex

  /** A SHA-256 digest: exactly 32 bytes (section 6.2 of FIPS 180-4). */
  type Digest = d: seq<uint8> | |d| == 32 witness seq(32, _ => 0 as uint8)

  /** The platform calls the derivation makes and that are not modelled. */
  datatype Platform = Platform(
    toLowerCase: string -> string,
    utf8Encode: string -> seq<uint8>,
    sha256: seq<uint8> -> Digest)

  /** A CSS colour of the form `#rrggbb` with lowercase hex digits. */
  predicate IsHexColor(c: string) {
    |c| == 7 && c[0] == '#' && IsLowerHex(c[1..])
  }

  function Clamp(n: int, len: nat): (r: nat)
    ensures r <= len
  {
    if n < 0 then 0 else if n > len then len else n
  }

  /**
   JavaScript's `s.substring(start, end)`: both positions are clamped to
   `[0, |s|]` and, if they are out of order, swapped.
   */
  function Substring(s: string, start: int, end: int): (r: string)
    ensures |r| <= |s|
    ensures 0 <= start <= end <= |s| ==> r == s[start..end]
    ensures 0 <= start <= |s| <= end ==> r == s[start..]
  {
    var a, b := Clamp(start, |s|), Clamp(end, |s|);
    if a <= b then s[a..b] else s[b..a]
  }

  /** The order of the two positions does not matter. */
  lemma SubstringSymmetric(s: string, start: int, end: int)
    ensures Substring(s, start, end) == Substring(s, end, start)
  {
  }

  /** The colour for a digest of any length: `'#' + hex(digest).substring(0, 6)`. */
  function ColorOfDigest(digest: seq<uint8>): (c: string)
    ensures |c| == 1 + (if |digest| < 3 then 2 * |digest| else 6)
    ensures c[0] == '#'
    ensures IsLowerHex(c[1..])
    ensures |digest| >= 3 ==> c[1..] == Encode(digest[..3])
  {
    var hex := JsHex.EncodeHex(digest);
    EncodeLowerHex(digest);
    EncodePrefix(digest, if |digest| < 3 then |digest| else 3);
    "#" + Substring(hex, 0, 6)
  }

  /** `stringToColor(value)`. */
  function StringToColor(value: string, p: Platform): (c: string)
    ensures IsHexColor(c)
    ensures c[1..] == Encode(p.sha256(p.utf8Encode(p.toLowerCase(value)))[..3])
  {
    ColorOfDigest(p.sha256(p.utf8Encode(p.toLowerCase(value))))
  }

  /**
   Two digests give the same colour exactly when their first three bytes agree:
   the six characters kept cover bytes 0 to 2 and nothing else, and the hex
   rendering of those bytes loses nothing.
   */
  lemma SameColorIffSamePrefix(d1: Digest, d2: Digest)
    ensures ColorOfDigest(d1) == ColorOfDigest(d2) <==> d1[..3] == d2[..3]
  {
    var c1, c2 := ColorOfDigest(d1), ColorOfDigest(d2);
    if c1 == c2 {
      assert c1[1..] == c2[1..];
      EncodeInjective(d1[..3], d2[..3]);
    } else {
      assert c1 == [c1[0]] + c1[1..] && c2 == [c2[0]] + c2[1..];
    }
  }

  /** Only the lower-cased key reaches the digest, so keys differing only in case share a colour. */
  lemma SameLowerCaseSameColor(a: string, b: string, p: Platform)
    requires p.toLowerCase(a) == p.toLowerCase(b)
    ensures StringToColor(a, p) == StringToColor(b, p)
  {
  }

  /** With an idempotent lower-casing, the colour of a key equals that of its lower-cased form. */
  lemma ColorOfLowerCasedKey(value: string, p: Platform)
    requires p.toLowerCase(p.toLowerCase(value)) == p.toLowerCase(value)
    ensures StringToColor(p.toLowerCase(value), p) == StringToColor(value, p)
  {
  }

  /** A byte below 16 keeps its leading zero; the other two digits are the nibbles. */
  lemma ExampleBytes()
    ensures EncodeByte(0x0a) == "0a" && EncodeByte(0xff) == "ff" && EncodeByte(0x03) == "03"
  {
    assert HexDigit(0) == '0' && HexDigit(10) == 'a' && HexDigit(15) == 'f' && HexDigit(3) == '3';
  }

  /** The rendering of bytes 0x0a, 0xff, 0x03 is `0aff03`. */
  lemma ExampleRendering()
    ensures Encode([0x0a, 0xff, 0x03]) == "0aff03"
  {
    ExampleBytes();
    EncodeCons(0x03, []);
    EncodeCons(0xff, [0x03]);
    EncodeCons(0x0a, [0xff, 0x03]);
    assert Encode([]) == "";
    assert "0a" + ("ff" + ("03" + "")) == "0aff03";
  }

  /** A digest starting with bytes 0x0a, 0xff, 0x03 gives `#0aff03`: zero padding keeps two digits per byte. */
  lemma ColorExample(digest: Digest)
    requires digest[..3] == [0x0a, 0xff, 0x03]
    ensures ColorOfDigest(digest) == "#0aff03"
  {
    var c := ColorOfDigest(digest);
    ExampleRendering();
    assert c == [c[0]] + c[1..];
  }
}
