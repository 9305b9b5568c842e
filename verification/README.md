# Logo generator overlay, modelled in Dafny

The logo generator composes a branded image in a browser canvas. It draws a user's
uploaded picture full-bleed on a white background, then an overlay on top:

- a triangle in the top-right corner, in a colour derived from the project key;
- two white cards with one rounded corner each;
- the brand icon (`lightning.png`) in the top-left card;
- the Terraform icon in the bottom-right card.

This project models the three parts of `src/main.ts` that have stateable logic. Each is
a pure function over immutable records.

- **Project colour** (`wrappers.dfy`, `base16.dfy`, `jshex.dfy`, `color.dfy`). The key is lower-cased,
  UTF-8 encoded and hashed with SHA-256. Each digest byte is written as
  `b.toString(16).padStart(2, "0")`, the pieces are joined, and the colour is
  `'#' + hex.substring(0, 6)`. This is the lowercase variant of Base16, section 8 of
  RFC 4648. `base16.dfy` defines that encoding and a strict decoder for it.
  `jshex.dfy` models JavaScript's `toString(16)` and `padStart`, and proves that the
  code's map-and-join produces exactly the Base16 encoding. `substring` is modelled in
  `color.dfy` with its JavaScript meaning, so the colour is defined for a digest of any
  length. The decoder is the encoder's partner. The round trip in both directions shows
  that the six characters kept determine, and are determined by, the first three digest
  bytes.
  Lower-casing, UTF-8 encoding and SHA-256 are platform calls. They are fields of a
  `Platform` value and stay uninterpreted, except that the digest has exactly 32 bytes.
- **Overlay geometry** (`layout.dfy`). Coordinates are exact reals for a canvas of
  `w` by `h` (natural numbers). The constants are the ones the code hard-codes:
  padding 5, card ratio 0.55, triangle from 0.8 of the width to 0.2 of the height,
  corner radius 20, brand icon 100 by 100.
- **Draw order** (`render.dfy`). Rendering is a list of draw commands: background fill,
  base image, accent triangle, one white fill of both cards, brand icon, Terraform icon.
  Order, colour use and containment are stated over that list.

Facts about the code that the model makes explicit; the named lemmas prove the geometric ones:

- The top-left card is a fixed 105 by 105 and does not grow with the canvas. It lies
  inside the canvas only when both sides are at least 105 (`TopLeftCardInCanvasIff`).
- The bottom-right card starts at `0.55 w - 5`. It lies inside the canvas only when both
  sides are at least 10 (`BottomRightCardInCanvasIff`).
- The two cards' bounding rectangles overlap unless a side is 0 or at least 200 (`CardsDisjointIff`).
- Each icon's inner corner lies outside its card's rounded corner, although it lies inside
  the card's bounding rectangle. For the brand icon this holds on every canvas
  (`BrandIconCornerCut`); for the Terraform icon, on canvases of at least 34 by 34
  (`FrameworkIconCornerCut`).
- Only the Terraform icon is drawn. Kubernetes, GCP and AWS are comments (src/main.ts:91-95).
- Loads are awaited one after another (src/main.ts:47-52).

## Model

| member | source | states |
|---|---|---|
| Base16.HexDigit | src/main.ts:123 | the digit written for a value below 16 is a lowercase hex digit |
| Base16.HexDigitValue | src/main.ts:123 | a character has a value exactly when it is a lowercase hex digit, and the digit of that value is the character again |
| JsHex.Radix16 | src/main.ts:123 | `n.toString(16)` is non-empty, has one digit exactly when `n < 16`, and starts with a digit other than `0` unless `n` is 0, so it has no leading zeros |
| JsHex.Radix16Value | src/main.ts:123 | `n.toString(16)` is made of lowercase hex digits and its value as a radix-16 numeral is `n` |
| JsHex.Radix16OfByte | src/main.ts:123 | for a byte value, `toString(16)` is one digit below 16 and the high then low nibble from 16 on |
| JsHex.PadStart | src/main.ts:123 | `padStart(n, c)` has length `max(n, |s|)`, ends with `s`, and every character before `s` is `c` |
| JsHex.ByteToHex | src/main.ts:123 | `b.toString(16).padStart(2, "0")` is the two-digit Base16 form of the byte: high nibble, then low nibble, zero-padded |
| JsHex.EncodeHex | src/main.ts:122-124 | the joined per-byte strings are the Base16 encoding of the whole byte sequence |
| Base16.Encode | src/main.ts:122-124 | the encoding has exactly two characters per byte |
| Base16.EncodeLowerHex | src/main.ts:122-124 | every character of the encoding is from `0-9a-f` |
| Base16.EncodeAt | src/main.ts:122-124 | byte `i` is written at characters `2i` (high nibble) and `2i+1` (low nibble) |
| Base16.EncodeAppend | src/main.ts:122-124 | encoding a concatenation is the concatenation of the encodings |
| Base16.EncodePrefix | src/main.ts:122-126 | the first `2k` characters of the encoding are the encoding of the first `k` bytes |
| Base16.DecodePair | src/main.ts:123 | two characters decode to a byte exactly when both are lowercase hex digits, and that byte encodes back to the same two characters |
| Base16.Decode | src/main.ts:122-124 | the inverse of the encoding: an accepted string has twice as many characters as the bytes it gives |
| Base16.DecodeEncode | src/main.ts:122-124 | decoding an encoding gives back the bytes |
| Base16.EncodeDecode | src/main.ts:122-124 | every string the decoder accepts is the encoding of what it decodes to |
| Base16.EncodeInjective | src/main.ts:122-124 | two byte sequences have the same encoding if and only if they are equal |
| ProjectColor.ExampleBytes | src/main.ts:123 | `0x0a`, `0xff` and `0x03` are written `0a`, `ff` and `03`, so a small byte keeps its leading zero |
| ProjectColor.Substring | src/main.ts:126 | `substring(a, b)` is no longer than the string, and is the slice `[a, b)` when `0 <= a <= b <= |s|` |
| ProjectColor.SubstringSymmetric | src/main.ts:126 | swapping the two positions of `substring` gives the same result |
| ProjectColor.ColorOfDigest | src/main.ts:121-126 | for a digest of `n` bytes the colour is `'#'` followed by `min(6, 2n)` lowercase hex digits; with at least three bytes they are the encoding of bytes 0 to 2 |
| ProjectColor.StringToColor | src/main.ts:118-127 | the colour has length 7, starts with `#`, and is followed by the Base16 encoding of the first three bytes of the SHA-256 digest of the UTF-8 encoded lower-cased key |
| ProjectColor.SameColorIffSamePrefix | src/main.ts:121-126 | two digests give the same colour if and only if their first three bytes are equal |
| ProjectColor.SameLowerCaseSameColor | src/main.ts:119-120 | keys with the same lower-cased form have the same colour |
| ProjectColor.ColorOfLowerCasedKey | src/main.ts:119-120 | when lower-casing is idempotent, a key and its lower-cased form have the same colour |
| ProjectColor.ExampleRendering | src/main.ts:122-124 | the bytes `0x0a 0xff 0x03` render as `0aff03` |
| ProjectColor.ColorExample | src/main.ts:122-126 | a digest starting `0x0a 0xff 0x03` gives `#0aff03`, so small bytes keep their leading zero |
| Layout.AccentTriangle | src/main.ts:105-109 | the triangle has three vertices, all inside `[0,w] x [0,h]`; the first is on the top edge, the second is the top-right corner, the third is on the right edge; all lie right of `0.8 w` and above `0.2 h` |
| Layout.BrandIconRect | src/main.ts:85 | the brand icon is drawn as a 100 by 100 square at the canvas origin, whatever the canvas size |
| Layout.TopLeftCard | src/main.ts:77 | the top-left card shares the brand icon's origin, is one padding wider and one padding taller than the icon, so the padding lies to the icon's right and below it, and only its bottom-right corner is rounded, with radius 20 |
| Layout.BottomRightCard | src/main.ts:78-80 | the bottom-right card starts at `0.55 w - 5`, `0.55 h - 5`, its right and bottom edges are exactly the canvas edges, and only its top-left corner is rounded, with radius 20 |
| Layout.FrameworkIconRect | src/main.ts:89 | the framework-icon rectangle ends exactly at the canvas edges and lies inside the canvas for every size |
| Layout.ComputeOverlay | src/main.ts:71-89 | the accent lies in the canvas; the brand icon lies inside the top-left card's bounding rectangle, at its origin with the padding right and below; the framework icon lies inside the bottom-right card's bounding rectangle, inset by the padding at top and left and flush at right and bottom |
| Layout.TopLeftCardInCanvasIff | src/main.ts:77 | the fixed top-left card lies inside the canvas if and only if both sides are at least 105 |
| Layout.BottomRightCardInCanvasIff | src/main.ts:78-80 | the bottom-right card lies inside the canvas if and only if both sides are at least 10 |
| Layout.CardsDisjointIff | src/main.ts:77-80 | the two cards' bounding rectangles do not overlap if and only if a side is 0 or at least 200 |
| Layout.AccentAboveBottomRightCard | src/main.ts:105-109 | on a canvas at least 15 high, every accent vertex is above the bottom-right card |
| Layout.BrandIconCornerCut | src/main.ts:77-85 | the brand icon's bottom-right corner (100, 100) lies in the square the card's radius-20 corner rounds off, but beyond the arc, so the card's shape does not cover it |
| Layout.FrameworkIconCornerCut | src/main.ts:78-89 | on a canvas of at least 34 by 34, the Terraform icon's top-left corner lies in the square the bottom-right card's radius-20 corner rounds off, but beyond the arc |
| Render.PrepareRendering | src/main.ts:45-54 | the prepared options hold the upload, the brand and Terraform icon assets, and the colour derived from the project key |
| Render.DrawBase | src/main.ts:66-69 | the background is one command, in the background layer, painted white, whose area is exactly the canvas |
| Render.DrawRightTopCorner | src/main.ts:105-116 | the accent is one command, in the accent layer, styled with the project colour, filling exactly the accent triangle of the layout |
| Render.DrawOverlay | src/main.ts:71-97 | the overlay is four commands; for prepared options their layers are accent, cards, brand mark, framework badge; for a hex project colour only the accent fill carries it as style text; each icon lies inside the bounding rectangle of a card in an earlier white card fill; the accent fills the accent triangle, the card fill holds the top-left and then the bottom-right card, the brand icon is drawn at its 100 by 100 square inside the top-left card and the Terraform icon at its rectangle inside the bottom-right card |
| Render.Draw | src/main.ts:36-38 | the handler draws six commands: first a white fill and then the base image, both over the whole canvas; for prepared options the layers follow the fixed z-order; for a hex project colour only the accent fill carries it as style text; with an uploaded base image each icon lies inside the bounding rectangle of a card in an earlier white card fill; the last four commands are placed as in `DrawOverlay`: accent triangle, the two cards in order, the brand icon in the top-left card, the Terraform icon in the bottom-right card |
| Render.OnLoad | src/main.ts:33-39 | the whole handler's trace has the fixed layer order, starts full-bleed with the upload, has exactly one command, the accent fill, whose style text is the key's colour, and puts each icon inside the bounding rectangle of a card in an earlier white card fill; the accent fills the accent triangle, the card fill holds the top-left and the bottom-right card, and the brand and Terraform icons are drawn inside the top-left and bottom-right cards respectively |
| Render.SameLowerCaseSameTrace | src/main.ts:45-54 | keys with the same lower-cased form produce the same trace |

## Left out

- Form submission, the file picker, the "No file selected!" alert and `FileReader` (src/main.ts:5-9, 21-43): event plumbing around the handler. `OnLoad` starts from the data URL the reader produced.
- `fetch`, blob loading and `Image` decoding (src/main.ts:56-64, 99-103): asynchronous browser I/O. A loaded image is represented by its source. When `fetch` rejects on a network error (src/main.ts:100), `prepareRendering` rejects and nothing is drawn. When the browser cannot decode an image, `img.onload` never fires (src/main.ts:59-61), the promise never settles and nothing is drawn either. `OnLoad` always returns six commands: the model covers only the run in which every load succeeds.
- Lower-casing, UTF-8 encoding and SHA-256 (src/main.ts:119-120): platform calls. They are the uninterpreted fields of `ProjectColor.Platform`; only the 32-byte digest length is assumed. Keys are strings of Unicode scalar values, not of UTF-16 code units, so a lone surrogate (which `TextEncoder` turns into U+FFFD) cannot be written.
- Pixel rasterisation and the meaning of `roundRect`, `Path2D`, `fill` and `drawImage`: canvas behaviour outside the source. A command records what is asked for, not the pixels it produces.
- The `ctx.stroke()` call (src/main.ts:111): it strokes the context's current path, not the triangle, so it is not part of the trace.
- The context's default path is never reset with `beginPath`, so a second render fills the earlier card paths again. The model covers one render.
- IEEE-754 rounding of products such as `canvas.width * .55`: geometry is over exact reals.
- A framework catalog: the code always draws the Terraform icon (src/main.ts:89). Kubernetes, GCP and AWS are only comments (src/main.ts:91-95).
- Style imports, `flowbite` and `console.log` (src/main.ts:1-2, 96, 114, 125): no effect on the picture.
- ProjectColor.Substring: its contract states in-range positions only. Clamping out-of-range positions is in its body, and swapped positions are covered by `SubstringSymmetric`.
- Rounded card shapes: containment and disjointness are stated for the cards' bounding rectangles. The painted cards are rounded where they face each other, so on some canvases below 200 (190 by 190, for one) the rectangles overlap while the painted shapes do not. The exact shapes are used only to show that an icon corner falls outside them (`BrandIconCornerCut`, `FrameworkIconCornerCut`). `roundRect` shrinks radii that do not fit a card smaller than 20 along a side; this is not modelled, and `FrameworkIconCornerCut` is stated only for canvases where it does not happen.
- Render.Draw: colours are compared as style text, not as CSS colours. A digest starting `ff ff ff` gives `#ffffff`, which names the same colour as the background's and the cards' `white`, so "only the accent carries the project colour" holds for the text and not for the painted colour.
