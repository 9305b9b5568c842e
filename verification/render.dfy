/**
 Rendering as a list of draw commands. Once the upload has been read, the
 handler prepares the options (base image, the two icons, the project colour),
 paints the white background, draws the base image over the whole canvas and
 then the overlay: the accent triangle in the project colour, both cards in
 white, the brand icon and the Terraform icon. Nothing in this sequence
 depends on the inputs except the coordinates, the upload and the colour.
 */
module Render {
  import opened Layout
  import ProjectColor
  import Base16

  /** A decoded image, known by where it came from. */
  datatype Image =
    | Uploaded(dataUrl: string)  // the file the user picked, read as a data URL
    | Asset(path: string)        // a static file under /overlay

  const BrandIconPath: string := "/overlay/lightning.png"
  const TerraformIconPath: string := "/overlay/terraform.svg"
  const White: string := "white"

  /** The values prepared before anything is drawn. */
  datatype RenderingOptions = RenderingOptions(
    baseImage: Image,
    brandIcon: Image,
    terraformIcon: Image,
    projectColor: string)

  datatype DrawCommand =
    | FillRect(area: Rect, style: string)
    | DrawImage(image: Image, area: Rect)
    | FillPath(path: seq<Point>, style: string)
    | FillCards(cards: seq<Card>, style: string)

  /** The role a command plays in the picture, from bottom to top. */
  datatype LayerKind = Background | BasePicture | Accent | Cards | BrandMark | FrameworkBadge | Unknown

  /** The fixed bottom-to-top order of the layers. */
  const ZOrder: seq<LayerKind> := [Background, BasePicture, Accent, Cards, BrandMark, FrameworkBadge]

  function LayerOf(c: DrawCommand): LayerKind {
    match c
    case FillRect(_, _) => Background
    case DrawImage(Uploaded(_), _) => BasePicture
    case DrawImage(Asset(path), _) =>
      if path == BrandIconPath then BrandMark
      else if path == TerraformIconPath then FrameworkBadge
      else Unknown
    case FillPath(_, _) => Accent
    case FillCards(_, _) => Cards
  }

  /** The layer of each command of a trace, in trace order. */
  function Layers(t: seq<DrawCommand>): (ks: seq<LayerKind>)
    ensures |ks| == |t|
    ensures forall i :: 0 <= i < |t| ==> ks[i] == LayerOf(t[i])
  {
    if t == [] then [] else [LayerOf(t[0])] + Layers(t[1..])
  }

  /** The layers of a concatenation are the layers of its parts, one after the other. */
  lemma {:induction false} LayersAppend(a: seq<DrawCommand>, b: seq<DrawCommand>)
    ensures Layers(a + b) == Layers(a) + Layers(b)
  {
    if a == [] {
      assert a + b == b;
    } else {
      assert (a + b)[1..] == a[1..] + b;
      LayersAppend(a[1..], b);
    }
  }

  /** The fill style a command paints with; drawing an image uses none. */
  datatype Paint = Unstyled | Styled(style: string)

  function StyleOf(c: DrawCommand): Paint {
    match c
    case FillRect(_, style) => Styled(style)
    case DrawImage(_, _) => Unstyled
    case FillPath(_, style) => Styled(style)
    case FillCards(_, style) => Styled(style)
  }

  /** What the preparation step always produces. */
  predicate WellPrepared(o: RenderingOptions) {
    && o.baseImage.Uploaded?
    && o.brandIcon == Asset(BrandIconPath)
    && o.terraformIcon == Asset(TerraformIconPath)
    && ProjectColor.IsHexColor(o.projectColor)
  }

  /** `prepareRendering`: image loading is the identity on sources; the colour is derived from the key. */
  function PrepareRendering(dataUrl: string, projectKey: string, p: ProjectColor.Platform): (o: RenderingOptions)
    ensures WellPrepared(o)
    ensures o.baseImage == Uploaded(dataUrl)
    ensures o.projectColor[1..] ==
      Base16.Encode(p.sha256(p.utf8Encode(p.toLowerCase(projectKey)))[..3])
  {
    RenderingOptions(
      Uploaded(dataUrl),
      Asset(BrandIconPath),
      Asset(TerraformIconPath),
      ProjectColor.StringToColor(projectKey, p))
  }

  function FullCanvas(w: nat, h: nat): Rect {
    Rect(0.0, 0.0, w as real, h as real)
  }

  /** A command paints in `color` exactly when it is the accent fill. */
  predicate OnlyAccentIn(t: seq<DrawCommand>, color: string) {
    forall i :: 0 <= i < |t| ==> (StyleOf(t[i]) == Styled(color) <==> t[i].FillPath?)
  }

  lemma OnlyAccentInAppend(a: seq<DrawCommand>, b: seq<DrawCommand>, color: string)
    requires OnlyAccentIn(a, color) && OnlyAccentIn(b, color)
    ensures OnlyAccentIn(a + b, color)
  {
    forall i | 0 <= i < |a + b|
      ensures StyleOf((a + b)[i]) == Styled(color) <==> (a + b)[i].FillPath?
    {
      if i < |a| { assert (a + b)[i] == a[i]; } else { assert (a + b)[i] == b[i - |a|]; }
    }
  }

  /** Every icon in the trace is drawn inside a card of a white card fill that comes before it. */
  predicate IconsSitOnCards(t: seq<DrawCommand>) {
    forall i :: 0 <= i < |t| && t[i].DrawImage? && t[i].image.Asset? ==>
      (exists j, k :: 0 <= j < i && t[j].FillCards? && t[j].style == White
         && 0 <= k < |t[j].cards| && Contains(t[j].cards[k].bounds, t[i].area))
  }

  /**
   Four overlay commands that sit where the layout puts them: the accent fills
   the accent triangle, the card fill holds the top-left and then the
   bottom-right card, the brand icon is drawn inside the top-left card and the
   framework icon inside the bottom-right card.
   */
  predicate OverlayPlaced(t: seq<DrawCommand>, w: nat, h: nat) {
    && |t| == 4
    && t[0].FillPath? && t[0].path == AccentTriangle(w, h)
    && t[1].FillCards? && t[1].cards == [TopLeftCard(), BottomRightCard(w, h)]
    && t[2].DrawImage? && t[2].area == BrandIconRect()
    && t[3].DrawImage? && t[3].area == FrameworkIconRect(w, h)
    && Contains(t[1].cards[0].bounds, t[2].area)
    && Contains(t[1].cards[1].bounds, t[3].area)
  }

  /** `drawBase`: one white fill whose area is exactly the canvas. */
  function DrawBase(w: nat, h: nat): (t: seq<DrawCommand>)
    ensures |t| == 1 && Layers(t) == ZOrder[..1] && StyleOf(t[0]) == Styled(White)
    ensures t[0].area.x == 0.0 && t[0].area.y == 0.0
    ensures t[0].area.Right() == w as real && t[0].area.Bottom() == h as real
  {
    [FillRect(FullCanvas(w, h), White)]
  }

  /** `drawRightTopCorner`: the only command in the project colour, a fill of the accent triangle. */
  function DrawRightTopCorner(w: nat, h: nat, o: RenderingOptions): (t: seq<DrawCommand>)
    ensures |t| == 1 && Layers(t) == [Accent] && StyleOf(t[0]) == Styled(o.projectColor)
    ensures t[0].FillPath? && t[0].path == AccentTriangle(w, h)
  {
    [FillPath(AccentTriangle(w, h), o.projectColor)]
  }

  /**
   `drawOverlay`: the accent, both cards in one white fill, the brand icon and
   the Terraform icon, each icon inside an earlier card.
   */
  function DrawOverlay(w: nat, h: nat, o: RenderingOptions): (t: seq<DrawCommand>)
    ensures |t| == 4
    ensures WellPrepared(o) ==> Layers(t) == ZOrder[2..]
    ensures ProjectColor.IsHexColor(o.projectColor) ==> OnlyAccentIn(t, o.projectColor)
    ensures IconsSitOnCards(t)
    ensures OverlayPlaced(t, w, h)
  {
    var layout := ComputeOverlay(w, h);
    var t := DrawRightTopCorner(w, h, o)
      + [ FillCards([layout.topLeftCard, layout.bottomRightCard], White),
          DrawImage(o.brandIcon, layout.brandIcon),
          DrawImage(o.terraformIcon, layout.frameworkIcon) ];
    assert White[0] != '#';
    assert Contains(t[1].cards[0].bounds, t[2].area);
    assert Contains(t[1].cards[1].bounds, t[3].area);
    t
  }

  /**
   A trace composed as the handler composes it: six commands in the fixed
   z-order, a white background and then `base` over the whole canvas, only
   the accent painted in `color`, every icon inside an earlier white card, and
   the overlay placed where the layout puts it.
   */
  predicate Composed(t: seq<DrawCommand>, base: Image, color: string, w: nat, h: nat) {
    && |t| == 6
    && Layers(t) == ZOrder
    && t[0] == FillRect(FullCanvas(w, h), White)
    && t[1] == DrawImage(base, FullCanvas(w, h))
    && OnlyAccentIn(t, color)
    && IconsSitOnCards(t)
    && OverlayPlaced(t[2..], w, h)
  }

  /**
   The body of the reader's `onload` handler once the options are prepared:
   six commands, white background and base image first over the whole canvas,
   then the overlay where the layout puts it. Each further property holds as soon as the options give
   what it needs.
   */
  function Draw(w: nat, h: nat, o: RenderingOptions): (t: seq<DrawCommand>)
    ensures WellPrepared(o) ==> Layers(t) == ZOrder
    ensures ProjectColor.IsHexColor(o.projectColor) ==> OnlyAccentIn(t, o.projectColor)
    ensures o.baseImage.Uploaded? ==> IconsSitOnCards(t)
    ensures |t| == 6
    ensures t[0] == FillRect(FullCanvas(w, h), White) && t[1] == DrawImage(o.baseImage, FullCanvas(w, h))
    ensures OverlayPlaced(t[2..], w, h)
  {
    var under, overlay := Underlay(w, h, o), DrawOverlay(w, h, o);
    OverlayAfterBase(under, overlay, o, w, h);
    under + overlay
  }

  /** The two full-canvas commands the handler issues before the overlay. */
  function Underlay(w: nat, h: nat, o: RenderingOptions): (t: seq<DrawCommand>)
    ensures |t| == 2
    ensures t[0] == FillRect(FullCanvas(w, h), White) && t[1] == DrawImage(o.baseImage, FullCanvas(w, h))
    ensures WellPrepared(o) ==> Layers(t) == ZOrder[..2]
  {
    var base, image := DrawBase(w, h), [DrawImage(o.baseImage, FullCanvas(w, h))];
    LayersAppend(base, image);
    base + image
  }

  /**
   Putting the overlay behind the background and the base image: the layers
   join up into the fixed z-order, and the overlay keeps its placement, its
   colour use and its icons on cards, since the first two commands use
   neither the project colour nor an icon.
   */
  lemma {:induction false} OverlayAfterBase(pre: seq<DrawCommand>, overlay: seq<DrawCommand>, o: RenderingOptions, w: nat, h: nat)
    requires |pre| == 2 && pre[0] == FillRect(FullCanvas(w, h), White)
    requires pre[1] == DrawImage(o.baseImage, FullCanvas(w, h))
    requires WellPrepared(o) ==> Layers(pre) == ZOrder[..2]
    requires |overlay| == 4
    requires WellPrepared(o) ==> Layers(overlay) == ZOrder[2..]
    requires ProjectColor.IsHexColor(o.projectColor) ==> OnlyAccentIn(overlay, o.projectColor)
    requires IconsSitOnCards(overlay)
    ensures |pre + overlay| == 6
    ensures (pre + overlay)[0] == pre[0] && (pre + overlay)[1] == pre[1]
    ensures WellPrepared(o) ==> Layers(pre + overlay) == ZOrder
    ensures ProjectColor.IsHexColor(o.projectColor) ==> OnlyAccentIn(pre + overlay, o.projectColor)
    ensures o.baseImage.Uploaded? ==> IconsSitOnCards(pre + overlay)
    ensures (pre + overlay)[2..] == overlay
  {
    var t := pre + overlay;
    LayersAppend(pre, overlay);
    assert ZOrder[..2] + ZOrder[2..] == ZOrder;
    if ProjectColor.IsHexColor(o.projectColor) {
      OnlyAccentInAppend(pre, overlay, o.projectColor);
    }
    if o.baseImage.Uploaded? {
      IconsAfterPrefix(pre, overlay);
    }
  }

  /** Icons resting on cards keep doing so behind a prefix without icons. */
  lemma IconsAfterPrefix(pre: seq<DrawCommand>, t: seq<DrawCommand>)
    requires forall i :: 0 <= i < |pre| ==> !(pre[i].DrawImage? && pre[i].image.Asset?)
    requires IconsSitOnCards(t)
    ensures IconsSitOnCards(pre + t)
  {
    var u := pre + t;
    forall i | 0 <= i < |u| && u[i].DrawImage? && u[i].image.Asset?
      ensures (exists j, k :: 0 <= j < i && u[j].FillCards? && u[j].style == White
                 && 0 <= k < |u[j].cards| && Contains(u[j].cards[k].bounds, u[i].area))
    {
      assert u[i] == t[i - |pre|];
      var j, k :| 0 <= j < i - |pre| && t[j].FillCards? && t[j].style == White
         && 0 <= k < |t[j].cards| && Contains(t[j].cards[k].bounds, t[i - |pre|].area);
      assert u[j + |pre|] == t[j];
    }
  }

  /** `reader.onload`: prepare the options from the upload and the key, then draw. */
  function OnLoad(dataUrl: string, projectKey: string, p: ProjectColor.Platform, w: nat, h: nat)
    : (t: seq<DrawCommand>)
    ensures Composed(t, Uploaded(dataUrl), ProjectColor.StringToColor(projectKey, p), w, h)
  {
    Draw(w, h, PrepareRendering(dataUrl, projectKey, p))
  }

  /** Keys that lower-case alike produce the same picture. */
  lemma SameLowerCaseSameTrace(dataUrl: string, a: string, b: string, p: ProjectColor.Platform, w: nat, h: nat)
    requires p.toLowerCase(a) == p.toLowerCase(b)
    ensures OnLoad(dataUrl, a, p, w, h) == OnLoad(dataUrl, b, p, w, h)
  {
  }
}
