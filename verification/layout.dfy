/**
 Overlay geometry for a canvas of width `w` and height `h`. The constants are
 the ones the drawing code hard-codes: a padding of 5, a card ratio of 0.55,
 an accent triangle from 0.8 of the width to 0.2 of the height, a corner
 radius of 20 and a 100 by 100 brand icon. Coordinates are exact reals.
 */
module Layout {

  datatype Point = Point(x: real, y: real)

  /** An axis-aligned rectangle given, as the canvas calls take it, by its top-left corner and size. */
  datatype Rect = Rect(x: real, y: real, width: real, height: real) {
    function Right(): real { x + width }
    function Bottom(): real { y + height }
  }

  /** Corner radii in the order `roundRect` takes them. */
  datatype Radii = Radii(topLeft: real, topRight: real, bottomRight: real, bottomLeft: real)

  /** A white card: a rectangle with rounded corners. */
  datatype Card = Card(bounds: Rect, radii: Radii)

  datatype Overlay = Overlay(
    accent: seq<Point>,
    topLeftCard: Card,
    bottomRightCard: Card,
    brandIcon: Rect,
    frameworkIcon: Rect)

  /** The one number the drawing code names (`padding`); the others are literals there and here. */
  const Padding: real := 5.0

  predicate InCanvas(p: Point, w: nat, h: nat) {
    0.0 <= p.x <= w as real && 0.0 <= p.y <= h as real
  }

  /** All four corners of `r` lie in `[0, w] x [0, h]`. */
  predicate RectInCanvas(r: Rect, w: nat, h: nat) {
    && InCanvas(Point(r.x, r.y), w, h)
    && InCanvas(Point(r.Right(), r.y), w, h)
    && InCanvas(Point(r.x, r.Bottom()), w, h)
    && InCanvas(Point(r.Right(), r.Bottom()), w, h)
  }

  /** `inner` lies within `outer` (both of non-negative size). */
  predicate Contains(outer: Rect, inner: Rect) {
    && outer.x <= inner.x && inner.Right() <= outer.Right()
    && outer.y <= inner.y && inner.Bottom() <= outer.Bottom()
  }

  /** The interiors of `a` and `b` do not meet: a vertical or horizontal line separates them. */
  predicate Disjoint(a: Rect, b: Rect) {
    a.Right() <= b.x || b.Right() <= a.x || a.Bottom() <= b.y || b.Bottom() <= a.y
  }

  function DistSq(a: Point, b: Point): real {
    (a.x - b.x) * (a.x - b.x) + (a.y - b.y) * (a.y - b.y)
  }

  /**
   `p` lies in the square that the card's top-left radius rounds off, but
   beyond the arc: the card's shape does not cover `p` although its bounding
   rectangle does.
   */
  predicate CutByTopLeftArc(c: Card, p: Point) {
    var r, b := c.radii.topLeft, c.bounds;
    var centre := Point(b.x + r, b.y + r);
    b.x <= p.x <= centre.x && b.y <= p.y <= centre.y && DistSq(p, centre) > r * r
  }

  /** The same for the card's bottom-right corner. */
  predicate CutByBottomRightArc(c: Card, p: Point) {
    var r, b := c.radii.bottomRight, c.bounds;
    var centre := Point(b.Right() - r, b.Bottom() - r);
    centre.x <= p.x <= b.Right() && centre.y <= p.y <= b.Bottom() && DistSq(p, centre) > r * r
  }

  /** Exactly one corner, the given one, is rounded, with the card radius. */
  predicate OnlyTopLeftRounded(r: Radii) {
    r.topLeft == 20.0 && r.topRight == 0.0 && r.bottomRight == 0.0 && r.bottomLeft == 0.0
  }

  predicate OnlyBottomRightRounded(r: Radii) {
    r.topLeft == 0.0 && r.topRight == 0.0 && r.bottomRight == 20.0 && r.bottomLeft == 0.0
  }

  /** The accent path: from 0.8 of the way along the top edge, to the top-right corner, down the right edge. */
  function AccentTriangle(w: nat, h: nat): (t: seq<Point>)
    ensures |t| == 3
    ensures forall i :: 0 <= i < |t| ==> InCanvas(t[i], w, h)
    ensures t[0].y == 0.0 && t[1] == Point(w as real, 0.0) && t[2].x == w as real
    ensures forall i :: 0 <= i < |t| ==>
      0.8 * w as real <= t[i].x && t[i].y <= 0.2 * h as real
  {
    [Point(w as real * 0.8, 0.0), Point(w as real, 0.0), Point(w as real, h as real * 0.2)]
  }

  /** Where the brand icon is drawn: a square of the brand size at the canvas origin, whatever the canvas size. */
  function BrandIconRect(): (r: Rect)
    ensures r.x == 0.0 && r.y == 0.0
    ensures r.width == r.height == 100.0
  {
    Rect(0.0, 0.0, 100.0, 100.0)
  }

  /**
   The fixed card at the origin: it holds the brand icon with one padding to
   its right and below it, and is rounded at its bottom-right corner only.
   */
  function TopLeftCard(): (c: Card)
    ensures c.bounds.x == BrandIconRect().x && c.bounds.y == BrandIconRect().y
    ensures c.bounds.width == BrandIconRect().width + Padding
    ensures c.bounds.height == BrandIconRect().height + Padding
    ensures OnlyBottomRightRounded(c.radii)
  {
    Card(Rect(0.0, 0.0, 100.0 + Padding, 100.0 + Padding), Radii(0.0, 0.0, 20.0, 0.0))
  }

  /** The card in the bottom-right corner, starting one padding before 0.55 of each axis. */
  function BottomRightCard(w: nat, h: nat): (c: Card)
    ensures c.bounds.Right() == w as real && c.bounds.Bottom() == h as real
    ensures c.bounds.x == 0.55 * w as real - Padding && c.bounds.y == 0.55 * h as real - Padding
    ensures OnlyTopLeftRounded(c.radii)
  {
    Card(
      Rect(w as real * 0.55 - Padding, h as real * 0.55 - Padding,
           w as real * (1.0 - 0.55) + Padding, h as real * (1.0 - 0.55) + Padding),
      Radii(20.0, 0.0, 0.0, 0.0))
  }

  /** Where the framework icon is drawn: from 0.55 of each axis to the far canvas edges. */
  function FrameworkIconRect(w: nat, h: nat): (r: Rect)
    ensures r.Right() == w as real && r.Bottom() == h as real
    ensures RectInCanvas(r, w, h)
  {
    Rect(w as real * 0.55, h as real * 0.55, w as real * (1.0 - 0.55), h as real * (1.0 - 0.55))
  }

  /** Every region the overlay uses, for a canvas of `w` by `h`. */
  function ComputeOverlay(w: nat, h: nat): (o: Overlay)
    ensures forall i :: 0 <= i < |o.accent| ==> InCanvas(o.accent[i], w, h)
    ensures Contains(o.topLeftCard.bounds, o.brandIcon)
    ensures Contains(o.bottomRightCard.bounds, o.frameworkIcon)
    ensures o.frameworkIcon.x == o.bottomRightCard.bounds.x + Padding
    ensures o.frameworkIcon.y == o.bottomRightCard.bounds.y + Padding
    ensures o.frameworkIcon.Right() == o.bottomRightCard.bounds.Right()
    ensures o.frameworkIcon.Bottom() == o.bottomRightCard.bounds.Bottom()
    ensures o.brandIcon.x == o.topLeftCard.bounds.x && o.brandIcon.y == o.topLeftCard.bounds.y
    ensures o.topLeftCard.bounds.Right() == o.brandIcon.Right() + Padding
    ensures o.topLeftCard.bounds.Bottom() == o.brandIcon.Bottom() + Padding
  {
    var card, icon := BottomRightCard(w, h), FrameworkIconRect(w, h);
    assert icon.x == card.bounds.x + Padding && icon.y == card.bounds.y + Padding;
    FixedRegions();
    Overlay(AccentTriangle(w, h), TopLeftCard(), card, BrandIconRect(), icon)
  }

  /** The fixed card and brand icon, in numbers. */
  lemma FixedRegions()
    ensures TopLeftCard() == Card(Rect(0.0, 0.0, 105.0, 105.0), Radii(0.0, 0.0, 20.0, 0.0))
    ensures BrandIconRect() == Rect(0.0, 0.0, 100.0, 100.0)
  {
  }

  lemma AtLeastAsReal(n: nat, k: nat)
    ensures n >= k <==> n as real >= k as real
  {
  }

  /** The fixed top-left card fits the canvas exactly when both sides are at least 105. */
  lemma TopLeftCardInCanvasIff(w: nat, h: nat)
    ensures RectInCanvas(TopLeftCard().bounds, w, h) <==> w >= 105 && h >= 105
  {
    FixedRegions();
    AtLeastAsReal(w, 105);
    AtLeastAsReal(h, 105);
  }

  /**
   The bottom-right card starts at `0.55 w - 5`, which is negative below a
   width of 100/11; on integer sizes it fits the canvas exactly when both
   sides are at least 10.
   */
  lemma BottomRightCardInCanvasIff(w: nat, h: nat)
    ensures RectInCanvas(BottomRightCard(w, h).bounds, w, h) <==> w >= 10 && h >= 10
  {
    var b := BottomRightCard(w, h).bounds;
    if w < 10 {
      assert w as real <= 9.0;
      assert b.x < 0.0;
    }
    if h < 10 {
      assert h as real <= 9.0;
      assert b.y < 0.0;
    }
  }

  /**
   The two cards' bounding rectangles do not overlap exactly when the canvas
   is degenerate or at least 200 along some axis, where `0.55 * 200 - 5`
   meets the fixed card's edge at 105.
   */
  lemma CardsDisjointIff(w: nat, h: nat)
    ensures Disjoint(TopLeftCard().bounds, BottomRightCard(w, h).bounds)
      <==> w == 0 || h == 0 || w >= 200 || h >= 200
  {
    var b := BottomRightCard(w, h).bounds;
    FixedRegions();
    if 0 < w < 200 {
      assert w as real <= 199.0;
      assert b.x < 105.0;
    }
    if 0 < h < 200 {
      assert h as real <= 199.0;
      assert b.y < 105.0;
    }
  }

  /** The accent triangle stays above the bottom-right card once the canvas is at least 15 high. */
  lemma AccentAboveBottomRightCard(w: nat, h: nat)
    requires h >= 15
    ensures forall i :: 0 <= i < 3 ==> AccentTriangle(w, h)[i].y < BottomRightCard(w, h).bounds.y
  {
    assert h as real >= 15.0;
  }

  /** The brand icon's bottom-right corner falls outside the top-left card's rounded corner. */
  lemma BrandIconCornerCut()
    ensures CutByBottomRightArc(TopLeftCard(), Point(BrandIconRect().Right(), BrandIconRect().Bottom()))
  {
    FixedRegions();
    var c, icon := TopLeftCard(), BrandIconRect();
    var corner := Point(icon.Right(), icon.Bottom());
    var centre := Point(c.bounds.Right() - c.radii.bottomRight, c.bounds.Bottom() - c.radii.bottomRight);
    assert corner.x == centre.x + 15.0 && corner.y == centre.y + 15.0;
    assert DistSq(corner, centre) == 450.0;
  }

  /**
   The framework icon's top-left corner falls outside the bottom-right card's
   rounded corner. From a side of 34 on, the card is at least 20 along both
   axes, so `roundRect` keeps the full radius.
   */
  lemma FrameworkIconCornerCut(w: nat, h: nat)
    requires w >= 34 && h >= 34
    ensures CutByTopLeftArc(BottomRightCard(w, h), Point(FrameworkIconRect(w, h).x, FrameworkIconRect(w, h).y))
  {
    var c, icon := BottomRightCard(w, h), FrameworkIconRect(w, h);
    var centre := Point(c.bounds.x + 20.0, c.bounds.y + 20.0);
    assert icon.x == centre.x - 15.0 && icon.y == centre.y - 15.0;
    assert DistSq(Point(icon.x, icon.y), centre) == 450.0;
  }
}
