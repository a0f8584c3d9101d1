/**
 * The shapes the widget draws, as coordinates. `size` is the smaller of the
 * measured width and height; `width` and `height` are the laid-out view's.
 * Where the source halves an Int before converting it to a float
 * (`size / 2`, `width / 2`, `height / 2`) the model halves the nat with
 * Dafny's `/`, which agrees with Kotlin's on non-negative values; where it
 * divides a float (`size.toFloat() / 3`) the model divides a real.
 */
module Geometry {

  datatype Point = Point(x: real, y: real)

  datatype Circle = Circle(center: Point, radius: real)

  /** A circle drawn with a stroke of the given width centred on its outline. */
  datatype Ring = Ring(circle: Circle, strokeWidth: real)

  /** The finger icon: a rectangle (the wrist, clockwise from its top-left
      corner) and the hand polyline, which the path closes from its last
      point back to its first. */
  datatype Finger = Finger(wrist: seq<Point>, hand: seq<Point>)

  /** spaceBetweenHandAndShoulder, the gap between wrist and hand. */
  const Space: real := 5.0

  function Shift(p: Point, dx: real, dy: real): Point
  {
    Point(p.x + dx, p.y + dy)
  }

  /** The view centre as onDraw computes it: halves rounded down. */
  function Center(width: nat, height: nat): (c: Point)
    ensures width as real / 2.0 - 0.5 <= c.x <= width as real / 2.0
    ensures height as real / 2.0 - 0.5 <= c.y <= height as real / 2.0
  {
    Point((width / 2) as real, (height / 2) as real)
  }

  /** drawFinger. The finger's box is half the size square, and its centre
      sits an eighth of the box right of and below the view centre. */
  function FingerOutline(size: nat, width: nat, height: nat): (f: Finger)
    ensures |f.wrist| == 4 && |f.hand| == 8
    // the wrist is an axis-aligned rectangle a sixth of the box wide and half of it high
    ensures f.wrist[0].y == f.wrist[1].y && f.wrist[2].y == f.wrist[3].y
    ensures f.wrist[0].x == f.wrist[3].x && f.wrist[1].x == f.wrist[2].x
    ensures f.wrist[1].x - f.wrist[0].x == (size / 2) as real / 6.0
    ensures f.wrist[2].y - f.wrist[1].y == (size / 2) as real / 2.0
    // the hand starts on the wrist's top line and ends on its bottom line,
    // both a Space to the right of the wrist
    ensures f.hand[0] == Shift(f.wrist[1], Space, 0.0)
    ensures f.hand[7] == Shift(f.wrist[2], Space, 0.0)
    // the edge into the last point is horizontal, so the closing edge is vertical
    ensures f.hand[6].y == f.hand[7].y && f.hand[7].x == f.hand[0].x
    // the horizontal edge into the last point starts half the box right of
    // the wrist, and the point before it lies five eighths of the box right
    // of the wrist; neither depends on the Space
    ensures f.hand[6].x == f.wrist[1].x + (size / 2) as real / 2.0
    ensures f.hand[5].x == f.wrist[1].x + 5.0 * (size / 2) as real / 8.0
    // the fingertip is the highest point, half the box above the wrist
    ensures f.hand[2].y == f.wrist[0].y - (size / 2) as real / 2.0
    ensures forall i :: 0 <= i < |f.hand| ==> f.hand[2].y <= f.hand[i].y
  {
    var fw := (size / 2) as real;
    var fh := (size / 2) as real;
    var cx := (width / 2) as real + fw / 8.0;
    var cy := (height / 2) as real + fh / 8.0;
    var wrist := [Point(cx - fw / 2.0, cy - fh / 4.0), Point(cx - fw / 3.0, cy - fh / 4.0),
                  Point(cx - fw / 3.0, cy + fh / 4.0), Point(cx - fw / 2.0, cy + fh / 4.0)];
    var p0 := Point(cx - fw / 3.0 + Space, cy - fh / 4.0);
    var p1 := Shift(p0, fw / 8.0, 0.0);
    var p2 := Shift(p1, fw / 8.0, -fh / 2.0);
    var p3 := Shift(p2, fw / 6.0, fh / 4.0);
    var p4 := Shift(p3, -fw / 8.0, fh / 4.0);
    var p5 := Shift(p4, fw / 2.0 - fw / 6.0 - Space, 0.0);
    var p6 := Shift(p5, -fw / 8.0, fh / 2.0);
    var p7 := Point(cx - fw / 3.0 + Space, cy + fh / 4.0);
    Finger(wrist, [p0, p1, p2, p3, p4, p5, p6, p7])
  }

  ghost predicate Inside(p: Point, width: nat, height: nat)
  {
    0.0 <= p.x <= width as real && 0.0 <= p.y <= height as real
  }

  /** For a size of at least 48 that fits the view, every corner of the
      finger icon lies inside the view. */
  lemma FingerInsideView(size: nat, width: nat, height: nat)
    requires 48 <= size <= width && size <= height
    ensures var f := FingerOutline(size, width, height);
      (forall i :: 0 <= i < |f.wrist| ==> Inside(f.wrist[i], width, height))
      && (forall i :: 0 <= i < |f.hand| ==> Inside(f.hand[i], width, height))
  {
    var half := (size / 2) as real;
    assert 24.0 <= half;
    assert half <= (width / 2) as real && (width / 2) as real <= width as real / 2.0;
    assert half <= (height / 2) as real && (height / 2) as real <= height as real / 2.0;
  }

  /** drawCircle: the filled disc of radius size/3 at the view centre. */
  function Disc(size: nat, width: nat, height: nat): (c: Circle)
    ensures c.center == Center(width, height)
    ensures 3.0 * c.radius == size as real
    // whenever the size fits the view, the whole disc lies inside it
    ensures 2 <= size <= width && size <= height ==>
      0.0 <= c.center.x - c.radius && c.center.x + c.radius <= width as real
      && 0.0 <= c.center.y - c.radius && c.center.y + c.radius <= height as real
  {
    Circle(Center(width, height), size as real / 3.0)
  }

  /** drawRing with stroke fraction `f`: a stroke (1 - f) of the disc radius
      wide, drawn on a circle shrunk by half the stroke. */
  function RingAt(size: nat, width: nat, height: nat, f: real): (r: Ring)
    // same centre as the disc, and the outer edge stays on the disc's edge
    ensures r.circle.center == Disc(size, width, height).center
    ensures r.circle.radius + r.strokeWidth / 2.0 == Disc(size, width, height).radius
    // the hole grows linearly with the fraction
    ensures r.circle.radius - r.strokeWidth / 2.0 == f * Disc(size, width, height).radius
    ensures 0.0 <= f <= 1.0 ==>
      0.0 <= r.strokeWidth <= Disc(size, width, height).radius
      && Disc(size, width, height).radius / 2.0 <= r.circle.radius <= Disc(size, width, height).radius
  {
    var radius := size as real / 3.0;
    var stroke := (1.0 - f) * radius;
    assert 0.0 <= f <= 1.0 ==> 0.0 <= stroke <= radius by {
      if 0.0 <= f <= 1.0 {
        assert 0.0 <= radius;
        ScaleWithinUnit(1.0 - f, radius);
        assert 0.0 <= (1.0 - f) * radius <= radius;
      }
    }
    Ring(Circle(Center(width, height), radius - stroke / 2.0), stroke)
  }

  lemma ScaleWithinUnit(a: real, x: real)
    requires 0.0 <= a <= 1.0 && 0.0 <= x
    ensures 0.0 <= a * x <= x
  {
    assert x - a * x == (1.0 - a) * x;
  }

  /** bigRadius, smallRadius and offset of drawSmallStatellites. */
  function BigRadius(size: nat): real { size as real / 3.0 }

  function SmallRadius(size: nat, height: nat): real
  {
    ((height / 2) as real - BigRadius(size)) / 3.0
  }

  function Offset(size: nat, height: nat): real
  {
    (size / 2) as real - BigRadius(size) - 2.0 * SmallRadius(size, height)
  }

  /** drawSmallStatellites with offset fraction `f`: the top, right, bottom
      and left satellites, in that order. As in the source, the right one
      takes the view's horizontal centre as its y coordinate. */
  function Satellites(size: nat, width: nat, height: nat, f: real): (s: seq<Circle>)
    ensures |s| == 4
    ensures forall i :: 0 <= i < 4 ==> s[i].radius == SmallRadius(size, height)
    // top, bottom and left sit on the axes through the centre, all at the
    // same distance BigRadius + Offset * f from it
    ensures var c := Center(width, height); var d := BigRadius(size) + Offset(size, height) * f;
      && s[0].center == Point(c.x, c.y - d)
      && s[2].center == Point(c.x, c.y + d)
      && s[3].center == Point(c.x - d, c.y)
      && s[1].center == Point(c.x + d, c.x)
  {
    var c := Center(width, height);
    var big := BigRadius(size);
    var small := SmallRadius(size, height);
    var offset := Offset(size, height);
    [Circle(Point(c.x, c.y - big - offset * f), small),
     Circle(Point(c.x + big + offset * f, c.x), small),
     Circle(Point(c.x, c.y + big + offset * f), small),
     Circle(Point(c.x - big - offset * f, c.y), small)]
  }

  /** The right satellite is on the horizontal axis exactly when the halved
      width and height agree; on any other view it is off to one side. */
  lemma RightSatelliteOnAxis(size: nat, width: nat, height: nat, f: real)
    ensures var s := Satellites(size, width, height, f);
      s[1].center.y == Center(width, height).y <==> width / 2 == height / 2
  {
  }

  /** With the offset fraction at 0 the top, bottom and left satellites are
      centred on the disc's edge; at 1 each of them plus one more of its radii
      reaches half the size from the centre. (The right satellite is left out:
      its y is the horizontal centre, see RightSatelliteOnAxis.) */
  lemma SatelliteExtent(size: nat, width: nat, height: nat)
    ensures var s := Satellites(size, width, height, 0.0); var c := Center(width, height);
      var r := Disc(size, width, height).radius;
      c.y - s[0].center.y == r && s[2].center.y - c.y == r && c.x - s[3].center.x == r
    ensures var s := Satellites(size, width, height, 1.0); var c := Center(width, height);
      var h := (size / 2) as real;
      && c.y - s[0].center.y + 2.0 * s[0].radius == h
      && s[2].center.y - c.y + 2.0 * s[2].radius == h
      && c.x - s[3].center.x + 2.0 * s[3].radius == h
  {
  }

  /** On a square view the offset is not negative, so the satellites move
      outwards as the fraction grows. */
  lemma SquareViewMovesOutwards(size: nat, f: real, g: real)
    requires 2 <= size && 0.0 <= f <= g
    ensures 0.0 <= Offset(size, size)
    ensures Satellites(size, size, size, g)[0].center.y <= Satellites(size, size, size, f)[0].center.y
  {
    assert 3 * (size / 2) >= size;
    assert Offset(size, size) == ((size / 2) as real - size as real / 3.0) / 3.0;
    assert Offset(size, size) * f <= Offset(size, size) * g;
  }

  /** On a view much taller than its size the offset is negative: for size
      100 on a 100 by 300 view the top satellite, fully extended, has moved
      inwards past the view centre. */
  lemma TallViewMovesInwards()
    ensures Offset(100, 300) < 0.0
    ensures Satellites(100, 100, 300, 1.0)[0].center.y > Center(100, 300).y
  {
  }
}
