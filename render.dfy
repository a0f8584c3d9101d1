/**
 * onDraw: which shapes the widget paints in each state, in painting order.
 * Paint styles are carried by the shape: the finger is stroked with the
 * fixed width 4, the disc and the satellites are filled, the ring is stroked
 * with its own width.
 */
module Render {
  import P = Phases
  import G = Geometry

  const FingerStrokeWidth: real := 4.0

  datatype Shape =
    | StrokedFinger(finger: G.Finger, strokeWidth: real)
    | FilledCircle(circle: G.Circle)
    | StrokedRing(ring: G.Ring)

  function FingerShape(size: nat, width: nat, height: nat): Shape
  {
    StrokedFinger(G.FingerOutline(size, width, height), FingerStrokeWidth)
  }

  /** The dispatch on the widget state. There is no branch for Selected. */
  function Draw(m: P.Machine, size: nat, width: nat, height: nat): (shapes: seq<Shape>)
    // nothing is painted exactly in the Selected state
    ensures shapes == [] <==> m.state == P.Selected
    // the finger is painted in every state but Circle and Selected; in the
    // ring phase it is painted last, over the ring
    ensures m.state in {P.Normal, P.Ring, P.Satellite} <==> FingerShape(size, width, height) in shapes
    ensures m.state == P.Ring ==> shapes[|shapes| - 1] == FingerShape(size, width, height)
    // the disc alone in the circle phase; the ring first, under the finger,
    // only in the ring phase; the finger and then the four satellites in the last phase
    ensures m.state == P.Normal ==> shapes == [FingerShape(size, width, height)]
    ensures m.state == P.Circle ==> shapes == [FilledCircle(G.Disc(size, width, height))]
    ensures m.state == P.Ring ==>
      shapes == [StrokedRing(G.RingAt(size, width, height, m.strokeFraction)), FingerShape(size, width, height)]
    ensures shapes != [] && shapes[0].StrokedRing? <==> m.state == P.Ring
    ensures m.state == P.Satellite ==>
      |shapes| == 5 && shapes[0] == FingerShape(size, width, height)
      && forall i :: 1 <= i < 5 ==> shapes[i] == FilledCircle(G.Satellites(size, width, height, m.offsetFraction)[i - 1])
  {
    match m.state
    case Normal => [FingerShape(size, width, height)]
    case Circle => [FilledCircle(G.Disc(size, width, height))]
    case Ring => [StrokedRing(G.RingAt(size, width, height, m.strokeFraction)), FingerShape(size, width, height)]
    case Satellite =>
      var s := G.Satellites(size, width, height, m.offsetFraction);
      [FingerShape(size, width, height),
       FilledCircle(s[0]), FilledCircle(s[1]), FilledCircle(s[2]), FilledCircle(s[3])]
    case Selected => []
  }

  /** Whatever events the widget has seen, it paints something. */
  lemma AlwaysDrawsSomething(es: seq<P.Event>, size: nat, width: nat, height: nat)
    requires P.ValidEvents(es)
    ensures Draw(P.Trace(P.Initial, es), size, width, height) != []
  {
    P.Reachable(es);
  }

  /** In the ring phase the ring's stroke lies inside the disc of the circle
      phase: its outer edge is the disc's edge. */
  lemma RingWithinDisc(m: P.Machine, size: nat, width: nat, height: nat)
    requires P.Inv(m) && m.state == P.Ring
    ensures var r := Draw(m, size, width, height)[0].ring;
      r.circle.center == G.Disc(size, width, height).center
      && r.circle.radius + r.strokeWidth / 2.0 == G.Disc(size, width, height).radius
      && 0.0 <= r.strokeWidth <= G.Disc(size, width, height).radius
  {
  }
}
