# FavouriteView in Dafny

A model of `FavouriteView`, an Android widget: a tappable "favourite" icon.
A tap on the idle icon starts a value animator that runs from 0 to 400. Each
animator frame is rounded to an integer tick, and the tick drives a small state machine:

- ticks up to 100 shrink the view;
- ticks 101..200 grow it back as a filled circle (state CIRCLE);
- ticks 201..300 turn the circle into a thinning ring (state RING);
- ticks above 300 move four satellite dots (state STATELLITE): outwards on a square view, but inwards on a view whose half height is large against its size, because the satellite radius is taken from the half height.

When the animation ends the widget goes back to the normal state at full size.
`onDraw` chooses the shapes to paint from the state. The geometry of those shapes is plain
linear arithmetic over the view size.

The project has four modules:

- `Phases` (phases.dfy) is the state machine as pure functions over a `Machine` value. A `Machine` holds:
  - the state;
  - the scale (the source always sets scaleX and scaleY together);
  - the ring-stroke and satellite-offset fractions;
  - the animator's running flag;
  - a count of redraw requests (`postInvalidate`);
  - a count of animator starts.

  The module also defines runs of ticks, traces of events (frames, taps, animation end) and the lemmas about them.
- `Favourite` (favourite_view.dfy) is the class `FavouriteView`. It has the same fields and updates them in place, as the source does. `Tick`, `StartAnimate`, `Click` and `AnimationEnd` are proved to follow the `Phases` function of the same name, and `OnAnimationUpdate` to follow `Phases.Tick` applied to `Phases.Round`. `Tick`, `OnAnimationUpdate`, `StartAnimate`, `Click` and `AnimationEnd` keep `Valid()` (the invariant `Phases.Inv`). `SetState` (which follows `Phases.SetState`) and `PostInvalidate` are helpers called in the middle of an update and do not promise `Valid()`.
- `Geometry` (geometry.dfy) gives the finger outline's vertices, the disc, the ring and the four satellites as coordinates over reals. Where the source halves an `Int` before converting it to a float (`size/2`, `width/2`, `height/2`), the model keeps that integer division. The right-hand satellite takes the view's horizontal centre as its y coordinate, as in the source.
- `Render` (render.dfy) is the `onDraw` dispatch from the state to the list of shapes painted.

The state is a datatype. The source's Int codes are NORMAL 0, SELECTED 1, CIRCLE 2, RING 3 and STATELLITE 4.

SELECTED (declared at FavouriteView.kt:35) is never assigned: the only `setState` calls are at :90 (NORMAL), :116 (CIRCLE), :125 (RING) and :132 (STATELLITE). A click outside NORMAL does nothing (:159-165), and the end hook always returns to NORMAL (:90). So Selected is unreachable (`Phases.ReachableStates`), and `onDraw` has no branch for it.

## Model

| member | source | states |
|---|---|---|
| `Phases.Round` | favouriteview/src/main/java/com/skateboard/favouriteview/FavouriteView.kt:104 | the tick is the integer nearest the animated value, halves rounded up; a value in the animator's range 0..400 gives a tick in 0..400 |
| `Phases.SetState` | favouriteview/src/main/java/com/skateboard/favouriteview/FavouriteView.kt:138-145 | the state becomes the new one; the machine is unchanged exactly when the state already was the new one; otherwise one redraw is requested and nothing else changes |
| `Phases.Tick` | favouriteview/src/main/java/com/skateboard/favouriteview/FavouriteView.kt:102-136 | ticks up to 100 keep the state; a tick in 101..400 shows the phase of rank (t-1)/100 (1 circle, 2 ring, 3 satellites); for ticks in 0..400 the three fractions stay in [0,1]; the animator flag and start count are untouched; redraw requests never decrease |
| `Phases.StartAnimate` | favouriteview/src/main/java/com/skateboard/favouriteview/FavouriteView.kt:170-179 | afterwards the animator runs; it is started (start count +1) only if it was not already running; nothing else changes |
| `Phases.Click` | favouriteview/src/main/java/com/skateboard/favouriteview/FavouriteView.kt:157-167 | a start happens if and only if the state is NORMAL and the animator is idle; any other click leaves the machine unchanged |
| `Phases.AnimationEnd` | favouriteview/src/main/java/com/skateboard/favouriteview/FavouriteView.kt:86-91 | state NORMAL, animator stopped, scale exactly max(1, scale) (so 1 from any scale in [0,1]); one redraw requested exactly when the state was not already NORMAL; fractions and start count kept |
| `Phases.TickKeepsInv` | favouriteview/src/main/java/com/skateboard/favouriteview/FavouriteView.kt:102-136 | a tick in 0..400 while the animator runs keeps the fractions in [0,1], keeps Selected out and leaves the animator running |
| `Phases.ClickKeepsInv` | favouriteview/src/main/java/com/skateboard/favouriteview/FavouriteView.kt:157-179 | a click keeps the invariant |
| `Phases.AnimationEndKeepsInv` | favouriteview/src/main/java/com/skateboard/favouriteview/FavouriteView.kt:86-91 | the end of the animation keeps the invariant: the idle widget is NORMAL at scale 1 |
| `Phases.RunRank` | favouriteview/src/main/java/com/skateboard/favouriteview/FavouriteView.kt:105-135 | from NORMAL, along non-decreasing ticks in 0..400, the phase shown depends only on the latest tick (NORMAL up to 100, then rank (t-1)/100), and Selected is never shown |
| `Phases.PhasesForward` | favouriteview/src/main/java/com/skateboard/favouriteview/FavouriteView.kt:105-135 | phases only move forward: along non-decreasing ticks from NORMAL, the rank at a later point is never below the rank at an earlier one (NORMAL, CIRCLE, RING, STATELLITE) |
| `Phases.RunKeepsInv` | favouriteview/src/main/java/com/skateboard/favouriteview/FavouriteView.kt:102-136 | any ticks in 0..400 delivered to a running animator keep the invariant, keep the animator running and never start it again |
| `Phases.FullAnimation` | favouriteview/src/main/java/com/skateboard/favouriteview/FavouriteView.kt:86-136 | a click on the new widget, non-decreasing ticks ending at 400, then the end hook: at the last tick the state is STATELLITE with offset fraction 1; afterwards NORMAL, scale 1, idle, started exactly once |
| `Phases.TraceKeepsInv` | favouriteview/src/main/java/com/skateboard/favouriteview/FavouriteView.kt:86-179 | any sequence of frames (values in 0..400), taps and animation ends keeps the invariant |
| `Phases.Reachable` | favouriteview/src/main/java/com/skateboard/favouriteview/FavouriteView.kt:19-31 | from the initial fields (state 0, stroke fraction 1, offset fraction 0, scale 1) every reachable machine satisfies the invariant |
| `Phases.ReachableStates` | favouriteview/src/main/java/com/skateboard/favouriteview/FavouriteView.kt:35-43 | the reachable states are exactly NORMAL, CIRCLE, RING and STATELLITE: SELECTED is never assigned, and each of the other four is reached by some trace |
| `Phases.ClickTwice` | favouriteview/src/main/java/com/skateboard/favouriteview/FavouriteView.kt:170-179 | a second click has no effect: the animator is not restarted and starts at most once |
| `Phases.SetStateIdempotent` | favouriteview/src/main/java/com/skateboard/favouriteview/FavouriteView.kt:138-145 | setting the same state twice has the effect of setting it once |
| `Favourite.FavouriteView.constructor` | favouriteview/src/main/java/com/skateboard/favouriteview/FavouriteView.kt:19-31 | the fields start as the initial machine (state NORMAL, scale 1, stroke fraction 1, offset fraction 0, animator idle) and satisfy the invariant |
| `Favourite.FavouriteView.SetState` | favouriteview/src/main/java/com/skateboard/favouriteview/FavouriteView.kt:138-145 | follows `Phases.SetState`; setting the current state changes no field |
| `Favourite.FavouriteView.Tick` | favouriteview/src/main/java/com/skateboard/favouriteview/FavouriteView.kt:105-135 | follows `Phases.Tick` and keeps the invariant; the phase bands: up to 100 the scale is 1 - t/100 and the state is kept; 101..200 the scale is (t-100)/100 and the state is CIRCLE; 201..300 the scale is 1, the stroke fraction (t-200)/100 and the state is RING; above 300 the offset fraction is (t-300)/100 and the state is STATELLITE, with scale and stroke fraction kept |
| `Favourite.FavouriteView.OnAnimationUpdate` | favouriteview/src/main/java/com/skateboard/favouriteview/FavouriteView.kt:102-104 | the listener on the unrounded animated value: `Tick` of its rounding, keeping the invariant |
| `Favourite.FavouriteView.StartAnimate` | favouriteview/src/main/java/com/skateboard/favouriteview/FavouriteView.kt:170-179 | follows `Phases.StartAnimate`; a call while the animator runs changes nothing |
| `Favourite.FavouriteView.Click` | favouriteview/src/main/java/com/skateboard/favouriteview/FavouriteView.kt:157-167 | follows `Phases.Click` and keeps the invariant; the animator is started if and only if the state was NORMAL and the animator idle, and otherwise no field changes |
| `Favourite.FavouriteView.AnimationEnd` | favouriteview/src/main/java/com/skateboard/favouriteview/FavouriteView.kt:86-91 | follows `Phases.AnimationEnd` and keeps the invariant; afterwards the state is NORMAL, the scale 1 and the animator idle |
| `Geometry.Center` | favouriteview/src/main/java/com/skateboard/favouriteview/FavouriteView.kt:194-195 | the drawing centre is the view's centre rounded down by at most half a unit (integer halving) |
| `Geometry.FingerOutline` | favouriteview/src/main/java/com/skateboard/favouriteview/FavouriteView.kt:225-244 | the outline is a wrist rectangle (axis-aligned, a sixth of the box wide, half high) and an 8-point hand that starts and ends a spacing of 5 right of the wrist on its top and bottom lines; the edge into its last point is horizontal and its closing edge vertical; that horizontal edge starts half the box right of the wrist and the point before it lies five eighths of the box right of the wrist, whatever the spacing; its fingertip is the highest point, half the box above the wrist |
| `Geometry.FingerInsideView` | favouriteview/src/main/java/com/skateboard/favouriteview/FavouriteView.kt:229-241 | for a size of at least 48 that fits the view, every vertex of the finger lies inside the view |
| `Geometry.Disc` | favouriteview/src/main/java/com/skateboard/favouriteview/FavouriteView.kt:246-251 | the circle phase's disc is centred on the view with radius a third of the size, and whenever the size (at least 2) fits the view the whole disc lies inside it |
| `Geometry.RingAt` | favouriteview/src/main/java/com/skateboard/favouriteview/FavouriteView.kt:260-266 | the ring has the disc's centre and its outer edge stays on the disc's edge (drawn radius + stroke/2 = size/3); its hole has radius f times size/3; for f in [0,1] the stroke lies in [0, size/3] and the drawn radius in [size/6, size/3] |
| `Geometry.Satellites` | favouriteview/src/main/java/com/skateboard/favouriteview/FavouriteView.kt:268-278 | four satellites with radius (centerY - size/3)/3. The top, bottom and left ones lie on the axes through the centre, at distance size/3 + offset*f from it, where offset = size/2 (integer) - size/3 - 2*smallRadius. The right one is at the same x distance, but its y is centerX |
| `Geometry.RightSatelliteOnAxis` | favouriteview/src/main/java/com/skateboard/favouriteview/FavouriteView.kt:275 | the right satellite is level with the centre exactly when width/2 equals height/2 (integer halves) |
| `Geometry.SatelliteExtent` | favouriteview/src/main/java/com/skateboard/favouriteview/FavouriteView.kt:271-274 | at offset fraction 0 the top, bottom and left satellites are centred on the disc's edge; at 1 each of them plus one more of its radii reaches half the size (the right satellite is excluded, its y being centerX) |
| `Geometry.SquareViewMovesOutwards` | favouriteview/src/main/java/com/skateboard/favouriteview/FavouriteView.kt:271-277 | on a square view of size at least 2 the offset is non-negative, so a larger fraction never moves the top satellite inwards |
| `Geometry.TallViewMovesInwards` | favouriteview/src/main/java/com/skateboard/favouriteview/FavouriteView.kt:272-274 | because smallRadius comes from the half height, on a size-100, 100 by 300 view the offset is negative and the fully extended top satellite lies below the view centre |
| `Render.Draw` | favouriteview/src/main/java/com/skateboard/favouriteview/FavouriteView.kt:190-223 | nothing is painted exactly in SELECTED. NORMAL paints the finger alone. CIRCLE paints the disc alone. RING paints the ring at the current stroke fraction, then the finger over it. STATELLITE paints the finger, then the four satellites at the current offset fraction. The finger is painted exactly in NORMAL, RING and STATELLITE |
| `Render.AlwaysDrawsSomething` | favouriteview/src/main/java/com/skateboard/favouriteview/FavouriteView.kt:198-219 | after any sequence of events the widget paints at least one shape, since SELECTED is unreachable |
| `Render.RingWithinDisc` | favouriteview/src/main/java/com/skateboard/favouriteview/FavouriteView.kt:209-213 | in a reachable RING state the painted ring shares the disc's centre and outer edge, and its stroke is between 0 and the disc radius |

## Left out

- Android lifecycle and layout are left out: the constructors, `init`, `initPaint`, `onAttachedToWindow` (where the animator is created) and `onMeasure`. The size (the smaller measured side) and the laid-out width and height are inputs to the geometry.
- Clicking before the view is attached to a window is left out. In the source the animator does not exist yet, so that click fails.
- The value animator's 400 ms duration, frame timing and listener registration are left out. The animator is a running flag plus a start count. It delivers frames only while it runs, with animated values in [0, 400]. `Tick`, `OnAnimationUpdate` and `AnimationEnd` therefore require the animator to be running. `Tick` also requires a tick in 0..400.
- Painting is left out: `Paint`, `Path`, `Canvas`, the corner path effect, colours and anti-aliasing. Each shape carries its own style, with a finger stroke width of 4, instead of a shared paint being reconfigured.
- `postInvalidate` is only a count of requests. The redraw that Android itself requests when `scaleX`/`scaleY` change is not counted.
- Floats are reals. IEEE rounding of the fractions and the coordinates is not modelled. `Math.round` is modelled on reals, as the nearest integer with halves rounded up.
- The view's own scale transform, which Android applies to what `onDraw` paints, is not modelled. `scale` is kept as a field.
