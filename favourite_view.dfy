/**
 * The favourite widget as the object the source updates in place. Its
 * fields are the ones the update listener, `setState`, the click handler and
 * the end-of-animation hook write; the value animator is reduced to its
 * running flag and a count of starts, and postInvalidate to a count of
 * redraw requests. The methods are proved to follow the functions of
 * module Phases; the entry points (Tick, OnAnimationUpdate, StartAnimate,
 * Click, AnimationEnd) keep Valid(), while SetState and PostInvalidate are
 * helpers called in the middle of an update.
 */
module Favourite {
  import P = Phases

  class FavouriteView {
    var state: P.State
    var scale: real                      // scaleX and scaleY, always set together
    var strokeWithScaleFraction: real
    var statelliteOffsetFraction: real
    var running: bool
    var redraws: nat
    var starts: nat

    function Model(): P.Machine
      reads this
    {
      P.Machine(state, scale, strokeWithScaleFraction, statelliteOffsetFraction,
                running, redraws, starts)
    }

    ghost predicate Valid()
      reads this
    {
      P.Inv(Model())
    }

    constructor ()
      ensures Model() == P.Initial && Valid()
    {
      state := P.Normal;
      scale := 1.0;
      strokeWithScaleFraction := 1.0;
      statelliteOffsetFraction := 0.0;
      running := false;
      redraws := 0;
      starts := 0;
    }

    /** postInvalidate, as one more redraw request; the count plays no part
        in Valid(), so a valid view stays valid. */
    method PostInvalidate()
      modifies this`redraws
      ensures redraws == old(redraws) + 1
      ensures Valid() <==> old(Valid())
    {
      redraws := redraws + 1;
    }

    /** setState: store the new state and ask for a redraw, only if it differs.
        Like the source's private helper, it is called only from Tick and
        AnimationEnd, between their field updates, so it does not itself keep
        Valid(): setting Selected would break it, and no caller does. */
    method SetState(newState: P.State)
      modifies this
      ensures Model() == P.SetState(old(Model()), newState)
      ensures old(state) == newState ==> Model() == old(Model())
    {
      if state != newState {
        state := newState;
        PostInvalidate();
      }
    }

    /** The update listener, given the rounded animated value. Phase bands:
        up to 100 the view shrinks and the state is kept; 101..200 it grows
        back in the circle phase; 201..300 the ring thins; above 300 the
        satellites move out, and scale and stroke fraction are kept. */
    method Tick(t: int)
      requires Valid() && running && 0 <= t <= P.MaxProgress
      modifies this
      ensures Model() == P.Tick(old(Model()), t)
      ensures Valid() && running
      ensures t <= 100 ==>
        scale == 1.0 - t as real / 100.0 && state == old(state)
        && strokeWithScaleFraction == old(strokeWithScaleFraction)
        && statelliteOffsetFraction == old(statelliteOffsetFraction)
      ensures 101 <= t <= 200 ==>
        scale == (t - 100) as real / 100.0 && state == P.Circle
        && strokeWithScaleFraction == old(strokeWithScaleFraction)
        && statelliteOffsetFraction == old(statelliteOffsetFraction)
      ensures 201 <= t <= 300 ==>
        scale == 1.0 && strokeWithScaleFraction == (t - 200) as real / 100.0
        && state == P.Ring && statelliteOffsetFraction == old(statelliteOffsetFraction)
      ensures 300 < t ==>
        statelliteOffsetFraction == (t - 300) as real / 100.0 && state == P.Satellite
        && scale == old(scale) && strokeWithScaleFraction == old(strokeWithScaleFraction)
    {
      if t <= 100 {
        scale := P.Max(0.0, 1.0 - t as real / 100.0);
      } else if 101 <= t <= 200 {
        scale := P.Min(1.0, (t - 100) as real / 100.0);
        SetState(P.Circle);
      } else if 201 <= t <= 300 {
        scale := 1.0;
        strokeWithScaleFraction := (t - 200) as real / 100.0;
        SetState(P.Ring);
        PostInvalidate();
      } else {
        statelliteOffsetFraction := (t - 300) as real / 100.0;
        SetState(P.Satellite);
        PostInvalidate();
      }
      P.TickKeepsInv(old(Model()), t);
    }

    /** The listener as the animator calls it, with the animated value before
        rounding. */
    method OnAnimationUpdate(animatedValue: real)
      requires Valid() && running && 0.0 <= animatedValue <= P.MaxProgress as real
      modifies this
      ensures Model() == P.Tick(old(Model()), P.Round(animatedValue))
      ensures Valid() && running
    {
      var time := P.Round(animatedValue);
      Tick(time);
    }

    /** startAnimate: a no-op while the animator runs, a start otherwise. */
    method StartAnimate()
      requires Valid()
      modifies this
      ensures Model() == P.StartAnimate(old(Model()))
      ensures Valid()
      ensures old(running) ==> Model() == old(Model())
    {
      if running {
        return;
      } else {
        running := true;
        starts := starts + 1;
      }
    }

    /** The click listener: the animation starts only from the normal state
        with the animator idle; any other click changes nothing. */
    method Click()
      requires Valid()
      modifies this
      ensures Model() == P.Click(old(Model()))
      ensures Valid()
      ensures starts == old(starts) + 1 <==> old(state) == P.Normal && !old(running)
      ensures starts != old(starts) + 1 ==> Model() == old(Model())
    {
      if state == P.Normal {
        StartAnimate();
      }
      P.ClickKeepsInv(old(Model()));
    }

    /** onAnimationEnd: the scale goes back to at least 1 and the state to
        normal; the animator has stopped. */
    method AnimationEnd()
      requires Valid() && running
      modifies this
      ensures Model() == P.AnimationEnd(old(Model()))
      ensures Valid()
      ensures state == P.Normal && scale == 1.0 && !running
    {
      running := false;
      scale := P.Max(1.0, scale);
      SetState(P.Normal);
      P.AnimationEndKeepsInv(old(Model()));
    }
  }
}
