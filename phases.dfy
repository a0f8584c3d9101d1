/**
 * The animation state machine of the favourite widget, as pure functions.
 *
 * A `Machine` is everything the update listener, `setState`, the click
 * handler and the end-of-animation hook read or write: the widget `state`,
 * the view scale (scaleX and scaleY are always set together), the two shape
 * fractions, whether the value animator is running, how many redraws have
 * been requested and how many times the animator has been started.
 * The class in favourite_view.dfy is proved to follow these functions.
 */
module Phases {

  /** The widget's `state` field. The source stores it as an Int with the
      codes NORMAL = 0, SELECTED = 1, CIRCLE = 2, RING = 3, STATELLITE = 4. */
  datatype State = Normal | Selected | Circle | Ring | Satellite

  /** The animator runs from 0 to this value. */
  const MaxProgress: int := 400

  datatype Machine = Machine(
    state: State,
    scale: real,
    strokeFraction: real,   // strokeWithScaleFraction
    offsetFraction: real,   // statelliteOffsetFraction
    running: bool,          // the value animator's isRunning
    redraws: nat,           // postInvalidate requests so far
    starts: nat)            // animator starts so far

  /** A freshly constructed view: normal state, unit scale, stroke fraction 1,
      offset fraction 0, animator idle. */
  const Initial: Machine := Machine(Normal, 1.0, 1.0, 0.0, false, 0, 0)

  function Max(a: real, b: real): real { if a < b then b else a }

  function Min(a: real, b: real): real { if a < b then a else b }

  /** Math.round on the animator's value: the nearest integer, halves rounded up. */
  function Round(v: real): (t: int)
    ensures v - 0.5 < t as real <= v + 0.5
    ensures 0.0 <= v <= MaxProgress as real ==> 0 <= t <= MaxProgress
  {
    (v + 0.5).Floor
  }

  /** The order in which one animation shows its phases. Selected, which the
      animation never enters, is ranked after all of them. */
  function Rank(s: State): nat
  {
    match s
    case Normal => 0
    case Circle => 1
    case Ring => 2
    case Satellite => 3
    case Selected => 4
  }

  ghost predicate InUnit(x: real) { 0.0 <= x <= 1.0 }

  /** The three fractions lie in [0,1]. */
  ghost predicate FractionsInUnit(m: Machine)
  {
    InUnit(m.scale) && InUnit(m.strokeFraction) && InUnit(m.offsetFraction)
  }

  /** What holds of every state the widget can get into: the fractions are in
      [0,1], Selected is never entered, and an idle widget shows the normal
      icon at full size. */
  ghost predicate Inv(m: Machine)
  {
    && FractionsInUnit(m)
    && m.state != Selected
    && (!m.running ==> m.state == Normal && m.scale == 1.0)
  }

  /** setState: a new state is stored, and a redraw requested, only when it
      differs from the current one. */
  function SetState(m: Machine, newState: State): (r: Machine)
    ensures r.state == newState
    ensures r == m <==> m.state == newState
    ensures r.redraws == if m.state == newState then m.redraws else m.redraws + 1
    ensures r == m.(state := r.state, redraws := r.redraws)
  {
    if m.state != newState then m.(state := newState, redraws := m.redraws + 1) else m
  }

  /** The animator update listener, given the rounded animated value `t`. */
  function Tick(m: Machine, t: int): (r: Machine)
    ensures r.running == m.running && r.starts == m.starts
    ensures r.redraws >= m.redraws
    // below 101 the state is left alone; above, the hundred `t` falls in picks the phase
    ensures t <= 100 ==> r.state == m.state
    ensures 100 < t <= MaxProgress ==> Rank(r.state) == (t - 1) / 100
    ensures 0 <= t <= MaxProgress && FractionsInUnit(m) ==> FractionsInUnit(r)
  {
    if t <= 100 then
      m.(scale := Max(0.0, 1.0 - t as real / 100.0))
    else if 101 <= t <= 200 then
      SetState(m.(scale := Min(1.0, (t - 100) as real / 100.0)), Circle)
    else if 201 <= t <= 300 then
      var s := SetState(m.(scale := 1.0, strokeFraction := (t - 200) as real / 100.0), Ring);
      s.(redraws := s.redraws + 1)
    else
      var s := SetState(m.(offsetFraction := (t - 300) as real / 100.0), Satellite);
      s.(redraws := s.redraws + 1)
  }

  /** startAnimate: starts the animator unless it is already running. */
  function StartAnimate(m: Machine): (r: Machine)
    ensures r.running
    ensures r.starts == if m.running then m.starts else m.starts + 1
    ensures r == m.(running := r.running, starts := r.starts)
  {
    if m.running then m else m.(running := true, starts := m.starts + 1)
  }

  /** The click listener: only a widget in the normal state reacts. */
  function Click(m: Machine): (r: Machine)
    ensures r.starts == m.starts + 1 <==> m.state == Normal && !m.running
    ensures r.starts != m.starts + 1 ==> r == m
    ensures r.running <==> m.running || m.state == Normal
    ensures r == m.(running := r.running, starts := r.starts)
  {
    if m.state == Normal then StartAnimate(m) else m
  }

  /** onAnimationEnd: the scale is raised to at least 1 and the state goes
      back to normal; the animator is no longer running. */
  function AnimationEnd(m: Machine): (r: Machine)
    ensures r.state == Normal && !r.running
    ensures r.scale == Max(1.0, m.scale) && r.scale >= 1.0 && r.scale >= m.scale
    ensures m.scale <= 1.0 ==> r.scale == 1.0
    // setState(STATE_NORMAL) asks for a redraw only when the state changes
    ensures r.redraws == if m.state == Normal then m.redraws else m.redraws + 1
    ensures r == m.(state := Normal, scale := r.scale, running := false, redraws := r.redraws)
  {
    SetState(m.(scale := Max(1.0, m.scale)), Normal).(running := false)
  }

  lemma TickKeepsInv(m: Machine, t: int)
    requires Inv(m) && m.running && 0 <= t <= MaxProgress
    ensures Inv(Tick(m, t)) && Tick(m, t).running
  {
  }

  lemma ClickKeepsInv(m: Machine)
    requires Inv(m)
    ensures Inv(Click(m))
  {
  }

  lemma AnimationEndKeepsInv(m: Machine)
    requires Inv(m)
    ensures Inv(AnimationEnd(m))
  {
  }

  // ---------------------------------------------------------------------
  // One animation: the listener fed a sequence of rounded ticks.

  ghost predicate InRange(ts: seq<int>)
  {
    forall i :: 0 <= i < |ts| ==> 0 <= ts[i] <= MaxProgress
  }

  ghost predicate NonDecreasing(ts: seq<int>)
  {
    forall i, j :: 0 <= i <= j < |ts| ==> ts[i] <= ts[j]
  }

  /** The machine after the listener has seen the ticks `ts` in order. */
  function Run(m: Machine, ts: seq<int>): Machine
    decreases |ts|
  {
    if ts == [] then m else Tick(Run(m, ts[..|ts| - 1]), ts[|ts| - 1])
  }

  /** The phase rank a non-decreasing run shows after its latest tick `t`. */
  function RankAt(t: int): nat
  {
    if t <= 100 then 0 else (t - 1) / 100
  }

  /** Started from the normal state and fed non-decreasing ticks, the phase
      shown depends only on the latest tick. */
  lemma {:induction false} RunRank(m: Machine, ts: seq<int>)
    requires m.state == Normal && InRange(ts) && NonDecreasing(ts)
    ensures Run(m, ts).state != Selected
    ensures Rank(Run(m, ts).state) == if ts == [] then 0 else RankAt(ts[|ts| - 1])
  {
    if ts != [] {
      var init := ts[..|ts| - 1];
      var t := ts[|ts| - 1];
      assert InRange(init) && NonDecreasing(init);
      RunRank(m, init);
      if t <= 100 && init != [] {
        assert init[|init| - 1] <= t;
      }
    }
  }

  /** Phases only move forward: along non-decreasing ticks started from the
      normal state, no later point shows an earlier phase. */
  lemma PhasesForward(m: Machine, ts: seq<int>)
    requires m.state == Normal && InRange(ts) && NonDecreasing(ts)
    ensures forall i, j :: 0 <= i <= j <= |ts| ==>
      Rank(Run(m, ts[..i]).state) <= Rank(Run(m, ts[..j]).state)
  {
    forall i, j | 0 <= i <= j <= |ts|
      ensures Rank(Run(m, ts[..i]).state) <= Rank(Run(m, ts[..j]).state)
    {
      assert InRange(ts[..i]) && NonDecreasing(ts[..i]);
      assert InRange(ts[..j]) && NonDecreasing(ts[..j]);
      RunRank(m, ts[..i]);
      RunRank(m, ts[..j]);
      if 0 < i {
        assert ts[..i][i - 1] == ts[i - 1] <= ts[j - 1] == ts[..j][j - 1];
      }
    }
  }

  /** Ticks delivered while the animator runs keep the invariant and the
      animator running, and never start it again. */
  lemma {:induction false} RunKeepsInv(m: Machine, ts: seq<int>)
    requires Inv(m) && m.running && InRange(ts)
    ensures Inv(Run(m, ts)) && Run(m, ts).running
    ensures Run(m, ts).starts == m.starts
    ensures Run(m, ts).redraws >= m.redraws
  {
    if ts != [] {
      var init := ts[..|ts| - 1];
      assert InRange(init);
      RunKeepsInv(m, init);
      TickKeepsInv(Run(m, init), ts[|ts| - 1]);
    }
  }

  /** A whole animation: a click on the idle widget, non-decreasing ticks up
      to the animator's end value, then the end hook. At the last tick the
      satellites are fully out; afterwards the widget is back in the normal
      state at full size, idle, and the animator was started exactly once. */
  lemma FullAnimation(ts: seq<int>)
    requires InRange(ts) && NonDecreasing(ts)
    requires ts != [] && ts[|ts| - 1] == MaxProgress
    ensures var last := Run(Click(Initial), ts);
      last.state == Satellite && last.offsetFraction == 1.0 && last.running
    ensures var done := AnimationEnd(Run(Click(Initial), ts));
      done.state == Normal && done.scale == 1.0 && !done.running && done.starts == 1
  {
    var started := Click(Initial);
    RunRank(started, ts);
    RunKeepsInv(started, ts);
    assert Run(started, ts) == Tick(Run(started, ts[..|ts| - 1]), MaxProgress);
  }

  // ---------------------------------------------------------------------
  // Everything that can happen to the widget.

  /** What reaches the widget: an animator frame carrying the animated value,
      a click, or the animator's end. */
  datatype Event = Frame(animatedValue: real) | Tap | End

  /** The animator only reports frames and its end while it is running. */
  function Deliver(m: Machine, e: Event): Machine
  {
    match e
    case Frame(v) => if m.running then Tick(m, Round(v)) else m
    case Tap => Click(m)
    case End => if m.running then AnimationEnd(m) else m
  }

  ghost predicate ValidEvents(es: seq<Event>)
  {
    forall i :: 0 <= i < |es| && es[i].Frame? ==>
      0.0 <= es[i].animatedValue <= MaxProgress as real
  }

  function Trace(m: Machine, es: seq<Event>): Machine
    decreases |es|
  {
    if es == [] then m else Deliver(Trace(m, es[..|es| - 1]), es[|es| - 1])
  }

  lemma {:induction false} TraceKeepsInv(m: Machine, es: seq<Event>)
    requires Inv(m) && ValidEvents(es)
    ensures Inv(Trace(m, es))
  {
    if es != [] {
      var init := es[..|es| - 1];
      assert ValidEvents(init);
      TraceKeepsInv(m, init);
      var before := Trace(m, init);
      match es[|es| - 1]
      case Frame(v) =>
        if before.running { TickKeepsInv(before, Round(v)); }
      case Tap =>
        ClickKeepsInv(before);
      case End =>
        if before.running { AnimationEndKeepsInv(before); }
    }
  }

  /** Every state the widget reaches keeps its fractions in [0,1], is never
      Selected, and at rest shows the normal icon at full size. */
  lemma Reachable(es: seq<Event>)
    requires ValidEvents(es)
    ensures Inv(Trace(Initial, es))
  {
    TraceKeepsInv(Initial, es);
  }

  /** The states some sequence of events reaches are exactly Normal, Circle,
      Ring and Satellite. */
  lemma ReachableStates(s: State)
    ensures (exists es :: ValidEvents(es) && Trace(Initial, es).state == s) <==> s != Selected
  {
    if s == Selected {
      forall es | ValidEvents(es) ensures Trace(Initial, es).state != s {
        TraceKeepsInv(Initial, es);
      }
    } else {
      var v: real := match s
        case Circle => 150.0
        case Ring => 250.0
        case _ => 350.0;
      var es := if s == Normal then [] else [Tap, Frame(v)];
      assert ValidEvents(es);
      if s != Normal {
        var started := Click(Initial);
        assert [Tap, Frame(v)][..1] == [Tap];
        assert Trace(Initial, [Tap]) == started by {
          assert [Tap][..0] == [];
        }
        assert Round(v) == v.Floor;
        assert Trace(Initial, es) == Tick(started, Round(v));
      }
      assert Trace(Initial, es).state == s;
    }
  }

  /** A second click never restarts the animator. */
  lemma ClickTwice(m: Machine)
    ensures Click(Click(m)) == Click(m)
    ensures Click(Click(m)).starts <= m.starts + 1
  {
  }

  /** Setting the same state twice has the effect of setting it once. */
  lemma SetStateIdempotent(m: Machine, s: State)
    ensures SetState(SetState(m, s), s) == SetState(m, s)
  {
  }
}
