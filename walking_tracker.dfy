/**
 * Tracking of a walk in place once its first step is known. The tracker measures
 * the progress t of the head from the apex of the foot that stands towards the
 * apex of the foot that steps, reports progress and footfalls, switches feet when
 * the head turns back, and keeps a vitality that fades when the head stalls or
 * strays from the line between the apices.
 */
module GaitTracking {
  import opened Geometry
  import opened StepDetection

  const VitalityThreshold: real := 0.1
  const VitalityDecayFactor: real := 0.95
  const DeviationTolerance: real := 0.0016
  const DeviationPenalty: real := 100.0
  const FootfallProgress: real := 0.5
  const ReseedFraction: real := 0.95
  const MinimumAxisLength: real := 0.03

  /** What an update reports: progress made along the axis, or a foot coming down. */
  datatype TrackerEvent = Movement(deltaT: real) | Footfall(foot: Foot)

  /**
   * The fields of a tracker. currentPosition is the scratch vector that holds
   * the last position relative to the stance apex.
   */
  datatype TrackerState = TrackerState(
    leftApex: Vec2,
    rightApex: Vec2,
    currentPosition: Vec2,
    axis: Vec2,
    axisLength: real,
    forward: Vec2,
    steppingLeft: bool,
    t: real,
    maxT: real,
    maxTPosition: Vec2,
    vitality: real)

  /** The fields' initial values, before the constructor seeds them. */
  function Unset(): TrackerState {
    TrackerState(Zero, Zero, Zero, Zero, -1.0, Zero, false, -1.0, -1.0, Zero, 0.0)
  }

  function FootOf(steppingLeft: bool): Foot {
    if steppingLeft then Left else Right
  }

  /** The apex of the foot that stands. */
  function StanceOf(s: TrackerState): Vec2 {
    if s.steppingLeft then s.rightApex else s.leftApex
  }

  /** The apex of the foot that steps. */
  function SteppingOf(s: TrackerState): Vec2 {
    if s.steppingLeft then s.leftApex else s.rightApex
  }

  /** Math.max */
  function Max(a: real, b: real): real {
    if a >= b then a else b
  }

  /** A vector turned a quarter turn clockwise. */
  function RightPerp(v: Vec2): Vec2 {
    Vec2(v.y, -v.x)
  }

  /**
   * The progress of a position given relative to the stance apex: its projection
   * on the axis in units of the axis length. A zero axis gives 0.
   */
  function ProgressOf(s: TrackerState, rel: Vec2): real {
    if s.axisLength == 0.0 then 0.0
    else
      SqPos(s.axisLength);
      Dot(rel, s.axis) / Sq(s.axisLength)
  }

  /** The progress of an absolute position. */
  function Progress(s: TrackerState, p: Vec2): real {
    ProgressOf(s, Sub(p, StanceOf(s)))
  }

  /** The squared distance of a relative position from the axis line. A zero axis gives 0. */
  function Deviation(s: TrackerState, rel: Vec2): real {
    if s.axisLength == 0.0 then 0.0 else LengthSq(rel) - Sq(Dot(rel, s.axis) / s.axisLength)
  }

  /** The factor the vitality is multiplied by when the head moves from progress priorT to t. */
  function VitalityFactor(deviation: real, priorT: real, t: real): real {
    VitalityDecayFactor - DeviationPenalty * Max(deviation - DeviationTolerance, 0.0) + Max(t - priorT, 0.0)
  }

  /** _updateTAndVitality: takes the position, recomputes t and scales the vitality. */
  function Advance(s: TrackerState, p: Vec2): (r: TrackerState)
    ensures r.t == Progress(s, p) && r.currentPosition == Sub(p, StanceOf(s))
    ensures r.(currentPosition := s.currentPosition, t := s.t, vitality := s.vitality) == s
  {
    var rel := Sub(p, StanceOf(s));
    var t := ProgressOf(s, rel);
    s.(currentPosition := rel, t := t, vitality := s.vitality * VitalityFactor(Deviation(s, rel), s.t, t))
  }

  /**
   * The vitality never grows by more than the progress made: one update scales
   * it by at most 0.95 plus the forward progress, whatever the deviation.
   */
  lemma VitalityBound(s: TrackerState, p: Vec2)
    requires 0.0 <= s.vitality
    ensures Advance(s, p).vitality <= s.vitality * (VitalityDecayFactor + Max(Progress(s, p) - s.t, 0.0))
  {
    var a := Advance(s, p);
    var f := VitalityFactor(Deviation(s, Sub(p, StanceOf(s))), s.t, a.t);
    assert f <= VitalityDecayFactor + Max(Progress(s, p) - s.t, 0.0);
    MulMono(s.vitality, f, VitalityDecayFactor + Max(Progress(s, p) - s.t, 0.0));
  }

  /**
   * _reset: takes both apices and the stepping foot, derives the axis from the
   * stance apex to the stepping apex, its length and the unit forward vector, and
   * restarts t, maxT and the vitality at position p.
   */
  function Reset(s: TrackerState, left: Vec2, right: Vec2, p: Vec2, steppingLeft: bool, sqrt: real -> real): TrackerState {
    var advanced := Advance(Aligned(s, left, right, steppingLeft, sqrt), p);
    advanced.(maxT := advanced.t, maxTPosition := p, vitality := 1.0)
  }

  /**
   * The first part of _reset: the apices and the stepping foot are taken, and the
   * axis from the stance apex to the stepping apex, its length and the unit
   * forward vector derived from them.
   */
  function Aligned(s: TrackerState, left: Vec2, right: Vec2, steppingLeft: bool, sqrt: real -> real): TrackerState {
    var axis := if steppingLeft then Sub(left, right) else Sub(right, left);
    var perp := if steppingLeft then Vec2(-axis.y, axis.x) else Vec2(axis.y, -axis.x);
    var len := sqrt(LengthSq(axis));
    s.(leftApex := left, rightApex := right, steppingLeft := steppingLeft, axis := axis,
       axisLength := len, forward := if len == 0.0 then Zero else Scale(perp, 1.0 / len))
  }

  /** A tracker seeded from a detected step, as the constructor does. */
  function Seed(e: StepEvent, sqrt: real -> real): (r: TrackerState)
    ensures StanceOf(r) == StanceApex(e) && SteppingOf(r) == SteppingApex(e)
    ensures FootOf(r.steppingLeft) == e.steppingFoot
    ensures r.maxTPosition == e.currentPosition && r.maxT == r.t && r.vitality == 1.0
  {
    Reset(Unset(), e.leftApex, e.rightApex, e.currentPosition, e.steppingFoot == Left, sqrt)
  }

  /**
   * The switch of feet: the stepping foot is taken to have landed where t peaked,
   * and the other foot steps next. This is the intended behaviour, with the peak
   * position remembered as the absolute position p; see ReseedAsWritten.
   */
  function Reseed(s: TrackerState, p: Vec2, sqrt: real -> real): (r: TrackerState)
    ensures r.steppingLeft == !s.steppingLeft
    ensures StanceOf(r) == s.maxTPosition && SteppingOf(r) == StanceOf(s)
    ensures r.maxTPosition == p && r.maxT == r.t && r.vitality == 1.0
  {
    var left := if s.steppingLeft then s.maxTPosition else s.leftApex;
    var right := if s.steppingLeft then s.rightApex else s.maxTPosition;
    Reset(s.(currentPosition := p, leftApex := left, rightApex := right), left, right, p, !s.steppingLeft, sqrt)
  }

  /**
   * The switch of feet as the source writes it: the position handed to _reset is
   * the tracker's own scratch vector, which _updateTAndVitality overwrites with
   * the position relative to the new stance apex before _reset copies it into
   * maxTPosition.
   */
  function ReseedAsWritten(s: TrackerState, p: Vec2, sqrt: real -> real): (r: TrackerState)
    ensures r.maxTPosition == Sub(p, StanceOf(r))
  {
    var left := if s.steppingLeft then s.maxTPosition else s.leftApex;
    var right := if s.steppingLeft then s.rightApex else s.maxTPosition;
    var r := Reset(s.(currentPosition := p, leftApex := left, rightApex := right), left, right, p, !s.steppingLeft, sqrt);
    r.(maxTPosition := r.currentPosition)
  }

  /** The events for progress going from priorT to t. */
  function Reported(priorT: real, t: real, steppingLeft: bool): seq<TrackerEvent> {
    if t > priorT then
      [Movement(t - priorT)] + if priorT < FootfallProgress && t >= FootfallProgress then [Footfall(FootOf(steppingLeft))] else []
    else []
  }

  /** The result of an update: the new fields, whether the tracker lives on, and the events in order. */
  datatype Outcome = Outcome(state: TrackerState, alive: bool, events: seq<TrackerEvent>)

  /** The progress of a position times the squared axis length is its dot product with the axis. */
  lemma ProgressTimesSq(s: TrackerState, rel: Vec2)
    requires s.axisLength != 0.0
    ensures ProgressOf(s, rel) * Sq(s.axisLength) == Dot(rel, s.axis)
  {
    SqPos(s.axisLength);
  }

  /** The state after the position is taken and the peak of t is raised to it when it is higher. */
  function Peaked(s: TrackerState, p: Vec2): TrackerState {
    var advanced := Advance(s, p);
    if advanced.t > advanced.maxT then advanced.(maxT := advanced.t, maxTPosition := p) else advanced
  }

  /** update: one position in, the new state, the liveness flag and the events out. */
  function Track(s: TrackerState, p: Vec2, sqrt: real -> real): (r: Outcome)
    ensures s.vitality < VitalityThreshold ==> r == Outcome(s, false, [])
    ensures r.alive ==> VitalityThreshold <= r.state.vitality && MinimumAxisLength <= r.state.axisLength
    ensures r.events != [] ==> VitalityThreshold <= r.state.vitality
    ensures |r.events| <= 2
  {
    if s.vitality < VitalityThreshold then Outcome(s, false, [])
    else
      var peaked := Peaked(s, p);
      if peaked.vitality < VitalityThreshold then Outcome(peaked, false, [])
      else
        var events := Reported(s.t, peaked.t, peaked.steppingLeft);
        var next := if peaked.t < ReseedFraction * peaked.maxT then Reseed(peaked, p, sqrt) else peaked;
        Outcome(next, !(next.axisLength < MinimumAxisLength), events)
  }

  /**
   * What holds of every seeded tracker: the axis runs from the stance apex to the
   * stepping apex and its length is its Euclidean length; forward is the right
   * perpendicular of the left-to-right apex vector scaled by that length; t is
   * the progress of the last position, maxT is the progress of maxTPosition and
   * t never exceeds it.
   */
  ghost predicate Inv(s: TrackerState) {
    && 0.0 <= s.axisLength
    && Sq(s.axisLength) == LengthSq(s.axis)
    && s.axis == Sub(SteppingOf(s), StanceOf(s))
    && s.forward == (if s.axisLength == 0.0 then Zero else Scale(RightPerp(Sub(s.rightApex, s.leftApex)), 1.0 / s.axisLength))
    && s.t == ProgressOf(s, s.currentPosition)
    && s.maxT == Progress(s, s.maxTPosition)
    && s.t <= s.maxT
  }

  /** The parts of Inv that _reset establishes whatever the square root is. */
  lemma ResetShape(s: TrackerState, left: Vec2, right: Vec2, p: Vec2, steppingLeft: bool, sqrt: real -> real)
    ensures var r := Reset(s, left, right, p, steppingLeft, sqrt);
      && r.axis == Sub(SteppingOf(r), StanceOf(r))
      && r.axisLength == sqrt(LengthSq(r.axis))
      && r.forward == (if r.axisLength == 0.0 then Zero else Scale(RightPerp(Sub(r.rightApex, r.leftApex)), 1.0 / r.axisLength))
      && r.t == ProgressOf(r, r.currentPosition)
      && r.maxT == Progress(r, r.maxTPosition)
      && r.leftApex == left && r.rightApex == right && r.steppingLeft == steppingLeft
      && r.vitality == 1.0 && r.maxTPosition == p && r.maxT == r.t
  {
  }

  /**
   * _reset leaves a tracker that satisfies Inv, with the given apices and foot,
   * full vitality and its peak at the position it was given.
   */
  lemma ResetEstablishesInv(s: TrackerState, left: Vec2, right: Vec2, p: Vec2, steppingLeft: bool, sqrt: real -> real)
    requires IsSqrt(sqrt)
    ensures var r := Reset(s, left, right, p, steppingLeft, sqrt);
      && Inv(r)
      && r.leftApex == left && r.rightApex == right && r.steppingLeft == steppingLeft
      && r.vitality == 1.0 && r.maxTPosition == p && r.maxT == r.t
  {
    ResetShape(s, left, right, p, steppingLeft, sqrt);
    var r := Reset(s, left, right, p, steppingLeft, sqrt);
    SqrtOfLengthSq(sqrt, r.axis);
  }

  /**
   * Taking a position keeps Inv, sets t to the position's progress and leaves
   * the peak at the larger of the old peak and the new t.
   */
  lemma PeakedKeepsInv(s: TrackerState, p: Vec2)
    requires Inv(s)
    ensures var r := Peaked(s, p);
      && Inv(r)
      && r.t == Progress(s, p)
      && r.maxT == Max(s.maxT, r.t)
      && r.leftApex == s.leftApex && r.rightApex == s.rightApex && r.steppingLeft == s.steppingLeft
  {
  }

  /** Every update of a tracker that satisfies Inv leaves one that satisfies it. */
  lemma TrackKeepsInv(s: TrackerState, p: Vec2, sqrt: real -> real)
    requires IsSqrt(sqrt) && Inv(s)
    ensures Inv(Track(s, p, sqrt).state)
  {
    if s.vitality >= VitalityThreshold {
      PeakedKeepsInv(s, p);
      var peaked := Peaked(s, p);
      if peaked.vitality >= VitalityThreshold && peaked.t < ReseedFraction * peaked.maxT {
        var left := if peaked.steppingLeft then peaked.maxTPosition else peaked.leftApex;
        var right := if peaked.steppingLeft then peaked.rightApex else peaked.maxTPosition;
        ResetEstablishesInv(peaked.(currentPosition := p, leftApex := left, rightApex := right), left, right, p, !peaked.steppingLeft, sqrt);
      }
    }
  }

  /**
   * The events of an update. There are none unless the tracker was alive, stays
   * alive through the new position and makes progress; then the first reports
   * the progress made, and a footfall of the stepping foot follows exactly when
   * t crossed one half.
   */
  lemma TrackEvents(s: TrackerState, p: Vec2, sqrt: real -> real)
    ensures var r := Track(s, p, sqrt);
      var t := Progress(s, p);
      var moved := s.vitality >= VitalityThreshold && Advance(s, p).vitality >= VitalityThreshold && t > s.t;
      && r.events == (if moved then [Movement(t - s.t)] + (if s.t < FootfallProgress <= t then [Footfall(FootOf(s.steppingLeft))] else []) else [])
      && (r.events != [] <==> moved)
      && (moved ==> r.events[0] == Movement(t - s.t) && 0.0 < r.events[0].deltaT)
      && (Footfall(FootOf(s.steppingLeft)) in r.events <==> moved && s.t < FootfallProgress <= t)
      && (forall e | e in r.events :: e.Movement? || e == Footfall(FootOf(s.steppingLeft)))
      && |r.events| <= 2
  {
  }

  /**
   * When an update kills the tracker: at once if its vitality was already below
   * the threshold (and then nothing changes), when the new position drops the
   * vitality below it, or when the axis left by the update is shorter than 0.03.
   */
  lemma TrackLiveness(s: TrackerState, p: Vec2, sqrt: real -> real)
    ensures s.vitality < VitalityThreshold ==> Track(s, p, sqrt) == Outcome(s, false, [])
    ensures Track(s, p, sqrt).alive <==>
      && s.vitality >= VitalityThreshold
      && Advance(s, p).vitality >= VitalityThreshold
      && Track(s, p, sqrt).state.axisLength >= MinimumAxisLength
    ensures Track(s, p, sqrt).alive ==> Track(s, p, sqrt).state.vitality >= VitalityThreshold
  {
  }

  /**
   * The switch of feet: it happens exactly when a live update leaves t under 95%
   * of its peak. The foot that was stepping then stands where t peaked, the other
   * foot steps, and the vitality and the peak restart at the new position.
   * Otherwise the apices and the foot stay as they were.
   */
  lemma TrackSwitchesFeet(s: TrackerState, p: Vec2, sqrt: real -> real)
    ensures var r := Track(s, p, sqrt).state;
      var peaked := Peaked(s, p);
      var switched := s.vitality >= VitalityThreshold && peaked.vitality >= VitalityThreshold
                      && peaked.t < ReseedFraction * peaked.maxT;
      && (switched ==>
            && r.steppingLeft == !s.steppingLeft
            && StanceOf(r) == (if Progress(s, p) > s.maxT then p else s.maxTPosition)
            && SteppingOf(r) == StanceOf(s)
            && r.vitality == 1.0 && r.maxTPosition == p && r.maxT == r.t)
      && (!switched ==> r.steppingLeft == s.steppingLeft && r.leftApex == s.leftApex && r.rightApex == s.rightApex)
  {
    var peaked := Peaked(s, p);
    if s.vitality >= VitalityThreshold && peaked.vitality >= VitalityThreshold && peaked.t < ReseedFraction * peaked.maxT {
      var left := if peaked.steppingLeft then peaked.maxTPosition else peaked.leftApex;
      var right := if peaked.steppingLeft then peaked.rightApex else peaked.maxTPosition;
      ResetShape(peaked.(currentPosition := p, leftApex := left, rightApex := right), left, right, p, !peaked.steppingLeft, sqrt);
    }
  }

  /** The forward getter: under Inv and a non-zero axis, a unit vector at right angles to the axis. */
  lemma ForwardIsUnitNormal(s: TrackerState)
    requires Inv(s) && s.axisLength != 0.0
    ensures Dot(s.forward, s.axis) == 0.0
    ensures LengthSq(s.forward) == 1.0
  {
    var v := Sub(s.rightApex, s.leftApex);
    Reversed(v, s.forward);
    assert s.axis == if s.steppingLeft then Scale(v, -1.0) else v;
    UnitPerpendicular(v, s.axisLength);
  }

  /** The collapse test on the axis length is the same test on its square, |axis|^2 < 0.0009. */
  lemma AxisCollapseBySquares(s: TrackerState)
    requires Inv(s)
    ensures s.axisLength < MinimumAxisLength <==> LengthSq(s.axis) < MinimumAxisLength * MinimumAxisLength
  {
    CompareBySquares(s.axisLength, MinimumAxisLength);
  }

  /**
   * With the stance apex 0.8 of the way out along d and the stepping apex 1.6 of
   * the way back, the start point lies a third of the way from stance to step.
   */
  lemma ProgressOfOrigin(origin: Vec2, d: Vec2, len: real)
    requires var axis := Sub(Add(origin, Scale(d, AxisToApexExtendFactor)), Add(origin, Scale(d, AxisToApexShrinkFactor)));
      Sq(len) == LengthSq(axis)
    ensures var stance := Add(origin, Scale(d, AxisToApexShrinkFactor));
      var axis := Sub(Add(origin, Scale(d, AxisToApexExtendFactor)), stance);
      Dot(Sub(origin, stance), axis) == Sq(len) / 3.0
  {
    var stance := Add(origin, Scale(d, AxisToApexShrinkFactor));
    var axis := Sub(Add(origin, Scale(d, AxisToApexExtendFactor)), stance);
    assert Sub(origin, stance) == Scale(d, -0.8);
    assert axis == Scale(d, -2.4);
    DotOfMultiples(d, -0.8, -2.4);
    DotOfMultiples(d, -2.4, -2.4);
    assert LengthSq(axis) == Dot(axis, axis);
  }

  /** A tracker whose position lies a third of the way along the axis has t at one third. */
  lemma SeededProgress(r: TrackerState)
    requires 0.0 < r.axisLength
    requires Dot(r.currentPosition, r.axis) == Sq(r.axisLength) / 3.0
    ensures ProgressOf(r, r.currentPosition) == 1.0 / 3.0
  {
    SqPos(r.axisLength);
  }

  /**
   * A tracker seeded with the stance apex 0.8 along d from the start point and
   * the stepping apex 1.6 back from it starts with t and its peak at one third.
   */
  lemma SeedAtOneThird(e: StepEvent, d: Vec2, sqrt: real -> real)
    requires IsSqrt(sqrt) && d != Zero
    requires StanceApex(e) == Add(e.currentPosition, Scale(d, AxisToApexShrinkFactor))
    requires SteppingApex(e) == Add(e.currentPosition, Scale(d, AxisToApexExtendFactor))
    ensures var r := Seed(e, sqrt);
      && Inv(r)
      && StanceOf(r) == StanceApex(e) && SteppingOf(r) == SteppingApex(e)
      && 0.0 < r.axisLength
      && r.t == 1.0 / 3.0 && r.maxT == 1.0 / 3.0 && r.vitality == 1.0
  {
    ResetEstablishesInv(Unset(), e.leftApex, e.rightApex, e.currentPosition, e.steppingFoot == Left, sqrt);
    var r := Seed(e, sqrt);
    assert StanceOf(r) == StanceApex(e) && SteppingOf(r) == SteppingApex(e);
    assert r.axis == Scale(d, -2.4);
    ScaledNonZero(d, -2.4);
    LengthSqZero(r.axis);
    SqZero(r.axisLength);
    ProgressOfOrigin(e.currentPosition, d, r.axisLength);
    assert r.currentPosition == Sub(e.currentPosition, StanceApex(e));
    SeededProgress(r);
  }

  /**
   * A tracker seeded from any step the detector reports satisfies Inv, has a
   * positive axis, full vitality, and starts with t and its peak at one third.
   */
  lemma DetectedStepSeedsAtOneThird(w: seq<Vec2>, forward: Vec2, sqrt: real -> real)
    requires |w| == WindowLength && IsSqrt(sqrt) && Detect(w, forward, sqrt).Some?
    ensures var e := Detect(w, forward, sqrt).value;
      var r := Seed(e, sqrt);
      && Inv(r)
      && StanceOf(r) == StanceApex(e) && SteppingOf(r) == SteppingApex(e)
      && 0.0 < r.axisLength
      && r.t == 1.0 / 3.0 && r.maxT == 1.0 / 3.0 && r.vitality == 1.0
  {
    DetectCharacterised(w, forward, sqrt);
    var k := ReturnIndexFrom(w, SamePointCheckStart);
    var d := Sub(w[ApexIndex(w, k)], w[0]);
    LengthSqZero(d);
    SeedAtOneThird(Detect(w, forward, sqrt).value, d, sqrt);
  }

  /**
   * The switch of feet as written remembers the peak at the position relative to
   * the new stance apex instead of the position itself, so the tracker it leaves
   * satisfies Inv only in the coincidence that the stance apex is at right angles
   * to the axis, as seen from the origin of the floor.
   */
  lemma ReseedAsWrittenMisplacesPeak(s: TrackerState, p: Vec2, sqrt: real -> real)
    requires IsSqrt(sqrt)
    ensures var r := ReseedAsWritten(s, p, sqrt);
      && r.maxTPosition == Sub(p, StanceOf(r))
      && (r.axisLength != 0.0 ==> (Inv(r) <==> Dot(StanceOf(r), r.axis) == 0.0))
      && r == Reseed(s, p, sqrt).(maxTPosition := r.maxTPosition)
  {
    var left := if s.steppingLeft then s.maxTPosition else s.leftApex;
    var right := if s.steppingLeft then s.rightApex else s.maxTPosition;
    var seeded := s.(currentPosition := p, leftApex := left, rightApex := right);
    ResetEstablishesInv(seeded, left, right, p, !s.steppingLeft, sqrt);
    var c := Reset(seeded, left, right, p, !s.steppingLeft, sqrt);
    if c.axisLength != 0.0 {
      ScratchPeak(c);
    }
  }

  /**
   * A tracker whose peak is where t is, with maxTPosition replaced by the scratch
   * vector: Inv then holds exactly when the stance apex is at right angles to the axis.
   */
  lemma ScratchPeak(c: TrackerState)
    requires Inv(c) && c.axisLength != 0.0 && c.maxT == c.t
    ensures Inv(c.(maxTPosition := c.currentPosition)) <==> Dot(StanceOf(c), c.axis) == 0.0
  {
    PeakMoved(c, c.currentPosition);
    ProgressOfShifted(c, c.currentPosition);
  }

  /** Moving the remembered peak of a tracker satisfying Inv keeps Inv exactly when maxT is the progress there. */
  lemma PeakMoved(c: TrackerState, q: Vec2)
    requires Inv(c)
    ensures Inv(c.(maxTPosition := q)) <==> c.maxT == Progress(c, q)
  {
  }

  /**
   * A position read as relative to the stance apex and as absolute have the same
   * progress exactly when the stance apex is at right angles to the axis.
   */
  lemma ProgressOfShifted(c: TrackerState, v: Vec2)
    requires c.axisLength != 0.0
    ensures ProgressOf(c, v) == Progress(c, v) <==> Dot(StanceOf(c), c.axis) == 0.0
  {
    ProgressTimesSq(c, v);
    ProgressTimesSq(c, Sub(v, StanceOf(c)));
    SqPos(c.axisLength);
    assert Dot(Sub(v, StanceOf(c)), c.axis) == Dot(v, c.axis) - Dot(StanceOf(c), c.axis);
  }

  /**
   * The switch of feet keeps Inv and remembers the peak at the position itself.
   * The stepping foot is taken to have landed at the old peak and becomes the
   * stance foot; the old stance apex becomes the apex of the foot that steps next.
   */
  lemma ReseedKeepsPeak(s: TrackerState, p: Vec2, sqrt: real -> real)
    requires IsSqrt(sqrt)
    ensures var r := Reseed(s, p, sqrt);
      && Inv(r) && r.maxTPosition == p
      && r.steppingLeft == !s.steppingLeft
      && StanceOf(r) == s.maxTPosition && SteppingOf(r) == StanceOf(s)
  {
    var left := if s.steppingLeft then s.maxTPosition else s.leftApex;
    var right := if s.steppingLeft then s.rightApex else s.maxTPosition;
    ResetEstablishesInv(s.(currentPosition := p, leftApex := left, rightApex := right), left, right, p, !s.steppingLeft, sqrt);
  }

  /** n updates with the head kept at p, stopping at the first that kills the tracker. */
  function Stand(s: TrackerState, p: Vec2, n: nat, sqrt: real -> real): Outcome
    decreases n
  {
    if n == 0 then Outcome(s, true, [])
    else
      var r := Track(s, p, sqrt);
      if !r.alive then r
      else
        var rest := Stand(r.state, p, n - 1, sqrt);
        Outcome(rest.state, rest.alive, r.events + rest.events)
  }

  /** VitalityDecayFactor^n */
  function Decay(n: nat): (r: real)
    ensures 0.0 < r
  {
    if n == 0 then 1.0 else VitalityDecayFactor * Decay(n - 1)
  }

  /**
   * A tracker whose head is at p, where t is, and not far enough back from the
   * peak to switch feet.
   */
  ghost predicate StandingAt(s: TrackerState, p: Vec2) {
    Inv(s) && s.t == Progress(s, p) && ReseedFraction * s.maxT <= s.t && 0.0 <= s.vitality
  }

  lemma MulMono(a: real, b: real, c: real)
    requires 0.0 <= a && b <= c
    ensures a * b <= a * c
  {
    assert a * c - a * b == a * (c - b);
  }

  /** Decay only decreases with the number of updates. */
  lemma {:induction false} DecayMono(a: nat, b: nat)
    requires a <= b
    ensures Decay(b) <= Decay(a)
    decreases b
  {
    if a < b {
      DecayMono(a, b - 1);
    }
  }

  /** 0.95^45 is just under the threshold 0.1 (0.95^44 is just over). */
  lemma DecayOf45()
    ensures Decay(45) < VitalityThreshold
  {
    assert Decay(15) < 0.4633;
    assert Decay(30) < 0.2147;
  }

  /**
   * An update with the head where it was reports nothing, keeps t, the peak and
   * the feet, and at least takes 5% off the vitality; a tracker that survives it
   * is still standing at p.
   */
  lemma StandingStillFades(s: TrackerState, p: Vec2, sqrt: real -> real)
    requires StandingAt(s, p)
    ensures var r := Track(s, p, sqrt);
      && r.events == []
      && (r.alive ==> StandingAt(r.state, p) && VitalityThreshold <= r.state.vitality <= s.vitality * VitalityDecayFactor)
      && (r.alive ==>
            && r.state.t == s.t && r.state.maxT == s.maxT && r.state.maxTPosition == s.maxTPosition
            && r.state.leftApex == s.leftApex && r.state.rightApex == s.rightApex
            && r.state.steppingLeft == s.steppingLeft)
  {
    TrackLiveness(s, p, sqrt);
    if s.vitality >= VitalityThreshold {
      PeakedKeepsInv(s, p);
      var advanced := Advance(s, p);
      var f := VitalityFactor(Deviation(s, Sub(p, StanceOf(s))), s.t, advanced.t);
      assert f <= VitalityDecayFactor;
      MulMono(s.vitality, f, VitalityDecayFactor);
      var r := Track(s, p, sqrt);
      if r.alive {
        calc {
          r.state.vitality;
        ==
          advanced.vitality;
        ==
          s.vitality * f;
        <=
          s.vitality * VitalityDecayFactor;
        }
      }
    }
  }

  /** v * 0.95^n, as n multiplications by the decay factor. */
  function Decayed(v: real, n: nat): real
    decreases n
  {
    if n == 0 then v else VitalityDecayFactor * Decayed(v, n - 1)
  }

  lemma {:induction false} DecayedIsScaled(v: real, n: nat)
    ensures Decayed(v, n) == v * Decay(n)
    decreases n
  {
    if 0 < n {
      DecayedIsScaled(v, n - 1);
    }
  }

  lemma {:induction false} DecayedMono(a: real, b: real, n: nat)
    requires a <= b
    ensures Decayed(a, n) <= Decayed(b, n)
    decreases n
  {
    if 0 < n {
      DecayedMono(a, b, n - 1);
    }
  }

  /** Decaying once and then n - 1 more times is decaying n times. */
  lemma {:induction false} DecayedFirst(v: real, n: nat)
    requires 0 < n
    ensures Decayed(VitalityDecayFactor * v, n - 1) == Decayed(v, n)
    decreases n
  {
    if 1 < n {
      DecayedFirst(v, n - 1);
    }
  }

  /**
   * Standing still drains the tracker: after n updates at p it reports
   * nothing, and if it is still alive its vitality is at most the old one
   * decayed n times, and at least the threshold.
   */
  lemma {:induction false} StandingStillDrains(s: TrackerState, p: Vec2, n: nat, sqrt: real -> real)
    requires StandingAt(s, p)
    ensures var o := Stand(s, p, n, sqrt);
      && o.events == []
      && (o.alive ==> o.state.vitality <= Decayed(s.vitality, n))
      && (o.alive && 0 < n ==> VitalityThreshold <= o.state.vitality)
    decreases n
  {
    if n > 0 {
      StandingStillFades(s, p, sqrt);
      var r := Track(s, p, sqrt);
      if r.alive {
        StandingStillDrains(r.state, p, n - 1, sqrt);
        DecayedMono(r.state.vitality, VitalityDecayFactor * s.vitality, n - 1);
        DecayedFirst(s.vitality, n);
      }
    }
  }

  /**
   * Standing still kills the tracker: after n updates at p it reports nothing,
   * and if it is still alive its vitality is at most 0.95^n of what it was, and
   * at least the threshold.
   */
  lemma StandingStillDies(s: TrackerState, p: Vec2, n: nat, sqrt: real -> real)
    requires StandingAt(s, p)
    ensures var o := Stand(s, p, n, sqrt);
      && o.events == []
      && (o.alive ==> o.state.vitality <= s.vitality * Decay(n))
      && (o.alive && 0 < n ==> VitalityThreshold <= o.state.vitality)
  {
    var o := Stand(s, p, n, sqrt);
    assert && o.events == []
           && (o.alive ==> o.state.vitality <= Decayed(s.vitality, n))
           && (o.alive && 0 < n ==> VitalityThreshold <= o.state.vitality) by {
      StandingStillDrains(s, p, n, sqrt);
    }
    DecayedBound(o, s.vitality, n);
  }

  /** A live outcome's bound of v decayed n times is the bound v * 0.95^n. */
  lemma DecayedBound(o: Outcome, v: real, n: nat)
    requires o.alive ==> o.state.vitality <= Decayed(v, n)
    ensures o.alive ==> o.state.vitality <= v * Decay(n)
  {
    DecayedIsScaled(v, n);
  }

  /**
   * A tracker with at most full vitality whose head stands still, such as one
   * just seeded or just switched, is dead after 45 updates.
   */
  lemma StandingStillDiesWithin45(s: TrackerState, p: Vec2, n: nat, sqrt: real -> real)
    requires StandingAt(s, p) && s.vitality <= 1.0 && 45 <= n
    ensures !Stand(s, p, n, sqrt).alive
  {
    var o := Stand(s, p, n, sqrt);
    assert Decay(n) < VitalityThreshold by {
      DecayMono(45, n);
      DecayOf45();
    }
    assert o.alive ==> o.state.vitality <= Decay(n) && VitalityThreshold <= o.state.vitality by {
      StandingStillDrains(s, p, n, sqrt);
      DecayedMono(s.vitality, 1.0, n);
      DecayedIsScaled(1.0, n);
    }
  }

  /*
   * A worked instance of the switch as written: a tracker stepping right from
   * (0,0) towards (1,0) whose head has gone out to (2,0) comes back to (1,0).
   */

  function TurningBack(): TrackerState {
    TrackerState(Vec2(0.0, 0.0), Vec2(1.0, 0.0), Vec2(2.0, 0.0), Vec2(1.0, 0.0), 1.0, Vec2(0.0, -1.0),
                 false, 2.0, 2.0, Vec2(2.0, 0.0), 1.0)
  }

  lemma TurningBackAxis(s: TrackerState)
    requires s == TurningBack()
    ensures Sq(s.axisLength) == LengthSq(s.axis)
  {
  }

  lemma TurningBackShape(s: TrackerState)
    requires s == TurningBack()
    ensures 0.0 <= s.axisLength && s.t <= s.maxT
    ensures s.axis == Sub(SteppingOf(s), StanceOf(s))
    ensures s.forward == Scale(RightPerp(Sub(s.rightApex, s.leftApex)), 1.0 / s.axisLength)
  {
  }

  lemma TurningBackPeak(s: TrackerState)
    requires s == TurningBack()
    ensures s.t == ProgressOf(s, s.currentPosition) && s.maxT == Progress(s, s.maxTPosition)
  {
    assert s.currentPosition == Vec2(2.0, 0.0) && Sub(s.maxTPosition, StanceOf(s)) == Vec2(2.0, 0.0);
    ProgressTimesSq(s, Vec2(2.0, 0.0));
  }

  /** The update at (1,0) takes t down to 1 and the vitality to 0.95, under 95% of the peak 2. */
  lemma TurningBackComesBack(s: TrackerState, p: Vec2)
    requires s == TurningBack() && p == Vec2(1.0, 0.0)
    ensures Peaked(s, p) == s.(currentPosition := p, t := 1.0, vitality := 0.95)
  {
    ProgressTimesSq(s, Sub(p, StanceOf(s)));
    assert Deviation(s, Sub(p, StanceOf(s))) == 0.0;
  }

  lemma TurningBackValid(s: TrackerState)
    requires s == TurningBack()
    ensures Inv(s)
  {
    TurningBackAxis(s);
    TurningBackShape(s);
    TurningBackPeak(s);
  }

  /** In TurningBack the update at (1,0) keeps the tracker alive and switches feet. */
  lemma TurningBackSwitches(s: TrackerState, p: Vec2)
    requires s == TurningBack() && p == Vec2(1.0, 0.0)
    ensures var peaked := Peaked(s, p);
      s.vitality >= VitalityThreshold && peaked.vitality >= VitalityThreshold && peaked.t < ReseedFraction * peaked.maxT
  {
    TurningBackComesBack(s, p);
  }

  /**
   * In TurningBack, after the switch at (1,0), the switch as written remembers
   * the peak at (-1,0) and breaks Inv, where the corrected switch (ReseedKeepsPeak)
   * remembers it at (1,0) and keeps Inv.
   */
  lemma TurningBackLosesPeak(s: TrackerState, p: Vec2, sqrt: real -> real)
    requires s == TurningBack() && p == Vec2(1.0, 0.0) && IsSqrt(sqrt)
    ensures var w := ReseedAsWritten(Peaked(s, p), p, sqrt);
      w.maxTPosition == Vec2(-1.0, 0.0) && !Inv(w)
  {
    TurningBackComesBack(s, p);
    LosesPeakAt(Peaked(s, p), p, sqrt);
  }

  /**
   * A tracker stepping right from (0,0) with its peak at (2,0) that switches at
   * (1,0): as written, the peak is remembered at (-1,0) and Inv breaks.
   */
  lemma LosesPeakAt(q: TrackerState, p: Vec2, sqrt: real -> real)
    requires !q.steppingLeft && q.leftApex == Zero && q.maxTPosition == Vec2(2.0, 0.0)
    requires p == Vec2(1.0, 0.0) && IsSqrt(sqrt)
    ensures var w := ReseedAsWritten(q, p, sqrt);
      w.maxTPosition == Vec2(-1.0, 0.0) && !Inv(w)
  {
    var w := ReseedAsWritten(q, p, sqrt);
    assert StanceOf(w) == Vec2(2.0, 0.0) && w.axis == Vec2(-2.0, 0.0) && w.axisLength != 0.0 by {
      var c := Reseed(q, p, sqrt);
      ReseedKeepsPeak(q, p, sqrt);
      ReseedAsWrittenMisplacesPeak(q, p, sqrt);
      assert LengthSq(c.axis) == 4.0;
      SqZero(c.axisLength);
    }
    assert Dot(StanceOf(w), w.axis) == -4.0;
    assert !Inv(w) by {
      ReseedAsWrittenMisplacesPeak(q, p, sqrt);
    }
  }

  /**
   * The tracker object: its fields are those of TrackerState, updated in place.
   * Every method is proved to leave the fields as the matching function says.
   */
  class WalkingTracker {
    var leftApex: Vec2
    var rightApex: Vec2
    var currentPosition: Vec2
    var axis: Vec2
    var axisLength: real
    var forward: Vec2
    var steppingLeft: bool
    var t: real
    var maxT: real
    var maxTPosition: Vec2
    var vitality: real
    /** Math.sqrt */
    const sqrt: real -> real

    ghost function State(): TrackerState
      reads this
    {
      TrackerState(leftApex, rightApex, currentPosition, axis, axisLength, forward, steppingLeft, t, maxT, maxTPosition, vitality)
    }

    ghost predicate Valid()
      reads this
    {
      IsSqrt(sqrt) && Inv(State())
    }

    /** A tracker seeded from the apices, the position and the stepping foot of a detected step. */
    constructor (left: Vec2, right: Vec2, position: Vec2, steppingFoot: Foot, sqrt: real -> real)
      requires IsSqrt(sqrt)
      ensures Valid() && this.sqrt == sqrt
      ensures State() == Reset(Unset(), left, right, position, steppingFoot == Left, sqrt)
    {
      this.sqrt := sqrt;
      leftApex, rightApex, currentPosition, axis := Zero, Zero, Zero, Zero;
      axisLength, forward, steppingLeft := -1.0, Zero, false;
      t, maxT, maxTPosition, vitality := -1.0, -1.0, Zero, 0.0;
      new;
      ResetTo(left, right, position, steppingFoot == Left);
      ResetEstablishesInv(Unset(), left, right, position, steppingFoot == Left, sqrt);
    }

    /** _reset */
    method ResetTo(left: Vec2, right: Vec2, position: Vec2, stepLeft: bool)
      modifies this
      ensures State() == Reset(old(State()), left, right, position, stepLeft, sqrt)
    {
      Align(left, right, stepLeft);
      UpdateTAndVitality(position);
      maxT := t;
      maxTPosition := position;
      vitality := 1.0;
    }

    /** The first part of _reset: apices, foot, axis, axis length and forward. */
    method Align(left: Vec2, right: Vec2, stepLeft: bool)
      modifies this
      ensures State() == Aligned(old(State()), left, right, stepLeft, sqrt)
    {
      leftApex := left;
      rightApex := right;
      steppingLeft := stepLeft;
      if steppingLeft {
        axis := Sub(leftApex, rightApex);
        forward := Vec2(-axis.y, axis.x);
      } else {
        axis := Sub(rightApex, leftApex);
        forward := Vec2(axis.y, -axis.x);
      }
      axisLength := sqrt(LengthSq(axis));
      forward := if axisLength == 0.0 then Zero else Scale(forward, 1.0 / axisLength);
    }

    /** _updateTAndVitality */
    method UpdateTAndVitality(position: Vec2)
      modifies this
      ensures State() == Advance(old(State()), position)
    {
      var rel := if steppingLeft then Sub(position, rightApex) else Sub(position, leftApex);
      var priorT := t;
      var dot := Dot(rel, axis);
      var newT, deviation := 0.0, 0.0;
      if axisLength != 0.0 {
        SqPos(axisLength);
        newT := dot / Sq(axisLength);
        deviation := LengthSq(rel) - Sq(dot / axisLength);
      }
      var factor := VitalityDecayFactor - DeviationPenalty * Max(deviation - DeviationTolerance, 0.0) + Max(newT - priorT, 0.0);
      currentPosition, t, vitality := rel, newT, vitality * factor;
    }

    /** The first half of update: the position is taken and the peak raised to it when t passes it. */
    method TakePosition(position: Vec2)
      modifies this
      ensures State() == Peaked(old(State()), position)
    {
      UpdateTAndVitality(position);
      if t > maxT {
        maxT := t;
        maxTPosition := position;
      }
    }

    /**
     * The switch of feet at the end of update, when t has fallen under 95% of its
     * peak. It hands _reset the position itself, as Reseed does.
     */
    method SwitchIfTurnedBack(position: Vec2)
      modifies this
      ensures old(t) < ReseedFraction * old(maxT) ==> State() == Reseed(old(State()), position, sqrt)
      ensures ReseedFraction * old(maxT) <= old(t) ==> State() == old(State())
    {
      if t < ReseedFraction * maxT {
        currentPosition := position;
        if steppingLeft {
          leftApex := maxTPosition;
        } else {
          rightApex := maxTPosition;
        }
        ResetTo(leftApex, rightApex, currentPosition, !steppingLeft);
      }
    }

    /** update: takes a position and returns whether the tracker lives on and the events it reported, in order. */
    method Update(position: Vec2) returns (alive: bool, events: seq<TrackerEvent>)
      requires Valid()
      modifies this
      ensures Valid()
      ensures Track(old(State()), position, sqrt) == Outcome(State(), alive, events)
    {
      ghost var before := State();
      TrackKeepsInv(before, position, sqrt);
      if vitality < VitalityThreshold {
        return false, [];
      }
      var priorT := t;
      TakePosition(position);
      ghost var peaked := State();
      if vitality < VitalityThreshold {
        return false, [];
      }
      events := [];
      if t > priorT {
        events := events + [Movement(t - priorT)];
        if priorT < FootfallProgress && t >= FootfallProgress {
          events := events + [Footfall(FootOf(steppingLeft))];
        }
      }
      assert events == Reported(before.t, peaked.t, peaked.steppingLeft);
      SwitchIfTurnedBack(position);
      alive := !(axisLength < MinimumAxisLength);
    }

    /** The forward getter: a unit vector at right angles to the axis, or zero for a zero axis. */
    function Forward(): (f: Vec2)
      requires Valid()
      reads this
      ensures axisLength != 0.0 ==> Dot(f, axis) == 0.0 && LengthSq(f) == 1.0
      ensures axisLength == 0.0 ==> f == Zero
    {
      if axisLength != 0.0 then ForwardIsUnitNormal(State()); forward else forward
    }
  }
}
