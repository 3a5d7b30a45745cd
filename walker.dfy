/**
 * The walker: one first-step detector and at most one walking tracker. Each
 * frame it feeds the head position to both, turns the tracker's progress into a
 * displacement along the tracker's forward direction, moves the camera by the
 * displacement and lets the displacement decay.
 *
 * Positions, the forward direction and the camera are given by their horizontal
 * (x, z) components.
 */
module Locomotion {
  import opened Geometry
  import opened Wrappers
  import opened StepDetection
  import opened GaitTracking

  /** Displacement per unit of progress along the axis. */
  const StrideScale: real := 0.024
  /** The factor the displacement is multiplied by after each frame. */
  const MovementDecay: real := 0.96

  /** The displacement after one tracker event: progress moves it along forward, a footfall does not. */
  function Moved(movement: Vec2, forward: Vec2, e: TrackerEvent): Vec2 {
    match e
    case Movement(deltaT) => Add(movement, Scale(forward, StrideScale * deltaT))
    case Footfall(_) => movement
  }

  /** Events that report no progress: footfalls only. */
  ghost predicate FootfallsOnly(events: seq<TrackerEvent>) {
    forall i :: 0 <= i < |events| ==> events[i].Footfall?
  }

  /** The displacement after the events of one update, handled in order. */
  function Accumulate(movement: Vec2, forward: Vec2, events: seq<TrackerEvent>): (r: Vec2)
    ensures FootfallsOnly(events) ==> r == movement
    decreases |events|
  {
    if events == [] then movement
    else
      assert FootfallsOnly(events) ==> FootfallsOnly(events[..|events| - 1]);
      Moved(Accumulate(movement, forward, events[..|events| - 1]), forward, events[|events| - 1])
  }

  /** The progress reported by a run of events: the sum of their Movement deltas. */
  function Progressed(events: seq<TrackerEvent>): real
    decreases |events|
  {
    if events == [] then 0.0
    else
      var last := events[|events| - 1];
      Progressed(events[..|events| - 1]) + (if last.Movement? then last.deltaT else 0.0)
  }

  /** Handling the events adds forward scaled by 0.024 times the progress they report. */
  lemma {:induction false} AccumulateIsScaledProgress(movement: Vec2, forward: Vec2, events: seq<TrackerEvent>)
    ensures Accumulate(movement, forward, events) == Add(movement, Scale(forward, StrideScale * Progressed(events)))
    decreases |events|
  {
    if events != [] {
      var front := events[..|events| - 1];
      var last := events[|events| - 1];
      var a := StrideScale * Progressed(front);
      var b := if last.Movement? then StrideScale * last.deltaT else 0.0;
      assert Accumulate(movement, forward, front) == Add(movement, Scale(forward, a)) by {
        AccumulateIsScaledProgress(movement, forward, front);
      }
      assert Accumulate(movement, forward, events) == Add(Add(movement, Scale(forward, a)), Scale(forward, b));
      assert StrideScale * Progressed(events) == a + b;
      assert Add(Add(movement, Scale(forward, a)), Scale(forward, b)) == Add(movement, Scale(forward, a + b));
    }
  }

  /** The detector's state, the tracker's state when there is one, and the displacement. */
  datatype WalkerState = WalkerState(detector: DetectorState, tracker: Option<TrackerState>, movement: Vec2)

  /** A new walker: a new detector, no tracker, no displacement. */
  function InitialWalker(): WalkerState {
    WalkerState(InitialDetector(), None, Zero)
  }

  /** forward with its vertical part dropped, normalised as Vector3.normalize does. */
  function Level(forward: Vec2, sqrt: real -> real): Vec2 {
    Normalized(forward, sqrt(LengthSq(forward)))
  }

  /**
   * The tracker after the detector's report: a reported step seeds one only when
   * there is none.
   */
  function Adopt(tracker: Option<TrackerState>, step: Option<StepEvent>, sqrt: real -> real): Option<TrackerState> {
    if tracker.None? && step.Some? then Some(Seed(step.value, sqrt)) else tracker
  }

  /**
   * The first half of a frame: the detector takes the position, and a step it
   * reports seeds a tracker when there is none.
   */
  function Noticed(w: WalkerState, position: Vec2, forward: Vec2, sqrt: real -> real): (r: WalkerState)
    requires |w.detector.window| == WindowLength
    ensures |r.detector.window| == WindowLength
    ensures r.detector == Observed(w.detector, position, sqrt)
    ensures w.tracker.Some? ==> r.tracker == w.tracker
    ensures r.movement == w.movement
  {
    var detector := Observed(w.detector, position, sqrt);
    var step := Emitted(detector, Level(forward, sqrt), sqrt);
    WalkerState(detector, Adopt(w.tracker, step, sqrt), w.movement)
  }

  /**
   * The second half of a frame: the tracker, if any, takes the position; its
   * events move the displacement along the forward direction it had before the
   * update, and it is dropped when the update kills it.
   */
  function Followed(w: WalkerState, position: Vec2, sqrt: real -> real): (r: WalkerState)
    ensures r.detector == w.detector
    ensures w.tracker.None? ==> r == w
    ensures r.tracker.Some? ==> w.tracker.Some?
  {
    match w.tracker
    case None => w
    case Some(s) =>
      var o := Track(s, position, sqrt);
      WalkerState(w.detector, if o.alive then Some(o.state) else None, Accumulate(w.movement, s.forward, o.events))
  }

  /** One frame of the walker: the new state and the new camera position. */
  function WalkerStep(w: WalkerState, position: Vec2, forward: Vec2, camera: Vec2, sqrt: real -> real): (r: (WalkerState, Vec2))
    requires |w.detector.window| == WindowLength
    ensures r.0.detector == Observed(w.detector, position, sqrt)
    ensures r.0.movement == Scale(Sub(r.1, camera), MovementDecay)
  {
    var f := Followed(Noticed(w, position, forward, sqrt), position, sqrt);
    (f.(movement := Scale(f.movement, MovementDecay)), Add(camera, f.movement))
  }

  /** The progress an update of s at p gains: t minus its old value while the tracker lives and t grows. */
  function Gain(s: TrackerState, p: Vec2): real {
    if s.vitality >= VitalityThreshold && Advance(s, p).vitality >= VitalityThreshold && Progress(s, p) > s.t
    then Progress(s, p) - s.t
    else 0.0
  }

  /** The progress Reported events add up to. */
  lemma ProgressedReported(priorT: real, t: real, steppingLeft: bool)
    ensures Progressed(Reported(priorT, t, steppingLeft)) == if t > priorT then t - priorT else 0.0
  {
    var events := Reported(priorT, t, steppingLeft);
    if t > priorT {
      assert Progressed([Movement(t - priorT)]) == t - priorT by {
        assert [Movement(t - priorT)][..0] == [];
      }
      if |events| == 2 {
        assert events[..1] == [Movement(t - priorT)];
      }
    }
  }

  /** The progress reported by an update is what it gains. */
  lemma TrackProgress(s: TrackerState, p: Vec2, sqrt: real -> real)
    ensures Progressed(Track(s, p, sqrt).events) == Gain(s, p)
  {
    if s.vitality >= VitalityThreshold {
      var peaked := Peaked(s, p);
      ProgressedReported(s.t, peaked.t, peaked.steppingLeft);
    }
  }

  /**
   * The tracker's lifecycle: an existing tracker is updated and kept while its
   * update says it lives, and dropped otherwise; a step seen by the detector
   * never replaces it. Without a tracker, one is seeded from a reported step and
   * updated in the same frame.
   */
  lemma WalkerTrackerLifecycle(w: WalkerState, position: Vec2, forward: Vec2, camera: Vec2, sqrt: real -> real)
    requires |w.detector.window| == WindowLength
    ensures var r := WalkerStep(w, position, forward, camera, sqrt).0;
      var step := Emitted(Observed(w.detector, position, sqrt), Level(forward, sqrt), sqrt);
      && (w.tracker.Some? ==>
            var o := Track(w.tracker.value, position, sqrt);
            r.tracker == if o.alive then Some(o.state) else None)
      && (w.tracker.None? && step.None? ==> r.tracker == None)
      && (w.tracker.None? && step.Some? ==>
            var o := Track(Seed(step.value, sqrt), position, sqrt);
            r.tracker == if o.alive then Some(o.state) else None)
  {
  }

  /**
   * The camera moves by the displacement, which the frame changes only by
   * 0.024 times the progress the tracker gains, along the tracker's forward
   * direction; the gain is never negative. The displacement kept for the next
   * frame is 0.96 of the one applied.
   */
  lemma WalkerMovesAlongForward(w: WalkerState, position: Vec2, forward: Vec2, camera: Vec2, sqrt: real -> real)
    requires |w.detector.window| == WindowLength
    ensures var (r, camera') := WalkerStep(w, position, forward, camera, sqrt);
      var tracker := Noticed(w, position, forward, sqrt).tracker;
      var gain := if tracker.Some? then Gain(tracker.value, position) else 0.0;
      var heading := if tracker.Some? then tracker.value.forward else Zero;
      && 0.0 <= gain
      && camera' == Add(camera, Add(w.movement, Scale(heading, StrideScale * gain)))
      && r.movement == Scale(Sub(camera', camera), MovementDecay)
  {
    var n := Noticed(w, position, forward, sqrt);
    var camera' := WalkerStep(w, position, forward, camera, sqrt).1;
    if n.tracker.Some? {
      var s := n.tracker.value;
      var o := Track(s, position, sqrt);
      AccumulateIsScaledProgress(w.movement, s.forward, o.events);
      TrackProgress(s, position, sqrt);
      assert Sub(camera', camera) == Add(w.movement, Scale(s.forward, StrideScale * Gain(s, position)));
    } else {
      assert Add(w.movement, Scale(Zero, StrideScale * 0.0)) == w.movement;
      assert Sub(camera', camera) == w.movement;
    }
  }

  class Walker {
    const detector: FirstStepDetector
    var tracker: WalkingTracker?
    var movement: Vec2
    /** Math.sqrt */
    const sqrt: real -> real

    ghost predicate Valid()
      reads this, detector, detector.samples, detector.samples.slots, tracker
    {
      && IsSqrt(sqrt)
      && detector.Valid() && detector.sqrt == sqrt
      && (tracker != null ==> tracker.Valid() && tracker.sqrt == sqrt)
    }

    ghost function State(): WalkerState
      reads this, detector, detector.samples, tracker
    {
      WalkerState(detector.State(), if tracker == null then None else Some(tracker.State()), movement)
    }

    constructor (sqrt: real -> real)
      requires IsSqrt(sqrt)
      ensures Valid() && State() == InitialWalker() && this.sqrt == sqrt
    {
      detector := new FirstStepDetector(sqrt);
      tracker := null;
      movement := Zero;
      this.sqrt := sqrt;
    }

    /** The handler of the detector's step event: seeds a tracker only when there is none. */
    method OnFirstStep(e: StepEvent)
      requires Valid()
      modifies this
      ensures Valid()
      ensures old(tracker) != null ==> tracker == old(tracker)
      ensures old(tracker) == null ==> tracker != null && fresh(tracker) && tracker.State() == Seed(e, sqrt)
      ensures movement == old(movement)
    {
      if tracker == null {
        tracker := new WalkingTracker(e.leftApex, e.rightApex, e.currentPosition, e.steppingFoot, sqrt);
      }
    }

    /** The handler of the tracker's events: each Movement adds forward times 0.024 times its delta. */
    method OnTrackerEvents(forward: Vec2, events: seq<TrackerEvent>)
      modifies this
      ensures movement == Accumulate(old(movement), forward, events)
      ensures tracker == old(tracker)
    {
      var i := 0;
      while i < |events|
        invariant i <= |events|
        invariant movement == Accumulate(old(movement), forward, events[..i])
        invariant tracker == old(tracker)
      {
        assert events[..i + 1][..i] == events[..i];
        match events[i] {
          case Movement(deltaT) =>
            movement := Add(movement, Scale(forward, StrideScale * deltaT));
          case Footfall(_) =>
        }
        i := i + 1;
      }
      assert events[..|events|] == events;
    }

    /**
     * The first half of update: the detector takes the position and the levelled
     * forward direction, and its step event reaches OnFirstStep.
     */
    method Notice(position: Vec2, forward: Vec2)
      requires Valid()
      modifies this, detector, detector.samples, detector.samples.slots
      ensures Valid()
      ensures State() == Noticed(old(State()), position, forward, sqrt)
      ensures old(tracker) != null ==> tracker == old(tracker)
      ensures tracker != null && tracker != old(tracker) ==> fresh(tracker)
    {
      var level := Normalized(forward, sqrt(LengthSq(forward)));
      var step := detector.Update(position, level);
      if step.Some? {
        OnFirstStep(step.value);
      }
    }

    /** The second half of update: the tracker, if any, takes the position and its events reach OnTrackerEvents. */
    method Follow(position: Vec2)
      requires Valid()
      modifies this, tracker
      ensures Valid()
      ensures State() == Followed(old(State()), position, sqrt)
    {
      if tracker != null {
        var trackerForward := tracker.Forward();
        var alive, events := tracker.Update(position);
        OnTrackerEvents(trackerForward, events);
        if !alive {
          tracker := null;
        }
      }
    }

    /**
     * update: one frame with the head position, the camera's forward direction
     * and the camera position; returns the new camera position.
     */
    method Update(position: Vec2, forward: Vec2, camera: Vec2) returns (camera': Vec2)
      requires Valid()
      modifies this, detector, detector.samples, detector.samples.slots, tracker
      ensures Valid()
      ensures (State(), camera') == WalkerStep(old(State()), position, forward, camera, sqrt)
    {
      Notice(position, forward);
      Follow(position);
      camera' := Add(camera, movement);
      movement := Scale(movement, MovementDecay);
    }
  }
}
