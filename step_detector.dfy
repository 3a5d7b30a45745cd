/**
 * Detection of the first step of a walk in place. The detector keeps the last
 * sixty horizontal head positions and emits a step once the head has gone out
 * along a straight line and come back to where it is now.
 */
module StepDetection {
  import opened Geometry
  import opened Wrappers
  import opened SampleBuffer

  /** The number of samples the detector keeps. */
  const WindowLength: nat := 60
  /** The first offset checked for a return to the newest sample: a third of the window. */
  const SamePointCheckStart: nat := WindowLength / 3
  const SamePointSquaredDistanceThreshold: real := 0.03 * 0.03
  const ApexSquaredDistanceThreshold: real := 0.09 * 0.09
  const SquaredProjectionDistanceThreshold: real := 0.03 * 0.03
  const AxisToApexShrinkFactor: real := 0.8
  const AxisToApexExtendFactor: real := -1.6
  const EntropyDecayFactor: real := 0.98
  const EntropyThreshold: real := 0.25

  datatype Foot = Left | Right

  /** What a detected step reports: both apices, the newest sample and the foot that steps. */
  datatype StepEvent = StepEvent(leftApex: Vec2, rightApex: Vec2, currentPosition: Vec2, steppingFoot: Foot)

  /** The apex of the stepping foot. */
  function SteppingApex(e: StepEvent): Vec2 {
    if e.steppingFoot == Left then e.leftApex else e.rightApex
  }

  /** The apex of the foot that stays put. */
  function StanceApex(e: StepEvent): Vec2 {
    if e.steppingFoot == Left then e.rightApex else e.leftApex
  }

  /** Whether a sample lies close enough to the newest one to count as a return to it. */
  predicate IsNear(origin: Vec2, sample: Vec2) {
    DistSq(origin, sample) < SamePointSquaredDistanceThreshold
  }

  /**
   * The first offset at or after `from` whose sample is near the newest sample,
   * or the window length if there is none.
   */
  function ReturnIndexFrom(w: seq<Vec2>, from: nat): (k: nat)
    requires 0 < |w| && from <= |w|
    ensures from <= k <= |w|
    ensures k < |w| ==> IsNear(w[0], w[k])
    ensures forall i :: from <= i < k ==> !IsNear(w[0], w[i])
    decreases |w| - from
  {
    if from == |w| then |w|
    else if IsNear(w[0], w[from]) then from
    else ReturnIndexFrom(w, from + 1)
  }

  /**
   * The first offset in [1, k) whose sample is farthest from the newest one:
   * no sample before it is as far, and no sample after it is farther.
   */
  function ApexIndex(w: seq<Vec2>, k: nat): (a: nat)
    requires 1 < k <= |w|
    ensures 1 <= a < k
    ensures forall i :: 1 <= i < k ==> DistSq(w[0], w[i]) <= DistSq(w[0], w[a])
    ensures forall i :: 1 <= i < a ==> DistSq(w[0], w[i]) < DistSq(w[0], w[a])
  {
    if k == 2 then 1
    else
      var a := ApexIndex(w, k - 1);
      if DistSq(w[0], w[k - 1]) > DistSq(w[0], w[a]) then k - 1 else a
  }

  /**
   * The sum, over the offsets in [1, k), of the squared distance of each sample
   * from the line through the newest sample along the unit vector axis.
   */
  function ProjectionSum(w: seq<Vec2>, axis: Vec2, k: nat): real
    requires 0 < |w| && k <= |w|
  {
    if k <= 1 then 0.0
    else
      var v := Sub(w[k - 1], w[0]);
      ProjectionSum(w, axis, k - 1) + (LengthSq(v) - Sq(Dot(axis, v)))
  }

  /**
   * The same sum stated on the unnormalised axis d: for every sample,
   * |v|^2 - (v.d)^2 / |d|^2 with v the sample relative to the newest one.
   */
  function PerpSum(w: seq<Vec2>, d: Vec2, k: nat): (r: real)
    requires 0 < |w| && k <= |w| && 0.0 < LengthSq(d)
    ensures 0.0 <= r
  {
    if k <= 1 then 0.0
    else
      var v := Sub(w[k - 1], w[0]);
      PerpDistSqIsCross(v, d);
      PerpSum(w, d, k - 1) + PerpDistSq(v, d)
  }

  /** With the axis normalised by its length, the detector's sum is PerpSum. */
  lemma {:induction false} ProjectionSumIsPerpSum(w: seq<Vec2>, d: Vec2, len: real, k: nat)
    requires 0 < |w| && k <= |w|
    requires 0.0 < len && Sq(len) == LengthSq(d)
    ensures 0.0 < LengthSq(d)
    ensures ProjectionSum(w, Normalized(d, len), k) == PerpSum(w, d, k)
  {
    SqPos(len);
    if 1 < k {
      ProjectionSumIsPerpSum(w, d, len, k - 1);
      NormalizedProjection(Sub(w[k - 1], w[0]), d, len);
    }
  }

  /**
   * The event for a detected step: the apex on the side of the excursion is
   * pulled back to 0.8 of it, the other is pushed out to 1.6 of it on the far
   * side, and the foot on the far side is the one that steps.
   */
  function EventFor(origin: Vec2, apex: Vec2, forward: Vec2, axis: Vec2): (e: StepEvent)
    ensures e.currentPosition == origin
    ensures StanceApex(e) == Add(origin, Scale(Sub(apex, origin), AxisToApexShrinkFactor))
    ensures SteppingApex(e) == Add(origin, Scale(Sub(apex, origin), AxisToApexExtendFactor))
    ensures e.steppingFoot == Right <==> CrossZ(forward, axis) > 0.0
  {
    var d := Sub(apex, origin);
    if CrossZ(forward, axis) > 0.0 then
      StepEvent(Add(origin, Scale(d, AxisToApexShrinkFactor)), Add(origin, Scale(d, AxisToApexExtendFactor)), origin, Right)
    else
      StepEvent(Add(origin, Scale(d, AxisToApexExtendFactor)), Add(origin, Scale(d, AxisToApexShrinkFactor)), origin, Left)
  }

  /** The step found in a window that passed the entropy check, if any. */
  function Detect(w: seq<Vec2>, forward: Vec2, sqrt: real -> real): (r: Option<StepEvent>)
    requires |w| == WindowLength
    ensures r.Some? ==> r.value.currentPosition == w[0] && ReturnIndexFrom(w, SamePointCheckStart) < |w|
  {
    var k := ReturnIndexFrom(w, SamePointCheckStart);
    if k == |w| then None
    else
      var a := ApexIndex(w, k);
      if DistSq(w[0], w[a]) < ApexSquaredDistanceThreshold then None
      else
        var d := Sub(w[a], w[0]);
        var axis := Normalized(d, sqrt(LengthSq(d)));
        if ProjectionSum(w, axis, k) > k as real * SquaredProjectionDistanceThreshold then None
        else Some(EventFor(w[0], w[a], forward, axis))
  }

  /** The detector's samples, newest first, and its decaying entropy. */
  datatype DetectorState = DetectorState(window: seq<Vec2>, entropy: real)

  /** The state of a new detector: sixty zero samples and no entropy. */
  function InitialDetector(): DetectorState {
    DetectorState(seq(WindowLength, _ => Zero), 0.0)
  }

  /** The state after one update: the position pushed, the entropy decayed and grown by the last move. */
  function Observed(s: DetectorState, p: Vec2, sqrt: real -> real): (r: DetectorState)
    requires |s.window| == WindowLength
    ensures |r.window| == WindowLength
    ensures r.window[0] == p && r.window[1..] == s.window[..WindowLength - 1]
    ensures r.entropy == s.entropy * EntropyDecayFactor + sqrt(DistSq(p, s.window[0]))
  {
    var w := Shifted(s.window, p);
    DetectorState(w, s.entropy * EntropyDecayFactor + sqrt(DistSq(w[0], w[1])))
  }

  /** The step an updated state reports: none while the entropy is over the threshold. */
  function Emitted(s: DetectorState, forward: Vec2, sqrt: real -> real): (r: Option<StepEvent>)
    requires |s.window| == WindowLength
    ensures s.entropy > EntropyThreshold ==> r == None
    ensures r.Some? ==> r.value.currentPosition == s.window[0]
  {
    if s.entropy > EntropyThreshold then None else Detect(s.window, forward, sqrt)
  }

  /** One update of the detector: the new state and the step it emits, if any. */
  function Observe(s: DetectorState, p: Vec2, forward: Vec2, sqrt: real -> real): (DetectorState, Option<StepEvent>)
    requires |s.window| == WindowLength
  {
    var r := Observed(s, p, sqrt);
    (r, Emitted(r, forward, sqrt))
  }

  /**
   * Detect stated without square roots: a step is found exactly when some offset
   * from the twentieth on returns near the newest sample, the farthest sample
   * before the first such offset is at least 0.09 away, and the samples before it
   * lie close to the line to that apex on average. The event's apices are 0.8 and
   * -1.6 times the excursion from the newest sample, and the right foot steps
   * exactly when the excursion turns left of forward.
   */
  lemma DetectCharacterised(w: seq<Vec2>, forward: Vec2, sqrt: real -> real)
    requires |w| == WindowLength && IsSqrt(sqrt)
    ensures
      var k := ReturnIndexFrom(w, SamePointCheckStart);
      Detect(w, forward, sqrt).Some? <==>
        && k < |w|
        && ApexSquaredDistanceThreshold <= DistSq(w[0], w[ApexIndex(w, k)])
        && PerpSum(w, Sub(w[ApexIndex(w, k)], w[0]), k) <= k as real * SquaredProjectionDistanceThreshold
    ensures
      Detect(w, forward, sqrt).Some? ==>
        var k := ReturnIndexFrom(w, SamePointCheckStart);
        var d := Sub(w[ApexIndex(w, k)], w[0]);
        var e := Detect(w, forward, sqrt).value;
        && e.currentPosition == w[0]
        && StanceApex(e) == Add(w[0], Scale(d, AxisToApexShrinkFactor))
        && SteppingApex(e) == Add(w[0], Scale(d, AxisToApexExtendFactor))
        && (e.steppingFoot == Right <==> CrossZ(forward, d) > 0.0)
  {
    var k := ReturnIndexFrom(w, SamePointCheckStart);
    if k < |w| {
      var a := ApexIndex(w, k);
      if ApexSquaredDistanceThreshold <= DistSq(w[0], w[a]) {
        var d := Sub(w[a], w[0]);
        var len := sqrt(LengthSq(d));
        SqrtOfLengthSq(sqrt, d);
        LengthSqZero(d);
        assert 0.0 < len;
        ProjectionSumIsPerpSum(w, d, len, k);
        CrossSignUnderScaling(forward, d, 1.0 / len);
      }
    }
  }

  /** A window holding one position throughout has no apex far enough away to be a step. */
  lemma StillWindowHasNoStep(w: seq<Vec2>, forward: Vec2, sqrt: real -> real)
    requires |w| == WindowLength && forall i :: 0 <= i < |w| ==> w[i] == w[0]
    ensures Detect(w, forward, sqrt) == None
  {
    assert IsNear(w[0], w[SamePointCheckStart]) by {
      LengthSqZero(Sub(w[SamePointCheckStart], w[0]));
    }
    StillSample(w, ApexIndex(w, ReturnIndexFrom(w, SamePointCheckStart)));
  }

  /** In a window holding one position throughout, every sample is no distance away. */
  lemma StillSample(w: seq<Vec2>, a: nat)
    requires a < |w| && forall i :: 0 <= i < |w| ==> w[i] == w[0]
    ensures DistSq(w[0], w[a]) == 0.0
  {
    assert Sub(w[a], w[0]) == Vec2(0.0, 0.0);
  }

  /** Pushing the position every sample already holds leaves the window, and a zero entropy, as they were. */
  lemma StandingStillKeepsState(s: DetectorState, p: Vec2, sqrt: real -> real)
    requires sqrt(0.0) == 0.0 && |s.window| == WindowLength && s.entropy == 0.0
    requires forall i :: 0 <= i < |s.window| ==> s.window[i] == p
    ensures Observed(s, p, sqrt) == s
  {
    var w := Shifted(s.window, p);
    assert w == s.window;
    assert Sub(w[1], w[0]) == Zero;
  }

  /**
   * A detector whose samples all hold the position it is fed, and which has no
   * entropy, is left exactly as it was and emits nothing: standing still never
   * produces a step.
   */
  lemma StandingStillIsQuiet(s: DetectorState, p: Vec2, forward: Vec2, sqrt: real -> real)
    requires sqrt(0.0) == 0.0 && |s.window| == WindowLength && s.entropy == 0.0
    requires forall i :: 0 <= i < |s.window| ==> s.window[i] == p
    ensures Observe(s, p, forward, sqrt) == (s, None)
  {
    StandingStillKeepsState(s, p, sqrt);
    StillWindowHasNoStep(s.window, forward, sqrt);
  }

  /** Once the decayed entropy alone is over the threshold, no position can produce a step. */
  lemma JitterBlocksSteps(s: DetectorState, p: Vec2, forward: Vec2, sqrt: real -> real)
    requires IsSqrt(sqrt) && |s.window| == WindowLength
    requires s.entropy * EntropyDecayFactor > EntropyThreshold
    ensures Observe(s, p, forward, sqrt).1 == None
    ensures Observe(s, p, forward, sqrt).0.entropy > EntropyThreshold
  {
    var w := Shifted(s.window, p);
    SqrtOf(sqrt, DistSq(w[0], w[1]));
  }

  /** Samples that all sit at d from the newest one lie on the line along d. */
  lemma {:induction false} PerpSumOnAxis(w: seq<Vec2>, d: Vec2, k: nat)
    requires 0 < |w| && k <= |w| && 0.0 < LengthSq(d)
    requires forall i :: 1 <= i < k ==> Sub(w[i], w[0]) == d
    ensures PerpSum(w, d, k) == 0.0
    decreases k
  {
    if 1 < k {
      PerpSumOnAxis(w, d, k - 1);
      PerpDistSqIsCross(d, d);
    }
  }

  /**
   * A window with a clean step in it: the head went 0.1 out along x for the
   * nineteen samples before the twentieth, and is back at the origin from there on.
   */
  function StepWindow(): (w: seq<Vec2>)
    ensures |w| == WindowLength
  {
    seq(WindowLength, i => if 1 <= i < SamePointCheckStart then Vec2(0.1, 0.0) else Zero)
  }

  /** The shape of the window in ExcursionIsAStep. */
  ghost predicate IsExcursion(w: seq<Vec2>) {
    && |w| == WindowLength
    && w[0] == Zero && w[SamePointCheckStart] == Zero
    && forall i :: 1 <= i < SamePointCheckStart ==> SampleAt(w, i) == Vec2(0.1, 0.0)
  }

  /**
   * The sample at offset i. IsExcursion speaks of its samples through this name
   * so that its facts about every offset come into a proof only where asked for.
   */
  ghost function SampleAt(w: seq<Vec2>, i: nat): Vec2
    requires i < |w|
  {
    w[i]
  }

  /** The apex of the samples before offset k is 0.1 out along x, and they all lie on the x axis. */
  ghost predicate ExcursionBefore(w: seq<Vec2>, k: nat)
    requires 0 < |w| && 1 < k <= |w|
  {
    Sub(w[ApexIndex(w, k)], w[0]) == Vec2(0.1, 0.0) && PerpSum(w, Vec2(0.1, 0.0), k) == 0.0
  }

  /** In an excursion each sample before the twentieth sits 0.1 out along x from the newest one. */
  lemma ExcursionAt(w: seq<Vec2>, a: nat)
    requires IsExcursion(w) && 1 <= a < SamePointCheckStart
    ensures Sub(w[a], w[0]) == Vec2(0.1, 0.0)
  {
    assert SampleAt(w, a) == Vec2(0.1, 0.0);
  }

  /** In an excursion the samples before any offset up to the twentieth lie on the x axis. */
  lemma ExcursionLine(w: seq<Vec2>, k: nat)
    requires IsExcursion(w) && 1 < k <= SamePointCheckStart
    ensures PerpSum(w, Vec2(0.1, 0.0), k) == 0.0
  {
    forall i | 1 <= i < k
      ensures Sub(w[i], w[0]) == Vec2(0.1, 0.0)
    {
      ExcursionAt(w, i);
    }
    PerpSumOnAxis(w, Vec2(0.1, 0.0), k);
  }

  /** In an excursion the samples before any offset up to the twentieth have their apex 0.1 out along x, on the x axis. */
  lemma ExcursionApex(w: seq<Vec2>, k: nat)
    requires IsExcursion(w) && 1 < k <= SamePointCheckStart
    ensures ExcursionBefore(w, k)
  {
    ExcursionLine(w, k);
    ExcursionAt(w, ApexIndex(w, k));
  }

  /** In an excursion the newest sample comes back at the twentieth offset. */
  lemma ExcursionReturn(w: seq<Vec2>)
    requires |w| == WindowLength && w[0] == Zero && w[SamePointCheckStart] == Zero
    ensures ReturnIndexFrom(w, SamePointCheckStart) == SamePointCheckStart
  {
    assert IsNear(w[0], w[SamePointCheckStart]);
  }

  /** An excursion returns at the twentieth offset, after an apex 0.1 out along x and with every sample on the x axis. */
  lemma ExcursionShape(w: seq<Vec2>)
    requires IsExcursion(w)
    ensures |w| == WindowLength && w[0] == Zero
    ensures ReturnIndexFrom(w, SamePointCheckStart) == SamePointCheckStart
    ensures ExcursionBefore(w, SamePointCheckStart)
  {
    ExcursionApex(w, SamePointCheckStart);
    ExcursionReturn(w);
  }

  /**
   * Detect does report steps: a window whose newest sample is at the origin,
   * whose nineteen samples before the twentieth sit 0.1 out along x, and whose
   * twentieth is back at the origin holds one. Facing along y, the right apex is
   * 0.08 out on the side of the excursion, the left one 0.16 out on the other
   * side, and the left foot steps.
   */
  lemma ExcursionIsAStep(w: seq<Vec2>, sqrt: real -> real)
    requires IsExcursion(w) && IsSqrt(sqrt)
    ensures Detect(w, Vec2(0.0, 1.0), sqrt) == Some(StepEvent(Vec2(-0.16, 0.0), Vec2(0.08, 0.0), Zero, Left))
  {
    ExcursionShape(w);
    StepOfExcursionShape(w, sqrt);
  }

  /** The step Detect reports once the return, the apex and the line of an excursion are known. */
  lemma StepOfExcursionShape(w: seq<Vec2>, sqrt: real -> real)
    requires |w| == WindowLength && IsSqrt(sqrt) && w[0] == Zero
    requires ReturnIndexFrom(w, SamePointCheckStart) == SamePointCheckStart
    requires ExcursionBefore(w, SamePointCheckStart)
    ensures Detect(w, Vec2(0.0, 1.0), sqrt) == Some(StepEvent(Vec2(-0.16, 0.0), Vec2(0.08, 0.0), Zero, Left))
  {
    DetectCharacterised(w, Vec2(0.0, 1.0), sqrt);
    EventOfExcursion(Detect(w, Vec2(0.0, 1.0), sqrt).value);
  }

  /** The event DetectCharacterised describes for an excursion, worked out. */
  lemma EventOfExcursion(e: StepEvent)
    requires e.currentPosition == Zero
    requires StanceApex(e) == Add(Zero, Scale(Vec2(0.1, 0.0), AxisToApexShrinkFactor))
    requires SteppingApex(e) == Add(Zero, Scale(Vec2(0.1, 0.0), AxisToApexExtendFactor))
    requires e.steppingFoot == Right <==> CrossZ(Vec2(0.0, 1.0), Vec2(0.1, 0.0)) > 0.0
    ensures e == StepEvent(Vec2(-0.16, 0.0), Vec2(0.08, 0.0), Zero, Left)
  {
  }

  /** The window of ExcursionIsAStep exists: Detect's step condition can be met. */
  lemma StepWindowHasAStep(sqrt: real -> real)
    requires IsSqrt(sqrt)
    ensures Detect(StepWindow(), Vec2(0.0, 1.0), sqrt).Some?
  {
    assert IsExcursion(StepWindow());
    ExcursionIsAStep(StepWindow(), sqrt);
  }

  class FirstStepDetector {
    const samples: CircleBuffer
    var entropy: real
    /** The square root behind Vector2.Distance and Vector2.normalize. */
    const sqrt: real -> real

    ghost predicate Valid()
      reads this, samples, samples.slots
    {
      samples.Valid() && samples.slots.Length == WindowLength
    }

    ghost function State(): DetectorState
      reads this, samples
    {
      DetectorState(samples.Contents, entropy)
    }

    constructor (sqrt: real -> real)
      requires IsSqrt(sqrt)
      ensures Valid() && fresh(samples) && fresh(samples.slots)
      ensures State() == InitialDetector() && this.sqrt == sqrt
    {
      samples := new CircleBuffer(WindowLength);
      entropy := 0.0;
      this.sqrt := sqrt;
    }

    /** The sample at offset i, which the caller knows is inside the window. */
    method Sample(i: nat) returns (p: Vec2)
      requires Valid() && i < WindowLength
      ensures p == samples.Contents[i]
    {
      var r := samples.At(i);
      p := r.value;
    }

    /** The loop looking for the return: the first near offset from the twentieth on, or 60. */
    method FindReturnIndex(origin: Vec2) returns (k: nat)
      requires Valid() && origin == samples.Contents[0]
      ensures k == ReturnIndexFrom(samples.Contents, SamePointCheckStart)
    {
      k := SamePointCheckStart;
      while k < samples.Length()
        invariant SamePointCheckStart <= k <= WindowLength
        invariant ReturnIndexFrom(samples.Contents, k) == ReturnIndexFrom(samples.Contents, SamePointCheckStart)
      {
        var sample := Sample(k);
        if DistSq(origin, sample) < SamePointSquaredDistanceThreshold {
          break;
        }
        k := k + 1;
      }
    }

    /**
     * The loop looking for the apex among offsets [1, k): its offset and squared
     * distance, or offset 0 and -1 when the range is empty.
     */
    method FindApex(origin: Vec2, k: nat) returns (apexIdx: nat, apexDistSquared: real)
      requires Valid() && origin == samples.Contents[0] && k <= WindowLength
      ensures 1 < k ==> apexIdx == ApexIndex(samples.Contents, k)
      ensures 1 < k ==> apexDistSquared == DistSq(origin, samples.Contents[apexIdx])
      ensures k <= 1 ==> apexIdx == 0 && apexDistSquared == -1.0
    {
      apexDistSquared := -1.0;
      apexIdx := 0;
      var idx := 1;
      while idx < k
        invariant 1 <= idx && (idx == 1 || idx <= k)
        invariant idx == 1 ==> apexIdx == 0 && apexDistSquared == -1.0
        invariant 1 < idx ==> apexIdx == ApexIndex(samples.Contents, idx)
        invariant 1 < idx ==> apexDistSquared == DistSq(origin, samples.Contents[apexIdx])
      {
        var sample := Sample(idx);
        var distSquared := DistSq(origin, sample);
        if distSquared > apexDistSquared {
          apexIdx := idx;
          apexDistSquared := distSquared;
        }
        idx := idx + 1;
      }
    }

    /** The loop summing the squared distances of the samples in [1, k) from the axis. */
    method SumSquaredProjectionDistances(origin: Vec2, axis: Vec2, k: nat) returns (sum: real)
      requires Valid() && origin == samples.Contents[0] && k <= WindowLength
      ensures sum == ProjectionSum(samples.Contents, axis, k)
    {
      sum := 0.0;
      var idx := 1;
      while idx < k
        invariant 1 <= idx && (idx == 1 || idx <= k)
        invariant sum == ProjectionSum(samples.Contents, axis, idx)
      {
        var sample := Sample(idx);
        var vec := Sub(sample, origin);
        var dot := Dot(axis, vec);
        sum := sum + (LengthSq(vec) - Sq(dot));
        idx := idx + 1;
      }
    }

    /**
     * Everything after the entropy check: the return, the apex, the straightness
     * check and the event, on the samples as they now are.
     */
    method Search(origin: Vec2, forward: Vec2) returns (step: Option<StepEvent>)
      requires Valid() && origin == samples.Contents[0]
      ensures step == Detect(samples.Contents, forward, sqrt)
    {
      var samePointIdx := FindReturnIndex(origin);
      if samePointIdx == samples.Length() {
        return None;
      }
      var apexIdx, apexDistSquared := FindApex(origin, samePointIdx);
      if apexDistSquared < ApexSquaredDistanceThreshold {
        return None;
      }
      var apex := Sample(apexIdx);
      var d := Sub(apex, origin);
      var axis := Normalized(d, sqrt(LengthSq(d)));
      var sum := SumSquaredProjectionDistances(origin, axis, samePointIdx);
      if sum > samePointIdx as real * SquaredProjectionDistanceThreshold {
        return None;
      }
      var isApexLeft := CrossZ(forward, axis) > 0.0;
      if isApexLeft {
        step := Some(StepEvent(Add(origin, Scale(d, AxisToApexShrinkFactor)), Add(origin, Scale(d, AxisToApexExtendFactor)), origin, Right));
      } else {
        step := Some(StepEvent(Add(origin, Scale(d, AxisToApexExtendFactor)), Add(origin, Scale(d, AxisToApexShrinkFactor)), origin, Left));
      }
    }

    /**
     * The first half of an update: pushes the position and lets the entropy decay
     * and grow by the distance from the previous sample. Returns the newest sample.
     */
    method Record(position: Vec2) returns (origin: Vec2)
      requires Valid()
      modifies this, samples, samples.slots
      ensures Valid()
      ensures State() == Observed(old(State()), position, sqrt)
      ensures origin == samples.Contents[0]
    {
      ghost var w := Shifted(samples.Contents, position);
      var _ := samples.Push(position);
      assert samples.Contents == w;
      origin := Sample(0);
      var previous := Sample(1);
      entropy := entropy * EntropyDecayFactor;
      entropy := entropy + sqrt(DistSq(origin, previous));
    }

    /** Takes one head position and the forward direction, and reports a step if one is seen. */
    method Update(position: Vec2, forward: Vec2) returns (step: Option<StepEvent>)
      requires Valid()
      modifies this, samples, samples.slots
      ensures Valid()
      ensures State() == Observed(old(State()), position, sqrt)
      ensures step == Emitted(State(), forward, sqrt)
    {
      var origin := Record(position);
      if entropy > EntropyThreshold {
        return None;
      }
      step := Search(origin, forward);
      assert Emitted(State(), forward, sqrt) == Detect(samples.Contents, forward, sqrt);
    }

    /** Zeroes every sample in place; the entropy is kept. */
    method Reset()
      requires Valid()
      modifies samples, samples.slots
      ensures Valid()
      ensures State() == DetectorState(seq(WindowLength, _ => Zero), old(entropy))
    {
      var idx := 0;
      while idx < samples.Length()
        invariant Valid() && idx <= WindowLength
        invariant forall i :: 0 <= i < idx ==> samples.Contents[i] == Zero
      {
        var _ := samples.Put(idx, Zero);
        idx := idx + 1;
      }
    }
  }
}
