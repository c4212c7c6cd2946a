/**
 Trajectory sampling of physics.py. `compute_trajectory`, the parabola in
 floating point with sine and cosine, is a parameter: the model only relies on
 it being a function of its five arguments.
 */
module Physics {

  datatype Point = Point(x: real, y: real)

  /** Samples below this height (y grows downward) are past the ground. */
  const FLOOR_Y: real := 600.0
  /** Time between two samples. */
  const STEP_DT: real := 0.1
  /** The default number of samples of `get_trajectory_points`, the one
      both shots of the game use. */
  const DEFAULT_STEPS: int := 50

  type Trajectory = (real, real, real, real, real) -> Point

  /** The samples of one throw: the `i`-th is the trajectory at time `i * 0.1`. */
  function Samples(computeTrajectory: Trajectory, x0: real, y0: real, angle: real, speed: real): nat -> Point {
    (i: nat) => computeTrajectory(x0, y0, angle, speed, (i as real) * STEP_DT)
  }

  /** What `get_trajectory_points` returns, stated without its loop: the
      longest prefix of the first `steps` samples (none when `steps <= 0`)
      in which no sample is below the floor. */
  ghost predicate IsTrajectoryPrefix(sample: nat -> Point, steps: int, points: seq<Point>) {
    && |points| <= (if steps < 0 then 0 else steps)
    && (forall i :: 0 <= i < |points| ==> points[i] == sample(i) && points[i].y <= FLOOR_Y)
    && (|points| < steps ==> sample(|points|).y > FLOOR_Y)
  }

  /** `get_trajectory_points`; the game calls it with `steps` at its
      default, `DEFAULT_STEPS`. */
  method GetTrajectoryPoints(computeTrajectory: Trajectory, x0: real, y0: real, angle: real, speed: real, steps: int)
    returns (points: seq<Point>)
    ensures IsTrajectoryPrefix(Samples(computeTrajectory, x0, y0, angle, speed), steps, points)
    ensures steps <= 0 ==> points == []
  {
    var sample := Samples(computeTrajectory, x0, y0, angle, speed);
    points := [];
    var i := 0;
    while i < steps
      invariant 0 <= i <= (if steps < 0 then 0 else steps)
      invariant |points| == i
      invariant forall k :: 0 <= k < i ==> points[k] == sample(k) && points[k].y <= FLOOR_Y
    {
      var p := computeTrajectory(x0, y0, angle, speed, (i as real) * STEP_DT);
      if p.y > FLOOR_Y {
        break;
      }
      points := points + [p];
      i := i + 1;
    }
  }

  /** With the default number of samples, at most 50 points come back, and
      fewer only when the next sample is past the floor. */
  lemma DefaultSteps(sample: nat -> Point, points: seq<Point>)
    requires IsTrajectoryPrefix(sample, DEFAULT_STEPS, points)
    ensures |points| <= 50
    ensures |points| < 50 ==> sample(|points|).y > 600.0
  {
  }

  /** A take-while, not a filter: no point after the first sample below the
      floor is returned, even when later samples come back above it. */
  lemma TakeWhileNotFilter(sample: nat -> Point, steps: int, points: seq<Point>, j: nat)
    requires IsTrajectoryPrefix(sample, steps, points)
    requires j < steps && sample(j).y > FLOOR_Y
    ensures |points| <= j
  {
  }

  /** Prefix stability: for one trajectory, the result for `steps` is a prefix
      of the result for any larger `steps`; in particular the result is
      determined by `steps`. */
  lemma {:induction false} TrajectoryPrefixStable(sample: nat -> Point, s1: int, p1: seq<Point>, s2: int, p2: seq<Point>)
    requires IsTrajectoryPrefix(sample, s1, p1) && IsTrajectoryPrefix(sample, s2, p2)
    requires s1 <= s2
    ensures p1 <= p2
  {
    assert |p1| <= |p2|;
    assert forall i :: 0 <= i < |p1| ==> p1[i] == p2[i];
  }
}
