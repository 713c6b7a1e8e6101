/** Piecewise-linear ramps of a target over time, and how long an inactive virtual user may sleep. Times are in nanoseconds. */
module Schedule {
  import opened Arithmetic
  import opened Words
  import opened Wrappers

  const SECOND: int := 1_000_000_000
  const MILLI: int := 1_000_000
  const MAX_DURATION: int := (TWO_64 - 1) * SECOND + (SECOND - 1)
  const I128_MAX: int := 0x7FFF_FFFF_FFFF_FFFF_FFFF_FFFF_FFFF_FFFF

  /** `std::time::Duration`: whole seconds in 64 bits and the nanoseconds below a second. */
  type Duration = d: int | 0 <= d <= MAX_DURATION

  datatype Stage = Stage(duration: Duration, target: u64)

  datatype StageSnapshot = StageSnapshot(
    index: nat, count: nat,
    stageElapsed: Duration, stageRemaining: Duration,
    startTarget: u64, endTarget: u64, currentTarget: u64
  )

  function SaturatingAddDuration(a: Duration, b: Duration): Duration {
    if a + b > MAX_DURATION then MAX_DURATION else a + b
  }

  function SaturatingSub(a: Duration, b: Duration): Duration {
    if a < b then 0 else a - b
  }

  /** Multiplication in 128-bit signed arithmetic, clamped to its range. */
  function SaturatingMul(a: int, b: int): int {
    if a * b > I128_MAX then I128_MAX else if a * b < -I128_MAX - 1 then -I128_MAX - 1 else a * b
  }

  /** Rust's integer division truncates toward zero. */
  function TruncDiv(a: int, b: int): int
    requires b > 0
  {
    if a >= 0 then a / b else -((-a) / b)
  }

  // ------------------------------------------------------------ the schedule

  /** Running sums of the stage durations, clamped. */
  function CumulativeEnds(stages: seq<Stage>): (ends: seq<Duration>)
    ensures |ends| == |stages|
  {
    if stages == [] then []
    else
      var front := CumulativeEnds(stages[..|stages| - 1]);
      var last := if front == [] then 0 else front[|front| - 1];
      front + [SaturatingAddDuration(last, stages[|stages| - 1].duration)]
  }

  predicate Sorted(ends: seq<Duration>) {
    forall i, j :: 0 <= i <= j < |ends| ==> ends[i] <= ends[j]
  }

  lemma {:induction false} EndsSorted(stages: seq<Stage>)
    ensures Sorted(CumulativeEnds(stages))
    decreases |stages|
  {
    if stages != [] {
      EndsSorted(stages[..|stages| - 1]);
    }
  }

  datatype Ramp = Ramp(start: u64, stages: seq<Stage>, ends: seq<Duration>)

  predicate Valid(r: Ramp) {
    r.ends == CumulativeEnds(r.stages)
  }

  method NewRamp(start: u64, stages: seq<Stage>) returns (r: Ramp)
    ensures r.start == start && r.stages == stages && Valid(r)
  {
    var ends: seq<Duration> := [];
    var acc: Duration := 0;
    for i := 0 to |stages|
      invariant ends == CumulativeEnds(stages[..i])
      invariant acc == if ends == [] then 0 else ends[|ends| - 1]
    {
      acc := SaturatingAddDuration(acc, stages[i].duration);
      ends := ends + [acc];
      assert stages[..i + 1][..i] == stages[..i];
    }
    assert stages[..|stages|] == stages;
    r := Ramp(start, stages, ends);
  }

  function TotalDuration(r: Ramp): Duration {
    if r.ends == [] then 0 else r.ends[|r.ends| - 1]
  }

  /**
  Binary search over the stage ends: an index holding `x` if there is one (any of them when several do),
  else the place where `x` belongs. Every property below holds for every search of this kind.
  */
  type Search = (seq<Duration>, Duration) -> nat

  ghost predicate Found(ends: seq<Duration>, x: Duration, i: nat) {
    || (i < |ends| && ends[i] == x)
    || (i <= |ends| && x !in ends && (forall j :: 0 <= j < i ==> ends[j] < x) && (forall j :: i <= j < |ends| ==> x < ends[j]))
  }

  ghost predicate Searches(find: Search) {
    forall ends, x :: Sorted(ends) ==> Found(ends, x, find(ends, x))
  }

  // ---------------------------------------------------------------- one stage

  function StageStart(r: Ramp, i: nat): Duration
    requires i < |r.ends|
  {
    if i == 0 then 0 else r.ends[i - 1]
  }

  function FromTarget(r: Ramp, i: nat): u64
    requires i < |r.stages|
  {
    if i == 0 then r.start else r.stages[i - 1].target
  }

  /** Linear interpolation `t` nanoseconds into a stage `d` nanoseconds long. */
  function Interpolate(a: u64, b: u64, t: Duration, d: Duration): u64 {
    if d == 0 then b
    else Clamp(a + TruncDiv(SaturatingMul(b - a, t), Max(d, 1)))
  }

  function Clamp(x: int): u64 {
    if x < 0 then 0 else if x > TWO_64 - 1 then TWO_64 - 1 else x
  }

  function StageTarget(r: Ramp, i: nat, elapsed: Duration): u64
    requires Valid(r) && i < |r.stages|
  {
    Interpolate(FromTarget(r, i), r.stages[i].target,
                SaturatingSub(elapsed, StageStart(r, i)), SaturatingSub(r.ends[i], StageStart(r, i)))
  }

  // ------------------------------------------------------------------ queries

  lemma SearchInRange(find: Search, r: Ramp, elapsed: Duration)
    requires Searches(find) && Valid(r) && r.stages != [] && elapsed < TotalDuration(r)
    ensures var i := find(r.ends, elapsed);
            i < |r.ends| && StageStart(r, i) <= elapsed <= r.ends[i] && (elapsed < r.ends[i] ==> i == 0 || r.ends[i - 1] < elapsed)
  {
    EndsSorted(r.stages);
    var i := find(r.ends, elapsed);
    assert Found(r.ends, elapsed, i);
  }

  /** The stage a time before the end falls in. */
  function StageIndex(find: Search, r: Ramp, elapsed: Duration): (i: nat)
    requires Searches(find) && Valid(r) && r.stages != [] && elapsed < TotalDuration(r)
    ensures i < |r.stages| && StageStart(r, i) <= elapsed <= r.ends[i]
  {
    SearchInRange(find, r, elapsed);
    find(r.ends, elapsed)
  }

  function TargetAt(find: Search, r: Ramp, elapsed: Duration): u64
    requires Searches(find) && Valid(r)
  {
    if r.stages == [] || elapsed == 0 then r.start
    else if elapsed >= TotalDuration(r) then r.stages[|r.stages| - 1].target
    else StageTarget(r, StageIndex(find, r, elapsed), elapsed)
  }

  function SnapshotAt(find: Search, r: Ramp, elapsed: Duration): Option<StageSnapshot>
    requires Searches(find) && Valid(r)
  {
    if r.stages == [] then None
    else
      var total := TotalDuration(r);
      var clamped := Min(elapsed, total);
      var i := if clamped >= total then |r.stages| - 1 else StageIndex(find, r, clamped);
      var stageElapsed := SaturatingSub(clamped, StageStart(r, i));
      var stageDuration := SaturatingSub(r.ends[i], StageStart(r, i));
      Some(StageSnapshot(i, |r.stages|, stageElapsed, SaturatingSub(stageDuration, stageElapsed),
                         FromTarget(r, i), r.stages[i].target, TargetAt(find, r, clamped)))
  }

  /** When a rising stage reaches `want`, in nanoseconds from the stage's start, rounded down. */
  function NeededNs(a: u64, b: u64, want: u64, d: Duration): int
    requires b > a
  {
    Max(TruncDiv(SaturatingMul(want - a, d), b - a), 0)
  }

  function NextRecheckIn(find: Search, r: Ramp, elapsed: Duration, vu: u64): (wait: Duration)
    requires Searches(find) && Valid(r)
  {
    if r.stages == [] then 50 * MILLI
    else if elapsed >= TotalDuration(r) then 0
    else
      var i := StageIndex(find, r, elapsed);
      var a, b := FromTarget(r, i), r.stages[i].target;
      var remaining := Min(SaturatingSub(r.ends[i], elapsed), 50 * MILLI);
      if vu <= TargetAt(find, r, elapsed) then MILLI
      else if b <= a then remaining
      else if vu <= a then 0
      else if vu > b then remaining
      else
        var needed := NeededNs(a, b, vu, SaturatingSub(r.ends[i], StageStart(r, i)));
        var waitNs := Min(Max(needed - SaturatingSub(elapsed, StageStart(r, i)), 0), TWO_64 - 1);
        Min(waitNs, 50 * MILLI)
  }

  // ------------------------------------------------------------ interpolation

  lemma TruncDivMonotone(a: int, b: int, d: int)
    requires d > 0 && a <= b
    ensures TruncDiv(a, d) <= TruncDiv(b, d)
  {
    DivProduct(0, d);
    if b < 0 {
      DivMonotone(-b, -a, d);
    } else if a >= 0 {
      DivMonotone(a, b, d);
    } else {
      DivMonotone(0, -a, d);
      DivMonotone(0, b, d);
    }
  }

  lemma TruncDivProduct(x: int, d: int)
    requires d > 0
    ensures TruncDiv(x * d, d) == x
  {
    DivProduct(x, d);
    DivProduct(-x, d);
    assert (-x) * d == -(x * d);
    DivProduct(0, d);
  }

  lemma SaturatingMulMonotone(a: int, t: int, u: int)
    requires 0 <= t <= u
    ensures a >= 0 ==> 0 <= SaturatingMul(a, t) <= SaturatingMul(a, u) <= a * u
    ensures a <= 0 ==> 0 >= SaturatingMul(a, t) >= SaturatingMul(a, u) >= a * u
  {
    if a >= 0 {
      assert a * t <= a * u;
    } else {
      assert a * t >= a * u;
    }
  }

  /** Interpolation stays between the two targets, also when the product is clamped. */
  lemma InterpolateBetween(a: u64, b: u64, t: Duration, d: Duration)
    requires t <= d
    ensures Min(a, b) <= Interpolate(a, b, t, d) <= Max(a, b)
  {
    if d > 0 {
      SaturatingMulMonotone(b - a, t, d);
      TruncDivProduct(b - a, d);
      TruncDivProduct(0, d);
      if b >= a {
        TruncDivMonotone(0, SaturatingMul(b - a, t), d);
        TruncDivMonotone(SaturatingMul(b - a, t), (b - a) * d, d);
      } else {
        TruncDivMonotone(SaturatingMul(b - a, t), 0, d);
        TruncDivMonotone((b - a) * d, SaturatingMul(b - a, t), d);
      }
    }
  }

  /** Inside a stage the target moves one way only. */
  lemma InterpolateMonotone(a: u64, b: u64, t: Duration, u: Duration, d: Duration)
    requires t <= u <= d
    ensures a <= b ==> Interpolate(a, b, t, d) <= Interpolate(a, b, u, d)
    ensures a >= b ==> Interpolate(a, b, t, d) >= Interpolate(a, b, u, d)
  {
    if d > 0 {
      SaturatingMulMonotone(b - a, t, u);
      if a <= b {
        TruncDivMonotone(SaturatingMul(b - a, t), SaturatingMul(b - a, u), d);
      }
      if a >= b {
        TruncDivMonotone(SaturatingMul(b - a, u), SaturatingMul(b - a, t), d);
      }
    }
  }

  lemma InterpolateStart(a: u64, b: u64, d: Duration)
    requires d > 0
    ensures Interpolate(a, b, 0, d) == a
  {
    DivProduct(0, d);
  }

  /** The product of a target difference and a stage's length fits in 128 bits. */
  predicate Unclamped(delta: int, d: int) {
    -I128_MAX <= delta * d <= I128_MAX
  }

  /** A stage ends on its target unless the product is clamped. */
  lemma InterpolateEnd(a: u64, b: u64, d: Duration)
    requires Unclamped(b - a, d)
    ensures Interpolate(a, b, d, d) == b
  {
    if d > 0 {
      TruncDivProduct(b - a, d);
    }
  }

  /** The target at any time lies between the two targets of the stage the search picks. */
  lemma TargetInStage(find: Search, r: Ramp, elapsed: Duration)
    requires Searches(find) && Valid(r) && 0 < elapsed < TotalDuration(r)
    ensures var i := find(r.ends, elapsed);
            i < |r.stages| && StageStart(r, i) <= elapsed <= r.ends[i]
            && Min(FromTarget(r, i), r.stages[i].target) <= TargetAt(find, r, elapsed) <= Max(FromTarget(r, i), r.stages[i].target)
  {
    SearchInRange(find, r, elapsed);
    var i := find(r.ends, elapsed);
    InterpolateBetween(FromTarget(r, i), r.stages[i].target, elapsed - StageStart(r, i), r.ends[i] - StageStart(r, i));
  }

  /** The number of virtual users spawned for a ramping scenario. */
  function MaxVus(start: u64, stages: seq<Stage>): u64 {
    if stages == [] then start else Max(stages[|stages| - 1].target, MaxVus(start, stages[..|stages| - 1]))
  }

  lemma {:induction false} MaxVusBounds(start: u64, stages: seq<Stage>, i: nat)
    requires i < |stages|
    ensures start <= MaxVus(start, stages) && stages[i].target <= MaxVus(start, stages)
    decreases |stages|
  {
    if i < |stages| - 1 {
      MaxVusBounds(start, stages[..|stages| - 1], i);
    } else if i > 0 {
      MaxVusBounds(start, stages[..|stages| - 1], i - 1);
    }
  }

  /** No time asks for more virtual users than were spawned. */
  lemma TargetNeverExceedsSpawned(find: Search, r: Ramp, elapsed: Duration)
    requires Searches(find) && Valid(r)
    ensures TargetAt(find, r, elapsed) <= MaxVus(r.start, r.stages)
  {
    if r.stages != [] {
      MaxVusBounds(r.start, r.stages, |r.stages| - 1);
      if 0 < elapsed < TotalDuration(r) {
        TargetInStage(find, r, elapsed);
        var i := find(r.ends, elapsed);
        MaxVusBounds(r.start, r.stages, i);
        if i > 0 {
          MaxVusBounds(r.start, r.stages, i - 1);
        }
      }
    }
  }

  /** Elapsed and remaining time of a snapshot add up to its stage, and its target lies between the stage's. */
  lemma SnapshotAddsUp(find: Search, r: Ramp, elapsed: Duration)
    requires Searches(find) && Valid(r)
    ensures SnapshotAt(find, r, elapsed).Some? <==> r.stages != []
    ensures r.stages != [] ==>
              var s := SnapshotAt(find, r, elapsed).value;
              && s.index < s.count == |r.stages|
              && s.startTarget == (if s.index == 0 then r.start else r.stages[s.index - 1].target)
              && s.endTarget == r.stages[s.index].target
              && s.stageElapsed + s.stageRemaining == r.ends[s.index] - StageStart(r, s.index)
              && StageStart(r, s.index) + s.stageElapsed == Min(elapsed, TotalDuration(r))
              && (elapsed == 0 || TotalDuration(r) > 0 ==> s.currentTarget == TargetAt(find, r, elapsed))
              && (elapsed > 0 && TotalDuration(r) > 0 ==>
                    Min(s.startTarget, s.endTarget) <= s.currentTarget <= Max(s.startTarget, s.endTarget))
  {
    if r.stages != [] {
      EndsSorted(r.stages);
      if 0 < elapsed < TotalDuration(r) {
        TargetInStage(find, r, elapsed);
      }
    }
  }

  // -------------------------------------------------------------------- recheck

  /** At `t` the ramp has not reached `want` as long as `t` is below the rounded-down time. */
  lemma BelowUntilNeeded(a: u64, b: u64, want: u64, t: Duration, d: Duration)
    requires a < want <= b && t <= d && 0 < d && t < NeededNs(a, b, want, d)
    ensures Interpolate(a, b, t, d) < want
  {
    var delta, rise := b - a, want - a;
    SaturatingMulMonotone(rise, 0, d);
    SaturatingMulMonotone(delta, 0, t);
    BelowUntil(delta, rise, SaturatingMul(rise, d), SaturatingMul(delta, t), t, d);
    DivMonotone(0, SaturatingMul(delta, t), d);
  }

  lemma BelowUntil(delta: int, rise: int, full: int, moved: int, t: int, d: int)
    requires delta > 0 && d > 0 && full <= rise * d && moved <= delta * t
    requires t < full / delta
    ensures moved / d < rise
  {
    DivFloor(full, delta);
    MulMonotone(t + 1, full / delta, delta);
    assert (t + 1) * delta == delta * t + delta;
    DivBelow(moved, d, rise);
  }

  /** One nanosecond past the rounded-down time the ramp has reached `want`, when nothing is clamped. */
  lemma ReachedAfterNeeded(a: u64, b: u64, want: u64, d: Duration)
    requires a < want <= b && 0 < d && Unclamped(b - a, d)
    ensures var n := NeededNs(a, b, want, d);
            && 0 <= n <= d
            && (Interpolate(a, b, n, d) >= want || (n < d && Interpolate(a, b, n + 1, d) >= want))
  {
    hide Interpolate, NeededNs, Unclamped, Reaches;
    NeededWithinStage(a, b, want, d);
    NeededReaches(a, b, want, d);
    var n := NeededNs(a, b, want, d);
    if Reaches(a, b, want, n, d) {
      ReachedAt(a, b, want, n, d);
    } else {
      ReachedAt(a, b, want, n + 1, d);
    }
  }

  /** The line through both targets has risen to `want` at `t`. */
  predicate Reaches(a: u64, b: u64, want: u64, t: int, d: int) {
    t * (b - a) >= (want - a) * d
  }

  lemma NeededReaches(a: u64, b: u64, want: u64, d: Duration)
    requires a < want <= b && 0 < d && Unclamped(b - a, d)
    ensures var n := NeededNs(a, b, want, d);
            Reaches(a, b, want, n, d) || (n < d && Reaches(a, b, want, n + 1, d))
  {
    var delta, rise := b - a, want - a;
    MulMonotone(rise, delta, d);
    MulMonotone(0, rise, d);
    ReachOrNext(rise, delta, d);
    DivMonotone(0, rise * d, delta);
  }

  /** A rounded-down quotient reaches the target, or the next number does. */
  lemma ReachOrNext(rise: int, delta: int, d: int)
    requires 0 < rise <= delta && 0 < d
    ensures var n := rise * d / delta;
            n * delta >= rise * d || (n < d && (n + 1) * delta >= rise * d)
  {
    var n := rise * d / delta;
    DivFloor(rise * d, delta);
    if n >= d {
      MulMonotone(d, n, delta);
      MulMonotone(rise, delta, d);
      assert d * delta == delta * d;
    }
  }

  lemma ReachedAt(a: u64, b: u64, want: u64, t: Duration, d: Duration)
    requires a < want <= b && 0 < d && t <= d && Unclamped(b - a, d)
    requires Reaches(a, b, want, t, d)
    ensures Interpolate(a, b, t, d) >= want
  {
    var delta, rise := b - a, want - a;
    assert delta * t == t * delta && delta * d == d * delta;
    MulMonotone(t, d, delta);
    MulMonotone(0, t, delta);
    assert SaturatingMul(delta, t) == delta * t;
    DivAtLeast(delta * t, d, rise);
    InterpolateBetween(a, b, t, d);
  }

  /** Strictly inside a stage every search finds that stage. */
  lemma InsideStage(find: Search, r: Ramp, i: nat, t: Duration)
    requires Searches(find) && Valid(r) && i < |r.ends| && StageStart(r, i) <= t < r.ends[i]
    requires i == 0 || r.ends[i - 1] < t
    ensures t < TotalDuration(r) && StageIndex(find, r, t) == i
  {
    EndsSorted(r.stages);
    var j := find(r.ends, t);
    assert Found(r.ends, t, j);
  }

  /** Inside a stage the target moves one way only, in the direction of the stage; no product need fit. */
  lemma TargetMovesOneWay(find: Search, r: Ramp, i: nat, t: Duration, u: Duration)
    requires Searches(find) && Valid(r) && i < |r.stages| && StageStart(r, i) <= t <= u < r.ends[i]
    requires i == 0 || StageStart(r, i) < t
    ensures FromTarget(r, i) <= r.stages[i].target ==> TargetAt(find, r, t) <= TargetAt(find, r, u)
    ensures FromTarget(r, i) >= r.stages[i].target ==> TargetAt(find, r, t) >= TargetAt(find, r, u)
  {
    hide Interpolate;
    var begin, d := StageStart(r, i), r.ends[i] - StageStart(r, i);
    InsideStage(find, r, i, t);
    InsideStage(find, r, i, u);
    InterpolateStart(FromTarget(r, i), r.stages[i].target, d);
    InterpolateMonotone(FromTarget(r, i), r.stages[i].target, t - begin, u - begin, d);
  }

  /** Until the end of the stage at `elapsed`, the target follows that stage's line. */
  lemma RestOfStage(find: Search, r: Ramp, elapsed: Duration, t: Duration)
    requires Searches(find) && Valid(r) && r.stages != [] && elapsed < TotalDuration(r)
    requires elapsed <= t < r.ends[StageIndex(find, r, elapsed)]
    ensures var i := StageIndex(find, r, elapsed);
            TargetAt(find, r, t) == StageTarget(r, i, t)
  {
    var i := StageIndex(find, r, elapsed);
    SearchInRange(find, r, elapsed);
    InsideStage(find, r, i, t);
    if t == 0 {
      assert i == 0 && StageTarget(r, 0, 0) == r.start by {
        TruncDivProduct(0, r.ends[0]);
      }
    }
  }

  /**
  The recheck interval of a virtual user above the target ends no later than the moment it is due: the
  target stays below it throughout, in every stage shape, with zero-length stages and clamped products included.
  */
  lemma NeverOversleeps(find: Search, r: Ramp, elapsed: Duration, vu: u64, t: Duration)
    requires Searches(find) && Valid(r) && elapsed < TotalDuration(r) && vu > TargetAt(find, r, elapsed)
    requires elapsed <= t < elapsed + NextRecheckIn(find, r, elapsed, vu)
    ensures TargetAt(find, r, t) < vu
  {
    hide Interpolate, NeededNs;
    var i := StageIndex(find, r, elapsed);
    var a, b := FromTarget(r, i), r.stages[i].target;
    var begin, end := StageStart(r, i), r.ends[i];
    assert end <= TotalDuration(r) by { EndsSorted(r.stages); }
    if b <= a {
      RestOfStage(find, r, elapsed, t);
      RestOfStage(find, r, elapsed, elapsed);
      InterpolateMonotone(a, b, elapsed - begin, t - begin, end - begin);
    } else if vu > b {
      RestOfStage(find, r, elapsed, t);
      InterpolateBetween(a, b, t - begin, end - begin);
    } else if vu > a {
      NeededWithinStage(a, b, vu, end - begin);
      assert t - begin < NeededNs(a, b, vu, end - begin);
      RestOfStage(find, r, elapsed, t);
      BelowUntilNeeded(a, b, vu, t - begin, end - begin);
    }
  }

  lemma NeededWithinStage(a: u64, b: u64, want: u64, d: Duration)
    requires a < want <= b
    ensures 0 <= NeededNs(a, b, want, d) <= d
  {
    var delta, rise := b - a, want - a;
    SaturatingMulMonotone(rise, 0, d);
    MulMonotone(rise, delta, d);
    assert delta * d == d * delta;
    TruncDivMonotone(SaturatingMul(rise, d), d * delta, delta);
    TruncDivProduct(d, delta);
    TruncDivMonotone(0, SaturatingMul(rise, d), delta);
    TruncDivProduct(0, delta);
  }

  /** Every stage takes time. */
  ghost predicate StagesLast(r: Ramp) {
    && (r.ends != [] ==> 0 < r.ends[0])
    && forall i, j :: 0 <= i < j < |r.ends| ==> r.ends[i] < r.ends[j]
  }

  /** Stages take time when their durations are positive and the sums were not clamped. */
  lemma {:induction false} PositiveStagesLast(r: Ramp)
    requires Valid(r) && TotalDuration(r) < MAX_DURATION && forall j :: 0 <= j < |r.stages| ==> r.stages[j].duration > 0
    ensures StagesLast(r)
    decreases |r.stages|
  {
    EndsSorted(r.stages);
    if r.stages != [] {
      var front := r.stages[..|r.stages| - 1];
      PositiveStagesLast(Ramp(r.start, front, CumulativeEnds(front)));
    }
  }

  function DurationSum(stages: seq<Stage>): int {
    if stages == [] then 0 else stages[0].duration + DurationSum(stages[1..])
  }

  lemma {:induction false} SumAppend(stages: seq<Stage>, s: Stage)
    ensures DurationSum(stages + [s]) == DurationSum(stages) + s.duration
  {
    if stages == [] {
      assert stages + [s] == [s] && [s][1..] == [];
    } else {
      SumAppend(stages[1..], s);
      assert (stages + [s])[1..] == stages[1..] + [s];
    }
  }

  lemma {:induction false} SumIsNotNegative(stages: seq<Stage>)
    ensures DurationSum(stages) >= 0
  {
    if stages != [] {
      SumIsNotNegative(stages[1..]);
    }
  }

  /** Every stage ends after the durations up to it, or at the largest duration there is. */
  lemma {:induction false} EndsAddUp(stages: seq<Stage>, i: nat)
    requires i < |stages|
    ensures CumulativeEnds(stages)[i] == Min(DurationSum(stages[..i + 1]), 0xFFFF_FFFF_FFFF_FFFF * 1_000_000_000 + 999_999_999)
    decreases |stages|
  {
    var last := |stages| - 1;
    if i < last {
      EndsAddUp(stages[..last], i);
      assert stages[..last][..i + 1] == stages[..i + 1];
    } else {
      assert stages[..i + 1] == stages[..last] + [stages[last]];
      SumAppend(stages[..last], stages[last]);
      SumIsNotNegative(stages[..last]);
      if last > 0 {
        EndsAddUp(stages[..last], last - 1);
        assert stages[..last][..last] == stages[..last];
      } else {
        assert stages[..last] == [];
      }
    }
  }

  /** Stage `i`'s product is not clamped. */
  ghost predicate StageUnclamped(r: Ramp, i: nat)
    requires Valid(r) && i < |r.stages|
  {
    Unclamped(r.stages[i].target - FromTarget(r, i), r.ends[i] - StageStart(r, i))
  }

  lemma InterpolateRounds(a: u64, b: u64, t: Duration, d: Duration)
    requires t <= d && 0 < d && Unclamped(b - a, t)
    ensures a <= b ==> var moved := Interpolate(a, b, t, d) - a; moved * d <= (b - a) * t < (moved + 1) * d
    ensures b <= a ==> var moved := a - Interpolate(a, b, t, d); moved * d <= (a - b) * t < (moved + 1) * d
  {
    var delta := if a <= b then b - a else a - b;
    MulMonotone(0, t, delta);
    MulMonotone(t, d, delta);
    assert delta * t == t * delta && delta * d == d * delta;
    assert (a - b) * t == -((b - a) * t);
    DivFloor(delta * t, d);
    DivMonotone(0, delta * t, d);
    DivMonotone(delta * t, delta * d, d);
    DivProduct(delta, d);
    DivProduct(0, d);
  }

  /**
  Strictly inside a stage the target is the point on the line between the two stage targets, rounded toward
  the one the stage starts from, in rising and in falling stages; only the product at that time must fit.
  */
  lemma TargetRoundsTowardStart(find: Search, r: Ramp, i: nat, elapsed: Duration)
    requires Searches(find) && Valid(r) && i < |r.stages|
    requires (if i == 0 then 0 else r.ends[i - 1]) < elapsed < r.ends[i]
    requires var a := if i == 0 then r.start else r.stages[i - 1].target;
             Unclamped(r.stages[i].target - a, elapsed - (if i == 0 then 0 else r.ends[i - 1]))
    ensures var a, b := if i == 0 then r.start else r.stages[i - 1].target, r.stages[i].target;
            var begin := if i == 0 then 0 else r.ends[i - 1];
            var t, d, target := elapsed - begin, r.ends[i] - begin, TargetAt(find, r, elapsed);
            && (a <= b ==> (target - a) * d <= (b - a) * t < (target - a + 1) * d)
            && (b <= a ==> (a - target) * d <= (a - b) * t < (a - target + 1) * d)
  {
    hide Interpolate, Unclamped;
    InsideStage(find, r, i, elapsed);
    InterpolateRounds(FromTarget(r, i), r.stages[i].target, elapsed - StageStart(r, i), r.ends[i] - StageStart(r, i));
  }

  /** A product too large moves the target up as far as the largest that fits, which is not past the stage's target. */
  lemma ClampedUp(a: u64, b: u64, t: Duration, d: Duration)
    requires t <= d && 0 < d && (b - a) * t > I128_MAX
    ensures Interpolate(a, b, t, d) == a + I128_MAX / d
  {
    var product := (b - a) * t;
    assert b > a by {
      if b <= a {
        MulMonotone(b - a, 0, t);
      }
    }
    MulMonotone(t, d, b - a);
    assert t * (b - a) == product && d * (b - a) == (b - a) * d;
    DivMonotone(I128_MAX, (b - a) * d, d);
    DivProduct(b - a, d);
    DivAtLeast(I128_MAX, d, 0);
    assert SaturatingMul(b - a, t) == I128_MAX;
  }

  lemma ClampedDown(a: u64, b: u64, t: Duration, d: Duration)
    requires t <= d && 0 < d && (a - b) * t > I128_MAX
    ensures Interpolate(a, b, t, d) == a - (I128_MAX + 1) / d
  {
    var product := (a - b) * t;
    assert a > b by {
      if a <= b {
        MulMonotone(a - b, 0, t);
      }
    }
    MulMonotone(t, d, a - b);
    assert t * (a - b) == product && d * (a - b) == (a - b) * d && (b - a) * t == -product;
    DivMonotone(I128_MAX + 1, (a - b) * d, d);
    DivProduct(a - b, d);
    DivAtLeast(I128_MAX + 1, d, 0);
    assert SaturatingMul(b - a, t) == -I128_MAX - 1;
  }

  lemma InterpolateClamped(a: u64, b: u64, t: Duration, d: Duration)
    requires t <= d && 0 < d
    ensures (b - a) * t > I128_MAX ==>
              var moved := Interpolate(a, b, t, d) - a; moved * d <= I128_MAX < (moved + 1) * d
    ensures (a - b) * t > I128_MAX ==>
              var moved := a - Interpolate(a, b, t, d); moved * d <= I128_MAX + 1 < (moved + 1) * d
  {
    hide Interpolate;
    DivFloor(I128_MAX, d);
    DivFloor(I128_MAX + 1, d);
    if (b - a) * t > I128_MAX {
      ClampedUp(a, b, t, d);
    }
    if (a - b) * t > I128_MAX {
      ClampedDown(a, b, t, d);
    }
  }

  /** Where the 128-bit product is clamped the target has moved as far as the clamped product carries it. */
  lemma TargetWhereClamped(find: Search, r: Ramp, i: nat, elapsed: Duration)
    requires Searches(find) && Valid(r) && i < |r.stages|
    requires (if i == 0 then 0 else r.ends[i - 1]) < elapsed < r.ends[i]
    ensures var a, b := if i == 0 then r.start else r.stages[i - 1].target, r.stages[i].target;
            var begin := if i == 0 then 0 else r.ends[i - 1];
            var t, d, target := elapsed - begin, r.ends[i] - begin, TargetAt(find, r, elapsed);
            && ((b - a) * t >= 0x8000_0000_0000_0000_0000_0000_0000_0000 ==>
                  (target - a) * d <= 0x7FFF_FFFF_FFFF_FFFF_FFFF_FFFF_FFFF_FFFF < (target - a + 1) * d)
            && ((a - b) * t >= 0x8000_0000_0000_0000_0000_0000_0000_0000 ==>
                  (a - target) * d <= 0x8000_0000_0000_0000_0000_0000_0000_0000 < (a - target + 1) * d)
  {
    hide Interpolate;
    InsideStage(find, r, i, elapsed);
    InterpolateClamped(FromTarget(r, i), r.stages[i].target, elapsed - StageStart(r, i), r.ends[i] - StageStart(r, i));
  }

  /** No wait is longer than 50 ms; an active user looks again after a millisecond, and at once when the ramp is over. */
  lemma RecheckElsewhere(find: Search, r: Ramp, elapsed: Duration, vu: u64)
    requires Searches(find) && Valid(r)
    ensures r.stages == [] ==> NextRecheckIn(find, r, elapsed, vu) == 50_000_000
    ensures r.stages != [] && elapsed >= TotalDuration(r) ==> NextRecheckIn(find, r, elapsed, vu) == 0
    ensures elapsed < TotalDuration(r) && vu <= TargetAt(find, r, elapsed) ==> NextRecheckIn(find, r, elapsed, vu) == 1_000_000
    ensures NextRecheckIn(find, r, elapsed, vu) <= 50_000_000
  {
    hide NeededNs, TargetAt;
  }

  /** Stage `i` rises to `vu` without the product being clamped. */
  ghost predicate RisesTo(r: Ramp, i: nat, vu: u64)
    requires Valid(r) && i < |r.stages|
  {
    && FromTarget(r, i) < vu <= r.stages[i].target
    && StageUnclamped(r, i)
  }

  /** With stages that last, a stage's line gives the target throughout the stage, its end included. */
  lemma StageLine(find: Search, r: Ramp, i: nat, t: Duration)
    requires Searches(find) && Valid(r) && i < |r.stages| && StageStart(r, i) < t <= r.ends[i]
    requires StagesLast(r) && StageUnclamped(r, i)
    ensures TargetAt(find, r, t) == StageTarget(r, i, t)
  {
    hide Interpolate, Unclamped;
    EndsSorted(r.stages);
    if t < r.ends[i] {
      InsideStage(find, r, i, t);
    } else {
      InterpolateEnd(FromTarget(r, i), r.stages[i].target, r.ends[i] - StageStart(r, i));
      if i < |r.stages| - 1 {
        var j := find(r.ends, t);
        assert t in r.ends;
        assert Found(r.ends, t, j);
      }
    }
  }

  /**
  The ramp is the polygon through its stage targets: in every stage, both ends included, the target is that
  stage's line, so neighbouring stages agree where they meet; after the last stage it stays on the last target.
  */
  lemma RampFollowsStages(find: Search, r: Ramp, i: nat, t: Duration)
    requires Searches(find) && Valid(r) && i < |r.stages| && StagesLast(r)
    requires forall k :: 0 <= k < |r.stages| ==> StageUnclamped(r, k)
    ensures StageStart(r, i) <= t <= r.ends[i] ==> TargetAt(find, r, t) == StageTarget(r, i, t)
    ensures TargetAt(find, r, r.ends[i]) == r.stages[i].target
    ensures t >= TotalDuration(r) ==> TargetAt(find, r, t) == r.stages[|r.stages| - 1].target
  {
    hide Interpolate, Unclamped, CumulativeEnds, StageIndex, Searches;
    StageLine(find, r, i, r.ends[i]);
    InterpolateEnd(FromTarget(r, i), r.stages[i].target, r.ends[i] - StageStart(r, i));
    if t == StageStart(r, i) {
      InterpolateStart(FromTarget(r, i), r.stages[i].target, r.ends[i] - StageStart(r, i));
      if i > 0 {
        StageLine(find, r, i - 1, t);
        InterpolateEnd(FromTarget(r, i - 1), r.stages[i - 1].target, r.ends[i - 1] - StageStart(r, i - 1));
      }
    } else if StageStart(r, i) < t <= r.ends[i] {
      StageLine(find, r, i, t);
    }
  }

  /** The rounded-down time still lies ahead of a virtual user that is above the target. */
  lemma NotYetReached(find: Search, r: Ramp, elapsed: Duration, vu: u64)
    requires Searches(find) && Valid(r) && elapsed < TotalDuration(r) && vu > TargetAt(find, r, elapsed)
    requires StagesLast(r) && RisesTo(r, StageIndex(find, r, elapsed), vu)
    ensures var i := StageIndex(find, r, elapsed);
            elapsed - StageStart(r, i) <= NeededNs(FromTarget(r, i), r.stages[i].target, vu, r.ends[i] - StageStart(r, i))
  {
    hide Interpolate, NeededNs, Unclamped;
    var i := StageIndex(find, r, elapsed);
    var a, b := FromTarget(r, i), r.stages[i].target;
    var begin, d := StageStart(r, i), r.ends[i] - StageStart(r, i);
    var needed := NeededNs(a, b, vu, d);
    ReachedAfterNeeded(a, b, vu, d);
    if needed < elapsed - begin {
      InterpolateMonotone(a, b, needed, elapsed - begin, d);
      InterpolateMonotone(a, b, needed + 1, elapsed - begin, d);
      assert false;
    }
  }

  /** Below the cap, a wait ends exactly on the rounded-down time. */
  lemma WaitEndsOnNeeded(find: Search, r: Ramp, elapsed: Duration, vu: u64)
    requires Searches(find) && Valid(r) && elapsed < TotalDuration(r) && vu > TargetAt(find, r, elapsed)
    requires StagesLast(r) && RisesTo(r, StageIndex(find, r, elapsed), vu)
    requires NextRecheckIn(find, r, elapsed, vu) < 50 * MILLI
    ensures var i := StageIndex(find, r, elapsed);
            elapsed + NextRecheckIn(find, r, elapsed, vu)
            == StageStart(r, i) + NeededNs(FromTarget(r, i), r.stages[i].target, vu, r.ends[i] - StageStart(r, i))
  {
    hide NeededNs, Unclamped, TargetAt, Interpolate;
    NotYetReached(find, r, elapsed, vu);
  }

  /**
  In a rising stage that reaches the virtual user, a wait shorter than the 50 ms cap is tight: the user
  is due when it ends or one nanosecond later.
  */
  lemma RecheckIsTight(find: Search, r: Ramp, elapsed: Duration, vu: u64)
    requires Searches(find) && Valid(r) && elapsed < TotalDuration(r) && vu > TargetAt(find, r, elapsed)
    requires StagesLast(r) && RisesTo(r, StageIndex(find, r, elapsed), vu)
    requires NextRecheckIn(find, r, elapsed, vu) < 50 * MILLI
    ensures var due := elapsed + NextRecheckIn(find, r, elapsed, vu);
            && due <= MAX_DURATION
            && (TargetAt(find, r, due) >= vu || (due < MAX_DURATION && TargetAt(find, r, due + 1) >= vu))
  {
    hide NeededNs, Unclamped, TargetAt, NextRecheckIn, Interpolate;
    var i := StageIndex(find, r, elapsed);
    var a, b := FromTarget(r, i), r.stages[i].target;
    var begin, d := StageStart(r, i), r.ends[i] - StageStart(r, i);
    var needed := NeededNs(a, b, vu, d);
    ReachedAfterNeeded(a, b, vu, d);
    WaitEndsOnNeeded(find, r, elapsed, vu);
    InterpolateStart(a, b, d);
    if Interpolate(a, b, needed, d) >= vu {
      StageLine(find, r, i, begin + needed);
    } else {
      StageLine(find, r, i, begin + needed + 1);
    }
  }

  /** A virtual user sleeps at least a millisecond, so it wakes at most that long after the moment it is due. */
  lemma WakesWithinAMillisecond(find: Search, r: Ramp, elapsed: Duration, vu: u64, due: Duration)
    requires Searches(find) && Valid(r) && elapsed < TotalDuration(r) && vu > TargetAt(find, r, elapsed)
    requires elapsed <= due && TargetAt(find, r, due) >= vu
    ensures elapsed + Max(NextRecheckIn(find, r, elapsed, vu), MILLI) <= due + MILLI
  {
    hide TargetAt, NextRecheckIn;
    if due < elapsed + NextRecheckIn(find, r, elapsed, vu) {
      NeverOversleeps(find, r, elapsed, vu, due);
    }
  }

  /**
  An inactive user that the current stage does not reach stays inactive to the end of the stage, and waits
  exactly until then, or for the cap.
  */
  lemma WaitsOutTheStage(find: Search, r: Ramp, elapsed: Duration, vu: u64, t: Duration)
    requires Searches(find) && Valid(r) && elapsed < TotalDuration(r) && vu > TargetAt(find, r, elapsed)
    requires var i := StageIndex(find, r, elapsed);
             && (r.stages[i].target <= FromTarget(r, i) || vu > r.stages[i].target)
             && elapsed <= t < r.ends[i]
    ensures TargetAt(find, r, t) < vu
    ensures var i := StageIndex(find, r, elapsed);
            vu > FromTarget(r, i) || r.stages[i].target <= FromTarget(r, i) ==>
              elapsed + NextRecheckIn(find, r, elapsed, vu) == Min(r.ends[i], elapsed + 50 * MILLI)
  {
    hide NeededNs, Interpolate;
    var i := StageIndex(find, r, elapsed);
    var a, b := FromTarget(r, i), r.stages[i].target;
    var begin, d := StageStart(r, i), r.ends[i] - StageStart(r, i);
    RestOfStage(find, r, elapsed, t);
    RestOfStage(find, r, elapsed, elapsed);
    if b <= a {
      InterpolateMonotone(a, b, elapsed - begin, t - begin, d);
    } else {
      InterpolateBetween(a, b, t - begin, d);
    }
  }

  // --------------------------------------------------------------------- searching

  /** A binary search that returns the first of several equal ends; the results above hold of it. */
  function FirstAtLeast(ends: seq<Duration>, x: Duration): nat {
    if ends == [] || ends[0] >= x then 0 else 1 + FirstAtLeast(ends[1..], x)
  }

  lemma {:induction false} FirstAtLeastFinds(ends: seq<Duration>, x: Duration)
    requires Sorted(ends)
    ensures Found(ends, x, FirstAtLeast(ends, x))
    decreases |ends|
  {
    if ends != [] && ends[0] < x {
      FirstAtLeastFinds(ends[1..], x);
      assert ends == [ends[0]] + ends[1..];
    }
  }

  lemma SomeSearch()
    ensures Searches(FirstAtLeast)
  {
    forall ends: seq<Duration>, x: Duration | Sorted(ends)
      ensures Found(ends, x, FirstAtLeast(ends, x))
    {
      FirstAtLeastFinds(ends, x);
    }
  }
}
