/**
 * The bucket plan and the axis ticks of the per-video person-count timeline
 * (pickBucketSizeSeconds and buildTimelineTicks in the dashboard page).
 */
module TimelinePlan {
  import opened Arith

  /** The unit the axis labels use. */
  datatype Granularity = Seconds | Minutes | Hours

  /** How wide a bucket is, in seconds, and how its labels read. */
  datatype BucketPlan = BucketPlan(bucketSizeSeconds: nat, granularity: Granularity)

  /**
   * The first band whose inclusive upper bound holds the duration decides the plan:
   * 10 minutes, 2 hours, 12 hours and 48 hours, with 2-hour buckets beyond that.
   */
  function PickBucketSize(durationSeconds: int): (plan: BucketPlan)
    ensures plan.bucketSizeSeconds > 0
    ensures plan.granularity == Seconds <==> plan.bucketSizeSeconds < 60
    ensures plan.granularity == Hours <==> plan.bucketSizeSeconds >= 3600
    // up to 48 hours the duration spans at most 600 bucket widths (at most 601 points)
    ensures durationSeconds <= 48 * 60 * 60 ==> durationSeconds <= 600 * plan.bucketSizeSeconds
    // beyond the shortest band every plan draws at least four buckets
    ensures durationSeconds > 10 * 60 ==> plan.bucketSizeSeconds * 4 <= durationSeconds
  {
    if durationSeconds <= 10 * 60 then BucketPlan(1, Seconds)
    else if durationSeconds <= 2 * 60 * 60 then BucketPlan(60, Minutes)
    else if durationSeconds <= 12 * 60 * 60 then BucketPlan(30 * 60, Minutes)
    else if durationSeconds <= 48 * 60 * 60 then BucketPlan(60 * 60, Hours)
    else BucketPlan(2 * 60 * 60, Hours)
  }

  /** Rank of a granularity, coarser units ranking higher. */
  function Rank(g: Granularity): nat
  {
    match g
    case Seconds => 0
    case Minutes => 1
    case Hours => 2
  }

  /** A longer video never gets narrower buckets or a finer unit. */
  lemma PickBucketSizeMonotone(d1: int, d2: int)
    requires d1 <= d2
    ensures PickBucketSize(d1).bucketSizeSeconds <= PickBucketSize(d2).bucketSizeSeconds
    ensures Rank(PickBucketSize(d1).granularity) <= Rank(PickBucketSize(d2).granularity)
  {
  }

  /** The regular distance between two ticks: whole buckets, about a tenth of the axis. */
  function TickStep(endSecond: nat, bucketSize: nat): (step: nat)
    requires bucketSize > 0
    ensures step > 0 && step % bucketSize == 0
    ensures endSecond <= 10 * step
  {
    var q1 := CeilDiv(endSecond, bucketSize);
    var totalBuckets := Max(1, q1);
    var q2 := CeilDiv(totalBuckets, 10);
    var bucketsPerTick := Max(1, q2);
    MulDiv(bucketsPerTick, bucketSize);
    MulLe(q1, totalBuckets, bucketSize);
    MulLe(q2, bucketsPerTick, 10);
    MulLe(totalBuckets, 10 * bucketsPerTick, bucketSize);
    assert (10 * bucketsPerTick) * bucketSize == 10 * (bucketsPerTick * bucketSize);
    bucketsPerTick * bucketSize
  }

  /** Every multiple of step from 0 up to endSecond, in order. */
  function RegularTicks(endSecond: nat, step: nat): (regular: seq<int>)
    requires step > 0
    ensures |regular| > 0 && regular[0] == 0
  {
    seq(endSecond / step + 1, i => i * step)
  }

  /**
   * The tick positions of an axis ending at endSecond: [0] for an empty axis, otherwise
   * every multiple of the tick step up to endSecond, then endSecond itself unless it is
   * already the last of them.
   */
  function Ticks(endSecond: int, bucketSize: nat): (ticks: seq<int>)
    requires bucketSize > 0
    ensures |ticks| >= 1 && ticks[0] == 0
    ensures ticks[|ticks| - 1] == if endSecond <= 0 then 0 else endSecond
  {
    if endSecond <= 0 then [0]
    else
      var regular := RegularTicks(endSecond, TickStep(endSecond, bucketSize));
      if regular[|regular| - 1] != endSecond then regular + [endSecond] else regular
  }

  /** The regular ticks start at 0, increase strictly, are multiples of the step and stay within the axis. */
  lemma RegularTicksShape(endSecond: nat, step: nat)
    requires step > 0
    ensures var regular := RegularTicks(endSecond, step);
      && regular[0] == 0
      && (forall i, j :: 0 <= i < j < |regular| ==> regular[i] < regular[j])
      && (forall i :: 0 <= i < |regular| ==> regular[i] % step == 0 && 0 <= regular[i] <= endSecond)
      && endSecond < regular[|regular| - 1] + step
  {
    var regular := RegularTicks(endSecond, step);
    var n := |regular|;
    FloorMultiple(endSecond, step);
    forall i, j | 0 <= i < j < n ensures regular[i] < regular[j] {
      MulAtLeast(j - i, step);
      assert j * step == i * step + (j - i) * step;
    }
    forall i | 0 <= i < n ensures regular[i] % step == 0 && 0 <= regular[i] <= endSecond {
      MulDiv(i, step);
      MulLe(i, n - 1, step);
    }
  }

  /** With endSecond at most ten steps, there are at most eleven regular ticks. */
  lemma RegularTicksCount(endSecond: nat, step: nat)
    requires step > 0 && endSecond <= 10 * step
    ensures |RegularTicks(endSecond, step)| <= 11
  {
    FloorMultiple(endSecond, step);
    var q := endSecond / step;
    if q > 10 {
      MulLe(11, q, step);
    }
  }

  /**
   * Shape of the tick list: it starts at 0, ends at max(endSecond, 0), strictly increases,
   * every tick before the last is a multiple of the step, and there are at most 12 ticks
   * (at least 2 when the axis is not empty).
   */
  lemma TicksShape(endSecond: int, bucketSize: nat)
    requires bucketSize > 0
    ensures var ticks := Ticks(endSecond, bucketSize);
      && |ticks| >= 1 && ticks[0] == 0 && ticks[|ticks| - 1] == Max(endSecond, 0)
      && (forall i, j :: 0 <= i < j < |ticks| ==> ticks[i] < ticks[j])
      && (endSecond <= 0 ==> ticks == [0])
      && (endSecond > 0 ==> 2 <= |ticks| <= 12)
      && (endSecond > 0 ==> forall i :: 0 <= i < |ticks| - 1 ==>
                              ticks[i] % TickStep(endSecond, bucketSize) == 0 && ticks[i] <= endSecond)
  {
    if endSecond > 0 {
      var step := TickStep(endSecond, bucketSize);
      RegularTicksShape(endSecond, step);
      RegularTicksCount(endSecond, step);
    }
  }

  /** buildTimelineTicks: the regular ticks are pushed one by one in a loop. */
  method BuildTimelineTicks(endSecond: int, bucketSize: nat) returns (ticks: seq<int>)
    requires bucketSize > 0
    ensures ticks == Ticks(endSecond, bucketSize)
  {
    if endSecond <= 0 {
      return [0];
    }
    var totalBuckets := Max(1, CeilDiv(endSecond, bucketSize));
    var targetTickCount := 10;
    var bucketsPerTick := Max(1, CeilDiv(totalBuckets, targetTickCount));
    var tickStep := bucketsPerTick * bucketSize;
    assert tickStep == TickStep(endSecond, bucketSize);
    ticks := [];
    var t := 0;
    while t <= endSecond
      invariant t == |ticks| * tickStep
      invariant forall i :: 0 <= i < |ticks| ==> ticks[i] == i * tickStep
      invariant |ticks| > 0 ==> (|ticks| - 1) * tickStep <= endSecond
      decreases endSecond - t
    {
      assert (|ticks| + 1) * tickStep == t + tickStep;
      ticks := ticks + [t];
      t := t + tickStep;
    }
    DivFromBounds(endSecond, tickStep, |ticks|);
    assert ticks == RegularTicks(endSecond, tickStep);
    if ticks[|ticks| - 1] != endSecond {
      ticks := ticks + [endSecond];
    }
  }

  /**
   * A 2.5-hour video lies past the 2-hour band, so it gets 30-minute buckets and a tick
   * every 1800 s; with one-minute buckets the same axis would tick every 900 s.
   */
  lemma NineThousandSecondsExample()
    ensures PickBucketSize(9000) == BucketPlan(1800, Minutes)
    ensures Ticks(9000, 1800) == [0, 1800, 3600, 5400, 7200, 9000]
    ensures Ticks(9000, 60) == [0, 900, 1800, 2700, 3600, 4500, 5400, 6300, 7200, 8100, 9000]
  {
    assert CeilDiv(9000, 1800) == 5 && CeilDiv(5, 10) == 1;
    assert CeilDiv(9000, 60) == 150 && CeilDiv(150, 10) == 15;
  }
}
