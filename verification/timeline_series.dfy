/**
 * The per-video person-count timeline (buildSelectedVideoTimeline in the dashboard page):
 * a sparse per-second signal is filled second by second by carrying the last known value
 * forward, averaged into fixed-width buckets and rounded, and paired with the axis ticks.
 */
module TimelineSeries {
  import opened Wrappers
  import opened Arith
  import opened TimelinePlan

  /** One observation: how many people were seen at a second of the video. */
  datatype Point = Point(second: nat, count: nat)

  /** One point of the chart series; uploads is always 1. */
  datatype Entry = Entry(second: nat, personCount: nat, uploads: nat)

  /** The part of a video's details the timeline reads. */
  datatype VideoDetails = VideoDetails(
    countsPerSecond: Option<seq<Point>>,
    durationSeconds: Option<real>,
    personCount: nat)

  /** What the dashboard draws for the selected video. */
  datatype SelectedTimeline = SelectedTimeline(
    data: seq<Entry>,
    ticks: seq<int>,
    endSecond: nat,
    granularity: Granularity)

  /** Running sum and sample count of one bucket. */
  datatype Accumulator = Accumulator(sum: nat, count: nat)

  /** Math.ceil on a real number. */
  function Ceil(x: real): (c: int)
    ensures x <= c as real < x + 1.0
  {
    -((-x).Floor)
  }

  /** The largest observed second, 0 for an empty series. */
  function MaxSecond(timeline: seq<Point>): (m: nat)
    ensures forall i :: 0 <= i < |timeline| ==> timeline[i].second <= m
    ensures |timeline| > 0 ==> exists i :: 0 <= i < |timeline| && timeline[i].second == m
    ensures |timeline| == 0 ==> m == 0
  {
    if |timeline| == 0 then 0
    else
      var rest := MaxSecond(timeline[..|timeline| - 1]);
      var last := timeline[|timeline| - 1].second;
      if rest < last then last else rest
  }

  /** The duration the timeline spans: the last observed second or the rounded-up reported duration. */
  function DurationSeconds(timeline: seq<Point>, reported: Option<real>): (d: int)
    ensures d >= MaxSecond(timeline)
    ensures reported.Some? ==> reported.value <= d as real
    ensures d == MaxSecond(timeline) || d as real < (if reported.Some? then reported.value else 0.0) + 1.0
  {
    Max(MaxSecond(timeline), Ceil(if reported.Some? then reported.value else 0.0))
  }

  /** The last second of the axis: the duration, or 0 when that is negative. */
  function EndSecond(durationSeconds: int): (e: nat)
    ensures e >= durationSeconds
    ensures e == durationSeconds || e == 0
  {
    if durationSeconds < 0 then 0 else durationSeconds
  }

  /** The axis reaches every observed second and the reported duration. */
  lemma EndSecondCovers(timeline: seq<Point>, reported: Option<real>)
    ensures var endSecond := EndSecond(DurationSeconds(timeline, reported));
      && (forall i :: 0 <= i < |timeline| ==> timeline[i].second <= endSecond)
      && (reported.Some? ==> reported.value <= endSecond as real)
  {
  }

  /**
   * The count the per-second map holds for second s once every observation has been
   * stored in order: that of the last observation at s, or none.
   */
  function CountAt(timeline: seq<Point>, s: nat): (c: Option<nat>)
    ensures c.Some? ==> exists i :: 0 <= i < |timeline| && timeline[i] == Point(s, c.value)
    ensures c.None? ==> forall i :: 0 <= i < |timeline| ==> timeline[i].second != s
  {
    if |timeline| == 0 then None
    else if timeline[|timeline| - 1].second == s then Some(timeline[|timeline| - 1].count)
    else CountAt(timeline[..|timeline| - 1], s)
  }

  /** CountAt is none exactly when s is never observed, and otherwise the count of the last observation at s. */
  lemma {:induction false} CountAtLastObservation(timeline: seq<Point>, s: nat)
    ensures CountAt(timeline, s).None? <==> forall i :: 0 <= i < |timeline| ==> timeline[i].second != s
    ensures CountAt(timeline, s).Some? ==>
              exists i :: 0 <= i < |timeline| && timeline[i] == Point(s, CountAt(timeline, s).value)
                && forall j :: i < j < |timeline| ==> timeline[j].second != s
  {
    if |timeline| > 0 {
      var init := timeline[..|timeline| - 1];
      CountAtLastObservation(init, s);
      if timeline[|timeline| - 1].second != s {
        if CountAt(init, s).Some? {
          var i :| 0 <= i < |init| && init[i] == Point(s, CountAt(init, s).value)
                   && forall j :: i < j < |init| ==> init[j].second != s;
          assert timeline[i] == init[i];
        }
      }
    }
  }

  /** The value carried in before any observation: the first entry's count, else the video's total. */
  function Initial(timeline: seq<Point>, fallbackCount: nat): nat
  {
    if |timeline| > 0 then timeline[0].count else fallbackCount
  }

  /** The carried-forward value at second s. */
  function ValueAt(timeline: seq<Point>, fallbackCount: nat, s: nat): (v: nat)
    ensures CountAt(timeline, s).Some? ==> v == CountAt(timeline, s).value
    decreases s
  {
    match CountAt(timeline, s)
    case Some(c) => c
    case None => if s == 0 then Initial(timeline, fallbackCount) else ValueAt(timeline, fallbackCount, s - 1)
  }

  /** The carried-forward value is the initial one or the count of an observation at or before the second. */
  lemma {:induction false} ValueAtObserved(timeline: seq<Point>, fallbackCount: nat, s: nat)
    ensures var v := ValueAt(timeline, fallbackCount, s);
      v == Initial(timeline, fallbackCount) || exists i :: 0 <= i < |timeline| && timeline[i].second <= s && timeline[i].count == v
    decreases s
  {
    if CountAt(timeline, s).None? && s > 0 {
      ValueAtObserved(timeline, fallbackCount, s - 1);
    }
  }

  /** After an observation at s0, the value stays at its count until the next observed second. */
  lemma {:induction false} CarryForward(timeline: seq<Point>, fallbackCount: nat, s0: nat, s: nat, c: nat)
    requires s0 <= s && CountAt(timeline, s0) == Some(c)
    requires forall s': nat :: s0 < s' <= s ==> CountAt(timeline, s').None?
    ensures ValueAt(timeline, fallbackCount, s) == c
    decreases s
  {
    if s > s0 {
      CarryForward(timeline, fallbackCount, s0, s - 1, c);
    }
  }

  /** Before the first observed second the value is the initial one. */
  lemma {:induction false} BeforeFirstObservation(timeline: seq<Point>, fallbackCount: nat, s: nat)
    requires forall s': nat :: s' <= s ==> CountAt(timeline, s').None?
    ensures ValueAt(timeline, fallbackCount, s) == Initial(timeline, fallbackCount)
    decreases s
  {
    if s > 0 {
      BeforeFirstObservation(timeline, fallbackCount, s - 1);
    }
  }

  /** The carried-forward value of every second of [0, endSecond]. */
  function Values(timeline: seq<Point>, fallbackCount: nat, endSecond: nat): (vals: seq<nat>)
    ensures |vals| == endSecond + 1
    ensures forall s :: 0 <= s <= endSecond ==> vals[s] == ValueAt(timeline, fallbackCount, s)
  {
    seq(endSecond + 1, s requires 0 <= s => ValueAt(timeline, fallbackCount, s))
  }

  function Sum(xs: seq<nat>): nat
  {
    if xs == [] then 0 else Sum(xs[..|xs| - 1]) + xs[|xs| - 1]
  }

  lemma SumAppend(xs: seq<nat>, x: nat)
    ensures Sum(xs + [x]) == Sum(xs) + x
  {
    assert (xs + [x])[..|xs|] == xs;
  }

  /** The accumulator of the bucket starting at start once the seconds before stop are added. */
  function Accumulate(vals: seq<nat>, start: nat, stop: nat): Accumulator
    requires start <= stop <= |vals|
  {
    Accumulator(Sum(vals[start..stop]), stop - start)
  }

  /** The chart point of the bucket covering the seconds [start, stop): their rounded mean. */
  function BucketEntry(vals: seq<nat>, start: nat, stop: nat): (e: Entry)
    requires start <= stop <= |vals|
    ensures e.second == start && e.uploads == 1
    ensures start == stop ==> e.personCount == 0
  {
    var acc := Accumulate(vals, start, stop);
    Entry(start, if acc.count > 0 then RoundHalfUp(acc.sum, acc.count) else 0, 1)
  }

  /** Where the bucket starting at start ends (exclusive): after bucketSize seconds or at the axis end. */
  function BucketStop(start: nat, bucketSize: nat, endSecond: nat): nat
  {
    Min(start + bucketSize, endSecond + 1)
  }

  /** The chart series: one point per bucket start 0, b, 2b, ... up to endSecond. */
  function Series(timeline: seq<Point>, fallbackCount: nat, endSecond: nat, bucketSize: nat): (series: seq<Entry>)
    requires bucketSize > 0
    ensures |series| == endSecond / bucketSize + 1
    ensures forall k :: 0 <= k < |series| ==> series[k].second == k * bucketSize && series[k].uploads == 1
  {
    var vals := Values(timeline, fallbackCount, endSecond);
    seq(endSecond / bucketSize + 1,
        k requires 0 <= k < endSecond / bucketSize + 1 =>
          FloorBound(k, bucketSize, endSecond);
          BucketEntry(vals, k * bucketSize, BucketStop(k * bucketSize, bucketSize, endSecond)))
  }

  /** The k-th bucket start of a series lies on the axis. */
  lemma FloorBound(k: nat, bucketSize: nat, endSecond: nat)
    requires bucketSize > 0 && k <= endSecond / bucketSize
    ensures k * bucketSize <= endSecond
  {
    FloorMultiple(endSecond, bucketSize);
    MulLe(k, endSecond / bucketSize, bucketSize);
  }

  /** The start of the bucket a second falls in: Math.floor(second / bucketSize) * bucketSize. */
  function BucketStartOf(second: nat, bucketSize: nat): (start: nat)
    requires bucketSize > 0
    ensures start <= second < start + bucketSize && start % bucketSize == 0
  {
    FloorMultiple(second, bucketSize);
    (second / bucketSize) * bucketSize
  }

  /** The countBySecond map: every observation stored in order, so the last one at a second wins. */
  method IndexBySecond(timeline: seq<Point>) returns (countBySecond: map<nat, nat>)
    ensures forall s: nat :: CountAt(timeline, s) == (if s in countBySecond then Some(countBySecond[s]) else None)
  {
    countBySecond := map[];
    var i := 0;
    while i < |timeline|
      invariant 0 <= i <= |timeline|
      invariant forall s: nat :: CountAt(timeline[..i], s) == (if s in countBySecond then Some(countBySecond[s]) else None)
    {
      assert timeline[..i + 1][..i] == timeline[..i];
      countBySecond := countBySecond[timeline[i].second := timeline[i].count];
      i := i + 1;
    }
    assert timeline[..|timeline|] == timeline;
  }

  /** The accumulator map once the seconds before `second` have been added. */
  ghost predicate AccumulatedUpTo(acc: map<nat, Accumulator>, vals: seq<nat>, second: nat, bucketSize: nat)
    requires bucketSize > 0 && second <= |vals|
  {
    AccumulatedKeys(acc, second, bucketSize) && AccumulatedValues(acc, vals, second, bucketSize)
  }

  /** The keys are the bucket starts below `second`. */
  ghost predicate AccumulatedKeys(acc: map<nat, Accumulator>, second: nat, bucketSize: nat)
    requires bucketSize > 0
  {
    forall key: nat :: key in acc <==> key < second && key % bucketSize == 0
  }

  /** Each entry holds the sum and count of its bucket's seconds below `second`. */
  ghost predicate AccumulatedValues(acc: map<nat, Accumulator>, vals: seq<nat>, second: nat, bucketSize: nat)
    requires second <= |vals|
  {
    forall key: nat :: key in acc ==> HoldsBucket(acc, vals, key, second, bucketSize)
  }

  /** The entry at key holds the sum and count of its bucket's seconds below `second`. */
  ghost predicate HoldsBucket(acc: map<nat, Accumulator>, vals: seq<nat>, key: nat, second: nat, bucketSize: nat)
    requires key in acc && second <= |vals|
  {
    key < second && acc[key] == Accumulate(vals, key, Min(key + bucketSize, second))
  }

  /**
   * The per-second loop: walk every second of [0, endSecond], carry the last known value
   * forward and add each second's value into the accumulator of its bucket start.
   */
  method AccumulateBuckets(timeline: seq<Point>, fallbackCount: nat, countBySecond: map<nat, nat>,
                           endSecond: nat, bucketSize: nat)
    returns (bucketAccumulator: map<nat, Accumulator>)
    requires bucketSize > 0
    requires Indexed(timeline, countBySecond)
    ensures AccumulatedUpTo(bucketAccumulator, Values(timeline, fallbackCount, endSecond), endSecond + 1, bucketSize)
  {
    bucketAccumulator := map[];
    var lastKnown: nat := if |timeline| > 0 then timeline[0].count else fallbackCount;
    var second := 0;
    while second <= endSecond
      invariant Carried(timeline, fallbackCount, endSecond, bucketSize, second, lastKnown, bucketAccumulator)
    {
      lastKnown, bucketAccumulator :=
        AccumulateSecond(timeline, fallbackCount, countBySecond, endSecond, bucketSize, second, lastKnown, bucketAccumulator);
      second := second + 1;
    }
    AccumulatorsAfterMeaning(Values(timeline, fallbackCount, endSecond), endSecond + 1, bucketSize);
  }

  /** The per-second loop's state after `second` seconds: the last value seen and the buckets filled so far. */
  ghost predicate Carried(timeline: seq<Point>, fallbackCount: nat, endSecond: nat, bucketSize: nat,
                          second: nat, lastKnown: nat, bucketAccumulator: map<nat, Accumulator>)
  {
    var vals := Values(timeline, fallbackCount, endSecond);
    && bucketSize > 0
    && second <= endSecond + 1
    && lastKnown == (if second > 0 then vals[second - 1] else Initial(timeline, fallbackCount))
    && bucketAccumulator == AccumulatorsAfter(vals, second, bucketSize)
  }

  ghost predicate Indexed(timeline: seq<Point>, countBySecond: map<nat, nat>)
  {
    forall s: nat :: CountAt(timeline, s) == (if s in countBySecond then Some(countBySecond[s]) else None)
  }

  /** One pass of the per-second loop: carry the last known value forward and add it to its bucket. */
  method AccumulateSecond(timeline: seq<Point>, fallbackCount: nat, countBySecond: map<nat, nat>, ghost endSecond: nat,
                          bucketSize: nat, second: nat, lastKnown: nat, bucketAccumulator: map<nat, Accumulator>)
    returns (known: nat, updated: map<nat, Accumulator>)
    requires second <= endSecond && Indexed(timeline, countBySecond)
    requires Carried(timeline, fallbackCount, endSecond, bucketSize, second, lastKnown, bucketAccumulator)
    ensures Carried(timeline, fallbackCount, endSecond, bucketSize, second + 1, known, updated)
  {
    ghost var vals := Values(timeline, fallbackCount, endSecond);
    known := lastKnown;
    var current := if second in countBySecond then Some(countBySecond[second]) else None;
    if current.Some? {
      known := current.value;
    }
    var value := if current.Some? then current.value else known;
    CarriedValue(timeline, fallbackCount, countBySecond, second, lastKnown);
    updated := AddToBucket(bucketAccumulator, vals, second, bucketSize, value);
  }

  /** Adds one second's value into the accumulator of the bucket the second falls in. */
  method AddToBucket(bucketAccumulator: map<nat, Accumulator>, ghost vals: seq<nat>, second: nat, bucketSize: nat, value: nat)
    returns (updated: map<nat, Accumulator>)
    requires bucketSize > 0 && second < |vals| && value == vals[second]
    requires bucketAccumulator == AccumulatorsAfter(vals, second, bucketSize)
    ensures updated == AccumulatorsAfter(vals, second + 1, bucketSize)
  {
    var bucketStart := BucketStartOf(second, bucketSize);
    var previous := if bucketStart in bucketAccumulator then bucketAccumulator[bucketStart] else Accumulator(0, 0);
    updated := bucketAccumulator[bucketStart := Accumulator(previous.sum + value, previous.count + 1)];
  }

  /**
   * The entries of the accumulator map, read in ascending order of bucket start. The keys
   * are exactly the multiples of bucketSize up to endSecond, so stepping through them is
   * the ascending sort of the entries.
   */
  method ReadBuckets(ghost vals: seq<nat>, bucketAccumulator: map<nat, Accumulator>, endSecond: nat, bucketSize: nat)
    returns (data: seq<Entry>)
    requires bucketSize > 0 && |vals| == endSecond + 1
    requires AccumulatedUpTo(bucketAccumulator, vals, endSecond + 1, bucketSize)
    ensures |data| == endSecond / bucketSize + 1
    ensures ReadUpTo(data, vals, endSecond, bucketSize)
  {
    data := [];
    var start := 0;
    while start <= endSecond
      invariant start == |data| * bucketSize
      invariant |data| > 0 ==> (|data| - 1) * bucketSize <= endSecond
      invariant ReadUpTo(data, vals, endSecond, bucketSize)
      decreases endSecond - start
    {
      BucketAt(vals, bucketAccumulator, endSecond, bucketSize, |data|);
      var bucket := bucketAccumulator[start];
      var personCount := if bucket.count > 0 then RoundHalfUp(bucket.sum, bucket.count) else 0;
      ReadStep(data, vals, endSecond, bucketSize, Entry(start, personCount, 1));
      data := data + [Entry(start, personCount, 1)];
      start := start + bucketSize;
    }
    DivFromBounds(endSecond, bucketSize, |data|);
  }

  /** The bucketizer of buildSelectedVideoTimeline: index, accumulate, read back in order. */
  method BuildSeries(timeline: seq<Point>, fallbackCount: nat, endSecond: nat, bucketSize: nat)
    returns (data: seq<Entry>)
    requires bucketSize > 0
    ensures data == Series(timeline, fallbackCount, endSecond, bucketSize)
  {
    var countBySecond := IndexBySecond(timeline);
    var bucketAccumulator := AccumulateBuckets(timeline, fallbackCount, countBySecond, endSecond, bucketSize);
    data := ReadBuckets(Values(timeline, fallbackCount, endSecond), bucketAccumulator, endSecond, bucketSize);
  }

  /**
   * buildSelectedVideoTimeline: the observations (none when absent), the axis end, the
   * bucket plan for the duration, the bucketed series and the axis ticks.
   */
  method BuildSelectedVideoTimeline(video: VideoDetails) returns (r: SelectedTimeline)
    ensures var timeline := if video.countsPerSecond.Some? then video.countsPerSecond.value else [];
      var plan := PickBucketSize(DurationSeconds(timeline, video.durationSeconds));
      && r.endSecond == EndSecond(DurationSeconds(timeline, video.durationSeconds))
      && r.granularity == plan.granularity
      && r.data == Series(timeline, video.personCount, r.endSecond, plan.bucketSizeSeconds)
      && r.ticks == Ticks(r.endSecond, plan.bucketSizeSeconds)
      && (forall i :: 0 <= i < |timeline| ==> timeline[i].second <= r.endSecond)
      && (video.durationSeconds.Some? ==> video.durationSeconds.value <= r.endSecond as real)
  {
    var timeline := if video.countsPerSecond.Some? then video.countsPerSecond.value else [];
    var durationSeconds := DurationSeconds(timeline, video.durationSeconds);
    var plan := PickBucketSize(durationSeconds);
    var endSecond := EndSecond(durationSeconds);
    EndSecondCovers(timeline, video.durationSeconds);
    var data := BuildSeries(timeline, video.personCount, endSecond, plan.bucketSizeSeconds);
    var ticks := BuildTimelineTicks(endSecond, plan.bucketSizeSeconds);
    r := SelectedTimeline(data, ticks, endSecond, plan.granularity);
  }

  /** The value the per-second loop adds at `second` is the carried-forward value. */
  lemma CarriedValue(timeline: seq<Point>, fallbackCount: nat, countBySecond: map<nat, nat>, second: nat, lastKnown: nat)
    requires forall s: nat :: CountAt(timeline, s) == (if s in countBySecond then Some(countBySecond[s]) else None)
    requires lastKnown == if second > 0 then ValueAt(timeline, fallbackCount, second - 1) else Initial(timeline, fallbackCount)
    ensures (if second in countBySecond then countBySecond[second] else lastKnown) == ValueAt(timeline, fallbackCount, second)
  {
    assert CountAt(timeline, second) == (if second in countBySecond then Some(countBySecond[second]) else None);
  }

  /** The series points read so far: the k-th one is the bucket starting at k * bucketSize. */
  ghost predicate ReadUpTo(data: seq<Entry>, vals: seq<nat>, endSecond: nat, bucketSize: nat)
    requires |vals| == endSecond + 1
  {
    forall k :: 0 <= k < |data| ==>
      k * bucketSize <= endSecond &&
      data[k] == BucketEntry(vals, k * bucketSize, BucketStop(k * bucketSize, bucketSize, endSecond))
  }

  /** The entry of the n-th bucket start is there and gives that bucket's point. */
  lemma BucketAt(vals: seq<nat>, acc: map<nat, Accumulator>, endSecond: nat, bucketSize: nat, n: nat)
    requires bucketSize > 0 && |vals| == endSecond + 1
    requires AccumulatedUpTo(acc, vals, endSecond + 1, bucketSize)
    requires n * bucketSize <= endSecond
    ensures n * bucketSize in acc
    ensures var bucket := acc[n * bucketSize];
      Entry(n * bucketSize, if bucket.count > 0 then RoundHalfUp(bucket.sum, bucket.count) else 0, 1)
      == BucketEntry(vals, n * bucketSize, BucketStop(n * bucketSize, bucketSize, endSecond))
  {
    MulDiv(n, bucketSize);
  }

  /** Appending the bucket at the next start extends the points read so far. */
  lemma ReadStep(data: seq<Entry>, vals: seq<nat>, endSecond: nat, bucketSize: nat, e: Entry)
    requires |vals| == endSecond + 1 && bucketSize > 0
    requires ReadUpTo(data, vals, endSecond, bucketSize)
    requires |data| * bucketSize <= endSecond
    requires e == BucketEntry(vals, |data| * bucketSize, BucketStop(|data| * bucketSize, bucketSize, endSecond))
    ensures ReadUpTo(data + [e], vals, endSecond, bucketSize)
    ensures |data + [e]| * bucketSize == |data| * bucketSize + bucketSize
  {
    MulSucc(|data|, bucketSize);
  }

  /**
   * The accumulator map after the first `second` seconds have been added, one second at a
   * time, each into the entry of its bucket start.
   */
  ghost function AccumulatorsAfter(vals: seq<nat>, second: nat, bucketSize: nat): (acc: map<nat, Accumulator>)
    requires bucketSize > 0 && second <= |vals|
    ensures second == 0 ==> acc == map[]
  {
    if second == 0 then map[]
    else
      var acc := AccumulatorsAfter(vals, second - 1, bucketSize);
      var bucketStart := BucketStartOf(second - 1, bucketSize);
      var previous := if bucketStart in acc then acc[bucketStart] else Accumulator(0, 0);
      acc[bucketStart := Accumulator(previous.sum + vals[second - 1], previous.count + 1)]
  }

  /** After `second` seconds, the keys are the bucket starts below `second` and each holds its bucket's sum and count. */
  lemma {:induction false} AccumulatorsAfterMeaning(vals: seq<nat>, second: nat, bucketSize: nat)
    requires bucketSize > 0 && second <= |vals|
    ensures AccumulatedUpTo(AccumulatorsAfter(vals, second, bucketSize), vals, second, bucketSize)
  {
    if second > 0 {
      var s := second - 1;
      AccumulatorsAfterMeaning(vals, s, bucketSize);
      var acc := AccumulatorsAfter(vals, s, bucketSize);
      var bucketStart := BucketStartOf(s, bucketSize);
      var previous := if bucketStart in acc then acc[bucketStart] else Accumulator(0, 0);
      AccumulatorStep(acc, vals, bucketStart, s, bucketSize, previous, Accumulator(previous.sum + vals[s], previous.count + 1));
    }
  }

  /** Adding one second's value to the bucket of its start keeps the accumulator map's invariant. */
  lemma AccumulatorStep(acc: map<nat, Accumulator>, vals: seq<nat>,
                        bucketStart: nat, second: nat, bucketSize: nat, previous: Accumulator, bucket: Accumulator)
    requires bucketSize > 0 && second < |vals|
    requires bucketStart == BucketStartOf(second, bucketSize)
    requires AccumulatedUpTo(acc, vals, second, bucketSize)
    requires previous == if bucketStart in acc then acc[bucketStart] else Accumulator(0, 0)
    requires bucket == Accumulator(previous.sum + vals[second], previous.count + 1)
    ensures AccumulatedUpTo(acc[bucketStart := bucket], vals, second + 1, bucketSize)
  {
    AccumulatorKeysStep(acc, vals, bucketStart, second, bucketSize, bucket);
    AccumulatorValuesStep(acc, vals, bucketStart, second, bucketSize, previous, bucket);
  }

  /** The keys after the step are the bucket starts up to the new second. */
  lemma AccumulatorKeysStep(acc: map<nat, Accumulator>, vals: seq<nat>,
                            bucketStart: nat, second: nat, bucketSize: nat, bucket: Accumulator)
    requires bucketSize > 0 && second < |vals|
    requires bucketStart == BucketStartOf(second, bucketSize)
    requires AccumulatedKeys(acc, second, bucketSize)
    ensures AccumulatedKeys(acc[bucketStart := bucket], second + 1, bucketSize)
  {
    forall key: nat ensures key in acc[bucketStart := bucket] <==> key < second + 1 && key % bucketSize == 0 {
      if key == second && key % bucketSize == 0 && key != bucketStart {
        MultiplesApart(bucketStart, key, bucketSize);
      }
    }
  }

  /** Every entry after the step holds its bucket's sum and count up to the new second. */
  lemma AccumulatorValuesStep(acc: map<nat, Accumulator>, vals: seq<nat>,
                              bucketStart: nat, second: nat, bucketSize: nat, previous: Accumulator, bucket: Accumulator)
    requires bucketSize > 0 && second < |vals|
    requires bucketStart == BucketStartOf(second, bucketSize)
    requires AccumulatedUpTo(acc, vals, second, bucketSize)
    requires previous == if bucketStart in acc then acc[bucketStart] else Accumulator(0, 0)
    requires bucket == Accumulator(previous.sum + vals[second], previous.count + 1)
    ensures AccumulatedValues(acc[bucketStart := bucket], vals, second + 1, bucketSize)
  {
    var acc' := acc[bucketStart := bucket];
    forall key: nat | key in acc'
      ensures HoldsBucket(acc', vals, key, second + 1, bucketSize)
    {
      if key != bucketStart {
        OtherBucketKept(acc, vals, key, bucketStart, second, bucketSize, bucket);
      } else {
        CurrentBucketGrows(acc, vals, bucketStart, second, bucketSize, previous, bucket);
      }
    }
  }

  /** A bucket other than the current second's one keeps its entry, which already covers the whole bucket. */
  lemma OtherBucketKept(acc: map<nat, Accumulator>, vals: seq<nat>, key: nat, bucketStart: nat, second: nat, bucketSize: nat,
                        bucket: Accumulator)
    requires bucketSize > 0 && second < |vals|
    requires bucketStart == BucketStartOf(second, bucketSize)
    requires AccumulatedUpTo(acc, vals, second, bucketSize)
    requires key in acc && key != bucketStart
    ensures HoldsBucket(acc[bucketStart := bucket], vals, key, second + 1, bucketSize)
  {
    assert HoldsBucket(acc, vals, key, second, bucketSize);
    OtherBucketComplete(key, bucketStart, second, bucketSize);
  }

  /** A bucket other than the current second's one is already complete. */
  lemma OtherBucketComplete(key: nat, bucketStart: nat, second: nat, bucketSize: nat)
    requires bucketSize > 0 && key % bucketSize == 0 && bucketStart % bucketSize == 0
    requires bucketStart <= second < bucketStart + bucketSize
    requires key < second && key != bucketStart
    ensures key + bucketSize <= second
  {
    if key < bucketStart {
      MultiplesApart(key, bucketStart, bucketSize);
    } else {
      MultiplesApart(bucketStart, key, bucketSize);
    }
  }

  /** The current second's bucket gains the second's value and one sample. */
  lemma CurrentBucketGrows(acc: map<nat, Accumulator>, vals: seq<nat>,
                           bucketStart: nat, second: nat, bucketSize: nat, previous: Accumulator, bucket: Accumulator)
    requires bucketSize > 0 && second < |vals|
    requires bucketStart % bucketSize == 0
    requires bucketStart <= second < bucketStart + bucketSize
    requires AccumulatedUpTo(acc, vals, second, bucketSize)
    requires previous == if bucketStart in acc then acc[bucketStart] else Accumulator(0, 0)
    requires bucket == Accumulator(previous.sum + vals[second], previous.count + 1)
    ensures HoldsBucket(acc[bucketStart := bucket], vals, bucketStart, second + 1, bucketSize)
  {
    if bucketStart in acc {
      assert HoldsBucket(acc, vals, bucketStart, second, bucketSize);
    }
    var before := if bucketStart in acc then vals[bucketStart..second] else [];
    assert bucketStart !in acc ==> bucketStart == second;
    assert vals[bucketStart..second + 1] == before + [vals[second]];
    SumAppend(before, vals[second]);
  }

  /**
   * The series has floor(endSecond / bucketSize) + 1 points, at 0, b, 2b, ... in ascending
   * order with no gaps, each with uploads 1, and the last point's bucket reaches endSecond.
   */
  lemma SeriesShape(timeline: seq<Point>, fallbackCount: nat, endSecond: nat, bucketSize: nat)
    requires bucketSize > 0
    ensures var data := Series(timeline, fallbackCount, endSecond, bucketSize);
      && |data| == endSecond / bucketSize + 1
      && (forall k :: 0 <= k < |data| ==> data[k].second == k * bucketSize && data[k].uploads == 1)
      && (forall i, j :: 0 <= i < j < |data| ==> data[i].second < data[j].second)
      && data[|data| - 1].second <= endSecond < data[|data| - 1].second + bucketSize
  {
    var data := Series(timeline, fallbackCount, endSecond, bucketSize);
    StartsAscending(data, bucketSize);
    LastStart(endSecond, bucketSize);
  }

  /** Starts at 0, b, 2b, ... are strictly ascending. */
  lemma StartsAscending(data: seq<Entry>, bucketSize: nat)
    requires bucketSize > 0
    requires forall k :: 0 <= k < |data| ==> data[k].second == k * bucketSize
    ensures forall i, j :: 0 <= i < j < |data| ==> data[i].second < data[j].second
  {
    forall i, j | 0 <= i < j < |data|
      ensures data[i].second < data[j].second
    {
      MulSucc(i, bucketSize);
      MulLe(i + 1, j, bucketSize);
    }
  }

  /** The last bucket start, floor(endSecond / b) * b, is within one bucket of endSecond. */
  lemma LastStart(endSecond: nat, bucketSize: nat)
    requires bucketSize > 0
    ensures (endSecond / bucketSize) * bucketSize <= endSecond < (endSecond / bucketSize) * bucketSize + bucketSize
  {
    FloorMultiple(endSecond, bucketSize);
  }

  /** Every bucket but the last holds bucketSize seconds; the last holds the seconds from its start to endSecond. */
  lemma BucketWidths(endSecond: nat, bucketSize: nat, k: nat)
    requires bucketSize > 0 && k <= endSecond / bucketSize
    ensures k < endSecond / bucketSize ==> BucketStop(k * bucketSize, bucketSize, endSecond) == k * bucketSize + bucketSize
    ensures k == endSecond / bucketSize ==> BucketStop(k * bucketSize, bucketSize, endSecond) == endSecond + 1
    ensures k * bucketSize < BucketStop(k * bucketSize, bucketSize, endSecond)
  {
    FloorMultiple(endSecond, bucketSize);
    MulSucc(k, bucketSize);
    if k < endSecond / bucketSize {
      MulLe(k + 1, endSecond / bucketSize, bucketSize);
    }
  }

  /** Second s of the axis is averaged into the point at index s / bucketSize. */
  lemma SecondInItsBucket(endSecond: nat, bucketSize: nat, s: nat)
    requires bucketSize > 0 && s <= endSecond
    ensures s / bucketSize <= endSecond / bucketSize
    ensures (s / bucketSize) * bucketSize <= s < BucketStop((s / bucketSize) * bucketSize, bucketSize, endSecond)
  {
    FloorMultiple(s, bucketSize);
    FloorMultiple(endSecond, bucketSize);
    MultipleBelowFloor((s / bucketSize) * bucketSize, endSecond, bucketSize);
    MulDiv(s / bucketSize, bucketSize);
    MulDiv(endSecond / bucketSize, bucketSize);
    if s / bucketSize > endSecond / bucketSize {
      MulSucc(endSecond / bucketSize, bucketSize);
      MulLe(endSecond / bucketSize + 1, s / bucketSize, bucketSize);
    }
  }

  /** Bounds on every element bound the sum. */
  lemma {:induction false} SumBetween(xs: seq<nat>, lo: nat, hi: nat)
    requires forall i :: 0 <= i < |xs| ==> lo <= xs[i] <= hi
    ensures lo * |xs| <= Sum(xs) <= hi * |xs|
  {
    if xs != [] {
      var init := xs[..|xs| - 1];
      SumBetween(init, lo, hi);
      assert xs == init + [xs[|xs| - 1]];
      BoundsStep(Sum(init), xs[|xs| - 1], |init|, lo, hi);
    }
  }

  /** Adding a value within [lo, hi] to a sum of n such values gives a sum of n + 1 of them. */
  lemma BoundsStep(sum: nat, x: nat, n: nat, lo: nat, hi: nat)
    requires lo * n <= sum <= hi * n && lo <= x <= hi
    ensures lo * (n + 1) <= sum + x <= hi * (n + 1)
  {
    assert lo * (n + 1) == lo * n + lo;
    assert hi * (n + 1) == hi * n + hi;
  }

  /**
   * A point's person count is the rounded mean of its bucket's seconds, so it lies between
   * the smallest and the largest value of those seconds; buckets are never empty, so the
   * zero fallback is never taken.
   */
  lemma BucketMeanBetween(vals: seq<nat>, start: nat, stop: nat, lo: nat, hi: nat)
    requires start < stop <= |vals|
    requires forall s :: start <= s < stop ==> lo <= vals[s] <= hi
    ensures BucketEntry(vals, start, stop).personCount == RoundHalfUp(Sum(vals[start..stop]), stop - start)
    ensures lo <= BucketEntry(vals, start, stop).personCount <= hi
  {
    var xs := vals[start..stop];
    assert forall i :: 0 <= i < |xs| ==> xs[i] == vals[start + i];
    SumBetween(xs, lo, hi);
    RoundHalfUpBetween(Sum(xs), stop - start, lo, hi);
  }

  /** The same bound for the points of the series, with the carried-forward values of the bucket's seconds. */
  lemma SeriesPointBetween(timeline: seq<Point>, fallbackCount: nat, endSecond: nat, bucketSize: nat, k: nat, lo: nat, hi: nat)
    requires bucketSize > 0 && k <= endSecond / bucketSize
    requires forall s: nat :: k * bucketSize <= s < BucketStop(k * bucketSize, bucketSize, endSecond) ==>
               lo <= ValueAt(timeline, fallbackCount, s) <= hi
    ensures k < |Series(timeline, fallbackCount, endSecond, bucketSize)|
    ensures lo <= Series(timeline, fallbackCount, endSecond, bucketSize)[k].personCount <= hi
  {
    BucketWidths(endSecond, bucketSize, k);
    var vals := Values(timeline, fallbackCount, endSecond);
    BucketMeanBetween(vals, k * bucketSize, BucketStop(k * bucketSize, bucketSize, endSecond), lo, hi);
  }

  /** With one-second buckets every point is its own second's carried-forward value. */
  lemma OneSecondBuckets(timeline: seq<Point>, fallbackCount: nat, endSecond: nat)
    ensures |Series(timeline, fallbackCount, endSecond, 1)| == endSecond + 1
    ensures forall k :: 0 <= k <= endSecond ==>
              Series(timeline, fallbackCount, endSecond, 1)[k] == Entry(k, ValueAt(timeline, fallbackCount, k), 1)
  {
    var vals := Values(timeline, fallbackCount, endSecond);
    var data := Series(timeline, fallbackCount, endSecond, 1);
    forall k | 0 <= k <= endSecond
      ensures data[k] == Entry(k, ValueAt(timeline, fallbackCount, k), 1)
    {
      assert vals[k..k + 1] == [vals[k]];
      assert Sum([vals[k]]) == vals[k];
    }
  }

  /** Observations (0, 5) and (3, 9) on a five-second axis with one-second buckets: 5, 5, 5, 9, 9, 9. */
  lemma CarryForwardExample()
    ensures Series([Point(0, 5), Point(3, 9)], 0, 5, 1)
            == [Entry(0, 5, 1), Entry(1, 5, 1), Entry(2, 5, 1), Entry(3, 9, 1), Entry(4, 9, 1), Entry(5, 9, 1)]
  {
    var timeline := [Point(0, 5), Point(3, 9)];
    assert timeline[..1] == [Point(0, 5)];
    assert [Point(0, 5)][..0] == [];
    assert CountAt(timeline, 0) == Some(5);
    forall s: nat | 0 < s <= 2 ensures CountAt(timeline, s).None? {
      assert CountAt(timeline, s) == CountAt([Point(0, 5)], s) == CountAt([], s);
    }
    assert CountAt(timeline, 3) == Some(9);
    forall s: nat | 3 < s <= 5 ensures CountAt(timeline, s).None? {
      assert CountAt(timeline, s) == CountAt([Point(0, 5)], s) == CountAt([], s);
    }
    forall s | 0 <= s <= 2 ensures ValueAt(timeline, 0, s) == 5 {
      CarryForward(timeline, 0, 0, s, 5);
    }
    forall s | 3 <= s <= 5 ensures ValueAt(timeline, 0, s) == 9 {
      CarryForward(timeline, 0, 3, s, 9);
    }
    OneSecondBuckets(timeline, 0, 5);
  }

  /** With no observations, every second carries the video's total person count. */
  lemma EmptyTimelineExample()
    ensures Series([], 3, 2, 1) == [Entry(0, 3, 1), Entry(1, 3, 1), Entry(2, 3, 1)]
  {
    forall s | 0 <= s <= 2 ensures ValueAt([], 3, s) == 3 {
      BeforeFirstObservation([], 3, s);
    }
    OneSecondBuckets([], 3, 2);
  }
}
