/**
 Windowed aggregation (src/aggregator.rs). Values are reals; the sample count is a 32-bit
 counter that wraps. The map of accumulators has no iteration order, so the order of batches
 and of points inside a batch is left open.
 */
module Aggregator {
  import opened Types
  import opened Schema

  const COUNT_MODULUS: nat := 0x1_0000_0000
  const NANOS: nat := 1_000_000_000

  /** An f64 that may also be one of the infinities an empty accumulator starts from. */
  datatype Extended = NegInfinity | Finite(value: real) | Infinity

  datatype PointAgg = PointAgg(sum: real, count: nat, min: Extended, max: Extended, unit: string)

  type Accumulators = map<PointId, PointAgg>

  function Fresh(unit: string): PointAgg {
    PointAgg(0.0, 0, Infinity, NegInfinity, unit)
  }

  function MinOf(a: Extended, v: real): Extended {
    if a.Infinity? || (a.Finite? && v < a.value) then Finite(v) else a
  }

  function MaxOf(a: Extended, v: real): Extended {
    if a.NegInfinity? || (a.Finite? && v > a.value) then Finite(v) else a
  }

  function Add(a: PointAgg, v: real): PointAgg {
    PointAgg(a.sum + v, (a.count + 1) % COUNT_MODULUS, MinOf(a.min, v), MaxOf(a.max, v), a.unit)
  }

  function Recorded(agg: Accumulators, r: Reading): Accumulators {
    if r.pointId in agg then agg[r.pointId := Add(agg[r.pointId], r.value)] else agg
  }

  function Cleared(agg: Accumulators): Accumulators {
    map id | id in agg :: Fresh(agg[id].unit)
  }

  function PointOf(id: PointId, a: PointAgg): AggregatedPoint
    requires a.count > 0
  {
    AggregatedPoint(id.point, a.unit, a.sum / a.count as real)
  }

  // ---------------------------------------------------------------- what a flush emits

  ghost predicate Appears(batches: seq<AggregatedBatch>, id: PointId, p: AggregatedPoint) {
    exists b :: b in batches && b.deviceId == id.device && p in b.points && p.name == id.point
  }

  ghost predicate NamesDistinct(points: seq<AggregatedPoint>) {
    forall i, j :: 0 <= i < j < |points| ==> points[i].name != points[j].name
  }

  ghost predicate DevicesDistinct(batches: seq<AggregatedBatch>) {
    forall i, j :: 0 <= i < j < |batches| ==> batches[i].deviceId != batches[j].deviceId
  }

  /** One nonempty batch per device with samples, each sampled point in it once, nothing else. */
  ghost predicate IsFlush(agg: Accumulators, windowStart: int, windowEnd: int, batches: seq<AggregatedBatch>) {
    && DevicesDistinct(batches)
    && (forall b :: b in batches ==>
          b.windowStart == windowStart && b.windowEnd == windowEnd && b.points != [] && NamesDistinct(b.points))
    && (forall id, p :: Appears(batches, id, p) <==> id in agg && agg[id].count > 0 && p == PointOf(id, agg[id]))
  }

  /** Wait until, and Unix second of, the next multiple of the window: the least one strictly after `now`. */
  function NextBoundary(now: nat, windowSecs: nat): (r: (nat, nat))
    requires windowSecs > 0
    ensures var (wait, boundary) := r;
      && boundary % windowSecs == 0
      && now + wait == boundary * 1_000_000_000
      && 0 < wait <= windowSecs * 1_000_000_000
  {
    var boundary := (now / NANOS / windowSecs + 1) * windowSecs;
    BoundaryBounds(now / NANOS, windowSecs);
    (boundary * NANOS - now, boundary)
  }

  lemma BoundaryBounds(secs: nat, window: nat)
    requires window > 0
    ensures secs < (secs / window + 1) * window <= secs + window
    ensures ((secs / window + 1) * window) % window == 0
  {
    assert secs == secs / window * window + secs % window;
    MultipleOf(secs / window + 1, window);
  }

  lemma MulOrder(a: int, b: int, w: nat)
    requires a <= b
    ensures a * w <= b * w
  {
  }

  lemma MultipleOf(k: nat, window: nat)
    requires window > 0
    ensures (k * window) % window == 0
  {
    EuclideanUnique(k * window, k, 0, window);
  }

  lemma NextMultiple(end: int, window: nat)
    requires window > 0 && end % window == 0
    ensures (end + window) % window == 0
  {
    var q := end / window;
    assert end + window == (q + 1) * window + 0;
    EuclideanUnique(end + window, q + 1, 0, window);
  }

  lemma EuclideanUnique(x: int, q: int, r: int, window: nat)
    requires window > 0 && x == q * window + r && 0 <= r < window
    ensures x % window == r
  {
    var q', r' := x / window, x % window;
    assert x == q' * window + r';
    if q < q' {
      MulOrder(q + 1, q', window);
      assert false;
    }
    if q' < q {
      MulOrder(q' + 1, q, window);
      assert false;
    }
  }

  lemma BoundaryIsLeast(now: nat, windowSecs: nat, k: nat)
    requires windowSecs > 0 && k * windowSecs * NANOS > now
    ensures NextBoundary(now, windowSecs).1 <= k * windowSecs
  {
    var q := now / NANOS / windowSecs;
    assert k * windowSecs > now / NANOS;
    assert now / NANOS >= q * windowSecs;
    if k <= q {
      MulOrder(k, q, windowSecs);
      assert false;
    }
    MulOrder(q + 1, k, windowSecs);
  }

  // ---------------------------------------------------------------- the task's state

  class Aggregator {
    var agg: Accumulators
    var windowEnd: int  // Unix seconds
    var deadline: int   // monotonic nanoseconds
    const windowSecs: nat

    constructor (agg: Accumulators, windowSecs: nat, nowUnix: nat, nowMonotonic: int)
      requires windowSecs > 0
      ensures this.agg == agg && this.windowSecs == windowSecs
      ensures windowEnd == NextBoundary(nowUnix, windowSecs).1
      ensures deadline - nowMonotonic == windowEnd * NANOS - nowUnix
    {
      var (wait, boundary) := NextBoundary(nowUnix, windowSecs);
      this.agg, this.windowSecs := agg, windowSecs;
      windowEnd, deadline := boundary, nowMonotonic + wait;
    }

    method Record(r: Reading)
      modifies this`agg
      ensures agg == Recorded(old(agg), r)
    {
      if r.pointId in agg {
        var a := agg[r.pointId];
        agg := agg[r.pointId := PointAgg(a.sum + r.value, (a.count + 1) % COUNT_MODULUS, MinOf(a.min, r.value), MaxOf(a.max, r.value), a.unit)];
      }
    }

    /** Visits the accumulators in an arbitrary order, grouping by device and resetting as it goes. */
    method Flush(windowStart: int, windowEnd: int) returns (batches: seq<AggregatedBatch>)
      modifies this`agg
      ensures IsFlush(old(agg), windowStart, windowEnd, batches)
      ensures agg == Cleared(old(agg))
    {
      var byDevice: map<string, seq<AggregatedPoint>> := map[];
      var todo := agg.Keys;
      while todo != {}
        invariant todo <= agg.Keys == old(agg).Keys && WellGrouped(byDevice)
        invariant forall id :: id in agg ==> agg[id] == if id in todo then old(agg)[id] else Fresh(old(agg)[id].unit)
        invariant forall id, p :: Grouped(byDevice, id, p) <==> id in old(agg) && id !in todo && IsPointOf(p, id, old(agg)[id])
        decreases |todo|
      {
        var id :| id in todo;
        var a := agg[id];
        byDevice := Group(byDevice, id, a);
        agg := agg[id := Fresh(a.unit)];
        todo := todo - {id};
      }
      batches := ToBatches(byDevice, windowStart, windowEnd);
      assert agg == Cleared(old(agg));
    }

    /** The timer branch, up to the blocking sends: flush and advance by exactly one window. */
    method Tick() returns (batches: seq<AggregatedBatch>)
      modifies this
      ensures IsFlush(old(agg), old(windowEnd) - windowSecs, old(windowEnd), batches)
      ensures agg == Cleared(old(agg))
      ensures windowEnd == old(windowEnd) + windowSecs && deadline == old(deadline) + windowSecs * NANOS
    {
      batches := Flush(windowEnd - windowSecs, windowEnd);
      windowEnd := windowEnd + windowSecs;
      deadline := deadline + windowSecs * NANOS;
    }
  }

  ghost predicate Grouped(byDevice: map<string, seq<AggregatedPoint>>, id: PointId, p: AggregatedPoint) {
    id.device in byDevice && p in byDevice[id.device] && p.name == id.point
  }

  ghost predicate WellGrouped(byDevice: map<string, seq<AggregatedPoint>>) {
    forall d :: d in byDevice ==> byDevice[d] != [] && NamesDistinct(byDevice[d])
  }

  predicate IsPointOf(p: AggregatedPoint, id: PointId, a: PointAgg) {
    a.count > 0 && p == PointOf(id, a)
  }

  /** Pushes the point, if it has samples, to its device's group. */
  method Group(byDevice: map<string, seq<AggregatedPoint>>, id: PointId, a: PointAgg) returns (r: map<string, seq<AggregatedPoint>>)
    requires WellGrouped(byDevice) && forall p :: !Grouped(byDevice, id, p)
    ensures WellGrouped(r)
    ensures forall other, p :: Grouped(r, other, p) <==> Grouped(byDevice, other, p) || (other == id && IsPointOf(p, id, a))
  {
    if a.count == 0 {
      return byDevice;
    }
    var points := if id.device in byDevice then byDevice[id.device] else [];
    forall q | q in points ensures q.name != id.point {
      assert !Grouped(byDevice, id, q);
    }
    r := byDevice[id.device := points + [PointOf(id, a)]];
  }

  method ToBatches(byDevice: map<string, seq<AggregatedPoint>>, windowStart: int, windowEnd: int)
    returns (batches: seq<AggregatedBatch>)
    requires WellGrouped(byDevice)
    ensures DevicesDistinct(batches)
    ensures forall b :: b in batches ==>
              b.windowStart == windowStart && b.windowEnd == windowEnd && b.points != [] && NamesDistinct(b.points)
    ensures forall id, p :: Appears(batches, id, p) <==> Grouped(byDevice, id, p)
  {
    batches := [];
    var todo := byDevice.Keys;
    while todo != {}
      invariant todo <= byDevice.Keys && DevicesDistinct(batches)
      invariant forall b :: b in batches ==> b.deviceId in byDevice && b.deviceId !in todo
      invariant forall b :: b in batches ==> b == AggregatedBatch(b.deviceId, windowStart, windowEnd, byDevice[b.deviceId])
      invariant forall d :: d in byDevice && d !in todo ==> AggregatedBatch(d, windowStart, windowEnd, byDevice[d]) in batches
      decreases |todo|
    {
      var d :| d in todo;
      batches := batches + [AggregatedBatch(d, windowStart, windowEnd, byDevice[d])];
      todo := todo - {d};
    }
  }

  // ---------------------------------------------------------------- refinement to the list of readings

  /** The values received for one point, in order. */
  function Values(readings: seq<Reading>, id: PointId): seq<real> {
    if readings == [] then []
    else
      var last := readings[|readings| - 1];
      Values(readings[..|readings| - 1], id) + if last.pointId == id then [last.value] else []
  }

  function Sum(vs: seq<real>): real {
    if vs == [] then 0.0 else Sum(vs[..|vs| - 1]) + vs[|vs| - 1]
  }

  function Summary(vs: seq<real>, unit: string): PointAgg {
    if vs == [] then Fresh(unit) else Add(Summary(vs[..|vs| - 1], unit), vs[|vs| - 1])
  }

  /** The accumulators that summarise exactly these readings, for the configured points. */
  function AggOf(units: map<PointId, string>, readings: seq<Reading>): Accumulators {
    map id | id in units :: Summary(Values(readings, id), units[id])
  }

  lemma RecordRefines(units: map<PointId, string>, readings: seq<Reading>, r: Reading)
    ensures Recorded(AggOf(units, readings), r) == AggOf(units, readings + [r])
  {
    var all := readings + [r];
    assert all[..|all| - 1] == readings;
    forall id | id in units
      ensures Recorded(AggOf(units, readings), r)[id] == Summary(Values(all, id), units[id])
    {
      var vs := Values(readings, id);
      if r.pointId == id {
        assert (vs + [r.value])[..|vs|] == vs;
      } else {
        assert vs + [] == vs;
      }
    }
  }

  lemma ClearRefines(units: map<PointId, string>, readings: seq<Reading>)
    ensures Cleared(AggOf(units, readings)) == AggOf(units, [])
  {
    forall id | id in units ensures AggOf(units, readings)[id].unit == units[id] {
      UnitKept(Values(readings, id), units[id]);
    }
  }

  lemma {:induction false} UnitKept(vs: seq<real>, unit: string)
    ensures Summary(vs, unit).unit == unit
  {
    if vs != [] {
      UnitKept(vs[..|vs| - 1], unit);
    }
  }

  lemma {:induction false} SummaryCounts(vs: seq<real>, unit: string)
    ensures Summary(vs, unit).sum == Sum(vs) && Summary(vs, unit).count == |vs| % COUNT_MODULUS
  {
    if vs != [] {
      SummaryCounts(vs[..|vs| - 1], unit);
    }
  }

  /** The extremes of an accumulator that has seen exactly the values `vs`. */
  ghost predicate ExtremesOf(a: PointAgg, vs: seq<real>) {
    && a.min.Finite? && a.max.Finite? && a.min.value in vs && a.max.value in vs
    && forall v :: v in vs ==> a.min.value <= v <= a.max.value
  }

  lemma FirstExtreme(unit: string, v: real)
    ensures ExtremesOf(Add(Fresh(unit), v), [v])
  {
  }

  lemma OneMoreExtreme(a: PointAgg, vs: seq<real>, v: real)
    requires ExtremesOf(a, vs)
    ensures ExtremesOf(Add(a, v), vs + [v])
  {
  }

  lemma OneMoreValue(vs: seq<real>, v: real, unit: string)
    ensures Summary(vs + [v], unit) == Add(Summary(vs, unit), v)
  {
    assert (vs + [v])[..|vs|] == vs;
  }

  lemma {:induction false} SummaryExtremes(vs: seq<real>, unit: string)
    requires vs != []
    ensures ExtremesOf(Summary(vs, unit), vs)
  {
    var init, last := vs[..|vs| - 1], vs[|vs| - 1];
    OneMoreValue(init, last, unit);
    assert vs == init + [last];
    if init == [] {
      FirstExtreme(unit, last);
    } else {
      SummaryExtremes(init, unit);
      OneMoreExtreme(Summary(init, unit), init, last);
    }
  }

  lemma {:induction false} SumBetween(vs: seq<real>, lo: real, hi: real)
    requires forall i :: 0 <= i < |vs| ==> lo <= vs[i] <= hi
    ensures lo * |vs| as real <= Sum(vs) <= hi * |vs| as real
  {
    if vs != [] {
      var n := (|vs| - 1) as real;
      SumBetween(vs[..|vs| - 1], lo, hi);
      assert |vs| as real == n + 1.0;
      assert lo * (n + 1.0) == lo * n + lo;
      assert hi * (n + 1.0) == hi * n + hi;
    }
  }

  /** `p` is the point `id` with the mean of its readings, if its 32-bit sample count is not zero. */
  ghost predicate IsSampledMean(units: map<PointId, string>, readings: seq<Reading>, id: PointId, p: AggregatedPoint) {
    var n := |Values(readings, id)| % COUNT_MODULUS;
    id in units && n > 0 && p == AggregatedPoint(id.point, units[id], Sum(Values(readings, id)) / n as real)
  }

  /**
   What a flush of a window means, in terms of the readings of that window alone: a configured
   point appears, once and in its device's batch, iff its 32-bit sample count is not zero, with
   the sum of its values divided by that count.
   */
  lemma FlushIsGroupedMeans(units: map<PointId, string>, readings: seq<Reading>, windowStart: int, windowEnd: int, batches: seq<AggregatedBatch>)
    requires IsFlush(AggOf(units, readings), windowStart, windowEnd, batches)
    ensures forall id, p :: Appears(batches, id, p) <==> IsSampledMean(units, readings, id, p)
  {
    forall id | id in units
      ensures AggOf(units, readings)[id].count == |Values(readings, id)| % COUNT_MODULUS
      ensures AggOf(units, readings)[id].sum == Sum(Values(readings, id))
      ensures AggOf(units, readings)[id].unit == units[id]
    {
      SummaryCounts(Values(readings, id), units[id]);
      UnitKept(Values(readings, id), units[id]);
    }
  }

  /** A point with samples is published exactly when their number is not a multiple of 2^32. */
  lemma PublishedWhenSampled(units: map<PointId, string>, readings: seq<Reading>, windowStart: int, windowEnd: int,
                             batches: seq<AggregatedBatch>, id: PointId)
    requires IsFlush(AggOf(units, readings), windowStart, windowEnd, batches) && id in units
    ensures (exists p :: Appears(batches, id, p)) <==> |Values(readings, id)| % 0x1_0000_0000 != 0
  {
    FlushIsGroupedMeans(units, readings, windowStart, windowEnd, batches);
    var vs := Values(readings, id);
    var n := |vs| % COUNT_MODULUS;
    if n != 0 {
      var p := AggregatedPoint(id.point, units[id], Sum(vs) / n as real);
      assert IsSampledMean(units, readings, id, p);
    }
  }

  /**
   A published value is the mean of the point's readings exactly when the 32-bit sample count did
   not wrap, or the readings add up to zero, where the divisor does not matter.
   */
  lemma PublishedMean(units: map<PointId, string>, readings: seq<Reading>, windowStart: int, windowEnd: int,
                      batches: seq<AggregatedBatch>, id: PointId, p: AggregatedPoint)
    requires IsFlush(AggOf(units, readings), windowStart, windowEnd, batches) && Appears(batches, id, p)
    ensures var vs := Values(readings, id);
      id in units && vs != [] && (p.mean == Mean(vs) <==> |vs| < COUNT_MODULUS || Sum(vs) == 0.0)
  {
    hide Values, Sum, AggOf, IsFlush, Mean;
    FlushIsGroupedMeans(units, readings, windowStart, windowEnd, batches);
    SampledMeanExactly(units, readings, id, p);
  }

  lemma SampledMeanExactly(units: map<PointId, string>, readings: seq<Reading>, id: PointId, p: AggregatedPoint)
    requires IsSampledMean(units, readings, id, p)
    ensures var vs := Values(readings, id);
      vs != [] && (p.mean == Mean(vs) <==> |vs| < COUNT_MODULUS || Sum(vs) == 0.0)
  {
    hide Values, Sum;
    var vs := Values(readings, id);
    WrapsAbove(|vs|);
    SameQuotient(Sum(vs), (|vs| % COUNT_MODULUS) as real, |vs| as real);
  }

  lemma WrapsAbove(n: nat)
    ensures n % COUNT_MODULUS == n <==> n < COUNT_MODULUS
  {
  }

  lemma SameQuotient(sum: real, a: real, b: real)
    requires a > 0.0 && b > 0.0
    ensures sum / a == sum / b <==> a == b || sum == 0.0
  {
    var x, y := sum / a, sum / b;
    assert x * a == sum && y * b == sum;
    if x == y && a != b {
      assert x * (a - b) == 0.0;
    }
  }

  /** The mean lies between the recorded extremes, which are values received. */
  lemma MeanBetweenExtremes(vs: seq<real>, unit: string)
    requires vs != []
    ensures var a := Summary(vs, unit);
      a.min.Finite? && a.max.Finite? && a.min.value in vs && a.max.value in vs
      && a.min.value <= Mean(vs) <= a.max.value
  {
    SummaryExtremes(vs, unit);
    var a := Summary(vs, unit);
    MeanWithin(vs, a.min.value, a.max.value);
  }

  function Mean(vs: seq<real>): real
    requires vs != []
  {
    Sum(vs) / |vs| as real
  }

  lemma MeanWithin(vs: seq<real>, lo: real, hi: real)
    requires vs != [] && forall v :: v in vs ==> lo <= v <= hi
    ensures lo <= Mean(vs) <= hi
  {
    assert forall i :: 0 <= i < |vs| ==> vs[i] in vs;
    SumBetween(vs, lo, hi);
    MeanBetween(lo, Sum(vs), hi, |vs| as real);
  }

  lemma ScaleStrict(a: real, b: real, n: real)
    requires a < b && n > 0.0
    ensures a * n < b * n
  {
  }

  lemma MeanBetween(lo: real, sum: real, hi: real, n: real)
    requires n > 0.0 && lo * n <= sum <= hi * n
    ensures lo <= sum / n <= hi
  {
    var q := sum / n;
    assert q * n == sum;
    if q < lo {
      ScaleStrict(q, lo, n);
      assert false;
    }
    if q > hi {
      ScaleStrict(hi, q, n);
      assert false;
    }
  }

  // ---------------------------------------------------------------- whole runs

  datatype Input = Received(reading: Reading) | Ticked

  /** The readings received since the last tick. */
  function LiveReadings(inputs: seq<Input>): seq<Reading> {
    if inputs == [] then []
    else match inputs[|inputs| - 1]
      case Received(r) => LiveReadings(inputs[..|inputs| - 1]) + [r]
      case Ticked => []
  }

  function Ticks(inputs: seq<Input>): nat {
    if inputs == [] then 0 else Ticks(inputs[..|inputs| - 1]) + if inputs[|inputs| - 1].Ticked? then 1 else 0
  }

  /** Consecutive window ends: each window starts where the one before it ended. */
  ghost predicate Tiles(ends: seq<int>, window: nat) {
    forall k :: 0 <= k < |ends| - 1 ==> ends[k + 1] == ends[k] + window
  }

  /** The k-th tick emitted the means of the k-th window's readings, labelled with the k-th window. */
  ghost predicate EmittedFor(units: map<PointId, string>, windows: seq<seq<Reading>>, ends: seq<int>, window: nat, emitted: seq<seq<AggregatedBatch>>) {
    && |emitted| == |windows| == |ends| - 1 && Tiles(ends, window)
    && forall k :: 0 <= k < |emitted| ==> IsFlush(AggOf(units, windows[k]), ends[k] - window, ends[k], emitted[k])
  }

  lemma OneMoreWindow(units: map<PointId, string>, windows: seq<seq<Reading>>, ends: seq<int>, window: nat,
                      emitted: seq<seq<AggregatedBatch>>, live: seq<Reading>, batches: seq<AggregatedBatch>)
    requires EmittedFor(units, windows, ends, window, emitted)
    requires IsFlush(AggOf(units, live), ends[|emitted|] - window, ends[|emitted|], batches)
    ensures EmittedFor(units, windows + [live], ends + [ends[|emitted|] + window], window, emitted + [batches])
  {
  }

  /** One branch of the select loop. */
  method Step(a: Aggregator, input: Input, ghost units: map<PointId, string>, ghost live: seq<Reading>)
    returns (batches: seq<AggregatedBatch>)
    requires a.agg == AggOf(units, live)
    modifies a
    ensures a.agg == AggOf(units, if input.Received? then live + [input.reading] else [])
    ensures a.windowEnd == old(a.windowEnd) + if input.Ticked? then a.windowSecs else 0
    ensures a.deadline - a.windowEnd * NANOS == old(a.deadline) - old(a.windowEnd) * NANOS
    ensures input.Ticked? ==> IsFlush(AggOf(units, live), old(a.windowEnd) - a.windowSecs, old(a.windowEnd), batches)
  {
    match input {
      case Received(r) =>
        RecordRefines(units, live, r);
        a.Record(r);
        batches := [];
      case Ticked =>
        ClearRefines(units, live);
        batches := a.Tick();
    }
  }

  /** What a run has emitted, the readings of each window it emitted, and the window ends, the next one included. */
  datatype Log = Log(emitted: seq<seq<AggregatedBatch>>, windows: seq<seq<Reading>>, ends: seq<int>)

  ghost function NextLog(log: Log, input: Input, live: seq<Reading>, window: nat, batches: seq<AggregatedBatch>): Log
    requires |log.ends| > 0
  {
    if input.Ticked? then Log(log.emitted + [batches], log.windows + [live], log.ends + [log.ends[|log.ends| - 1] + window])
    else log
  }

  /** The windows emitted and the live one partition the readings received, in order. */
  ghost predicate Covers(log: Log, inputs: seq<Input>) {
    |log.windows| == Ticks(inputs) && Flatten(log.windows) + LiveReadings(inputs) == AllReadings(inputs)
  }

  ghost predicate Emits(units: map<PointId, string>, log: Log, window: nat) {
    EmittedFor(units, log.windows, log.ends, window, log.emitted)
  }

  lemma EmitsStep(units: map<PointId, string>, input: Input, live: seq<Reading>, log: Log, window: nat, batches: seq<AggregatedBatch>)
    requires Emits(units, log, window)
    requires input.Ticked? ==> IsFlush(AggOf(units, live), log.ends[|log.ends| - 1] - window, log.ends[|log.ends| - 1], batches)
    ensures Emits(units, NextLog(log, input, live, window, batches), window)
  {
    if input.Ticked? {
      OneMoreWindow(units, log.windows, log.ends, window, log.emitted, live, batches);
    }
  }

  lemma CoversStep(inputs: seq<Input>, i: nat, log: Log, window: nat, batches: seq<AggregatedBatch>)
    requires i < |inputs| && |log.ends| > 0 && Covers(log, inputs[..i])
    ensures Covers(NextLog(log, inputs[i], LiveReadings(inputs[..i]), window, batches), inputs[..i + 1])
    ensures LiveReadings(inputs[..i + 1]) ==
            if inputs[i].Received? then LiveReadings(inputs[..i]) + [inputs[i].reading] else []
  {
    OneMoreInput(inputs, i, log.windows);
  }

  /** The select loop over a schedule of readings and ticks. */
  method RunSchedule(a: Aggregator, inputs: seq<Input>, ghost units: map<PointId, string>) returns (ghost log: Log)
    requires a.agg == AggOf(units, [])
    modifies a
    ensures a.agg == AggOf(units, LiveReadings(inputs))
    ensures a.deadline - a.windowEnd * NANOS == old(a.deadline) - old(a.windowEnd) * NANOS
    ensures Emits(units, log, a.windowSecs) && Covers(log, inputs)
    ensures log.ends[0] == old(a.windowEnd) && log.ends[|log.ends| - 1] == a.windowEnd
  {
    log := Log([], [], [a.windowEnd]);
    var i := 0;
    ghost var live := [];
    while i < |inputs|
      invariant i <= |inputs| && live == LiveReadings(inputs[..i])
      invariant a.agg == AggOf(units, live)
      invariant a.deadline - a.windowEnd * NANOS == old(a.deadline) - old(a.windowEnd) * NANOS
      invariant Emits(units, log, a.windowSecs) && Covers(log, inputs[..i])
      invariant log.ends[0] == old(a.windowEnd) && log.ends[|log.ends| - 1] == a.windowEnd
    {
      var batches := Step(a, inputs[i], units, live);
      EmitsStep(units, inputs[i], live, log, a.windowSecs, batches);
      CoversStep(inputs, i, log, a.windowSecs, batches);
      log := NextLog(log, inputs[i], live, a.windowSecs, batches);
      live := if inputs[i].Received? then live + [inputs[i].reading] else [];
      i := i + 1;
    }
    assert inputs[..|inputs|] == inputs;
  }

  lemma OneMoreInput(inputs: seq<Input>, i: nat, windows: seq<seq<Reading>>)
    requires i < |inputs| && Flatten(windows) + LiveReadings(inputs[..i]) == AllReadings(inputs[..i])
    ensures Ticks(inputs[..i + 1]) == Ticks(inputs[..i]) + if inputs[i].Ticked? then 1 else 0
    ensures inputs[i].Received? ==>
              && LiveReadings(inputs[..i + 1]) == LiveReadings(inputs[..i]) + [inputs[i].reading]
              && Flatten(windows) + LiveReadings(inputs[..i + 1]) == AllReadings(inputs[..i + 1])
    ensures inputs[i].Ticked? ==>
              && LiveReadings(inputs[..i + 1]) == []
              && Flatten(windows + [LiveReadings(inputs[..i])]) + [] == AllReadings(inputs[..i + 1])
  {
    assert inputs[..i + 1][..i] == inputs[..i];
    var live := LiveReadings(inputs[..i]);
    assert (windows + [live])[..|windows|] == windows;
    if inputs[i].Received? {
      assert Flatten(windows) + (live + [inputs[i].reading]) == (Flatten(windows) + live) + [inputs[i].reading];
    }
  }

  function Flatten<T>(ss: seq<seq<T>>): seq<T> {
    if ss == [] then [] else Flatten(ss[..|ss| - 1]) + ss[|ss| - 1]
  }

  function AllReadings(inputs: seq<Input>): seq<Reading> {
    if inputs == [] then []
    else AllReadings(inputs[..|inputs| - 1]) + if inputs[|inputs| - 1].Received? then [inputs[|inputs| - 1].reading] else []
  }

  // ---------------------------------------------------------------- initial state

  /** Every configured point with its unit, in config order. */
  function ListPoints(device: string, points: seq<PointConfig>): seq<(PointId, string)> {
    if points == [] then []
    else
      var last := points[|points| - 1];
      ListPoints(device, points[..|points| - 1]) + [(PointId(device, last.name), last.unit)]
  }

  function ListBlocks(device: string, blocks: seq<BlockConfig>): seq<(PointId, string)> {
    if blocks == [] then []
    else ListBlocks(device, blocks[..|blocks| - 1]) + ListPoints(device, blocks[|blocks| - 1].points)
  }

  function ListDevices(devices: seq<DeviceConfig>): seq<(PointId, string)> {
    if devices == [] then []
    else ListDevices(devices[..|devices| - 1]) + ListBlocks(devices[|devices| - 1].id, devices[|devices| - 1].blocks)
  }

  function ListConnections(conns: seq<ConnectionConfig>): seq<(PointId, string)> {
    if conns == [] then []
    else ListConnections(conns[..|conns| - 1]) + ListDevices(conns[|conns| - 1].devices)
  }

  /** A later point with the same id overrides the unit. */
  function UnitsOf(list: seq<(PointId, string)>): (units: map<PointId, string>)
    ensures forall id :: id in units <==> exists u :: (id, u) in list
    ensures forall id :: id in units ==> (id, units[id]) in list
  {
    if list == [] then map[]
    else
      var last := list[|list| - 1];
      assert list == list[..|list| - 1] + [last];
      UnitsOf(list[..|list| - 1])[last.0 := last.1]
  }

  // ---------------------------------------------------------------- the same, in terms of the config alone

  predicate InPoints(device: string, points: seq<PointConfig>, l: nat, id: PointId) {
    l < |points| && id.device == device && id.point == points[l].name
  }

  predicate InBlocks(device: string, blocks: seq<BlockConfig>, b: nat, l: nat, id: PointId) {
    b < |blocks| && InPoints(device, blocks[b].points, l, id)
  }

  predicate InDevices(devices: seq<DeviceConfig>, d: nat, b: nat, l: nat, id: PointId) {
    d < |devices| && InBlocks(devices[d].id, devices[d].blocks, b, l, id)
  }

  /** Point `l` of block `b` of device `d` of connection `c` has the device's id and the point's name. */
  predicate PointAt(conns: seq<ConnectionConfig>, c: nat, d: nat, b: nat, l: nat, id: PointId) {
    c < |conns| && InDevices(conns[c].devices, d, b, l, id)
  }

  function UnitAt(conns: seq<ConnectionConfig>, c: nat, d: nat, b: nat, l: nat, id: PointId): string
    requires PointAt(conns, c, d, b, l, id)
  {
    conns[c].devices[d].blocks[b].points[l].unit
  }

  ghost predicate Configured(conns: seq<ConnectionConfig>, id: PointId) {
    exists c: nat, d: nat, b: nat, l: nat :: PointAt(conns, c, d, b, l, id)
  }

  ghost predicate LastInBlocks(device: string, blocks: seq<BlockConfig>, b: nat, l: nat, id: PointId) {
    && InBlocks(device, blocks, b, l, id)
    && forall b': nat, l': nat :: InBlocks(device, blocks, b', l', id) ==> b' < b || (b' == b && l' <= l)
  }

  ghost predicate LastInDevices(devices: seq<DeviceConfig>, d: nat, b: nat, l: nat, id: PointId) {
    && InDevices(devices, d, b, l, id) && LastInBlocks(devices[d].id, devices[d].blocks, b, l, id)
    && forall d': nat, b': nat, l': nat :: InDevices(devices, d', b', l', id) ==> d' <= d
  }

  /** No point of a later connection, device or block, or later in its block, has the same id. */
  ghost predicate LastPointAt(conns: seq<ConnectionConfig>, c: nat, d: nat, b: nat, l: nat, id: PointId) {
    && PointAt(conns, c, d, b, l, id) && LastInDevices(conns[c].devices, d, b, l, id)
    && forall c': nat, d': nat, b': nat, l': nat :: PointAt(conns, c', d', b', l', id) ==> c' <= c
  }

  /** The unit of the last entry for an id, if there is one. */
  function LastUnit(list: seq<(PointId, string)>, id: PointId): Option<string> {
    if list == [] then None
    else if list[|list| - 1].0 == id then Some(list[|list| - 1].1)
    else LastUnit(list[..|list| - 1], id)
  }

  lemma {:induction false} LastUnitConcat(a: seq<(PointId, string)>, b: seq<(PointId, string)>, id: PointId)
    ensures LastUnit(a + b, id) == if LastUnit(b, id).Some? then LastUnit(b, id) else LastUnit(a, id)
  {
    if b == [] {
      assert a + b == a;
    } else {
      LastUnitConcat(a, b[..|b| - 1], id);
      assert (a + b)[..|a + b| - 1] == a + b[..|b| - 1];
    }
  }

  lemma {:induction false} UnitsAreLast(list: seq<(PointId, string)>, id: PointId)
    ensures id in UnitsOf(list) <==> LastUnit(list, id).Some?
    ensures id in UnitsOf(list) ==> UnitsOf(list)[id] == LastUnit(list, id).value
  {
    if list != [] {
      UnitsAreLast(list[..|list| - 1], id);
    }
  }

  lemma {:induction false} FindInPoints(device: string, points: seq<PointConfig>, id: PointId) returns (l: nat)
    ensures var last := LastUnit(ListPoints(device, points), id);
      if last.None? then forall l: nat :: !InPoints(device, points, l, id)
      else InPoints(device, points, l, id) && last.value == points[l].unit && forall l': nat :: InPoints(device, points, l', id) ==> l' <= l
  {
    l := 0;
    if points != [] {
      var n := |points| - 1;
      var init := points[..n];
      l := FindInPoints(device, init, id);
      assert forall l: nat :: l < n ==> InPoints(device, points, l, id) == InPoints(device, init, l, id);
      var entry := (PointId(device, points[n].name), points[n].unit);
      assert (ListPoints(device, init) + [entry])[..|ListPoints(device, init)|] == ListPoints(device, init);
      if entry.0 == id {
        l := n;
      }
    }
  }

  lemma {:induction false} FindInBlocks(device: string, blocks: seq<BlockConfig>, id: PointId) returns (b: nat, l: nat)
    ensures var last := LastUnit(ListBlocks(device, blocks), id);
      if last.None? then forall b: nat, l: nat :: !InBlocks(device, blocks, b, l, id)
      else LastInBlocks(device, blocks, b, l, id) && last.value == blocks[b].points[l].unit
  {
    b, l := 0, 0;
    if blocks != [] {
      var n := |blocks| - 1;
      var init, points := blocks[..n], blocks[n].points;
      LastUnitConcat(ListBlocks(device, init), ListPoints(device, points), id);
      b, l := FindInBlocks(device, init, id);
      var l' := FindInPoints(device, points, id);
      hide ListPoints, InPoints, LastUnit;
      assert forall b: nat, l: nat :: b < n ==> InBlocks(device, blocks, b, l, id) == InBlocks(device, init, b, l, id);
      assert forall l: nat :: InBlocks(device, blocks, n, l, id) == InPoints(device, points, l, id);
      if LastUnit(ListPoints(device, points), id).Some? {
        b, l := n, l';
      }
    }
  }

  lemma {:induction false} FindInDevices(devices: seq<DeviceConfig>, id: PointId) returns (d: nat, b: nat, l: nat)
    ensures var last := LastUnit(ListDevices(devices), id);
      if last.None? then forall d: nat, b: nat, l: nat :: !InDevices(devices, d, b, l, id)
      else LastInDevices(devices, d, b, l, id) && last.value == devices[d].blocks[b].points[l].unit
  {
    hide InBlocks, LastInBlocks, ListBlocks;
    d, b, l := 0, 0, 0;
    if devices != [] {
      var n := |devices| - 1;
      var init, device := devices[..n], devices[n];
      LastUnitConcat(ListDevices(init), ListBlocks(device.id, device.blocks), id);
      d, b, l := FindInDevices(init, id);
      assert forall d: nat, b: nat, l: nat :: d < n ==> InDevices(devices, d, b, l, id) == InDevices(init, d, b, l, id);
      var b', l' := FindInBlocks(device.id, device.blocks, id);
      assert forall b: nat, l: nat :: InDevices(devices, n, b, l, id) == InBlocks(device.id, device.blocks, b, l, id);
      if LastUnit(ListBlocks(device.id, device.blocks), id).Some? {
        IsIn(device, b', l', id);
        d, b, l := n, b', l';
      }
    }
  }

  lemma IsIn(device: DeviceConfig, b: nat, l: nat, id: PointId)
    requires LastInBlocks(device.id, device.blocks, b, l, id)
    ensures InBlocks(device.id, device.blocks, b, l, id) && b < |device.blocks| && l < |device.blocks[b].points|
    ensures id.device == device.id
  {
  }

  lemma LastHere(conns: seq<ConnectionConfig>, d: nat, b: nat, l: nat, id: PointId)
    requires conns != [] && LastInDevices(conns[|conns| - 1].devices, d, b, l, id)
    ensures LastPointAt(conns, |conns| - 1, d, b, l, id)
    ensures InDevices(conns[|conns| - 1].devices, d, b, l, id)
  {
    hide InBlocks, LastInBlocks;
  }

  lemma LastEarlier(conns: seq<ConnectionConfig>, devices: seq<DeviceConfig>, c: nat, d: nat, b: nat, l: nat, id: PointId)
    requires conns != [] && LastPointAt(conns[..|conns| - 1], c, d, b, l, id) && devices == conns[|conns| - 1].devices
    requires forall d: nat, b: nat, l: nat :: !InDevices(devices, d, b, l, id)
    ensures PointAt(conns[..|conns| - 1], c, d, b, l, id) && LastPointAt(conns, c, d, b, l, id)
    ensures UnitAt(conns, c, d, b, l, id) == UnitAt(conns[..|conns| - 1], c, d, b, l, id)
  {
    hide InDevices, LastInDevices;
    var init := conns[..|conns| - 1];
    forall c': nat, d': nat, b': nat, l': nat | PointAt(conns, c', d', b', l', id) ensures c' <= c {
      assert c' < |init| && PointAt(init, c', d', b', l', id);
    }
  }

  lemma NoneAnywhere(conns: seq<ConnectionConfig>, devices: seq<DeviceConfig>, id: PointId)
    requires conns != [] && !Configured(conns[..|conns| - 1], id) && devices == conns[|conns| - 1].devices
    requires forall d: nat, b: nat, l: nat :: !InDevices(devices, d, b, l, id)
    ensures !Configured(conns, id)
  {
    hide InDevices;
    var init := conns[..|conns| - 1];
    forall c: nat, d: nat, b: nat, l: nat ensures !PointAt(conns, c, d, b, l, id) {
      if c < |init| {
        assert PointAt(conns, c, d, b, l, id) == PointAt(init, c, d, b, l, id);
      }
    }
  }

  lemma {:induction false} FindInConnections(conns: seq<ConnectionConfig>, id: PointId) returns (c: nat, d: nat, b: nat, l: nat)
    ensures var last := LastUnit(ListConnections(conns), id);
      if last.None? then !Configured(conns, id)
      else LastPointAt(conns, c, d, b, l, id) && last.value == UnitAt(conns, c, d, b, l, id)
  {
    hide InDevices, LastInDevices, ListDevices, LastPointAt;
    c, d, b, l := 0, 0, 0, 0;
    if conns != [] {
      hide Configured, LastUnit;
      var n := |conns| - 1;
      var init, devices := conns[..n], conns[n].devices;
      LastUnitConcat(ListConnections(init), ListDevices(devices), id);
      c, d, b, l := FindInConnections(init, id);
      var d', b', l' := FindInDevices(devices, id);
      if LastUnit(ListDevices(devices), id).Some? {
        c, d, b, l := n, d', b', l';
        LastHere(conns, d, b, l, id);
      } else if LastUnit(ListConnections(init), id).Some? {
        LastEarlier(conns, devices, c, d, b, l, id);
      } else {
        NoneAnywhere(conns, devices, id);
      }
    }
  }

  /** A zeroed accumulator for each configured point and nothing else, with the unit of its last occurrence. */
  ghost predicate IsInitial(conns: seq<ConnectionConfig>, agg: Accumulators) {
    && (forall id :: id in agg <==> Configured(conns, id))
    && forall id, c: nat, d: nat, b: nat, l: nat :: LastPointAt(conns, c, d, b, l, id) ==>
         id in agg && agg[id] == PointAgg(0.0, 0, Infinity, NegInfinity, UnitAt(conns, c, d, b, l, id))
  }

  lemma LastIsUnique(conns: seq<ConnectionConfig>, c: nat, d: nat, b: nat, l: nat, c': nat, d': nat, b': nat, l': nat, id: PointId)
    requires LastPointAt(conns, c, d, b, l, id) && LastPointAt(conns, c', d', b', l', id)
    ensures c == c' && d == d' && b == b' && l == l'
  {
  }

  lemma InitialMeans(conns: seq<ConnectionConfig>, agg: Accumulators)
    requires agg == AggOf(UnitsOf(ListConnections(conns)), [])
    ensures IsInitial(conns, agg)
  {
    hide ListConnections, LastPointAt, PointAt, UnitsOf;
    forall id ensures id in agg <==> Configured(conns, id) {
      var c, d, b, l := UnitFound(conns, id);
    }
    forall id, c: nat, d: nat, b: nat, l: nat | LastPointAt(conns, c, d, b, l, id)
      ensures id in agg && PointAt(conns, c, d, b, l, id)
      ensures agg[id] == PointAgg(0.0, 0, Infinity, NegInfinity, UnitAt(conns, c, d, b, l, id))
    {
      var c', d', b', l' := UnitFound(conns, id);
      IsPoint(conns, c, d, b, l, id);
      LastIsUnique(conns, c, d, b, l, c', d', b', l', id);
    }
  }

  lemma IsPoint(conns: seq<ConnectionConfig>, c: nat, d: nat, b: nat, l: nat, id: PointId)
    requires LastPointAt(conns, c, d, b, l, id)
    ensures PointAt(conns, c, d, b, l, id) && Configured(conns, id)
  {
  }

  lemma UnitFound(conns: seq<ConnectionConfig>, id: PointId) returns (c: nat, d: nat, b: nat, l: nat)
    ensures var units := UnitsOf(ListConnections(conns));
      && (id in units <==> Configured(conns, id))
      && (id in units ==> LastPointAt(conns, c, d, b, l, id) && PointAt(conns, c, d, b, l, id) && units[id] == UnitAt(conns, c, d, b, l, id))
  {
    hide ListConnections, LastPointAt, PointAt, UnitsOf, LastUnit;
    c, d, b, l := FindInConnections(conns, id);
    UnitsAreLast(ListConnections(conns), id);
    if id in UnitsOf(ListConnections(conns)) {
      IsPoint(conns, c, d, b, l, id);
    }
  }

  lemma InsertZeroed(list: seq<(PointId, string)>, id: PointId, unit: string)
    ensures AggOf(UnitsOf(list + [(id, unit)]), []) == AggOf(UnitsOf(list), [])[id := Fresh(unit)]
  {
    assert (list + [(id, unit)])[..|list|] == list;
  }

  /** The points of one device join those there were; a repeated id takes the later unit. */
  ghost predicate DeviceAdded(device: DeviceConfig, agg0: Accumulators, agg: Accumulators) {
    && (forall id :: id in agg <==> id in agg0 || exists b: nat, l: nat :: InBlocks(device.id, device.blocks, b, l, id))
    && (forall id, b: nat, l: nat :: LastInBlocks(device.id, device.blocks, b, l, id) ==>
          id in agg && agg[id] == PointAgg(0.0, 0, Infinity, NegInfinity, device.blocks[b].points[l].unit))
    && forall id :: id in agg0 && id.device != device.id ==> id in agg && agg[id] == agg0[id]
  }

  lemma DeviceAddedMeans(device: DeviceConfig, list0: seq<(PointId, string)>)
    ensures DeviceAdded(device, AggOf(UnitsOf(list0), []), AggOf(UnitsOf(list0 + ListBlocks(device.id, device.blocks)), []))
  {
    hide ListBlocks, UnitsOf, LastInBlocks, InBlocks, LastUnit;
    var added := ListBlocks(device.id, device.blocks);
    forall id
      ensures id in UnitsOf(list0 + added) <==> id in UnitsOf(list0) || LastUnit(added, id).Some?
      ensures LastUnit(added, id).Some? <==> exists b: nat, l: nat :: InBlocks(device.id, device.blocks, b, l, id)
      ensures id in UnitsOf(list0 + added) ==>
                UnitsOf(list0 + added)[id] == if LastUnit(added, id).Some? then LastUnit(added, id).value else UnitsOf(list0)[id]
      ensures LastUnit(added, id).Some? ==> id.device == device.id
    {
      UnitsAreLast(list0 + added, id);
      UnitsAreLast(list0, id);
      LastUnitConcat(list0, added, id);
      var b, l := FindInBlocks(device.id, device.blocks, id);
      if LastUnit(added, id).Some? {
        IsIn(device, b, l, id);
      }
    }
    forall id, b: nat, l: nat | LastInBlocks(device.id, device.blocks, b, l, id)
      ensures b < |device.blocks| && l < |device.blocks[b].points|
      ensures LastUnit(added, id) == Some(device.blocks[b].points[l].unit)
    {
      var b', l' := FindInBlocks(device.id, device.blocks, id);
      IsIn(device, b, l, id);
      LastBlockIsUnique(device, b, l, b', l', id);
    }
  }

  lemma LastBlockIsUnique(device: DeviceConfig, b: nat, l: nat, b': nat, l': nat, id: PointId)
    requires LastInBlocks(device.id, device.blocks, b, l, id) && LastInBlocks(device.id, device.blocks, b', l', id)
    ensures b == b' && l == l'
  {
  }

  lemma OneMorePoint(device: string, points: seq<PointConfig>, l: nat, list: seq<(PointId, string)>)
    requires l < |points|
    ensures list + ListPoints(device, points[..l + 1]) ==
            (list + ListPoints(device, points[..l])) + [(PointId(device, points[l].name), points[l].unit)]
  {
    assert points[..l + 1][..l] == points[..l];
  }

  lemma OneMoreBlock(device: string, blocks: seq<BlockConfig>, k: nat, list: seq<(PointId, string)>)
    requires k < |blocks|
    ensures list + ListBlocks(device, blocks[..k + 1]) ==
            (list + ListBlocks(device, blocks[..k])) + ListPoints(device, blocks[k].points[..|blocks[k].points|])
  {
    hide ListPoints;
    assert blocks[k].points[..|blocks[k].points|] == blocks[k].points;
    assert blocks[..k + 1][..k] == blocks[..k];
  }

  lemma OneMoreDeviceListed(devices: seq<DeviceConfig>, j: nat, list: seq<(PointId, string)>)
    requires j < |devices|
    ensures list + ListDevices(devices[..j + 1]) == (list + ListDevices(devices[..j])) + ListBlocks(devices[j].id, devices[j].blocks)
  {
    hide ListBlocks;
    assert devices[..j + 1][..j] == devices[..j];
  }

  lemma OneMoreConnectionListed(conns: seq<ConnectionConfig>, i: nat)
    requires i < |conns|
    ensures ListConnections(conns[..i + 1]) == ListConnections(conns[..i]) + ListDevices(conns[i].devices[..|conns[i].devices|])
  {
    hide ListDevices;
    assert conns[i].devices[..|conns[i].devices|] == conns[i].devices;
    assert conns[..i + 1][..i] == conns[..i];
  }

  /** Before the first element of an inner list. */
  lemma NothingAdded(list: seq<(PointId, string)>, device: string)
    ensures list + ListPoints(device, []) == list && list + ListBlocks(device, []) == list && list + ListDevices([]) == list
  {
  }

  method InitDevice(device: DeviceConfig, agg0: Accumulators, ghost list0: seq<(PointId, string)>) returns (agg: Accumulators)
    requires agg0 == AggOf(UnitsOf(list0), [])
    ensures agg == AggOf(UnitsOf(list0 + ListBlocks(device.id, device.blocks)), [])
    ensures DeviceAdded(device, agg0, agg)
  {
    hide DeviceAdded, AggOf, UnitsOf, Fresh, ListPoints, ListBlocks;
    DeviceAddedMeans(device, list0);
    agg := agg0;
    NothingAdded(list0, device.id);
    assert device.blocks[..0] == [];
    for k := 0 to |device.blocks|
      invariant agg == AggOf(UnitsOf(list0 + ListBlocks(device.id, device.blocks[..k])), [])
    {
      var points := device.blocks[k].points;
      ghost var list := list0 + ListBlocks(device.id, device.blocks[..k]);
      NothingAdded(list, device.id);
      assert points[..0] == [];
      for l := 0 to |points|
        invariant agg == AggOf(UnitsOf(list + ListPoints(device.id, points[..l])), [])
      {
        var id, unit := PointId(device.id, points[l].name), points[l].unit;
        OneMorePoint(device.id, points, l, list);
        InsertZeroed(list + ListPoints(device.id, points[..l]), id, unit);
        agg := agg[id := Fresh(unit)];
      }
      OneMoreBlock(device.id, device.blocks, k, list0);
    }
    assert device.blocks[..|device.blocks|] == device.blocks;
  }

  /** A zeroed accumulator with its unit for every configured point, and for nothing else. */
  method InitFromConfig(conns: seq<ConnectionConfig>) returns (agg: Accumulators)
    ensures agg == AggOf(UnitsOf(ListConnections(conns)), [])
    ensures IsInitial(conns, agg)
  {
    hide IsInitial, DeviceAdded, ListBlocks, ListDevices;
    agg := map[];
    assert conns[..0] == [];
    for i := 0 to |conns|
      invariant agg == AggOf(UnitsOf(ListConnections(conns[..i])), [])
    {
      hide AggOf, UnitsOf, ListConnections;
      var devices := conns[i].devices;
      ghost var list := ListConnections(conns[..i]);
      NothingAdded(list, "");
      assert devices[..0] == [];
      for j := 0 to |devices|
        invariant agg == AggOf(UnitsOf(list + ListDevices(devices[..j])), [])
      {
        OneMoreDeviceListed(devices, j, list);
        agg := InitDevice(devices[j], agg, list + ListDevices(devices[..j]));
      }
      OneMoreConnectionListed(conns, i);
    }
    assert conns[..|conns|] == conns;
    InitialMeans(conns, agg);
  }
}
