/**
 SenML encoding (src/senml.rs) and the resolution of a pack's base fields
 (sections 4.1, 4.5.3 and 4.6 of RFC 8428).
 */
module Senml {
  import opened Types

  datatype SenmlRecord = SenmlRecord(
    bn: Option<string>, bt: Option<int>, bu: Option<string>, n: string, u: Option<string>, v: real)

  datatype Resolved = Resolved(name: string, unit: Option<string>, time: int, value: real)

  // ---------------------------------------------------------------- resolution

  /** Values below 2^28 are relative to the time of reception (section 4.5.3 of RFC 8428). */
  const ABSOLUTE_TIME: int := 0x1000_0000

  function OrElse<T>(o: Option<T>, default: T): T {
    if o.Some? then o.value else default
  }

  /** Base fields apply from the record that carries them until overridden by a later one. */
  function ResolveFrom(pack: seq<SenmlRecord>, bn: string, bt: int, bu: Option<string>, now: int): seq<Resolved> {
    if pack == [] then []
    else
      var r := pack[0];
      var bn', bt' := OrElse(r.bn, bn), OrElse(r.bt, bt);
      var bu' := if r.bu.Some? then r.bu else bu;
      var time := if bt' >= ABSOLUTE_TIME then bt' else now + bt';
      [Resolved(bn' + r.n, if r.u.Some? then r.u else bu', time, r.v)] + ResolveFrom(pack[1..], bn', bt', bu', now)
  }

  function Resolve(pack: seq<SenmlRecord>, now: int): seq<Resolved> {
    ResolveFrom(pack, "", 0, None, now)
  }

  /** What a batch means: one measurement a point, at the start of the window. */
  function MeaningAt(batch: AggregatedBatch, prefix: string, time: int): seq<Resolved> {
    seq(|batch.points|, i requires 0 <= i < |batch.points| =>
      var p := batch.points[i];
      Resolved(prefix + batch.deviceId + ":" + p.name, Some(p.unit), time, p.mean))
  }

  function Meaning(batch: AggregatedBatch, prefix: string): seq<Resolved> {
    MeaningAt(batch, prefix, batch.windowStart)
  }

  // ---------------------------------------------------------------- majority unit

  function CountUnit(points: seq<AggregatedPoint>, u: string): nat {
    if points == [] then 0
    else CountUnit(points[..|points| - 1], u) + if points[|points| - 1].unit == u then 1 else 0
  }

  predicate IsMajority(points: seq<AggregatedPoint>, u: string) {
    2 * CountUnit(points, u) > |points|
  }

  /** The counts of distinct units add up to no more than the number of points. */
  lemma {:induction false} CountsAddUp(points: seq<AggregatedPoint>, u: string, w: string)
    requires u != w
    ensures CountUnit(points, u) + CountUnit(points, w) <= |points|
  {
    if points != [] {
      CountsAddUp(points[..|points| - 1], u, w);
    }
  }

  function WithUnit(points: seq<AggregatedPoint>, u: string): set<int> {
    set i | 0 <= i < |points| && points[i].unit == u
  }

  lemma {:induction false} CountIsNumber(points: seq<AggregatedPoint>, u: string)
    ensures CountUnit(points, u) == |WithUnit(points, u)|
  {
    if points == [] {
      assert WithUnit(points, u) == {};
    } else {
      var n := |points| - 1;
      CountIsNumber(points[..n], u);
      assert WithUnit(points, u) == WithUnit(points[..n], u) + if points[n].unit == u then {n} else {};
    }
  }

  /** A majority is strict: more points have the unit than have another. */
  lemma MajorityIsStrict(points: seq<AggregatedPoint>, u: string)
    ensures IsMajority(points, u) <==> |WithUnit(points, u)| > |points| - |WithUnit(points, u)|
  {
    CountIsNumber(points, u);
  }

  /**
   `majority_unit`: counts into a map, picks an entry of maximal count, whichever the map's
   iteration order puts last, and keeps it only with a strict majority. The result does not
   depend on that choice.
   */
  method MajorityUnit(points: seq<AggregatedPoint>) returns (r: Option<string>)
    ensures forall u :: r == Some(u) <==> IsMajority(points, u)
    ensures r.None? <==> forall u :: !IsMajority(points, u)
  {
    if points == [] {
      return None;
    }
    var counts: map<string, nat> := map[];
    for i := 0 to |points|
      invariant forall u :: u in counts <==> CountUnit(points[..i], u) > 0
      invariant forall u :: u in counts ==> counts[u] == CountUnit(points[..i], u)
    {
      assert points[..i + 1][..i] == points[..i];
      var unit := points[i].unit;
      counts := counts[unit := (if unit in counts then counts[unit] else 0) + 1];
    }
    assert points[..|points|] == points;
    assert points[|points| - 1].unit in counts;
    var unit, count := PickMax(counts);
    forall u | u != unit ensures !IsMajority(points, u) {
      CountsAddUp(points, u, unit);
      assert u in counts ==> counts[u] <= count;
    }
    r := if count * 2 > |points| then Some(unit) else None;
    assert r.Some? ==> IsMajority(points, unit);
  }

  /** Visits the entries in an arbitrary order; a later entry of equal count replaces the earlier one. */
  method PickMax(counts: map<string, nat>) returns (unit: string, count: nat)
    requires counts != map[]
    ensures unit in counts && counts[unit] == count
    ensures forall u :: u in counts ==> counts[u] <= count
  {
    var first: string :| first in counts;
    unit, count := first, counts[first];
    var rest := counts.Keys - {first};
    while rest != {}
      invariant rest <= counts.Keys
      invariant unit in counts && counts[unit] == count
      invariant forall u :: u in counts && u !in rest ==> counts[u] <= count
      decreases |rest|
    {
      var u :| u in rest;
      if counts[u] >= count {
        unit, count := u, counts[u];
      }
      rest := rest - {u};
    }
  }

  // ---------------------------------------------------------------- encoding

  function PackOf(batch: AggregatedBatch, prefix: string, baseUnit: Option<string>): seq<SenmlRecord> {
    seq(|batch.points|, i requires 0 <= i < |batch.points| =>
      SenmlRecord(
        if i == 0 then Some(prefix + batch.deviceId + ":") else None,
        if i == 0 then Some(batch.windowStart) else None,
        if i == 0 then baseUnit else None,
        batch.points[i].name,
        Some(batch.points[i].unit),
        batch.points[i].mean))
  }

  method EncodeSenml(batch: AggregatedBatch, prefix: string) returns (pack: seq<SenmlRecord>)
    ensures batch.windowStart >= ABSOLUTE_TIME ==> forall now :: Resolve(pack, now) == Meaning(batch, prefix)
    ensures |pack| == |batch.points|
    ensures forall i :: 0 < i < |pack| ==> pack[i].bn.None? && pack[i].bt.None? && pack[i].bu.None?
    ensures pack != [] ==> forall u :: pack[0].bu == Some(u) <==> IsMajority(batch.points, u)
    ensures pack != [] ==> pack[0].bn == Some(prefix + batch.deviceId + ":") && pack[0].bt == Some(batch.windowStart)
    ensures forall i :: 0 <= i < |pack| ==>
              pack[i].n == batch.points[i].name && pack[i].u == Some(batch.points[i].unit) && pack[i].v == batch.points[i].mean
  {
    var baseUnit := MajorityUnit(batch.points);
    pack := PackOf(batch, prefix, baseUnit);
    forall now ensures Resolve(pack, now) == MeaningAt(batch, prefix, ReceivedAs(batch.windowStart, now)) {
      PackResolves(batch, prefix, baseUnit, now);
    }
  }

  function ReceivedAs(t: int, now: int): int {
    if t >= ABSOLUTE_TIME then t else now + t
  }

  lemma {:induction false} TailResolves(batch: AggregatedBatch, prefix: string, baseUnit: Option<string>, now: int, from: nat)
    requires 0 < from <= |batch.points|
    ensures ResolveFrom(PackOf(batch, prefix, baseUnit)[from..], prefix + batch.deviceId + ":", batch.windowStart, baseUnit, now)
         == MeaningAt(batch, prefix, ReceivedAs(batch.windowStart, now))[from..]
    decreases |batch.points| - from
  {
    if from < |batch.points| {
      TailResolves(batch, prefix, baseUnit, now, from + 1);
      var pack, meaning := PackOf(batch, prefix, baseUnit), MeaningAt(batch, prefix, ReceivedAs(batch.windowStart, now));
      assert pack[from..][1..] == pack[from + 1..];
      assert meaning[from..] == [meaning[from]] + meaning[from + 1..];
    }
  }

  /** The base unit never changes what a pack means: any `baseUnit` resolves to the same records. */
  lemma PackResolves(batch: AggregatedBatch, prefix: string, baseUnit: Option<string>, now: int)
    ensures Resolve(PackOf(batch, prefix, baseUnit), now) == MeaningAt(batch, prefix, ReceivedAs(batch.windowStart, now))
  {
    if batch.points != [] {
      TailResolves(batch, prefix, baseUnit, now, 1);
      var pack, meaning := PackOf(batch, prefix, baseUnit), MeaningAt(batch, prefix, ReceivedAs(batch.windowStart, now));
      assert meaning == [meaning[0]] + meaning[1..];
      assert "" + pack[0].n == pack[0].n;
    }
  }

  /** Exactly when a receiver reads back the batch: the window label must be an absolute time to it. */
  lemma RoundTripExactly(batch: AggregatedBatch, prefix: string, baseUnit: Option<string>, now: int)
    ensures Resolve(PackOf(batch, prefix, baseUnit), now) == Meaning(batch, prefix)
       <==> batch.points == [] || batch.windowStart >= 268_435_456 || now == 0
  {
    PackResolves(batch, prefix, baseUnit, now);
    if batch.points != [] {
      var got, want := MeaningAt(batch, prefix, ReceivedAs(batch.windowStart, now)), Meaning(batch, prefix);
      assert got[0].time == ReceivedAs(batch.windowStart, now) && want[0].time == batch.windowStart;
    }
  }
}
