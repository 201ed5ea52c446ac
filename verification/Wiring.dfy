/** The pollers and the aggregator name points alike (src/aggregator.rs:42-60, src/modbus/poller.rs:220-227). */
module Wiring {
  import opened Types
  import opened Schema
  import opened Poller
  import opened Aggregator

  lemma {:induction false} ReadingComesFromPoint(p: Polled, n: nat, floatOf: FloatOf, r: Reading) returns (k: nat, i: nat)
    requires PolledOk(p) && n <= GoodPrefix(p.results) && r in ReadingsUpTo(p, n, floatOf)
    ensures InBlocks(p.device.id, p.device.blocks, k, i, r.pointId)
    decreases n
  {
    if r in BlockReadings(p, n - 1, floatOf) {
      var readings := BlockReadings(p, n - 1, floatOf);
      k := n - 1;
      i :| 0 <= i < |readings| && readings[i] == r;
    } else {
      k, i := ReadingComesFromPoint(p, n - 1, floatOf, r);
    }
  }

  lemma {:induction false} ReadingComesFromDevice(tick: seq<Polled>, n: nat, floatOf: FloatOf, r: Reading) returns (d: nat, k: nat, i: nat)
    requires TickOk(tick) && n <= |tick| && r in TickReadings(tick[..n], floatOf)
    ensures d < n && InBlocks(tick[d].device.id, tick[d].device.blocks, k, i, r.pointId)
    decreases n
  {
    assert n > 0;
    OneMoreDevice("", tick, n - 1, floatOf);
    hide TickReadings, ReadingsUpTo, InBlocks;
    if r in DeviceReadings(tick[n - 1], floatOf) {
      d := n - 1;
      k, i := ReadingComesFromPoint(tick[d], GoodPrefix(tick[d].results), floatOf, r);
    } else {
      d, k, i := ReadingComesFromDevice(tick, n - 1, floatOf, r);
    }
  }

  /** Every reading a connection's tick offers is of a configured point. */
  lemma OfferedIsConfigured(conns: seq<ConnectionConfig>, c: nat, tick: seq<Polled>, floatOf: FloatOf, r: Reading)
    requires c < |conns| && TickOk(tick) && forall d :: 0 <= d < |tick| ==> tick[d].device in conns[c].devices
    requires r in OfferedBy(tick, floatOf)
    ensures Configured(conns, r.pointId)
  {
    hide TickReadings, InBlocks;
    var d, k, i := ReadingComesFromDevice(tick, VisitedFrom(tick, 0), floatOf, r);
    var e :| 0 <= e < |conns[c].devices| && conns[c].devices[e] == tick[d].device;
    assert PointAt(conns, c, e, k, i, r.pointId);
  }

  /** So the aggregator that starts from the same config counts every reading it receives: none is unknown. */
  lemma NothingPolledIsIgnored(conns: seq<ConnectionConfig>, agg: Accumulators, c: nat, tick: seq<Polled>, floatOf: FloatOf, r: Reading)
    requires IsInitial(conns, agg)
    requires c < |conns| && TickOk(tick) && forall d :: 0 <= d < |tick| ==> tick[d].device in conns[c].devices
    requires r in OfferedBy(tick, floatOf)
    ensures r.pointId in agg && Recorded(agg, r)[r.pointId].count == 1 && Recorded(agg, r)[r.pointId].sum == r.value
  {
    hide OfferedBy, LastPointAt, UnitAt, UnitsOf, ListConnections;
    OfferedIsConfigured(conns, c, tick, floatOf, r);
    var c', d', b', l' := FindInConnections(conns, r.pointId);
    LastUnitFound(conns, r.pointId);
    IsPoint(conns, c', d', b', l', r.pointId);
  }

  lemma LastUnitFound(conns: seq<ConnectionConfig>, id: PointId)
    requires Configured(conns, id)
    ensures LastUnit(ListConnections(conns), id).Some?
  {
    hide LastPointAt, ListConnections, PointAt;
    var c, d, b, l := FindInConnections(conns, id);
    UnitsAreLast(ListConnections(conns), id);
    var c', d', b', l' := UnitFound(conns, id);
  }
}
