/** What the poll loop puts out, position by position, in terms of its inputs alone (src/modbus/poller.rs). */
module PollMeaning {
  import opened Types
  import opened Schema
  import opened Decode
  import opened DecodeInverse
  import opened Poller

  // ---------------------------------------------------------------- readings

  /** How many points the first `n` blocks have. */
  function PointsIn(blocks: seq<BlockConfig>, n: nat): nat
    requires n <= |blocks|
  {
    if n == 0 then 0 else PointsIn(blocks, n - 1) + |blocks[n - 1].points|
  }

  lemma {:induction false} LengthUpTo(p: Polled, n: nat, floatOf: FloatOf)
    requires PolledOk(p) && n <= GoodPrefix(p.results)
    ensures |ReadingsUpTo(p, n, floatOf)| == PointsIn(p.device.blocks, n)
  {
    hide PolledOk;
    if n > 0 {
      LengthUpTo(p, n - 1, floatOf);
    }
  }

  lemma InGoodPrefix(results: seq<BlockResult>, k: nat)
    requires k < |results| && forall j :: 0 <= j <= k ==> results[j].Words?
    ensures k < GoodPrefix(results)
  {
  }

  /**
   The reading of point `i` of block `k`, when that block and all before it were read: after the
   points of all earlier blocks and of its own block, under the device's id and the point's name,
   with the scaled value of its registers.
   */
  lemma ReadingAt(p: Polled, k: nat, i: nat, floatOf: FloatOf)
    requires PolledOk(p) && k < |p.results| && forall j :: 0 <= j <= k ==> p.results[j].Words?
    requires i < |p.device.blocks[k].points|
    ensures var q, block := PointsIn(p.device.blocks, k) + i, p.device.blocks[k];
      var point, words := block.points[i], p.results[k].words;
      && q < |DeviceReadings(p, floatOf)| && point.End() <= |words|
      && var next := if point.End() == point.offset + 1 then 0 else words[point.offset + 1];
         var reading := DeviceReadings(p, floatOf)[q];
         && reading.pointId == PointId(p.device.id, point.name)
         && ShowsRaw(point, RawOf(point.dataType, block.wordOrder, words[point.offset], next, floatOf), reading.value)
  {
    hide BlockReadings, Scaled, ExtractRaw, Readable, GoodPrefix, PointsIn, ReadingsUpTo, ShowsRaw, RawOf;
    InGoodPrefix(p.results, k);
    BlockReadingAt(p, k, i, floatOf);
    PrefixStep(p, k, floatOf);
    LengthUpTo(p, k, floatOf);
    ReadingsPrefix(p, k + 1, GoodPrefix(p.results), floatOf);
    AtOffset(ReadingsUpTo(p, k, floatOf), BlockReadings(p, k, floatOf), DeviceReadings(p, floatOf), i);
    var point, words, order := p.device.blocks[k].points[i], p.results[k].words, p.device.blocks[k].wordOrder;
    RawMeans(words, point, order, floatOf);
    ScaledShows(point, ExtractRaw(words, point.offset, point.dataType, order, floatOf));
  }

  lemma AtOffset<T>(a: seq<T>, b: seq<T>, all: seq<T>, i: nat)
    requires a + b <= all && i < |b|
    ensures |a| + i < |all| && all[|a| + i] == b[i]
  {
    assert (a + b)[|a| + i] == b[i];
  }

  lemma BlockReadingAt(p: Polled, k: nat, i: nat, floatOf: FloatOf)
    requires PolledOk(p) && k < |p.results| && p.results[k].Words? && i < |p.device.blocks[k].points|
    ensures var block, words := p.device.blocks[k], p.results[k].words;
      var point := block.points[i];
      && point.End() <= |words| && i < |BlockReadings(p, k, floatOf)|
      && BlockReadings(p, k, floatOf)[i] ==
         Reading(PointId(p.device.id, point.name),
                 Scaled(point, ExtractRaw(words, point.offset, point.dataType, block.wordOrder, floatOf)))
  {
    var point := p.device.blocks[k].points[i];
    assert point in p.device.blocks[k].points;
  }

  /** There are no others: a device offers one reading a point of the blocks before its first failure. */
  lemma ReadingsCount(p: Polled, n: nat, floatOf: FloatOf)
    requires PolledOk(p) && (FirstFailure(p.results, n) || (n == |p.results| && forall j :: 0 <= j < n ==> p.results[j].Words?))
    ensures n <= |p.device.blocks| && |DeviceReadings(p, floatOf)| == PointsIn(p.device.blocks, n)
  {
    var m := GoodPrefix(p.results);
    assert n == m;
    LengthUpTo(p, m, floatOf);
  }

  /** A tick's readings are those of the devices it reaches, one after the other. */
  lemma TickReadingsInOrder(tick: seq<Polled>, d: nat, floatOf: FloatOf)
    requires TickOk(tick) && d < |tick|
    ensures TickReadings(tick[..d + 1], floatOf) == TickReadings(tick[..d], floatOf) + DeviceReadings(tick[d], floatOf)
    ensures TickReadings(tick[..0], floatOf) == []
    ensures Reaches(tick, d) && (d + 1 == |tick| || IsFatal(tick[d].results)) ==> OfferedBy(tick, floatOf) == TickReadings(tick[..d + 1], floatOf)
  {
    hide DeviceReadings, Reaches, IsFatal;
    assert tick[..0] == [];
    OneMoreDevice("", tick, d, floatOf);
    if Reaches(tick, d) && (d + 1 == |tick| || IsFatal(tick[d].results)) {
      LastVisited(tick, d);
    }
  }

  lemma LastVisited(tick: seq<Polled>, d: nat)
    requires Reaches(tick, d) && (d + 1 == |tick| || IsFatal(tick[d].results))
    ensures VisitedFrom(tick, 0) == d + 1
  {
    hide IsFatal, VisitedFrom;
    ReachesVisited(tick, d);
    ReachesVisited(tick, d + 1);
  }

  // ---------------------------------------------------------------- the channel

  /** How many of the first `n` sends succeed. */
  function CountSent(room: Room, n: nat): nat {
    if n == 0 then 0 else CountSent(room, n - 1) + if room(n - 1).Sent? then 1 else 0
  }

  /** Exactly the readings whose send succeeds are accepted, in order. */
  lemma {:induction false} AcceptedExactly(offered: seq<Reading>, room: Room)
    ensures |AcceptedOf(offered, room)| == CountSent(room, |offered|)
    ensures forall k :: 0 <= k < |offered| && room(k).Sent? ==>
              CountSent(room, k) < |AcceptedOf(offered, room)| && AcceptedOf(offered, room)[CountSent(room, k)] == offered[k]
  {
    if offered != [] {
      var n := |offered| - 1;
      AcceptedExactly(offered[..n], room);
      forall k | 0 <= k < |offered| && room(k).Sent?
        ensures CountSent(room, k) < |AcceptedOf(offered, room)| && AcceptedOf(offered, room)[CountSent(room, k)] == offered[k]
      {
        if k < n {
          assert offered[..n][k] == offered[k];
        }
      }
    }
  }

  /** With the channel open a tick puts out all its readings and events. */
  lemma OpenTick(conn: string, t: Tick, floatOf: FloatOf)
    requires TickOk(t.polled) && forall k :: 0 <= k < |OfferedBy(t.polled, floatOf)| ==> !t.room(k).Closed?
    ensures var out := TickOutput(conn, t, floatOf);
      out.offered == OfferedBy(t.polled, floatOf) && out.events == ReportedBy(conn, t.polled)
      && out.accepted == AcceptedOf(out.offered, t.room)
  {
    WholeOutput(conn, t, floatOf);
  }

  /** Send `k` is the first to find the channel closed, and it offers a reading of device `d`, which is reached. */
  ghost predicate CutAt(t: Tick, k: nat, d: nat, floatOf: FloatOf)
    requires TickOk(t.polled)
  {
    && Reaches(t.polled, d) && t.room(k).Closed? && OpenUpTo(t.room, k)
    && |TickReadings(t.polled[..d], floatOf)| <= k < |TickReadings(t.polled[..d + 1], floatOf)|
  }

  /** That send ends the tick: the device whose reading it was and those after it report nothing. */
  lemma ClosedTick(conn: string, t: Tick, k: nat, d: nat, floatOf: FloatOf)
    requires TickOk(t.polled) && CutAt(t, k, d, floatOf)
    ensures k < |OfferedBy(t.polled, floatOf)| && d < |ReportedBy(conn, t.polled)|
    ensures var out := TickOutput(conn, t, floatOf);
      out.offered == OfferedBy(t.polled, floatOf)[..k + 1] && out.events == ReportedBy(conn, t.polled)[..d]
      && out.accepted == AcceptedOf(out.offered, t.room)
  {
    hide TickReadings, TickEvents, AcceptedOf, Reaches, TickOutput, VisitedFrom;
    ReachesVisited(t.polled, d);
    var n := VisitedFrom(t.polled, 0);
    TickPrefix(t.polled, d + 1, n, floatOf, conn);
    TickPrefix(t.polled, d, n, floatOf, conn);
    var upTo := TickReadings(t.polled[..d + 1], floatOf);
    Stopped(upTo, t.room, k);
    CutOutput(conn, t, d, upTo[..k + 1], floatOf);
  }

  lemma Stopped(readings: seq<Reading>, room: Room, k: nat)
    requires k < |readings| && room(k).Closed? && OpenUpTo(room, k)
    ensures StoppedAt(readings[..k + 1], room)
    ensures forall n: nat :: n <= k ==> OpenUpTo(room, n)
  {
  }

  // ---------------------------------------------------------------- what an attempt reports

  lemma {:induction false} TicksOutputEnds(conn: string, ticks: seq<Tick>, n: nat, floatOf: FloatOf)
    requires 0 < n <= |ticks| && TicksOk(ticks) && TickOutput(conn, ticks[n - 1], floatOf).events != []
    ensures var events, last := TicksOutput(conn, ticks, n, floatOf).events, TickOutput(conn, ticks[n - 1], floatOf).events;
      events != [] && events[|events| - 1] == last[|last| - 1]
  {
    hide TickOutput;
  }

  /**
   An attempt first reports whether it connected. One that the task outlives ends with
   ConnectionDown: while the task waits to try again, that is the last thing it has reported.
   */
  lemma AttemptEvents(conn: string, a: Attempt, floatOf: FloatOf)
    requires AttemptOk(a)
    ensures var events := AttemptOutput(conn, a, floatOf).events;
      && events != [] && events[0] == (if a.Connected? then ConnectionUp(conn) else ConnectionDown(conn))
      && (!TaskEndsIn(a, floatOf) ==> events[|events| - 1] == ConnectionDown(conn))
  {
    hide CutShort, LosesConnection, TickOutput, TickOk;
    if a.Connected? && !TaskEndsIn(a, floatOf) {
      var n := PollEnd(a.ticks, floatOf, 0);
      var t := a.ticks[n];
      ReachedUpToLoss(a.ticks, n, floatOf);
      LostTickEvents(conn, t, floatOf);
      TicksOutputEnds(conn, a.ticks, n + 1, floatOf);
      hide TicksOutput;
    }
  }

  lemma LostTickEvents(conn: string, t: Tick, floatOf: FloatOf)
    requires TickOk(t.polled) && LosesConnection(t.polled) && !CutShort(t, floatOf)
    ensures var events := TickOutput(conn, t, floatOf).events; events != [] && events[|events| - 1] == ConnectionDown(conn)
  {
    hide TickReadings, TickEvents, AcceptedOf, Reaches;
    OpenTick(conn, t, floatOf);
    VisitedLoses(t.polled);
    var d := VisitedFrom(t.polled, 0) - 1;
    assert |ReportedBy(conn, t.polled)| == d + 1;
    EventsSayWhatHappened(conn, t.polled, d);
  }
}
