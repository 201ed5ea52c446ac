/**
 The connection task (src/modbus/poller.rs): the nested poll loop with its device, connection
 and channel exits. What each block read returns is an input, as is the outcome of each
 non-blocking send on the reading channel.
 */
module Poller {
  import opened Types
  import opened Schema
  import opened Decode
  import opened Backoffs

  datatype BlockResult =
    | Words(words: seq<u16>)
    | Exception(code: string)
    | Protocol
    | Timeout
    | TransportFatal

  /** A device and what reading each of its blocks returns in one tick, should it be read. */
  datatype Polled = Polled(device: DeviceConfig, results: seq<BlockResult>)

  datatype SendResult = Sent | Full | Closed

  /** What the n-th send of a tick returns. */
  type Room = int -> SendResult

  type FloatOf = int -> real

  datatype DeviceEnd = AllRead | Skipped(reason: string) | ConnectionLost

  datatype TickExit = Completed | Lost | AggregatorGone

  ghost predicate PolledOk(p: Polled) {
    && |p.results| == |p.device.blocks|
    && forall k :: 0 <= k < |p.results| && p.results[k].Words? ==> Readable(p.device.blocks[k], p.results[k].words)
  }

  ghost predicate TickOk(tick: seq<Polled>) {
    forall p :: p in tick ==> PolledOk(p)
  }

  // ---------------------------------------------------------------- what a tick means

  function BlockReadings(p: Polled, k: nat, floatOf: FloatOf): seq<Reading>
    requires k < |p.results| == |p.device.blocks| && p.results[k].Words?
    requires Readable(p.device.blocks[k], p.results[k].words)
  {
    var values := DecodeBlock(p.device.blocks[k], p.results[k].words, floatOf);
    seq(|values|, i requires 0 <= i < |values| => Reading(PointId(p.device.id, values[i].0), values[i].1))
  }

  /** The number of successful reads before the first failed one. */
  function GoodPrefix(results: seq<BlockResult>): (n: nat)
    ensures n <= |results|
    ensures forall k :: 0 <= k < n ==> results[k].Words?
    ensures n == |results| || !results[n].Words?
  {
    if results == [] || !results[0].Words? then 0
    else
      var rest := GoodPrefix(results[1..]);
      assert forall k :: 0 < k < |results| ==> results[k] == results[1..][k - 1];
      1 + rest
  }

  ghost function ReadingsUpTo(p: Polled, n: nat, floatOf: FloatOf): seq<Reading>
    requires PolledOk(p) && n <= GoodPrefix(p.results)
  {
    if n == 0 then [] else ReadingsUpTo(p, n - 1, floatOf) + BlockReadings(p, n - 1, floatOf)
  }

  /** A device contributes the decode of its longest prefix of successful blocks. */
  ghost function DeviceReadings(p: Polled, floatOf: FloatOf): seq<Reading>
    requires PolledOk(p)
  {
    ReadingsUpTo(p, GoodPrefix(p.results), floatOf)
  }

  // ---------------------------------------------------------------- in terms of the block results alone

  /** The first read that does not return words. */
  predicate FirstFailure(results: seq<BlockResult>, k: nat) {
    k < |results| && !results[k].Words? && forall j :: 0 <= j < k ==> results[j].Words?
  }

  /** The transport fails before anything else does. */
  ghost predicate IsFatal(results: seq<BlockResult>) {
    exists k: nat :: FirstFailure(results, k) && results[k].TransportFatal?
  }

  predicate GivesReason(failure: BlockResult, reason: string) {
    match failure
    case Exception(code) => reason == "exception: " + code
    case Protocol => reason == "protocol error"
    case Timeout => reason == "timeout"
    case _ => false
  }

  ghost predicate EndsAs(results: seq<BlockResult>, end: DeviceEnd) {
    match end
    case AllRead => forall k :: 0 <= k < |results| ==> results[k].Words?
    case Skipped(reason) => exists k: nat :: FirstFailure(results, k) && GivesReason(results[k], reason)
    case ConnectionLost => IsFatal(results)
  }

  /** The event says which device and connection it is about and how the reads ended. */
  ghost predicate Tells(conn: string, p: Polled, e: StatusEvent) {
    match e
    case DeviceOk(c, d) => c == conn && d == p.device.id && EndsAs(p.results, AllRead)
    case DeviceProblem(c, d, reason) => c == conn && d == p.device.id && EndsAs(p.results, Skipped(reason))
    case ConnectionDown(c) => c == conn && EndsAs(p.results, ConnectionLost)
    case _ => false
  }

  // ---------------------------------------------------------------- as the loops compute it

  function EndOf(p: Polled): DeviceEnd {
    var n := GoodPrefix(p.results);
    if n == |p.results| then AllRead
    else match p.results[n]
      case Exception(code) => Skipped("exception: " + code)
      case Protocol => Skipped("protocol error")
      case Timeout => Skipped("timeout")
      case TransportFatal => ConnectionLost
  }

  function EventOf(conn: string, p: Polled): StatusEvent {
    match EndOf(p)
    case AllRead => DeviceOk(conn, p.device.id)
    case Skipped(reason) => DeviceProblem(conn, p.device.id, reason)
    case ConnectionLost => ConnectionDown(conn)
  }

  lemma FirstFailureIsUnique(results: seq<BlockResult>, j: nat, k: nat)
    requires FirstFailure(results, j) && FirstFailure(results, k)
    ensures j == k
  {
  }

  /** How polling a device ends follows from the first read that fails, and from nothing else. */
  lemma EndMeans(p: Polled, end: DeviceEnd)
    ensures EndsAs(p.results, end) <==> end == EndOf(p)
    ensures IsFatal(p.results) <==> EndOf(p).ConnectionLost?
  {
    var n := GoodPrefix(p.results);
    if n < |p.results| {
      assert FirstFailure(p.results, n);
      forall k: nat | FirstFailure(p.results, k) ensures k == n {
        FirstFailureIsUnique(p.results, k, n);
      }
    }
  }

  lemma EventMeans(conn: string, p: Polled, e: StatusEvent)
    ensures Tells(conn, p, e) <==> e == EventOf(conn, p)
  {
    hide EndsAs, EndOf;
    EndMeans(p, AllRead);
    EndMeans(p, ConnectionLost);
    if e.DeviceProblem? {
      EndMeans(p, Skipped(e.reason));
    }
  }

  /** Devices are visited in order up to and including the first that loses the connection. */
  function VisitedFrom(tick: seq<Polled>, from: nat): (n: nat)
    requires from <= |tick|
    ensures from <= n <= |tick|
    ensures forall d :: from <= d < n - 1 ==> !EndOf(tick[d]).ConnectionLost?
    ensures n == |tick| || (n > from && EndOf(tick[n - 1]).ConnectionLost?)
    decreases |tick| - from
  {
    if from == |tick| then from
    else if EndOf(tick[from]).ConnectionLost? then from + 1
    else VisitedFrom(tick, from + 1)
  }

  function Visited(tick: seq<Polled>): seq<Polled> {
    tick[..VisitedFrom(tick, 0)]
  }

  ghost function TickReadings(tick: seq<Polled>, floatOf: FloatOf): seq<Reading>
    requires TickOk(tick)
  {
    if tick == [] then []
    else TickReadings(tick[..|tick| - 1], floatOf) + DeviceReadings(tick[|tick| - 1], floatOf)
  }

  /** The readings a tick offers to the aggregator. */
  ghost function OfferedBy(tick: seq<Polled>, floatOf: FloatOf): seq<Reading>
    requires TickOk(tick)
  {
    TickReadings(Visited(tick), floatOf)
  }

  function TickEvents(conn: string, tick: seq<Polled>): (r: seq<StatusEvent>)
    ensures |r| == |tick|
  {
    if tick == [] then [] else TickEvents(conn, tick[..|tick| - 1]) + [EventOf(conn, tick[|tick| - 1])]
  }

  /** The events a tick reports, in order. */
  function ReportedBy(conn: string, tick: seq<Polled>): seq<StatusEvent> {
    TickEvents(conn, Visited(tick))
  }

  ghost predicate LosesConnection(tick: seq<Polled>) {
    exists p :: p in tick && IsFatal(p.results)
  }

  /** The first read of the device succeeds; if it does not, no other is made. */
  predicate ReadsFirst(p: Polled) {
    p.results != [] && p.results[0].Words?
  }

  /** Some block read of a device succeeds before the tick ends. */
  ghost predicate ReadsSomething(visited: seq<Polled>) {
    exists p :: p in visited && ReadsFirst(p)
  }

  /** The channel is found closed while the readings are offered. */
  ghost predicate FindsClosed(offered: seq<Reading>, room: Room) {
    exists k :: 0 <= k < |offered| && room(k).Closed?
  }

  function AcceptedOf(offered: seq<Reading>, room: Room): seq<Reading> {
    if offered == [] then []
    else
      var last := |offered| - 1;
      AcceptedOf(offered[..last], room) + if room(last).Sent? then [offered[last]] else []
  }

  /** The first send, from the `from`-th on, that finds the channel closed; `n` if none of the first `n` does. */
  function FirstClosed(room: Room, n: nat, from: nat): (k: nat)
    requires from <= n
    ensures from <= k <= n
    ensures forall i :: from <= i < k ==> !room(i).Closed?
    ensures k < n ==> room(k).Closed?
    decreases n - from
  {
    if from == n || room(from).Closed? then from else FirstClosed(room, n, from + 1)
  }

  /** How many of the first `n` devices have all their readings among the first `m` of the tick. */
  ghost function DevicesDone(tick: seq<Polled>, n: nat, m: nat, floatOf: FloatOf): (d: nat)
    requires TickOk(tick) && n <= |tick|
    ensures d <= n
  {
    if n == 0 || |TickReadings(tick[..n], floatOf)| <= m then n else DevicesDone(tick, n - 1, m, floatOf)
  }

  /** One tick: what its reads return, and the room in the channel for each send. */
  datatype Tick = Tick(polled: seq<Polled>, room: Room)

  /** What the rest of the gateway sees of a task: events reported, readings offered, readings put in the channel. */
  datatype Output = Output(events: seq<StatusEvent>, offered: seq<Reading>, accepted: seq<Reading>) {
    function Then(next: Output): Output {
      Output(events + next.events, offered + next.offered, accepted + next.accepted)
    }
  }

  /**
   All of a tick's output, or, if the channel is closed, its output up to the first reading that
   finds it closed: the device that reading belongs to reports nothing.
   */
  ghost function TickOutput(conn: string, t: Tick, floatOf: FloatOf): Output
    requires TickOk(t.polled)
  {
    var offered := OfferedBy(t.polled, floatOf);
    var k := FirstClosed(t.room, |offered|, 0);
    if k == |offered| then Output(ReportedBy(conn, t.polled), offered, AcceptedOf(offered, t.room))
    else
      Output(
        TickEvents(conn, t.polled[..DevicesDone(t.polled, VisitedFrom(t.polled, 0), k, floatOf)]),
        offered[..k + 1],
        AcceptedOf(offered[..k + 1], t.room))
  }

  // ---------------------------------------------------------------- the loops

  ghost predicate OpenUpTo(room: Room, n: nat) {
    forall k :: 0 <= k < n ==> !room(k).Closed?
  }

  /** The last reading offered found the channel closed, and no earlier one did. */
  ghost predicate StoppedAt(offered: seq<Reading>, room: Room) {
    offered != [] && room(|offered| - 1).Closed? && OpenUpTo(room, |offered| - 1)
  }

  method OfferBlock(values: seq<Reading>, room: Room, offered0: seq<Reading>, accepted0: seq<Reading>)
    returns (offered: seq<Reading>, accepted: seq<Reading>, gone: bool)
    requires accepted0 == AcceptedOf(offered0, room) && OpenUpTo(room, |offered0|)
    ensures !gone ==> offered == offered0 + values && OpenUpTo(room, |offered|)
    ensures gone ==> offered0 <= offered <= offered0 + values && StoppedAt(offered, room)
    ensures accepted == AcceptedOf(offered, room)
  {
    offered, accepted, gone := offered0, accepted0, false;
    for i := 0 to |values|
      invariant offered == offered0 + values[..i] && OpenUpTo(room, |offered|)
      invariant accepted == AcceptedOf(offered, room)
    {
      var result := room(|offered|);
      assert (offered + [values[i]])[..|offered|] == offered;
      offered := offered + [values[i]];
      match result {
        case Sent => accepted := accepted + [values[i]];
        case Full =>
        case Closed =>
          assert offered0 + values == offered + values[i + 1..];
          return offered, accepted, true;
      }
    }
  }

  lemma PrefixStep(p: Polled, k: nat, floatOf: FloatOf)
    requires PolledOk(p) && k < |p.results| && k <= GoodPrefix(p.results)
    ensures p.results[k].Words? <==> k < GoodPrefix(p.results)
    ensures k < GoodPrefix(p.results) ==> ReadingsUpTo(p, k + 1, floatOf) == ReadingsUpTo(p, k, floatOf) + BlockReadings(p, k, floatOf)
  {
  }

  lemma {:induction false} ReadingsPrefix(p: Polled, k: nat, n: nat, floatOf: FloatOf)
    requires PolledOk(p) && k <= n <= GoodPrefix(p.results)
    ensures ReadingsUpTo(p, k, floatOf) <= ReadingsUpTo(p, n, floatOf)
    decreases n - k
  {
    if k < n {
      ReadingsPrefix(p, k, n - 1, floatOf);
    }
  }

  method PollDevice(p: Polled, room: Room, backoff: Backoff, floatOf: FloatOf, offered0: seq<Reading>, accepted0: seq<Reading>)
    returns (offered: seq<Reading>, accepted: seq<Reading>, gone: bool, end: DeviceEnd)
    requires PolledOk(p)
    requires accepted0 == AcceptedOf(offered0, room) && OpenUpTo(room, |offered0|)
    modifies backoff
    ensures !gone ==> offered == offered0 + DeviceReadings(p, floatOf) && end == EndOf(p) && OpenUpTo(room, |offered|)
    ensures !gone ==> EndsAs(p.results, end)
    ensures gone ==> offered <= offered0 + DeviceReadings(p, floatOf) && StoppedAt(offered, room) && ReadsFirst(p)
    ensures accepted == AcceptedOf(offered, room)
    ensures backoff.current == if ReadsFirst(p) then backoff.min else old(backoff.current)
  {
    hide AcceptedOf, BlockReadings, StoppedAt, EndsAs;
    EndMeans(p, EndOf(p));
    ghost var n := GoodPrefix(p.results);
    offered, accepted, gone := offered0, accepted0, false;
    for k := 0 to |p.device.blocks|
      invariant k <= n
      invariant offered == offered0 + ReadingsUpTo(p, k, floatOf)
      invariant OpenUpTo(room, |offered|) && accepted == AcceptedOf(offered, room)
      invariant backoff.current == if k > 0 then backoff.min else old(backoff.current)
    {
      PrefixStep(p, k, floatOf);
      match p.results[k] {
        case Words(_) =>
          backoff.Reset();
          ghost var before := ReadingsUpTo(p, k, floatOf);
          var values := BlockReadings(p, k, floatOf);
          assert (offered0 + before) + values == offered0 + (before + values);
          offered, accepted, gone := OfferBlock(values, room, offered, accepted);
          if gone {
            ReadingsPrefix(p, k + 1, n, floatOf);
            return offered, accepted, true, AllRead;
          }
        case Exception(code) => return offered, accepted, false, Skipped("exception: " + code);
        case Protocol => return offered, accepted, false, Skipped("protocol error");
        case Timeout => return offered, accepted, false, Skipped("timeout");
        case TransportFatal => return offered, accepted, false, ConnectionLost;
      }
    }
    end := AllRead;
  }

  lemma {:induction false} TickPrefix(tick: seq<Polled>, d: nat, n: nat, floatOf: FloatOf, conn: string)
    requires TickOk(tick) && d <= n <= |tick|
    ensures TickReadings(tick[..d], floatOf) <= TickReadings(tick[..n], floatOf)
    ensures TickEvents(conn, tick[..d]) <= TickEvents(conn, tick[..n])
    decreases n - d
  {
    hide DeviceReadings, EventOf;
    if d < n {
      TickPrefix(tick, d, n - 1, floatOf, conn);
      assert tick[..n][..n - 1] == tick[..n - 1];
    }
  }

  lemma OneMoreDevice(conn: string, tick: seq<Polled>, d: nat, floatOf: FloatOf)
    requires TickOk(tick) && d < |tick|
    ensures TickReadings(tick[..d + 1], floatOf) == TickReadings(tick[..d], floatOf) + DeviceReadings(tick[d], floatOf)
    ensures TickEvents(conn, tick[..d + 1]) == TickEvents(conn, tick[..d]) + [EventOf(conn, tick[d])]
    ensures ReadsSomething(tick[..d + 1]) <==> ReadsSomething(tick[..d]) || ReadsFirst(tick[d])
    ensures LosesConnection(tick[..d + 1]) <==> LosesConnection(tick[..d]) || IsFatal(tick[d].results)
  {
    assert tick[..d + 1][..d] == tick[..d];
    assert tick[..d + 1] == tick[..d] + [tick[d]];
  }

  lemma ClosedInPrefix(offered: seq<Reading>, partial: seq<Reading>, all: seq<Reading>, room: Room)
    requires offered <= partial <= all && StoppedAt(offered, room)
    ensures offered <= all && FindsClosed(all, room)
  {
    assert room(|offered| - 1).Closed?;
  }

  /** Polls one device and reports its event. */
  method PollAndReport(conn: string, p: Polled, room: Room, backoff: Backoff, floatOf: FloatOf,
                       offered0: seq<Reading>, accepted0: seq<Reading>, events0: seq<StatusEvent>)
    returns (offered: seq<Reading>, accepted: seq<Reading>, events: seq<StatusEvent>, exit: TickExit)
    requires PolledOk(p)
    requires accepted0 == AcceptedOf(offered0, room) && OpenUpTo(room, |offered0|)
    modifies backoff
    ensures !exit.AggregatorGone? ==> offered == offered0 + DeviceReadings(p, floatOf) && OpenUpTo(room, |offered|)
    ensures !exit.AggregatorGone? ==> events == events0 + [EventOf(conn, p)] && Tells(conn, p, EventOf(conn, p))
    ensures !exit.AggregatorGone? ==> (exit.Lost? <==> IsFatal(p.results)) && (exit.Lost? <==> EndOf(p).ConnectionLost?)
    ensures exit.AggregatorGone? ==> offered <= offered0 + DeviceReadings(p, floatOf) && StoppedAt(offered, room) && events == events0
    ensures accepted == AcceptedOf(offered, room)
    ensures backoff.current == if ReadsFirst(p) then backoff.min else old(backoff.current)
  {
    var gone, end;
    offered, accepted, gone, end := PollDevice(p, room, backoff, floatOf, offered0, accepted0);
    events, exit := events0, Completed;
    EndMeans(p, EndOf(p));
    EventMeans(conn, p, EventOf(conn, p));
    hide EndsAs, IsFatal, GoodPrefix, Tells;
    if gone {
      exit := AggregatorGone;
    } else {
      match end {
        case AllRead => events := events + [DeviceOk(conn, p.device.id)];
        case Skipped(reason) => events := events + [DeviceProblem(conn, p.device.id, reason)];
        case ConnectionLost =>
          events := events + [ConnectionDown(conn)];
          exit := Lost;
      }
    }
  }

  lemma EmptyTick(conn: string, floatOf: FloatOf, room: Room)
    ensures TickReadings([], floatOf) == [] && TickEvents(conn, []) == [] && AcceptedOf([], room) == []
    ensures !LosesConnection([]) && !ReadsSomething([])
  {
  }

  lemma {:induction false} DoneBefore(tick: seq<Polled>, n: nat, m: nat, d: nat, floatOf: FloatOf)
    requires TickOk(tick) && d < n <= |tick|
    requires |TickReadings(tick[..d], floatOf)| <= m < |TickReadings(tick[..d + 1], floatOf)|
    ensures DevicesDone(tick, n, m, floatOf) == d
  {
    hide TickReadings;
    TickPrefix(tick, d + 1, n, floatOf, "");
    if n - 1 > d {
      DoneBefore(tick, n - 1, m, d, floatOf);
    }
  }

  /** A tick cut short while offering the readings of device `d`. */
  lemma CutOutput(conn: string, t: Tick, d: nat, offered: seq<Reading>, floatOf: FloatOf)
    requires TickOk(t.polled) && d < VisitedFrom(t.polled, 0)
    requires OpenUpTo(t.room, |TickReadings(t.polled[..d], floatOf)|)
    requires offered <= TickReadings(t.polled[..d + 1], floatOf) && StoppedAt(offered, t.room)
    ensures TickOutput(conn, t, floatOf) == Output(TickEvents(conn, t.polled[..d]), offered, AcceptedOf(offered, t.room))
  {
    hide AcceptedOf, TickEvents, TickReadings;
    var n := VisitedFrom(t.polled, 0);
    var all := OfferedBy(t.polled, floatOf);
    TickPrefix(t.polled, d + 1, n, floatOf, conn);
    var k := FirstClosed(t.room, |all|, 0);
    assert k == |offered| - 1;
    assert offered == all[..k + 1];
    DoneBefore(t.polled, n, k, d, floatOf);
  }

  lemma WholeOutput(conn: string, t: Tick, floatOf: FloatOf)
    requires TickOk(t.polled) && OpenUpTo(t.room, |OfferedBy(t.polled, floatOf)|)
    ensures var offered := OfferedBy(t.polled, floatOf);
      TickOutput(conn, t, floatOf) == Output(ReportedBy(conn, t.polled), offered, AcceptedOf(offered, t.room))
  {
  }

  lemma OpenIsNotFound(offered: seq<Reading>, room: Room)
    requires OpenUpTo(room, |offered|)
    ensures !FindsClosed(offered, room)
  {
  }

  lemma VisitedLoses(tick: seq<Polled>)
    ensures LosesConnection(Visited(tick)) <==> LosesConnection(tick)
  {
    var n := VisitedFrom(tick, 0);
    if n > 0 {
      EndMeans(tick[n - 1], ConnectionLost);
    }
    if LosesConnection(tick) {
      var p :| p in tick && IsFatal(p.results);
      var i :| 0 <= i < |tick| && tick[i] == p;
      EndMeans(p, ConnectionLost);
      assert i >= n - 1;
      assert IsFatal(tick[n - 1].results) && tick[n - 1] in Visited(tick);
    }
  }

  /** One pass over all devices: from `ticker.tick()` to the next, or to the exit that ends the pass. */
  method PollTick(conn: string, tick: seq<Polled>, room: Room, backoff: Backoff, floatOf: FloatOf)
    returns (offered: seq<Reading>, accepted: seq<Reading>, events: seq<StatusEvent>, exit: TickExit)
    requires TickOk(tick)
    modifies backoff
    ensures exit.AggregatorGone? <==> FindsClosed(OfferedBy(tick, floatOf), room)
    ensures !exit.AggregatorGone? ==> offered == OfferedBy(tick, floatOf) && events == ReportedBy(conn, tick)
    ensures !exit.AggregatorGone? ==> (exit.Lost? <==> LosesConnection(tick))
    ensures !exit.AggregatorGone? ==>
              backoff.current == if ReadsSomething(Visited(tick)) then backoff.min else old(backoff.current)
    ensures Output(events, offered, accepted) == TickOutput(conn, Tick(tick, room), floatOf)
  {
    hide DeviceReadings, EventOf, EndOf, GoodPrefix, FindsClosed, StoppedAt, AcceptedOf, TickReadings, TickEvents, LosesConnection, ReadsSomething, IsFatal, Tells;
    ghost var n := VisitedFrom(tick, 0);
    offered, accepted, events, exit := [], [], [], Completed;
    EmptyTick(conn, floatOf, room);
    assert tick[..0] == [];
    var d := 0;
    while d < |tick| && exit.Completed?
      invariant d <= n <= |tick| && (exit.Completed? || exit.Lost?)
      invariant if exit.Completed? then n == VisitedFrom(tick, d) else d == n
      invariant exit.Lost? <==> LosesConnection(tick[..d])
      invariant offered == TickReadings(tick[..d], floatOf)
      invariant events == TickEvents(conn, tick[..d])
      invariant OpenUpTo(room, |offered|) && accepted == AcceptedOf(offered, room)
      invariant backoff.current == if ReadsSomething(tick[..d]) then backoff.min else old(backoff.current)
    {
      offered, accepted, events, exit := PollAndReport(conn, tick[d], room, backoff, floatOf, offered, accepted, events);
      OneMoreDevice(conn, tick, d, floatOf);
      if exit.AggregatorGone? {
        TickPrefix(tick, d + 1, n, floatOf, conn);
        ClosedInPrefix(offered, TickReadings(tick[..d + 1], floatOf), TickReadings(tick[..n], floatOf), room);
        CutOutput(conn, Tick(tick, room), d, offered, floatOf);
        return;
      }
      d := d + 1;
    }
    OpenIsNotFound(offered, room);
    WholeOutput(conn, Tick(tick, room), floatOf);
    VisitedLoses(tick);
  }

  // ---------------------------------------------------------------- properties of a tick

  lemma {:induction false} EventAt(conn: string, tick: seq<Polled>)
    ensures forall d :: 0 <= d < |tick| ==> TickEvents(conn, tick)[d] == EventOf(conn, tick[d])
  {
    if tick != [] {
      EventAt(conn, tick[..|tick| - 1]);
    }
  }

  /**
   Every visited device gets exactly one event, which tells how its reads ended; devices are
   visited up to the first whose reads end fatally, and ConnectionDown is reported for that one.
   */
  lemma EventsSayWhatHappened(conn: string, tick: seq<Polled>, d: nat)
    ensures d < |ReportedBy(conn, tick)| <==> Reaches(tick, d)
    ensures Reaches(tick, d) ==>
              var e := ReportedBy(conn, tick)[d];
              && Tells(conn, tick[d], e)
              && (e.DeviceOk? <==> forall k :: 0 <= k < |tick[d].results| ==> tick[d].results[k].Words?)
              && (e.ConnectionDown? <==> LosesConnection(tick) && d == |ReportedBy(conn, tick)| - 1)
    ensures !LosesConnection(tick) ==> |ReportedBy(conn, tick)| == |tick|
  {
    EventAt(conn, Visited(tick));
    VisitedLoses(tick);
    ReachesVisited(tick, d);
    if d < |Visited(tick)| {
      EventMeans(conn, tick[d], EventOf(conn, tick[d]));
      EndMeans(tick[d], EndOf(tick[d]));
      FatalIsLast(tick, d);
    }
  }

  ghost predicate Reaches(tick: seq<Polled>, d: nat) {
    d < |tick| && forall i :: 0 <= i < d ==> !IsFatal(tick[i].results)
  }

  lemma ReachesVisited(tick: seq<Polled>, d: nat)
    ensures Reaches(tick, d) <==> d < VisitedFrom(tick, 0)
  {
    hide IsFatal, EndOf;
    forall i | 0 <= i < |tick| ensures IsFatal(tick[i].results) <==> EndOf(tick[i]).ConnectionLost? {
      EndMeans(tick[i], ConnectionLost);
    }
  }

  lemma FatalIsLast(tick: seq<Polled>, d: nat)
    requires d < VisitedFrom(tick, 0)
    ensures IsFatal(tick[d].results) <==> LosesConnection(tick) && d == VisitedFrom(tick, 0) - 1
  {
    hide IsFatal, EndOf;
    var n := VisitedFrom(tick, 0);
    VisitedLoses(tick);
    EndMeans(tick[d], ConnectionLost);
    EndMeans(tick[n - 1], ConnectionLost);
    forall i | 0 <= i < |tick| ensures IsFatal(tick[i].results) <==> EndOf(tick[i]).ConnectionLost? {
      EndMeans(tick[i], ConnectionLost);
    }
    assert tick[d] in tick;
  }

  /** The readings of one device, among those of all. */
  function OfDevice(readings: seq<Reading>, id: string): seq<Reading> {
    if readings == [] then []
    else OfDevice(readings[..|readings| - 1], id)
         + if readings[|readings| - 1].pointId.device == id then [readings[|readings| - 1]] else []
  }

  lemma {:induction false} OfDeviceConcat(a: seq<Reading>, b: seq<Reading>, id: string)
    ensures OfDevice(a + b, id) == OfDevice(a, id) + OfDevice(b, id)
  {
    if b == [] {
      assert a + b == a;
    } else {
      OfDeviceConcat(a, b[..|b| - 1], id);
      assert (a + b)[..|a + b| - 1] == a + b[..|b| - 1];
    }
  }

  lemma {:induction false} OfDeviceUniform(readings: seq<Reading>, owner: string, id: string)
    requires forall r :: r in readings ==> r.pointId.device == owner
    ensures OfDevice(readings, id) == if owner == id then readings else []
  {
    if readings != [] {
      OfDeviceUniform(readings[..|readings| - 1], owner, id);
      assert readings == readings[..|readings| - 1] + [readings[|readings| - 1]];
      assert readings[|readings| - 1] in readings;
    }
  }

  lemma {:induction false} ReadingsCarryTheirDevice(p: Polled, n: nat, floatOf: FloatOf)
    requires PolledOk(p) && n <= GoodPrefix(p.results)
    ensures forall r :: r in ReadingsUpTo(p, n, floatOf) ==> r.pointId.device == p.device.id
  {
    if n > 0 {
      ReadingsCarryTheirDevice(p, n - 1, floatOf);
    }
  }

  lemma ShareOfOneDevice(p: Polled, id: string, floatOf: FloatOf)
    requires PolledOk(p)
    ensures OfDevice(DeviceReadings(p, floatOf), id) == if p.device.id == id then DeviceReadings(p, floatOf) else []
  {
    ReadingsCarryTheirDevice(p, GoodPrefix(p.results), floatOf);
    OfDeviceUniform(DeviceReadings(p, floatOf), p.device.id, id);
  }

  ghost predicate DeviceIdsDistinct(tick: seq<Polled>) {
    forall i, j :: 0 <= i < j < |tick| ==> tick[i].device.id != tick[j].device.id
  }

  lemma {:induction false} DeviceShareOfTick(tick: seq<Polled>, n: nat, d: nat, floatOf: FloatOf)
    requires TickOk(tick) && DeviceIdsDistinct(tick) && n <= |tick| && d < |tick|
    ensures OfDevice(TickReadings(tick[..n], floatOf), tick[d].device.id) == (if d < n then DeviceReadings(tick[d], floatOf) else [])
  {
    hide DeviceReadings, ReadsSomething, LosesConnection, EventOf, PolledOk;
    if n == 0 {
      assert tick[..0] == [];
    } else {
      hide TickReadings, OfDevice;
      DeviceShareOfTick(tick, n - 1, d, floatOf);
      OneMoreDevice("", tick, n - 1, floatOf);
      ShareOfOneDevice(tick[n - 1], tick[d].device.id, floatOf);
      OfDeviceConcat(TickReadings(tick[..n - 1], floatOf), DeviceReadings(tick[n - 1], floatOf), tick[d].device.id);
    }
  }

  /** A reached device contributes its own readings, after exactly those of the devices before it, and its event. */
  lemma ReachedDevice(conn: string, tick: seq<Polled>, d: nat, floatOf: FloatOf)
    requires TickOk(tick) && Reaches(tick, d)
    ensures TickReadings(tick[..d], floatOf) + DeviceReadings(tick[d], floatOf) <= OfferedBy(tick, floatOf)
    ensures d < |ReportedBy(conn, tick)| && ReportedBy(conn, tick)[d] == EventOf(conn, tick[d])
  {
    ReachesVisited(tick, d);
    OneMoreDevice(conn, tick, d, floatOf);
    TickPrefix(tick, d + 1, VisitedFrom(tick, 0), floatOf, conn);
    EventAt(conn, Visited(tick));
  }

  /** The readings a tick offers while it is at its `d`-th device. */
  ghost function ShareOf(tick: seq<Polled>, d: nat, floatOf: FloatOf): seq<Reading>
    requires TickOk(tick) && Reaches(tick, d)
  {
    ReachedDevice("", tick, d, floatOf);
    var before := |TickReadings(tick[..d], floatOf)|;
    OfferedBy(tick, floatOf)[before..before + |DeviceReadings(tick[d], floatOf)|]
  }

  /**
   Fault isolation: two ticks in which device `d` answers the same, and which reach it, offer the
   same readings at it and report the same event for it, whatever every other device did.
   */
  lemma FaultIsolation(conn: string, tick1: seq<Polled>, tick2: seq<Polled>, d: nat, floatOf: FloatOf)
    requires TickOk(tick1) && TickOk(tick2) && Reaches(tick1, d) && Reaches(tick2, d) && tick1[d] == tick2[d]
    ensures ShareOf(tick1, d, floatOf) == ShareOf(tick2, d, floatOf) == DeviceReadings(tick1[d], floatOf)
    ensures d < |ReportedBy(conn, tick1)| && d < |ReportedBy(conn, tick2)| && ReportedBy(conn, tick1)[d] == ReportedBy(conn, tick2)[d]
  {
    hide TickReadings, DeviceReadings, OfferedBy, ReportedBy;
    ReachedDevice(conn, tick1, d, floatOf);
    ReachedDevice(conn, tick2, d, floatOf);
  }

  /** Where device ids differ, a device's readings among all those offered can be told by its id. */
  lemma FaultIsolationById(conn: string, tick1: seq<Polled>, tick2: seq<Polled>, d: nat, floatOf: FloatOf)
    requires TickOk(tick1) && TickOk(tick2) && DeviceIdsDistinct(tick1) && DeviceIdsDistinct(tick2)
    requires Reaches(tick1, d) && Reaches(tick2, d) && tick1[d] == tick2[d]
    ensures OfDevice(OfferedBy(tick1, floatOf), tick1[d].device.id) == OfDevice(OfferedBy(tick2, floatOf), tick1[d].device.id)
  {
    ReachesVisited(tick1, d);
    ReachesVisited(tick2, d);
    DeviceShareOfTick(tick1, VisitedFrom(tick1, 0), d, floatOf);
    DeviceShareOfTick(tick2, VisitedFrom(tick2, 0), d, floatOf);
  }

  // ---------------------------------------------------------------- the whole task

  /** One connect attempt and, when it succeeds, the ticks that follow until the connection is lost. */
  datatype Attempt = Refused | Connected(ticks: seq<Tick>)

  ghost predicate TicksOk(ticks: seq<Tick>) {
    forall t :: t in ticks ==> TickOk(t.polled)
  }

  ghost predicate AttemptOk(a: Attempt) {
    a.Connected? ==> TicksOk(a.ticks)
  }

  ghost predicate ScriptOk(script: seq<Attempt>) {
    forall a :: a in script ==> AttemptOk(a)
  }

  ghost predicate CutShort(t: Tick, floatOf: FloatOf)
    requires TickOk(t.polled)
  {
    FindsClosed(OfferedBy(t.polled, floatOf), t.room)
  }

  ghost predicate StopsAt(ticks: seq<Tick>, i: nat, floatOf: FloatOf)
    requires i < |ticks| && TicksOk(ticks)
  {
    CutShort(ticks[i], floatOf) || LosesConnection(ticks[i].polled)
  }

  function FirstTrue(flags: seq<bool>, from: nat): (n: nat)
    requires from <= |flags|
    ensures from <= n <= |flags|
    ensures forall i :: from <= i < n ==> !flags[i]
    ensures n < |flags| ==> flags[n]
    decreases |flags| - from
  {
    if from == |flags| || flags[from] then from else FirstTrue(flags, from + 1)
  }

  ghost function Stops(ticks: seq<Tick>, floatOf: FloatOf): seq<bool>
    requires TicksOk(ticks)
  {
    seq(|ticks|, i requires 0 <= i < |ticks| => StopsAt(ticks, i, floatOf))
  }

  /** The first tick that ends the polling loop, if any. */
  ghost function PollEnd(ticks: seq<Tick>, floatOf: FloatOf, from: nat): (n: nat)
    requires from <= |ticks| && TicksOk(ticks)
    ensures from <= n <= |ticks|
  {
    FirstTrue(Stops(ticks, floatOf), from)
  }

  lemma PollEndMeans(ticks: seq<Tick>, floatOf: FloatOf, from: nat)
    requires from <= |ticks| && TicksOk(ticks)
    ensures var n := PollEnd(ticks, floatOf, from);
      && from <= n <= |ticks|
      && (forall i :: from <= i < n ==> !StopsAt(ticks, i, floatOf))
      && (n < |ticks| ==> StopsAt(ticks, n, floatOf))
    ensures from < |ticks| && !StopsAt(ticks, from, floatOf) ==> PollEnd(ticks, floatOf, from + 1) == PollEnd(ticks, floatOf, from)
    ensures from == |ticks| || StopsAt(ticks, from, floatOf) ==> PollEnd(ticks, floatOf, from) == from
  {
    hide StopsAt;
    var flags := Stops(ticks, floatOf);
    assert forall i :: 0 <= i < |ticks| ==> flags[i] == StopsAt(ticks, i, floatOf);
  }

  /** The task ends when its ticks run out (it is aborted) or the channel closes; otherwise the connection was lost. */
  ghost predicate TaskEndsIn(a: Attempt, floatOf: FloatOf)
    requires AttemptOk(a)
  {
    a.Connected? &&
      var n := PollEnd(a.ticks, floatOf, 0);
      n == |a.ticks| || CutShort(a.ticks[n], floatOf)
  }

  /** The number of ticks that were begun: the last one loses the connection, is cut short, or is the last there is. */
  ghost function BegunTicks(ticks: seq<Tick>, floatOf: FloatOf): (n: nat)
    requires TicksOk(ticks)
    ensures n <= |ticks|
  {
    var n := PollEnd(ticks, floatOf, 0);
    if n == |ticks| then n else n + 1
  }

  /** Does a block read succeed in the first `n` ticks? */
  ghost predicate ReadInFirst(ticks: seq<Tick>, n: nat)
    requires n <= |ticks|
  {
    n > 0 && (ReadInFirst(ticks, n - 1) || ReadsSomething(Visited(ticks[n - 1].polled)))
  }

  /** What the first `n` ticks put out. */
  ghost function TicksOutput(conn: string, ticks: seq<Tick>, n: nat, floatOf: FloatOf): Output
    requires n <= |ticks| && TicksOk(ticks)
  {
    if n == 0 then Output([], [], [])
    else TicksOutput(conn, ticks, n - 1, floatOf).Then(TickOutput(conn, ticks[n - 1], floatOf))
  }

  /** The wait counter after an attempt: reset by a successful block read, never by connecting alone. */
  ghost function CounterAfter(a: Attempt, floatOf: FloatOf, k: nat): nat
    requires AttemptOk(a)
  {
    if a.Connected? && ReadInFirst(a.ticks, BegunTicks(a.ticks, floatOf)) then 0 else k
  }

  /** The wait counter before attempt `i`: waits since the start or since the last attempt in which some block was read. */
  ghost function CounterBefore(script: seq<Attempt>, i: nat, floatOf: FloatOf): nat
    requires i <= |script| && ScriptOk(script)
  {
    if i == 0 then 0 else CounterAfter(script[i - 1], floatOf, CounterBefore(script, i - 1, floatOf)) + 1
  }

  /** Closed form: the task sleeps once after each attempt, for the delay its counter gives. */
  ghost predicate SleptAsCounted(min: nat, max: nat, script: seq<Attempt>, waits: seq<nat>, floatOf: FloatOf)
    requires ScriptOk(script)
  {
    && |waits| <= |script|
    && forall i :: 0 <= i < |waits| ==> waits[i] == Delay(min, max, CounterAfter(script[i], floatOf, CounterBefore(script, i, floatOf)))
  }

  // ---------------------------------------------------------------- the same, in terms of the block results alone

  /** The connection survives the ticks before this one. */
  ghost predicate TickReached(ticks: seq<Tick>, t: nat) {
    t < |ticks| && forall u :: 0 <= u < t ==> !LosesConnection(ticks[u].polled)
  }

  /** A device that is reached, and whose first read succeeds. */
  ghost predicate ReadsAt(tick: seq<Polled>, d: nat) {
    Reaches(tick, d) && ReadsFirst(tick[d])
  }

  /** While the connection lasts, the first block of some device that is reached is read successfully. */
  ghost predicate ReadsIn(a: Attempt) {
    a.Connected? && exists t: nat, d: nat ::
      TickReached(a.ticks, t) && ReadsAt(a.ticks[t].polled, d)
  }

  ghost predicate LastReadIn(script: seq<Attempt>, j: nat, i: nat) {
    j <= i < |script| && ReadsIn(script[j]) && forall m :: j < m <= i ==> !ReadsIn(script[m])
  }

  ghost predicate NoReadUpTo(script: seq<Attempt>, i: nat) {
    i < |script| && forall m :: 0 <= m <= i ==> !ReadsIn(script[m])
  }

  /** Each wait is the delay for the number of waits since the last attempt in which some block was read, or since the start. */
  ghost predicate WaitsSinceRead(min: nat, max: nat, script: seq<Attempt>, waits: seq<nat>) {
    && (forall i: nat, j: nat :: i < |waits| && LastReadIn(script, j, i) ==> waits[i] == Delay(min, max, i - j))
    && (forall i: nat :: i < |waits| && NoReadUpTo(script, i) ==> waits[i] == Delay(min, max, i))
  }

  lemma {:induction false} ReadInFirstMeans(ticks: seq<Tick>, n: nat)
    requires n <= |ticks|
    ensures ReadInFirst(ticks, n) <==> exists t :: 0 <= t < n && ReadsSomething(Visited(ticks[t].polled))
  {
    hide ReadsSomething, Visited;
    if n > 0 {
      ReadInFirstMeans(ticks, n - 1);
    }
  }

  lemma VisitedReads(tick: seq<Polled>)
    ensures ReadsSomething(Visited(tick)) <==> exists d: nat :: ReadsAt(tick, d)
  {
    hide Reaches, ReadsFirst;
    var visited := Visited(tick);
    forall d: nat ensures Reaches(tick, d) <==> d < |visited| {
      ReachesVisited(tick, d);
    }
    if ReadsSomething(visited) {
      var p :| p in visited && ReadsFirst(p);
      var d :| 0 <= d < |visited| && visited[d] == p;
      assert ReadsAt(tick, d);
    }
    if d: nat :| ReadsAt(tick, d) {
      assert visited[d] in visited;
    }
  }

  lemma ReachedUpToLoss(ticks: seq<Tick>, n: nat, floatOf: FloatOf)
    requires TicksOk(ticks) && n == PollEnd(ticks, floatOf, 0) < |ticks| && !CutShort(ticks[n], floatOf)
    ensures LosesConnection(ticks[n].polled) && forall t: nat :: TickReached(ticks, t) <==> t <= n
  {
    hide CutShort, LosesConnection;
    PollEndMeans(ticks, floatOf, 0);
    forall u | 0 <= u < n ensures !LosesConnection(ticks[u].polled) {
      assert !StopsAt(ticks, u, floatOf);
    }
  }

  /** An attempt that lost its connection resets the counter exactly when a block was read in it. */
  lemma CounterMeans(a: Attempt, floatOf: FloatOf, k: nat)
    requires AttemptOk(a) && !TaskEndsIn(a, floatOf)
    ensures CounterAfter(a, floatOf, k) == if ReadsIn(a) then 0 else k
  {
    hide CutShort, TickReached, ReadsAt, ReadsSomething, Visited, ReadInFirst, TicksOk;
    if a.Connected? {
      var n := PollEnd(a.ticks, floatOf, 0);
      ReachedUpToLoss(a.ticks, n, floatOf);
      ReadInFirstMeans(a.ticks, n + 1);
      forall t | 0 <= t < |a.ticks|
        ensures ReadsSomething(Visited(a.ticks[t].polled)) <==> exists d: nat :: ReadsAt(a.ticks[t].polled, d)
      {
        VisitedReads(a.ticks[t].polled);
      }
    }
  }

  lemma {:induction false} CountsSinceRead(script: seq<Attempt>, i: nat, floatOf: FloatOf)
    requires i < |script| && ScriptOk(script) && forall m :: 0 <= m <= i ==> !TaskEndsIn(script[m], floatOf)
    ensures var k := CounterAfter(script[i], floatOf, CounterBefore(script, i, floatOf));
      && (forall j: nat :: LastReadIn(script, j, i) ==> k == i - j)
      && (NoReadUpTo(script, i) ==> k == i)
  {
    hide ReadsIn, TaskEndsIn, CounterAfter;
    CounterMeans(script[i], floatOf, CounterBefore(script, i, floatOf));
    if i > 0 {
      CountsSinceRead(script, i - 1, floatOf);
      forall j: nat | LastReadIn(script, j, i) && j < i ensures LastReadIn(script, j, i - 1) {
      }
    }
  }

  lemma WaitsMean(min: nat, max: nat, script: seq<Attempt>, waits: seq<nat>, floatOf: FloatOf)
    requires ScriptOk(script) && SleptAsCounted(min, max, script, waits, floatOf) && Survives(script, |waits|, floatOf)
    ensures WaitsSinceRead(min, max, script, waits)
  {
    hide ReadsIn, TaskEndsIn, CounterAfter, CounterBefore, Delay;
    forall i | 0 <= i < |waits|
      ensures forall j: nat :: LastReadIn(script, j, i) ==> waits[i] == Delay(min, max, i - j)
      ensures NoReadUpTo(script, i) ==> waits[i] == Delay(min, max, i)
    {
      CountsSinceRead(script, i, floatOf);
    }
  }

  /** The attempts after which the task is still running: those before the first that ends it. */
  ghost predicate Survives(script: seq<Attempt>, n: nat, floatOf: FloatOf)
    requires ScriptOk(script)
  {
    && n <= |script|
    && (forall i :: 0 <= i < n ==> !TaskEndsIn(script[i], floatOf))
    && (n < |script| ==> TaskEndsIn(script[n], floatOf))
  }

  /** Tick `n` loses the connection, and no tick so far found the channel closed. */
  ghost predicate LostAt(ticks: seq<Tick>, n: nat, floatOf: FloatOf)
    requires TicksOk(ticks)
  {
    TickReached(ticks, n) && LosesConnection(ticks[n].polled) && forall u :: 0 <= u <= n ==> !CutShort(ticks[u], floatOf)
  }

  /** A task outlives an attempt exactly when the connect fails, or a tick loses the connection before any finds the channel closed. */
  lemma SurvivedMeans(a: Attempt, floatOf: FloatOf)
    requires AttemptOk(a)
    ensures !TaskEndsIn(a, floatOf) <==> a.Refused? || exists n: nat :: LostAt(a.ticks, n, floatOf)
  {
    hide LosesConnection, CutShort;
    if a.Connected? {
      var e := PollEnd(a.ticks, floatOf, 0);
      PollEndMeans(a.ticks, floatOf, 0);
      if !TaskEndsIn(a, floatOf) {
        ReachedUpToLoss(a.ticks, e, floatOf);
        forall u | 0 <= u < e ensures !CutShort(a.ticks[u], floatOf) {
          assert !StopsAt(a.ticks, u, floatOf);
        }
        assert LostAt(a.ticks, e, floatOf);
      }
      forall n: nat | LostAt(a.ticks, n, floatOf) ensures n == e {
        LossIsPollEnd(a.ticks, n, floatOf);
      }
    }
  }

  lemma LossIsPollEnd(ticks: seq<Tick>, n: nat, floatOf: FloatOf)
    requires TicksOk(ticks) && LostAt(ticks, n, floatOf)
    ensures n == PollEnd(ticks, floatOf, 0)
  {
    hide LosesConnection, CutShort;
    var e := PollEnd(ticks, floatOf, 0);
    PollEndMeans(ticks, floatOf, 0);
    assert StopsAt(ticks, n, floatOf);
  }

  /** What one attempt puts out. */
  ghost function AttemptOutput(conn: string, a: Attempt, floatOf: FloatOf): Output
    requires AttemptOk(a)
  {
    match a
    case Refused => Output([ConnectionDown(conn)], [], [])
    case Connected(ticks) => Output([ConnectionUp(conn)], [], []).Then(TicksOutput(conn, ticks, BegunTicks(ticks, floatOf), floatOf))
  }

  /** What the first `n` attempts put out. */
  ghost function Outputs(conn: string, script: seq<Attempt>, n: nat, floatOf: FloatOf): Output
    requires n <= |script| && ScriptOk(script)
  {
    if n == 0 then Output([], [], [])
    else Outputs(conn, script, n - 1, floatOf).Then(AttemptOutput(conn, script[n - 1], floatOf))
  }

  /** Polls on one connection until it is lost; `over` when the task has ended instead. */
  method PollUntilLost(conn: string, ticks: seq<Tick>, backoff: Backoff, floatOf: FloatOf)
    returns (over: bool, out: Output)
    requires TicksOk(ticks)
    modifies backoff
    ensures over <==> TaskEndsIn(Connected(ticks), floatOf)
    ensures !over ==> backoff.current ==
                      if ReadInFirst(ticks, BegunTicks(ticks, floatOf)) then backoff.min else old(backoff.current)
    ensures out == TicksOutput(conn, ticks, BegunTicks(ticks, floatOf), floatOf)
  {
    hide TickOutput;
    out := Output([], [], []);
    ghost var n := PollEnd(ticks, floatOf, 0);
    for i := 0 to |ticks|
      invariant i <= n && n == PollEnd(ticks, floatOf, i)
      invariant backoff.current == if ReadInFirst(ticks, i) then backoff.min else old(backoff.current)
      invariant out == TicksOutput(conn, ticks, i, floatOf)
    {
      PollEndMeans(ticks, floatOf, i);
      var tick := ticks[i];
      var offered, accepted, events, exit := PollTick(conn, tick.polled, tick.room, backoff, floatOf);
      assert Tick(tick.polled, tick.room) == tick;
      out := out.Then(Output(events, offered, accepted));
      if exit.AggregatorGone? {
        assert CutShort(tick, floatOf) && n == i;
        return true, out;
      }
      assert !CutShort(tick, floatOf);
      if exit.Lost? {
        assert n == i;
        return false, out;
      }
    }
    over := true;
  }

  /** One round: connect, poll until the connection is lost, back off. `k` counts waits since the last successful read. */
  method RunAttempt(conn: string, a: Attempt, backoff: Backoff, floatOf: FloatOf, ghost k: nat)
    returns (over: bool, out: Output, slept: nat)
    requires AttemptOk(a) && backoff.current == Delay(backoff.min, backoff.max, k)
    modifies backoff
    ensures over <==> TaskEndsIn(a, floatOf)
    ensures !over ==> slept == Delay(backoff.min, backoff.max, CounterAfter(a, floatOf, k))
    ensures !over ==> backoff.current == Delay(backoff.min, backoff.max, CounterAfter(a, floatOf, k) + 1)
    ensures !over ==> slept == Delay(backoff.min, backoff.max, if ReadsIn(a) then 0 else k)
    ensures out == AttemptOutput(conn, a, floatOf)
  {
    hide ReadsIn;
    over, slept := false, 0;
    match a {
      case Refused =>
        out := Output([ConnectionDown(conn)], [], []);
      case Connected(ticks) =>
        var polled;
        over, polled := PollUntilLost(conn, ticks, backoff, floatOf);
        out := Output([ConnectionUp(conn)], [], []).Then(polled);
        if over {
          return;
        }
    }
    CounterMeans(a, floatOf, k);
    OneMoreWait(backoff.min, backoff.max, CounterAfter(a, floatOf, k));
    slept := backoff.Wait();
  }

  lemma FirstDelay(min: nat, max: nat, script: seq<Attempt>, floatOf: FloatOf)
    requires ScriptOk(script)
    ensures Delay(min, max, CounterBefore(script, 0, floatOf)) == min
  {
    hide ScriptOk;
  }

  /** The attempts that were begun: those survived, and the one that ended the task. */
  function Begun(survived: nat, script: seq<Attempt>): nat {
    if survived < |script| then survived + 1 else |script|
  }

  /** The outer loop over a script of connect attempts; when the script ends the task is still waiting to reconnect. */
  method Reconnect(conn: string, backoff: Backoff, script: seq<Attempt>, floatOf: FloatOf)
    returns (waits: seq<nat>, out: Output)
    requires ScriptOk(script) && backoff.current == backoff.min
    modifies backoff
    ensures Survives(script, |waits|, floatOf) && SleptAsCounted(backoff.min, backoff.max, script, waits, floatOf)
    ensures WaitsSinceRead(backoff.min, backoff.max, script, waits)
    ensures out == Outputs(conn, script, Begun(|waits|, script), floatOf)
  {
    hide TaskEndsIn, CounterAfter, AttemptOutput, Delay, WaitsSinceRead;
    FirstDelay(backoff.min, backoff.max, script, floatOf);
    waits, out := [], Output([], [], []);
    var i := 0;
    while i < |script|
      invariant |waits| == i <= |script|
      invariant forall j :: 0 <= j < i ==> !TaskEndsIn(script[j], floatOf)
      invariant SleptAsCounted(backoff.min, backoff.max, script, waits, floatOf)
      invariant backoff.current == Delay(backoff.min, backoff.max, CounterBefore(script, i, floatOf))
      invariant out == Outputs(conn, script, i, floatOf)
    {
      var over, attemptOut, slept := RunAttempt(conn, script[i], backoff, floatOf, CounterBefore(script, i, floatOf));
      out := out.Then(attemptOut);
      if over {
        WaitsMean(backoff.min, backoff.max, script, waits, floatOf);
        return;
      }
      waits := waits + [slept];
      i := i + 1;
    }
    WaitsMean(backoff.min, backoff.max, script, waits, floatOf);
  }

  /** The whole task. */
  method RunConnection(conn: string, min: nat, max: nat, script: seq<Attempt>, floatOf: FloatOf)
    returns (waits: seq<nat>, out: Output)
    requires ScriptOk(script)
    ensures Survives(script, |waits|, floatOf) && SleptAsCounted(min, max, script, waits, floatOf)
    ensures WaitsSinceRead(min, max, script, waits)
    ensures out == Outputs(conn, script, Begun(|waits|, script), floatOf)
  {
    var backoff := new Backoff(min, max);
    waits, out := Reconnect(conn, backoff, script, floatOf);
  }
}
