/** One full tick of reports corrects a connection, whatever events were lost before (src/status.rs:20-22). */
module SelfCorrection {
  import opened Types
  import opened Status
  import opened StatusHistory
  import Poller

  /** The state shows for a device what its latest report said. */
  predicate Shows(h: Health, report: StatusEvent) {
    match report
    case DeviceOk(_, _) => h.Ok?
    case DeviceProblem(_, _, reason) => h.Problem? && h.reason == reason
    case _ => false
  }

  function Stamp(events: seq<StatusEvent>, at: seq<Time>): seq<Stamped>
    requires |events| == |at|
  {
    seq(|events|, i requires 0 <= i < |events| => Stamped(events[i], at[i]))
  }

  ghost predicate SameDevices(conn: ConnectionStatus, tick: seq<Poller.Polled>) {
    && |conn.devices| == |tick|
    && (forall d :: 0 <= d < |tick| ==> conn.devices[d].id == tick[d].device.id)
  }

  /** Updates by id reach the first device that has it. */
  predicate Reachable(devices: seq<DeviceStatus>, d: nat) {
    d < |devices| && FindDevice(devices, devices[d].id) == d
  }

  /** The last of the first `n` devices of the tick with this id, or -1. */
  function LastReportOf(tick: seq<Poller.Polled>, n: nat, id: string): (e: int)
    requires n <= |tick|
    ensures -1 <= e < n && (e >= 0 ==> tick[e].device.id == id)
    ensures forall k :: e < k < n ==> tick[k].device.id != id
  {
    if n == 0 then -1 else if tick[n - 1].device.id == id then n - 1 else LastReportOf(tick, n - 1, id)
  }

  /** After `n` reports every reachable device shows the last of them that carries its id. */
  ghost predicate CorrectUpTo(conn: ConnectionStatus, tick: seq<Poller.Polled>, events: seq<StatusEvent>, n: nat) {
    && n <= |tick| == |events|
    && (n > 0 ==> conn.up)
    && forall d: nat :: Reachable(conn.devices, d) ==>
         var e := LastReportOf(tick, n, conn.devices[d].id);
         e >= 0 ==> Shows(conn.devices[d].health, events[e])
  }

  /** A device's report raises the connection and updates the first device with its id, and no other. */
  lemma ReportApplied(conn: ConnectionStatus, e: StatusEvent, at: Time)
    requires (e.DeviceOk? || e.DeviceProblem?) && FindDevice(conn.devices, e.deviceId) < |conn.devices|
    ensures var c := ConnectionApplied(conn, e, at);
      && c.up && |c.devices| == |conn.devices|
      && (forall d :: 0 <= d < |c.devices| ==> c.devices[d].id == conn.devices[d].id)
      && Shows(c.devices[FindDevice(conn.devices, e.deviceId)].health, e)
      && forall d :: 0 <= d < |c.devices| && d != FindDevice(conn.devices, e.deviceId) ==> c.devices[d] == conn.devices[d]
  {
  }

  lemma ReportStep(conn: ConnectionStatus, tick: seq<Poller.Polled>, events: seq<StatusEvent>, n: nat, at: Time)
    requires SameDevices(conn, tick) && n < |tick| && CorrectUpTo(conn, tick, events, n)
    requires (events[n].DeviceOk? || events[n].DeviceProblem?) && events[n].deviceId == tick[n].device.id
    ensures var c := ConnectionApplied(conn, events[n], at); SameDevices(c, tick) && CorrectUpTo(c, tick, events, n + 1)
  {
    hide ConnectionApplied, Shows, FindDevice;
    var id := tick[n].device.id;
    var c := ConnectionApplied(conn, events[n], at);
    var i := FindDevice(conn.devices, id);
    assert conn.devices[n].id == id && i <= n;
    ReportApplied(conn, events[n], at);
    forall d: nat | Reachable(c.devices, d)
      ensures var e := LastReportOf(tick, n + 1, c.devices[d].id); e >= 0 ==> Shows(c.devices[d].health, events[e])
    {
      SameDevicesFindSame(c.devices, conn.devices, c.devices[d].id);
      if c.devices[d].id == id {
        assert d == i;
      } else {
        assert Reachable(conn.devices, d);
      }
    }
  }

  ghost predicate ReportsOf(events: seq<StatusEvent>, tick: seq<Poller.Polled>) {
    && |events| == |tick|
    && forall d :: 0 <= d < |events| ==>
         (events[d].DeviceOk? || events[d].DeviceProblem?) && events[d].deviceId == tick[d].device.id
  }

  lemma ReportsAreHistory(events: seq<StatusEvent>, tick: seq<Poller.Polled>, at: seq<Time>)
    requires ReportsOf(events, tick) && |at| == |events|
    ensures forall e :: e in Stamp(events, at) ==> AboutConnection(e.event)
  {
  }

  lemma {:induction false} ReportsCorrect(conn: ConnectionStatus, tick: seq<Poller.Polled>, events: seq<StatusEvent>,
                                          at: seq<Time>, reports: History, n: nat)
    requires SameDevices(conn, tick) && ReportsOf(events, tick) && |at| == |events| && reports == Stamp(events, at)
    requires n <= |events|
    ensures var c := ConnectionAfter(conn, reports[..n]); SameDevices(c, tick) && CorrectUpTo(c, tick, events, n)
  {
    hide ConnectionApplied, SameDevices;
    if n == 0 {
      assert reports[..0] == [];
    } else {
      hide CorrectUpTo;
      ReportsCorrect(conn, tick, events, at, reports, n - 1);
      ReportStep(ConnectionAfter(conn, reports[..n - 1]), tick, events, n - 1, at[n - 1]);
      OneMoreReport(conn, reports, n);
      assert reports[n - 1] == Stamped(events[n - 1], at[n - 1]);
    }
  }

  lemma OneMoreReport(conn: ConnectionStatus, reports: History, n: nat)
    requires 0 < n <= |reports|
    ensures AboutConnection(reports[n - 1].event)
    ensures ConnectionAfter(conn, reports[..n])
         == ConnectionApplied(ConnectionAfter(conn, reports[..n - 1]), reports[n - 1].event, reports[n - 1].at)
  {
    hide ConnectionApplied;
    assert reports[..n][..n - 1] == reports[..n - 1];
    assert reports[n - 1] in reports;
  }

  lemma {:induction false} FoldConcat(conn: ConnectionStatus, a: History, b: History)
    ensures ConnectionAfter(conn, a + b) == ConnectionAfter(ConnectionAfter(conn, a), b)
    decreases |b|
  {
    if b == [] {
      assert a + b == a;
    } else {
      FoldConcat(conn, a, b[..|b| - 1]);
      assert (a + b)[..|a + b| - 1] == a + b[..|b| - 1];
    }
  }

  /** A state that is no longer the initial one: connections and devices stay those of the config. */
  lemma {:induction false} DevicesStay(conn: ConnectionStatus, history: History, tick: seq<Poller.Polled>)
    requires SameDevices(conn, tick)
    ensures SameDevices(ConnectionAfter(conn, history), tick)
    decreases |history|
  {
    if history != [] {
      var last := history[|history| - 1];
      assert last in history;
      DevicesStay(conn, history[..|history| - 1], tick);
      AppliedKeepsDevices(ConnectionAfter(conn, history[..|history| - 1]), last.event, last.at);
    }
  }

  /** The events of the connection in `history` end with the reports of a tick that was not lost. */
  ghost predicate EndsWithTick(s: State, history: seq<Stamped>, conn: string, tick: seq<Poller.Polled>, before: History, at: seq<Time>) {
    && FindConnection(s.connections, conn) < |s.connections|
    && SameDevices(s.connections[FindConnection(s.connections, conn)], tick)
    && !Poller.LosesConnection(tick) && |at| == |Poller.ReportedBy(conn, tick)|
    && Of(history, conn) == before + Stamp(Poller.ReportedBy(conn, tick), at)
  }

  /**
   Self-correction: from any state `s`, through any history whose events of this connection end
   with the reports of one completed tick, and whatever events of other connections or of MQTT are
   interleaved, the connection is up and every device that updates can reach shows what that tick
   last reported under its id. A tick without devices reports nothing, so it corrects nothing.
   */
  lemma OneTickCorrects(s: State, history: seq<Stamped>, conn: string, tick: seq<Poller.Polled>, before: History, at: seq<Time>)
    requires EndsWithTick(s, history, conn, tick, before, at)
    ensures |After(s, history).connections| == |s.connections|
    ensures var start := s.connections[FindConnection(s.connections, conn)];
      var c := After(s, history).connections[FindConnection(s.connections, conn)];
      && SameDevices(c, tick)
      && (tick != [] ==> c.up) && (tick == [] ==> c == ConnectionAfter(start, before))
      && forall d: nat :: Reachable(c.devices, d) ==>
           var e := LastReportOf(tick, |tick|, tick[d].device.id);
           e >= 0 && Shows(c.devices[d].health, Poller.EventOf(conn, tick[e]))
  {
    var i := FindConnection(s.connections, conn);
    var events := Poller.ReportedBy(conn, tick);
    var reports := Stamp(events, at);
    TickReports(conn, tick);
    ReportsAreHistory(events, tick, at);
    hide Poller.LosesConnection, Poller.ReportedBy, Poller.EventOf, ReportsOf, Shows, Stamp, After, FindConnection, FindDevice;
    ConnectionsAreIndependent(s, history, conn);
    DevicesStay(s.connections[i], before, tick);
    ReportsCorrect(ConnectionAfter(s.connections[i], before), tick, events, at, reports, |events|);
    assert reports[..|events|] == reports;
    FoldConcat(s.connections[i], before, reports);
    hide ConnectionAfter, Of;
    assert tick == [] ==> reports == [] && before + reports == before;
  }

  lemma TickReports(conn: string, tick: seq<Poller.Polled>)
    requires !Poller.LosesConnection(tick)
    ensures var events := Poller.ReportedBy(conn, tick);
      ReportsOf(events, tick) && forall d :: 0 <= d < |events| ==> events[d] == Poller.EventOf(conn, tick[d])
  {
    assert Poller.Visited(tick) == tick;
    Poller.EventAt(conn, tick);
    forall d | 0 <= d < |tick|
      ensures var e := Poller.EventOf(conn, tick[d]); (e.DeviceOk? || e.DeviceProblem?) && e.deviceId == tick[d].device.id
    {
      Poller.EventsSayWhatHappened(conn, tick, d);
    }
  }

  /** Where device ids differ, every device shows exactly what the tick saw of it. */
  lemma OneTickCorrectsAll(s: State, history: seq<Stamped>, conn: string, tick: seq<Poller.Polled>, before: History, at: seq<Time>)
    requires EndsWithTick(s, history, conn, tick, before, at) && Poller.DeviceIdsDistinct(tick)
    ensures |After(s, history).connections| == |s.connections|
    ensures var c := After(s, history).connections[FindConnection(s.connections, conn)];
      && |c.devices| == |tick|
      && forall d :: 0 <= d < |tick| ==> Shows(c.devices[d].health, Poller.EventOf(conn, tick[d]))
  {
    hide After, EndsWithTick, Shows, Poller.EventOf;
    OneTickCorrects(s, history, conn, tick, before, at);
    WithinBounds(s, history, conn, tick, before, at);
    var c := After(s, history).connections[FindConnection(s.connections, conn)];
    forall d | 0 <= d < |tick| ensures Shows(c.devices[d].health, Poller.EventOf(conn, tick[d])) {
      assert Reachable(c.devices, d);
      assert LastReportOf(tick, |tick|, tick[d].device.id) == d;
    }
  }

  lemma WithinBounds(s: State, history: seq<Stamped>, conn: string, tick: seq<Poller.Polled>, before: History, at: seq<Time>)
    requires EndsWithTick(s, history, conn, tick, before, at)
    ensures FindConnection(s.connections, conn) < |s.connections|
    ensures SameDevices(s.connections[FindConnection(s.connections, conn)], tick)
  {
  }

  /** A device whose id an earlier device has is never updated: unknown at the start, it stays unknown. */
  lemma {:induction false} ShadowedStaysUnknown(conn: ConnectionStatus, history: History, d: nat)
    requires d < |conn.devices| && !Reachable(conn.devices, d) && conn.devices[d].health.Unknown?
    ensures var c := ConnectionAfter(conn, history);
      |c.devices| == |conn.devices| && !Reachable(c.devices, d) && c.devices[d].health.Unknown?
    decreases |history|
  {
    if history != [] {
      var last := history[|history| - 1];
      assert last in history;
      ShadowedStaysUnknown(conn, history[..|history| - 1], d);
      ShadowedStep(ConnectionAfter(conn, history[..|history| - 1]), last, d);
    }
  }

  lemma ShadowedStep(conn: ConnectionStatus, e: Stamped, d: nat)
    requires AboutConnection(e.event)
    requires d < |conn.devices| && !Reachable(conn.devices, d) && conn.devices[d].health.Unknown?
    ensures var c := ConnectionApplied(conn, e.event, e.at);
      |c.devices| == |conn.devices| && !Reachable(c.devices, d) && c.devices[d].health.Unknown?
  {
    var c := ConnectionApplied(conn, e.event, e.at);
    AppliedKeepsDevices(conn, e.event, e.at);
    SameDevicesFindSame(c.devices, conn.devices, conn.devices[d].id);
  }

  ghost predicate AllShown(c: ConnectionStatus, conn: string, tick: seq<Poller.Polled>) {
    |c.devices| == |tick| && forall d :: 0 <= d < |tick| ==> Shows(c.devices[d].health, Poller.EventOf(conn, tick[d]))
  }

  lemma DuplicateIsWrong(start: ConnectionStatus, history: History, conn: string, tick: seq<Poller.Polled>)
    requires SameDevices(start, tick) && !Poller.DeviceIdsDistinct(tick)
    requires forall d :: d in start.devices ==> d.health.Unknown?
    ensures !AllShown(ConnectionAfter(start, history), conn, tick)
  {
    hide ConnectionAfter;
    var a, b :| 0 <= a < b < |tick| && tick[a].device.id == tick[b].device.id;
    assert start.devices[a].id == start.devices[b].id;
    assert !Reachable(start.devices, b) && start.devices[b] in start.devices;
    ShadowedStaysUnknown(start, history, b);
  }

  /** Starting from unknown devices, a completed tick puts every device right if and only if the device ids differ. */
  lemma AllCorrectExactly(s: State, history: seq<Stamped>, conn: string, tick: seq<Poller.Polled>, before: History, at: seq<Time>)
    requires EndsWithTick(s, history, conn, tick, before, at)
    requires forall d :: d in s.connections[FindConnection(s.connections, conn)].devices ==> d.health.Unknown?
    ensures |After(s, history).connections| == |s.connections|
    ensures AllShown(After(s, history).connections[FindConnection(s.connections, conn)], conn, tick) <==> Poller.DeviceIdsDistinct(tick)
  {
    hide After, EndsWithTick, SameDevices, ConnectionAfter, Shows, Of;
    WithinBounds(s, history, conn, tick, before, at);
    ConnectionsAreIndependent(s, history, conn);
    if Poller.DeviceIdsDistinct(tick) {
      OneTickCorrectsAll(s, history, conn, tick, before, at);
    } else {
      DuplicateIsWrong(s.connections[FindConnection(s.connections, conn)], Of(history, conn), conn, tick);
    }
  }

  // ---------------------------------------------------------------- what a tick's reports do not correct

  /** A connection whose last event is ConnectionDown is shown down; every failed attempt reports that again. */
  lemma RefusalCorrects(s: State, history: seq<Stamped>, conn: string, at: Time)
    requires FindConnection(s.connections, conn) < |s.connections|
    ensures var s' := After(s, history + [Stamped(ConnectionDown(conn), at)]);
      |s'.connections| == |s.connections| && !s'.connections[FindConnection(s.connections, conn)].up
  {
    var last := Stamped(ConnectionDown(conn), at);
    assert (history + [last])[..|history|] == history;
    ConnectionsAreIndependent(s, history, conn);
    SameIdsFindSame(After(s, history).connections, s.connections, conn);
  }

  ghost predicate IsLastMqtt(history: seq<Stamped>, i: nat) {
    i < |history| && !AboutConnection(history[i].event) && forall k :: i < k < |history| ==> AboutConnection(history[k].event)
  }

  ghost predicate NoMqtt(history: seq<Stamped>) {
    forall k :: 0 <= k < |history| ==> AboutConnection(history[k].event)
  }

  /**
   The MQTT flag is what the latest MQTT event delivered says, and moves by nothing else. So a lost
   MqttConnected, reported once a connect, is not corrected before the next MQTT event; a lost
   MqttDisconnected is, by the next failed attempt.
   */
  lemma {:induction false} MqttFollowsLatest(s: State, history: seq<Stamped>) returns (i: nat)
    ensures if NoMqtt(history) then After(s, history).mqttConnected == s.mqttConnected
            else IsLastMqtt(history, i) && After(s, history).mqttConnected == history[i].event.MqttConnected?
    decreases |history|
  {
    hide ConnectionApplied, FindConnection;
    i := 0;
    if history != [] {
      var n := |history| - 1;
      var init, last := history[..n], history[n];
      i := MqttFollowsLatest(s, init);
      if !AboutConnection(last.event) {
        i := n;
        assert !NoMqtt(history);
      } else if NoMqtt(init) {
        assert NoMqtt(history);
      } else {
        assert IsLastMqtt(history, i);
      }
    }
  }
}
