/** What the status state says about the past: where `since` and `reason` come from. */
module StatusHistory {
  import opened Types
  import opened Status

  // ---------------------------------------------------------------- `since`

  function HealthOf(conn: ConnectionStatus, id: string): Health {
    var i := FindDevice(conn.devices, id);
    if i < |conn.devices| then conn.devices[i].health else Unknown
  }

  predicate IsProblemOf(e: StatusEvent, id: string) {
    e.DeviceProblem? && e.deviceId == id
  }

  /** Event `k` clears device `id`: its own DeviceOk, or a ConnectionUp while the connection is down. */
  predicate ClearsAt(conn: ConnectionStatus, history: History, id: string, k: nat) {
    k < |history| &&
    var e := history[k].event;
    (e.DeviceOk? && e.deviceId == id) || (e.ConnectionUp? && !ConnectionAfter(conn, history[..k]).up)
  }

  /** Every problem of the device before `n` has been cleared by an event before `n`. */
  ghost predicate AllClearedBefore(conn: ConnectionStatus, history: History, id: string, n: nat) {
    forall k :: 0 <= k < n <= |history| && IsProblemOf(history[k].event, id) ==>
      exists m :: k < m < n && ClearsAt(conn, history, id, m)
  }

  /** Event `i` is the first DeviceProblem since the device was last cleared (or ever). */
  ghost predicate IsFirstProblem(conn: ConnectionStatus, history: History, id: string, i: nat) {
    && i < |history| && IsProblemOf(history[i].event, id)
    && AllClearedBefore(conn, history, id, i)
    && forall m :: i < m < |history| ==> !ClearsAt(conn, history, id, m)
  }

  ghost predicate IsLastProblem(history: History, id: string, i: nat) {
    i < |history| && IsProblemOf(history[i].event, id) && forall m :: i < m < |history| ==> !IsProblemOf(history[m].event, id)
  }

  lemma SameDevicesFindSame(a: seq<DeviceStatus>, b: seq<DeviceStatus>, id: string)
    requires |a| == |b| && forall k :: 0 <= k < |a| ==> a[k].id == b[k].id
    ensures FindDevice(a, id) == FindDevice(b, id)
  {
    var i, j := FindDevice(a, id), FindDevice(b, id);
    if i < |a| {
      assert b[i].id == id;
    }
    if j < |b| {
      assert a[j].id == id;
    }
  }

  /** How one event moves the health of one device. */
  lemma HealthStep(conn: ConnectionStatus, e: StatusEvent, now: Time, id: string)
    requires AboutConnection(e) && FindDevice(conn.devices, id) < |conn.devices|
    ensures var c := ConnectionApplied(conn, e, now);
      && FindDevice(c.devices, id) == FindDevice(conn.devices, id) < |c.devices|
      && HealthOf(c, id) ==
         (if e.ConnectionUp? && !conn.up then Unknown
          else if e.DeviceOk? && e.deviceId == id then Ok
          else if IsProblemOf(e, id) then NewHealth(HealthOf(conn, id), e, now)
          else HealthOf(conn, id))
  {
    AppliedKeepsDevices(conn, e, now);
    SameDevicesFindSame(ConnectionApplied(conn, e, now).devices, conn.devices, id);
  }

  lemma {:induction false} DeviceStays(conn: ConnectionStatus, history: History, id: string)
    requires FindDevice(conn.devices, id) < |conn.devices|
    ensures var c := ConnectionAfter(conn, history); FindDevice(c.devices, id) < |c.devices|
  {
    if history != [] {
      var last := history[|history| - 1];
      assert last in history;
      DeviceStays(conn, history[..|history| - 1], id);
      HealthStep(ConnectionAfter(conn, history[..|history| - 1]), last.event, last.at, id);
    }
  }

  lemma ClearsInPrefix(conn: ConnectionStatus, history: History, id: string, n: nat)
    requires n <= |history|
    ensures forall k :: 0 <= k < n ==> (ClearsAt(conn, history[..n], id, k) <==> ClearsAt(conn, history, id, k))
    ensures forall i :: 0 <= i <= n ==> (AllClearedBefore(conn, history[..n], id, i) <==> AllClearedBefore(conn, history, id, i))
  {
    var prefix: History := history[..n];
    forall k | 0 <= k < n ensures ClearsAt(conn, prefix, id, k) <==> ClearsAt(conn, history, id, k) {
      assert prefix[..k] == history[..k];
    }
  }

  /**
   The meaning of `since`, over every history of a connection that starts with the device not
   in trouble: a device shows a problem iff some problem of it is not yet cleared, and then
   `since` is the time of the first problem after the last clearing event.
   */
  lemma {:induction false} SinceIsFirstProblem(conn: ConnectionStatus, history: History, id: string) returns (i: nat)
    requires FindDevice(conn.devices, id) < |conn.devices| && !HealthOf(conn, id).Problem?
    ensures var h := HealthOf(ConnectionAfter(conn, history), id);
      if AllClearedBefore(conn, history, id, |history|) then !h.Problem?
      else h.Problem? && IsFirstProblem(conn, history, id, i) && h.since == history[i].at
    decreases |history|
  {
    hide ConnectionApplied, HealthOf, FindDevice;
    i := 0;
    if history != [] {
      var n := |history| - 1;
      var init: History, last := history[..n], history[n];
      assert last in history;
      i := SinceIsFirstProblem(conn, init, id);
      ClearsInPrefix(conn, history, id, n);
      var before := ConnectionAfter(conn, init);
      DeviceStays(conn, init, id);
      HealthStep(before, last.event, last.at, id);
      if ClearsAt(conn, history, id, n) {
        assert AllClearedBefore(conn, history, id, |history|);
      } else if AllClearedBefore(conn, init, id, n) {
        if IsProblemOf(last.event, id) {
          i := n;
          assert !AllClearedBefore(conn, history, id, |history|);
        } else {
          assert AllClearedBefore(conn, history, id, |history|);
        }
      } else {
        assert IsFirstProblem(conn, history, id, i);
        assert !AllClearedBefore(conn, history, id, |history|);
      }
    }
  }

  /** There is only one such event, and `reason` is that of the latest problem. */
  lemma FirstProblemIsUnique(conn: ConnectionStatus, history: History, id: string, i: nat, j: nat)
    requires IsFirstProblem(conn, history, id, i) && IsFirstProblem(conn, history, id, j)
    ensures i == j
  {
  }

  lemma {:induction false} ReasonIsLatest(conn: ConnectionStatus, history: History, id: string)
    requires FindDevice(conn.devices, id) < |conn.devices| && !HealthOf(conn, id).Problem?
    ensures var h := HealthOf(ConnectionAfter(conn, history), id);
      h.Problem? ==> exists i: nat :: IsLastProblem(history, id, i) && history[i].event.reason == h.reason
    decreases |history|
  {
    if history != [] {
      var n := |history| - 1;
      var init: History, last := history[..n], history[n];
      assert last in history;
      ReasonIsLatest(conn, init, id);
      DeviceStays(conn, init, id);
      HealthStep(ConnectionAfter(conn, init), last.event, last.at, id);
      if HealthOf(ConnectionAfter(conn, history), id).Problem? {
        if IsProblemOf(last.event, id) {
          assert IsLastProblem(history, id, n);
        } else {
          var i: nat :| IsLastProblem(init, id, i) && init[i].event.reason == HealthOf(ConnectionAfter(conn, init), id).reason;
          assert IsLastProblem(history, id, i);
        }
      }
    }
  }

  /** The same about the whole state, whatever events of other connections and of MQTT are interleaved. */
  lemma ShownSince(s: State, history: seq<Stamped>, connectionId: string, deviceId: string) returns (i: nat)
    requires FindConnection(s.connections, connectionId) < |s.connections|
    requires var conn := s.connections[FindConnection(s.connections, connectionId)];
      FindDevice(conn.devices, deviceId) < |conn.devices| && !HealthOf(conn, deviceId).Problem?
    ensures |After(s, history).connections| == |s.connections|
    ensures var c := FindConnection(s.connections, connectionId);
      var named: History := Of(history, connectionId);
      var h := HealthOf(After(s, history).connections[c], deviceId);
      if AllClearedBefore(s.connections[c], named, deviceId, |named|) then !h.Problem?
      else
        && h.Problem? && IsFirstProblem(s.connections[c], named, deviceId, i) && h.since == named[i].at
        && exists j: nat :: IsLastProblem(named, deviceId, j) && named[j].event.reason == h.reason
  {
    hide IsFirstProblem, AllClearedBefore, HealthOf, After, ConnectionAfter, Of;
    var conn := s.connections[FindConnection(s.connections, connectionId)];
    ConnectionsAreIndependent(s, history, connectionId);
    i := SinceIsFirstProblem(conn, Of(history, connectionId), deviceId);
    ReasonIsLatest(conn, Of(history, connectionId), deviceId);
  }

  // ---------------------------------------------------------------- up or down

  /** Events that say whether the connection is up: its own, and results of a device it has. */
  predicate TellsUp(conn: ConnectionStatus, e: StatusEvent) {
    e.ConnectionUp? || e.ConnectionDown? || ((e.DeviceOk? || e.DeviceProblem?) && HasDevice(conn, e.deviceId))
  }

  predicate HasDevice(conn: ConnectionStatus, id: string) {
    exists k :: 0 <= k < |conn.devices| && conn.devices[k].id == id
  }

  ghost predicate IsLastTelling(conn: ConnectionStatus, history: History, i: nat) {
    i < |history| && TellsUp(conn, history[i].event) && forall m :: i < m < |history| ==> !TellsUp(conn, history[m].event)
  }

  ghost predicate NothingTells(conn: ConnectionStatus, history: History) {
    forall m :: 0 <= m < |history| ==> !TellsUp(conn, history[m].event)
  }

  lemma UpStep(conn: ConnectionStatus, e: StatusEvent, now: Time)
    requires AboutConnection(e)
    ensures var c := ConnectionApplied(conn, e, now);
      c.up == if TellsUp(conn, e) then !e.ConnectionDown? else conn.up
    ensures forall id :: HasDevice(ConnectionApplied(conn, e, now), id) == HasDevice(conn, id)
  {
    var c := ConnectionApplied(conn, e, now);
    AppliedKeepsDevices(conn, e, now);
    forall id ensures HasDevice(c, id) == HasDevice(conn, id) {
      if k :| 0 <= k < |conn.devices| && conn.devices[k].id == id {
        assert c.devices[k].id == id;
      }
      if k :| 0 <= k < |c.devices| && c.devices[k].id == id {
        assert conn.devices[k].id == id;
      }
    }
    if e.DeviceOk? || e.DeviceProblem? {
      var i := FindDevice(conn.devices, e.deviceId);
      assert HasDevice(conn, e.deviceId) <==> i < |conn.devices|;
    }
  }

  /** Over every history a connection is shown up unless the latest event that says so is a ConnectionDown. */
  lemma {:induction false} UpFollowsLatest(conn: ConnectionStatus, history: History) returns (i: nat)
    ensures var c := ConnectionAfter(conn, history);
      if NothingTells(conn, history) then c.up == conn.up
      else IsLastTelling(conn, history, i) && c.up == !history[i].event.ConnectionDown?
    ensures forall id :: HasDevice(ConnectionAfter(conn, history), id) == HasDevice(conn, id)
    decreases |history|
  {
    hide ConnectionApplied, HasDevice;
    i := 0;
    if history != [] {
      var n := |history| - 1;
      var init: History, last := history[..n], history[n];
      assert last in history;
      i := UpFollowsLatest(conn, init);
      UpStep(ConnectionAfter(conn, init), last.event, last.at);
      if TellsUp(conn, last.event) {
        i := n;
        assert !NothingTells(conn, history);
      } else if NothingTells(conn, init) {
        assert NothingTells(conn, history);
      } else {
        assert IsLastTelling(conn, history, i);
      }
    }
  }

  lemma NoSuchDevice(conn: ConnectionStatus, id: string)
    requires !HasDevice(conn, id)
    ensures FindDevice(conn.devices, id) == |conn.devices|
  {
  }

  /** Events with an id the state does not have change nothing. */
  lemma UnknownIdsIgnored(s: State, e: StatusEvent, now: Time)
    requires AboutConnection(e)
    requires forall k :: 0 <= k < |s.connections| && s.connections[k].id == e.connectionId ==>
               (e.DeviceOk? || e.DeviceProblem?) && !HasDevice(s.connections[k], e.deviceId)
    ensures Applied(s, e, now) == s
  {
    var i := FindConnection(s.connections, e.connectionId);
    if i < |s.connections| {
      var conn := s.connections[i];
      NoSuchDevice(conn, e.deviceId);
      assert s.connections[i := conn] == s.connections;
    }
  }

  // ---------------------------------------------------------------- what the rollup counts

  function OkAt(devices: seq<DeviceStatus>): set<int> {
    set i | 0 <= i < |devices| && devices[i].health.Ok?
  }

  /** The ok count is the number of devices whose health is Ok. */
  lemma {:induction false} CountIsNumberOk(devices: seq<DeviceStatus>)
    ensures CountOk(devices) == |OkAt(devices)|
  {
    if devices != [] {
      var n := |devices| - 1;
      CountIsNumberOk(devices[..n]);
      assert OkAt(devices) == OkAt(devices[..n]) + if devices[n].health.Ok? then {n} else {};
    } else {
      assert OkAt(devices) == {};
    }
  }

  /** How many of the first `n` devices have a problem. */
  function ProblemsBefore(devices: seq<DeviceStatus>, n: nat): nat
    requires n <= |devices|
  {
    if n == 0 then 0 else ProblemsBefore(devices, n - 1) + if devices[n - 1].health.Problem? then 1 else 0
  }

  /** The problem list holds exactly the devices with a problem, in config order, each with its own reason and time. */
  lemma {:induction false} ProblemsAreListed(devices: seq<DeviceStatus>, n: nat)
    requires n <= |devices|
    ensures |Problems(devices[..n])| == ProblemsBefore(devices, n)
    ensures forall k :: 0 <= k < n && devices[k].health.Problem? ==>
              && ProblemsBefore(devices, k) < |Problems(devices[..n])|
              && Problems(devices[..n])[ProblemsBefore(devices, k)]
                 == ProblemView(devices[k].id, devices[k].health.reason, devices[k].health.since)
  {
    if n > 0 {
      ProblemsAreListed(devices, n - 1);
      assert devices[..n][..n - 1] == devices[..n - 1];
    }
  }
}
