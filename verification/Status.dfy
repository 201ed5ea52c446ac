/** The state behind the status file (src/status.rs): `apply`, and what it means over event histories. */
module Status {
  import opened Types

  /** UTC, in nanoseconds. */
  type Time = int

  datatype Health = Unknown | Ok | Problem(reason: string, since: Time)

  datatype DeviceStatus = DeviceStatus(id: string, health: Health)

  datatype ConnectionStatus = ConnectionStatus(id: string, up: bool, devices: seq<DeviceStatus>)

  datatype State = State(mqttConnected: bool, connections: seq<ConnectionStatus>)

  // ---------------------------------------------------------------- what one event does

  /** The first connection with this id; past the end if there is none. */
  function FindConnection(conns: seq<ConnectionStatus>, id: string): (i: nat)
    ensures i <= |conns|
    ensures i < |conns| ==> conns[i].id == id
    ensures forall k :: 0 <= k < i ==> conns[k].id != id
  {
    if conns == [] || conns[0].id == id then 0
    else
      var rest := FindConnection(conns[1..], id);
      assert forall k :: 0 < k < |conns| ==> conns[k] == conns[1..][k - 1];
      1 + rest
  }

  function FindDevice(devices: seq<DeviceStatus>, id: string): (i: nat)
    ensures i <= |devices|
    ensures i < |devices| ==> devices[i].id == id
    ensures forall k :: 0 <= k < i ==> devices[k].id != id
  {
    if devices == [] || devices[0].id == id then 0
    else
      var rest := FindDevice(devices[1..], id);
      assert forall k :: 0 < k < |devices| ==> devices[k] == devices[1..][k - 1];
      1 + rest
  }

  function AllUnknown(devices: seq<DeviceStatus>): seq<DeviceStatus> {
    seq(|devices|, i requires 0 <= i < |devices| => devices[i].(health := Unknown))
  }

  /** A device in trouble keeps its `since` until it recovers; only its reason is renewed. */
  function NewHealth(was: Health, e: StatusEvent, now: Time): Health
    requires e.DeviceOk? || e.DeviceProblem?
  {
    if e.DeviceOk? then Ok else Problem(e.reason, if was.Problem? then was.since else now)
  }

  predicate AboutConnection(e: StatusEvent) {
    !e.MqttConnected? && !e.MqttDisconnected?
  }

  function ConnectionApplied(conn: ConnectionStatus, e: StatusEvent, now: Time): ConnectionStatus
    requires AboutConnection(e)
  {
    if e.ConnectionUp? then
      if conn.up then conn else conn.(up := true, devices := AllUnknown(conn.devices))
    else if e.ConnectionDown? then conn.(up := false)
    else
      var i := FindDevice(conn.devices, e.deviceId);
      if i == |conn.devices| then conn
      else conn.(up := true, devices := conn.devices[i := conn.devices[i].(health := NewHealth(conn.devices[i].health, e, now))])
  }

  function Applied(s: State, e: StatusEvent, now: Time): State {
    if e.MqttConnected? then s.(mqttConnected := true)
    else if e.MqttDisconnected? then s.(mqttConnected := false)
    else
      var i := FindConnection(s.connections, e.connectionId);
      if i == |s.connections| then s
      else s.(connections := s.connections[i := ConnectionApplied(s.connections[i], e, now)])
  }

  // ---------------------------------------------------------------- what the file shows

  datatype ProblemView = ProblemView(device: string, reason: string, since: Time)

  datatype ConnectionView =
    | DownView(id: string)
    | UpView(id: string, ok: nat, total: nat, problems: seq<ProblemView>)

  datatype View = View(mqttConnected: bool, connections: seq<ConnectionView>)

  function CountOk(devices: seq<DeviceStatus>): nat {
    if devices == [] then 0
    else CountOk(devices[..|devices| - 1]) + if devices[|devices| - 1].health.Ok? then 1 else 0
  }

  function Shown(d: DeviceStatus): seq<ProblemView> {
    if d.health.Problem? then [ProblemView(d.id, d.health.reason, d.health.since)] else []
  }

  function Problems(devices: seq<DeviceStatus>): seq<ProblemView> {
    if devices == [] then [] else Problems(devices[..|devices| - 1]) + Shown(devices[|devices| - 1])
  }

  function ConnectionViewOf(conn: ConnectionStatus): ConnectionView {
    if conn.up then UpView(conn.id, CountOk(conn.devices), |conn.devices|, Problems(conn.devices)) else DownView(conn.id)
  }

  function ViewOf(s: State): View {
    View(s.mqttConnected, seq(|s.connections|, i requires 0 <= i < |s.connections| => ConnectionViewOf(s.connections[i])))
  }

  // ---------------------------------------------------------------- the state as the writer task updates it

  class StatusState {
    var mqttConnected: bool
    var connections: seq<ConnectionStatus>

    function Snapshot(): State
      reads this
    {
      State(mqttConnected, connections)
    }

    constructor (conns: seq<(string, seq<string>)>)
      ensures !mqttConnected && |connections| == |conns|
      ensures forall i :: 0 <= i < |conns| ==> connections[i].id == conns[i].0 && !connections[i].up
                                               && |connections[i].devices| == |conns[i].1|
      ensures forall i, j :: 0 <= i < |conns| && 0 <= j < |conns[i].1| ==>
                               connections[i].devices[j] == DeviceStatus(conns[i].1[j], Unknown)
    {
      mqttConnected := false;
      connections := seq(|conns|, i requires 0 <= i < |conns| =>
        ConnectionStatus(conns[i].0, false, seq(|conns[i].1|, j requires 0 <= j < |conns[i].1| => DeviceStatus(conns[i].1[j], Unknown))));
    }

    method Connection(id: string) returns (i: nat)
      ensures i == FindConnection(connections, id)
    {
      i := 0;
      while i < |connections| && connections[i].id != id
        invariant i <= |connections|
        invariant forall k :: 0 <= k < i ==> connections[k].id != id
      {
        i := i + 1;
      }
    }

    method SetHealth(connectionId: string, deviceId: string, health: Health -> Health) returns (changed: bool)
      modifies this`connections
      ensures var c := FindConnection(old(connections), connectionId);
        if c == |old(connections)| then !changed && connections == old(connections)
        else
          var conn := old(connections)[c];
          var d := FindDevice(conn.devices, deviceId);
          if d == |conn.devices| then !changed && connections == old(connections)
          else
            var h := health(conn.devices[d].health);
            && connections == old(connections)[c := conn.(up := true, devices := conn.devices[d := conn.devices[d].(health := h)])]
            && (changed <==> !conn.up || h != conn.devices[d].health)
    {
      var c := Connection(connectionId);
      if c == |connections| {
        return false;
      }
      var conn := connections[c];
      var d := 0;
      while d < |conn.devices| && conn.devices[d].id != deviceId
        invariant d <= |conn.devices|
        invariant forall k :: 0 <= k < d ==> conn.devices[k].id != deviceId
      {
        d := d + 1;
      }
      if d == |conn.devices| {
        return false;
      }
      var h := health(conn.devices[d].health);
      changed := !conn.up || conn.devices[d].health != h;
      connections := connections[c := conn.(up := true, devices := conn.devices[d := conn.devices[d].(health := h)])];
    }

    method ResetDevices(c: nat)
      requires c < |connections|
      modifies this`connections
      ensures connections == old(connections)[c := old(connections)[c].(devices := AllUnknown(old(connections)[c].devices))]
    {
      var devices := connections[c].devices;
      for i := 0 to |devices|
        invariant |devices| == |old(connections)[c].devices|
        invariant forall k :: 0 <= k < |devices| ==>
                    devices[k] == if k < i then old(connections)[c].devices[k].(health := Unknown) else old(connections)[c].devices[k]
      {
        devices := devices[i := devices[i].(health := Unknown)];
      }
      assert devices == AllUnknown(old(connections)[c].devices);
      connections := connections[c := connections[c].(devices := devices)];
    }

    /** The effect of one event; `changed` tells whether the file must be rewritten. */
    method Apply(event: StatusEvent, now: Time) returns (changed: bool)
      modifies this
      ensures Snapshot() == Applied(old(Snapshot()), event, now)
      ensures changed <==> ViewOf(Snapshot()) != ViewOf(old(Snapshot()))
    {
      hide ViewOf;
      ViewChangesExactly(Snapshot(), event, now);
      match event {
        case MqttConnected =>
          changed := !mqttConnected;
          mqttConnected := true;
        case MqttDisconnected =>
          changed := mqttConnected;
          mqttConnected := false;
        case ConnectionUp(id) =>
          var c := Connection(id);
          if c == |connections| || connections[c].up {
            if c < |connections| {
              assert connections[c := connections[c]] == connections;
            }
            return false;
          }
          connections := connections[c := connections[c].(up := true)];
          ResetDevices(c);
          changed := true;
        case ConnectionDown(id) =>
          var c := Connection(id);
          if c == |connections| {
            return false;
          }
          changed := connections[c].up;
          assert !changed ==> connections[c := connections[c].(up := false)] == connections;
          connections := connections[c := connections[c].(up := false)];
        case DeviceOk(c, d) =>
          changed := SetHealth(c, d, _ => Ok);
          DeviceUpdateChanges(old(Snapshot()), event, now);
        case DeviceProblem(c, d, reason) =>
          changed := SetHealth(c, d, (h: Health) => Problem(reason, if h.Problem? then h.since else now));
          DeviceUpdateChanges(old(Snapshot()), event, now);
      }
    }
  }

  /** A device event changes the state iff it raises its connection or changes that device's health. */
  lemma DeviceUpdateChanges(s: State, e: StatusEvent, now: Time)
    requires e.DeviceOk? || e.DeviceProblem?
    ensures var c := FindConnection(s.connections, e.connectionId);
      Applied(s, e, now) != s <==>
      && c < |s.connections|
      && var conn := s.connections[c];
         var d := FindDevice(conn.devices, e.deviceId);
         d < |conn.devices| && (!conn.up || NewHealth(conn.devices[d].health, e, now) != conn.devices[d].health)
  {
    var c := FindConnection(s.connections, e.connectionId);
    if c < |s.connections| {
      var conn := s.connections[c];
      var d := FindDevice(conn.devices, e.deviceId);
      var s' := Applied(s, e, now);
      assert s'.connections[c] == ConnectionApplied(conn, e, now);
      if d < |conn.devices| {
        var h := NewHealth(conn.devices[d].health, e, now);
        assert s'.connections[c].devices[d].health == h;
        if conn.up && h == conn.devices[d].health {
          assert conn.devices[d := conn.devices[d].(health := h)] == conn.devices;
          assert s'.connections == s.connections;
        }
      } else {
        assert s'.connections == s.connections;
      }
    }
  }

  // ---------------------------------------------------------------- state changes are visible

  lemma {:induction false} CountSplits(a: seq<DeviceStatus>, d: DeviceStatus, b: seq<DeviceStatus>)
    ensures CountOk(a + [d] + b) == CountOk(a) + (if d.health.Ok? then 1 else 0) + CountOk(b)
  {
    var all := a + [d] + b;
    if b == [] {
      assert all[..|all| - 1] == a;
    } else {
      CountSplits(a, d, b[..|b| - 1]);
      assert all[..|all| - 1] == a + [d] + b[..|b| - 1];
    }
  }

  lemma {:induction false} ProblemsSplit(a: seq<DeviceStatus>, d: DeviceStatus, b: seq<DeviceStatus>)
    ensures Problems(a + [d] + b) == Problems(a) + Shown(d) + Problems(b)
  {
    hide Shown;
    var all := a + [d] + b;
    if b == [] {
      assert all[..|all| - 1] == a;
    } else {
      var init, last := b[..|b| - 1], b[|b| - 1];
      ProblemsSplit(a, d, init);
      assert all[..|all| - 1] == a + [d] + init && all[|all| - 1] == last;
      assert Problems(all) == (Problems(a) + Shown(d) + Problems(init)) + Shown(last);
    }
  }

  /** Giving one device another health, other than Unknown, changes the ok count or the problem list. */
  lemma HealthChangeShows(devices: seq<DeviceStatus>, i: nat, h: Health)
    requires i < |devices| && h != devices[i].health && !h.Unknown?
    ensures var devices' := devices[i := devices[i].(health := h)];
      CountOk(devices') != CountOk(devices) || Problems(devices') != Problems(devices)
  {
    var a, d, b := devices[..i], devices[i], devices[i + 1..];
    var d' := d.(health := h);
    assert devices == a + [d] + b && devices[i := d'] == a + [d'] + b;
    CountSplits(a, d, b);
    CountSplits(a, d', b);
    ProblemsSplit(a, d, b);
    ProblemsSplit(a, d', b);
    var p, q := Problems(a) + Shown(d) + Problems(b), Problems(a) + Shown(d') + Problems(b);
    if d.health.Problem? && h.Problem? {
      assert p[|Problems(a)|] == Shown(d)[0] && q[|Problems(a)|] == Shown(d')[0];
    } else if d.health.Problem? || h.Problem? {
      assert |p| != |q|;
    }
  }

  lemma ConnectionChangeShows(conn: ConnectionStatus, e: StatusEvent, now: Time)
    requires AboutConnection(e) && ConnectionApplied(conn, e, now) != conn
    ensures ConnectionViewOf(ConnectionApplied(conn, e, now)) != ConnectionViewOf(conn)
  {
    if (e.DeviceOk? || e.DeviceProblem?) && conn.up {
      var i := FindDevice(conn.devices, e.deviceId);
      var h := NewHealth(conn.devices[i].health, e, now);
      assert conn.devices[i := conn.devices[i]] == conn.devices;
      HealthChangeShows(conn.devices, i, h);
    }
  }

  /** An event changes the state exactly when it changes what the file shows. */
  lemma ViewChangesExactly(s: State, e: StatusEvent, now: Time)
    ensures Applied(s, e, now) == s <==> ViewOf(Applied(s, e, now)) == ViewOf(s)
  {
    var s' := Applied(s, e, now);
    if s' != s && AboutConnection(e) {
      var i := FindConnection(s.connections, e.connectionId);
      assert s'.connections[i] == ConnectionApplied(s.connections[i], e, now);
      assert s.connections[i := s.connections[i]] == s.connections;
      ConnectionChangeShows(s.connections[i], e, now);
      assert ViewOf(s').connections[i] != ViewOf(s).connections[i];
    }
  }

  // ---------------------------------------------------------------- histories

  datatype Stamped = Stamped(event: StatusEvent, at: Time)

  function After(s: State, history: seq<Stamped>): State {
    if history == [] then s
    else
      var last := history[|history| - 1];
      Applied(After(s, history[..|history| - 1]), last.event, last.at)
  }

  /** A history of connection and device events only. */
  type History = h: seq<Stamped> | forall e :: e in h ==> AboutConnection(e.event) witness []

  /** The same fold on one connection alone. */
  function ConnectionAfter(conn: ConnectionStatus, history: History): ConnectionStatus {
    if history == [] then conn
    else
      var last := history[|history| - 1];
      assert last in history;
      ConnectionApplied(ConnectionAfter(conn, history[..|history| - 1]), last.event, last.at)
  }

  /** The events of a history that name one connection. */
  function Of(history: seq<Stamped>, id: string): (r: seq<Stamped>)
    ensures forall h :: h in r ==> AboutConnection(h.event) && h.event.connectionId == id
  {
    if history == [] then []
    else
      var last := history[|history| - 1];
      Of(history[..|history| - 1], id) + if AboutConnection(last.event) && last.event.connectionId == id then [last] else []
  }

  lemma AppliedKeepsDevices(conn: ConnectionStatus, e: StatusEvent, now: Time)
    requires AboutConnection(e)
    ensures var c := ConnectionApplied(conn, e, now);
      |c.devices| == |conn.devices| && forall k :: 0 <= k < |conn.devices| ==> c.devices[k].id == conn.devices[k].id
  {
  }

  predicate SameIds(a: seq<ConnectionStatus>, b: seq<ConnectionStatus>) {
    |a| == |b| && forall k :: 0 <= k < |a| ==> a[k].id == b[k].id
  }

  lemma SameIdsFindSame(a: seq<ConnectionStatus>, b: seq<ConnectionStatus>, id: string)
    requires SameIds(a, b)
    ensures FindConnection(a, id) == FindConnection(b, id)
  {
    var i, j := FindConnection(a, id), FindConnection(b, id);
    if i < |a| {
      assert b[i].id == id;
    }
    if j < |b| {
      assert a[j].id == id;
    }
  }

  /** Interleaving does not matter: a connection's state depends only on the events that name it, in their order. */
  lemma {:induction false} ConnectionsAreIndependent(s: State, history: seq<Stamped>, id: string)
    ensures SameIds(After(s, history).connections, s.connections)
    ensures var i := FindConnection(s.connections, id);
      i < |s.connections| ==> After(s, history).connections[i] == ConnectionAfter(s.connections[i], Of(history, id))
  {
    if history != [] {
      var init, last := history[..|history| - 1], history[|history| - 1];
      ConnectionsAreIndependent(s, init, id);
      var before := After(s, init);
      SameIdsFindSame(before.connections, s.connections, id);
      AppliedToOne(before, last, id);
      hide ConnectionApplied, Applied, FindConnection;
      assert (Of(init, id) + [last])[..|Of(init, id)|] == Of(init, id);
      assert Of(init, id) + [] == Of(init, id);
    }
  }

  /** An event changes the connection it names and no other; ids never change. */
  lemma AppliedToOne(s: State, e: Stamped, id: string)
    ensures var s' := Applied(s, e.event, e.at);
      var i := FindConnection(s.connections, id);
      && SameIds(s'.connections, s.connections)
      && (i < |s.connections| && AboutConnection(e.event) && e.event.connectionId == id ==>
            s'.connections[i] == ConnectionApplied(s.connections[i], e.event, e.at))
      && (i < |s.connections| && !(AboutConnection(e.event) && e.event.connectionId == id) ==>
            s'.connections[i] == s.connections[i])
  {
  }

  /** Events of different connections commute. */
  lemma DifferentConnectionsCommute(s: State, a: Stamped, b: Stamped)
    requires AboutConnection(a.event) && AboutConnection(b.event) && a.event.connectionId != b.event.connectionId
    ensures Applied(Applied(s, a.event, a.at), b.event, b.at) == Applied(Applied(s, b.event, b.at), a.event, a.at)
  {
    var x, y := a.event.connectionId, b.event.connectionId;
    var sa, sb := Applied(s, a.event, a.at), Applied(s, b.event, b.at);
    AppliedKeepsOthers(s, a, y);
    AppliedKeepsOthers(s, b, x);
    var i, j := FindConnection(s.connections, x), FindConnection(s.connections, y);
    if i < |s.connections| && j < |s.connections| {
      var ci, cj := ConnectionApplied(s.connections[i], a.event, a.at), ConnectionApplied(s.connections[j], b.event, b.at);
      assert s.connections[i := ci][j := cj] == s.connections[j := cj][i := ci];
    }
  }

  lemma AppliedKeepsOthers(s: State, a: Stamped, id: string)
    requires AboutConnection(a.event) && a.event.connectionId != id
    ensures var s' := Applied(s, a.event, a.at);
      var i := FindConnection(s.connections, id);
      FindConnection(s'.connections, id) == i && (i < |s.connections| ==> s'.connections[i] == s.connections[i])
  {
    SameIdsFindSame(Applied(s, a.event, a.at).connections, s.connections, id);
  }
}
