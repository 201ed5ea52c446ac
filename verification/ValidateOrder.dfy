/** Which of several defects is reported (src/config/validate.rs:94-226): the first in the order of the checks. */
module ValidateOrder {
  import opened Types
  import opened Schema
  import opened Validate

  // ---------------------------------------------------------------- inside a block

  ghost predicate FirstOutside(block: BlockConfig, l: nat) {
    && l < |block.points| && block.points[l].End() > block.count
    && forall m :: 0 <= m < l ==> block.points[m].End() <= block.count
  }

  ghost predicate IsBoundsError(conn: string, device: string, block: BlockConfig, e: ValidationError) {
    exists l: nat :: FirstOutside(block, l) && e == OutsideError(conn, device, block, block.points[l])
  }

  function OutsideError(conn: string, device: string, block: BlockConfig, p: PointConfig): ValidationError {
    PointOutOfBounds(conn, device, block.start, p.name, p.offset, p.dataType.WordCount(), block.count)
  }

  /** Size first, then the first point out of bounds, and overlaps only among points that are all in bounds. */
  ghost predicate IsBlockError(conn: string, device: string, block: BlockConfig, e: ValidationError) {
    if block.count > 125 then e == BlockTooLarge(conn, device, block.start, block.count)
    else if exists l: nat :: FirstOutside(block, l) then IsBoundsError(conn, device, block, e)
    else e.OverlappingPoints? && e.connection == conn && e.device == device && BlockDefect(block, e)
  }

  lemma {:induction false} PointsFirst(conn: string, device: string, block: BlockConfig, from: nat)
    requires from <= |block.points| && forall m :: 0 <= m < from ==> block.points[m].End() <= block.count
    ensures var r := PointsError(conn, device, block, block.points[from..]);
      && (r.None? ==> forall l: nat :: !FirstOutside(block, l))
      && (r.Some? ==> (exists l: nat :: FirstOutside(block, l)) && IsBoundsError(conn, device, block, r.value))
    decreases |block.points| - from
  {
    if from < |block.points| {
      assert block.points[from..][1..] == block.points[from + 1..];
      if block.points[from].End() > block.count {
        assert FirstOutside(block, from);
      } else {
        PointsFirst(conn, device, block, from + 1);
      }
    }
  }

  lemma BlockFirst(conn: string, device: string, block: BlockConfig)
    ensures var r := BlockError(conn, device, block);
      (r.None? <==> BlockOk(block)) && (r.Some? ==> IsBlockError(conn, device, block, r.value))
  {
    hide BlockOk, BlockDefect, PointsError, AdjacentError, SortByOffset;
    BlockCheck(conn, device, block);
    PointsFirst(conn, device, block, 0);
    assert block.points[0..] == block.points;
    SortedCheckIsPairwise(conn, device, block);
  }

  // ---------------------------------------------------------------- inside a connection

  /** The first block that is not acceptable, in the order of devices and blocks. */
  ghost predicate FirstBadBlock(devices: seq<DeviceConfig>, d: nat, k: nat) {
    && d < |devices| && k < |devices[d].blocks| && !BlockOk(devices[d].blocks[k])
    && (forall m :: 0 <= m < k ==> BlockOk(devices[d].blocks[m]))
    && forall c, m :: 0 <= c < d && 0 <= m < |devices[c].blocks| ==> BlockOk(devices[c].blocks[m])
  }

  lemma {:induction false} BlocksFirst(conn: string, device: DeviceConfig, from: nat) returns (k: nat)
    requires from <= |device.blocks|
    ensures var r := BlocksError(conn, device.id, device.blocks[from..]);
      && (r.None? ==> forall m :: from <= m < |device.blocks| ==> BlockOk(device.blocks[m]))
      && (r.Some? ==> from <= k < |device.blocks| && !BlockOk(device.blocks[k]) && (forall m :: from <= m < k ==> BlockOk(device.blocks[m]))
                      && IsBlockError(conn, device.id, device.blocks[k], r.value))
    decreases |device.blocks| - from
  {
    hide BlockOk, IsBlockError, BlockError;
    k := from;
    if from < |device.blocks| {
      assert device.blocks[from..][1..] == device.blocks[from + 1..];
      BlockFirst(conn, device.id, device.blocks[from]);
      if BlockError(conn, device.id, device.blocks[from]).None? {
        k := BlocksFirst(conn, device, from + 1);
      }
    }
  }

  ghost predicate AllBlocksOk(device: DeviceConfig) {
    forall m :: 0 <= m < |device.blocks| ==> BlockOk(device.blocks[m])
  }

  lemma {:induction false} DevicesFirst(conn: string, devices: seq<DeviceConfig>, from: nat) returns (d: nat, k: nat)
    requires from <= |devices| && forall c :: 0 <= c < from ==> AllBlocksOk(devices[c])
    ensures var r := DevicesError(conn, devices[from..]);
      && (r.None? ==> DevicesOk(devices))
      && (r.Some? ==> FirstBadBlock(devices, d, k) && IsBlockError(conn, devices[d].id, devices[d].blocks[k], r.value))
    decreases |devices| - from
  {
    hide BlockOk, IsBlockError, BlocksError;
    d, k := from, 0;
    if from < |devices| {
      var device := devices[from];
      assert devices[from..][1..] == devices[from + 1..];
      k := BlocksFirst(conn, device, 0);
      assert device.blocks[0..] == device.blocks;
      if BlocksError(conn, device.id, device.blocks).None? {
        d, k := DevicesFirst(conn, devices, from + 1);
      }
    } else {
      assert devices[from..] == [];
      forall i, m | 0 <= i < |devices| && 0 <= m < |devices[i].blocks| ensures BlockOk(devices[i].blocks[m]) {
        assert AllBlocksOk(devices[i]);
      }
    }
  }

  /** The first device that repeats a unit id. */
  ghost predicate FirstRepeat(devices: seq<DeviceConfig>, m: nat) {
    && m < |devices| && UnitIdsDistinct(devices[..m])
    && exists j :: 0 <= j < m && devices[j].unitId == devices[m].unitId
  }

  lemma {:induction false} UnitsFirst(conn: string, devices: seq<DeviceConfig>, from: nat, seen: set<u8>) returns (m: nat)
    requires from <= |devices| && UnitIdsDistinct(devices[..from])
    requires forall u :: u in seen <==> exists i :: 0 <= i < from && devices[i].unitId == u
    ensures var r := UnitIdsError(conn, devices[from..], seen);
      && (r.None? ==> UnitIdsDistinct(devices))
      && (r.Some? ==> FirstRepeat(devices, m) && r.value == DuplicateUnitId(conn, devices[m].unitId))
    decreases |devices| - from
  {
    m := from;
    if from < |devices| {
      assert devices[from..][1..] == devices[from + 1..];
      if devices[from].unitId !in seen {
        assert devices[..from + 1] == devices[..from] + [devices[from]];
        m := UnitsFirst(conn, devices, from + 1, seen + {devices[from].unitId});
      }
    } else {
      assert devices[..from] == devices;
    }
  }

  /** The serial port of connection `i` is that of an earlier one. */
  ghost predicate PortTaken(conns: seq<ConnectionConfig>, i: nat) {
    i < |conns| && exists j :: 0 <= j < i && SamePort(conns[j], conns[i])
  }

  /** Within a connection: the interval, then unit ids, then data bits, stop bits and port, then blocks. */
  ghost predicate IsConnectionError(conns: seq<ConnectionConfig>, i: nat, e: ValidationError)
    requires i < |conns|
  {
    var conn := conns[i];
    if conn.pollIntervalSecs == 0 then e == ZeroInterval(PollInterval(conn.id))
    else if !UnitIdsDistinct(conn.devices) then
      exists m: nat :: FirstRepeat(conn.devices, m) && e == DuplicateUnitId(conn.id, conn.devices[m].unitId)
    else if conn.transport.Rtu? && !(5 <= conn.transport.dataBits <= 8) then
      e == UnsupportedSerialSetting(conn.id, DataBits, conn.transport.dataBits)
    else if conn.transport.Rtu? && !(1 <= conn.transport.stopBits <= 2) then
      e == UnsupportedSerialSetting(conn.id, StopBits, conn.transport.stopBits)
    else if PortTaken(conns, i) then
      exists j :: 0 <= j < i && SamePort(conns[j], conn) && e == DuplicateSerialPort(conn.transport.serialPort, conns[j].id, conn.id)
    else
      exists d: nat, k: nat :: FirstBadBlock(conn.devices, d, k) && IsBlockError(conn.id, conn.devices[d].id, conn.devices[d].blocks[k], e)
  }

  lemma ConnectionFirst(conns: seq<ConnectionConfig>, i: nat, ports: map<string, string>)
    requires i < |conns| && PortsOf(conns, i, ports)
    ensures var r := ConnectionError(conns[i], ports);
      r.Some? ==> IsConnectionError(conns, i, r.value) && (!ConnectionOk(conns[i]) || PortTaken(conns, i))
  {
    hide DevicesOk, UnitIdsDistinct, DevicesError, UnitIdsError, FirstRepeat, FirstBadBlock, IsBlockError;
    var conn := conns[i];
    UnitsStart(conn.devices);
    var m := UnitsFirst(conn.id, conn.devices, 0, {});
    UnitIdsCheck(conn, 0, {});
    var d, k := DevicesFirst(conn.id, conn.devices, 0);
    assert conn.devices[0..] == conn.devices;
    PortIsTaken(conns, i, ports);
    DefectNotOk(conn, d, k);
  }

  lemma UnitsStart(devices: seq<DeviceConfig>)
    ensures UnitIdsDistinct(devices[..0])
  {
  }

  lemma DefectNotOk(conn: ConnectionConfig, d: nat, k: nat)
    ensures FirstBadBlock(conn.devices, d, k) ==> !DevicesOk(conn.devices) && !ConnectionOk(conn)
  {
  }

  lemma PortIsTaken(conns: seq<ConnectionConfig>, i: nat, ports: map<string, string>)
    requires i < |conns| && PortsOf(conns, i, ports)
    ensures conns[i].transport.Rtu? ==>
              var port := conns[i].transport.serialPort;
              && (port in ports <==> PortTaken(conns, i))
              && (port in ports ==> exists j :: 0 <= j < i && SamePort(conns[j], conns[i]) && conns[j].id == ports[port])
    ensures PortTaken(conns, i) ==> conns[i].transport.Rtu?
  {
    if conns[i].transport.Rtu? && conns[i].transport.serialPort in ports {
      var port := conns[i].transport.serialPort;
      var j :| 0 <= j < i && conns[j].transport.Rtu? && conns[j].transport.serialPort == port && conns[j].id == ports[port];
      assert SamePort(conns[j], conns[i]);
    }
  }

  // ---------------------------------------------------------------- the whole config

  /** The first connection that is not acceptable beside those before it. */
  ghost predicate FirstBadConnection(conns: seq<ConnectionConfig>, i: nat) {
    && i < |conns| && (!ConnectionOk(conns[i]) || PortTaken(conns, i))
    && ConnectionsOk(conns, i)
  }

  lemma {:induction false} ConnectionsFirst(config: Config, env: Environment, from: nat, ports: map<string, string>) returns (i: nat)
    requires from <= |config.connections| && PortsOf(config.connections, from, ports) && ConnectionsOk(config.connections, from)
    ensures var r := ConnectionsError(config.connections[from..], ports);
      && (r.None? ==> ConnectionsOk(config.connections, |config.connections|))
      && (r.Some? ==> FirstBadConnection(config.connections, i) && IsConnectionError(config.connections, i, r.value))
    decreases |config.connections| - from
  {
    hide ConnectionError, PortsOf, PortsAfter, ConnectionsOk, ConnectionOk, IsConnectionError, Justified, PortTaken;
    var conns := config.connections;
    i := from;
    if from < |conns| {
      var conn := conns[from];
      assert conns[from..][0] == conn && conns[from..][1..] == conns[from + 1..];
      ConnectionCheck(config, env, from, ports);
      ConnectionFirst(conns, from, ports);
      if ConnectionError(conn, ports).None? {
        OneMoreConnection(conns, from, ports);
        i := ConnectionsFirst(config, env, from + 1, PortsAfter(conn, ports));
        assert ConnectionsError(conns[from..], ports) == ConnectionsError(conns[from + 1..], PortsAfter(conn, ports));
      } else {
        assert ConnectionsError(conns[from..], ports) == ConnectionError(conn, ports);
      }
    }
  }

  /** The order of all checks: gateway settings, connections, and the CA certificate last. */
  ghost predicate IsFirstDefect(config: Config, env: Environment, e: ValidationError) {
    if config.aggregationWindowSecs == 0 then e == ZeroInterval(AggregationWindow)
    else if !env.logLevelParses then e == InvalidLogLevel(config.logLevel)
    else if config.mqttQos > 2 then e == InvalidQos(config.mqttQos)
    else if exists i: nat :: FirstBadConnection(config.connections, i) then
      exists i: nat :: FirstBadConnection(config.connections, i) && IsConnectionError(config.connections, i, e)
    else env.caCert.Some? && e == CaCert(env.caCert.value)
  }

  lemma NoBadConnection(conns: seq<ConnectionConfig>, i: nat)
    requires ConnectionsOk(conns, |conns|)
    ensures !FirstBadConnection(conns, i)
  {
  }

  /** What `Validate` reports of a config with several defects is the first of them. */
  lemma FirstDefectWins(config: Config, env: Environment)
    ensures FirstError(config, env).Some? ==> IsFirstDefect(config, env, FirstError(config, env).value)
  {
    hide FirstBadConnection, IsConnectionError, ConnectionsError, ConnectionsOk;
    EmptyPorts(config.connections);
    var i := ConnectionsFirst(config, env, 0, map[]);
    assert config.connections[0..] == config.connections;
    if ConnectionsError(config.connections, map[]).None? {
      forall i: nat ensures !FirstBadConnection(config.connections, i) {
        NoBadConnection(config.connections, i);
      }
    }
  }

  lemma EmptyPorts(conns: seq<ConnectionConfig>)
    ensures PortsOf(conns, 0, map[]) && ConnectionsOk(conns, 0)
  {
  }
}
