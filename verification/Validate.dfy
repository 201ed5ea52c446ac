/**
 Config validation (src/config/validate.rs). `Validate` is the nested loop with early returns;
 `FirstError` is the error it must report. `Acceptable` and `Justified` say, without any
 loop, sort or accumulator, what an accepted config and a reported error mean.
 */
module Validate {
  import opened Types
  import opened Schema

  datatype Field = AggregationWindow | PollInterval(connection: string)

  datatype SerialField = DataBits | StopBits

  datatype CaCertError = Unreadable | Empty | Unparseable

  datatype ValidationError =
    | ZeroInterval(field: Field)
    | InvalidLogLevel(level: string)
    | InvalidQos(qos: u8)
    | DuplicateUnitId(connection: string, unitId: u8)
    | DuplicateSerialPort(serialPort: string, first: string, second: string)
    | UnsupportedSerialSetting(connection: string, setting: SerialField, value: u8)
    | BlockTooLarge(connection: string, device: string, start: u16, count: u16)
    | PointOutOfBounds(connection: string, device: string, start: u16,
                       point: string, offset: u16, width: u16, count: u16)
    | OverlappingPoints(connection: string, device: string, start: u16, a: string, b: string)
    | CaCert(error: CaCertError)

  /** What the surroundings answer: does the log level parse, and is the CA certificate usable? */
  datatype Environment = Environment(logLevelParses: bool, caCert: Option<CaCertError>)

  const MAX_READ: u16 := 125

  // ---------------------------------------------------------------- meaning

  predicate Apart(p: PointConfig, q: PointConfig) {
    p.End() <= q.offset || q.End() <= p.offset
  }

  ghost predicate PairwiseApart(points: seq<PointConfig>) {
    forall i, j :: 0 <= i < j < |points| ==> Apart(points[i], points[j])
  }

  ghost predicate BlockOk(block: BlockConfig) {
    && block.count <= 125
    && (forall p :: p in block.points ==> p.End() <= block.count)
    && PairwiseApart(block.points)
  }

  ghost predicate DevicesOk(devices: seq<DeviceConfig>) {
    forall i, k :: 0 <= i < |devices| && 0 <= k < |devices[i].blocks| ==> BlockOk(devices[i].blocks[k])
  }

  ghost predicate UnitIdsDistinct(devices: seq<DeviceConfig>) {
    forall i, j :: 0 <= i < j < |devices| ==> devices[i].unitId != devices[j].unitId
  }

  predicate SerialOk(t: Transport) {
    t.Rtu? ==> 5 <= t.dataBits <= 8 && 1 <= t.stopBits <= 2
  }

  ghost predicate ConnectionOk(conn: ConnectionConfig) {
    && conn.pollIntervalSecs > 0
    && UnitIdsDistinct(conn.devices)
    && SerialOk(conn.transport)
    && DevicesOk(conn.devices)
  }

  predicate SamePort(c: ConnectionConfig, d: ConnectionConfig) {
    c.transport.Rtu? && d.transport.Rtu? && c.transport.serialPort == d.transport.serialPort
  }

  ghost predicate Acceptable(config: Config, env: Environment) {
    && config.aggregationWindowSecs > 0
    && env.logLevelParses
    && config.mqttQos <= 2
    && (forall c :: c in config.connections ==> ConnectionOk(c))
    && (forall i, j :: 0 <= i < j < |config.connections| ==> !SamePort(config.connections[i], config.connections[j]))
    && env.caCert.None?
  }

  ghost predicate BlockDefect(block: BlockConfig, e: ValidationError) {
    match e
    case BlockTooLarge(_, _, start, count) => block.start == start && block.count == count > 125
    case PointOutOfBounds(_, _, start, name, offset, width, count) =>
      && block.start == start && block.count == count && offset + width > count
      && exists p :: p in block.points && p.name == name && p.offset == offset && p.dataType.WordCount() == width
    case OverlappingPoints(_, _, start, a, b) =>
      && block.start == start
      && exists i, j :: 0 <= i < |block.points| && 0 <= j < |block.points| && i != j
          && block.points[i].name == a && block.points[j].name == b && !Apart(block.points[i], block.points[j])
    case _ => false
  }

  ghost predicate DeviceDefect(device: DeviceConfig, e: ValidationError) {
    && (e.BlockTooLarge? || e.PointOutOfBounds? || e.OverlappingPoints?)
    && e.device == device.id
    && exists k :: 0 <= k < |device.blocks| && BlockDefect(device.blocks[k], e)
  }

  ghost predicate ConnectionDefect(conn: ConnectionConfig, e: ValidationError) {
    match e
    case ZeroInterval(f) => f == PollInterval(conn.id) && conn.pollIntervalSecs == 0
    case DuplicateUnitId(id, u) =>
      id == conn.id && exists i, j :: 0 <= i < j < |conn.devices| && conn.devices[i].unitId == u == conn.devices[j].unitId
    case UnsupportedSerialSetting(id, DataBits, v) =>
      id == conn.id && conn.transport.Rtu? && conn.transport.dataBits == v && !(5 <= v <= 8)
    case UnsupportedSerialSetting(id, StopBits, v) =>
      id == conn.id && conn.transport.Rtu? && conn.transport.stopBits == v && !(1 <= v <= 2)
    case BlockTooLarge(id, _, _, _) => id == conn.id && exists i :: 0 <= i < |conn.devices| && DeviceDefect(conn.devices[i], e)
    case PointOutOfBounds(id, _, _, _, _, _, _) => id == conn.id && exists i :: 0 <= i < |conn.devices| && DeviceDefect(conn.devices[i], e)
    case OverlappingPoints(id, _, _, _, _) => id == conn.id && exists i :: 0 <= i < |conn.devices| && DeviceDefect(conn.devices[i], e)
    case _ => false
  }

  /** The reported error describes something that is really wrong with the config. */
  ghost predicate Justified(config: Config, env: Environment, e: ValidationError) {
    match e
    case ZeroInterval(AggregationWindow) => config.aggregationWindowSecs == 0
    case InvalidLogLevel(l) => l == config.logLevel && !env.logLevelParses
    case InvalidQos(q) => q == config.mqttQos > 2
    case CaCert(c) => env.caCert == Some(c)
    case DuplicateSerialPort(port, first, second) =>
      exists i, j :: 0 <= i < j < |config.connections|
        && SamePort(config.connections[i], config.connections[j]) && config.connections[i].transport.serialPort == port
        && config.connections[i].id == first && config.connections[j].id == second
    case _ => exists i :: 0 <= i < |config.connections| && ConnectionDefect(config.connections[i], e)
  }

  // ---------------------------------------------------------------- the check, as a function

  /** Stable insertion sort by offset: `spans.sort_by_key(|s| s.0)`. */
  function Insert(p: PointConfig, sorted: seq<PointConfig>): seq<PointConfig> {
    if sorted == [] || p.offset <= sorted[0].offset then [p] + sorted
    else [sorted[0]] + Insert(p, sorted[1..])
  }

  function SortByOffset(points: seq<PointConfig>): seq<PointConfig> {
    if points == [] then [] else Insert(points[0], SortByOffset(points[1..]))
  }

  function PointsError(conn: string, device: string, block: BlockConfig, points: seq<PointConfig>): Option<ValidationError> {
    if points == [] then None
    else if points[0].End() > block.count then
      Some(PointOutOfBounds(conn, device, block.start, points[0].name, points[0].offset, points[0].dataType.WordCount(), block.count))
    else PointsError(conn, device, block, points[1..])
  }

  function AdjacentError(conn: string, device: string, block: BlockConfig, sorted: seq<PointConfig>): Option<ValidationError> {
    if |sorted| < 2 then None
    else if sorted[1].offset < sorted[0].End() then
      Some(OverlappingPoints(conn, device, block.start, sorted[0].name, sorted[1].name))
    else AdjacentError(conn, device, block, sorted[1..])
  }

  function BlockError(conn: string, device: string, block: BlockConfig): Option<ValidationError> {
    if block.count > MAX_READ then Some(BlockTooLarge(conn, device, block.start, block.count))
    else
      var bounds := PointsError(conn, device, block, block.points);
      if bounds.Some? then bounds else AdjacentError(conn, device, block, SortByOffset(block.points))
  }

  function BlocksError(conn: string, device: string, blocks: seq<BlockConfig>): Option<ValidationError> {
    if blocks == [] then None
    else
      var first := BlockError(conn, device, blocks[0]);
      if first.Some? then first else BlocksError(conn, device, blocks[1..])
  }

  function DevicesError(conn: string, devices: seq<DeviceConfig>): Option<ValidationError> {
    if devices == [] then None
    else
      var first := BlocksError(conn, devices[0].id, devices[0].blocks);
      if first.Some? then first else DevicesError(conn, devices[1..])
  }

  function UnitIdsError(conn: string, devices: seq<DeviceConfig>, seen: set<u8>): Option<ValidationError> {
    if devices == [] then None
    else if devices[0].unitId in seen then Some(DuplicateUnitId(conn, devices[0].unitId))
    else UnitIdsError(conn, devices[1..], seen + {devices[0].unitId})
  }

  function SerialError(conn: ConnectionConfig, ports: map<string, string>): Option<ValidationError> {
    if !conn.transport.Rtu? then None
    else if !(5 <= conn.transport.dataBits <= 8) then Some(UnsupportedSerialSetting(conn.id, DataBits, conn.transport.dataBits))
    else if !(1 <= conn.transport.stopBits <= 2) then Some(UnsupportedSerialSetting(conn.id, StopBits, conn.transport.stopBits))
    else if conn.transport.serialPort in ports then
      Some(DuplicateSerialPort(conn.transport.serialPort, ports[conn.transport.serialPort], conn.id))
    else None
  }

  function PortsAfter(conn: ConnectionConfig, ports: map<string, string>): map<string, string> {
    if conn.transport.Rtu? then ports[conn.transport.serialPort := conn.id] else ports
  }

  function ConnectionError(conn: ConnectionConfig, ports: map<string, string>): Option<ValidationError> {
    if conn.pollIntervalSecs == 0 then Some(ZeroInterval(PollInterval(conn.id)))
    else
      var units := UnitIdsError(conn.id, conn.devices, {});
      if units.Some? then units
      else
        var serial := SerialError(conn, ports);
        if serial.Some? then serial else DevicesError(conn.id, conn.devices)
  }

  function ConnectionsError(conns: seq<ConnectionConfig>, ports: map<string, string>): Option<ValidationError> {
    if conns == [] then None
    else
      var first := ConnectionError(conns[0], ports);
      if first.Some? then first else ConnectionsError(conns[1..], PortsAfter(conns[0], ports))
  }

  function FirstError(config: Config, env: Environment): Option<ValidationError> {
    if config.aggregationWindowSecs == 0 then Some(ZeroInterval(AggregationWindow))
    else if !env.logLevelParses then Some(InvalidLogLevel(config.logLevel))
    else if config.mqttQos > 2 then Some(InvalidQos(config.mqttQos))
    else
      var conns := ConnectionsError(config.connections, map[]);
      if conns.Some? then conns
      else if env.caCert.Some? then Some(CaCert(env.caCert.value)) else None
  }

  // ---------------------------------------------------------------- the check, as it runs

  method ValidateBlock(conn: string, device: string, block: BlockConfig) returns (r: Option<ValidationError>)
    ensures r == BlockError(conn, device, block)
  {
    if block.count > MAX_READ {
      return Some(BlockTooLarge(conn, device, block.start, block.count));
    }
    var spans: seq<PointConfig> := [];
    for i := 0 to |block.points|
      invariant spans == block.points[..i]
      invariant PointsError(conn, device, block, block.points) == PointsError(conn, device, block, block.points[i..])
    {
      var point := block.points[i];
      var width := point.dataType.WordCount();
      if point.offset + width > block.count {
        return Some(PointOutOfBounds(conn, device, block.start, point.name, point.offset, width, block.count));
      }
      var end: u16 := point.offset + width;  // the 16-bit sum cannot overflow here
      spans := spans + [point];
    }
    assert spans == block.points;
    var sorted := SortByOffset(spans);
    var k := 0;
    while k + 1 < |sorted|
      invariant 0 <= k && (k == 0 || k < |sorted|)
      invariant AdjacentError(conn, device, block, sorted) == AdjacentError(conn, device, block, sorted[k..])
    {
      if sorted[k + 1].offset < sorted[k].End() {
        return Some(OverlappingPoints(conn, device, block.start, sorted[k].name, sorted[k + 1].name));
      }
      k := k + 1;
    }
    return None;
  }

  method ValidateConnection(conn: ConnectionConfig, ports: map<string, string>)
    returns (r: Option<ValidationError>, ports': map<string, string>)
    ensures r == ConnectionError(conn, ports)
    ensures r.None? ==> ports' == PortsAfter(conn, ports)
  {
    ports' := ports;
    if conn.pollIntervalSecs == 0 {
      return Some(ZeroInterval(PollInterval(conn.id))), ports;
    }
    var seen: set<u8> := {};
    for i := 0 to |conn.devices|
      invariant UnitIdsError(conn.id, conn.devices, {}) == UnitIdsError(conn.id, conn.devices[i..], seen)
    {
      if conn.devices[i].unitId in seen {
        return Some(DuplicateUnitId(conn.id, conn.devices[i].unitId)), ports;
      }
      seen := seen + {conn.devices[i].unitId};
    }
    match conn.transport {
      case Rtu(port, dataBits, stopBits) =>
        if !(5 <= dataBits <= 8) {
          return Some(UnsupportedSerialSetting(conn.id, DataBits, dataBits)), ports;
        }
        if !(1 <= stopBits <= 2) {
          return Some(UnsupportedSerialSetting(conn.id, StopBits, stopBits)), ports;
        }
        if port in ports {
          return Some(DuplicateSerialPort(port, ports[port], conn.id)), ports;
        }
        ports' := ports'[port := conn.id];
      case Tcp(_, _) =>
    }
    for i := 0 to |conn.devices|
      invariant DevicesError(conn.id, conn.devices) == DevicesError(conn.id, conn.devices[i..])
    {
      var device := conn.devices[i];
      for k := 0 to |device.blocks|
        invariant BlocksError(conn.id, device.id, device.blocks) == BlocksError(conn.id, device.id, device.blocks[k..])
      {
        r := ValidateBlock(conn.id, device.id, device.blocks[k]);
        if r.Some? {
          return r, ports;
        }
      }
    }
    r := None;
  }

  method Validate(config: Config, env: Environment) returns (r: Option<ValidationError>)
    ensures r == FirstError(config, env)
    ensures r.None? <==> Acceptable(config, env)
    ensures r.Some? ==> Justified(config, env, r.value)
  {
    hide Acceptable, Justified, ConnectionError;
    AcceptsExactlyTheAcceptable(config, env);
    if config.aggregationWindowSecs == 0 {
      return Some(ZeroInterval(AggregationWindow));
    }
    if !env.logLevelParses {
      return Some(InvalidLogLevel(config.logLevel));
    }
    if config.mqttQos > 2 {
      return Some(InvalidQos(config.mqttQos));
    }
    var ports: map<string, string> := map[];
    for i := 0 to |config.connections|
      invariant ConnectionsError(config.connections, map[]) == ConnectionsError(config.connections[i..], ports)
    {
      r, ports := ValidateConnection(config.connections[i], ports);
      if r.Some? {
        return;
      }
    }
    if env.caCert.Some? {
      return Some(CaCert(env.caCert.value));
    }
    return None;
  }

  // ---------------------------------------------------------------- sorting and overlap

  ghost predicate Sorted(points: seq<PointConfig>) {
    forall i, j :: 0 <= i <= j < |points| ==> points[i].offset <= points[j].offset
  }

  function TotalWidth(points: seq<PointConfig>): nat {
    if points == [] then 0 else points[0].dataType.WordCount() + TotalWidth(points[1..])
  }

  lemma {:induction false} InsertKeepsContents(p: PointConfig, sorted: seq<PointConfig>)
    ensures multiset(Insert(p, sorted)) == multiset([p] + sorted)
  {
    if sorted != [] && p.offset > sorted[0].offset {
      InsertKeepsContents(p, sorted[1..]);
      Moved(p, sorted[0], sorted[1..], Insert(p, sorted[1..]));
      assert sorted == [sorted[0]] + sorted[1..];
    }
  }

  lemma Moved(p: PointConfig, head: PointConfig, tail: seq<PointConfig>, inserted: seq<PointConfig>)
    requires multiset(inserted) == multiset([p] + tail)
    ensures multiset([head] + inserted) == multiset([p] + ([head] + tail))
  {
  }

  lemma {:induction false} InsertKeepsMembers(p: PointConfig, sorted: seq<PointConfig>)
    ensures forall q :: q in Insert(p, sorted) <==> q == p || q in sorted
  {
    if sorted != [] && p.offset > sorted[0].offset {
      InsertKeepsMembers(p, sorted[1..]);
      assert sorted == [sorted[0]] + sorted[1..];
    }
  }

  lemma WidthCons(p: PointConfig, points: seq<PointConfig>)
    ensures TotalWidth([p] + points) == p.dataType.WordCount() + TotalWidth(points)
  {
    assert ([p] + points)[1..] == points;
  }

  lemma {:induction false} InsertKeepsWidth(p: PointConfig, sorted: seq<PointConfig>)
    ensures TotalWidth(Insert(p, sorted)) == p.dataType.WordCount() + TotalWidth(sorted)
  {
    if sorted == [] || p.offset <= sorted[0].offset {
      WidthCons(p, sorted);
    } else {
      InsertKeepsWidth(p, sorted[1..]);
      WidthCons(sorted[0], Insert(p, sorted[1..]));
    }
  }

  lemma {:induction false} InsertKeepsSorted(p: PointConfig, sorted: seq<PointConfig>)
    requires Sorted(sorted)
    ensures Sorted(Insert(p, sorted))
  {
    if sorted != [] && p.offset > sorted[0].offset {
      InsertKeepsSorted(p, sorted[1..]);
      var t := Insert(p, sorted[1..]);
      InsertKeepsMembers(p, sorted[1..]);
      forall k | 0 <= k < |t| ensures sorted[0].offset <= t[k].offset {
        assert t[k] in t;
      }
    }
  }

  lemma {:induction false} InsertKeepsApart(p: PointConfig, sorted: seq<PointConfig>)
    ensures PairwiseApart(Insert(p, sorted)) <==> PairwiseApart([p] + sorted)
  {
    if sorted != [] && p.offset > sorted[0].offset {
      var head, tail := sorted[0], sorted[1..];
      InsertKeepsApart(p, tail);
      InsertKeepsMembers(p, tail);
      assert sorted == [head] + tail;
      ApartCons(head, Insert(p, tail));
      ApartCons(p, sorted);
      ApartCons(head, tail);
      ApartCons(p, tail);
      assert Apart(p, head) <==> Apart(head, p);
      assert head in sorted && forall q :: q in sorted <==> q == head || q in tail;
    }
  }

  lemma ApartCons(p: PointConfig, rest: seq<PointConfig>)
    ensures PairwiseApart([p] + rest) <==> PairwiseApart(rest) && forall q :: q in rest ==> Apart(p, q)
  {
    var all := [p] + rest;
    if PairwiseApart(all) {
      forall q | q in rest ensures Apart(p, q) {
        var k :| 0 <= k < |rest| && rest[k] == q;
        assert all[0] == p && all[k + 1] == q;
      }
      forall i, j | 0 <= i < j < |rest| ensures Apart(rest[i], rest[j]) {
        assert all[i + 1] == rest[i] && all[j + 1] == rest[j];
      }
    }
  }

  lemma {:induction false} SortKeepsContents(points: seq<PointConfig>)
    ensures multiset(SortByOffset(points)) == multiset(points)
    ensures forall q :: q in SortByOffset(points) <==> q in points
  {
    if points != [] {
      var rest := SortByOffset(points[1..]);
      SortKeepsContents(points[1..]);
      InsertKeepsContents(points[0], rest);
      InsertKeepsMembers(points[0], rest);
      hide Insert;
      assert points == [points[0]] + points[1..];
    }
  }

  lemma {:induction false} SortKeepsWidth(points: seq<PointConfig>)
    ensures TotalWidth(SortByOffset(points)) == TotalWidth(points)
  {
    if points != [] {
      SortKeepsWidth(points[1..]);
      InsertKeepsWidth(points[0], SortByOffset(points[1..]));
    }
  }

  lemma {:induction false} SortSorts(points: seq<PointConfig>)
    ensures Sorted(SortByOffset(points))
  {
    if points != [] {
      SortSorts(points[1..]);
      InsertKeepsSorted(points[0], SortByOffset(points[1..]));
    }
  }

  lemma {:induction false} SortKeepsApart(points: seq<PointConfig>)
    ensures PairwiseApart(SortByOffset(points)) <==> PairwiseApart(points)
  {
    if points != [] {
      var rest := SortByOffset(points[1..]);
      SortKeepsApart(points[1..]);
      SortKeepsContents(points[1..]);
      InsertKeepsApart(points[0], rest);
      assert points == [points[0]] + points[1..];
      ApartCons(points[0], rest);
      ApartCons(points[0], points[1..]);
    }
  }

  /** On a sorted list, the first point is apart from all others iff it is apart from the second. */
  lemma HeadApart(sorted: seq<PointConfig>)
    requires Sorted(sorted)
    ensures |sorted| < 2 ==> PairwiseApart(sorted)
    ensures |sorted| >= 2 && sorted[1].offset < sorted[0].End() ==> !Apart(sorted[0], sorted[1]) && !PairwiseApart(sorted)
    ensures |sorted| >= 2 && sorted[1].offset >= sorted[0].End() ==> forall q :: q in sorted[1..] ==> Apart(sorted[0], q)
  {
  }

  /** On a sorted list, checking neighbours is checking every pair; a failure names a real overlapping pair. */
  lemma {:induction false} AdjacentIsPairwise(conn: string, device: string, block: BlockConfig, sorted: seq<PointConfig>)
    returns (k: nat)
    requires Sorted(sorted)
    ensures var r := AdjacentError(conn, device, block, sorted);
      && (r.None? <==> PairwiseApart(sorted))
      && (r.Some? ==> k + 1 < |sorted| && !Apart(sorted[k], sorted[k + 1])
                      && r.value == OverlappingPoints(conn, device, block.start, sorted[k].name, sorted[k + 1].name))
  {
    hide Apart, PairwiseApart, Sorted;
    HeadApart(sorted);
    k := 0;
    if |sorted| >= 2 && sorted[1].offset >= sorted[0].End() {
      var tail := sorted[1..];
      SortedTail(sorted);
      ApartCons(sorted[0], tail);
      var k' := AdjacentIsPairwise(conn, device, block, tail);
      k := k' + 1;
      assert AdjacentError(conn, device, block, sorted) == AdjacentError(conn, device, block, tail);
    }
  }

  lemma SortedTail(sorted: seq<PointConfig>)
    requires sorted != [] && Sorted(sorted)
    ensures Sorted(sorted[1..]) && sorted == [sorted[0]] + sorted[1..]
  {
  }

  lemma TwoOccurrences(points: seq<PointConfig>, a: PointConfig, b: PointConfig) returns (i: nat, j: nat)
    requires multiset{a, b} <= multiset(points)
    ensures i < |points| && j < |points| && i != j && points[i] == a && points[j] == b
  {
    assert a in multiset(points);
    i :| 0 <= i < |points| && points[i] == a;
    var others := points[..i] + points[i + 1..];
    TakeOut(points, i);
    assert b in multiset(others);
    var k :| 0 <= k < |others| && others[k] == b;
    j := if k < i then k else k + 1;
  }

  lemma TakeOut(points: seq<PointConfig>, i: nat)
    requires i < |points|
    ensures multiset(points) == multiset(points[..i] + points[i + 1..]) + multiset{points[i]}
  {
    assert points == points[..i] + [points[i]] + points[i + 1..];
  }

  lemma NeighboursOccur(points: seq<PointConfig>, k: nat)
    requires k + 1 < |points|
    ensures multiset{points[k], points[k + 1]} <= multiset(points)
  {
    assert points == points[..k] + [points[k], points[k + 1]] + points[k + 2..];
  }

  /** Sort-then-check-neighbours accepts a block exactly when its points are pairwise disjoint. */
  lemma SortedCheckIsPairwise(conn: string, device: string, block: BlockConfig)
    ensures var r := AdjacentError(conn, device, block, SortByOffset(block.points));
      && (r.None? <==> PairwiseApart(block.points))
      && (r.Some? ==> BlockDefect(block, r.value) && r.value.OverlappingPoints? && r.value.connection == conn && r.value.device == device)
  {
    hide SortByOffset, AdjacentError, Apart, PairwiseApart, Sorted, TotalWidth;
    var sorted := SortByOffset(block.points);
    SortSorts(block.points);
    SortKeepsContents(block.points);
    SortKeepsApart(block.points);
    var k := AdjacentIsPairwise(conn, device, block, sorted);
    var r := AdjacentError(conn, device, block, sorted);
    if r.Some? {
      NeighboursOccur(sorted, k);
      var i, j := TwoOccurrences(block.points, sorted[k], sorted[k + 1]);
    }
  }

  /** Disjoint points inside a block never occupy more registers than the block reads. */
  lemma {:induction false} SortedWidthsFit(sorted: seq<PointConfig>, from: nat, count: nat)
    requires Sorted(sorted) && PairwiseApart(sorted) && from <= count
    requires forall p :: p in sorted ==> from <= p.offset && p.End() <= count
    ensures TotalWidth(sorted) <= count - from
  {
    if sorted != [] {
      var tail := sorted[1..];
      assert sorted[0] in sorted;
      forall p | p in tail ensures sorted[0].End() <= p.offset && p.End() <= count {
        var k :| 0 <= k < |tail| && tail[k] == p;
        assert sorted[k + 1] == p && p in sorted;
        assert Apart(sorted[0], sorted[k + 1]) && sorted[0].offset <= sorted[k + 1].offset;
      }
      assert forall i, j :: 0 <= i < j < |tail| ==> tail[i] == sorted[i + 1] && tail[j] == sorted[j + 1];
      SortedWidthsFit(tail, sorted[0].End(), count);
    }
  }

  lemma WidthsFit(block: BlockConfig)
    requires BlockOk(block)
    ensures TotalWidth(block.points) <= block.count <= 125
  {
    var sorted := SortByOffset(block.points);
    SortSorts(block.points);
    SortKeepsContents(block.points);
    SortKeepsWidth(block.points);
    SortKeepsApart(block.points);
    SortedWidthsFit(sorted, 0, block.count);
  }

  // ---------------------------------------------------------------- from blocks to the whole config

  lemma {:induction false} PointsCheck(conn: string, device: string, block: BlockConfig, points: seq<PointConfig>)
    ensures var r := PointsError(conn, device, block, points);
      && (r.None? <==> forall p :: p in points ==> p.End() <= block.count)
      && (r.Some? ==> r.value.PointOutOfBounds? && r.value.connection == conn && r.value.device == device
                      && BlockDefect(block.(points := points), r.value))
  {
    if points != [] {
      PointsCheck(conn, device, block, points[1..]);
      assert points == [points[0]] + points[1..];
      assert points[0] in points;
    }
  }

  lemma BlockCheck(conn: string, device: string, block: BlockConfig)
    ensures var r := BlockError(conn, device, block);
      && (r.None? <==> BlockOk(block))
      && (r.Some? ==> BlockDefect(block, r.value) && r.value.connection == conn && r.value.device == device)
  {
    PointsCheck(conn, device, block, block.points);
    assert block.(points := block.points) == block;
    SortedCheckIsPairwise(conn, device, block);
  }

  lemma {:induction false} BlocksCheck(conn: string, device: DeviceConfig, from: nat)
    requires from <= |device.blocks|
    ensures var r := BlocksError(conn, device.id, device.blocks[from..]);
      && (r.None? <==> forall k :: from <= k < |device.blocks| ==> BlockOk(device.blocks[k]))
      && (r.Some? ==> DeviceDefect(device, r.value) && r.value.connection == conn)
    decreases |device.blocks| - from
  {
    if from < |device.blocks| {
      BlocksCheck(conn, device, from + 1);
      BlockCheck(conn, device.id, device.blocks[from]);
      assert device.blocks[from..][1..] == device.blocks[from + 1..];
    }
  }

  lemma {:induction false} DevicesCheck(conn: ConnectionConfig, from: nat)
    requires from <= |conn.devices|
    ensures var r := DevicesError(conn.id, conn.devices[from..]);
      && (r.None? <==> DevicesOk(conn.devices[from..]))
      && (r.Some? ==> ConnectionDefect(conn, r.value)
                      && (r.value.BlockTooLarge? || r.value.PointOutOfBounds? || r.value.OverlappingPoints?))
    decreases |conn.devices| - from
  {
    if from < |conn.devices| {
      DevicesCheck(conn, from + 1);
      var device, rest, all := conn.devices[from], conn.devices[from + 1..], conn.devices[from..];
      BlocksCheck(conn.id, device, 0);
      assert device.blocks[0..] == device.blocks;
      assert all[1..] == rest && all[0] == device;
      var r := BlocksError(conn.id, device.id, device.blocks);
      if r.None? {
        assert DevicesError(conn.id, all) == DevicesError(conn.id, rest);
        if DevicesOk(rest) {
          forall i, k | 0 <= i < |all| && 0 <= k < |all[i].blocks| ensures BlockOk(all[i].blocks[k]) {
            if i > 0 { assert all[i] == rest[i - 1]; }
          }
        }
        if DevicesOk(all) {
          forall i, k | 0 <= i < |rest| && 0 <= k < |rest[i].blocks| ensures BlockOk(rest[i].blocks[k]) {
            assert all[i + 1] == rest[i];
          }
        }
      } else {
        var k :| 0 <= k < |device.blocks| && !BlockOk(device.blocks[k]);
        assert !BlockOk(all[0].blocks[k]);
      }
    }
  }

  lemma {:induction false} UnitIdsCheck(conn: ConnectionConfig, from: nat, seen: set<u8>)
    requires from <= |conn.devices|
    requires forall u :: u in seen <==> exists i :: 0 <= i < from && conn.devices[i].unitId == u
    requires forall i, j :: 0 <= i < j < from ==> conn.devices[i].unitId != conn.devices[j].unitId
    ensures var r := UnitIdsError(conn.id, conn.devices[from..], seen);
      && (r.None? <==> UnitIdsDistinct(conn.devices))
      && (r.Some? ==> ConnectionDefect(conn, r.value) && r.value.DuplicateUnitId?)
    decreases |conn.devices| - from
  {
    if from < |conn.devices| {
      assert conn.devices[from..][1..] == conn.devices[from + 1..];
      if conn.devices[from].unitId in seen {
        var i :| 0 <= i < from && conn.devices[i].unitId == conn.devices[from].unitId;
      } else {
        UnitIdsCheck(conn, from + 1, seen + {conn.devices[from].unitId});
      }
    }
  }

  ghost predicate PortsOf(conns: seq<ConnectionConfig>, upTo: nat, ports: map<string, string>)
    requires upTo <= |conns|
  {
    && (forall i :: 0 <= i < upTo && conns[i].transport.Rtu? ==> conns[i].transport.serialPort in ports)
    && (forall p :: p in ports ==>
          exists i :: 0 <= i < upTo && conns[i].transport.Rtu? && conns[i].transport.serialPort == p && conns[i].id == ports[p])
  }

  lemma ConnectionCheck(config: Config, env: Environment, at: nat, ports: map<string, string>)
    requires at < |config.connections| && PortsOf(config.connections, at, ports)
    ensures var conn := config.connections[at]; var r := ConnectionError(conn, ports);
      && (r.None? ==> ConnectionOk(conn) && (conn.transport.Rtu? ==> conn.transport.serialPort !in ports)
                      && PortsOf(config.connections, at + 1, PortsAfter(conn, ports)))
      && (r.Some? ==> Justified(config, env, r.value))
  {
    hide DevicesOk, UnitIdsDistinct, DevicesError, UnitIdsError, DeviceDefect;
    var conn := config.connections[at];
    var r := ConnectionError(conn, ports);
    UnitIdsCheck(conn, 0, {});
    DevicesCheck(conn, 0);
    assert conn.devices[0..] == conn.devices;
    if r.Some? && r.value.DuplicateSerialPort? {
      var i :| 0 <= i < at && config.connections[i].transport.Rtu?
               && config.connections[i].transport.serialPort == conn.transport.serialPort
               && config.connections[i].id == ports[conn.transport.serialPort];
      assert SamePort(config.connections[i], config.connections[at]);
    }
    if r.None? {
      var ports' := PortsAfter(conn, ports);
      forall p | p in ports'
        ensures exists i :: 0 <= i < at + 1 && config.connections[i].transport.Rtu?
                 && config.connections[i].transport.serialPort == p && config.connections[i].id == ports'[p]
      {
        if p in ports && !(conn.transport.Rtu? && conn.transport.serialPort == p) {
          var i :| 0 <= i < at && config.connections[i].transport.Rtu?
                   && config.connections[i].transport.serialPort == p && config.connections[i].id == ports[p];
        } else {
          assert config.connections[at] == conn;
        }
      }
    }
  }

  ghost predicate ConnectionsOk(conns: seq<ConnectionConfig>, upTo: nat)
    requires upTo <= |conns|
  {
    && (forall i :: 0 <= i < upTo ==> ConnectionOk(conns[i]))
    && (forall i, j :: 0 <= i < j < upTo ==> !SamePort(conns[i], conns[j]))
  }

  lemma OneMoreConnection(conns: seq<ConnectionConfig>, at: nat, ports: map<string, string>)
    requires at < |conns| && PortsOf(conns, at, ports) && ConnectionsOk(conns, at) && ConnectionOk(conns[at])
    requires conns[at].transport.Rtu? ==> conns[at].transport.serialPort !in ports
    ensures ConnectionsOk(conns, at + 1)
  {
  }

  lemma {:induction false} ConnectionsCheck(config: Config, env: Environment, from: nat, ports: map<string, string>)
    requires from <= |config.connections| && PortsOf(config.connections, from, ports)
    requires ConnectionsOk(config.connections, from)
    ensures var r := ConnectionsError(config.connections[from..], ports);
      && (r.None? ==> ConnectionsOk(config.connections, |config.connections|))
      && (r.Some? ==> Justified(config, env, r.value))
    decreases |config.connections| - from
  {
    hide Justified, ConnectionError, PortsOf, PortsAfter, ConnectionsOk, ConnectionOk;
    var conns := config.connections;
    if from < |conns| {
      var conn := conns[from];
      assert conns[from..][0] == conn && conns[from..][1..] == conns[from + 1..];
      ConnectionCheck(config, env, from, ports);
      if ConnectionError(conn, ports).None? {
        OneMoreConnection(conns, from, ports);
        ConnectionsCheck(config, env, from + 1, PortsAfter(conn, ports));
        assert ConnectionsError(conns[from..], ports) == ConnectionsError(conns[from + 1..], PortsAfter(conn, ports));
      } else {
        assert ConnectionsError(conns[from..], ports) == ConnectionError(conn, ports);
      }
    }
  }

  lemma DefectiveDevice(devices: seq<DeviceConfig>, i: nat, e: ValidationError)
    requires i < |devices| && DeviceDefect(devices[i], e)
    ensures !DevicesOk(devices)
  {
    var k :| 0 <= k < |devices[i].blocks| && BlockDefect(devices[i].blocks[k], e);
    var block := devices[i].blocks[k];
    if e.OverlappingPoints? {
      var a, b :| 0 <= a < |block.points| && 0 <= b < |block.points| && a != b && !Apart(block.points[a], block.points[b]);
      assert Apart(block.points[a], block.points[b]) == Apart(block.points[b], block.points[a]);
      if a < b {
        assert !Apart(block.points[a], block.points[b]);
      } else {
        assert !Apart(block.points[b], block.points[a]);
      }
    }
    assert !BlockOk(block);
  }

  /** A justified error is never about an acceptable config. */
  lemma JustifiedMeansUnacceptable(config: Config, env: Environment, e: ValidationError)
    requires Justified(config, env, e)
    ensures !Acceptable(config, env)
  {
    if (e.ZeroInterval? && e.field.AggregationWindow?) || e.InvalidLogLevel? || e.InvalidQos? || e.CaCert? || e.DuplicateSerialPort? {
    } else {
      var i :| 0 <= i < |config.connections| && ConnectionDefect(config.connections[i], e);
      var conn := config.connections[i];
      if e.BlockTooLarge? || e.PointOutOfBounds? || e.OverlappingPoints? {
        var d :| 0 <= d < |conn.devices| && DeviceDefect(conn.devices[d], e);
        DefectiveDevice(conn.devices, d, e);
      }
      assert !ConnectionOk(conn) && conn in config.connections;
    }
  }

  lemma AcceptsExactlyTheAcceptable(config: Config, env: Environment)
    ensures FirstError(config, env).None? <==> Acceptable(config, env)
    ensures FirstError(config, env).Some? ==> Justified(config, env, FirstError(config, env).value)
  {
    ConnectionsCheck(config, env, 0, map[]);
    assert config.connections[0..] == config.connections;
    var r := FirstError(config, env);
    if r.Some? {
      JustifiedMeansUnacceptable(config, env, r.value);
    }
  }
}
