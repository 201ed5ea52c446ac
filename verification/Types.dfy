/** Values passed between the gateway's tasks (src/types.rs, and the events of src/status.rs). */
module Types {
  datatype Option<+T> = None | Some(value: T)

  datatype PointId = PointId(device: string, point: string)

  datatype Reading = Reading(pointId: PointId, value: real)

  datatype AggregatedPoint = AggregatedPoint(name: string, unit: string, mean: real)

  /** Window bounds are Unix seconds. */
  datatype AggregatedBatch = AggregatedBatch(
    deviceId: string, windowStart: int, windowEnd: int, points: seq<AggregatedPoint>)

  datatype StatusEvent =
    | ConnectionUp(connectionId: string)
    | ConnectionDown(connectionId: string)
    | DeviceOk(connectionId: string, deviceId: string)
    | DeviceProblem(connectionId: string, deviceId: string, reason: string)
    | MqttConnected
    | MqttDisconnected
}
