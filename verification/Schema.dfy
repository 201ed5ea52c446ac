/** The parsed configuration (src/config/schema.rs), restricted to the fields the modelled code reads. */
module Schema {
  type u8 = x: int | 0 <= x < 0x100
  type u16 = x: int | 0 <= x < 0x1_0000

  datatype DataType = U16 | I16 | U32 | I32 | F32 {
    /** Width in registers. */
    function WordCount(): u16 {
      match this
      case U16 | I16 => 1
      case U32 | I32 | F32 => 2
    }
  }

  datatype WordOrder = BigEndian | LittleEndian

  datatype PointConfig = PointConfig(
    name: string, offset: u16, dataType: DataType, scale: real, absolute: bool, unit: string)
  {
    function End(): int {
      offset + dataType.WordCount()
    }
  }

  datatype BlockConfig = BlockConfig(start: u16, count: u16, wordOrder: WordOrder, points: seq<PointConfig>)

  datatype DeviceConfig = DeviceConfig(id: string, unitId: u8, blocks: seq<BlockConfig>)

  datatype Transport =
    | Tcp(host: string, port: u16)
    | Rtu(serialPort: string, dataBits: u8, stopBits: u8)

  datatype ConnectionConfig = ConnectionConfig(
    id: string, transport: Transport, pollIntervalSecs: nat, devices: seq<DeviceConfig>)

  datatype Config = Config(
    aggregationWindowSecs: nat, logLevel: string, mqttQos: u8, connections: seq<ConnectionConfig>)
}
