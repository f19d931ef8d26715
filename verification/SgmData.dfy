/** The record that travels from sensor to sink, and the tables behind topics. */
module SgmData {

  datatype PhysQuantity = PRESSURE | TEMPERATURE | HUMIDITY | LIGHT

  datatype Unit = HPa | Celsius | Percent | Lumen

  datatype MeasurementPoint = SOIL | AIR | DEVICE | NONE

  datatype SgmProcessData = SgmProcessData(
    packetId: int, measPoint: MeasurementPoint, physQuantityType: PhysQuantity, unit: Unit,
    value: int, divider: int, timestamp: int, crc: int)

  const MEAS_POINT_STRING_MAP: map<MeasurementPoint, string> := map[AIR := "air", SOIL := "soil", DEVICE := "dev"]

  const PHYSICAL_STRING_MAP: map<PhysQuantity, string> :=
    map[PRESSURE := "press", TEMPERATURE := "temp", HUMIDITY := "humid", LIGHT := "light"]

  /** The multimap of quantities a point can measure, in its iteration order: by point, then as inserted. */
  const UNIT_MAP: seq<(MeasurementPoint, PhysQuantity)> :=
    [(SOIL, HUMIDITY), (AIR, PRESSURE), (AIR, TEMPERATURE), (AIR, HUMIDITY), (AIR, LIGHT), (DEVICE, TEMPERATURE)]
}
