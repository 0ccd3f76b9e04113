/**
  The three records of the farming platform: a Farm, a Sensor attached to a
  farm, and a Reading taken by a sensor. Identifiers and clock values are
  produced by the caller (the controller), so each record is built by its
  datatype constructor from already generated values.
 */
module Entities {

  /** A server clock reading (`java.time.LocalDateTime`); never inspected. */
  type LocalDateTime = int

  /** The local date-time a caller wrote in a timestamp; never inspected. */
  type CallerDateTime = int

  /** A caller-supplied instant together with its UTC offset (`java.time.OffsetDateTime`). */
  datatype OffsetDateTime = OffsetDateTime(dateTime: CallerDateTime, offsetSeconds: int)

  /** A Java `double`. No arithmetic is done on it, so any carrier will do. */
  type Double = real

  datatype Farm = Farm(
    farmId: string,
    name: string,
    location: string,
    size: Double,
    createdAt: LocalDateTime)

  datatype Sensor = Sensor(
    sensorId: string,
    farmId: string,
    sensorType: string,
    location: string,
    registeredAt: LocalDateTime)

  /** Readings have no identifier of their own. */
  datatype Reading = Reading(
    sensorId: string,
    timestamp: OffsetDateTime,
    value: Double,
    unit: string,
    receivedAt: LocalDateTime)
}
