/**
  Properties relating several handler calls: the store invariant is kept by
  every mutation, mutations only ever add, and what is created can be read
  back.
 */
module RegistryProperties {
  import opened Wrappers
  import opened Entities
  import opened Http
  import opened Registry
  import opened Controller

  /** Creating a farm keeps the invariant. */
  lemma CreateFarmPreservesValid(s: Store, p: FarmPayload, freshId: string, now: LocalDateTime)
    requires Valid(s)
    requires freshId !in s.farms
    ensures Valid(CreateFarm(s, p, freshId, now).store)
  {
  }

  /** Registering a sensor keeps the invariant: the new sensor's farm exists. */
  lemma RegisterSensorPreservesValid(s: Store, p: SensorPayload, freshId: string, now: LocalDateTime)
    requires Valid(s)
    requires freshId !in s.sensors
    ensures Valid(RegisterSensor(s, p, freshId, now).store)
  {
  }

  /** Adding a reading keeps the invariant: the new reading's sensor exists. */
  lemma AddReadingPreservesValid(s: Store, p: ReadingPayload, parse: TimestampParser, now: LocalDateTime)
    requires Valid(s)
    ensures Valid(AddReading(s, p, parse, now).store)
  {
  }

  /**
    Creating a farm removes or replaces nothing, so a reference that was
    checked once stays valid.
   */
  lemma CreateFarmOnlyExtends(s: Store, p: FarmPayload, freshId: string, now: LocalDateTime)
    requires freshId !in s.farms
    ensures Extends(s, CreateFarm(s, p, freshId, now).store)
  {
  }

  /** Registering a sensor removes or replaces nothing. */
  lemma RegisterSensorOnlyExtends(s: Store, p: SensorPayload, freshId: string, now: LocalDateTime)
    requires freshId !in s.sensors
    ensures Extends(s, RegisterSensor(s, p, freshId, now).store)
  {
  }

  /** Adding a reading removes or replaces nothing: the old readings stay a prefix. */
  lemma AddReadingOnlyExtends(s: Store, p: ReadingPayload, parse: TimestampParser, now: LocalDateTime)
    ensures Extends(s, AddReading(s, p, parse, now).store)
  {
  }

  /** A created farm can be read back at once, and no other lookup changes. */
  lemma CreateThenGetFarm(s: Store, p: FarmPayload, freshId: string, now: LocalDateTime)
    requires freshId !in s.farms
    requires p.IsComplete()
    ensures var t := CreateFarm(s, p, freshId, now).store;
      && GetFarm(t, freshId) == Ok(Farm(freshId, p.name.value, p.location.value, p.size.value, now))
      && forall id :: id != freshId ==> GetFarm(t, id) == GetFarm(s, id)
  {
  }

  /** A registered sensor can be read back at once, and no other lookup changes. */
  lemma RegisterThenGetSensor(s: Store, p: SensorPayload, freshId: string, now: LocalDateTime)
    requires freshId !in s.sensors
    requires p.IsComplete() && p.farmId.value in s.farms
    ensures var t := RegisterSensor(s, p, freshId, now).store;
      && GetSensor(t, freshId)
         == Ok(Sensor(freshId, p.farmId.value, p.sensorType.value, p.location.value, now))
      && forall id :: id != freshId ==> GetSensor(t, id) == GetSensor(s, id)
  {
  }

  /**
    Registering a sensor adds it to the sensors of its farm and leaves the
    sensors of every other farm as they were.
   */
  lemma RegisteredSensorIsListed(s: Store, p: SensorPayload, freshId: string, now: LocalDateTime)
    requires freshId !in s.sensors
    requires p.IsComplete() && p.farmId.value in s.farms
    ensures var t := RegisterSensor(s, p, freshId, now).store;
      var sensor := Sensor(freshId, p.farmId.value, p.sensorType.value, p.location.value, now);
      && SensorsOf(t, p.farmId.value) == SensorsOf(s, p.farmId.value) + {sensor}
      && forall farmId :: farmId != p.farmId.value ==> SensorsOf(t, farmId) == SensorsOf(s, farmId)
  {
  }

  /**
    Two identical create requests make two farms under two distinct ids: the
    second id is fresh for the store the first request left behind.
   */
  lemma RepeatedCreateFarmIsNotIdempotent(
    s: Store, p: FarmPayload, firstId: string, secondId: string, now1: LocalDateTime, now2: LocalDateTime)
    requires p.IsComplete()
    requires firstId !in s.farms
    requires secondId !in CreateFarm(s, p, firstId, now1).store.farms
    ensures firstId != secondId
    ensures var first := CreateFarm(s, p, firstId, now1);
      var second := CreateFarm(first.store, p, secondId, now2);
      && first.response.id == Some(firstId)
      && second.response.id == Some(secondId)
      && |second.store.farms| == |s.farms| + 2
  {
  }

  const ExampleTimestamp := "2023-10-27T10:00:00+00:00"

  /**
    An end-to-end scenario: from an empty controller, create a farm, register
    a sensor on it and add a reading; each step is created (201), and the farm
    then has exactly the one registered sensor.
   */
  lemma EndToEndScenario(
    farmId: string, sensorId: string, parse: TimestampParser,
    t0: LocalDateTime, t1: LocalDateTime, t2: LocalDateTime)
    requires parse(ExampleTimestamp).Some?
    ensures var step1 := CreateFarm(Empty, FarmPayload(Some("Acme"), Some("Field A"), Some(12.5)), farmId, t0);
      var step2 := RegisterSensor(step1.store, SensorPayload(Some(farmId), Some("soil-moisture"), Some("Row 3")), sensorId, t1);
      var step3 := AddReading(step2.store, ReadingPayload(Some(sensorId), Some(ExampleTimestamp), Some(23.4), Some("%")), parse, t2);
      && step1.response.StatusCode() == 201 && step1.response.id == Some(farmId)
      && step2.response.StatusCode() == 201 && step2.response.id == Some(sensorId)
      && step3.response.StatusCode() == 201
      && SensorsOf(step3.store, farmId) == {Sensor(sensorId, farmId, "soil-moisture", "Row 3", t1)}
      && |step3.store.readings| == 1
      && Valid(step3.store)
  {
  }
}
