/**
  The controller's in-memory state: farms and sensors keyed by their
  generated identifiers, and the append-only list of readings.
 */
module Registry {
  import opened Entities

  datatype Store = Store(
    farms: map<string, Farm>,
    sensors: map<string, Sensor>,
    readings: seq<Reading>)

  /** The state of a freshly started controller. */
  const Empty := Store(map[], map[], [])

  /** Every farm is stored under its own identifier. */
  ghost predicate FarmsKeyedById(s: Store) {
    forall id :: id in s.farms ==> s.farms[id].farmId == id
  }

  /** Every sensor is stored under its own identifier. */
  ghost predicate SensorsKeyedById(s: Store) {
    forall id :: id in s.sensors ==> s.sensors[id].sensorId == id
  }

  /** Every sensor names a farm of the store. */
  ghost predicate SensorsReferenceFarms(s: Store) {
    forall id :: id in s.sensors ==> s.sensors[id].farmId in s.farms
  }

  /** Every reading names a sensor of the store. */
  ghost predicate ReadingsReferenceSensors(s: Store) {
    forall i :: 0 <= i < |s.readings| ==> s.readings[i].sensorId in s.sensors
  }

  /** The invariant every reachable store satisfies. */
  ghost predicate Valid(s: Store) {
    && FarmsKeyedById(s)
    && SensorsKeyedById(s)
    && SensorsReferenceFarms(s)
    && ReadingsReferenceSensors(s)
  }

  /**
    `t` is `s` with possibly more entries: nothing stored in `s` was removed
    or replaced, and the readings of `s` are a prefix of those of `t`.
   */
  ghost predicate Extends(s: Store, t: Store) {
    && (forall id :: id in s.farms ==> id in t.farms && t.farms[id] == s.farms[id])
    && (forall id :: id in s.sensors ==> id in t.sensors && t.sensors[id] == s.sensors[id])
    && s.readings <= t.readings
  }

  /** The sensors of the store attached to the farm `farmId`. */
  ghost function SensorsOf(s: Store, farmId: string): set<Sensor> {
    set x | x in s.sensors.Values && x.farmId == farmId
  }

  /** `m'` is `m` with exactly one new entry `k := v`. */
  ghost predicate AddsOneEntry<K, V>(m: map<K, V>, m': map<K, V>, k: K, v: V) {
    && k !in m
    && m'.Keys == m.Keys + {k}
    && m'[k] == v
    && (forall j :: j in m ==> m'[j] == m[j])
  }

  /** `ys` is `xs` with exactly one element `x` appended. */
  ghost predicate AppendsOne<T>(xs: seq<T>, ys: seq<T>, x: T) {
    && |ys| == |xs| + 1
    && ys[..|xs|] == xs
    && ys[|xs|] == x
  }

  lemma EmptyIsValid()
    ensures Valid(Empty)
  {
  }

  /** A map with one entry added has one more key. */
  lemma AddsOneEntryGrowsByOne<K, V>(m: map<K, V>, m': map<K, V>, k: K, v: V)
    requires AddsOneEntry(m, m', k, v)
    ensures |m'| == |m| + 1
  {
  }
}
