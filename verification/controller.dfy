/**
  The request handlers of the REST controller. Each mutating handler maps a
  store and a request payload to a response and the next store; each query
  handler maps a store to a response and leaves the store as it is.

  Generated identifiers, clock readings and the ISO 8601 offset date-time
  parser come in as parameters.
 */
module Controller {
  import opened Wrappers
  import opened Entities
  import opened Http
  import opened Registry
  import opened Enumeration

  /** The JSON body of `POST /api/farms`; an absent or null field is `None`. */
  datatype FarmPayload = FarmPayload(
    name: Option<string>,
    location: Option<string>,
    size: Option<Double>)
  {
    predicate IsComplete() {
      name.Some? && location.Some? && size.Some?
    }
  }

  /** The JSON body of `POST /api/sensors`. */
  datatype SensorPayload = SensorPayload(
    farmId: Option<string>,
    sensorType: Option<string>,
    location: Option<string>)
  {
    predicate IsComplete() {
      farmId.Some? && sensorType.Some? && location.Some?
    }
  }

  /** The JSON body of `POST /api/readings`. */
  datatype ReadingPayload = ReadingPayload(
    sensorId: Option<string>,
    timestamp: Option<string>,
    value: Option<Double>,
    unit: Option<string>)
  {
    predicate IsComplete() {
      sensorId.Some? && timestamp.Some? && value.Some? && unit.Some?
    }
  }

  /** What a mutating handler sends back, and the store it leaves behind. */
  datatype Step = Step(response: Response<()>, store: Store)

  /** A parser for ISO 8601 offset date-times: `None` where parsing throws. */
  type TimestampParser = string -> Option<OffsetDateTime>

  /**
    POST /api/farms. A request missing any of name, location or size is a bad
    request and changes nothing; otherwise exactly one farm, holding the given
    fields, is added under the fresh identifier, which is returned.
   */
  function CreateFarm(s: Store, p: FarmPayload, freshId: string, now: LocalDateTime): (out: Step)
    requires freshId !in s.farms
    ensures out.response.BadRequest? <==> !p.IsComplete()
    ensures !p.IsComplete() ==> out.response == BadRequest(MissingFields) && out.store == s
    ensures p.IsComplete() ==>
      && out.response == Created(FarmCreated, Some(freshId))
      && AddsOneEntry(s.farms, out.store.farms, freshId,
                      Farm(freshId, p.name.value, p.location.value, p.size.value, now))
      && |out.store.farms| == |s.farms| + 1
      && out.store.sensors == s.sensors
      && out.store.readings == s.readings
  {
    if !p.IsComplete() then
      Step(BadRequest(MissingFields), s)
    else
      var farm := Farm(freshId, p.name.value, p.location.value, p.size.value, now);
      var farms' := s.farms[freshId := farm];
      AddsOneEntryGrowsByOne(s.farms, farms', freshId, farm);
      Step(Created(FarmCreated, Some(freshId)), s.(farms := farms'))
  }

  /** GET /api/farms/{farmId}: the stored farm, or not-found for an unknown identifier. */
  function GetFarm(s: Store, farmId: string): (r: Response<Farm>)
    ensures r.NotFound? <==> farmId !in s.farms
    ensures farmId !in s.farms ==> r == NotFound(FarmNotFound)
    ensures farmId in s.farms ==> r == Ok(s.farms[farmId])
  {
    if farmId !in s.farms then NotFound(FarmNotFound) else Ok(s.farms[farmId])
  }

  /**
    GET /api/farms: every stored farm, in an unspecified order, each as often
    as it is stored (once per key).
   */
  method ListFarms(s: Store) returns (r: Response<seq<Farm>>)
    ensures r.Ok?
    ensures |r.value| == |s.farms|
    ensures forall f :: multiset(r.value)[f] == |KeysHolding(s.farms, f)|
    ensures forall f :: f in r.value <==> f in s.farms.Values
    ensures FarmsKeyedById(s) ==> forall f :: multiset(r.value)[f] <= 1
  {
    var keepAll := (f: Farm) => true;
    var farms := FilterValues(s.farms, keepAll);
    assert MatchingKeys(s.farms, keepAll) == s.farms.Keys;
    forall f
      ensures f in farms <==> f in s.farms.Values
      ensures FarmsKeyedById(s) ==> multiset(farms)[f] <= 1
    {
      KeysHoldingNonEmpty(s.farms, f);
      if FarmsKeyedById(s) {
        KeysHoldingOfKeyedMap(s.farms, (x: Farm) => x.farmId, f);
      }
    }
    r := Ok(farms);
  }

  /**
    POST /api/sensors. Missing fields are reported before an unknown farm; on
    either error nothing changes. Otherwise exactly one sensor, attached to the
    named farm, is added under the fresh identifier, which is returned.
   */
  function RegisterSensor(s: Store, p: SensorPayload, freshId: string, now: LocalDateTime): (out: Step)
    requires freshId !in s.sensors
    ensures out.response.Created? <==> p.IsComplete() && p.farmId.value in s.farms
    ensures !p.IsComplete() ==> out.response == BadRequest(MissingFields) && out.store == s
    ensures p.IsComplete() && p.farmId.value !in s.farms ==>
      out.response == NotFound(FarmNotFound) && out.store == s
    ensures p.IsComplete() && p.farmId.value in s.farms ==>
      && out.response == Created(SensorRegistered, Some(freshId))
      && AddsOneEntry(s.sensors, out.store.sensors, freshId,
                      Sensor(freshId, p.farmId.value, p.sensorType.value, p.location.value, now))
      && |out.store.sensors| == |s.sensors| + 1
      && out.store.farms == s.farms
      && out.store.readings == s.readings
  {
    if !p.IsComplete() then
      Step(BadRequest(MissingFields), s)
    else if p.farmId.value !in s.farms then
      Step(NotFound(FarmNotFound), s)
    else
      var sensor := Sensor(freshId, p.farmId.value, p.sensorType.value, p.location.value, now);
      var sensors' := s.sensors[freshId := sensor];
      AddsOneEntryGrowsByOne(s.sensors, sensors', freshId, sensor);
      Step(Created(SensorRegistered, Some(freshId)), s.(sensors := sensors'))
  }

  /** GET /api/sensors/{sensorId}: the stored sensor, or not-found for an unknown identifier. */
  function GetSensor(s: Store, sensorId: string): (r: Response<Sensor>)
    ensures r.NotFound? <==> sensorId !in s.sensors
    ensures sensorId !in s.sensors ==> r == NotFound(SensorNotFound)
    ensures sensorId in s.sensors ==> r == Ok(s.sensors[sensorId])
  {
    if sensorId !in s.sensors then NotFound(SensorNotFound) else Ok(s.sensors[sensorId])
  }

  /**
    GET /api/farms/{farmId}/sensors: the stored sensors attached to `farmId`,
    in an unspecified order. An unknown farm gives an empty list, not an error.
   */
  method GetFarmSensors(s: Store, farmId: string) returns (r: Response<seq<Sensor>>)
    ensures r.Ok?
    ensures forall x :: x in r.value <==> x in SensorsOf(s, farmId)
    ensures forall x :: multiset(r.value)[x]
                     == if x.farmId == farmId then |KeysHolding(s.sensors, x)| else 0
    ensures farmId !in s.farms && SensorsReferenceFarms(s) ==> r.value == []
    ensures SensorsKeyedById(s) ==> forall x :: multiset(r.value)[x] <= 1
  {
    var sensors := FilterValues(s.sensors, (x: Sensor) => x.farmId == farmId);
    forall x
      ensures x in sensors <==> x in SensorsOf(s, farmId)
      ensures SensorsKeyedById(s) ==> multiset(sensors)[x] <= 1
    {
      KeysHoldingNonEmpty(s.sensors, x);
      if SensorsKeyedById(s) {
        KeysHoldingOfKeyedMap(s.sensors, (y: Sensor) => y.sensorId, x);
      }
    }
    r := Ok(sensors);
  }

  /**
    POST /api/readings. Missing fields are reported first, then an unknown
    sensor, then a timestamp that does not parse; on every error nothing
    changes. Otherwise exactly one reading is appended at the end.
   */
  function AddReading(s: Store, p: ReadingPayload, parse: TimestampParser, now: LocalDateTime): (out: Step)
    ensures out.response.Created? <==>
      p.IsComplete() && p.sensorId.value in s.sensors && parse(p.timestamp.value).Some?
    ensures !p.IsComplete() ==> out.response == BadRequest(MissingFields) && out.store == s
    ensures p.IsComplete() && p.sensorId.value !in s.sensors ==>
      out.response == NotFound(SensorNotFound) && out.store == s
    ensures p.IsComplete() && p.sensorId.value in s.sensors && parse(p.timestamp.value).None? ==>
      out.response == BadRequest(InvalidTimestamp) && out.store == s
    ensures p.IsComplete() && p.sensorId.value in s.sensors && parse(p.timestamp.value).Some? ==>
      && out.response == Created(ReadingAdded, None)
      && AppendsOne(s.readings, out.store.readings,
                    Reading(p.sensorId.value, parse(p.timestamp.value).value, p.value.value, p.unit.value, now))
      && out.store.farms == s.farms
      && out.store.sensors == s.sensors
  {
    if !p.IsComplete() then
      Step(BadRequest(MissingFields), s)
    else if p.sensorId.value !in s.sensors then
      Step(NotFound(SensorNotFound), s)
    else
      match parse(p.timestamp.value)
      case None => Step(BadRequest(InvalidTimestamp), s)
      case Some(timestamp) =>
        var reading := Reading(p.sensorId.value, timestamp, p.value.value, p.unit.value, now);
        Step(Created(ReadingAdded, None), s.(readings := s.readings + [reading]))
  }
}
