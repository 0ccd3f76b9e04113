# Digital farming registry — Dafny model

This project models the in-memory registry behind the digital farming REST
controller (`DigitalFarmingController`). The controller keeps three pieces of
state: a map of farms by identifier, a map of sensors by identifier, and an
append-only list of readings. It offers seven handlers:

- create a farm;
- get one farm;
- list all farms;
- register a sensor on a farm;
- get one sensor;
- list the sensors of a farm;
- add a reading for a sensor.

Each of the three creating handlers (createFarm, registerSensor, addReading)
first checks that the required fields are present. registerSensor and
addReading then check that the referenced farm or sensor exists, and
addReading also checks that its timestamp parses. Only after all of that does
a handler change anything.

The model is functional. `Registry.Store` is an immutable record holding two
maps and a sequence. Each mutating handler is a pure function from a store
and a typed payload to a `Controller.Step`, which pairs the HTTP outcome with
the next store. The queries return a `Http.Response` and no store, so by
their type they cannot change anything. `Registry.Valid` is the invariant
that every reachable store keeps:

- farms and sensors are stored under their own identifiers;
- every sensor names a stored farm;
- every reading names a stored sensor.

Modules, one per concern of the source file:

- `Wrappers`: the `Option` type, standing in for nullable payload fields.
- `Entities`: `Farm`, `Sensor` and `Reading`. Their datatype constructors
  play the part of the Java constructors. The generated id and the clock
  reading are passed in as arguments.
- `Http`: the `Created`, `Ok`, `BadRequest` and `NotFound` outcomes, their
  status codes, and the exact message texts.
- `Registry`: the store, its invariant, and the "only adds" relation
  `Extends`.
- `Enumeration`: listing the values of a map in an unspecified order, the way
  `HashMap.values()` does.
- `Controller`: the seven handlers.
- `RegistryProperties`: lemmas that relate several calls.

Things the model takes as parameters:

- Generated UUIDs become a `freshId` argument. The handler requires that this
  id is not already a key of the map it goes into.
- `LocalDateTime.now()` becomes a `now` argument.
- `OffsetDateTime.parse(..., ISO_OFFSET_DATE_TIME)` becomes a
  `parse: string -> Option<OffsetDateTime>` argument. It returns `None` where
  the Java call throws.

createFarm only checks that name, location and size are non-null
(digifarm.java:160), so an empty name and a zero or negative size are
accepted.

## Model

| member | source | states |
|---|---|---|
| Controller.CreateFarm | digifarm.java:154-167 | a request missing name, location or size gets BadRequest("Missing required fields") and the store is unchanged; any other request gets Created with the fresh id, adds exactly one farm under that id holding the given fields and the clock value, keeps every old farm, grows the farm count by one, and leaves sensors and readings unchanged |
| Controller.GetFarm | digifarm.java:169-175 | NotFound("Farm not found") exactly when the id is not a key of `farms`, otherwise Ok with the stored farm |
| Controller.ListFarms | digifarm.java:177-180 | Ok with a list that holds each stored farm once per key holding it, so its length is the number of farms and its elements are exactly the map's values; when farms are stored under their own ids, no farm appears twice |
| Controller.RegisterSensor | digifarm.java:184-201 | missing fields give BadRequest even when the farm is unknown; complete fields naming an unknown farm give NotFound("Farm not found"); on both errors the store is unchanged; succeeds exactly when the fields are complete and the farm exists, and then adds exactly one sensor under the fresh id with the given farm, type and location, leaving farms and readings unchanged |
| Controller.GetSensor | digifarm.java:203-209 | NotFound("Sensor not found") exactly when the id is not a key of `sensors`, otherwise Ok with the stored sensor |
| Controller.GetFarmSensors | digifarm.java:211-217 | always Ok; the list holds exactly the stored sensors whose farm id equals the argument, each once per key holding it; it is empty for an unknown farm when the store is valid, and has no duplicates when sensors are stored under their own ids |
| Controller.AddReading | digifarm.java:221-244 | error precedence is missing fields (BadRequest), then unknown sensor (NotFound), then an unparsable timestamp (BadRequest with the ISO 8601 hint); every error leaves the store unchanged; it succeeds exactly when none applies, and then appends exactly one reading at the end, keeping the old readings as a prefix |
| Enumeration.FilterValues | digifarm.java:213-215 | the result holds each map value that the filter accepts once per key holding it, and no other value; its length is the number of accepted keys |
| Registry.EmptyIsValid | digifarm.java:148-150 | the empty initial store satisfies the invariant |
| RegistryProperties.CreateFarmPreservesValid | digifarm.java:164-165 | creating a farm keeps the store invariant |
| RegistryProperties.RegisterSensorPreservesValid | digifarm.java:194-199 | registering a sensor keeps the invariant, in particular that every sensor's farm is stored |
| RegistryProperties.AddReadingPreservesValid | digifarm.java:232-239 | adding a reading keeps the invariant, in particular that every reading's sensor is stored |
| RegistryProperties.CreateFarmOnlyExtends | digifarm.java:164-165 | creating a farm removes or replaces no farm, sensor or reading |
| RegistryProperties.RegisterSensorOnlyExtends | digifarm.java:198-199 | registering a sensor removes or replaces no farm, sensor or reading |
| RegistryProperties.AddReadingOnlyExtends | digifarm.java:238-239 | adding a reading removes or replaces nothing; the old readings are a prefix of the new ones |
| RegistryProperties.CreateThenGetFarm | digifarm.java:164-174 | right after a successful create, getFarm on the new id returns the created record, and getFarm on every other id answers as before |
| RegistryProperties.RegisterThenGetSensor | digifarm.java:198-208 | right after a successful register, getSensor on the new id returns the registered record, and getSensor on every other id answers as before |
| RegistryProperties.RegisteredSensorIsListed | digifarm.java:198-215 | a registered sensor joins the sensors of its own farm, and the sensors of every other farm stay the same |
| RegistryProperties.RepeatedCreateFarmIsNotIdempotent | digifarm.java:38-44 | the second of two identical create requests needs an id fresh for the store the first left behind, so that id differs from the first one; both farms are stored and the farm count grows by two; nothing is deduplicated |
| RegistryProperties.EndToEndScenario | digifarm.java:154-244 | from an empty store: create farm "Acme", register a "soil-moisture" sensor on it, and add a reading with timestamp 2023-10-27T10:00:00+00:00; provided the parser accepts the example timestamp, each step answers 201, the farm's sensors are exactly the registered one, there is one reading, and the store is valid |

## Left out

- Spring Boot wiring, `main`, request routing and JSON (de)serialisation (digifarm.java:20-27, 144-145). These are framework plumbing; payloads are typed records whose fields are `Option`s.
- UUID generation (digifarm.java:39, 76). It is random, so it is a `freshId` parameter with a precondition that the id is new. A colliding UUID that would overwrite an entry is therefore not modelled.
- `LocalDateTime.now()` (digifarm.java:43, 80, 117). This is clock I/O, so it is a `now` parameter.
- The internals of `OffsetDateTime.parse` with `ISO_OFFSET_DATE_TIME` (digifarm.java:237). That is a JDK library parser, so the model takes the parser as a parameter. The model observes whether parsing succeeds and stores the parsed value in the reading unchanged; it never looks inside that value.
- Java `double` for size and value (digifarm.java:35, 108). No arithmetic is done on them, so they are an opaque `real` synonym. NaN and infinities are not distinguished.
- `ClassCastException` from the `(String)` and `(Double)` payload casts (digifarm.java:156-158, 186-188, 223-226). This is dynamic-typing behaviour; a payload field is either present with the right type or absent.
- Concurrent requests on the unsynchronised `HashMap` and `ArrayList`. The model assumes a single writer.
- The iteration order of `HashMap.values()` (digifarm.java:179, 213). It is unspecified, so the list operations are stated by how often each value occurs in the result, not by its order.
- The getters of the entity classes (digifarm.java:46-139). They are the datatype fields.
