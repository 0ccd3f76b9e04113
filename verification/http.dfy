/** The HTTP outcomes the controller produces, and the texts it puts in them. */
module Http {
  import opened Wrappers

  /**
    `Created` carries the confirmation message and, for farms and sensors, the
    new identifier; `Ok` carries the body of a query; the two error outcomes
    carry the text of the `error` field.
   */
  datatype Response<+T> =
    | Created(message: string, id: Option<string>)
    | Ok(value: T)
    | BadRequest(error: string)
    | NotFound(error: string)
  {
    /** The status code Spring sends for this outcome. */
    function StatusCode(): int {
      match this
      case Created(_, _) => 201
      case Ok(_) => 200
      case BadRequest(_) => 400
      case NotFound(_) => 404
    }
  }

  const MissingFields := "Missing required fields"
  const FarmNotFound := "Farm not found"
  const SensorNotFound := "Sensor not found"
  const InvalidTimestamp := "Invalid timestamp format. Use ISO 8601 format (e.g., 2023-10-27T10:00:00+00:00)"

  const FarmCreated := "Farm created successfully"
  const SensorRegistered := "Sensor registered successfully"
  const ReadingAdded := "Reading added successfully"
}
