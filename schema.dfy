/**
 * The rows of the three tables the router reads and writes: cars, task
 * suggestions and tasks. The creation timestamps the database adds are not
 * part of this model.
 */
module Schema {
  import opened Wrappers
  import opened JsText

  /** `TaskStatus`: pending, in_progress, completed. Any status may follow any other. */
  datatype TaskStatus = Pending | InProgress | Completed

  /** A registered car; `year` is whatever the registry lookup produced, possibly NaN. */
  datatype Car = Car(id: int, regNr: string, make: string, model: string, year: ParsedInt, color: string)

  /** A generated maintenance suggestion for a car. */
  datatype SuggestionRow = SuggestionRow(id: int, carId: int, title: string, description: Option<string>, timeUse: int)

  /** A maintenance task; `completed` is stored beside `status`, not computed from it. */
  datatype Task = Task(
    id: int,
    carId: int,
    title: string,
    description: Option<string>,
    estimatedTimeMinutes: int,
    suggestionId: Option<int>,
    status: TaskStatus,
    completed: bool)
}
