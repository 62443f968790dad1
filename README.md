# Car-maintenance register, modelled in Dafny

This project models the domain layer of a small car-maintenance register. Users
register cars by plate number. The register enriches each car with make, model,
year and colour from the Norwegian vehicle registry, asks a language model for
maintenance suggestions, and keeps a list of maintenance tasks per car.

The parts modelled:

- **The tRPC router** (`router.dfy`, module `AppRouter`). A `Store` class holds the cars,
  task-suggestion and task tables as sequences in insertion order, plus the next
  auto-increment id of each. Each procedure is a method with a `modifies` clause naming
  the fields it writes.
  - Input-schema failures are `InvalidInput`. A thrown `Error` is `Thrown(message)`,
    with the procedure's Norwegian message.
  - The class invariant `Valid` has three parts. Ids start at 1 and strictly increase in
    insertion order. No two tasks of a car share a title. Every stored suggestion meets
    the generator's item schema.
  - Row selection and deletion are the `Keep`/`Where`/`WhereNot` functions of `rows.dfy`.
- **The suggestion generator** (`ai.dfy`). The schema of an item and of the whole answer
  are predicates. The model call is an input `GenerationOutcome`: it failed, or it
  returned a list of raw task objects. The result is the mapped answer when the whole
  answer passes the schema, and the fixed three-item list otherwise.
- **The vehicle-registry client** (`vegvesen.dfy`).
  - The plate is normalised (upper-cased, then trimmed) and put into the lookup URL.
  - The HTTP request is an input `lookup: string -> FetchOutcome`.
  - The vehicle entry is chosen from the answer (`kjoretoy?.[0] ?? data`).
  - Each field falls back to `"UKJENT"`, and the year to 0.
  - Every failure becomes the single `VegvesenApiError` with one fixed message.
- **The input validators** (`validators.dfy`).
  - The plate pattern `^[A-Za-z]{2}[0-9]{5}$` is an anchored sequence of character-class
    terms.
  - The task form's field bounds produce a list of issues, one per failed check.
- **The dashboard figures** (`dashboard.dfy`): the number of tasks, the completed and
  in-progress counts, the total estimated minutes, and the rounded average.
  `Math.round(t / n)` is characterised exactly by `2nr - n <= 2t < 2nr + n`.
- **The JavaScript built-ins these rely on** (`jstext.dfy`): `toUpperCase`, `trim` and
  `parseInt`.
  - `parseInt` covers leading white space, a sign, the `0x` prefix, the longest digit
    run, and NaN when there is no digit.
  - The white-space set is ECMAScript's WhiteSpace and LineTerminator.
- **Client code** (`scenario.dfy`). It drives the router through a short session:
  register "AB12345" while the registry is down, generate suggestions while the
  model is down, create a task from the first suggestion, complete it, and delete
  it twice. It also shows that a duplicate title is refused on the same car and
  accepted on another, and that a task can be reopened.

Where the code is looser than one might expect, the model keeps it as written:

- The generator can return an empty list when the model answers with no tasks. The array
  schema has no minimum length.
- `updateTaskStatus` takes an explicit `completed` override. With the override,
  `completed` can disagree with the status.
- The plate pattern accepts lower-case letters. The server itself only requires a
  non-empty plate and never rejects a duplicate plate.
- The server's `createTask` accepts any integer time, zero and negative included. Only
  the client form demands a positive one.
- The list procedures reject a non-positive car id through their input schema.

## Model

| member | source | states |
|---|---|---|
| AppRouter.Store.GetCars | server/routers/_app.ts:10-12 | returns the whole cars table |
| AppRouter.Store.GetCarById | server/routers/_app.ts:14-26 | a non-positive id is rejected by the schema; otherwise the result is a car of the table with that id, and the failure "Bil ikke funnet" happens exactly when no car has it |
| AppRouter.Store.CreateCar | server/routers/_app.ts:28-61 | an empty plate is rejected; otherwise exactly one car is appended under the next id, with the plate upper-cased; its make, model, year and colour are the registry's when the lookup of that plate succeeds, and "UKJENT", "UKJENT", 0, "UKJENT" when it fails; creation succeeds either way and no duplicate check is made; the invariant is kept |
| AppRouter.Store.DeleteCar | server/routers/_app.ts:63-74 | removes exactly the cars with the id (one when present, leaving one row fewer); "Bil ikke funnet" and an unchanged table when none has it; the tasks and suggestions tables are left as they were (no cascade) |
| AppRouter.Store.GetTaskSuggestions | server/routers/_app.ts:77-84 | returns, in table order, exactly the suggestions whose car id is the given one |
| AppRouter.Store.FetchAISuggestions | server/routers/_app.ts:86-117 | fails with "Bil ikke funnet" and changes nothing when the car is absent; otherwise appends and returns one row per generated suggestion, in order, with consecutive fresh ids, the car's id, and title, description and time copied; stored suggestions keep meeting the item schema |
| AppRouter.Store.GetTasks | server/routers/_app.ts:120-127 | returns, in table order, exactly the tasks whose car id is the given one |
| AppRouter.Store.DeleteSuggestionTask | server/routers/_app.ts:130-141 | removes exactly the suggestion with the id; "Oppgave forslag ikke funnet" and an unchanged table when none has it |
| AppRouter.Store.CreateTask | server/routers/_app.ts:143-183 | invalid input is rejected; a title the car already has a task with fails with the duplicate-title message and changes nothing; otherwise appends a task under the next id that is pending, not completed, with the given description, time and suggestion id; no two tasks of a car ever share a title, and agreement of `completed` with the status is kept |
| AppRouter.Store.UpdateTaskStatus | server/routers/_app.ts:185-208 | the new table is the old one with the status and flag of the task with the id replaced, the flag being the override or else "status is completed"; returns that task, or "Oppgave ikke funnet" with the table unchanged when no task has the id; without an override, agreement of the flag with the status is kept |
| AppRouter.Store.DeleteTask | server/routers/_app.ts:210-221 | removes exactly the task with the id; "Oppgave ikke funnet" and an unchanged table when none has it |
| AppRouter.WithStatus | server/routers/_app.ts:194-200 | the table keeps its length and every row its id, car and title; rows without the id are unchanged; rows with the id get the new status and flag |
| AppRouter.WithStatusChangesOnlyTarget | server/routers/_app.ts:194-200 | the update changes only the rows with the id, and of those only status and completed |
| AppRouter.WithStatusSets | server/routers/_app.ts:194-201 | after the update the row with the id carries the new status and flag, and a row with the id exists exactly when one existed before |
| AppRouter.WithStatusOfAbsent | server/routers/_app.ts:194-205 | an update that matches no row leaves the table unchanged |
| AppRouter.UpdatedRows | server/routers/_app.ts:194-205 | the returned rows are empty exactly when no task had the id (and then nothing changed); otherwise the first carries the id, the status and the flag |
| AppRouter.WithStatusKeepsKeys | server/routers/_app.ts:194-200 | the update keeps task ids and per-car title uniqueness |
| AppRouter.WithStatusKeepsAgreement | server/routers/_app.ts:198 | without an override, every task's `completed` still agrees with its status |
| AppRouter.SuggestionRows | server/routers/_app.ts:104-114 | one row per suggestion, in order, for the given car, with the suggestion's fields; ids are handed out consecutively from the next id, so they increase |
| AppRouter.AppendSuggestionRows | server/routers/_app.ts:104-114 | the bulk insert keeps suggestion ids fresh and increasing and every stored suggestion within the item schema |
| AppRouter.StoredPlateIsLookedUpPlate | server/routers/_app.ts:35-45 | for a plate the form accepts, the upper-cased plate that is stored is exactly the plate the registry lookup uses |
| Rows.Keep | server/routers/_app.ts:17-21 | a row is selected exactly when it is in the table and its key matches (or, for the complement, does not) |
| Rows.Where | server/routers/_app.ts:17-21 | the selected rows are exactly the rows of the table whose key is the given one |
| Rows.WhereNot | server/routers/_app.ts:66-69 | what a delete leaves is exactly the rows of the table whose key is not the given one |
| Rows.KeepSplits | server/routers/_app.ts:66-69 | the deleted rows and the remaining rows together are as many as the table had |
| Rows.WhereNotOfAbsent | server/routers/_app.ts:66-73 | a delete that matches no row returns nothing and leaves the table unchanged |
| Rows.WhereNotRemovesOne | server/routers/_app.ts:66-73 | with increasing ids, deleting a present id returns one row and leaves one row fewer |
| Rows.KeepIncreasing | server/routers/_app.ts:66-69 | deleting rows keeps the ids increasing |
| Rows.KeepDistinct | server/routers/_app.ts:213-216 | deleting tasks keeps the per-car titles distinct |
| Rows.KeepIdTable | server/routers/_app.ts:66-69 | deleting rows keeps ids positive, increasing and below the next id |
| Rows.AppendIdTable | server/routers/_app.ts:50-59 | appending rows with fresh increasing ids keeps the id invariant |
| Rows.AppendIncreasing | server/routers/_app.ts:50-59 | appending rows whose ids exceed all present ids keeps the ids increasing |
| Rows.AppendDistinct | server/routers/_app.ts:154-180 | appending a task whose car and title no task has keeps them distinct |
| Walkthrough.RegisterWhileRegistryIsDown | server/routers/_app.ts:28-61 | registering "AB12345" with the registry down stores car 1 with that plate and the placeholders |
| Walkthrough.RegisterWithoutServices | server/routers/_app.ts:86-117 | after that, generating with the model down stores the three fallback suggestions under car 1, with ids 1 to 3 |
| Walkthrough.RegisterAndCompleteFallbackTask | server/routers/_app.ts:143-221 | a task made from the first fallback suggestion is pending, not completed, with time 10; completing it sets the flag; the second delete fails with "Oppgave ikke funnet" |
| Walkthrough.DuplicateTitleRefused | server/routers/_app.ts:154-167 | a title is refused a second time on the same car |
| Walkthrough.TitleIsPerCar | server/routers/_app.ts:154-167 | the same title is accepted on another car, as task 2 |
| Walkthrough.ReopenTask | server/routers/_app.ts:194-201 | without an override, completing sets the flag and moving back to pending clears it |
| SuggestionGenerator.ToSuggestion | server/services/ai.ts:57-61 | a valid item maps to a suggestion with title, description and time copied, which still meets the schema |
| SuggestionGenerator.ItemSchema | server/services/ai.ts:11-15 | an accepted item's time is a positive integer, hence at least 1 |
| SuggestionGenerator.ResponseSchema | server/services/ai.ts:17-19 | an answer is accepted exactly when every item meets the item schema; the empty list is accepted, as the array has no minimum length |
| SuggestionGenerator.Generate | server/services/ai.ts:36-70 | an answer that passes the schema gives one suggestion per item, same order, fields copied; any other outcome gives exactly the fallback list; every result meets the item schema |
| SuggestionGenerator.FallbackMeetsSchema | server/services/ai.ts:64-68 | the fallback list has three items, each within the item schema |
| SuggestionGenerator.OneBadItemFallsBack | server/services/ai.ts:17-19 | one invalid item sends the whole answer to the fallback |
| SuggestionGenerator.FallbackIsDeterministic | server/services/ai.ts:62-68 | every failure gives the same list: "Oljeskift og filterbytte"/10, "Bremsesjekk"/20, "Dekk og hjulstilling"/200 |
| SuggestionGenerator.EmptyAnswerGivesNoSuggestions | server/services/ai.ts:17-19 | an accepted empty answer gives an empty list |
| VehicleRegistry.NormalisePlate | server/services/vegvesen.ts:7 | the normalised plate is no longer than the input, has no white space at either end and no lower-case ASCII letter |
| VehicleRegistry.LookupUrl | server/services/vegvesen.ts:9 | the URL is the configured route, one slash, then the plate |
| VehicleRegistry.LookupUrlInjective | server/services/vegvesen.ts:9 | different plates are looked up at different URLs |
| VehicleRegistry.NormalisePlateIdempotent | server/services/vegvesen.ts:7 | normalising a normalised plate changes nothing |
| VehicleRegistry.SelectVehicle | server/services/vegvesen.ts:25-28 | no vehicle exactly when the body is null; the first `kjoretoy` entry when present, the body itself otherwise |
| VehicleRegistry.OrUnknown | server/services/vegvesen.ts:31-34 | a present non-empty value is kept, anything else becomes "UKJENT"; the result is never empty |
| VehicleRegistry.YearOf | server/services/vegvesen.ts:33 | a missing or empty date gives year 0; a present date that parses to a number has something other than white space in it |
| VehicleRegistry.YearOfRegistration | server/services/vegvesen.ts:33 | a missing or empty date gives 0; a date starting "YYYY-" gives that year |
| VehicleRegistry.ReadVehicle | server/services/vegvesen.ts:30-35 | a record exists exactly when the technical, body and registration blocks are present; its make, model and colour are the entry's `merke`, `handelsbetegnelse` and `farge`, each falling back to "UKJENT" (so never empty), and its year is the parsed first-registration date |
| VehicleRegistry.Interpret | server/services/vegvesen.ts:19-28 | a record only from an ok status with a non-null JSON body, and then the record read from the chosen entry |
| VehicleRegistry.FetchVehicle | server/services/vegvesen.ts:6-46 | the normalised plate is looked up; success exactly when the answer yields a record, and then the result is that record, whose text fields are non-empty; every failure is the one error with the fixed message |
| VehicleRegistry.FetchVehicleSeesNormalisedPlate | server/services/vegvesen.ts:7-9 | plates equal after upper-casing and trimming give the same outcome |
| VehicleRegistry.TransportFailuresFail | server/services/vegvesen.ts:19-21 | a network error, a non-ok status, an unparsable body or a null body all end in the single error |
| VehicleRegistry.FirstEntryRead | server/services/vegvesen.ts:25-35 | an answer whose first entry is complete gives that entry's attributes with the fallbacks applied |
| Validators.MatchesWhole | validators/validators.ts:3 | a string matched by an anchored pattern has exactly as many characters as the pattern's terms require |
| Validators.RegNrSchema | validators/validators.ts:3 | an accepted plate has exactly seven characters |
| Validators.RegNrSchemaIsPlate | validators/validators.ts:3 | the pattern accepts exactly the 7-character strings of two ASCII letters then five ASCII digits |
| Validators.PlateHasNoSurroundingWhiteSpace | validators/validators.ts:3 | an accepted plate has no white space at either end, so trimming it changes nothing |
| Validators.UpperCasedPlate | validators/validators.ts:3 | an accepted plate, upper-cased, is two upper-case letters and five digits and is still accepted |
| Validators.RegNrSchemaIgnoresCase | validators/validators.ts:3 | the pattern accepts the upper-cased string exactly when it accepts the string |
| Validators.LengthIssues | validators/validators.ts:7 | a string field has no issue exactly when its length is within the bounds, and every issue names the field |
| Validators.TimeIssues | validators/validators.ts:8 | the time has no issue exactly when it is a positive integer |
| Validators.TaskFormIssues | validators/validators.ts:6-10 | an issue is reported for the title exactly when its length is outside 1..100, for the time exactly when it is not a positive integer, for the description exactly when its length is outside 1..400; no issue exactly when all three hold |
| Validators.CustomMessage | validators/validators.ts:7-9 | title and description issues carry their own message; time issues carry none |
| JsText.ToUpperChar | server/routers/_app.ts:35 | a lower-case ASCII letter maps to its upper case; every other character is kept |
| JsText.ToUpperCase | server/routers/_app.ts:35 | same length, each character upper-cased |
| JsText.ToUpperCaseIdempotent | server/services/vegvesen.ts:7 | upper-casing twice is upper-casing once |
| JsText.ToUpperCaseCharsAreUpper | server/services/vegvesen.ts:7 | every character of an upper-cased string is its own upper case |
| JsText.ToUpperCaseOfUpper | server/services/vegvesen.ts:7 | a string of characters that are their own upper case is unchanged by upper-casing |
| JsText.ToUpperCharKeepsWhiteSpace | server/services/vegvesen.ts:7 | upper-casing neither makes nor removes white space |
| JsText.TrimStart | server/services/vegvesen.ts:7 | the result is a suffix that does not start with white space, and everything dropped is white space |
| JsText.TrimEnd | server/services/vegvesen.ts:7 | the result is a prefix that does not end with white space, and everything dropped is white space |
| JsText.TrimKeepsTrimmed | server/services/vegvesen.ts:7 | a string with no white space at either end is its own trim |
| JsText.TrimFixedPointIsTrimmed | server/services/vegvesen.ts:7 | a string that is its own trim has no white space at either end |
| JsText.TrimKeepsChars | server/services/vegvesen.ts:7 | trimming only drops characters |
| JsText.Trim | server/services/vegvesen.ts:7 | the trim is the longest prefix of the start-trimmed string that does not end with white space; it neither starts nor ends with white space |
| JsText.TrimIdempotent | server/services/vegvesen.ts:7 | trimming twice is trimming once |
| JsText.DigitValue | server/services/vegvesen.ts:33 | a character is a decimal digit exactly when its value is below 10, and then the value is the digit |
| JsText.DigitPrefix | server/services/vegvesen.ts:33 | the longest prefix of digits of the radix |
| JsText.ParseInt | server/services/vegvesen.ts:33 | an empty or all-white-space string is NaN; after the leading white space, a decimal digit (not a "0x" prefix) starts a number whose value is that of the digit run |
| JsText.ParseIntLeadingDigits | server/services/vegvesen.ts:33 | a string starting with a decimal digit (not hexadecimal) parses to the value of its leading digit run |
| JsText.ParseIntNoDigits | server/services/vegvesen.ts:33 | a string starting with no white space, sign or digit parses to NaN |
| JsText.FourDigitValue | server/services/vegvesen.ts:33 | four digits read as a year lie in 0..9999 |
| JsText.ParseIntOfIsoDate | server/services/vegvesen.ts:33 | a "YYYY-MM-DD" date parses to its four-digit year |
| TaskDashboard.CountWithStatus | components/ui/TaskDashboard.tsx:14-15 | the count is at most the number of tasks, and 0 exactly when no task has the status |
| TaskDashboard.RoundedQuotient | components/ui/TaskDashboard.tsx:18 | the result is the integer nearest to the quotient, halves rounded up |
| TaskDashboard.Minutes | components/ui/TaskDashboard.tsx:17 | a missing estimate counts as 0, a present one as itself |
| TaskDashboard.TotalEstimatedTime | components/ui/TaskDashboard.tsx:17 | non-negative estimates give a non-negative total; a list without estimates totals 0 |
| TaskDashboard.AverageTime | components/ui/TaskDashboard.tsx:18 | 0 for no tasks; otherwise the integer nearest to total / count, halves rounded up |
| TaskDashboard.Summarize | components/ui/TaskDashboard.tsx:12-18 | the total is the number of tasks; completed plus in progress is at most the total; an empty list shows 0 for the total time and the average; otherwise the average is the rounded quotient; the counts, the total and the average are those of `CountWithStatus`, `TotalEstimatedTime` and `AverageTime` |
| TaskDashboard.StatusCountsPartition | components/ui/TaskDashboard.tsx:14-15 | pending, in-progress and completed counts add up to the number of tasks |
| TaskDashboard.FiguresOfConcat | components/ui/TaskDashboard.tsx:14-17 | the counts and the total time of two lists together are the sums of each |
| TaskDashboard.TotalWithinBounds | components/ui/TaskDashboard.tsx:17 | with every estimate in [lo, hi], the total lies in [n lo, n hi] |
| TaskDashboard.RoundedQuotientWithin | components/ui/TaskDashboard.tsx:18 | rounding a quotient within [lo, hi] stays within [lo, hi] |
| TaskDashboard.AverageWithinBounds | components/ui/TaskDashboard.tsx:18 | with every estimate in [lo, hi], the average lies in [lo, hi] |
| TaskDashboard.AverageOfNoTasks | components/ui/TaskDashboard.tsx:18 | the average of no tasks is 0 |

## Left out

- The HTTP request to the registry and its JSON parsing. The request is the `lookup` parameter; the parsed body is a datatype holding only the fields the client reads.
- A `kjoretoy` element or block that is not an object (a string, say) is not modelled. Nor is the timeout of the request.
- The language-model call, its prompt text and the model name. The call is the `GenerationOutcome` parameter of `Generate` and `FetchAISuggestions`.
- Logging (`console.warn`/`console.error`). It has no effect on results.
- Floating point: the completed and in-progress percentages of the dashboard (lines 20-21), and numbers beyond 2^53. Integers are unbounded here.
- `Number.isInteger` is modelled on reals, for the item schema's and the form's `time`. The router's numeric inputs are integers, so zod's rejection of a fractional id is not modelled.
- Creation timestamps the database adds to cars and tasks.
- Database behaviour the visible code does not show:
  - any unique or foreign-key constraint;
  - the driver's error on a bulk insert of zero rows (an accepted empty answer inserts nothing here);
  - storing a NaN year in an integer column;
  - the order of an unordered `select`, which is taken as insertion order.
- Concurrency: the race between the duplicate-title check and the insert in `createTask`, and last-writer-wins status updates. Each procedure is modelled as atomic.
- JsText.ToUpperCase: upper-cases ASCII letters only. JavaScript's full Unicode case mapping, under which some characters change length (such as 'ß' to "SS"), is not modelled.
- JsText.ToUpperChar: maps 'a' to 'z' only. JavaScript also upper-cases letters such as 'æ', 'ø' and 'å', and `createCar` accepts such plates (it only requires a non-empty string), so a stored plate with them keeps the lower-case letters here.
- String lengths are counted in characters, not in the UTF-16 code units zod and JavaScript count. The two differ only for characters outside the Basic Multilingual Plane.
- Pages and components other than the dashboard's figures are rendering and event wiring.
