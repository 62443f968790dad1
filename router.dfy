/**
 * The tRPC router of the register over its three tables: cars, task
 * suggestions and tasks. The database is a store holding each table as a
 * sequence in insertion order, with the next auto-increment id of each.
 * Input validation by the procedure schemas fails with `InvalidInput`; the
 * errors the procedures throw carry their Norwegian messages. The registry
 * request and the language-model call are inputs of the procedures that use
 * them.
 */
module AppRouter {
  import opened Wrappers
  import opened JsText
  import opened Schema
  import opened Rows
  import SG = SuggestionGenerator
  import VR = VehicleRegistry
  import Validators

  /** How a procedure fails: its input schema rejected the input, or it threw an `Error` with a message. */
  datatype ApiError = InvalidInput | Thrown(message: string)

  const CarNotFound: string := "Bil ikke funnet"
  const SuggestionNotFound: string := "Oppgave forslag ikke funnet"
  const TaskNotFound: string := "Oppgave ikke funnet"
  const DuplicateTitle: string := "Oppgave med samme tittel finnes allerede for denne bilen."

  /** The vehicle data a car is stored with when the registry lookup fails. */
  const FallbackVehicle: VR.VehicleData := VR.VehicleData(VR.Unknown, VR.Unknown, Number(0), VR.Unknown)

  // The columns the queries filter on.
  function CarId(c: Car): int { c.id }
  function SuggestionId(s: SuggestionRow): int { s.id }
  function SuggestionCarId(s: SuggestionRow): int { s.carId }
  function TaskId(t: Task): int { t.id }
  function TaskCarId(t: Task): int { t.carId }
  function CarTitle(t: Task): (int, string) { (t.carId, t.title) }

  /** A stored suggestion still meets the item schema of the generator. */
  predicate SuggestionMeetsSchema(s: SuggestionRow) {
    SG.SuggestionSchema(SG.TaskSuggestion(s.title, s.description, s.timeUse))
  }

  /** The input schema of `createTask`: a positive car id, a non-empty title, a positive suggestion id when one is given. */
  predicate TaskInputValid(carId: int, title: string, suggestionId: Option<int>) {
    carId > 0 && |title| >= 1 && (suggestionId.None? || suggestionId.value > 0)
  }

  /** The rows of the bulk insert of `fetchAISuggestions`: one per suggestion, in order, ids handed out from `firstId`. */
  function SuggestionRows(carId: int, firstId: int, suggestions: seq<SG.TaskSuggestion>): (r: seq<SuggestionRow>)
    ensures |r| == |suggestions|
    ensures forall i, j :: 0 <= i < j < |r| ==> r[i].id < r[j].id
    ensures forall i :: 0 <= i < |r| ==>
      && firstId <= r[i].id < firstId + |suggestions| && r[i].carId == carId
      && r[i].title == suggestions[i].title && r[i].description == suggestions[i].description
      && r[i].timeUse == suggestions[i].timeUse
  {
    seq(|suggestions|, i requires 0 <= i < |suggestions| =>
      SuggestionRow(firstId + i, carId, suggestions[i].title, suggestions[i].description, suggestions[i].timeUse))
  }

  /** The bulk insert keeps the suggestions an id table of rows that meet the schema. */
  lemma AppendSuggestionRows(rows: seq<SuggestionRow>, next: int, carId: int, suggestions: seq<SG.TaskSuggestion>)
    requires IdTable(rows, SuggestionId, next) && forall s :: s in rows ==> SuggestionMeetsSchema(s)
    requires forall i :: 0 <= i < |suggestions| ==> SG.SuggestionSchema(suggestions[i])
    ensures var all := rows + SuggestionRows(carId, next, suggestions);
      && IdTable(all, SuggestionId, next + |suggestions|)
      && forall s :: s in all ==> SuggestionMeetsSchema(s)
  {
    var inserted := SuggestionRows(carId, next, suggestions);
    AppendIdTable(rows, inserted, SuggestionId, next, next + |inserted|);
    forall s | s in inserted ensures SuggestionMeetsSchema(s) {
      var i :| 0 <= i < |inserted| && inserted[i] == s;
      assert SG.SuggestionSchema(suggestions[i]);
    }
  }

  /** The `update ... set status, completed where id = id` of `updateTaskStatus`. */
  function WithStatus(rows: seq<Task>, id: int, status: TaskStatus, completed: bool): (r: seq<Task>)
    ensures |r| == |rows|
    ensures forall i :: 0 <= i < |rows| ==>
      && r[i].id == rows[i].id && r[i].carId == rows[i].carId && r[i].title == rows[i].title
      && (rows[i].id != id ==> r[i] == rows[i])
      && (rows[i].id == id ==> r[i].status == status && r[i].completed == completed)
  {
    seq(|rows|, i requires 0 <= i < |rows| =>
      if rows[i].id == id then rows[i].(status := status, completed := completed) else rows[i])
  }

  /** The update changes only the rows with the id, and of those only the status and the flag. */
  lemma WithStatusChangesOnlyTarget(rows: seq<Task>, id: int, status: TaskStatus, completed: bool)
    ensures var r := WithStatus(rows, id, status, completed);
      && |r| == |rows|
      && forall i :: 0 <= i < |rows| ==>
        && (rows[i].id != id ==> r[i] == rows[i])
        && (rows[i].id == id ==> r[i].status == status && r[i].completed == completed
                                 && r[i].(status := rows[i].status, completed := rows[i].completed) == rows[i])
  {
  }

  /** The update touches no id, car or title, so the table keeps its ids and its distinct titles. */
  lemma WithStatusKeepsKeys(rows: seq<Task>, id: int, status: TaskStatus, completed: bool, next: int)
    requires IdTable(rows, TaskId, next) && DistinctBy(rows, CarTitle)
    ensures var r := WithStatus(rows, id, status, completed); IdTable(r, TaskId, next) && DistinctBy(r, CarTitle)
  {
    var r := WithStatus(rows, id, status, completed);
    assert forall i :: 0 <= i < |r| ==> TaskId(r[i]) == TaskId(rows[i]) && CarTitle(r[i]) == CarTitle(rows[i]);
    forall t | t in r ensures 1 <= TaskId(t) < next {
      var i :| 0 <= i < |r| && r[i] == t;
      assert rows[i] in rows;
    }
  }

  /** The task with the id, after the update, carries the new status and flag; some task has the id after exactly when before. */
  lemma WithStatusSets(rows: seq<Task>, id: int, status: TaskStatus, completed: bool)
    ensures var r := WithStatus(rows, id, status, completed);
      && (forall t :: t in r && t.id == id ==> t.status == status && t.completed == completed)
      && ((exists t :: t in r && t.id == id) <==> (exists t :: t in rows && t.id == id))
  {
    var r := WithStatus(rows, id, status, completed);
    forall t | t in r && t.id == id ensures t.status == status && t.completed == completed {
      var i :| 0 <= i < |r| && r[i] == t;
    }
    SameIds(rows, r, id);
  }

  /** Two tables with the same ids, row by row, have a row with a given id alike. */
  lemma SameIds(a: seq<Task>, b: seq<Task>, id: int)
    requires |a| == |b| && forall i :: 0 <= i < |a| ==> a[i].id == b[i].id
    ensures (exists t :: t in a && t.id == id) <==> (exists t :: t in b && t.id == id)
  {
    if exists t :: t in a && t.id == id {
      var t :| t in a && t.id == id;
      var i :| 0 <= i < |a| && a[i] == t;
      assert b[i] in b;
    }
    if exists t :: t in b && t.id == id {
      var t :| t in b && t.id == id;
      var i :| 0 <= i < |b| && b[i] == t;
      assert a[i] in a;
    }
  }

  /** An update that matches no row leaves the table as it was. */
  lemma WithStatusOfAbsent(rows: seq<Task>, id: int, status: TaskStatus, completed: bool)
    requires forall t :: t in rows ==> t.id != id
    ensures WithStatus(rows, id, status, completed) == rows
  {
    var r := WithStatus(rows, id, status, completed);
    forall i | 0 <= i < |rows| ensures r[i] == rows[i] {
      assert rows[i] in rows;
    }
  }

  /**
   * What the `returning` of the update gives: no row exactly when no task had the
   * id, and then the table is unchanged; otherwise a row with the id, the new
   * status and the new flag.
   */
  lemma UpdatedRows(rows: seq<Task>, id: int, status: TaskStatus, completed: bool)
    ensures var r := WithStatus(rows, id, status, completed); var u := Where(r, TaskId, id);
      && (|u| == 0 <==> !(exists t :: t in rows && t.id == id))
      && (|u| == 0 ==> r == rows)
      && (|u| > 0 ==> u[0] in r && u[0].id == id && u[0].status == status && u[0].completed == completed)
  {
    var r := WithStatus(rows, id, status, completed);
    var u := Where(r, TaskId, id);
    WithStatusSets(rows, id, status, completed);
    if |u| == 0 {
      WithStatusOfAbsent(rows, id, status, completed);
    } else {
      assert u[0] in u;
    }
  }

  /** Without an override, the update keeps every task's flag in agreement with its status. */
  lemma WithStatusKeepsAgreement(rows: seq<Task>, id: int, status: TaskStatus)
    requires forall t :: t in rows ==> t.completed == (t.status == Completed)
    ensures forall t :: t in WithStatus(rows, id, status, status == Completed) ==> t.completed == (t.status == Completed)
  {
    var r := WithStatus(rows, id, status, status == Completed);
    forall t | t in r ensures t.completed == (t.status == Completed) {
      var i :| 0 <= i < |r| && r[i] == t;
      assert rows[i] in rows;
    }
  }

  /** An accepted plate is looked up at the registry exactly as it is stored: upper-casing it makes trimming a no-op. */
  lemma StoredPlateIsLookedUpPlate(s: string)
    requires Validators.RegNrSchema(s)
    ensures VR.NormalisePlate(ToUpperCase(s)) == ToUpperCase(s)
  {
    var u := ToUpperCase(s);
    Validators.UpperCasedPlate(s);
    Validators.PlateHasNoSurroundingWhiteSpace(u);
    ToUpperCaseIdempotent(s);
  }

  class Store {
    var cars: seq<Car>
    var taskSuggestions: seq<SuggestionRow>
    var tasks: seq<Task>
    var nextCarId: int
    var nextSuggestionId: int
    var nextTaskId: int

    /** The invariant of the three tables. */
    ghost predicate Valid()
      reads this
    {
      CarsValid() && SuggestionsValid() && TasksValid()
    }

    /** Car ids are handed out from 1 and increase in insertion order. */
    ghost predicate CarsValid()
      reads this`cars, this`nextCarId
    {
      IdTable(cars, CarId, nextCarId)
    }

    /** Suggestion ids likewise, and every stored suggestion met the generator's schema. */
    ghost predicate SuggestionsValid()
      reads this`taskSuggestions, this`nextSuggestionId
    {
      && IdTable(taskSuggestions, SuggestionId, nextSuggestionId)
      && forall s :: s in taskSuggestions ==> SuggestionMeetsSchema(s)
    }

    /** Task ids likewise, and no two tasks of a car share a title. */
    ghost predicate TasksValid()
      reads this`tasks, this`nextTaskId
    {
      IdTable(tasks, TaskId, nextTaskId) && DistinctBy(tasks, CarTitle)
    }

    /** Every task's `completed` flag agrees with its status. */
    ghost predicate CompletedMatchesStatus()
      reads this
    {
      forall t :: t in tasks ==> t.completed == (t.status == Completed)
    }

    ghost predicate HasCar(id: int)
      reads this
    {
      exists c :: c in cars && c.id == id
    }

    ghost predicate HasSuggestion(id: int)
      reads this
    {
      exists s :: s in taskSuggestions && s.id == id
    }

    ghost predicate HasTask(id: int)
      reads this
    {
      exists t :: t in tasks && t.id == id
    }

    ghost predicate HasTitle(carId: int, title: string)
      reads this
    {
      exists t :: t in tasks && t.carId == carId && t.title == title
    }

    /** An empty database. */
    constructor()
      ensures Valid() && CompletedMatchesStatus()
      ensures cars == [] && taskSuggestions == [] && tasks == []
      ensures nextCarId == 1 && nextSuggestionId == 1 && nextTaskId == 1
    {
      cars := [];
      taskSuggestions := [];
      tasks := [];
      nextCarId := 1;
      nextSuggestionId := 1;
      nextTaskId := 1;
    }

    // ------------------------------------------------------------ cars

    /** `getCars`: the whole table. */
    method GetCars() returns (r: seq<Car>)
      ensures r == cars
    {
      r := cars;
    }

    /** `getCarById`: the car with that id, or "Bil ikke funnet". */
    method GetCarById(id: int) returns (r: Result<Car, ApiError>)
      ensures id <= 0 ==> r == Failure(InvalidInput)
      ensures id > 0 && !HasCar(id) ==> r == Failure(Thrown(CarNotFound))
      ensures id > 0 && HasCar(id) ==> r.Success?
      ensures r.Success? ==> r.value in cars && r.value.id == id
    {
      if id <= 0 {
        return Failure(InvalidInput);
      }
      var found := Where(cars, CarId, id);
      if |found| == 0 {
        r := Failure(Thrown(CarNotFound));
      } else {
        assert found[0] in found;
        r := Success(found[0]);
      }
    }

    /**
     * `createCar`: the upper-cased plate is stored with the registry's data, or
     * with the placeholders when the lookup fails; the car is created either way,
     * and an equal plate already in the table does not stop it.
     */
    method CreateCar(regNr: string, registryUrl: string, lookup: string -> VR.FetchOutcome) returns (r: Result<Car, ApiError>)
      requires Valid()
      modifies this`cars, this`nextCarId
      ensures Valid()
      ensures regNr == [] ==> r == Failure(InvalidInput) && cars == old(cars) && nextCarId == old(nextCarId)
      ensures regNr != [] ==> r.Success? && cars == old(cars) + [r.value] && nextCarId == old(nextCarId) + 1
      ensures r.Success? ==> r.value.id == old(nextCarId) && r.value.regNr == ToUpperCase(regNr)
      ensures r.Success? ==> var fetched := VR.FetchVehicle(registryUrl, ToUpperCase(regNr), lookup);
        && (fetched.Success? ==> r.value.make == fetched.value.make && r.value.model == fetched.value.model
                                 && r.value.year == fetched.value.year && r.value.color == fetched.value.color)
        && (fetched.Failure? ==> r.value.make == VR.Unknown && r.value.model == VR.Unknown
                                 && r.value.year == Number(0) && r.value.color == VR.Unknown)
    {
      if regNr == [] {
        return Failure(InvalidInput);
      }
      var plate := ToUpperCase(regNr);
      var vehicleData := FallbackVehicle;
      var fetched := VR.FetchVehicle(registryUrl, plate, lookup);
      if fetched.Success? {
        vehicleData := fetched.value;
      }
      var car := Car(nextCarId, plate, vehicleData.make, vehicleData.model, vehicleData.year, vehicleData.color);
      AppendIdTable(cars, [car], CarId, nextCarId, nextCarId + 1);
      cars := cars + [car];
      nextCarId := nextCarId + 1;
      r := Success(car);
    }

    /** `deleteCar`: removes the car with that id, or fails with "Bil ikke funnet"; its tasks and suggestions stay. */
    method DeleteCar(id: int) returns (r: Outcome<ApiError>)
      requires Valid()
      modifies this`cars
      ensures Valid()
      ensures id <= 0 ==> r == Fail(InvalidInput) && cars == old(cars)
      ensures id > 0 && !old(HasCar(id)) ==> r == Fail(Thrown(CarNotFound)) && cars == old(cars)
      ensures id > 0 && old(HasCar(id)) ==> r == Pass && cars == WhereNot(old(cars), CarId, id) && |cars| == |old(cars)| - 1
      ensures forall c :: c in cars <==> c in old(cars) && c.id != id
      ensures taskSuggestions == old(taskSuggestions) && tasks == old(tasks)
    {
      if id <= 0 {
        return Fail(InvalidInput);
      }
      var deleted := Where(cars, CarId, id);
      KeepIdTable(cars, CarId, nextCarId, CarId, id, false);
      if |deleted| == 0 {
        WhereNotOfAbsent(cars, CarId, id);
        r := Fail(Thrown(CarNotFound));
      } else {
        assert deleted[0] in deleted;
        WhereNotRemovesOne(cars, CarId, id);
        r := Pass;
      }
      cars := WhereNot(cars, CarId, id);
    }

    // ------------------------------------------------------------ task suggestions

    /** `getTaskSuggestions`: the suggestions of the car, in table order. */
    method GetTaskSuggestions(carId: int) returns (r: Result<seq<SuggestionRow>, ApiError>)
      ensures carId <= 0 ==> r == Failure(InvalidInput)
      ensures carId > 0 ==> r.Success? && r.value == Where(taskSuggestions, SuggestionCarId, carId)
      ensures r.Success? ==> forall s :: s in r.value <==> s in taskSuggestions && s.carId == carId
    {
      if carId <= 0 {
        return Failure(InvalidInput);
      }
      r := Success(Where(taskSuggestions, SuggestionCarId, carId));
    }

    /**
     * `fetchAISuggestions`: for an existing car, stores the generated suggestions
     * in order under the car's id and returns the new rows.
     */
    method FetchAISuggestions(carId: int, outcome: SG.GenerationOutcome) returns (r: Result<seq<SuggestionRow>, ApiError>)
      requires Valid()
      modifies this`taskSuggestions, this`nextSuggestionId
      ensures Valid()
      ensures carId <= 0 ==> r == Failure(InvalidInput)
      ensures carId > 0 && !HasCar(carId) ==> r == Failure(Thrown(CarNotFound))
      ensures r.Failure? ==> taskSuggestions == old(taskSuggestions) && nextSuggestionId == old(nextSuggestionId)
      ensures carId > 0 && HasCar(carId) ==> r.Success?
      ensures r.Success? ==>
        && taskSuggestions == old(taskSuggestions) + r.value
        && nextSuggestionId == old(nextSuggestionId) + |r.value|
      ensures r.Success? ==> var g := SG.Generate(outcome);
        && |r.value| == |g|
        && forall i :: 0 <= i < |g| ==>
          r.value[i] == SuggestionRow(old(nextSuggestionId) + i, carId, g[i].title, g[i].description, g[i].timeUse)
    {
      if carId <= 0 {
        return Failure(InvalidInput);
      }
      var found := Where(cars, CarId, carId);
      if |found| == 0 {
        return Failure(Thrown(CarNotFound));
      }
      assert found[0] in found;
      var suggestions := SG.Generate(outcome);
      var inserted := SuggestionRows(carId, nextSuggestionId, suggestions);
      AppendSuggestionRows(taskSuggestions, nextSuggestionId, carId, suggestions);
      taskSuggestions := taskSuggestions + inserted;
      nextSuggestionId := nextSuggestionId + |inserted|;
      r := Success(inserted);
    }

    /** `deleteSuggestionTask`: removes the suggestion with that id, or fails with "Oppgave forslag ikke funnet". */
    method DeleteSuggestionTask(id: int) returns (r: Outcome<ApiError>)
      requires Valid()
      modifies this`taskSuggestions
      ensures Valid()
      ensures id <= 0 ==> r == Fail(InvalidInput) && taskSuggestions == old(taskSuggestions)
      ensures id > 0 && !old(HasSuggestion(id)) ==> r == Fail(Thrown(SuggestionNotFound)) && taskSuggestions == old(taskSuggestions)
      ensures id > 0 && old(HasSuggestion(id)) ==>
        && r == Pass
        && taskSuggestions == WhereNot(old(taskSuggestions), SuggestionId, id)
        && |taskSuggestions| == |old(taskSuggestions)| - 1
      ensures forall s :: s in taskSuggestions <==> s in old(taskSuggestions) && s.id != id
    {
      if id <= 0 {
        return Fail(InvalidInput);
      }
      var deleted := Where(taskSuggestions, SuggestionId, id);
      KeepIdTable(taskSuggestions, SuggestionId, nextSuggestionId, SuggestionId, id, false);
      if |deleted| == 0 {
        WhereNotOfAbsent(taskSuggestions, SuggestionId, id);
        r := Fail(Thrown(SuggestionNotFound));
      } else {
        assert deleted[0] in deleted;
        WhereNotRemovesOne(taskSuggestions, SuggestionId, id);
        r := Pass;
      }
      taskSuggestions := WhereNot(taskSuggestions, SuggestionId, id);
    }

    // ------------------------------------------------------------ tasks

    /** `getTasks`: the tasks of the car, in table order. */
    method GetTasks(carId: int) returns (r: Result<seq<Task>, ApiError>)
      ensures carId <= 0 ==> r == Failure(InvalidInput)
      ensures carId > 0 ==> r.Success? && r.value == Where(tasks, TaskCarId, carId)
      ensures r.Success? ==> forall t :: t in r.value <==> t in tasks && t.carId == carId
    {
      if carId <= 0 {
        return Failure(InvalidInput);
      }
      r := Success(Where(tasks, TaskCarId, carId));
    }

    /**
     * `createTask`: refuses a title the car already has a task with; otherwise
     * stores a new pending, uncompleted task. The car id is not checked against
     * the cars table.
     */
    method CreateTask(carId: int, title: string, description: Option<string>, time: int, suggestionId: Option<int>)
      returns (r: Result<Task, ApiError>)
      requires Valid()
      modifies this`tasks, this`nextTaskId
      ensures Valid()
      ensures !TaskInputValid(carId, title, suggestionId) ==> r == Failure(InvalidInput)
      ensures TaskInputValid(carId, title, suggestionId) && old(HasTitle(carId, title)) ==> r == Failure(Thrown(DuplicateTitle))
      ensures r.Failure? ==> tasks == old(tasks) && nextTaskId == old(nextTaskId)
      ensures TaskInputValid(carId, title, suggestionId) && !old(HasTitle(carId, title)) ==>
        && r == Success(Task(old(nextTaskId), carId, title, description, time, suggestionId, Pending, false))
        && tasks == old(tasks) + [r.value]
        && nextTaskId == old(nextTaskId) + 1
      ensures old(CompletedMatchesStatus()) ==> CompletedMatchesStatus()
    {
      if !TaskInputValid(carId, title, suggestionId) {
        return Failure(InvalidInput);
      }
      var existing := Where(tasks, CarTitle, (carId, title));
      if |existing| > 0 {
        assert existing[0] in existing;
        return Failure(Thrown(DuplicateTitle));
      }
      var task := Task(nextTaskId, carId, title, description, time, suggestionId, Pending, false);
      AppendIdTable(tasks, [task], TaskId, nextTaskId, nextTaskId + 1);
      AppendDistinct(tasks, task, CarTitle);
      tasks := tasks + [task];
      nextTaskId := nextTaskId + 1;
      r := Success(task);
    }

    /**
     * `updateTaskStatus`: sets the status of the task with that id, and its
     * `completed` flag to the override when one is given and to "the status is
     * completed" otherwise; fails with "Oppgave ikke funnet" when no task has the id.
     */
    method UpdateTaskStatus(taskId: int, status: TaskStatus, completed: Option<bool>) returns (r: Result<Task, ApiError>)
      requires Valid()
      modifies this`tasks
      ensures Valid()
      ensures taskId <= 0 ==> r == Failure(InvalidInput) && tasks == old(tasks)
      ensures taskId > 0 ==> tasks == WithStatus(old(tasks), taskId, status, completed.GetOr(status == Completed))
      ensures taskId > 0 && !old(HasTask(taskId)) ==> r == Failure(Thrown(TaskNotFound)) && tasks == old(tasks)
      ensures taskId > 0 && old(HasTask(taskId)) ==> r.Success?
      ensures r.Success? ==>
        && r.value in tasks && r.value.id == taskId
        && r.value.status == status && r.value.completed == completed.GetOr(status == Completed)
      ensures completed.None? && old(CompletedMatchesStatus()) ==> CompletedMatchesStatus()
    {
      if taskId <= 0 {
        return Failure(InvalidInput);
      }
      var flag := completed.GetOr(status == Completed);
      WithStatusKeepsKeys(tasks, taskId, status, flag, nextTaskId);
      UpdatedRows(tasks, taskId, status, flag);
      if completed.None? && CompletedMatchesStatus() {
        WithStatusKeepsAgreement(tasks, taskId, status);
      }
      var rows := WithStatus(tasks, taskId, status, flag);
      var updated := Where(rows, TaskId, taskId);
      tasks := rows;
      if |updated| == 0 {
        r := Failure(Thrown(TaskNotFound));
      } else {
        r := Success(updated[0]);
      }
    }

    /** `deleteTask`: removes the task with that id, or fails with "Oppgave ikke funnet". */
    method DeleteTask(id: int) returns (r: Outcome<ApiError>)
      requires Valid()
      modifies this`tasks
      ensures Valid()
      ensures id <= 0 ==> r == Fail(InvalidInput) && tasks == old(tasks)
      ensures id > 0 && !old(HasTask(id)) ==> r == Fail(Thrown(TaskNotFound)) && tasks == old(tasks)
      ensures id > 0 && old(HasTask(id)) ==> r == Pass && tasks == WhereNot(old(tasks), TaskId, id) && |tasks| == |old(tasks)| - 1
      ensures forall t :: t in tasks <==> t in old(tasks) && t.id != id
      ensures old(CompletedMatchesStatus()) ==> CompletedMatchesStatus()
    {
      if id <= 0 {
        return Fail(InvalidInput);
      }
      var deleted := Where(tasks, TaskId, id);
      KeepIdTable(tasks, TaskId, nextTaskId, TaskId, id, false);
      KeepDistinct(tasks, CarTitle, TaskId, id, false);
      if |deleted| == 0 {
        WhereNotOfAbsent(tasks, TaskId, id);
        r := Fail(Thrown(TaskNotFound));
      } else {
        assert deleted[0] in deleted;
        WhereNotRemovesOne(tasks, TaskId, id);
        r := Pass;
      }
      tasks := WhereNot(tasks, TaskId, id);
    }
  }
}
