/**
 * Client code that drives the router on a fresh store. Each method's
 * postcondition states the outcome of a whole sequence of requests.
 */
module Walkthrough {
  import opened Wrappers
  import opened JsText
  import opened Schema
  import opened AppRouter
  import SG = SuggestionGenerator
  import VR = VehicleRegistry

  /** A registry that cannot be reached. */
  function Unreachable(url: string): VR.FetchOutcome {
    VR.NetworkError
  }

  lemma PlateIsUpperCase()
    ensures ToUpperCase("AB12345") == "AB12345"
  {
    var u := ToUpperCase("AB12345");
    assert forall i :: 0 <= i < 7 ==> u[i] == "AB12345"[i];
  }

  /** Register "AB12345" while the registry is down: the car is stored with the placeholders. */
  method RegisterWhileRegistryIsDown(registryUrl: string) returns (store: Store, car: Result<Car, ApiError>)
    ensures fresh(store) && store.Valid()
    ensures store.tasks == [] && store.nextTaskId == 1 && store.taskSuggestions == [] && store.nextSuggestionId == 1
    ensures car == Success(Car(1, "AB12345", VR.Unknown, VR.Unknown, Number(0), VR.Unknown))
    ensures store.cars == [car.value]
  {
    store := new Store();
    PlateIsUpperCase();
    car := store.CreateCar("AB12345", registryUrl, Unreachable);
  }

  /** Then generate suggestions for it while the model is down: the three fallback suggestions are stored for car 1. */
  method RegisterWithoutServices(registryUrl: string)
    returns (store: Store, car: Result<Car, ApiError>, suggestions: Result<seq<SuggestionRow>, ApiError>)
    ensures fresh(store) && store.Valid() && store.tasks == [] && store.nextTaskId == 1
    ensures car == Success(Car(1, "AB12345", VR.Unknown, VR.Unknown, Number(0), VR.Unknown))
    ensures suggestions.Success? && |suggestions.value| == 3
    ensures suggestions.Success? ==> forall i :: 0 <= i < 3 ==>
      && suggestions.value[i].id == 1 + i
      && suggestions.value[i].carId == 1
      && suggestions.value[i].title == SG.Fallback[i].title
      && suggestions.value[i].description == SG.Fallback[i].description
      && suggestions.value[i].timeUse == SG.Fallback[i].timeUse
  {
    store, car := RegisterWhileRegistryIsDown(registryUrl);
    assert car.value in store.cars;
    assert store.HasCar(1);
    suggestions := store.FetchAISuggestions(1, SG.CallFailed);
  }

  /**
   * After that, turn the first suggestion into a task, complete it and delete
   * it twice: the task copies the suggestion, completing it sets the flag, and
   * the second delete finds nothing.
   */
  method RegisterAndCompleteFallbackTask(registryUrl: string)
    returns (task: Result<Task, ApiError>, done: Result<Task, ApiError>,
             deleted: Outcome<ApiError>, deletedAgain: Outcome<ApiError>)
    ensures task == Success(Task(1, 1, "Oljeskift og filterbytte", Some("Anbefales hvert 15 000 km eller årlig"), 10, Some(1), Pending, false))
    ensures done.Success? && done.value.status == Completed && done.value.completed
    ensures deleted == Pass && deletedAgain == Fail(Thrown(TaskNotFound))
  {
    var store, car, suggestions := RegisterWithoutServices(registryUrl);
    var first := suggestions.value[0];
    task := store.CreateTask(first.carId, first.title, first.description, first.timeUse, Some(first.id));
    assert store.tasks[0] in store.tasks;
    done := store.UpdateTaskStatus(1, Completed, None);
    assert done.value in store.tasks;
    deleted := store.DeleteTask(1);
    deletedAgain := store.DeleteTask(1);
  }

  /** A second task with the same title on the same car is refused and leaves the table as it was. */
  method DuplicateTitleRefused(title: string) returns (onFirst: Result<Task, ApiError>, again: Result<Task, ApiError>)
    requires title != []
    ensures onFirst.Success? && onFirst.value.carId == 1 && onFirst.value.title == title
    ensures again == Failure(Thrown(DuplicateTitle))
  {
    var store := new Store();
    onFirst := store.CreateTask(1, title, None, 30, None);
    assert store.tasks[0] in store.tasks;
    again := store.CreateTask(1, title, None, 45, None);
  }

  /** The same title is accepted on another car: titles are unique per car only. */
  method TitleIsPerCar(title: string) returns (onFirst: Result<Task, ApiError>, onSecond: Result<Task, ApiError>)
    requires title != []
    ensures onFirst.Success? && onFirst.value.carId == 1 && onFirst.value.title == title
    ensures onSecond.Success? && onSecond.value.carId == 2 && onSecond.value.title == title && onSecond.value.id == 2
  {
    var store := new Store();
    onFirst := store.CreateTask(1, title, None, 30, None);
    assert store.tasks == [onFirst.value];
    assert !store.HasTitle(2, title);
    onSecond := store.CreateTask(2, title, None, 30, None);
  }

  /** Completing a task and moving it back to pending, without an override, sets and clears the flag. */
  method ReopenTask() returns (done: Result<Task, ApiError>, reopened: Result<Task, ApiError>)
    ensures done.Success? && done.value.completed
    ensures reopened.Success? && reopened.value.status == Pending && !reopened.value.completed
  {
    var store := new Store();
    var created := store.CreateTask(1, "Bremsesjekk", None, 20, None);
    assert created.Success? && store.tasks == [created.value];
    assert store.tasks[0] in store.tasks;
    assert store.HasTask(1);
    done := store.UpdateTaskStatus(1, Completed, None);
    assert |store.tasks| == 1 && store.tasks[0].id == 1;
    assert store.tasks[0] in store.tasks;
    reopened := store.UpdateTaskStatus(1, Pending, None);
  }
}
