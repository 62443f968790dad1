/**
 * Suggestion generation: the structured answer of the language model is
 * checked against the suggestion schema as a whole; a valid answer is mapped
 * item by item, and any failure gives the same fixed list of three suggestions.
 * The model call itself is an input: it either failed or returned a list of
 * task objects.
 */
module SuggestionGenerator {
  import opened Wrappers
  import opened JsText

  /** A task object as the model returned it, before validation. */
  datatype RawTask = RawTask(title: string, description: Option<string>, timeUse: real)

  /** The outcome of the structured-output call. */
  datatype GenerationOutcome = CallFailed | Returned(tasks: seq<RawTask>)

  /** `TaskSuggestion`: what the generator hands back to the router. */
  datatype TaskSuggestion = TaskSuggestion(title: string, description: Option<string>, timeUse: int)

  /** `taskSuggestionSchema`: title of 3 to 100 characters, description absent, null or of 10 to 500, time a positive integer. */
  predicate ItemSchema(t: RawTask)
    ensures ItemSchema(t) ==> t.timeUse >= 1.0 && t.timeUse.Floor >= 1
  {
    && 3 <= |t.title| <= 100
    && (t.description.None? || 10 <= |t.description.value| <= 500)
    && IsInteger(t.timeUse) && t.timeUse > 0.0
  }

  /** `taskSuggestionsSchema`: every element of `tasks` meets the item schema; the list may be empty. */
  predicate ResponseSchema(tasks: seq<RawTask>)
    ensures tasks == [] ==> ResponseSchema(tasks)
    ensures ResponseSchema(tasks) <==> forall t :: t in tasks ==> ItemSchema(t)
  {
    forall i :: 0 <= i < |tasks| ==> ItemSchema(tasks[i])
  }

  /** The item schema, read on a suggestion that has already been mapped. */
  predicate SuggestionSchema(s: TaskSuggestion) {
    && 3 <= |s.title| <= 100
    && (s.description.None? || 10 <= |s.description.value| <= 500)
    && s.timeUse > 0
  }

  /** The three suggestions returned whenever generation fails. */
  const Fallback: seq<TaskSuggestion> := [
    TaskSuggestion("Oljeskift og filterbytte", Some("Anbefales hvert 15 000 km eller årlig"), 10),
    TaskSuggestion("Bremsesjekk", Some("Kontroller klosser, skiver og bremsevæske"), 20),
    TaskSuggestion("Dekk og hjulstilling", Some("Sjekk mønsterdybde og juster sporvidde ved behov"), 200)
  ]

  /** The mapping of one validated item: title and time copied, an absent description becomes null. */
  function ToSuggestion(t: RawTask): (s: TaskSuggestion)
    requires ItemSchema(t)
    ensures SuggestionSchema(s)
    ensures s.title == t.title && s.description == t.description && s.timeUse as real == t.timeUse
  {
    TaskSuggestion(t.title, t.description, t.timeUse.Floor)
  }

  /** The answer passed the schema check. */
  predicate Accepted(outcome: GenerationOutcome) {
    outcome.Returned? && ResponseSchema(outcome.tasks)
  }

  /** `generateTaskSuggestions`: the mapped answer when it passes the schema as a whole, the fallback otherwise. */
  function Generate(outcome: GenerationOutcome): (r: seq<TaskSuggestion>)
    ensures Accepted(outcome) ==> |r| == |outcome.tasks|
    ensures Accepted(outcome) ==> forall i :: 0 <= i < |r| ==>
      && r[i].title == outcome.tasks[i].title
      && r[i].description == outcome.tasks[i].description
      && r[i].timeUse as real == outcome.tasks[i].timeUse
    ensures !Accepted(outcome) ==> r == Fallback
    ensures forall i :: 0 <= i < |r| ==> SuggestionSchema(r[i])
  {
    FallbackMeetsSchema();
    if Accepted(outcome) then
      seq(|outcome.tasks|, i requires 0 <= i < |outcome.tasks| => ToSuggestion(outcome.tasks[i]))
    else
      Fallback
  }

  /** The fixed list itself satisfies the schema, so every list the generator returns does. */
  lemma FallbackMeetsSchema()
    ensures |Fallback| == 3
    ensures forall i :: 0 <= i < |Fallback| ==> SuggestionSchema(Fallback[i])
  {
    assert |Fallback[0].description.value| == 37;
    assert |Fallback[1].description.value| == 41;
    assert |Fallback[2].description.value| == 48;
  }

  /** Validation is all-or-nothing: one bad item sends the whole answer to the fallback, however many others are good. */
  lemma OneBadItemFallsBack(tasks: seq<RawTask>, k: int)
    requires 0 <= k < |tasks| && !ItemSchema(tasks[k])
    ensures Generate(Returned(tasks)) == Fallback
  {
  }

  /** Every failure gives the same list, whatever the cause. */
  lemma FallbackIsDeterministic(a: GenerationOutcome, b: GenerationOutcome)
    requires !Accepted(a) && !Accepted(b)
    ensures Generate(a) == Generate(b) && |Generate(a)| == 3
    ensures Generate(a)[0].title == "Oljeskift og filterbytte" && Generate(a)[0].timeUse == 10
    ensures Generate(a)[1].title == "Bremsesjekk" && Generate(a)[1].timeUse == 20
    ensures Generate(a)[2].title == "Dekk og hjulstilling" && Generate(a)[2].timeUse == 200
  {
  }

  /** An accepted answer with no tasks yields no suggestions: success does not promise a non-empty list. */
  lemma EmptyAnswerGivesNoSuggestions()
    ensures Generate(Returned([])) == []
  {
  }
}
