/**
 * The vehicle-registry client: normalise the plate, look it up, pick the
 * vehicle entry from the answer and read make, model, year and colour from it,
 * falling back field by field to "UKJENT" (or 0 for the year). Every failure
 * on the way ends in the same error with the same message.
 * The HTTP request is an input: a function from the URL to what came back.
 */
module VehicleRegistry {
  import opened Wrappers
  import opened JsText

  /** The placeholder for a vehicle attribute the registry did not give. */
  const Unknown: string := "UKJENT"

  /** The one message every failure of the lookup carries. */
  const FailureMessage: string := "Failed to fetch vehicle info. Try again later."

  /** `VegvesenVehicle`: the attributes the lookup produces. */
  datatype VehicleData = VehicleData(make: string, model: string, year: ParsedInt, color: string)

  /** `VegvesenAPIError`, the only error the lookup raises. */
  datatype VegvesenApiError = VegvesenApiError(message: string)

  // The parts of the registry's JSON answer the client reads; None is a missing or null value.
  datatype Karosseri = Karosseri(farge: Option<string>)
  datatype TekniskKjoretoy = TekniskKjoretoy(merke: Option<string>, handelsbetegnelse: Option<string>, karosseri: Option<Karosseri>)
  datatype Registrering = Registrering(forstegangsregistrering: Option<string>)
  datatype Kjoretoy = Kjoretoy(tekniskKjoretoy: Option<TekniskKjoretoy>, registrering: Option<Registrering>)

  /** The parsed body: JSON `null`, or an object with an optional `kjoretoy` array whose own fields may also describe a vehicle. */
  datatype ResponseBody = NullBody | Body(kjoretoy: Option<seq<Option<Kjoretoy>>>, topLevel: Kjoretoy)

  datatype Payload = Unparsable | Json(body: ResponseBody)

  /** What the GET request produced: a thrown network error or a response with a status and a body. */
  datatype FetchOutcome = NetworkError | Response(status: int, payload: Payload)

  /** `response.ok` */
  predicate IsOk(status: int) {
    200 <= status <= 299
  }

  /** `regNr.toUpperCase().trim()`: no white space at either end and no lower-case ASCII letter left. */
  function NormalisePlate(regNr: string): (r: string)
    ensures |r| <= |regNr|
    ensures r == [] || (!IsWhiteSpace(r[0]) && !IsWhiteSpace(r[|r| - 1]))
    ensures forall c :: c in r ==> ToUpperChar(c) == c
  {
    var u := ToUpperCase(regNr);
    var t := Trim(u);
    ToUpperCaseCharsAreUpper(regNr);
    TrimKeepsChars(u);
    assert forall c :: c in t ==> c in u;
    t
  }

  /** The URL of the lookup: the configured route, a slash, the plate. */
  function LookupUrl(registryUrl: string, plate: string): (u: string)
    ensures |u| == |registryUrl| + 1 + |plate|
    ensures u[..|registryUrl|] == registryUrl && u[|registryUrl|] == '/' && u[|registryUrl| + 1..] == plate
  {
    registryUrl + "/" + plate
  }

  /** Different plates are looked up at different URLs. */
  lemma LookupUrlInjective(registryUrl: string, a: string, b: string)
    requires LookupUrl(registryUrl, a) == LookupUrl(registryUrl, b)
    ensures a == b
  {
    var u := LookupUrl(registryUrl, a);
    assert a == u[|registryUrl| + 1..];
  }

  /** Normalising twice is normalising once. */
  lemma NormalisePlateIdempotent(regNr: string)
    ensures NormalisePlate(NormalisePlate(regNr)) == NormalisePlate(regNr)
  {
    var n := NormalisePlate(regNr);
    ToUpperCaseOfUpper(n);
    TrimKeepsTrimmed(n);
  }

  /** `data.kjoretoy?.[0] ?? data`: the first entry of `kjoretoy` when there is one, otherwise the body itself. */
  function SelectVehicle(body: ResponseBody): (v: Option<Kjoretoy>)
    ensures v.None? <==> body.NullBody?
    ensures body.Body? && body.kjoretoy.Some? && |body.kjoretoy.value| > 0 && body.kjoretoy.value[0].Some?
      ==> v == body.kjoretoy.value[0]
    ensures body.Body? && !(body.kjoretoy.Some? && |body.kjoretoy.value| > 0 && body.kjoretoy.value[0].Some?)
      ==> v == Some(body.topLevel)
  {
    match body
    case NullBody => None
    case Body(entries, topLevel) =>
      if entries.Some? && |entries.value| > 0 && entries.value[0].Some? then entries.value[0] else Some(topLevel)
  }

  /** `field || "UKJENT"`: a missing or empty string falls back to the placeholder. */
  function OrUnknown(field: Option<string>): (s: string)
    ensures s != ""
    ensures field.Some? && field.value != "" ==> s == field.value
    ensures !(field.Some? && field.value != "") ==> s == Unknown
  {
    if field.Some? && field.value != "" then field.value else Unknown
  }

  /** `forstegangsregistrering ? parseInt(forstegangsregistrering) : 0` */
  function YearOf(first: Option<string>): (y: ParsedInt)
    ensures !(first.Some? && first.value != "") ==> y == Number(0)
    ensures first.Some? && first.value != "" && y.Number? ==> TrimStart(first.value) != []
  {
    if first.Some? && first.value != "" then ParseInt(first.value) else Number(0)
  }

  /** A missing or empty first-registration date gives year 0; a "YYYY-MM-DD" date gives its year. */
  lemma YearOfRegistration(first: Option<string>)
    ensures !(first.Some? && first.value != "") ==> YearOf(first) == Number(0)
    ensures first.Some? && |first.value| >= 5 && (forall i :: 0 <= i < 4 ==> IsAsciiDigit(first.value[i])) && first.value[4] == '-'
      ==> YearOf(first) == Number(FourDigitValue(first.value)) && 0 <= FourDigitValue(first.value) <= 9999
  {
    if first.Some? && |first.value| >= 5 && (forall i :: 0 <= i < 4 ==> IsAsciiDigit(first.value[i])) && first.value[4] == '-' {
      ParseIntOfIsoDate(first.value);
    }
  }

  /**
   * The record built from the chosen entry; None when a property is read on a
   * missing `tekniskKjoretoy`, `karosseri` or `registrering` (a TypeError).
   */
  function ReadVehicle(v: Kjoretoy): (r: Option<VehicleData>)
    ensures r.Some? <==> v.tekniskKjoretoy.Some? && v.tekniskKjoretoy.value.karosseri.Some? && v.registrering.Some?
    ensures r.Some? ==> r.value.make != "" && r.value.model != "" && r.value.color != ""
    ensures r.Some? ==> r.value.year == YearOf(v.registrering.value.forstegangsregistrering)
    ensures r.Some? ==>
      && r.value.make == OrUnknown(v.tekniskKjoretoy.value.merke)
      && r.value.model == OrUnknown(v.tekniskKjoretoy.value.handelsbetegnelse)
      && r.value.color == OrUnknown(v.tekniskKjoretoy.value.karosseri.value.farge)
  {
    match v
    case Kjoretoy(Some(t), Some(reg)) =>
      if t.karosseri.Some? then
        Some(VehicleData(OrUnknown(t.merke), OrUnknown(t.handelsbetegnelse),
                         YearOf(reg.forstegangsregistrering), OrUnknown(t.karosseri.value.farge)))
      else None
    case _ => None
  }

  /** Everything after the request: None for a non-ok status, an unparsable body, no vehicle or a missing block. */
  function Interpret(outcome: FetchOutcome): (r: Option<VehicleData>)
    ensures r.Some? ==> outcome.Response? && IsOk(outcome.status) && outcome.payload.Json? && outcome.payload.body.Body?
    ensures outcome.Response? && IsOk(outcome.status) && outcome.payload.Json? && outcome.payload.body.Body? ==>
      r == ReadVehicle(SelectVehicle(outcome.payload.body).value)
  {
    match outcome
    case NetworkError => None
    case Response(status, payload) =>
      if !IsOk(status) || payload.Unparsable? then None
      else
        match SelectVehicle(payload.body)
        case None => None
        case Some(v) => ReadVehicle(v)
  }

  /** `fetchVehicle(regNr)`: look up the normalised plate; every failure becomes the one `VegvesenAPIError`. */
  function FetchVehicle(registryUrl: string, regNr: string, lookup: string -> FetchOutcome): (r: Result<VehicleData, VegvesenApiError>)
    ensures r.Failure? ==> r.error == VegvesenApiError(FailureMessage)
    ensures r.Success? ==> r.value.make != "" && r.value.model != "" && r.value.color != ""
    ensures r.Success? <==> Interpret(lookup(LookupUrl(registryUrl, NormalisePlate(regNr)))).Some?
    ensures r.Success? ==> Interpret(lookup(LookupUrl(registryUrl, NormalisePlate(regNr)))) == Some(r.value)
  {
    match Interpret(lookup(LookupUrl(registryUrl, NormalisePlate(regNr))))
    case Some(vehicle) => Success(vehicle)
    case None => Failure(VegvesenApiError(FailureMessage))
  }

  /** Only the normalised plate reaches the registry: inputs that differ in case or surrounding white space look up the same vehicle. */
  lemma FetchVehicleSeesNormalisedPlate(registryUrl: string, a: string, b: string, lookup: string -> FetchOutcome)
    requires NormalisePlate(a) == NormalisePlate(b)
    ensures FetchVehicle(registryUrl, a, lookup) == FetchVehicle(registryUrl, b, lookup)
  {
  }

  /** A failed request, a non-ok status, a body that is not JSON or is null: each ends in the single error. */
  lemma TransportFailuresFail(registryUrl: string, regNr: string, lookup: string -> FetchOutcome)
    requires var o := lookup(LookupUrl(registryUrl, NormalisePlate(regNr)));
      || o.NetworkError?
      || (o.Response? && !IsOk(o.status))
      || (o.Response? && o.payload.Unparsable?)
      || (o.Response? && o.payload.Json? && o.payload.body.NullBody?)
    ensures FetchVehicle(registryUrl, regNr, lookup) == Failure(VegvesenApiError(FailureMessage))
  {
  }

  /** A registry answer with the first `kjoretoy` entry fully present gives that entry's attributes. */
  lemma FirstEntryRead(registryUrl: string, regNr: string, lookup: string -> FetchOutcome, status: int,
                       rest: seq<Option<Kjoretoy>>, topLevel: Kjoretoy, t: TekniskKjoretoy, k: Karosseri, reg: Registrering)
    requires IsOk(status) && t.karosseri == Some(k)
    requires lookup(LookupUrl(registryUrl, NormalisePlate(regNr)))
      == Response(status, Json(Body(Some([Some(Kjoretoy(Some(t), Some(reg)))] + rest), topLevel)))
    ensures FetchVehicle(registryUrl, regNr, lookup)
      == Success(VehicleData(OrUnknown(t.merke), OrUnknown(t.handelsbetegnelse), YearOf(reg.forstegangsregistrering), OrUnknown(k.farge)))
  {
  }
}
