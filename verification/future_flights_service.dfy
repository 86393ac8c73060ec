/** The future-flights service client (src/services/futureFlightsService.ts):
    builds a one-flight request for the travel impact model, posts it, and
    picks the first result. */
module FutureFlightsService {
  import opened Wrappers
  import opened JsText
  import opened JsNumber
  import opened Http
  import Calendar

  /** The argument of `submitFutureFlight`: the form's fields as typed. */
  datatype FlightData = FlightData(
    origin: string,
    destination: string,
    operatingCarrierCode: string,
    flightNumber: string,
    departureDate: string)

  /** `{year, month, day}` read off a `Date`; NaN for the invalid date. */
  datatype DateComponents = DateComponents(year: JsNum, month: JsNum, day: JsNum)

  datatype FlightRequest = FlightRequest(
    origin: string,
    destination: string,
    operatingCarrierCode: string,
    flightNumber: JsNum,
    departureDate: DateComponents)

  datatype TravelApiRequest = TravelApiRequest(flights: seq<FlightRequest>)

  /** Per-class emissions of one passenger, in grams. */
  datatype EmissionsPerClass = EmissionsPerClass(first: real, business: real, premiumEconomy: real, economy: real)

  datatype FlightDetails = FlightDetails(
    origin: string,
    destination: string,
    operatingCarrierCode: string,
    flightNumber: int,
    departureDate: Calendar.Date)

  datatype FlightEmissionResult = FlightEmissionResult(flight: FlightDetails, emissionsGramsPerPax: EmissionsPerClass)

  datatype ModelVersion = ModelVersion(major: int, minor: int, patch: int, dated: string)

  /** The response body; `flightEmissions` is None when the field is absent. */
  datatype TravelApiResponse = TravelApiResponse(
    flightEmissions: Option<seq<FlightEmissionResult>>,
    modelVersion: ModelVersion)

  const MissingKey: string :=
    "Google Travel API key is not configured. Please set VITE_GOOGLE_TRAVEL_API_KEY in your environment variables."
  const NoEmissionsData: string := "No flight emissions data returned from the API"
  const EmissionsFailed: string := "Failed to get flight emissions data"

  /** `new Date(s)` read back with `getFullYear`, `getMonth() + 1` and `getDate`. */
  function DateComponentsOf(s: string): (c: DateComponents)
    ensures Calendar.ParseDateOnly(s).Invalid? <==> c == DateComponents(NaN, NaN, NaN)
    ensures Calendar.ParseDateOnly(s).At? ==>
      var d := Calendar.ParseDateOnly(s).date; c == DateComponents(Num(d.year), Num(d.month), Num(d.day))
  {
    match Calendar.ParseDateOnly(s)
    case Invalid => DateComponents(NaN, NaN, NaN)
    case At(d) => DateComponents(Num(d.year), Num(Calendar.GetMonth(d) + 1), Num(d.day))
  }

  /** The request body: exactly one flight, codes upper-cased, the flight
      number read in base 10 and the date split into its components. */
  function BuildRequest(f: FlightData): (r: TravelApiRequest)
    ensures |r.flights| == 1
    ensures r.flights[0].origin == ToUpperCase(f.origin)
    ensures r.flights[0].destination == ToUpperCase(f.destination)
    ensures r.flights[0].operatingCarrierCode == ToUpperCase(f.operatingCarrierCode)
    ensures r.flights[0].flightNumber == ParseInt(f.flightNumber, Some(10))
    ensures r.flights[0].departureDate == DateComponentsOf(f.departureDate)
  {
    TravelApiRequest([FlightRequest(
      ToUpperCase(f.origin),
      ToUpperCase(f.destination),
      ToUpperCase(f.operatingCarrierCode),
      ParseInt(f.flightNumber, Some(10)),
      DateComponentsOf(f.departureDate))])
  }

  /** How the awaited post settles `submitFutureFlight`. */
  function Settle(outcome: AxiosOutcome<TravelApiResponse>): (r: Result<FlightEmissionResult, string>)
    ensures r.Success? <==>
      outcome.Received? && outcome.data.flightEmissions.Some? && |outcome.data.flightEmissions.value| > 0
    ensures r.Success? ==> r.value == outcome.data.flightEmissions.value[0]
    ensures outcome.Received? && r.Failure? ==> r.error == NoEmissionsData
    ensures outcome.AxiosFailed? ==> r == Failure(MessageOr(outcome.upstreamMessage, EmissionsFailed))
  {
    match outcome
    case AxiosFailed(m) => Failure(MessageOr(m, EmissionsFailed))
    case Received(data) =>
      if data.flightEmissions.None? || |data.flightEmissions.value| == 0 then Failure(NoEmissionsData)
      else Success(data.flightEmissions.value[0])
  }

  /** A configured key: `!TRAVEL_API_KEY` rejects both undefined and "". */
  predicate HasKey(apiKey: Option<string>) {
    apiKey.Some? && apiKey.value != ""
  }

  /** `submitFutureFlight(f)` with the API key passed in and the post answered
      by `send`. */
  function SubmitFutureFlight(
    apiKey: Option<string>,
    f: FlightData,
    send: TravelApiRequest -> AxiosOutcome<TravelApiResponse>
  ): (x: Exchange<TravelApiRequest, FlightEmissionResult>)
    ensures !HasKey(apiKey) <==> x.sent.None?
    ensures !HasKey(apiKey) ==> x.result == Failure(MissingKey)
    ensures x.sent.Some? ==> x.sent.value == BuildRequest(f) && x.result == Settle(send(BuildRequest(f)))
    ensures x.result.Failure? ==> x.result.error != ""
  {
    if !HasKey(apiKey) then Exchange(None, Failure(MissingKey))
    else
      var request := BuildRequest(f);
      Exchange(Some(request), Settle(send(request)))
  }
}
