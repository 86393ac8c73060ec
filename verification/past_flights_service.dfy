/** The past-flights service client (src/services/pastFlightsService.ts):
    checks an emissions request, posts it unchanged, and maps failures to one
    message. */
module PastFlightsService {
  import opened Wrappers
  import opened Http
  import Calendar

  /** The request body. Wire keys: `class`, `departureDate`, `ir_factor`,
      `return`, `route`, `travelers`. */
  datatype EmissionsRequest = EmissionsRequest(
    cabinClass: string,
    departureDate: string,
    irFactor: bool,
    isReturn: bool,
    route: seq<string>,
    travelers: int)

  /** Per-class emissions of one leg, in kilograms. */
  datatype FlightEmissions = FlightEmissions(economy: real, premiumEconomy: real, business: real, first: real)

  /** One flown leg as the service reports it. */
  datatype RouteDetail = RouteDetail(
    origin: string,
    destination: string,
    operatingCarrierCode: string,
    flightNumber: int,
    departureDate: Calendar.Date,
    travelers: int,
    date: string,
    found: bool,
    emissions: FlightEmissions)

  /** The response body; all quantities are already in kilograms (or km). */
  datatype EmissionsResponse = EmissionsResponse(
    totalEmissions: real,
    totalDistance: real,
    perPassenger: real,
    withoutIr: real,
    routeDetails: seq<RouteDetail>)

  const RouteRequired: string := "Origin and destination airports are required"
  const DateRequired: string := "Departure date is required"
  const TravelersRequired: string := "Number of travelers must be at least 1"
  const CalculateFailed: string := "Failed to calculate emissions"

  /** `validateRequest`: the first failing check gives its message; None
      (`null`) accepts. `!travelers` only adds 0, which `< 1` already covers. */
  function ValidateRequest(data: EmissionsRequest): (error: Option<string>)
    ensures error.None? <==> |data.route| >= 2 && data.departureDate != "" && data.travelers >= 1
    ensures |data.route| < 2 ==> error == Some(RouteRequired)
    ensures |data.route| >= 2 && data.departureDate == "" ==> error == Some(DateRequired)
    ensures |data.route| >= 2 && data.departureDate != "" && data.travelers < 1 ==> error == Some(TravelersRequired)
  {
    if |data.route| < 2 then Some(RouteRequired)
    else if data.departureDate == "" then Some(DateRequired)
    else if data.travelers == 0 || data.travelers < 1 then Some(TravelersRequired)
    else None
  }

  /** How a rejected or fulfilled post settles `calculateEmissions`. */
  function Settle(outcome: AxiosOutcome<EmissionsResponse>): Result<EmissionsResponse, string> {
    match outcome
    case Received(d) => Success(d)
    case AxiosFailed(m) => Failure(MessageOr(m, CalculateFailed))
  }

  /** `calculateEmissions(data)` with the post answered by `send`. A request
      that fails validation is rejected with the validation message itself
      (a plain `Error` is rethrown as is) and nothing is posted; otherwise
      the posted body is the input field for field. */
  function CalculateEmissions(
    data: EmissionsRequest,
    send: EmissionsRequest -> AxiosOutcome<EmissionsResponse>
  ): (x: Exchange<EmissionsRequest, EmissionsResponse>)
    ensures x.sent.None? <==> ValidateRequest(data).Some?
    ensures x.sent.None? ==> x.result == Failure(ValidateRequest(data).value)
    ensures x.sent.Some? ==> x.sent.value == data
    ensures x.sent.Some? && send(data).Received? ==> x.result == Success(send(data).data)
    ensures x.sent.Some? && send(data).AxiosFailed? ==>
      x.result == Failure(MessageOr(send(data).upstreamMessage, CalculateFailed))
    ensures x.result.Failure? ==> x.result.error != ""
  {
    match ValidateRequest(data)
    case Some(message) => Exchange(None, Failure(message))
    case None =>
      var payload := EmissionsRequest(
        data.cabinClass, data.departureDate, data.irFactor, data.isReturn, data.route, data.travelers);
      Exchange(Some(payload), Settle(send(payload)))
  }
}
