/** The dashboard's future-flight form (src/components/FlightDashboard/FutureFlightsForm.tsx):
    the ordered validation chain and the submit handler. Its traveller input
    is the one in TravelerInput. "Today" is a parameter. */
module FutureFlightsForm {
  import opened Wrappers
  import opened Http
  import opened Calendar
  import opened FutureFlightsService
  import opened Dashboard
  import JsNumber

  /** The form's state (the `FutureFlightData` of src/services/types.ts). */
  datatype FutureFlightData = FutureFlightData(
    origin: string,
    destination: string,
    operatingCarrierCode: string,
    flightNumber: string,
    departureDate: string,
    radiativeFactor: bool,
    travelers: int)

  const RouteRequired: string := "Origin and destination airports are required"
  const AirlineRequired: string := "Airline code is required"
  const FlightNumberRequired: string := "Flight number is required"
  const DateRequired: string := "Departure date is required"
  const DateInPast: string := "Departure date must be in the future"

  /** `new Date(date) < today`: a date that does not parse is NaN and compares
      false, so only a parsed date strictly before today's date counts. */
  function IsBeforeToday(date: string, today: Date): (past: bool)
    ensures ParseDateOnly(date).Invalid? ==> !past
    ensures IsValid(today) && ParseDateOnly(date).At? ==>
      (past <==> NextDay(ParseDateOnly(date).date) == today || Before(NextDay(ParseDateOnly(date).date), today))
  {
    match ParseDateOnly(date)
    case Invalid => false
    case At(d) =>
      if IsValid(today) then BeforeViaNextDay(d, today); Before(d, today)
      else Before(d, today)
  }

  /** The checks of `handleSubmit`, in order; on success the five fields the
      service receives, unchanged. */
  function Validate(form: FutureFlightData, today: Date): (r: Result<FlightData, string>)
    ensures r.Success? <==>
      && form.origin != "" && form.destination != "" && form.operatingCarrierCode != ""
      && form.flightNumber != "" && form.departureDate != "" && !IsBeforeToday(form.departureDate, today)
    ensures r.Success? ==> r.value == FlightData(
      form.origin, form.destination, form.operatingCarrierCode, form.flightNumber, form.departureDate)
    ensures form.origin == "" || form.destination == "" ==> r == Failure(RouteRequired)
    ensures r == Failure(AirlineRequired) <==>
      form.origin != "" && form.destination != "" && form.operatingCarrierCode == ""
    ensures r == Failure(FlightNumberRequired) <==>
      form.origin != "" && form.destination != "" && form.operatingCarrierCode != "" && form.flightNumber == ""
    ensures r == Failure(DateRequired) <==>
      && form.origin != "" && form.destination != "" && form.operatingCarrierCode != ""
      && form.flightNumber != "" && form.departureDate == ""
    ensures r == Failure(DateInPast) <==>
      && form.origin != "" && form.destination != "" && form.operatingCarrierCode != ""
      && form.flightNumber != "" && IsBeforeToday(form.departureDate, today)
  {
    if form.origin == "" || form.destination == "" then Failure(RouteRequired)
    else if form.operatingCarrierCode == "" then Failure(AirlineRequired)
    else if form.flightNumber == "" then Failure(FlightNumberRequired)
    else if form.departureDate == "" then Failure(DateRequired)
    else if IsBeforeToday(form.departureDate, today) then Failure(DateInPast)
    else Success(FlightData(form.origin, form.destination, form.operatingCarrierCode, form.flightNumber, form.departureDate))
  }

  /** `handleSubmit` with the key and the post passed in. Only the error is
      cleared at the start and loading is never touched; on failure the
      previous future result stays in place (the panel shows the error in
      front of it). */
  function Submit(
    s: Status,
    form: FutureFlightData,
    today: Date,
    apiKey: Option<string>,
    send: TravelApiRequest -> AxiosOutcome<TravelApiResponse>
  ): (t: Submission<FlightData, Status>)
    ensures t.pending == s.(error := None)
    ensures t.settled.loading == s.loading && t.settled.emissionsData == s.emissionsData
    ensures t.sent.None? <==> Validate(form, today).Failure?
    ensures t.sent.None? ==> t.settled == s.(error := Some(Validate(form, today).error))
    ensures t.sent.Some? ==> t.sent.value == Validate(form, today).value
    ensures t.sent.Some? ==> var call := SubmitFutureFlight(apiKey, t.sent.value, send);
      (call.result.Success? ==> t.settled == s.(error := None, futureEmissionsData := Some(call.result.value)))
      && (call.result.Failure? ==> t.settled == s.(error := Some(call.result.error)))
  {
    var pending := s.(error := None);
    match Validate(form, today)
    case Failure(message) => Submission(pending, None, pending.(error := Some(message)))
    case Success(payload) =>
      match SubmitFutureFlight(apiKey, payload, send).result
      case Success(result) => Submission(pending, Some(payload), pending.(futureEmissionsData := Some(result)))
      case Failure(message) => Submission(pending, Some(payload), pending.(error := Some(message)))
  }

  /** A departure on today's date is accepted, one on the day before is
      refused with the past-date message. */
  lemma TodayAcceptedYesterdayRefused(form: FutureFlightData, today: Date, yesterday: Date)
    requires form.origin != "" && form.destination != "" && form.operatingCarrierCode != ""
    requires form.flightNumber != ""
    requires IsValid(yesterday) && NextDay(yesterday) == today
    ensures ParseDateOnly(form.departureDate) == At(today) ==> Validate(form, today).Success?
    ensures ParseDateOnly(form.departureDate) == At(yesterday) ==> Validate(form, today) == Failure(DateInPast)
  {
  }

  /** A non-empty date that does not parse passes the past-date check, and the
      service then sends NaN for every date component. */
  lemma UnparsableDateReachesService(form: FutureFlightData, today: Date)
    requires form.origin != "" && form.destination != "" && form.operatingCarrierCode != ""
    requires form.flightNumber != "" && form.departureDate != ""
    requires ParseDateOnly(form.departureDate).Invalid?
    ensures Validate(form, today).Success?
    ensures BuildRequest(Validate(form, today).value).flights[0].departureDate
      == DateComponents(JsNumber.NaN, JsNumber.NaN, JsNumber.NaN)
  {
  }
}
