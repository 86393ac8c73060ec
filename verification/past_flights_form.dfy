/** The dashboard's past-flight form (src/components/FlightDashboard/PastFlightsForm.tsx):
    route and request construction and the submit handler. Its traveller
    input is the one in TravelerInput. */
module PastFlightsForm {
  import opened Wrappers
  import opened Http
  import opened PastFlightsService
  import opened FlightSearchForm
  import opened Dashboard

  /** Origin, then the stop-over when one is chosen, then the destination. */
  function BuildRoute(form: FormInputData): (route: seq<string>)
    ensures 2 <= |route| <= 3
    ensures route[0] == form.from && route[|route| - 1] == form.destination
    ensures |route| == 3 <==> form.via != ""
    ensures |route| == 3 ==> route[1] == form.via
  {
    [form.from] + (if form.via != "" then [form.via] else []) + [form.destination]
  }

  /** The request `handleSubmit` builds, or the error it throws first when
      origin or destination is missing. */
  function BuildRequest(form: FormInputData): (r: Result<EmissionsRequest, string>)
    ensures r.Failure? <==> form.from == "" || form.destination == ""
    ensures r.Failure? ==> r.error == RouteRequired
    ensures r.Success? ==> r.value.route == BuildRoute(form)
    ensures r.Success? ==> r.value.cabinClass == ClassWireName(form.flightClass)
    ensures r.Success? ==> (r.value.isReturn <==> form.flightType == "Return")
    ensures r.Success? ==>
      r.value.irFactor == form.radiativeFactor && r.value.departureDate == form.departureDate
      && r.value.travelers == form.travelers
  {
    if form.from == "" || form.destination == "" then Failure(RouteRequired)
    else
      Success(EmissionsRequest(
        ClassWireName(form.flightClass),
        form.departureDate,
        form.radiativeFactor,
        form.flightType == "Return",
        BuildRoute(form),
        form.travelers))
  }

  /** `handleSubmit` with the service call answered by `send`: loading is set
      and the previous result and error cleared before anything else; loading
      is reset on every path; exactly one of result and error is set at the
      end; the future result is not touched. */
  function Submit(
    s: Status,
    form: FormInputData,
    send: EmissionsRequest -> AxiosOutcome<EmissionsResponse>
  ): (t: Submission<EmissionsRequest, Status>)
    ensures t.pending == Status(true, None, None, s.futureEmissionsData)
    ensures !t.settled.loading && t.settled.futureEmissionsData == s.futureEmissionsData
    ensures t.settled.error.Some? <==> t.settled.emissionsData.None?
    ensures t.settled.error.Some? ==> t.settled.error.value != ""
    ensures t.sent.None? <==> form.from == "" || form.destination == ""
    ensures t.sent.None? ==> t.settled.error == Some(RouteRequired)
    ensures t.sent.Some? ==> t.sent == Some(BuildRequest(form).value)
    ensures t.sent.Some? ==> var call := CalculateEmissions(t.sent.value, send);
      (call.result.Success? ==> t.settled.emissionsData == Some(call.result.value))
      && (call.result.Failure? ==> t.settled.error == Some(call.result.error))
  {
    var pending := Status(true, None, None, s.futureEmissionsData);
    match BuildRequest(form)
    case Failure(message) => Submission(pending, None, pending.(loading := false, error := Some(message)))
    case Success(request) =>
      match CalculateEmissions(request, send).result
      case Success(data) => Submission(pending, Some(request), pending.(loading := false, emissionsData := Some(data)))
      case Failure(message) => Submission(pending, Some(request), pending.(loading := false, error := Some(message)))
  }

  /** The route always passes the service's route check, so a built request
      can only be refused for its date or traveller count. */
  lemma RequestPassesRouteCheck(form: FormInputData)
    requires BuildRequest(form).Success?
    ensures ValidateRequest(BuildRequest(form).value) != Some(RouteRequired)
    ensures ValidateRequest(BuildRequest(form).value).None?
      <==> form.departureDate != "" && form.travelers >= 1
  {
  }
}
