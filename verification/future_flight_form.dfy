/** The stand-alone future-flight form (src/components/FutureFlightForm.tsx):
    it builds its request itself, without upper-casing and with the date
    split on `-`, and posts it with `fetch`. */
module FutureFlightForm {
  import opened Wrappers
  import opened JsText
  import opened JsNumber
  import opened Http
  import FutureFlightsService

  datatype FormData = FormData(
    flightType: string,
    origin: string,
    destination: string,
    operatingCarrierCode: string,
    flightNumber: string,
    departureDate: string,
    radiativeFactor: bool)

  const InitialFormData: FormData := FormData("Return", "", "", "", "", "", false)

  /** `const [year, month, day] = date.split('-').map(Number)`: each part goes
      through `Number`; a part the split did not produce is `undefined` (None). */
  datatype DateParts = DateParts(year: Option<JsNum>, month: Option<JsNum>, day: Option<JsNum>)

  function SplitDate(date: string): (p: DateParts)
    ensures var parts := Split(date, '-');
      && p.year == Some(ToNumber(parts[0]))
      && (p.month.Some? <==> |parts| >= 2) && (p.month.Some? ==> p.month.value == ToNumber(parts[1]))
      && (p.day.Some? <==> |parts| >= 3) && (p.day.Some? ==> p.day.value == ToNumber(parts[2]))
  {
    var parts := Split(date, '-');
    DateParts(
      Some(ToNumber(parts[0])),
      if |parts| >= 2 then Some(ToNumber(parts[1])) else None,
      if |parts| >= 3 then Some(ToNumber(parts[2])) else None)
  }

  datatype Flight = Flight(
    origin: string,
    destination: string,
    operatingCarrierCode: string,
    flightNumber: JsNum,
    departureDate: DateParts)

  datatype Request = Request(flights: seq<Flight>)

  /** The request body: one flight, codes as entered, the flight number read
      by `parseInt` without a radix. */
  function BuildRequest(form: FormData): (r: Request)
    ensures |r.flights| == 1
    ensures r.flights[0].origin == form.origin && r.flights[0].destination == form.destination
    ensures r.flights[0].operatingCarrierCode == form.operatingCarrierCode
    ensures r.flights[0].flightNumber == ParseInt(form.flightNumber, None)
    ensures r.flights[0].departureDate == SplitDate(form.departureDate)
  {
    Request([Flight(
      form.origin, form.destination, form.operatingCarrierCode,
      ParseInt(form.flightNumber, None), SplitDate(form.departureDate))])
  }

  /** What the awaited `fetch` produced: a response with its `ok` flag and the
      outcome of reading its JSON body, or a rejection with its message. */
  datatype FetchOutcome = Responded(ok: bool, body: Result<FutureFlightsService.TravelApiResponse, string>)
                        | FetchRejected(message: string)

  /** The component's own state. */
  datatype FormState = FormState(
    loading: bool,
    error: Option<string>,
    emissionsData: Option<FutureFlightsService.TravelApiResponse>)

  const FetchFailed: string := "Failed to fetch emissions data"

  /** How the awaited `fetch` settles the state, whose error the handler has
      already cleared: only an ok response whose
      body reads as JSON stores data and leaves the error clear; every other
      outcome sets an error and keeps the previous data. */
  function Settle(s: FormState, outcome: FetchOutcome): (r: FormState)
    requires s.error.None?
    ensures !r.loading
    ensures r.error.None? <==> outcome.Responded? && outcome.ok && outcome.body.Success?
    ensures r.error.None? ==> r.emissionsData == Some(outcome.body.value)
    ensures r.error.Some? ==> r.emissionsData == s.emissionsData
    ensures outcome.Responded? && !outcome.ok ==> r.error == Some(FetchFailed)
    ensures outcome.Responded? && outcome.ok && outcome.body.Failure? ==> r.error == Some(outcome.body.error)
    ensures outcome.FetchRejected? ==> r.error == Some(outcome.message)
  {
    match outcome
    case FetchRejected(message) => s.(loading := false, error := Some(message))
    case Responded(ok, body) =>
      if !ok then s.(loading := false, error := Some(FetchFailed))
      else if body.Failure? then s.(loading := false, error := Some(body.error))
      else s.(loading := false, emissionsData := Some(body.value))
  }

  /** `handleSubmit` with the post answered by `fetch`. Splitting the date and
      `parseInt` cannot throw; the URL and the header read `process.env`
      before `fetch` is called, which throws a ReferenceError in a build that
      does not define `process`. `envFailure` is None when the lookup
      succeeds, and otherwise the message of the error it throws. Loading is
      set and the error cleared first, and loading is reset on every path. */
  function Submit(
    s: FormState,
    form: FormData,
    envFailure: Option<string>,
    fetch: Request -> FetchOutcome
  ): (t: Submission<Request, FormState>)
    ensures t.pending == s.(loading := true, error := None)
    ensures t.sent.Some? <==> envFailure.None?
    ensures t.sent.Some? ==> t.sent.value == BuildRequest(form)
    ensures t.sent.Some? ==> t.settled == Settle(t.pending, fetch(BuildRequest(form)))
    ensures envFailure.Some? ==>
      && !t.settled.loading && t.settled.error == envFailure
      && t.settled.emissionsData == s.emissionsData
  {
    var pending := s.(loading := true, error := None);
    match envFailure
    case Some(message) => Submission(pending, None, pending.(loading := false, error := Some(message)))
    case None =>
      var request := BuildRequest(form);
      Submission(pending, Some(request), Settle(pending, fetch(request)))
  }

  /** The empty date splits into one part, which `Number` reads as 0: the
      request carries year 0 and no month or day. */
  lemma EmptyDateParts()
    ensures SplitDate("") == DateParts(Some(Num(0)), None, None)
  {
    assert Split("", '-') == [""];
    assert Trim("") == "";
    assert TrimmedToNumber("") == Num(0);
  }
}
