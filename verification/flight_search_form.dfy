/** The stand-alone past-flight search form (src/components/FlightSearchForm.tsx):
    its form record, initial state, the adapter from form to emissions request,
    the traveller field's change rule and its submit handler. */
module FlightSearchForm {
  import opened Wrappers
  import opened JsText
  import opened JsNumber
  import opened Http
  import opened PastFlightsService

  /** The form's state; `from`, `via`, `destination` and `departureDate` are
      "" until chosen. Also the shape the dashboard's past form and the result
      panel use. */
  datatype FormInputData = FormInputData(
    flightType: string,
    from: string,
    via: string,
    destination: string,
    flightClass: string,
    travelers: int,
    radiativeFactor: bool,
    departureDate: string)

  const FlightTypes: seq<string> := ["Return", "One way"]
  const FlightClasses: seq<string> := ["Economy", "Premium Economy", "Business", "First"]

  const InitialFormData: FormInputData := FormInputData("Return", "", "", "", "Economy", 1, false, "")

  /** The wire name of a cabin-class label: lower-cased, first space made `_`. */
  function ClassWireName(className: string): (wire: string)
    ensures |wire| == |className|
    ensures ' ' !in className ==> wire == ToLowerCase(className)
    ensures ' ' in className ==> wire == ToLowerCase(className)[IndexOf(className, ' ') := '_']
  {
    var lower := ToLowerCase(className);
    LowerKeepsFirstSpace(className);
    if ' ' in className then
      var k := IndexOf(className, ' ');
      SpliceIsUpdate(lower, k, '_');
      ReplaceFirst(lower, ' ', '_')
    else
      ReplaceFirst(lower, ' ', '_')
  }

  /** Replacing the character at `k` by splicing is a sequence update. */
  lemma SpliceIsUpdate(s: string, k: nat, c: char)
    requires k < |s|
    ensures s[..k] + [c] + s[k + 1..] == s[k := c]
  {
  }

  /** Lower-casing neither adds nor removes spaces, so the first space stays
      where it was. */
  lemma LowerKeepsFirstSpace(s: string)
    ensures ' ' in ToLowerCase(s) <==> ' ' in s
    ensures ' ' in s ==> IndexOf(ToLowerCase(s), ' ') == IndexOf(s, ' ')
  {
  }

  /** `transformFormData`: the route keeps the non-empty airports among
      origin, via and destination in that order; the other fields are copied
      or mapped one to one. */
  function TransformFormData(d: FormInputData): (r: EmissionsRequest)
    ensures |r.route| == 3 <==> d.from != "" && d.via != "" && d.destination != ""
    ensures d.from != "" && d.destination != "" && d.via == "" ==> r.route == [d.from, d.destination]
    ensures forall a :: a in r.route <==> a != "" && (a == d.from || a == d.via || a == d.destination)
    ensures r.route == (if d.from != "" then [d.from] else []) + (if d.via != "" then [d.via] else [])
      + (if d.destination != "" then [d.destination] else [])
    ensures r.cabinClass == ClassWireName(d.flightClass)
    ensures r.isReturn <==> d.flightType == "Return"
    ensures r.irFactor == d.radiativeFactor && r.departureDate == d.departureDate && r.travelers == d.travelers
  {
    FilterNonEmptyOfThree(d.from, d.via, d.destination);
    EmissionsRequest(
      ClassWireName(d.flightClass),
      d.departureDate,
      d.radiativeFactor,
      d.flightType == "Return",
      FilterNonEmpty([d.from, d.via, d.destination]),
      d.travelers)
  }

  /** The traveller field's `onChange`: `parseInt(value) || 1`, so NaN and 0
      become 1 while every other integer, negative ones included, is kept. */
  function TravelersOnChange(value: string): (n: int)
    ensures n != 0
    ensures ParseInt(value, None).IsTruthy() ==> n == ParseInt(value, None).value
    ensures !ParseInt(value, None).IsTruthy() ==> n == 1
  {
    var parsed := ParseInt(value, None);
    if parsed.IsTruthy() then parsed.value else 1
  }

  /** The component's own result state. */
  datatype SearchState = SearchState(loading: bool, error: Option<string>, emissionsData: Option<EmissionsResponse>)

  /** `handleSubmit` with the service call answered by `send`. The previous
      result stays visible while loading; a failure clears it. */
  function HandleSubmit(
    s: SearchState,
    form: FormInputData,
    send: EmissionsRequest -> AxiosOutcome<EmissionsResponse>
  ): (t: Submission<EmissionsRequest, SearchState>)
    ensures t.pending == SearchState(true, None, s.emissionsData)
    ensures t.sent == Some(TransformFormData(form))
    ensures !t.settled.loading
    ensures t.settled.error.None? <==> t.settled.emissionsData.Some?
    ensures CalculateEmissions(TransformFormData(form), send).result.Success? ==>
      t.settled.emissionsData == Some(CalculateEmissions(TransformFormData(form), send).result.value)
    ensures CalculateEmissions(TransformFormData(form), send).result.Failure? ==>
      t.settled.error == Some(CalculateEmissions(TransformFormData(form), send).result.error)
  {
    var pending := SearchState(true, None, s.emissionsData);
    var request := TransformFormData(form);
    var call := CalculateEmissions(request, send);
    match call.result
    case Success(data) => Submission(pending, Some(request), SearchState(false, None, Some(data)))
    case Failure(message) => Submission(pending, Some(request), SearchState(false, Some(message), None))
  }

  /** A class name with no space is just lower-cased. */
  lemma ClassWireNameWithoutSpace(className: string, lower: string)
    requires ToLowerCase(className) == lower && ' ' !in lower
    ensures ClassWireName(className) == lower
  {
  }

  /** The four cabin-class labels travel on the wire as `economy`,
      `premium_economy`, `business` and `first`. */
  lemma ClassWireNamesOfLabels()
    ensures ClassWireName("Economy") == "economy"
    ensures ClassWireName("Premium Economy") == "premium_economy"
    ensures ClassWireName("Business") == "business"
    ensures ClassWireName("First") == "first"
  {
    SingleWordWireNames();
    PremiumEconomyWireName();
  }

  lemma SingleWordWireNames()
    ensures ClassWireName("Economy") == "economy"
    ensures ClassWireName("Business") == "business"
    ensures ClassWireName("First") == "first"
  {
    EconomyWireName();
    BusinessWireName();
    FirstWireName();
  }

  lemma EconomyWireName()
    ensures ClassWireName("Economy") == "economy"
  {
    assert ToLowerCase("Economy") == "economy";
    ClassWireNameWithoutSpace("Economy", "economy");
  }

  lemma BusinessWireName()
    ensures ClassWireName("Business") == "business"
  {
    assert ToLowerCase("Business") == "business";
    ClassWireNameWithoutSpace("Business", "business");
  }

  lemma FirstWireName()
    ensures ClassWireName("First") == "first"
  {
    assert ToLowerCase("First") == "first";
    ClassWireNameWithoutSpace("First", "first");
  }

  lemma PremiumEconomyWireName()
    ensures ClassWireName("Premium Economy") == "premium_economy"
  {
    LowerOfLabels();
    var p := "premium economy";
    PremiumEconomyFirstSpace();
    IndexOfFirstOccurrence(p, ' ', 7);
    var r := ReplaceFirst(p, ' ', '_');
    assert r == p[..7] + ['_'] + p[8..];
    PremiumEconomyJoined();
  }

  lemma PremiumEconomyFirstSpace()
    ensures "premium economy"[7] == ' ' && ' ' !in "premium economy"[..7]
  {
    assert "premium economy"[..7] == "premium";
  }

  lemma PremiumEconomyJoined()
    ensures "premium economy"[..7] + ['_'] + "premium economy"[8..] == "premium_economy"
  {
  }

  lemma LowerOfLabels()
    ensures ToLowerCase("Economy") == "economy"
    ensures ToLowerCase("Premium Economy") == "premium economy"
    ensures ToLowerCase("Business") == "business"
    ensures ToLowerCase("First") == "first"
  {
  }

  /** Typing an integer's rendering commits that integer, negative ones
      included; typing 0 commits 1. */
  lemma TravelersOnChangeOfRendering(n: int)
    ensures TravelersOnChange(IntToString(n)) == (if n == 0 then 1 else n)
  {
    ParseIntOfRendering(n, [], None);
    assert IntToString(n) + [] == IntToString(n);
  }

  /** Filtering empty airports lets a form with no origin through: with only
      `via` and `destination` chosen the route is `[via, destination]`, which
      passes the route check, so the stop-over is posted as the origin. */
  lemma MissingOriginPostsViaAsOrigin(
    form: FormInputData,
    send: EmissionsRequest -> AxiosOutcome<EmissionsResponse>)
    requires form.from == "" && form.via != "" && form.destination != ""
    requires form.departureDate != "" && form.travelers >= 1
    ensures HandleSubmit(SearchState(false, None, None), form, send).sent.value.route == [form.via, form.destination]
    ensures CalculateEmissions(TransformFormData(form), send).sent.Some?
  {
    FilterNonEmptyOfThree(form.from, form.via, form.destination);
  }

  /** Submitting the untouched form is rejected by the route check. */
  lemma InitialFormIsRejected(send: EmissionsRequest -> AxiosOutcome<EmissionsResponse>)
    ensures HandleSubmit(SearchState(false, None, None), InitialFormData, send).settled
      == SearchState(false, Some(RouteRequired), None)
  {
    FilterNonEmptyOfThree("", "", "");
  }
}
