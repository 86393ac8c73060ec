/** The result panel (src/components/FlightDashboard/FlightResults.tsx): which
    card is shown, and the values and captions on it. Number formatting with
    `toFixed` is not modelled: a card holds the exact quantities it prints. */
module FlightResults {
  import opened Wrappers
  import opened JsText
  import opened JsNumber
  import opened Calendar
  import opened PastFlightsService
  import opened FutureFlightsService
  import opened FlightSearchForm
  import opened Dashboard
  import PastFlightsForm

  /** The two fields of the future form the panel reads; None when the field
      is absent (`undefined`). */
  datatype FutureFormView = FutureFormView(flightType: Option<string>, notes: Option<string>)

  /** What the panel renders. */
  datatype View =
    | Spinner
    | ErrorCard(message: string)
    | PastCard(
        caption: string,
        totalKg: real,
        perPassengerKg: real,
        distanceKm: real,
        withoutIrKg: Option<real>,
        flightClass: string,
        travelers: int)
    | FutureCard(
        caption: string,
        firstKg: real,
        businessKg: real,
        premiumEconomyKg: real,
        economyKg: real,
        flightLine: string,
        departure: string,
        notes: Option<string>)
    | Nothing

  const Arrow: string := "→"

  function ReturnSuffix(isReturn: bool): string {
    if isReturn then " (Return)" else " (One way)"
  }

  /** `from → via → destination` or `from → destination`, then the trip kind:
      the route the dashboard's past form builds from the same data, joined
      by arrows. */
  function PastCaption(form: FormInputData): (caption: string)
    ensures caption
      == Join(PastFlightsForm.BuildRoute(form), " " + Arrow + " ") + ReturnSuffix(form.flightType == "Return")
  {
    var suffix := ReturnSuffix(form.flightType == "Return");
    if form.via != "" then
      assert PastFlightsForm.BuildRoute(form) == [form.from, form.via, form.destination];
      CaptionWithVia(form.from, form.via, form.destination, suffix);
      form.from + " " + (Arrow + " " + form.via + " " + Arrow) + " " + form.destination + suffix
    else
      assert PastFlightsForm.BuildRoute(form) == [form.from, form.destination];
      CaptionWithoutVia(form.from, form.destination, suffix);
      form.from + " " + Arrow + " " + form.destination + suffix
  }

  lemma CaptionWithVia(from: string, via: string, destination: string, suffix: string)
    ensures from + " " + (Arrow + " " + via + " " + Arrow) + " " + destination + suffix
      == Join([from, via, destination], " " + Arrow + " ") + suffix
  {
    JoinThree(from, via, destination, " " + Arrow + " ");
  }

  lemma CaptionWithoutVia(from: string, destination: string, suffix: string)
    ensures from + " " + Arrow + " " + destination + suffix
      == Join([from, destination], " " + Arrow + " ") + suffix
  {
    JoinTwo(from, destination, " " + Arrow + " ");
  }

  /** `origin → destination`, then the trip kind read from the future form:
      the one-leg counterpart of `PastCaption`. */
  function FutureCaption(flight: FlightDetails, futureForm: FutureFormView): (caption: string)
    ensures caption
      == Join([flight.origin, flight.destination], " " + Arrow + " ") + ReturnSuffix(futureForm.flightType == Some("Return"))
    ensures |caption| >= 9 && caption[|caption| - 9..] == " (Return)" <==> futureForm.flightType == Some("Return")
    ensures futureForm.flightType != Some("Return") ==> |caption| >= 10 && caption[|caption| - 10..] == " (One way)"
  {
    var suffix := ReturnSuffix(futureForm.flightType == Some("Return"));
    CaptionWithoutVia(flight.origin, flight.destination, suffix);
    var caption := flight.origin + " " + Arrow + " " + flight.destination + suffix;
    assert caption[|caption| - |suffix|..] == suffix;
    if futureForm.flightType != Some("Return") then
      assert caption[|caption| - 9..] == suffix[1..];
      assert caption[|caption| - 9] == '(';
      caption
    else
      caption
  }

  /** `formatEmissions`: grams per passenger shown as kilograms. */
  function FormatEmissions(grams: real): (kg: real)
    ensures kg * 1000.0 == grams
    ensures grams >= 0.0 ==> 0.0 <= kg <= grams
  {
    grams / 1000.0
  }

  /** `${year}-${MM}-${DD}`: the year written as is, then month and day as
      two digits each, padded with `0`. */
  function FormatDeparture(d: Date): (text: string)
    ensures 0 <= d.month < 100 && 0 <= d.day < 100 ==>
      && |text| == |IntToString(d.year)| + 6
      && text[..|text| - 6] == IntToString(d.year)
      && text[|text| - 6] == '-' && text[|text| - 3] == '-'
      && AllRadixDigits(text[|text| - 5..|text| - 3], 10) && DigitsValue(text[|text| - 5..|text| - 3], 10) == d.month
      && AllRadixDigits(text[|text| - 2..], 10) && DigitsValue(text[|text| - 2..], 10) == d.day
  {
    var year := IntToString(d.year);
    var month := PadStart(IntToString(d.month), 2, '0');
    var day := PadStart(IntToString(d.day), 2, '0');
    if 0 <= d.month < 100 && 0 <= d.day < 100 then
      TwoDigitRendering(d.month);
      TwoDigitRendering(d.day);
      DashedPieces(year, month, day);
      year + "-" + month + "-" + day
    else
      year + "-" + month + "-" + day
  }

  /** Where the pieces of `a-b-c` sit when `b` and `c` have two letters each. */
  lemma DashedPieces(a: string, b: string, c: string)
    requires |b| == 2 && |c| == 2
    ensures var s := a + "-" + b + "-" + c;
      && |s| == |a| + 6 && s[..|s| - 6] == a && s[|s| - 6] == '-' && s[|s| - 5..|s| - 3] == b
      && s[|s| - 3] == '-' && s[|s| - 2..] == c
  {
    var s := a + "-" + b + "-" + c;
    assert s[..|s| - 6] == a;
    assert s[|s| - 5..|s| - 3] == b;
    assert s[|s| - 2..] == c;
  }

  /** JavaScript truthiness of an optional string: absent and "" are falsy. */
  predicate IsShown(s: Option<string>) {
    s.Some? && s.value != ""
  }

  function RenderPast(form: FormInputData, data: EmissionsResponse): (v: View)
    ensures v.PastCard?
    ensures v.totalKg == data.totalEmissions && v.perPassengerKg == data.perPassenger
    ensures v.distanceKm == data.totalDistance
    ensures v.withoutIrKg.Some? <==> form.radiativeFactor
    ensures v.withoutIrKg.Some? ==> v.withoutIrKg.value == data.withoutIr
    ensures v.caption == PastCaption(form)
    ensures v.flightClass == form.flightClass && v.travelers == form.travelers
  {
    PastCard(
      PastCaption(form),
      data.totalEmissions,
      data.perPassenger,
      data.totalDistance,
      if form.radiativeFactor then Some(data.withoutIr) else None,
      form.flightClass,
      form.travelers)
  }

  function RenderFuture(futureForm: FutureFormView, result: FlightEmissionResult): (v: View)
    ensures v.FutureCard?
    ensures var g := result.emissionsGramsPerPax;
      && v.firstKg * 1000.0 == g.first && v.businessKg * 1000.0 == g.business
      && v.premiumEconomyKg * 1000.0 == g.premiumEconomy && v.economyKg * 1000.0 == g.economy
    ensures v.notes.Some? <==> IsShown(futureForm.notes)
    ensures v.notes.Some? ==> v.notes == futureForm.notes
    ensures v.caption == FutureCaption(result.flight, futureForm)
    ensures v.flightLine == result.flight.operatingCarrierCode + " " + IntToString(result.flight.flightNumber)
    ensures v.departure == FormatDeparture(result.flight.departureDate)
  {
    var flight := result.flight;
    var g := result.emissionsGramsPerPax;
    FutureCard(
      FutureCaption(flight, futureForm),
      FormatEmissions(g.first),
      FormatEmissions(g.business),
      FormatEmissions(g.premiumEconomy),
      FormatEmissions(g.economy),
      flight.operatingCarrierCode + " " + IntToString(flight.flightNumber),
      FormatDeparture(flight.departureDate),
      if IsShown(futureForm.notes) then futureForm.notes else None)
  }

  /** `FlightResults`: loading first, then a (non-empty) error, then the card
      of the active tab when that tab has data, else nothing. */
  function Render(tab: Tab, pastForm: FormInputData, futureForm: FutureFormView, status: Status): (v: View)
    ensures status.loading <==> v == Spinner
    ensures v.ErrorCard? <==> !status.loading && IsShown(status.error)
    ensures v.ErrorCard? ==> v.message == status.error.value
    ensures v.PastCard? <==>
      !status.loading && !IsShown(status.error) && tab == PastTab && status.emissionsData.Some?
    ensures v.FutureCard? <==>
      !status.loading && !IsShown(status.error) && tab == FutureTab && status.futureEmissionsData.Some?
    ensures v.PastCard? ==> v == RenderPast(pastForm, status.emissionsData.value)
    ensures v.FutureCard? ==> v == RenderFuture(futureForm, status.futureEmissionsData.value)
  {
    if status.loading then Spinner
    else if IsShown(status.error) then ErrorCard(status.error.value)
    else if tab == PastTab && status.emissionsData.Some? then RenderPast(pastForm, status.emissionsData.value)
    else if tab == FutureTab && status.futureEmissionsData.Some? then RenderFuture(futureForm, status.futureEmissionsData.value)
    else Nothing
  }
}
