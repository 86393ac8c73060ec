/** Properties that relate the components to one another: the two past-flight
    adapters, the two future-flight request builders, the result panel and
    the forms that feed it. */
module Consistency {
  import opened Wrappers
  import opened JsText
  import opened JsNumber
  import opened Calendar
  import opened Http
  import opened Dashboard
  import PastFlightsService
  import FutureFlightsService
  import opened FlightSearchForm
  import PastFlightsForm
  import FutureFlightsForm
  import FutureFlightForm
  import opened FlightResults

  // ---------------------------------------------------------------------------
  // The two past-flight adapters

  /** The dashboard's past form and the stand-alone search form build the same
      request whenever origin and destination are chosen; with no origin but a
      stop-over, the dashboard refuses while the search form's route is
      `[via, destination]`. */
  lemma PastAdaptersAgree(form: FormInputData)
    ensures form.from != "" && form.destination != "" ==>
      PastFlightsForm.BuildRequest(form) == Success(TransformFormData(form))
    ensures form.from == "" && form.via != "" && form.destination != "" ==>
      && PastFlightsForm.BuildRequest(form) == Failure(PastFlightsService.RouteRequired)
      && TransformFormData(form).route == [form.via, form.destination]
  {
    FilterNonEmptyOfThree(form.from, form.via, form.destination);
  }

  // ---------------------------------------------------------------------------
  // Dates

  /** Where the pieces of `a-b-c` sit when `a` has four letters and `b`, `c` two. */
  lemma DatePieces(a: string, b: string, c: string)
    requires |a| == 4 && |b| == 2 && |c| == 2
    ensures var s := a + "-" + b + "-" + c;
      && |s| == 10 && s[4] == '-' && s[7] == '-' && s[..4] == a && s[5..7] == b && s[8..] == c
  {
  }

  /** The panel's departure text of a date with a four-digit year is an ISO
      date-only string, and `new Date` reads it back as the same date. */
  lemma DepartureParsesBack(d: Date)
    requires IsValid(d) && 1000 <= d.year <= 9999
    ensures ParseDateOnly(FormatDeparture(d)) == At(d)
  {
    var y := IntToString(d.year);
    var m := PadStart(IntToString(d.month), 2, '0');
    var dd := PadStart(IntToString(d.day), 2, '0');
    NatToStringLength(d.year, 3);
    DigitsValueOfNatToString(d.year);
    TwoDigitRendering(d.month);
    TwoDigitRendering(d.day);
    var s := FormatDeparture(d);
    assert s == y + "-" + m + "-" + dd;
    DatePieces(y, m, dd);
    assert IsDateOnlyShape(s);
  }

  lemma DepartureSplit(d: Date)
    requires d.year >= 0 && 0 <= d.month < 100 && 0 <= d.day < 100
    ensures Split(FormatDeparture(d), '-') == [
      IntToString(d.year), PadStart(IntToString(d.month), 2, '0'), PadStart(IntToString(d.day), 2, '0')]
  {
    var y := IntToString(d.year);
    TwoDigitRendering(d.month);
    TwoDigitRendering(d.day);
    assert AllRadixDigits(y, 10);
    assert '-' !in y;
    SplitThree(y, PadStart(IntToString(d.month), 2, '0'), PadStart(IntToString(d.day), 2, '0'), '-');
  }

  /** `Number` of a natural number's rendering, padded or not, is that number. */
  lemma NumberOfRendering(n: nat)
    ensures ToNumber(IntToString(n)) == Num(n)
    ensures n < 100 ==> ToNumber(PadStart(IntToString(n), 2, '0')) == Num(n)
  {
    DigitsValueOfNatToString(n);
    ToNumberOfDigits(IntToString(n));
    if n < 100 {
      TwoDigitRendering(n);
      ToNumberOfDigits(PadStart(IntToString(n), 2, '0'));
    }
  }

  /** The stand-alone form's split-and-`Number` reading of the panel's
      departure text gives back year, month and day. */
  lemma DepartureSplitsBack(d: Date)
    requires d.year >= 0 && 0 <= d.month < 100 && 0 <= d.day < 100
    ensures FutureFlightForm.SplitDate(FormatDeparture(d))
      == FutureFlightForm.DateParts(Some(Num(d.year)), Some(Num(d.month)), Some(Num(d.day)))
  {
    DepartureSplit(d);
    NumberOfRendering(d.year);
    NumberOfRendering(d.month);
    NumberOfRendering(d.day);
  }

  /** A `YYYY-MM-DD` string is its three digit groups joined by `-`. */
  lemma DateOnlyPieces(s: string)
    requires IsDateOnlyShape(s)
    ensures s == s[..4] + "-" + s[5..7] + "-" + s[8..]
    ensures Split(s, '-') == [s[..4], s[5..7], s[8..]]
  {
    assert s == s[..4] + "-" + s[5..7] + "-" + s[8..];
    assert forall i :: 0 <= i < 4 ==> s[..4][i] == s[i];
    assert '-' !in s[..4] by {
      forall i | 0 <= i < 4 ensures s[..4][i] != '-' { assert IsRadixDigit(s[..4][i], 10); }
    }
    assert '-' !in s[5..7] by {
      forall i | 0 <= i < 2 ensures s[5..7][i] != '-' { assert IsRadixDigit(s[5..7][i], 10); }
    }
    assert '-' !in s[8..] by {
      forall i | 0 <= i < 2 ensures s[8..][i] != '-' { assert IsRadixDigit(s[8..][i], 10); }
    }
    SplitThree(s[..4], s[5..7], s[8..], '-');
  }

  /** For a date-only string naming a real calendar day, the service's
      `Date`-based components and the stand-alone form's split agree. */
  lemma DateReadingsAgree(s: string)
    requires IsDateOnlyShape(s)
    requires var m := DigitsValue(s[5..7], 10);
      1 <= m <= 12 && 1 <= DigitsValue(s[8..], 10) <= DaysInMonth(DigitsValue(s[..4], 10), m)
    ensures var c := FutureFlightsService.DateComponentsOf(s);
      FutureFlightForm.SplitDate(s) == FutureFlightForm.DateParts(Some(c.year), Some(c.month), Some(c.day))
    ensures FutureFlightsService.DateComponentsOf(s) == FutureFlightsService.DateComponents(
      Num(DigitsValue(s[..4], 10)), Num(DigitsValue(s[5..7], 10)), Num(DigitsValue(s[8..], 10)))
  {
    var y, m, d := DigitsValue(s[..4], 10), DigitsValue(s[5..7], 10), DigitsValue(s[8..], 10);
    assert ParseDateOnly(s) == At(Date(y, m, d));
    assert FutureFlightsService.DateComponentsOf(s) == FutureFlightsService.DateComponents(Num(y), Num(m), Num(d));
    DateOnlyPieces(s);
    ToNumberOfDigits(s[..4]);
    ToNumberOfDigits(s[5..7]);
    ToNumberOfDigits(s[8..]);
  }

  // ---------------------------------------------------------------------------
  // What the panel shows after a submission

  /** After the dashboard's past form settles, the past tab shows either the
      error it set or the card of the data it stored. */
  lemma PastSubmissionIsShown(
    s: Status,
    form: FormInputData,
    futureForm: FutureFormView,
    send: PastFlightsService.EmissionsRequest -> AxiosOutcome<PastFlightsService.EmissionsResponse>)
    ensures var settled := PastFlightsForm.Submit(s, form, send).settled;
      var v := Render(PastTab, form, futureForm, settled);
      && (settled.error.Some? ==> v == ErrorCard(settled.error.value))
      && (settled.emissionsData.Some? ==> v == RenderPast(form, settled.emissionsData.value))
    ensures form.from == "" ==>
      Render(PastTab, form, futureForm, PastFlightsForm.Submit(s, form, send).settled)
        == ErrorCard(PastFlightsService.RouteRequired)
  {
  }

  /** A failed future submission is shown in front of any earlier result,
      which it leaves in place. */
  lemma FutureFailureIsShown(
    s: Status,
    form: FutureFlightsForm.FutureFlightData,
    today: Date,
    apiKey: Option<string>,
    send: FutureFlightsService.TravelApiRequest -> AxiosOutcome<FutureFlightsService.TravelApiResponse>,
    tab: Tab,
    pastForm: FormInputData,
    futureForm: FutureFormView)
    requires !s.loading
    requires FutureFlightsForm.Submit(s, form, today, apiKey, send).settled.error.Some?
    ensures var settled := FutureFlightsForm.Submit(s, form, today, apiKey, send).settled;
      && settled.futureEmissionsData == s.futureEmissionsData
      && Render(tab, pastForm, futureForm, settled) == ErrorCard(settled.error.value)
  {
    var t := FutureFlightsForm.Submit(s, form, today, apiKey, send);
    if t.sent.None? {
      assert FutureFlightsForm.Validate(form, today).error != "";
    }
  }

  /** The dashboard hands the panel future form data without `flightType` or
      `notes`, so every future card reads " (One way)" and has no notes line. */
  lemma DashboardFutureCardIsOneWay(result: FutureFlightsService.FlightEmissionResult)
    ensures var v := RenderFuture(FutureFormView(None, None), result);
      && v.caption == result.flight.origin + " " + Arrow + " " + result.flight.destination + " (One way)"
      && v.notes.None?
  {
  }
  // ---------------------------------------------------------------------------
  // Where the two future-flight request builders part ways

  /** The service upper-cases the codes and the stand-alone form sends them as
      entered; the two agree exactly when the text has no lower-case letter. */
  lemma CodesAgreeIffUpperCase(code: string)
    ensures ToUpperCase(code) == code <==> forall i :: 0 <= i < |code| ==> !('a' <= code[i] <= 'z')
  {
    if ToUpperCase(code) == code {
      forall i | 0 <= i < |code| ensures !('a' <= code[i] <= 'z') {
        assert UpperChar(code[i]) == code[i];
      }
    }
  }

  /** Value of a two-letter decimal string. */
  lemma TwoDigitValue(z: string, radix: nat)
    requires |z| == 2
    ensures DigitsValue(z, radix) == DigitValue(z[0]) * radix + DigitValue(z[1])
  {
    var h := z[..1];
    assert z[..|z| - 1] == h && h[..0] == [] && h[0] == z[0];
    assert DigitsValue(h, radix) == DigitsValue(h[..0], radix) * radix + DigitValue(h[0]);
  }

  lemma RolledDateDigits()
    ensures DigitsValue("2025", 10) == 2025
    ensures DigitsValue("02", 10) == 2 && DigitsValue("30", 10) == 30
  {
    TwoDigitValue("02", 10);
    TwoDigitValue("30", 10);
    TwoDigitValue("20", 10);
    assert "2025"[..3] == "202" && "202"[..2] == "20";
  }

  lemma RolledDateShape()
    ensures IsDateOnlyShape("2025-02-30")
    ensures "2025-02-30"[..4] == "2025" && "2025-02-30"[5..7] == "02" && "2025-02-30"[8..] == "30"
  {
  }

  lemma RolledDateService()
    ensures FutureFlightsService.DateComponentsOf("2025-02-30")
      == FutureFlightsService.DateComponents(Num(2025), Num(3), Num(2))
  {
    RolledDateShape();
    RolledDateDigits();
    assert DaysInMonth(2025, 2) == 28;
    assert ParseDateOnly("2025-02-30") == At(Date(2025, 3, 2));
  }

  lemma RolledDateStandalone()
    ensures FutureFlightForm.SplitDate("2025-02-30")
      == FutureFlightForm.DateParts(Some(Num(2025)), Some(Num(2)), Some(Num(30)))
  {
    RolledDateShape();
    RolledDateDigits();
    DateOnlyPieces("2025-02-30");
    ToNumberOfDigits("2025");
    ToNumberOfDigits("02");
    ToNumberOfDigits("30");
  }

  /** A day past the end of its month: the service's `Date` rolls it into the
      next month, the stand-alone form's split keeps the digits as written. */
  lemma RolledDateReadingsDiffer()
    ensures FutureFlightsService.DateComponentsOf("2025-02-30")
      == FutureFlightsService.DateComponents(Num(2025), Num(3), Num(2))
    ensures FutureFlightForm.SplitDate("2025-02-30")
      == FutureFlightForm.DateParts(Some(Num(2025)), Some(Num(2)), Some(Num(30)))
  {
    RolledDateService();
    RolledDateStandalone();
  }

  lemma HexFlightNumberUnsigned()
    ensures TrimStart("0x1A") == "0x1A" && StripSign("0x1A") == (false, "0x1A")
  {
    assert !IsWhitespace('0');
  }

  lemma HexFlightNumberHexDigits()
    ensures ParseMagnitude("0x1A", 0) == Num(26)
  {
    var s := "0x1A";
    assert s[2..] == "1A" && "1A"[1..] == "A" && "A"[1..] == [];
    assert DigitRunLength("A", 16) == 1;
    assert DigitRunLength("1A", 16) == 2;
    assert "1A"[..2] == "1A";
    TwoDigitValue("1A", 16);
  }

  /** A hexadecimal flight number: the service reads it in base 10 and stops at
      the `x`, the stand-alone form's radix-less `parseInt` reads it in base 16. */
  lemma HexFlightNumberReadingsDiffer()
    ensures ParseInt("0x1A", Some(10)) == Num(0)
    ensures ParseInt("0x1A", None) == Num(26)
  {
    assert "" + "" + "0" + "x1A" == "0x1A";
    assert DigitsValue("0", 10) == 0;
    ParseIntOfDecimal("", "", "0", "x1A", Some(10));
    HexFlightNumberUnsigned();
    HexFlightNumberHexDigits();
  }

  // ---------------------------------------------------------------------------
  // Worked figures

  /** A past result is shown with the figures the service returned, kilograms
      as delivered, and the without-forcing figure only when forcing was asked. */
  lemma PastFiguresShownAsReturned(form: FormInputData, data: PastFlightsService.EmissionsResponse)
    requires form.radiativeFactor
    requires data.totalEmissions == 200.0 && data.perPassenger == 100.0
    requires data.totalDistance == 500.0 && data.withoutIr == 100.0
    ensures var v := RenderPast(form, data);
      v.totalKg == 200.0 && v.perPassengerKg == 100.0 && v.withoutIrKg == Some(100.0)
  {
  }

  /** A future result of 50000 grams per economy passenger reads 50 kilograms:
      the panel divides by 1000 and applies neither a forcing factor nor the
      traveller count. */
  lemma FutureFiguresAreGramsOverThousand(futureForm: FutureFormView, result: FutureFlightsService.FlightEmissionResult)
    requires result.emissionsGramsPerPax.economy == 50000.0
    ensures RenderFuture(futureForm, result).economyKg == 50.0
  {
  }
}
