/** The traveller-count input shared by the dashboard's past and future forms
    (src/components/FlightDashboard/PastFlightsForm.tsx and FutureFlightsForm.tsx
    carry the same handlers): the count in the form data and the text in the
    input box are kept apart, and they meet again on blur. */
module TravelerInput {
  import opened Wrappers
  import opened JsText
  import opened JsNumber

  /** The count stored in the form data and the text shown in the input. */
  datatype TravelerField = TravelerField(count: int, text: string)

  /** `onBlur`: `Math.max(1, parseInt(value) || 1)` becomes the count and its
      rendering becomes the text. */
  function CommitOnBlur(value: string): (f: TravelerField)
    ensures f.count >= 1
    ensures ParseInt(value, None).Num? && ParseInt(value, None).value >= 1 ==> f.count == ParseInt(value, None).value
    ensures ParseInt(value, None).NaN? || ParseInt(value, None).value < 1 ==> f.count == 1
    ensures f.text == IntToString(f.count) && ParseInt(f.text, None) == Num(f.count)
  {
    var parsed := ParseInt(value, None);
    var orOne := if parsed.IsTruthy() then parsed.value else 1;
    var count := if orOne > 1 then orOne else 1;
    ParseIntOfRendering(count, [], None);
    assert IntToString(count) + [] == IntToString(count);
    TravelerField(count, IntToString(count))
  }

  /** `onChange`: the text always follows the input, the count only when the
      text parses. */
  function OnChange(f: TravelerField, value: string): (g: TravelerField)
    ensures g.text == value
    ensures ParseInt(value, None).NaN? ==> g.count == f.count
    ensures ParseInt(value, None).Num? ==> g.count == ParseInt(value, None).value
  {
    var parsed := ParseInt(value, None);
    TravelerField(if parsed.Num? then parsed.value else f.count, value)
  }

  /** A committed field is stable: blurring again without typing keeps it. */
  lemma BlurIsIdempotent(value: string)
    ensures CommitOnBlur(CommitOnBlur(value).text) == CommitOnBlur(value)
  {
  }

  /** Any positive integer typed in survives the blur unchanged. */
  lemma BlurKeepsPositiveInput(n: int)
    requires n >= 1
    ensures CommitOnBlur(IntToString(n)) == TravelerField(n, IntToString(n))
  {
    ParseIntOfRendering(n, [], None);
    assert IntToString(n) + [] == IntToString(n);
  }
}
