# Flights emissions client: a Dafny model

The flights client is a React front end that estimates the CO₂ emissions of air
travel. It has two paths. The **past-flight** path posts a route, cabin class,
date, traveller count and a radiative-forcing flag to an emissions service. The
**future-flight** path asks Google's Travel Impact Model for the per-passenger
grams of a scheduled flight. This project models the logic of that client:

- `PastFlightsService`: `validateRequest` and `calculateEmissions`. It checks the
  request in order, posts the body unchanged, and turns a failed post into an
  error message.
- `FutureFlightsService`: `submitFutureFlight`. It checks the API key, reads the
  date with `new Date` into year/month/day, upper-cases the codes, reads the
  flight number with `parseInt(…, 10)` and keeps the first emission result.
- `FlightSearchForm`: the stand-alone search form. Its `transformFormData` drops
  empty airports and maps the cabin class. It also has a `parseInt(…) || 1`
  traveller field and its own submit handler.
- `PastFlightsForm` and `FutureFlightsForm`: the two dashboard forms. They share
  one status (loading, error, past result, future result). The traveller input
  they both use is modelled once, as `TravelerInput`.
- `FutureFlightForm`: the stand-alone future form. It reads the date by
  splitting it on `-` and calling `Number`, reads the flight number with a
  radix-less `parseInt`, and posts with `fetch`.
- `FlightResults`: the dashboard's result panel. It shows a spinner, an error,
  or the card of the active tab, in that order of precedence.

The JavaScript built-ins this code depends on are modelled as well:

- `JsText`: trimming, ASCII case mapping, first-occurrence `replace`, `split`
  and `join`, `padStart`, integer rendering.
- `JsNumber`: `parseInt` as section 19.2.5 of ECMA-262 defines it, and `Number`
  on integer literals.
- `Calendar`: `new Date` on the `YYYY-MM-DD` form, including its roll-over of
  days past the month's end.

Every network call is a function parameter (`send`, `fetch`). A submit handler
is modelled as a `Submission` with three parts:

- the state it sets before awaiting;
- the request it hands over, or `None` when it throws first;
- the state it leaves at the end.

`Consistency` relates the components to one another:

- The two past adapters agree on every complete form.
- The two future request builders differ on lower-case codes, hexadecimal
  flight numbers and rolled-over dates.
- The panel shows what a submission stored.
- The departure line the panel prints reads back as the same date.

Three behaviours of the code are worth stating on their own:

- The cabin class is mapped with `replace(' ', '_')`. It replaces the first
  space only.
- The panel shows the upstream grams divided by 1000 as they come. It applies
  no radiative-forcing factor and does not multiply by the traveller count. So
  50000 g per economy passenger shows as 50 kg.
- The dashboard hands the panel future-form data that has no `flightType` and no
  `notes`. Every future card therefore reads "(One way)" and has no notes line.

## Model

| member | source | states |
|---|---|---|
| PastFlightsService.ValidateRequest | src/services/pastFlightsService.ts:15-27 | Accepts exactly when the route has two airports, the date is non-empty and at least one traveller is given. Otherwise it returns the message of the first failing check, in the order route, date, travellers. |
| PastFlightsService.CalculateEmissions | src/services/pastFlightsService.ts:29-61 | Nothing is posted exactly when validation fails, and then the validation message is the error. Otherwise the posted body equals the input. A fulfilled post yields its data. A rejected post yields the upstream message, or "Failed to calculate emissions" when that is absent or empty. Errors are never empty. |
| Http.MessageOr | src/services/pastFlightsService.ts:58 | `message \|\| fallback`: a present, non-empty message wins; otherwise the fallback is used. |
| FutureFlightsService.DateComponentsOf | src/services/futureFlightsService.ts:75-80 | An unparsable date gives NaN in all three components. A parsed date gives its year, its 1-based month (`getMonth() + 1`) and its day. |
| FutureFlightsService.BuildRequest | src/services/futureFlightsService.ts:82-92 | Exactly one flight. Origin, destination and carrier are upper-cased. The flight number is `parseInt(…, 10)` of the text. The date is the component triple. |
| FutureFlightsService.Settle | src/services/futureFlightsService.ts:108-119 | Succeeds exactly when a response arrives with a non-empty emissions list, and then yields its first element. A response with no list or an empty one gives the no-data error. A rejected post gives the upstream message or the fallback text. |
| FutureFlightsService.SubmitFutureFlight | src/services/futureFlightsService.ts:60-121 | Without a key (undefined or empty) nothing is sent, exactly, and the key error is returned. Otherwise the built request is sent and its outcome settled. Errors are never empty. |
| FlightSearchForm.TransformFormData | src/components/FlightSearchForm.tsx:44-53 | The route is the non-empty airports among origin, via and destination, in that order. It has three airports exactly when all three are filled. The class is the wire name. `return` holds exactly for "Return". The other fields are copied. |
| FlightSearchForm.ClassWireName | src/components/FlightSearchForm.tsx:47 | Same length as the label. A label with no space is just lower-cased. Otherwise it is the lower-cased label with `_` at the position of the label's first space, and later spaces are kept. The dashboard form maps the class the same way at src/components/FlightDashboard/PastFlightsForm.tsx:71. |
| FlightSearchForm.ClassWireNamesOfLabels | src/components/FlightSearchForm.tsx:30-47 | The four class labels map to `economy`, `premium_economy`, `business` and `first`. |
| FlightSearchForm.TravelersOnChange | src/components/FlightSearchForm.tsx:198 | The count is never 0. A truthy parse is kept, negatives included. NaN and 0 become 1. |
| FlightSearchForm.TravelersOnChangeOfRendering | src/components/FlightSearchForm.tsx:198 | Typing the rendering of an integer n stores n, except that 0 stores 1. |
| FlightSearchForm.HandleSubmit | src/components/FlightSearchForm.tsx:63-78 | Loading is set, the error is cleared and the previous result is kept while waiting. The transformed form is always handed over. At the end loading is off and exactly one of result and error is set, taken from the service's outcome. |
| FlightSearchForm.MissingOriginPostsViaAsOrigin | src/components/FlightSearchForm.tsx:44-53 | With no origin but a stop-over and a destination, the route `[via, destination]` passes the service's route check and is posted. |
| FlightSearchForm.InitialFormIsRejected | src/components/FlightSearchForm.tsx:33-42 | Submitting the initial form ends with the route error and no result. |
| PastFlightsForm.BuildRoute | src/components/FlightDashboard/PastFlightsForm.tsx:64-68 | Two or three airports. It starts at the origin and ends at the destination. It has three exactly when a via is chosen, with the via in the middle. |
| PastFlightsForm.BuildRequest | src/components/FlightDashboard/PastFlightsForm.tsx:60-77 | Fails, with the route message, exactly when origin or destination is empty. Otherwise the request carries the built route, the class wire name, the return flag and the copied fields. |
| PastFlightsForm.Submit | src/components/FlightDashboard/PastFlightsForm.tsx:53-87 | While waiting: loading, no error, no past result, and the future result untouched. At the end loading is off, the future result is untouched, and exactly one of error (non-empty) and result is set. Nothing is sent exactly when origin or destination is missing. Otherwise the outcome of the service call is stored. |
| PastFlightsForm.RequestPassesRouteCheck | src/components/FlightDashboard/PastFlightsForm.tsx:60-79 | A built request never fails the service's route check. It is accepted exactly when the date is non-empty and there is at least one traveller. |
| TravelerInput.CommitOnBlur | src/components/FlightDashboard/PastFlightsForm.tsx:227-231 | On blur the count is at least 1. A parse of at least 1 is kept; NaN or anything below 1 becomes 1. The text becomes the count's rendering, which parses back to the count. |
| TravelerInput.OnChange | src/components/FlightDashboard/PastFlightsForm.tsx:232-238 | The text always follows the input. The count changes only when the text parses, and then to the parsed value. |
| TravelerInput.BlurIsIdempotent | src/components/FlightDashboard/FutureFlightsForm.tsx:175-179 | Blurring a committed field again changes nothing. |
| TravelerInput.BlurKeepsPositiveInput | src/components/FlightDashboard/FutureFlightsForm.tsx:175-179 | A positive integer typed in survives the blur unchanged. |
| FutureFlightsForm.Validate | src/components/FlightDashboard/FutureFlightsForm.tsx:40-61 | Accepts exactly when all five fields are filled and the date is not before today. Each message is given exactly when the earlier checks pass and its own check fails. On success the service receives the five fields unchanged. |
| FutureFlightsForm.Submit | src/components/FlightDashboard/FutureFlightsForm.tsx:35-77 | Only the error is cleared at the start. Loading and the past result are never touched. Nothing is sent exactly when validation fails, and then its message is the error. Otherwise the service's result is stored, or its error is set with the previous future result kept. |
| FutureFlightsForm.IsBeforeToday | src/components/FlightDashboard/FutureFlightsForm.tsx:55-59 | An unparsable date is never in the past. A parsed date is in the past exactly when the day after it is today or earlier. |
| FutureFlightsForm.TodayAcceptedYesterdayRefused | src/components/FlightDashboard/FutureFlightsForm.tsx:54-61 | A departure today passes. One on the previous calendar day fails with the past-date message. |
| FutureFlightsForm.UnparsableDateReachesService | src/components/FlightDashboard/FutureFlightsForm.tsx:50-69 | A non-empty date that `Date` cannot parse passes every check. The service then sends NaN for year, month and day. |
| FutureFlightForm.SplitDate | src/components/FutureFlightForm.tsx:50 | Year, month and day are `Number` of the first three `-`-separated parts. A missing part is undefined. |
| FutureFlightForm.BuildRequest | src/components/FutureFlightForm.tsx:52-60 | Exactly one flight. The codes are as entered. The flight number is a radix-less `parseInt`. The date is the split parts. |
| FutureFlightForm.Settle | src/components/FutureFlightForm.tsx:71-81 | The error stays clear exactly when the response is ok and its body reads, and then the body is stored. A non-ok response gives "Failed to fetch emissions data". A body or network failure gives its own message. On every error the previous data is kept, and loading ends. |
| FutureFlightForm.Submit | src/components/FutureFlightForm.tsx:44-82 | Loading is set and the error is cleared first. The request is sent exactly when the `process.env` lookup for the URL and the header succeeds, and then the end state is the settled outcome of the fetch. When the lookup throws, nothing is sent, loading ends, the error is the thrown message and the previous data is kept. |
| FutureFlightForm.EmptyDateParts | src/components/FutureFlightForm.tsx:50 | An empty date gives year 0 and no month or day. |
| FlightResults.FormatEmissions | src/components/FlightDashboard/FlightResults.tsx:38-41 | The kilograms times 1000 equal the grams, and lie between 0 and the grams for a non-negative input. |
| FlightResults.RenderPast | src/components/FlightDashboard/FlightResults.tsx:78-124 | The past card shows the returned total, per-passenger and distance figures. The without-forcing figure is shown exactly when forcing was asked for, and then it is the returned one. The caption is the past caption of the form, and the class and traveller lines are the form's. |
| FlightResults.RenderFuture | src/components/FlightDashboard/FlightResults.tsx:126-173 | Each class figure times 1000 equals the upstream grams. The notes line is shown exactly when notes are present and non-empty, and then shows them. The caption is the future caption of the flight. The flight line is the carrier, a space and the flight number's rendering. The departure is the zero-padded date text. |
| FlightResults.Render | src/components/FlightDashboard/FlightResults.tsx:52-175 | Spinner exactly when loading. Otherwise the error card exactly when the error is non-empty. Otherwise the active tab's card exactly when that tab has data. Otherwise nothing. |
| Calendar.ParseDateOnly | src/services/futureFlightsService.ts:75 | A date is read exactly when the text has the `YYYY-MM-DD` shape, the month is 1 to 12 and the day is 1 to 31. The result is always a valid date. It is that year, month and day when the day exists in the month. Otherwise it is the next month, on the day minus the month's length. |
| Calendar.RollOver | src/services/futureFlightsService.ts:75-79 | Always a valid date. It is the given day exactly when that day exists in the month. Otherwise it is the next month, on the given day minus the month's length. |
| Calendar.NextDay | src/components/FlightDashboard/FutureFlightsForm.tsx:56-59 | The next valid date: strictly later, with no valid date in between. |
| JsText.ReplaceFirst | src/components/FlightSearchForm.tsx:47 | Same length. Unchanged when the character is absent. Otherwise only its first occurrence is replaced. |
| JsText.ToUpperCase | src/services/futureFlightsService.ts:85-87 | Same length; each character is upper-cased on its own (ASCII letters only). |
| JsText.ToLowerCase | src/components/FlightSearchForm.tsx:47 | Same length; each character is lower-cased on its own (ASCII letters only). The dashboard form's class mapping at src/components/FlightDashboard/PastFlightsForm.tsx:71 uses the same call. |
| JsText.IndexOf | src/components/FlightSearchForm.tsx:47 | The position `replace` searches for: -1 exactly when the character is absent, otherwise a position holding it with no earlier occurrence. |
| JsText.PadStart | src/components/FlightDashboard/FlightResults.tsx:162 | A string at least as long as the width is kept. A shorter one is filled on the left up to the width: the result ends with the string and every added character is the filler. |
| JsText.FilterNonEmpty | src/components/FlightSearchForm.tsx:46 | Keeps exactly the non-empty elements, each as many times as it occurs. |
| JsText.FilterNonEmptyAppend | src/components/FlightSearchForm.tsx:46 | Filtering a concatenation is the concatenation of the filtered parts, so the kept elements stay in order. |
| JsText.Split | src/components/FutureFlightForm.tsx:50 | At least one part, and no part contains the separator. |
| JsText.SplitJoin | src/components/FutureFlightForm.tsx:50 | Splitting the join of one or more separator-free parts gives the parts back. |
| JsText.JoinSplit | src/components/FutureFlightForm.tsx:50 | Joining the parts of a split with the separator gives the original string back. |
| JsText.IntToString | src/components/FlightDashboard/PastFlightsForm.tsx:230 | The rendering starts with `-` exactly for negatives. A negative is `-` followed by the digits of its magnitude; any other integer is its plain digit string. |
| JsText.NatToString | src/components/FlightDashboard/PastFlightsForm.tsx:230 | All decimal digits, with a leading `0` only for zero. |
| JsNumber.ParseIntOfRendering | src/components/FlightDashboard/PastFlightsForm.tsx:228-236 | `parseInt` of an integer's rendering, followed by any text that does not continue the number, gives the integer back. |
| JsNumber.ParseInt | src/services/futureFlightsService.ts:88 | Empty or blank text and a radix outside 2 to 36 (other than 0) give NaN. A negative result comes from text starting with `-`. With radix 10 there is a number exactly when a decimal digit follows the optional sign. Without a radix a decimal digit there gives a number unless it begins `0x` or `0X`. |
| JsNumber.ParseIntOfDecimal | src/services/futureFlightsService.ts:88 | Optional white space, an optional `+` or `-`, a run of decimal digits (leading zeros allowed) and text that does not continue the number read as the signed value of the digits, with radix 10 or none. |
| JsNumber.ToNumber | src/components/FutureFlightForm.tsx:50 | Empty or blank text is 0. Text that is a decimal digit string after trimming is its value. |
| JsNumber.ToNumberOfDigits | src/components/FutureFlightForm.tsx:50 | `Number` of a non-empty decimal digit string is its value. |
| Consistency.PastAdaptersAgree | src/components/FlightDashboard/PastFlightsForm.tsx:60-77 | With origin and destination set, the dashboard form and the search form build the same request. With no origin but a via, the dashboard refuses while the search form posts `[via, destination]`. |
| FlightResults.PastCaption | src/components/FlightDashboard/FlightResults.tsx:85-86 | The caption is the route the current form builds (the dashboard form's route on the same data) joined by " → ", plus the return suffix. |
| FlightResults.FutureCaption | src/components/FlightDashboard/FlightResults.tsx:133-136 | The caption is origin and destination joined by " → ", plus the trip kind. It ends in " (Return)" exactly when the form's flight type is "Return", and in " (One way)" otherwise, absent type included. |
| FlightResults.FormatDeparture | src/components/FlightDashboard/FlightResults.tsx:162 | For a month and a day below 100, the text is the year's rendering, a dash, the month as two decimal digits, a dash and the day as two decimal digits. |
| Consistency.DepartureParsesBack | src/components/FlightDashboard/FlightResults.tsx:162 | For a four-digit year, the departure text the panel prints is read by `new Date` as the same date. |
| Consistency.DepartureSplitsBack | src/components/FlightDashboard/FlightResults.tsx:162 | The stand-alone form's split-and-`Number` reading of that text gives back year, month and day. |
| Consistency.DateReadingsAgree | src/services/futureFlightsService.ts:75-80 | On a `YYYY-MM-DD` string naming a real day, the service's components equal the stand-alone form's split. |
| Consistency.RolledDateReadingsDiffer | src/services/futureFlightsService.ts:75-80 | On "2025-02-30" the service sends 2025-3-2 and the stand-alone form sends 2025-2-30. |
| Consistency.CodesAgreeIffUpperCase | src/services/futureFlightsService.ts:85-87 | The upper-cased and as-entered codes agree exactly when the code has no lower-case letter. |
| Consistency.HexFlightNumberReadingsDiffer | src/services/futureFlightsService.ts:88 | For "0x1A", `parseInt(…, 10)` gives 0 and radix-less `parseInt` gives 26. |
| Consistency.PastSubmissionIsShown | src/components/FlightDashboard/FlightResults.tsx:52-124 | After a past submission the past tab shows the stored error or the card of the stored result. A missing origin shows the route error. |
| Consistency.FutureFailureIsShown | src/components/FlightDashboard/FlightResults.tsx:66-76 | A failed future submission keeps the earlier future result, and every tab shows the error card in front of it. |
| Consistency.DashboardFutureCardIsOneWay | src/components/FlightDashboard/FlightResults.tsx:133-136 | With the dashboard's future form data, the caption is "origin → destination (One way)" and there is no notes line. |
| Consistency.PastFiguresShownAsReturned | src/components/FlightDashboard/FlightResults.tsx:91-109 | A 200/100/100 response with forcing on shows 200 total, 100 per passenger and 100 without forcing. |
| Consistency.FutureFiguresAreGramsOverThousand | src/components/FlightDashboard/FlightResults.tsx:38-41 | 50000 g per economy passenger shows as 50 kg. |

## Left out

- HTTP transport, URLs, headers and JSON encoding are left out. Each post is a function parameter returning its outcome.
- Reading the API key from the environment is left out. The key is a parameter, and `None` stands for undefined.
- Whether the stand-alone future form's `process.env` lookup throws is a parameter of its submit handler. The parameter is `None` when `process` is defined, and otherwise the thrown error's message; that message's wording depends on the JavaScript engine and is not modelled.
- The current time is left out. "Today" is a parameter holding a calendar date.
- Time zones are left out. `new Date("YYYY-MM-DD")` is read as the UTC day it names, and the browser's local midnight is not modelled. Other date string formats `Date` accepts are not modelled; they count as invalid.
- `toFixed`, `toLocaleDateString` and the `kg CO₂e` text are left out. The panel's figures are kept as real numbers.
- FlightResults.FormatEmissions: the JavaScript double division is not modelled; exact real division is used instead.
- JsText.ToUpperCase and JsText.ToLowerCase map ASCII letters only, not the full Unicode case mapping.
- JsNumber.ToNumber reads integer literals only (decimal, `0x`, `0o`, `0b`). Fractions, exponents and `Infinity` give NaN. The dates the model feeds it are digit strings.
- JsNumber.ParseInt: numbers are unbounded integers. The rounding of results above 2^53 to the nearest double (9007199254740993 reads as 9007199254740992) and `Infinity` for very long digit strings are not modelled.
- JsNumber.ParseIntOfRendering holds in exact integer arithmetic. Above 2^53 JavaScript's reading is rounded and the round trip can fail.
- TravelerInput.BlurKeepsPositiveInput holds in exact integer arithmetic only, so for counts up to 2^53 in JavaScript.
- FlightSearchForm.TravelersOnChangeOfRendering holds in exact integer arithmetic only, so for counts up to 2^53 in JavaScript.
- Http.MessageOr: the upstream `message` is a string or absent. A non-string message (a number, an array) is treated as absent, though JavaScript would use it when it is truthy, or show it converted to text.
- PastFlightsService.CalculateEmissions: errors are never empty only for string upstream messages. A truthy non-string message that converts to empty text (an empty array) would give an empty error in JavaScript.
- FutureFlightsService.SubmitFutureFlight: the same restriction to string upstream messages applies to its non-empty errors.
- PastFlightsForm.Submit: the same restriction to string upstream messages applies to its non-empty error.
- JsText.IntToString renders integers in plain decimal. JavaScript's exponent form for magnitudes of 10^21 and above is not modelled.
- JSX layout, styling, icons, tooltips, the select options and `console` logging are left out. So are `SelectInput`, `FormResult` and `App`.
- Tab switching in `FlightDashboard/index.tsx` is left out. The model keeps only the status the forms and the panel share.
- `../services/api`, which the dashboard's past form and the search form import, is not part of this model. Its `calculateEmissions` is taken to be the one in `src/services/pastFlightsService.ts`.
- The interaction of overlapping submissions (a second submit before the first settles) is not modelled.
