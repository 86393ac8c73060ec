/** The state the dashboard (src/components/FlightDashboard/index.tsx) shares
    between its two forms and the result panel. */
module Dashboard {
  import opened Wrappers
  import PastFlightsService
  import FutureFlightsService

  datatype Tab = PastTab | FutureTab

  /** What the forms' submit handlers write and the result panel reads. */
  datatype Status = Status(
    loading: bool,
    error: Option<string>,
    emissionsData: Option<PastFlightsService.EmissionsResponse>,
    futureEmissionsData: Option<FutureFlightsService.FlightEmissionResult>)

  const InitialStatus: Status := Status(false, None, None, None)
}
