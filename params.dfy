/** Request arguments of `/vendors` and `/inspections`, their validation, and the status replies. */
module Params {
  import opened Wrappers
  import opened Records

  /** The number of documents fetched when `limit` is not given. */
  const DefaultLimit: int := 1500

  /** `/vendors` arguments, already converted by `int(...)` and `float(...)`. */
  datatype VendorsArgs = VendorsArgs(
    limit: Option<int>,
    category: Option<string>,
    vtype: Option<string>,
    name: Option<string>,
    address: Option<string>,
    city: Option<string>,
    locality: Option<string>,
    lat: Option<real>,
    lng: Option<real>,
    dist: Option<int>)

  /** `/inspections` arguments; `before` and `after` already parsed as dates. */
  datatype InspectionsArgs = InspectionsArgs(
    limit: Option<int>,
    vendorid: Option<string>,
    before: Option<Date>,
    after: Option<Date>,
    violationText: Option<string>,
    violationCode: Option<string>)

  /** A `{'status': ...}` reply, with its optional `error` or `message` text. */
  datatype StatusBody = StatusBody(status: string, error: Option<string>, message: Option<string>)

  const GeoParamsError := StatusBody("401", Some("For geospatial searches lat, lng, and dist are all required fields"), None)
  const DateOrderError := StatusBody("401", Some("before date must be greater than after date"), None)
  const NoResults := StatusBody("204", None, Some("no results returned"))
  const NoVendor := StatusBody("204", None, None)
  const AmbiguousVendor := StatusBody("300", None, None)

  /** The limit the query runs with. */
  function LimitOf(limit: Option<int>): int
  {
    if limit.Some? then limit.value else DefaultLimit
  }

  /** A geospatial search names all of `lat`, `lng` and `dist`. */
  predicate GeoParamsComplete(args: VendorsArgs)
  {
    args.lat.Some? ==> args.lng.Some? && args.dist.Some?
  }

  /** `after` may not be later than `before`; nothing is checked unless both are given. */
  predicate DateOrderValid(before: Option<Date>, after: Option<Date>)
  {
    !(before.Some? && after.Some? && after.value > before.value)
  }
}
