/** Vendor documents as the database returns them, and the summaries the endpoints build from them. */
module Records {
  import opened Wrappers
  import opened OrderedMaps

  /** A calendar date; only its order matters here. */
  type Date = int

  /** One violation of an inspection (the fields the filter reads). */
  datatype Violation = Violation(observation: string, code: string)

  datatype Inspection = Inspection(date: Date, violations: seq<Violation>)

  /** A document key that may be absent, present with the value null, or present with a value. */
  datatype Field<T> = Missing | Null | Has(value: T)

  /** A vendor document, restricted to the keys the endpoints project.
      `geo` is the GeoJSON position under `geo.coordinates`. */
  datatype VendorDoc = VendorDoc(
    id: string,
    name: string,
    address: string,
    city: string,
    locality: string,
    category: Option<string>,
    vtype: Option<string>,
    geo: Option<seq<real>>,
    lastInspectionDate: Field<Date>,
    inspections: Option<seq<Inspection>>)

  datatype Coordinates = Coordinates(latitude: real, longitude: real)

  /** One inspection as `/inspections` emits it: its date and the violations the filter kept. */
  datatype InspectionEntry = InspectionEntry(date: Date, violations: seq<Violation>)

  /** A vendor summary; a key the endpoint did not add is `None`. */
  datatype Summary = Summary(
    url: Option<string>,
    name: string,
    address: string,
    city: string,
    locality: string,
    category: Option<string>,
    vtype: Option<string>,
    coordinates: Option<Coordinates>,
    dist: Option<real>,
    lastInspectionDate: Option<Date>,
    violations: Option<seq<Violation>>,
    inspections: Option<OrderedMap<nat, InspectionEntry>>)

  /** The Python exceptions a projection can raise (the web framework answers them with an error page). */
  datatype Failure = KeyError(key: string) | IndexError(key: string) | UnboundLocalError(name: string)

  /** The route of `/vendor/<vendorid>` for a vendor. */
  function VendorUrl(id: string): string
  {
    "/vendor/" + id
  }

  // ---------------------------------------------------------------------------
  // GeoJSON positions (section 3.1.1 of RFC 7946: longitude first, then latitude)

  /** The GeoJSON position of a point, as the geospatial query writes it. */
  function Position(c: Coordinates): (p: seq<real>)
    ensures |p| == 2
  {
    [c.longitude, c.latitude]
  }

  /** Reads `coordinates[1]` as latitude and `coordinates[0]` as longitude;
      a position with fewer than two numbers raises IndexError. */
  function CoordinatesOf(position: seq<real>): (r: Result<Coordinates, Failure>)
    ensures r.Ok? <==> |position| >= 2
    ensures r.Ok? ==> Position(r.value) == position[..2]
  {
    if |position| < 2 then Err(IndexError("coordinates"))
    else Ok(Coordinates(position[1], position[0]))
  }

  /** Reading back a written position gives the same point. */
  lemma PositionRoundTrip(c: Coordinates)
    ensures CoordinatesOf(Position(c)) == Ok(c)
  {
  }

  // ---------------------------------------------------------------------------
  // The projection steps shared by the three endpoints

  /** `item['type']` is read whenever `'category' in item`. */
  predicate ClassificationFails(doc: VendorDoc)
  {
    doc.category.Some? && doc.vtype.None?
  }

  /** `item['geo']['coordinates'][1]` is read whenever `'geo' in item`. */
  predicate CoordinatesFail(doc: VendorDoc)
  {
    doc.geo.Some? && |doc.geo.value| < 2
  }

  /** The summary copies name, address, city and locality. */
  ghost predicate SameBase(s: Summary, doc: VendorDoc)
  {
    s.name == doc.name && s.address == doc.address && s.city == doc.city && s.locality == doc.locality
  }

  /** category and type are both present exactly when the document has a category. */
  ghost predicate ClassifiedLike(s: Summary, doc: VendorDoc)
  {
    && s.category == doc.category
    && (s.vtype.Some? <==> doc.category.Some?)
    && (doc.category.Some? ==> s.vtype == doc.vtype)
  }

  /** coordinates are present exactly when the document has `geo`, and encode the same position. */
  ghost predicate LocatedLike(s: Summary, doc: VendorDoc)
  {
    && (s.coordinates.Some? <==> doc.geo.Some?)
    && (doc.geo.Some? && |doc.geo.value| >= 2 ==> Position(s.coordinates.value) == doc.geo.value[..2])
  }

  function Base(doc: VendorDoc, url: Option<string>): Summary
  {
    Summary(url, doc.name, doc.address, doc.city, doc.locality, None, None, None, None, None, None, None)
  }

  /** `if 'category' in item: s.update({'category': ..., 'type': item['type']})` */
  function AddClassification(s: Summary, doc: VendorDoc): Result<Summary, Failure>
  {
    if doc.category.None? then Ok(s)
    else if doc.vtype.None? then Err(KeyError("type"))
    else Ok(s.(category := doc.category, vtype := doc.vtype))
  }

  /** `if 'geo' in item: s['coordinates'] = {'latitude': c[1], 'longitude': c[0]}` */
  function AddCoordinates(s: Summary, doc: VendorDoc): Result<Summary, Failure>
  {
    if doc.geo.None? then Ok(s)
    else match CoordinatesOf(doc.geo.value)
      case Err(e) => Err(e)
      case Ok(c) => Ok(s.(coordinates := Some(c)))
  }

  /** One entry of the `/vendors` listing. `origin` is the query point when `lat` was given;
      `greatCircle(lon1, lat1, lon2, lat2)` is the distance computation, taken as a parameter. */
  function VendorsItem(doc: VendorDoc, origin: Option<Coordinates>, greatCircle: (real, real, real, real) -> real): (r: Result<Summary, Failure>)
    ensures r.Err? <==> ClassificationFails(doc) || CoordinatesFail(doc) || (origin.Some? && doc.geo.None?)
    ensures r.Ok? ==> SameBase(r.value, doc) && ClassifiedLike(r.value, doc) && LocatedLike(r.value, doc)
    ensures r.Ok? ==> r.value.url == Some(VendorUrl(doc.id))
    ensures r.Ok? ==> (r.value.dist.Some? <==> origin.Some?)
    ensures r.Ok? && origin.Some? ==>
      r.value.dist == Some(greatCircle(origin.value.longitude, origin.value.latitude, doc.geo.value[0], doc.geo.value[1]))
    ensures r.Ok? ==> r.value.lastInspectionDate.None? && r.value.violations.None? && r.value.inspections.None?
  {
    var s0 := Base(doc, Some(VendorUrl(doc.id)));
    match AddClassification(s0, doc)
    case Err(e) => Err(e)
    case Ok(s1) =>
      match AddCoordinates(s1, doc)
      case Err(e) => Err(e)
      case Ok(s2) =>
        if origin.None? then Ok(s2)
        else if doc.geo.None? then Err(KeyError("geo"))
        else
          var p := doc.geo.value;
          Ok(s2.(dist := Some(greatCircle(origin.value.longitude, origin.value.latitude, p[0], p[1]))))
  }

  /** The one vendor of `/vendor/<vendorid>`: the date and violations of the first inspection in its
      list are added
      when its `inspections` list is non-empty; a document without the key raises KeyError. */
  function DetailItem(doc: VendorDoc): (r: Result<Summary, Failure>)
    ensures r.Err? <==> ClassificationFails(doc) || CoordinatesFail(doc) || doc.inspections.None?
    ensures r.Ok? ==> SameBase(r.value, doc) && ClassifiedLike(r.value, doc) && LocatedLike(r.value, doc)
    ensures r.Ok? ==> (r.value.lastInspectionDate.Some? <==> |doc.inspections.value| > 0)
    ensures r.Ok? ==> (r.value.violations.Some? <==> |doc.inspections.value| > 0)
    ensures r.Ok? && |doc.inspections.value| > 0 ==>
      && r.value.lastInspectionDate == Some(doc.inspections.value[0].date)
      && r.value.violations == Some(doc.inspections.value[0].violations)
    ensures r.Ok? ==> r.value.url.None? && r.value.dist.None? && r.value.inspections.None?
  {
    var s0 := Base(doc, None);
    match AddClassification(s0, doc)
    case Err(e) => Err(e)
    case Ok(s1) =>
      match AddCoordinates(s1, doc)
      case Err(e) => Err(e)
      case Ok(s2) =>
        if doc.inspections.None? then Err(KeyError("inspections"))
        else if |doc.inspections.value| == 0 then Ok(s2)
        else
          var first := doc.inspections.value[0];
          Ok(s2.(lastInspectionDate := Some(first.date), violations := Some(first.violations)))
  }

  /** One entry of the `/inspections` listing. `current` is the value the loop variable `inspections`
      holds at this item (`None` while it is still unbound). */
  function InspectionsItem(doc: VendorDoc, current: Option<OrderedMap<nat, InspectionEntry>>): (r: Result<Summary, Failure>)
    ensures r.Err? <==>
      ClassificationFails(doc) || doc.lastInspectionDate.Missing? || current.None? || CoordinatesFail(doc)
    ensures r.Err? && !ClassificationFails(doc) && !doc.lastInspectionDate.Missing? && current.None? ==>
      r.error == UnboundLocalError("inspections")
    ensures r.Err? && current.Some? ==> !r.error.UnboundLocalError?
    ensures r.Ok? ==> SameBase(r.value, doc) && ClassifiedLike(r.value, doc) && LocatedLike(r.value, doc)
    ensures r.Ok? ==> (r.value.lastInspectionDate.Some? <==> doc.lastInspectionDate.Has?)
    ensures r.Ok? && doc.lastInspectionDate.Has? ==> r.value.lastInspectionDate == Some(doc.lastInspectionDate.value)
    ensures r.Ok? ==> r.value.inspections == (if |current.value.keys| > 0 then current else None)
    ensures r.Ok? ==> r.value.url.None? && r.value.dist.None? && r.value.violations.None?
  {
    var s0 := Base(doc, None);
    match AddClassification(s0, doc)
    case Err(e) => Err(e)
    case Ok(s1) =>
      if doc.lastInspectionDate.Missing? then Err(KeyError("last_inspection_date"))
      else
        var s2 := if doc.lastInspectionDate.Has? then s1.(lastInspectionDate := Some(doc.lastInspectionDate.value)) else s1;
        if current.None? then Err(UnboundLocalError("inspections"))
        else
          var s3 := if |current.value.keys| > 0 then s2.(inspections := current) else s2;
          AddCoordinates(s3, doc)
  }
}
