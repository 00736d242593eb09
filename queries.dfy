/** The database filters `/vendors` and `/inspections` build with successive `query.update` calls. */
module Queries {
  import opened Wrappers
  import opened Records
  import opened Params

  /** The body of an `$elemMatch` on `inspections`. */
  datatype ElemTest =
    | DateAtMost(bound: Date)          // {'date': {'$lte': before}}
    | DateAtLeast(bound: Date)         // {'date': {'$gte': after}}
    | ObservationLike(text: string)    // {'violations.observation': pattern}
    | CodeLike(text: string)           // {'violations.code': pattern}

  /** The value stored under one filter key. `Literal(t)` is the compiled case-insensitive
      pattern that matches `t` literally; it is kept opaque. */
  datatype Cond =
    | Literal(text: string)
    | IdEquals(id: string)
    | NearSphere(position: seq<real>, maxDistance: int)
    | ElemMatch(test: ElemTest)

  datatype Find = Find(filter: map<string, Cond>, limit: int)

  /** `key` is filtered exactly when its argument is given, by the literal pattern of that argument. */
  predicate TextFilterApplied(filter: map<string, Cond>, key: string, arg: Option<string>)
  {
    (key in filter <==> arg.Some?) && (arg.Some? ==> filter[key] == Literal(arg.value))
  }

  const VendorsKeys: set<string> := {"category", "type", "name", "address", "city", "locality", "geo"}

  /** The text filters of `/vendors`, added in the order the source adds them. */
  method TextFilters(args: VendorsArgs) returns (query: map<string, Cond>)
    ensures TextFilterApplied(query, "category", args.category)
    ensures TextFilterApplied(query, "type", args.vtype)
    ensures TextFilterApplied(query, "name", args.name)
    ensures TextFilterApplied(query, "address", args.address)
    ensures TextFilterApplied(query, "city", args.city)
    ensures TextFilterApplied(query, "locality", args.locality)
    ensures query.Keys <= VendorsKeys - {"geo"}
  {
    query := map[];
    if args.category.Some? {
      query := query["category" := Literal(args.category.value)];
    }
    if args.vtype.Some? {
      query := query["type" := Literal(args.vtype.value)];
    }
    if args.name.Some? {
      query := query["name" := Literal(args.name.value)];
    }
    if args.address.Some? {
      query := query["address" := Literal(args.address.value)];
    }
    if args.city.Some? {
      query := query["city" := Literal(args.city.value)];
    }
    if args.locality.Some? {
      query := query["locality" := Literal(args.locality.value)];
    }
  }

  /** The `/vendors` query, or the 401 reply when a geospatial search is incomplete. */
  method VendorsQuery(args: VendorsArgs) returns (r: Result<Find, StatusBody>)
    ensures r.Err? <==> !GeoParamsComplete(args)
    ensures r.Err? ==> r.error == GeoParamsError
    ensures r.Ok? ==> r.value.limit == LimitOf(args.limit)
    ensures r.Ok? ==> TextFilterApplied(r.value.filter, "category", args.category)
    ensures r.Ok? ==> TextFilterApplied(r.value.filter, "type", args.vtype)
    ensures r.Ok? ==> TextFilterApplied(r.value.filter, "name", args.name)
    ensures r.Ok? ==> TextFilterApplied(r.value.filter, "address", args.address)
    ensures r.Ok? ==> TextFilterApplied(r.value.filter, "city", args.city)
    ensures r.Ok? ==> TextFilterApplied(r.value.filter, "locality", args.locality)
    ensures r.Ok? ==> ("geo" in r.value.filter <==> args.lat.Some?)
    ensures r.Ok? && args.lat.Some? ==>
      r.value.filter["geo"] == NearSphere(Position(Coordinates(args.lat.value, args.lng.value)), args.dist.value)
    ensures r.Ok? ==> r.value.filter.Keys <= VendorsKeys
  {
    var limit := DefaultLimit;
    if args.limit.Some? {
      limit := args.limit.value;
    }
    var query := TextFilters(args);
    if args.lat.Some? {
      if args.lng.None? || args.dist.None? {
        return Err(GeoParamsError);
      }
      query := query["geo" := NearSphere([args.lng.value, args.lat.value], args.dist.value)];
    }
    return Ok(Find(query, limit));
  }

  /** The `$elemMatch` tests `/inspections` writes under the one key `inspections`, in the order written. */
  function AppliedTests(args: InspectionsArgs): seq<ElemTest>
  {
    (if args.before.Some? then [DateAtMost(args.before.value)] else [])
    + (if args.after.Some? then [DateAtLeast(args.after.value)] else [])
    + (if args.violationText.Some? then [ObservationLike(args.violationText.value)] else [])
    + (if args.violationCode.Some? then [CodeLike(args.violationCode.value)] else [])
  }

  /** The `/inspections` query, or the 401 reply when `after` is later than `before`.
      Every test overwrites the previous one: only the last written reaches the database. */
  method InspectionsQuery(args: InspectionsArgs) returns (r: Result<Find, StatusBody>)
    ensures r.Err? <==> !DateOrderValid(args.before, args.after)
    ensures r.Err? ==> r.error == DateOrderError
    ensures r.Ok? ==> r.value.limit == LimitOf(args.limit)
    ensures r.Ok? ==> ("_id" in r.value.filter <==> args.vendorid.Some?)
    ensures r.Ok? && args.vendorid.Some? ==> r.value.filter["_id"] == IdEquals(args.vendorid.value)
    ensures r.Ok? ==> ("inspections" in r.value.filter <==> |AppliedTests(args)| > 0)
    ensures r.Ok? && |AppliedTests(args)| > 0 ==>
      r.value.filter["inspections"] == ElemMatch(AppliedTests(args)[|AppliedTests(args)| - 1])
    ensures r.Ok? ==> r.value.filter.Keys <= {"_id", "inspections"}
  {
    var limit := DefaultLimit;
    var query: map<string, Cond> := map[];
    if args.limit.Some? {
      limit := args.limit.value;
    }
    if args.vendorid.Some? {
      query := query["_id" := IdEquals(args.vendorid.value)];
    }
    if args.before.Some? {
      if args.after.Some? && args.after.value > args.before.value {
        return Err(DateOrderError);
      }
      query := query["inspections" := ElemMatch(DateAtMost(args.before.value))];
    }
    if args.after.Some? {
      query := query["inspections" := ElemMatch(DateAtLeast(args.after.value))];
    }
    if args.violationText.Some? {
      query := query["inspections" := ElemMatch(ObservationLike(args.violationText.value))];
    }
    if args.violationCode.Some? {
      query := query["inspections" := ElemMatch(CodeLike(args.violationCode.value))];
    }
    return Ok(Find(query, limit));
  }

  /** With both dates given, the database never sees the upper bound `before`. */
  lemma BeforeDroppedWithAfter(args: InspectionsArgs)
    requires args.before.Some? && args.after.Some?
    ensures |AppliedTests(args)| >= 2
    ensures AppliedTests(args)[|AppliedTests(args)| - 1] != DateAtMost(args.before.value)
  {
  }
}
