/** The three query endpoints: the reply each builds from its arguments and from the documents
    the database returned for its query. */
module Endpoints {
  import opened Wrappers
  import opened OrderedMaps
  import opened Records
  import opened Params
  import opened Queries
  import opened InspectionFilter

  datatype Reply =
    | Listing(vendors: OrderedMap<string, Summary>)   // id -> summary, in cursor order
    | Single(id: string, vendor: Summary)             // `{id: summary}` of `/vendor/<vendorid>`
    | StatusReply(body: StatusBody)

  /** The ids of the documents, in cursor order. */
  function Ids(items: seq<VendorDoc>): (ids: seq<string>)
    ensures |ids| == |items|
  {
    seq(|items|, i requires 0 <= i < |items| => items[i].id)
  }

  /** The ids start with the first document's. */
  lemma IdsFirst(items: seq<VendorDoc>)
    requires |items| > 0
    ensures Ids(items) == [items[0].id] + Ids(items[1..])
  {
  }

  /** No two documents share an id (as for the collection's `_id`). */
  predicate DistinctIds(items: seq<VendorDoc>)
  {
    forall i, j :: 0 <= i < j < |items| ==> items[i].id != items[j].id
  }

  /** None of the documents has an id already in the table. */
  predicate FreshIds(acc: OrderedMap<string, Summary>, items: seq<VendorDoc>)
  {
    forall i :: 0 <= i < |items| ==> items[i].id !in acc.entries
  }

  // ---------------------------------------------------------------------------
  // The listing loop shared by `/vendors` and the corrected `/inspections`

  /** Document `i` is the first whose projection raises, and it raises `e`. */
  ghost predicate FailsFirstAt(items: seq<VendorDoc>, project: VendorDoc -> Result<Summary, Failure>, i: int, e: Failure)
  {
    && 0 <= i < |items|
    && project(items[i]) == Err(e)
    && (forall k :: 0 <= k < i ==> project(items[k]).Ok?)
  }

  /** Past a first document that projects, every document projects iff every later one does. */
  lemma AllOkShifted(items: seq<VendorDoc>, project: VendorDoc -> Result<Summary, Failure>)
    requires |items| > 0 && project(items[0]).Ok?
    ensures (forall i :: 0 <= i < |items| ==> project(items[i]).Ok?)
        <==> (forall i :: 0 <= i < |items| - 1 ==> project(items[1..][i]).Ok?)
  {
    assert forall i :: 1 <= i < |items| ==> items[1..][i - 1] == items[i];
  }

  /** Past a first document that projects, the first failure of the rest is the first failure. */
  lemma FailsFirstShifted(items: seq<VendorDoc>, project: VendorDoc -> Result<Summary, Failure>, j: int, e: Failure)
    requires |items| > 0 && project(items[0]).Ok? && FailsFirstAt(items[1..], project, j, e)
    ensures FailsFirstAt(items, project, j + 1, e)
  {
  }

  /** The table after adding, in cursor order, each document's summary under its id; the first
      projection that raises ends the loop with that error. */
  function Summarise(acc: OrderedMap<string, Summary>, items: seq<VendorDoc>,
                     project: VendorDoc -> Result<Summary, Failure>): (r: Result<OrderedMap<string, Summary>, Failure>)
    requires Valid(acc)
    ensures r.Ok? ==> Valid(r.value)
    ensures r.Ok? <==> forall i :: 0 <= i < |items| ==> project(items[i]).Ok?
    ensures r.Err? ==> exists i :: FailsFirstAt(items, project, i, r.error)
    decreases |items|
  {
    if |items| == 0 then Ok(acc)
    else
      match project(items[0])
      case Err(e) =>
        assert FailsFirstAt(items, project, 0, e);
        Err(e)
      case Ok(s) =>
        var r := Summarise(Put(acc, items[0].id, s), items[1..], project);
        AllOkShifted(items, project);
        assert r.Err? ==> exists i :: FailsFirstAt(items, project, i, r.error) by {
          if r.Err? {
            var j :| FailsFirstAt(items[1..], project, j, r.error);
            FailsFirstShifted(items, project, j, r.error);
          }
        }
        r
  }

  /** An entry whose id no later document has is left as it was. */
  lemma {:induction false} SummariseKeeps(acc: OrderedMap<string, Summary>, items: seq<VendorDoc>,
                                          project: VendorDoc -> Result<Summary, Failure>, k: string)
    requires Valid(acc) && DistinctIds(items) && FreshIds(acc, items)
    requires k in acc.entries && Summarise(acc, items, project).Ok?
    ensures var m := Summarise(acc, items, project).value;
      k in m.entries && m.entries[k] == acc.entries[k]
    decreases |items|
  {
    if |items| > 0 {
      assert project(items[0]).Ok?;
      var acc' := Put(acc, items[0].id, project(items[0]).value);
      SummariseStep(acc, items, project);
      SummariseKeeps(acc', items[1..], project, k);
    }
  }

  /** One turn of the loop keeps the premises of the lemmas about the rest. */
  lemma SummariseStep(acc: OrderedMap<string, Summary>, items: seq<VendorDoc>,
                      project: VendorDoc -> Result<Summary, Failure>)
    requires Valid(acc) && DistinctIds(items) && FreshIds(acc, items)
    requires |items| > 0 && project(items[0]).Ok?
    ensures var acc' := Put(acc, items[0].id, project(items[0]).value);
      && Valid(acc') && DistinctIds(items[1..]) && FreshIds(acc', items[1..])
      && Summarise(acc, items, project) == Summarise(acc', items[1..], project)
  {
  }

  /** With distinct ids the loop adds one key per document, in cursor order. */
  lemma {:induction false} SummariseKeys(acc: OrderedMap<string, Summary>, items: seq<VendorDoc>,
                                         project: VendorDoc -> Result<Summary, Failure>)
    requires Valid(acc) && DistinctIds(items) && FreshIds(acc, items)
    ensures var r := Summarise(acc, items, project);
      r.Ok? ==> r.value.keys == acc.keys + Ids(items)
    decreases |items|
  {
    if |items| > 0 && project(items[0]).Ok? {
      var acc' := Put(acc, items[0].id, project(items[0]).value);
      var rest := items[1..];
      SummariseStep(acc, items, project);
      SummariseKeys(acc', rest, project);
      IdsFirst(items);
      assert acc'.keys == acc.keys + [items[0].id];
      assert acc.keys + Ids(items) == acc'.keys + Ids(rest);
    }
  }

  /** With distinct ids each document's id is mapped to that document's summary. */
  lemma {:induction false} SummariseEntry(acc: OrderedMap<string, Summary>, items: seq<VendorDoc>,
                                          project: VendorDoc -> Result<Summary, Failure>, i: nat)
    requires Valid(acc) && DistinctIds(items) && FreshIds(acc, items)
    requires i < |items| && Summarise(acc, items, project).Ok?
    ensures var m := Summarise(acc, items, project).value;
      items[i].id in m.entries && m.entries[items[i].id] == project(items[i]).value
    decreases |items|
  {
    assert project(items[0]).Ok?;
    var acc' := Put(acc, items[0].id, project(items[0]).value);
    var rest := items[1..];
    SummariseStep(acc, items, project);
    if i == 0 {
      SummariseKeeps(acc', rest, project, items[0].id);
    } else {
      assert items[i] == rest[i - 1];
      SummariseEntry(acc', rest, project, i - 1);
    }
  }

  // ---------------------------------------------------------------------------
  // /vendors

  /** The query point of a geospatial search. */
  function OriginOf(args: VendorsArgs): Option<Coordinates>
  {
    if args.lat.Some? && args.lng.Some? then Some(Coordinates(args.lat.value, args.lng.value)) else None
  }

  /** The per-document step of the `/vendors` loop. */
  function VendorsProjection(origin: Option<Coordinates>, greatCircle: (real, real, real, real) -> real)
    : VendorDoc -> Result<Summary, Failure>
  {
    d => VendorsItem(d, origin, greatCircle)
  }

  /** `/vendors`: the 401 reply for an incomplete geospatial search, the 204 reply when nothing
      matched, otherwise the listing of the returned documents. */
  method Vendors(args: VendorsArgs, items: seq<VendorDoc>, greatCircle: (real, real, real, real) -> real)
    returns (r: Result<Reply, Failure>)
    ensures !GeoParamsComplete(args) ==> r == Ok(StatusReply(GeoParamsError))
    ensures GeoParamsComplete(args) && |items| == 0 ==> r == Ok(StatusReply(NoResults))
    ensures GeoParamsComplete(args) && |items| > 0 ==>
      var listing := Summarise(Empty(), items, VendorsProjection(OriginOf(args), greatCircle));
      if listing.Ok? then r == Ok(Listing(listing.value)) else r == Err(listing.error)
  {
    var query := VendorsQuery(args);
    if query.Err? {
      return Ok(StatusReply(query.error));
    }
    if |items| == 0 {
      return Ok(StatusReply(NoResults));
    }
    var project := VendorsProjection(OriginOf(args), greatCircle);
    var vendorList: OrderedMap<string, Summary> := Empty();
    for i := 0 to |items|
      invariant Valid(vendorList)
      invariant Summarise(vendorList, items[i..], project) == Summarise(Empty(), items, project)
    {
      assert items[i..][1..] == items[i + 1..];
      var s := project(items[i]);
      if s.Err? {
        return Err(s.error);
      }
      vendorList := Put(vendorList, items[i].id, s.value);
    }
    return Ok(Listing(vendorList));
  }

  // ---------------------------------------------------------------------------
  // /vendor/<vendorid>

  /** Exactly one match gives that vendor's summary under its id, several give status 300,
      none gives status 204. */
  function VendorDetail(items: seq<VendorDoc>): (r: Result<Reply, Failure>)
    ensures |items| == 0 ==> r == Ok(StatusReply(NoVendor))
    ensures |items| > 1 ==> r == Ok(StatusReply(AmbiguousVendor))
    ensures |items| == 1 ==> (r.Ok? <==> DetailItem(items[0]).Ok?)
    ensures |items| == 1 && r.Ok? ==> r.value == Single(items[0].id, DetailItem(items[0]).value)
  {
    if |items| == 1 then
      match DetailItem(items[0])
      case Err(e) => Err(e)
      case Ok(s) => Ok(Single(items[0].id, s))
    else if |items| > 1 then Ok(StatusReply(AmbiguousVendor))
    else Ok(StatusReply(NoVendor))
  }

  // ---------------------------------------------------------------------------
  // /inspections

  /** The value of the loop variable `inspections` after the filter step for `doc`: rebuilt when
      the document has the key, otherwise whatever the previous document left there. */
  function InspectionsAfter(doc: VendorDoc, c: Criteria, carried: Option<OrderedMap<nat, InspectionEntry>>)
    : Option<OrderedMap<nat, InspectionEntry>>
  {
    if doc.inspections.Some? then Some(Emitted(doc.inspections.value, c)) else carried
  }

  /** The `/inspections` listing as written: `inspections` is carried from one document to the next. */
  function InspectionListing(acc: OrderedMap<string, Summary>, carried: Option<OrderedMap<nat, InspectionEntry>>,
                             items: seq<VendorDoc>, c: Criteria): (r: Result<OrderedMap<string, Summary>, Failure>)
    requires Valid(acc)
    ensures r.Ok? ==> Valid(r.value)
    decreases |items|
  {
    if |items| == 0 then Ok(acc)
    else
      var current := InspectionsAfter(items[0], c, carried);
      match InspectionsItem(items[0], current)
      case Err(e) => Err(e)
      case Ok(s) => InspectionListing(Put(acc, items[0].id, s), current, items[1..], c)
  }

  /** The reply of `/inspections` as written. With no matching document `resp` is never
      assigned, so returning it raises. */
  function InspectionsReply(args: InspectionsArgs, items: seq<VendorDoc>): Result<Reply, Failure>
  {
    if !DateOrderValid(args.before, args.after) then Ok(StatusReply(DateOrderError))
    else if |items| == 0 then Err(UnboundLocalError("resp"))
    else
      match InspectionListing(Empty(), None, items, CriteriaOf(args))
      case Err(e) => Err(e)
      case Ok(m) => Ok(Listing(m))
  }

  /** `/inspections`: validate the dates, build the query, then summarise the returned documents,
      filtering each one's inspections and violations. */
  method Inspections(args: InspectionsArgs, items: seq<VendorDoc>) returns (r: Result<Reply, Failure>)
    ensures r == InspectionsReply(args, items)
  {
    var query := InspectionsQuery(args);
    if query.Err? {
      return Ok(StatusReply(query.error));
    }
    if |items| == 0 {
      return Err(UnboundLocalError("resp"));
    }
    var c := CriteriaOf(args);
    var vendorList: OrderedMap<string, Summary> := Empty();
    var inspections: Option<OrderedMap<nat, InspectionEntry>> := None;
    for i := 0 to |items|
      invariant Valid(vendorList)
      invariant InspectionListing(vendorList, inspections, items[i..], c) == InspectionListing(Empty(), None, items, c)
    {
      assert items[i..][1..] == items[i + 1..];
      var item := items[i];
      if item.inspections.Some? {
        var emitted := FilterInspections(item.inspections.value, c);
        inspections := Some(emitted);
      }
      var s := InspectionsItem(item, inspections);
      if s.Err? {
        return Err(s.error);
      }
      vendorList := Put(vendorList, item.id, s.value);
    }
    return Ok(Listing(vendorList));
  }

  /** What a summary shows of the table `inspections` holds: the table when it is non-empty. */
  function Shown(t: Option<OrderedMap<nat, InspectionEntry>>): Option<OrderedMap<nat, InspectionEntry>>
  {
    if t.Some? && |t.value.keys| > 0 then t else None
  }

  /** Document `j` is the last one up to document `i` that has an `inspections` key. */
  ghost predicate LastWithKey(items: seq<VendorDoc>, i: int, j: int)
  {
    && 0 <= j <= i < |items|
    && items[j].inspections.Some?
    && (forall k :: j < k <= i ==> items[k].inspections.None?)
  }

  /** No document up to document `i` has an `inspections` key. */
  ghost predicate NoKeyUpTo(items: seq<VendorDoc>, i: int)
  {
    && 0 <= i < |items|
    && (forall k :: 0 <= k <= i ==> items[k].inspections.None?)
  }

  /** Dropping the first document shifts both predicates down by one. */
  lemma ShiftedKeys(items: seq<VendorDoc>, i: int, j: int)
    requires 0 < i < |items|
    ensures j == 0 && LastWithKey(items, i, j) ==> NoKeyUpTo(items[1..], i - 1)
    ensures NoKeyUpTo(items, i) ==> NoKeyUpTo(items[1..], i - 1)
    ensures 0 < j && LastWithKey(items, i, j) ==> LastWithKey(items[1..], i - 1, j - 1)
  {
  }

  /** One turn of the loop as written keeps the premises of the lemmas about the rest. */
  lemma InspectionListingStep(acc: OrderedMap<string, Summary>, carried: Option<OrderedMap<nat, InspectionEntry>>,
                              items: seq<VendorDoc>, c: Criteria)
    returns (current: Option<OrderedMap<nat, InspectionEntry>>, acc': OrderedMap<string, Summary>)
    requires Valid(acc) && DistinctIds(items) && FreshIds(acc, items)
    requires |items| > 0 && InspectionListing(acc, carried, items, c).Ok?
    ensures current == InspectionsAfter(items[0], c, carried) && current.Some?
    ensures InspectionsItem(items[0], current).Ok?
    ensures InspectionsItem(items[0], current).value.inspections == Shown(current)
    ensures acc' == Put(acc, items[0].id, InspectionsItem(items[0], current).value)
    ensures Valid(acc') && DistinctIds(items[1..]) && FreshIds(acc', items[1..])
    ensures InspectionListing(acc, carried, items, c) == InspectionListing(acc', current, items[1..], c)
  {
    current := InspectionsAfter(items[0], c, carried);
    acc' := Put(acc, items[0].id, InspectionsItem(items[0], current).value);
  }

  /** An entry whose id no later document has is left as it was. */
  lemma {:induction false} InspectionListingKeeps(acc: OrderedMap<string, Summary>, carried: Option<OrderedMap<nat, InspectionEntry>>,
                                                  items: seq<VendorDoc>, c: Criteria, k: string)
    requires Valid(acc) && DistinctIds(items) && FreshIds(acc, items)
    requires k in acc.entries && InspectionListing(acc, carried, items, c).Ok?
    ensures var m := InspectionListing(acc, carried, items, c).value;
      k in m.entries && m.entries[k] == acc.entries[k]
    decreases |items|
  {
    if |items| > 0 {
      var current, acc' := InspectionListingStep(acc, carried, items, c);
      InspectionListingKeeps(acc', current, items[1..], c, k);
    }
  }

  /** A document after which no document so far had the key shows the table carried into the loop. */
  lemma {:induction false} CarriedThrough(acc: OrderedMap<string, Summary>, carried: Option<OrderedMap<nat, InspectionEntry>>,
                                          items: seq<VendorDoc>, c: Criteria, i: nat)
    requires Valid(acc) && DistinctIds(items) && FreshIds(acc, items)
    requires NoKeyUpTo(items, i) && InspectionListing(acc, carried, items, c).Ok?
    ensures carried.Some?
    ensures var m := InspectionListing(acc, carried, items, c).value;
      items[i].id in m.entries && m.entries[items[i].id].inspections == Shown(carried)
    decreases |items|
  {
    var current, acc' := InspectionListingStep(acc, carried, items, c);
    assert current == carried;
    if i == 0 {
      InspectionListingKeeps(acc', current, items[1..], c, items[0].id);
    } else {
      assert items[i] == items[1..][i - 1];
      ShiftedKeys(items, i, 0);
      CarriedThrough(acc', current, items[1..], c, i - 1);
    }
  }

  /** The first document, when it has the key, shows its own table. */
  lemma CarriedHere(acc: OrderedMap<string, Summary>, carried: Option<OrderedMap<nat, InspectionEntry>>,
                    items: seq<VendorDoc>, c: Criteria)
    requires Valid(acc) && DistinctIds(items) && FreshIds(acc, items)
    requires |items| > 0 && items[0].inspections.Some? && InspectionListing(acc, carried, items, c).Ok?
    ensures var m := InspectionListing(acc, carried, items, c).value;
      items[0].id in m.entries && m.entries[items[0].id].inspections == Shown(Some(Emitted(items[0].inspections.value, c)))
  {
    var current, acc' := InspectionListingStep(acc, carried, items, c);
    InspectionListingKeeps(acc', current, items[1..], c, items[0].id);
  }

  /** A later document with no key since the first document shows the first document's table. */
  lemma CarriedFromFirst(acc: OrderedMap<string, Summary>, carried: Option<OrderedMap<nat, InspectionEntry>>,
                         items: seq<VendorDoc>, c: Criteria, i: nat)
    requires Valid(acc) && DistinctIds(items) && FreshIds(acc, items)
    requires 0 < i && LastWithKey(items, i, 0) && InspectionListing(acc, carried, items, c).Ok?
    ensures var m := InspectionListing(acc, carried, items, c).value;
      items[i].id in m.entries && m.entries[items[i].id].inspections == Shown(Some(Emitted(items[0].inspections.value, c)))
  {
    var current, acc' := InspectionListingStep(acc, carried, items, c);
    assert current == Some(Emitted(items[0].inspections.value, c));
    assert items[i] == items[1..][i - 1];
    ShiftedKeys(items, i, 0);
    CarriedThrough(acc', current, items[1..], c, i - 1);
  }

  /** Document `i` shows the table built from document `j`, the last one up to `i` with the key. */
  lemma {:induction false} CarriedFrom(acc: OrderedMap<string, Summary>, carried: Option<OrderedMap<nat, InspectionEntry>>,
                                       items: seq<VendorDoc>, c: Criteria, i: nat, j: nat)
    requires Valid(acc) && DistinctIds(items) && FreshIds(acc, items)
    requires LastWithKey(items, i, j) && InspectionListing(acc, carried, items, c).Ok?
    ensures var m := InspectionListing(acc, carried, items, c).value;
      items[i].id in m.entries && m.entries[items[i].id].inspections == Shown(Some(Emitted(items[j].inspections.value, c)))
    decreases |items|
  {
    if i == 0 {
      CarriedHere(acc, carried, items, c);
    } else if j == 0 {
      CarriedFromFirst(acc, carried, items, c, i);
    } else {
      var current, acc' := InspectionListingStep(acc, carried, items, c);
      var rest := items[1..];
      assert items[i] == rest[i - 1] && items[j] == rest[j - 1];
      ShiftedKeys(items, i, j);
      CarriedFrom(acc', current, rest, c, i - 1, j - 1);
    }
  }

  /** The listing as written, for every document: it shows the filtered inspections of the last
      document so far that had an `inspections` key, which may be an earlier vendor's; a document
      with no such predecessor shows the table carried into the loop. */
  lemma CarriedInspections(acc: OrderedMap<string, Summary>, carried: Option<OrderedMap<nat, InspectionEntry>>,
                           items: seq<VendorDoc>, c: Criteria)
    requires Valid(acc) && DistinctIds(items) && FreshIds(acc, items)
    ensures var r := InspectionListing(acc, carried, items, c);
      r.Ok? ==> forall i, j :: LastWithKey(items, i, j) ==>
        && items[i].id in r.value.entries
        && r.value.entries[items[i].id].inspections == Shown(Some(Emitted(items[j].inspections.value, c)))
    ensures var r := InspectionListing(acc, carried, items, c);
      r.Ok? ==> forall i :: NoKeyUpTo(items, i) ==>
        && carried.Some?
        && items[i].id in r.value.entries
        && r.value.entries[items[i].id].inspections == Shown(carried)
  {
    var r := InspectionListing(acc, carried, items, c);
    if r.Ok? {
      forall i, j | LastWithKey(items, i, j)
        ensures items[i].id in r.value.entries
        ensures r.value.entries[items[i].id].inspections == Shown(Some(Emitted(items[j].inspections.value, c)))
      {
        CarriedFrom(acc, carried, items, c, i, j);
      }
      forall i | NoKeyUpTo(items, i)
        ensures carried.Some? && items[i].id in r.value.entries
        ensures r.value.entries[items[i].id].inspections == Shown(carried)
      {
        CarriedThrough(acc, carried, items, c, i);
      }
    }
  }

  /** Entering the loop with `inspections` unbound, a document reached before any document with the
      key makes the listing raise; once the first document passes its `type` and
      `last_inspection_date` reads, the error is the unbound `inspections`. */
  lemma UnboundBeforeFirstKey(acc: OrderedMap<string, Summary>, items: seq<VendorDoc>, c: Criteria, i: nat)
    requires Valid(acc) && NoKeyUpTo(items, i)
    ensures InspectionListing(acc, None, items, c).Err?
    ensures !ClassificationFails(items[0]) && !items[0].lastInspectionDate.Missing? ==>
      InspectionListing(acc, None, items, c) == Err(UnboundLocalError("inspections"))
  {
  }

  // ---------------------------------------------------------------------------
  // /inspections as evidently intended: each vendor reports its own inspections

  /** The inspections of the document itself; none when it has no `inspections` key. */
  function OwnInspections(doc: VendorDoc, c: Criteria): (r: OrderedMap<nat, InspectionEntry>)
    ensures Valid(r)
    ensures doc.inspections.None? ==> |r.keys| == 0
  {
    if doc.inspections.Some? then Emitted(doc.inspections.value, c) else Empty()
  }

  /** The per-document step of the corrected `/inspections` loop. */
  function CorrectedProjection(c: Criteria): VendorDoc -> Result<Summary, Failure>
  {
    d => InspectionsItem(d, Some(OwnInspections(d, c)))
  }

  /** The corrected reply: status 204 when nothing matched, as `/vendors` answers. */
  function CorrectedInspectionsReply(args: InspectionsArgs, items: seq<VendorDoc>): (r: Result<Reply, Failure>)
    ensures r.Err? ==> !r.error.UnboundLocalError?
    ensures |items| == 0 ==> r.Ok? && r.value.StatusReply?
  {
    if !DateOrderValid(args.before, args.after) then Ok(StatusReply(DateOrderError))
    else if |items| == 0 then Ok(StatusReply(NoResults))
    else
      match Summarise(Empty(), items, CorrectedProjection(CriteriaOf(args)))
      case Err(e) => Err(e)
      case Ok(m) => Ok(Listing(m))
  }

  /** In the corrected listing every vendor's `inspections` entry is built from its own document:
      present exactly when some of its own inspections fall inside the window. */
  lemma CorrectedUsesOwnInspections(items: seq<VendorDoc>, c: Criteria)
    requires DistinctIds(items)
    ensures var r := Summarise(Empty(), items, CorrectedProjection(c));
      r.Ok? ==> forall i :: 0 <= i < |items| ==>
        && items[i].id in r.value.entries
        && r.value.entries[items[i].id].inspections ==
             (if |OwnInspections(items[i], c).keys| > 0 then Some(OwnInspections(items[i], c)) else None)
  {
    var r := Summarise(Empty(), items, CorrectedProjection(c));
    if r.Ok? {
      forall i | 0 <= i < |items|
        ensures items[i].id in r.value.entries
        ensures r.value.entries[items[i].id] == CorrectedProjection(c)(items[i]).value
      {
        SummariseEntry(Empty(), items, CorrectedProjection(c), i);
      }
    }
  }

  /** When every document has its `inspections` key nothing is carried over, and the listing as
      written is the corrected one. */
  lemma {:induction false} AsWrittenAgreesWhenAllHaveInspections(acc: OrderedMap<string, Summary>,
                                                                 carried: Option<OrderedMap<nat, InspectionEntry>>,
                                                                 items: seq<VendorDoc>, c: Criteria)
    requires Valid(acc)
    requires forall i :: 0 <= i < |items| ==> items[i].inspections.Some?
    ensures InspectionListing(acc, carried, items, c) == Summarise(acc, items, CorrectedProjection(c))
    decreases |items|
  {
    if |items| > 0 {
      var current := InspectionsAfter(items[0], c, carried);
      var s := InspectionsItem(items[0], current);
      if s.Ok? {
        assert forall i :: 1 <= i < |items| ==> items[1..][i - 1] == items[i];
        AsWrittenAgreesWhenAllHaveInspections(Put(acc, items[0].id, s.value), current, items[1..], c);
      }
    }
  }

  /** A vendor without `inspections` that follows one with an inspection inside the window is
      reported with the previous vendor's inspections (the corrected listing reports none, by
      CorrectedUsesOwnInspections). */
  lemma CarriedInspectionsCounterexample()
    ensures
      var c := Criteria(None, None, None, None);
      var ins := [Inspection(1, [])];
      var a := VendorDoc("a", "A", "1 Main St", "Town", "County", None, None, None, Null, Some(ins));
      var b := VendorDoc("b", "B", "2 Main St", "Town", "County", None, None, None, Null, None);
      var asWritten := InspectionListing(Empty(), None, [a, b], c);
      && |OwnInspections(b, c).keys| == 0
      && asWritten.Ok? && "b" in asWritten.value.entries
      && asWritten.value.entries["b"].inspections == Some(Emitted(ins, c))
      && |Emitted(ins, c).keys| == 1
  {
    var c := Criteria(None, None, None, None);
    var ins := [Inspection(1, [])];
    var a := VendorDoc("a", "A", "1 Main St", "Town", "County", None, None, None, Null, Some(ins));
    var b := VendorDoc("b", "B", "2 Main St", "Town", "County", None, None, None, Null, None);
    assert ins[..0] == [];
    var e := Emitted(ins, c);
    assert e.keys == [0];
    assert [a, b][1..] == [b] && [b][1..] == [];
    assert InspectionsAfter(a, c, None) == Some(e) && InspectionsAfter(b, c, Some(e)) == Some(e);
    var sa := InspectionsItem(a, Some(e));
    var sb := InspectionsItem(b, Some(e));
    assert sa.Ok? && sb.Ok? && sb.value.inspections == Some(e);
    var m1 := Put(Empty(), "a", sa.value);
    var m := Put(m1, "b", sb.value);
    assert InspectionListing(m, Some(e), [], c) == Ok(m);
    assert InspectionListing(m1, Some(e), [b], c) == Ok(m);
    assert InspectionListing(Empty(), None, [a, b], c) == Ok(m);
  }

  /** With no matching document the reply as written raises; the corrected reply is status 204. */
  lemma EmptyResultRaises(args: InspectionsArgs)
    requires DateOrderValid(args.before, args.after)
    ensures InspectionsReply(args, []) == Err(UnboundLocalError("resp"))
    ensures CorrectedInspectionsReply(args, []) == Ok(StatusReply(NoResults))
  {
  }
}
