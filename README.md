# Open Health Inspection API — request layer model

A Dafny model of the query endpoints of the Open Health Inspection API (`API.py`), a Flask
service over a MongoDB collection of inspected food vendors:

- `/vendors` builds a database filter from optional text arguments (category, type, name,
  address, city, locality), an optional geospatial search (`lat`, `lng`, `dist`) and a `limit`
  (1500 by default), then summarises every returned vendor.
- `/vendor/<vendorid>` answers with the one matching vendor and the first inspection in its list, status
  300 when several match, status 204 when none does.
- `/inspections` checks that `after` is not later than `before`, builds a filter whose single
  `inspections` key is overwritten by each requested test, then filters every returned vendor's
  inspections by the inclusive date window and their violations by `violation_text` (in the
  observation) or `violation_code` (in the code).
- Every query endpoint is wrapped for JSONP: `callback(body)` when a non-empty `callback` is given;
  a callback with a character outside ASCII makes Python 2's `str` raise UnicodeEncodeError.

Request arguments become `Option` values, database documents become `VendorDoc` records, the
documents a query returns are a parameter of each endpoint, Python dictionaries become `map`s,
and `OrderedDict` becomes `OrderedMaps.OrderedMap` (insertion-ordered keys plus lookup). Dates
are integers compared as the source compares `datetime` values. Python exceptions the projection
can raise (`KeyError`, `IndexError`, `UnboundLocalError`) are `Records.Failure` values; the web
framework answers them with an error page.

The loops of the source are methods with loop invariants (`InspectionFilter.FilterInspections`,
`Endpoints.Vendors`, `Endpoints.Inspections`), each proved equal to a recursive function whose
properties are proved as lemmas. The query builders are methods that update a local map step by
step, as the source's `query.update` calls do. Projections, validators and the JSONP wrapper are
functions.

`/inspections` is modelled as written: the loop variable `inspections` is assigned only for a
document that has an `inspections` key and is read for every document, so it is carried from one
vendor to the next (and is unbound, raising, when the first document lacks the key). The
corrected behaviour, where each vendor reports only its own inspections, is modelled beside it
(see Findings).

Files: `wrappers.dfy` (Option, Result), `texts.dfy` (substring test), `ordered_maps.dfy`,
`records.dfy` (documents, summaries, projections), `params.dfy` (arguments, validators, status
replies), `queries.dfy` (filters), `inspection_filter.dfy`, `endpoints.dfy`, `jsonp.dfy`.

## Model

| member | source | states |
|---|---|---|
| Texts.Contains | API.py:226-228 | Python's `text in s` holds exactly when `text` occurs as a contiguous slice of `s` at some position |
| OrderedMaps.Put | API.py:222-223 | storing under a key: the key then maps to the new value, other keys keep theirs, a new key goes last and an existing one keeps its place |
| Records.CoordinatesOf | API.py:117-119 | latitude is `coordinates[1]`, longitude `coordinates[0]` (GeoJSON order of section 3.1.1 of RFC 7946); re-encoding gives back the first two numbers; fewer than two numbers raise |
| Records.PositionRoundTrip | API.py:89-94 | a point written longitude-first, as the geospatial query writes it, reads back as the same latitude and longitude |
| Records.VendorsItem | API.py:108-124 | a `/vendors` summary copies name, address, city, locality, adds the vendor url; category and type together iff the document has a category; coordinates iff it has `geo`; a distance iff a point was searched; raises exactly when type, `geo` or two coordinates are missing where read |
| Records.DetailItem | API.py:145-162 | the `/vendor` summary adds the first inspection's date and violations iff the inspection list is non-empty, and raises when the document has no `inspections` key |
| Records.InspectionsItem | API.py:233-247 | an `/inspections` summary adds `last_inspection_date` iff it is not null (raising when the key is missing), the inspections table iff it is non-empty (raising while the variable is unbound), coordinates iff `geo` |
| Queries.TextFilters | API.py:71-82 | each of `category`, `type`, `name`, `address`, `city` and `locality` is a filter key exactly when its argument is given, holding the literal pattern of that argument, and no other key is set |
| Queries.VendorsQuery | API.py:66-94 | each text argument adds its own key with a literal pattern; `geo` is added iff `lat` is given, longitude first; limit defaults to 1500; status 401 and no query iff `lat` is given without `lng` or `dist` |
| Queries.InspectionsQuery | API.py:180-207 | status 401 and no query iff both dates are given and `after` is later than `before`; `_id` iff `vendorid`; the `inspections` key holds only the last applied of before, after, violation_text, violation_code |
| Queries.BeforeDroppedWithAfter | API.py:201-203 | with both dates given the upper bound `before` never reaches the database |
| InspectionFilter.SelectAppend | API.py:225-231 | violation selection distributes over concatenation, so kept violations stay in their original order |
| InspectionFilter.SelectMembers | API.py:225-231 | a violation is kept iff the text occurs in its observation, or the code in its code, or neither was given |
| InspectionFilter.SelectAll | API.py:230-231 | without text and code every violation is kept, in order |
| InspectionFilter.SelectIdempotent | API.py:225-231 | selecting the selected violations again changes nothing |
| InspectionFilter.EmittedMembers | API.py:216-223 | an inspection is emitted iff (`before` absent or date <= before) and (`after` absent or date >= after), keyed by its position, with its own date and its selected violations |
| InspectionFilter.EmittedOrder | API.py:216-222 | the emitted keys are positions below the list length, in strictly increasing order |
| InspectionFilter.EmittedWithoutMatches | API.py:222-231 | an inspection inside the window is emitted with an empty violation list when none of its violations is kept |
| InspectionFilter.DateOrderValidIffWindowNonEmpty | API.py:196-200 | the date-order check accepts exactly when the window of the two bounds contains a date: equal dates pass, one bound alone always passes |
| InspectionFilter.FilterInspections | API.py:215-231 | the filter loop over one vendor's inspections builds exactly the emitted table |
| Endpoints.Summarise | API.py:106-116 | the listing loop succeeds iff every document's summary does, and a failure is the failure of the first document whose summary fails |
| Endpoints.SummariseKeys | API.py:107-109 | with distinct ids the listing has one key per document, in cursor order |
| Endpoints.SummariseEntry | API.py:107-109 | with distinct ids each document's id maps to that document's summary |
| Endpoints.SummariseKeeps | API.py:107-109 | a later document never changes the entry of an earlier id |
| Endpoints.Vendors | API.py:64-130 | `/vendors` answers 401 for an incomplete geospatial search, 204 when nothing matched, otherwise the listing of the returned documents or the first failure |
| Endpoints.VendorDetail | API.py:144-173 | exactly one match gives that vendor's summary under its id, more than one gives status 300, none gives status 204 |
| Endpoints.Inspections | API.py:178-252 | the `/inspections` loop, carrying `inspections` across documents, produces the reply as written |
| Endpoints.CarriedInspections | API.py:213-244 | for every document `i` of a successful listing, its `inspections` entry is the filtered table of document `j`, the last document up to `i` that has the key (absent when that table is empty), which is another vendor's whenever `j < i`; a document with no such predecessor shows the table carried into the loop |
| Endpoints.UnboundBeforeFirstKey | API.py:213-244 | entering the loop with `inspections` unbound, any document reached before one with the key makes the listing fail, with UnboundLocalError once the first document's `type` and `last_inspection_date` reads succeed |
| Endpoints.AsWrittenAgreesWhenAllHaveInspections | API.py:213-244 | when every document has its `inspections` key, the listing as written equals the corrected one |
| Endpoints.CarriedInspectionsCounterexample | API.py:214-244 | a vendor without `inspections` after one with an inspection is reported with the previous vendor's table |
| Endpoints.CorrectedUsesOwnInspections | API.py:214-244 | in the corrected listing every vendor's inspections come from its own document, absent when it has none inside the window |
| Endpoints.EmptyResultRaises | API.py:211-252 | with no matching document the reply as written raises (`resp` unbound); the corrected reply is status 204 |
| Endpoints.CorrectedInspectionsReply | API.py:211-252 | the corrected reply never raises UnboundLocalError and answers a status reply when nothing matched |
| Jsonp.Wrap | API.py:29-34 | with a non-empty callback the text is the callback, `(`, the body and `)`, and it fails with UnicodeEncodeError exactly when the callback has a non-ASCII character; without a callback or with an empty one, the body unchanged |
| Jsonp.UnwrapWrap | API.py:31 | an ASCII callback always wraps, and the body is recovered from its wrapping |
| Jsonp.WrapUnwrap | API.py:31 | for an ASCII callback every text of the shape `callback(...)` is the wrapping of its inner body |

## Left out

- The locality export endpoints `/lives/<locality>` and `/lives-file/<locality>.zip` (API.py:255-286): `livesdataexporter` is not part of this model; its staleness check, write lock, background thread and file serving cannot be stated from the files available.
- `/bulk/` and `/bulk/<filename>` (API.py:288-313): directory listing, file statistics, file reads and template rendering are I/O.
- `/` (API.py:52-59): the list of the framework's routes.
- `great_circle` (API.py:38-50): floating-point trigonometry; it is a parameter `greatCircle` of `/vendors`, and `round(..., 2)` is not modelled.
- All database access (`connect`, `find` with its field projection, `$slice`, `sort`, `limit`, `count`): the documents a query returns are a parameter; the model only builds the filter and limit passed to `find`.
- Parsing of request arguments (`int`, `float`, `datetime.strptime`, `ObjectId`): arguments arrive parsed, so their ValueError and invalid-id paths are not modelled.
- `strftime` formatting of dates, `re.compile(re.escape(...), re.IGNORECASE)` (an opaque `Literal` pattern), `json.dumps` layout including `pretty`, response objects and mime types.
- Documents missing `name`, `address`, `city` or `locality`, or having `geo` without `coordinates`: the record type always holds these, so those KeyError paths are not modelled.
- Inspections missing `date` or `violations` (API.py:162, 222, 225) and violations missing `observation` or `code` (API.py:226, 228): the record types always hold these, so those KeyError paths are not modelled.
- Null values: the model has no null except for `last_inspection_date`, so these paths are not modelled. A null `category` or `type` is copied into the summary like any value (API.py:115-116, 153-154, 239-240). A null `geo` raises TypeError at its `coordinates` read on every endpoint (API.py:118, 156, 246). A null `inspections` is treated as an empty list by `/vendor/<vendorid>`, which then adds no `last_inspection_date` or `violations` (API.py:159), and raises TypeError in `/inspections` at `enumerate` (API.py:216). Inside the nested records, a null inspection `date` raises TypeError at the window comparison when a bound is given (API.py:217, 219) and otherwise AttributeError at `strftime` (API.py:222, and API.py:161 in `/vendor/<vendorid>`), and a null violation `observation` or `code` raises TypeError at the `in` test (API.py:226, 228).
- Jsonp.Wrap: the source converts the callback before calling the endpoint, so with a non-ASCII callback the endpoint never runs; the model takes the endpoint's body as a parameter and does not state that order. The body is assumed ASCII, as `json.dumps` writes it by default.
- Violations carry only `observation` and `code`; their other keys are passed through untouched in the source.
- Endpoints.Summarise: key order of a single summary (built from a Python 2 dict literal, so unordered) is not modelled; a summary is a record.
- InspectionFilter.FilterInspections: the source stores an inspection with an empty list and then appends kept violations to it; the model collects them first and stores once, which yields the same table.
- Endpoints.SummariseKeys: stated for distinct document ids, as the collection's `_id` guarantees; with repeated ids a later summary replaces an earlier one in place (OrderedMaps.Put).

## Findings

| source | as written | input that shows it | evidently intended | confidence | as-written member | corrected member |
|---|---|---|---|---|---|---|
| API.py:214-244 | `inspections` is assigned only for a document with an `inspections` key but is read for every document | `/inspections` with no filters returning vendor `a` with one inspection, then vendor `b` without the key: `b` is reported with `a`'s inspections (and a first document without the key raises UnboundLocalError) | each vendor reports only its own inspections | high, not executed | Endpoints.CarriedInspectionsCounterexample | Endpoints.CorrectedUsesOwnInspections |
| API.py:211-252 | `resp` is assigned only when the query matched something | `/inspections` matching no vendor: `return resp` raises UnboundLocalError | a status 204 reply, as `/vendors` gives | medium, not executed | Endpoints.EmptyResultRaises | Endpoints.CorrectedInspectionsReply |
