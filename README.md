# Complaint-management views, modelled in Dafny

This project models the request logic of the hospital complaint-management
API in `complaints/views.py`. The store is in memory: a sequence of `Room`
records and a sequence of `Complaint` records. Timestamps are integers. The
model covers three parts of the views:

- **Status transitions.** `RoomViewSet.update_status` and
  `ComplaintViewSet.update_status` are methods of the class
  `Store.ComplaintStore`. Each looks a record up by key, checks the requested
  status against the fixed choice list, and updates that one record in place.
  `perform_create` fills in `submitted_by` from the caller.
- **Filtered listings.** `by_status` and `by_priority` check one parameter,
  then return the newest-first complaint listing restricted to it.
- **Reports.** `department_priority_stats` counts tickets for one
  (department, priority) pair. `all_department_stats` filters, groups by
  pair and sorts. `all_department_TATS` reports turnaround times.

The ORM calls are written out as functions over sequences:

- `filter(...)` becomes `Queries.Select` with a `Criteria` value, a
  conjunction of field equalities.
- `order_by('-submitted_at')` becomes `Queries.Newest`.
- `values().annotate(Count(...)).order_by(...)` becomes `Reports.Groups`:
  the distinct pairs in ascending order, each with its conditional counts.

Inputs that the views read from ambient context are parameters here:

- the current time is `now`;
- the caller is a `User`, either `Anonymous` or `Authenticated(username)`;
- the choice lists are a `Choices` value holding three sets of keys.

Outcomes are `Result` values: `Ok(value)`, or `Err` carrying one of the error
bodies.

Modules: `Records` (entities and request values), `TextOrder` (ascending text
order and pair order), `Queries` (filter and listing order), `Store` (the
state-changing actions), `Listings`, `Reports`, `Turnaround`.

Behaviour of the views worth noting:

- The turnaround report applies no date or time-of-day filter and no
  pagination (views.py:233-272 has neither).
- Complaints are not kept with "resolved exactly when `resolved_at` is set".
  Moving a resolved ticket to another status keeps its stamp
  (`Store.ReopenedKeepsStamp`).
- `department_priority_stats` refuses an empty department or priority as it
  refuses a missing one.
- An invalid priority in `all_department_stats` does not produce a client
  error; see Findings.
- The turnaround report reads the shared class-level queryset, whose result
  cache outlives the request; see Findings.
- The breakdown of `all_department_stats` is not paginated.

## Model

| member | source | states |
|---|---|---|
| `Records.DayOf` | complaints/views.py:198 | the calendar day of a timestamp is the day whose 86400-second span contains it (`submitted_at__date`) |
| `Queries.SelectMultiset` | complaints/views.py:189-198 | a filter keeps every matching complaint exactly as often as the input holds it, and nothing else |
| `Queries.SelectSelect` | complaints/views.py:183-198 | chained `filter` calls select the same complaints, in the same order, as one filter on the conjunction of their conditions |
| `Queries.DisjointCounts` | complaints/views.py:160-162 | two conditions that no complaint meets together count at most the whole set, which is why open + resolved <= total |
| `Queries.Newest` | complaints/views.py:57 | the listing is newest first and is a permutation of the store |
| `Queries.SelectNewest` | complaints/views.py:57 | filtering the newest-first listing gives the newest-first listing of the filtered set, so a filtered listing is a subsequence of the full listing |
| `Store.IndexOfKey` | complaints/views.py:26 | the `get_object()` lookup (a room by primary key here, a complaint by `ticket_id` at line 77) finds a record carrying the requested key, and finds none exactly when no record carries it |
| `Store.ComplaintStore.UpdateRoomStatus` | complaints/views.py:25-37 | an unknown room gives not-found; a status outside the room choices gives an error and leaves the rooms unchanged; otherwise only that room's status changes, to exactly the requested value, and no other room carries the requested key; complaints are never touched |
| `Store.ComplaintStore.Submit` | complaints/views.py:72-73 | the new complaint is appended with `submitted_by` set to the username, or "Anonymous" with no user; ticket ids stay distinct |
| `Store.ApplyStatus` | complaints/views.py:87-96 | the status becomes the new one and the remarks become the supplied text, or '' when absent. Resolving stamps `resolved_at` = now and `resolved_by` = the username, or null for an anonymous caller. Any other status keeps both stamps. No other field changes |
| `Store.ComplaintStore.UpdateComplaintStatus` | complaints/views.py:76-102 | an unknown ticket gives not-found; a status outside the complaint choices gives an error with no mutation; otherwise exactly that complaint takes the `ApplyStatus` transition, no other complaint carries the ticket id, and every other complaint and every room stays the same |
| `Store.ReopenedKeepsStamp` | complaints/views.py:92-96 | after resolving and then moving to another status, the ticket still carries the first resolution's time and resolver |
| `Store.ResolvingAgainRestamps` | complaints/views.py:92-96 | resolving an already resolved ticket overwrites time, resolver and remarks, as if the first resolution had not happened |
| `Listings.ByStatus` | complaints/views.py:104-115 | a missing status or one outside the choices gives an error; otherwise the result is newest first and is the full listing filtered to that status |
| `Listings.ByPriority` | complaints/views.py:117-128 | a missing priority or one outside the choices gives an error; otherwise the result is newest first and is the full listing filtered to that priority |
| `Listings.ListingContents` | complaints/views.py:113-128 | a successful listing holds each complaint whose field equals the parameter exactly as often as the store does, and no other complaint |
| `Reports.CountsFor` | complaints/views.py:156-163 | for one pair: total, open and resolved are the sizes of the conjunctive selections, and open + resolved <= total |
| `Reports.DepartmentPriorityStats` | complaints/views.py:137-169 | a missing or empty department or priority gives an error; a priority outside the choices gives an error. Otherwise both inputs are echoed with the total, open and resolved counts of that pair, and open + resolved <= total |
| `Reports.SortedKeys` | complaints/views.py:201-205 | the pairs are strictly ascending (department, then priority), every pair of the set appears, and every listed pair has a complaint |
| `Reports.GroupsShape` | complaints/views.py:201-208 | rows are unique and ascending. Each row holds its pair's counts, with total >= 1 and open + resolved <= total. Every pair present has a row, and there are no rows exactly when the set is empty |
| `Reports.GroupsPartition` | complaints/views.py:201-205 | the row totals add up to the number of complaints grouped |
| `Reports.FilteredIsConjunction` | complaints/views.py:183-198 | applying the given filters one after another (skipping absent or empty ones) selects exactly the complaints meeting all of them |
| `Reports.AllDepartmentStatsAsWritten` | complaints/views.py:172-219 | as written, a given priority outside the choices ends in an unhandled exception; every other request is answered |
| `Reports.AllDepartmentStats` | complaints/views.py:172-219 | a given priority outside the choices gives an error. Otherwise: the "No data found" message exactly when no complaint meets the filters, echoing all four filters; else the grouped rows of exactly those complaints |
| `Reports.BreakdownProperties` | complaints/views.py:183-219 | a breakdown's pairs are unique and ascending, each row has total >= 1 and open + resolved <= total with its pair's counts, and the totals add up to the filtered set's size |
| `Reports.UrgentPriorityRaises` | complaints/views.py:176-188 | the request `?priority=urgent`, with "urgent" not a priority choice, raises as written, where the corrected view answers the invalid-priority error |
| `Reports.AsWrittenAgreesOtherwise` | complaints/views.py:172-219 | on every request without an invalid priority, the view as written and the corrected one answer the same |
| `Reports.BreakdownAgreesWithPairQuery` | complaints/views.py:142-205 | each row of the unfiltered breakdown is exactly what `department_priority_stats` answers for its pair, when that pair is a valid query |
| `Turnaround.AverageOf` | complaints/views.py:235-256 | the average is taken over exactly the resolved complaints with a resolution time. It is '-' when there are none or their durations sum to zero; otherwise it is the pair (sum of durations, count) |
| `Turnaround.NothingTimedMeansNoAverage` | complaints/views.py:235-256 | with no resolved complaint that carries a resolution time, the average is '-' |
| `Turnaround.OneDurationPerTimedComplaint` | complaints/views.py:235-238 | the average is taken over exactly as many durations as there are resolved complaints with a resolution time |
| `Turnaround.SomeTimedHasDurations` | complaints/views.py:235-256 | conversely, one resolved complaint with a resolution time puts a duration into the average, which is then a mean unless the durations sum to zero |
| `Turnaround.ListingMatchesAverage` | complaints/views.py:235-270 | the durations shown in the ticket list are, in order, exactly the durations the average is taken over |
| `Turnaround.ListTickets` | complaints/views.py:261-270 | one entry per complaint, in order, copying its fields; the entry's TAT is `resolved_at - submitted_at` exactly when the complaint is resolved with `resolved_at` set, else '-'; the shown durations are those the average is taken over |
| `Turnaround.AllDepartmentTats` | complaints/views.py:233-272 | read against the current store on every request: `total_tickets` counts every complaint, the average is `AverageOf` the store, and the list describes every complaint in store order |
| `Turnaround.TatViewSet.AllDepartmentTatsAsWritten` | complaints/views.py:227-272 | as written: the average follows the current store, but the count and the list come from the shared queryset's cache, which the first request fills and later requests reuse |
| `Turnaround.SecondRequestIsStale` | complaints/views.py:246-261 | after a first request over one store, a second request over another still counts the first store and lists its complaints entry by entry, while its average and the per-request view (count and every entry) follow the current one |

## Findings

| source | as written | input that shows it | evidently intended | confidence | as-written member | corrected member |
|---|---|---|---|---|---|---|
| complaints/views.py:176-188 | line 176 binds a local `status` (the query value), which shadows the imported `status` module for the whole function. The invalid-priority branch then evaluates `status.HTTP_400_BAD_REQUEST` on a string or `None` and raises `AttributeError` | `GET /report/all_department_stats/?priority=urgent` where "urgent" is not a priority choice | answer 400 with `{'error': 'Invalid priority value'}` | high; not executed | `Reports.AllDepartmentStatsAsWritten` (shown by `Reports.UrgentPriorityRaises`) | `Reports.AllDepartmentStats` |
| complaints/views.py:246-261 | `total_tickets` and the ticket list read the class attribute `self.queryset`. Iterating it at line 261 fills the result cache of that one QuerySet object, which lives as long as the process; `count()` and later iterations answer from the cache. The average comes from a `filter()` clone and stays current. This holds because the router builds the viewset's view through `ViewSetMixin.as_view`, which does not install the guard of `APIView.as_view` that makes evaluating the class-level queryset raise `RuntimeError` | one request, then a new complaint is submitted, then a second request: the second answer still shows the old count and list | read a fresh queryset on every request (`get_queryset()`) | medium; not executed; rests on the result cache of Django querysets and on the router-built view lacking the `APIView` evaluation guard | `Turnaround.TatViewSet.AllDepartmentTatsAsWritten` (shown by `Turnaround.SecondRequestIsStale`) | `Turnaround.AllDepartmentTats` |

## Left out

- Generic CRUD is left out, because it is framework behaviour and not visible in the views. This covers the list/create/retrieve/update/destroy mixins, the filter, search and ordering backends, and the Department and Issue_Category viewsets.
- Pagination is left out, because no modelled action applies it.
- `complaints/urls.py` is left out, because it only registers routes and token endpoints.
- Serializers are not part of this model. `is_valid` is taken to succeed. Which fields `ComplaintSerializer` (the serializer `update_status` gets from `get_serializer_class`) accepts, and any field validation, are not modelled.
- HTTP status codes and response bodies are reduced to the `Result` outcome and the `Error` case.
- Saving, transactions and concurrent requests are left out, because the store is a plain value held by one object.
- The clock and `request.user` are parameters: the time is `now`, the caller is a `User`.
- Time zones are left out: the calendar day of a timestamp is taken in UTC.
- Timestamps are whole seconds, not microseconds.
- The `submitted_at` date parameter of `all_department_stats` is taken already parsed to a day number. An absent and an empty value are both `None`, so the echoed filters do not tell them apart. A malformed date, which the ORM rejects with an exception, is not modelled.
- `Store.ComplaintStore.Submit`: the field defaults and timestamps that the Complaint model fills in on creation are not visible, so the draft is stored as given apart from `submitted_by`. A ticket id that is already taken is excluded by the requires, because the generic create validates the submission before `perform_create` runs.
- `Queries.Newest`: for complaints submitted at the same instant the database leaves the order open. The model keeps store order for them.
- `TextOrder.KeyLess` orders departments and priorities by code point. The database collation, and any related-model ordering of the department field, are not modelled.
- `Turnaround.AverageOf` keeps the mean exact as (sum, count). The rounding of the database average to the duration resolution is not modelled, so a nonzero sum whose mean rounds to zero gives `Mean` here and '-' in the source.
- `str(timedelta)` formatting of durations is not modelled.
