# CampusEventFinder, modelled in Dafny

CampusEventFinder is a React front end over a hosted table of campus tech
events. Students browse approved events, filter them, and submit new ones.
Administrators approve or reject the submissions. This project models the
logic inside its pages and its event provider, and proves properties of it:

- **Event provider** (`event_context.dfy`, class `EventContext.EventStore`).
  The backend's `events` table is a sequence field. Each request's outcome
  (`Reply`) is an input. The list query is built clause by clause and proved
  to select exactly the approved rows that pass the set filters, in
  `event_date` order. The featured query keeps at most five approved,
  featured rows. Approve and reject change only the status of the rows with
  the id. Each operation states which of `events`, `featuredEvents`, `error`
  and `loading` change on success and on each failure.
- **Admin events table** (`admin_events_list.dfy`) is a pipeline:
  1. a status filter;
  2. a case-insensitive substring search over name, college and description;
  3. a stable sort of a copy by the chosen column and direction.

  It also has the sort-toggle state and the actions each status offers.
- **Submission form** (`add_event_page.dfy`). The validator is a loop over
  the required fields followed by the later checks. It is proved to build
  exactly the declarative error map. Also modelled: field edits that clear
  their error, and the payload, which is always pending and not featured.
- **Featured carousel** (`featured_banner.dfy`): the slide index under next,
  previous, an indicator jump and rotation ticks.
- **Smaller pure pieces**:
  - the statistics counts (`admin_stats.dfy`);
  - the filter bar (`filter_bar.dfy`);
  - the login checks (`login_page.dfy`);
  - the duration and location texts of the detail page (`event_detail.dfy`);
  - the home page's college list (`home_page.dfy`);
  - the date helpers, with the current time as an argument (`date_utils.dfy`).
- **Shared modules**:
  - `types.dfy`: the record types;
  - `seqs.dfy`: `filter`, and the subsequence relation that says a filter
    keeps order;
  - `text.dfy`: ASCII lower-casing, substring search, string order and
    decimal numerals;
  - `event_order.dfy`: the column comparator and the stable sort. The admin
    table and the backend's `order('event_date')` share them.

Timestamps are integers (epoch milliseconds). An empty date input is `None`.
URL validity is a predicate parameter, `validUrl`. So is the date-input
parser, `parseDate`.

Some behaviour follows from the code as written:

- The admin table and the statistics page read the provider's `events`,
  which are the approved rows only. Their pending and rejected views are
  therefore always empty (see Findings).
- Once validation passes, the submission page reports success even when the
  insert fails. This is because `addEvent` catches its own errors
  (`AddEventPage.SubmissionForm.HandleSubmit`).
- The carousel keeps its index when the list of featured events shrinks.
  Until the next arrow click or tick, no slide is then drawn
  (`FeaturedBanner.Carousel.EventsChanged`, `FeaturedBanner.Carousel.Visible`).
  When the list shrinks to a single event while a later slide was current,
  there are no arrows, no indicators and no rotation, so the banner stays
  blank (`FeaturedBanner.BlankAfterShrinkToOne`).

## Model

| member | source | states |
|---|---|---|
| Types.Stored | src/contexts/EventContext.tsx:140-142 | the stored row carries the backend's id and creation time and the payload's status, featured flag and creator |
| Types.TypeValue | src/types/event.ts:1 | every event type has a non-empty wire value |
| Types.ParseType | src/components/events/FilterBar.tsx:84 | a parsed type value is the wire value it came from |
| Types.ParseTypeValue | src/types/event.ts:1 | parsing the wire value of a type gives back that type |
| Types.ModeValue | src/types/event.ts:2 | every mode has a non-empty wire value |
| Types.ParseMode | src/components/events/FilterBar.tsx:124 | a parsed mode value is the wire value it came from |
| Types.ParseModeValue | src/types/event.ts:2 | parsing the wire value of a mode gives back that mode |
| Types.StatusValue | src/types/event.ts:3 | every status has a non-empty wire value |
| Text.Lower | src/components/admin/AdminEventsList.tsx:29 | lower-casing keeps the length and maps each character (A-Z to a-z, the rest unchanged) |
| Text.ContainsIff | src/components/admin/AdminEventsList.tsx:32-34 | `includes` holds exactly when the term occurs at some position |
| Text.NatToString | src/utils/dateUtils.ts:82 | a day count renders as a non-empty string of decimal digits that spell exactly that number, with no leading zero, and one digit exactly below 10 |
| EventOrder.Compare | src/components/admin/AdminEventsList.tsx:39-47 | the three-way comparator on the chosen column and direction; its meaning is stated by CompareMeaning |
| EventOrder.CompareMeaning | src/components/admin/AdminEventsList.tsx:39-47 | the comparator is 0 exactly on equal keys, negative exactly when the first key is smaller ascending or larger descending, and antisymmetric |
| EventOrder.InOrderTransitive | src/components/admin/AdminEventsList.tsx:39-47 | "may precede" is transitive, so the comparator is a consistent order |
| EventOrder.InOrderTotal | src/components/admin/AdminEventsList.tsx:39-47 | of any two events one may precede the other |
| EventOrder.Insert | src/components/admin/AdminEventsList.tsx:39 | one insertion step of the sort adds exactly one element |
| EventOrder.SortEvents | src/components/admin/AdminEventsList.tsx:39-47 | the sorted copy of the list has the list's length; permutation, order and stability are stated by the lemmas below |
| EventOrder.SortEventsPermutes | src/components/admin/AdminEventsList.tsx:39 | the sorted copy is a permutation of the filtered list |
| EventOrder.SortEventsSorted | src/components/admin/AdminEventsList.tsx:39-47 | every pair of positions of the sorted copy is in comparator order |
| EventOrder.SortEventsStable | src/components/admin/AdminEventsList.tsx:39-47 | the sort is stable: for every key, the events with that key come out in the order they went in |
| EventOrder.SortEventsIdempotent | src/components/admin/AdminEventsList.tsx:39 | sorting an already sorted list leaves it unchanged |
| EventOrder.SortedKeys | src/components/admin/AdminEventsList.tsx:39-47 | adjacent sort keys are non-decreasing ascending and non-increasing descending |
| EventContext.Run | src/contexts/EventContext.tsx:64-103 | a query's rows: those meeting every clause, in ascending event_date order, cut to the limit if there is one; RunListQuery and RunFeaturedQuery connect it to the two results |
| EventContext.MatchesFilters | src/contexts/EventContext.tsx:70-88 | each set filter agrees with the event: equal type, college (when non-empty) and mode, and an event date within the inclusive bounds; BuildListQuery proves the query clauses select this |
| EventContext.Listed | src/contexts/EventContext.tsx:67-88 | a row the public list shows: approved and passing the filters |
| EventContext.ListResult | src/contexts/EventContext.tsx:64-94 | the main query's result; characterised by ListResultCorrect |
| EventContext.FeaturedResult | src/contexts/EventContext.tsx:97-107 | the featured query's result; characterised by FeaturedResultCorrect |
| EventContext.AddClause | src/contexts/EventContext.tsx:70-88 | adding a filter clause appends it and keeps the limit |
| EventContext.AllHoldAppend | src/contexts/EventContext.tsx:70-88 | each added clause narrows the selection by exactly that clause |
| EventContext.SetStatus | src/contexts/EventContext.tsx:160-163 | the update keeps the length, sets the status of the rows with the id, and changes nothing else |
| EventContext.ListResultCorrect | src/contexts/EventContext.tsx:64-94 | an event is listed iff it is an approved table row passing every set filter; multiplicities kept; ascending event_date order |
| EventContext.NoFiltersListsAllApproved | src/contexts/EventContext.tsx:27-33 | with the initial all-null filters the list is exactly the approved rows |
| EventContext.FeaturedResultCorrect | src/contexts/EventContext.tsx:97-107 | exactly min(5, number of approved featured rows) events, all approved and featured table rows, in date order, the earliest such rows, all of them when there are at most five |
| EventContext.SetStatusOnlyStatus | src/contexts/EventContext.tsx:181-184 | a row with the id gets exactly the new status whatever its old one; every other row is unchanged |
| EventContext.SetStatusIdempotent | src/contexts/EventContext.tsx:160-163 | approving (or rejecting) twice is the same as once |
| EventContext.ApprovedRowListed | src/contexts/EventContext.tsx:154-167 | after approval a row with the id is listed exactly when it passes the filters |
| EventContext.RejectedRowUnlisted | src/contexts/EventContext.tsx:175-188 | after rejection no row with the id is listed |
| EventContext.BuildListQuery | src/contexts/EventContext.tsx:64-88 | the query built clause by clause selects exactly the approved rows passing the set filters, without a limit |
| EventContext.RunListQuery | src/contexts/EventContext.tsx:64-94 | running that query yields the list result |
| EventContext.RunFeaturedQuery | src/contexts/EventContext.tsx:97-103 | the approved-and-featured query limited to five yields the featured result |
| EventContext.EventStore.constructor | src/contexts/EventContext.tsx:22-33 | no client, empty lists, loading, no error, all filters null |
| EventContext.EventStore.Mount | src/contexts/EventContext.tsx:35-48 | as written: with both settings a client is created but nothing is fetched and loading stays on; without them loading ends with the missing-configuration error |
| EventContext.EventStore.MountAndFetch | src/contexts/EventContext.tsx:35-48 | as intended: with both settings the first fetch runs, so events, featured events and error are set as FetchEvents states and loading ends |
| EventContext.EventStore.FetchEvents | src/contexts/EventContext.tsx:57-113 | no-op without a client; otherwise loading ends, events become the list result unless the main query fails, featured events become the featured result only if both queries succeed, and error holds the failing query's message |
| EventContext.EventStore.FetchEventById | src/contexts/EventContext.tsx:115-132 | the row with that id when exactly one exists and the request succeeds, None otherwise, with the error message recorded; lists and loading untouched |
| EventContext.EventStore.AddEvent | src/contexts/EventContext.tsx:134-152 | no-op without a client; on a failed insert only error changes; on success the stored row is appended and events, featured events and error are set by the refetch; loading ends |
| EventContext.EventStore.ChangeStatus | src/contexts/EventContext.tsx:154-194 | on success the table is updated by SetStatus and the lists refetched; on failure only error changes; loading ends |
| EventContext.EventStore.ApproveEvent | src/contexts/EventContext.tsx:154-173 | no-op without a client; a failed update changes only error; otherwise the rows with the id become approved and events, featured events and error are set by the refetch; loading ends |
| EventContext.EventStore.RejectEvent | src/contexts/EventContext.tsx:175-194 | no-op without a client; a failed update changes only error; otherwise the rows with the id become rejected and events, featured events and error are set by the refetch; loading ends |
| EventContext.EventStore.SetFilters | src/contexts/EventContext.tsx:50-55 | new filters are stored; with a client, events, featured events and error are set by the refetch under them; without one nothing else changes |
| AdminEventsList.FilterByStatus | src/components/admin/AdminEventsList.tsx:21-25 | 'all' keeps every event; otherwise exactly the events of that status with their multiplicities, in original order |
| AdminEventsList.Search | src/components/admin/AdminEventsList.tsx:28-36 | an empty term keeps the list; otherwise an event is kept iff the lower-cased term occurs in its lower-cased name, college or description |
| AdminEventsList.SearchCorrect | src/components/admin/AdminEventsList.tsx:28-36 | an empty term keeps all; otherwise an event is kept iff the lower-cased term is a substring of its lower-cased name, college or description; order kept |
| AdminEventsList.Displayed | src/components/admin/AdminEventsList.tsx:19-50 | the table's list: status stage, search stage, sorted copy; characterised by DisplayedCorrect |
| AdminEventsList.DisplayedCorrect | src/components/admin/AdminEventsList.tsx:19-50 | the table shows a sorted permutation of the filtered list, holding exactly the events passing both stages |
| AdminEventsList.DisplayedStable | src/components/admin/AdminEventsList.tsx:39-47 | re-sorting the shown list by the same column and direction changes nothing |
| AdminEventsList.OnlyApprovedReachTheTable | src/components/admin/AdminEventsList.tsx:12-25 | as written: fed the provider's approved-only events, the pending and rejected filters show nothing |
| AdminEventsList.AllRowsShowPending | src/components/admin/AdminEventsList.tsx:21-36 | fed every table row, each matching pending row appears under the pending filter |
| AdminEventsList.ToggleSort | src/components/admin/AdminEventsList.tsx:52-59 | clicking the current column flips the direction; another column becomes the sort column ascending |
| AdminEventsList.ToggleTwice | src/components/admin/AdminEventsList.tsx:52-59 | two clicks on the same column restore the direction |
| AdminEventsList.ActionsFor | src/components/admin/AdminEventsList.tsx:204-239 | the buttons per status: pending both, rejected Approve, approved Reject; ActionsChangeStatus gives their meaning |
| AdminEventsList.ActionsChangeStatus | src/components/admin/AdminEventsList.tsx:204-239 | a row offers an action exactly when that action would change its status |
| AdminEventsList.AdminListView.constructor | src/components/admin/AdminEventsList.tsx:14-17 | initial state: all statuses, sort by created_at descending, empty search |
| AdminEventsList.AdminListView.Shown | src/components/admin/AdminEventsList.tsx:19-50 | what the table shows under the view's current filter, term and sort (Displayed) |
| AdminEventsList.AdminListView.HandleSort | src/components/admin/AdminEventsList.tsx:52-59 | the new sort state is ToggleSort of the old; filter and search unchanged |
| AdminEventsList.AdminListView.SetStatusFilter | src/components/admin/AdminEventsList.tsx:111 | only the status filter changes |
| AdminEventsList.AdminListView.SetSearchTerm | src/components/admin/AdminEventsList.tsx:101 | only the search term changes |
| AddEventPage.WithField | src/pages/AddEventPage.tsx:51-54 | the edited field holds the new value and every other field is unchanged |
| AddEventPage.FieldError | src/pages/AddEventPage.tsx:70-95 | the declarative error of one field; ErrorsCorrect states each case |
| AddEventPage.ExpectedErrors | src/pages/AddEventPage.tsx:66-98 | the error map: one entry per field that has an error; ComputeErrors is proved to build it |
| AddEventPage.ComputeErrors | src/pages/AddEventPage.tsx:66-98 | the loop and the later checks build exactly the error map of the form |
| AddEventPage.ErrorsCorrect | src/pages/AddEventPage.tsx:70-95 | each empty required field is reported as required; the length error iff over 150 characters; URL errors iff a non-empty URL is invalid, with the "valid URL" message; the end-date error iff both dates are set and the end is earlier, with its own message; never a location error |
| AddEventPage.ValidIff | src/pages/AddEventPage.tsx:97-98 | validation passes iff all required fields are filled, the short description is at most 150 characters, the URLs are valid where given and the end is not before the start |
| AddEventPage.ValidFormIsComplete | src/pages/AddEventPage.tsx:123-126 | a form that passes validation has a type, a mode and a start date |
| AddEventPage.Creator | src/pages/AddEventPage.tsx:129 | the user's id when there is a non-empty one, otherwise null |
| AddEventPage.Payload | src/pages/AddEventPage.tsx:123-130 | the inserted record is pending, not featured, and created by the submitting user |
| AddEventPage.SubmittedEventAwaitsApproval | src/pages/AddEventPage.tsx:123-130 | the stored row is pending, not featured, created by the user, and carries every field of the form (name, both descriptions, college, type, mode, location, dates, registration link, image URL); it is on neither the public nor the featured list |
| AddEventPage.ClearError | src/pages/AddEventPage.tsx:57-62 | editing a field with an error sets only that entry to '' and keeps all others |
| AddEventPage.SubmissionForm.constructor | src/pages/AddEventPage.tsx:13-28 | an empty form, no errors, not submitting |
| AddEventPage.SubmissionForm.HandleChange | src/pages/AddEventPage.tsx:49-62 | stores the value and clears that field's error |
| AddEventPage.SubmissionForm.Validate | src/pages/AddEventPage.tsx:65-99 | the errors become the form's error map and the result says whether it is empty |
| AddEventPage.SubmissionForm.HandleSubmit | src/pages/AddEventPage.tsx:112-145 | an invalid form leaves the whole store unchanged; a valid one hands the payload to addEvent, with table, lists, error and loading as AddEvent states, and success is reported either way |
| FeaturedBanner.NextIndex | src/components/events/FeaturedBanner.tsx:31-33 | the next slide is in range and wraps from the last to the first |
| FeaturedBanner.PrevIndex | src/components/events/FeaturedBanner.tsx:35-37 | the previous slide is in range and wraps from the first to the last |
| FeaturedBanner.PrevAfterNext | src/components/events/FeaturedBanner.tsx:31-37 | previous after next returns to the slide |
| FeaturedBanner.NextAfterPrev | src/components/events/FeaturedBanner.tsx:31-37 | next after previous returns to the slide |
| FeaturedBanner.Rotate | src/components/events/FeaturedBanner.tsx:20-22 | after at least one tick the index is in range |
| FeaturedBanner.RotateCompose | src/components/events/FeaturedBanner.tsx:20-22 | a ticks then b ticks are a + b ticks |
| FeaturedBanner.RotateForward | src/components/events/FeaturedBanner.tsx:20-22 | before the wrap, k ticks advance the index by k |
| FeaturedBanner.RotationVisitsAll | src/components/events/FeaturedBanner.tsx:17-25 | n ticks return to the start and every slide comes up within n ticks |
| FeaturedBanner.BlankAfterShrinkToOne | src/components/events/FeaturedBanner.tsx:14-135 | with one event left and a later index, the banner renders but draws no slide, and has no arrows, indicators or rotation to recover |
| FeaturedBanner.Carousel.Visible | src/components/events/FeaturedBanner.tsx:42-47 | the opaque slide is the one at the index, and there is none when the index is out of range |
| FeaturedBanner.Carousel.constructor | src/components/events/FeaturedBanner.tsx:14-18 | the index starts at 0; rotation is installed only for more than one slide |
| FeaturedBanner.Carousel.GoToNext | src/components/events/FeaturedBanner.tsx:31-33 | the index becomes the next slide; the rotation flag still matches the slide count |
| FeaturedBanner.Carousel.GoToPrev | src/components/events/FeaturedBanner.tsx:35-37 | the index becomes the previous slide; the rotation flag still matches the slide count |
| FeaturedBanner.Carousel.Jump | src/components/events/FeaturedBanner.tsx:132-135 | clicking indicator k sets the index to k; the rotation flag still matches the slide count |
| FeaturedBanner.Carousel.Tick | src/components/events/FeaturedBanner.tsx:20-22 | a rotation tick is the next-slide step and keeps the index in range |
| FeaturedBanner.Carousel.EventsChanged | src/components/events/FeaturedBanner.tsx:17-25 | a new length re-installs rotation for more than one slide and keeps the index |
| AdminStats.StatusCount | src/components/admin/AdminStatsPage.tsx:10-11 | the number of events of one status |
| AdminStats.TypeCount | src/components/admin/AdminStatsPage.tsx:12-14 | the number of events of one type |
| AdminStats.ComputeStats | src/components/admin/AdminStatsPage.tsx:9-15 | the total is the list length and the three named types plus other add up to it |
| AdminStats.PendingApprovedBound | src/components/admin/AdminStatsPage.tsx:10-11 | pending plus approved never exceeds the total |
| AdminStats.OtherIsRest | src/components/admin/AdminStatsPage.tsx:12-15 | other counts exactly the events of the remaining four types, so it is never negative |
| AdminStats.AllApprovedStats | src/components/admin/AdminStatsPage.tsx:10-11 | over approved events only, pending is 0 and approved equals the total |
| AdminStats.ListingHasNoPending | src/components/admin/AdminStatsPage.tsx:6-11 | as written: over the provider's events the page always shows zero pending |
| AdminStats.TableCountsEveryStatus | src/components/admin/AdminStatsPage.tsx:9-11 | over the whole table the three status counts add up to the total, and the pending count equals the number of table positions holding a pending row |
| FilterBar.HandleFilterChange | src/components/events/FilterBar.tsx:30-35 | the changed key holds the new value and the other four are unchanged |
| FilterBar.ClearFilters | src/components/events/FilterBar.tsx:37-45 | no field is set, and the record equals the provider's initial filters |
| FilterBar.IsFiltersApplied | src/components/events/FilterBar.tsx:47 | true iff some field is set (non-null, and non-empty for the college) |
| FilterBar.ClearedNotApplied | src/components/events/FilterBar.tsx:37-47 | after clearing no filter is applied |
| FilterBar.ChangeApplies | src/components/events/FilterBar.tsx:30-47 | setting a field to a set value applies the filters |
| FilterBar.NotAppliedListsAllApproved | src/components/events/FilterBar.tsx:47 | when no filter is applied the listing constrains nothing but the approved status |
| FilterBar.TypeSelection | src/components/events/FilterBar.tsx:84 | the empty option is null; a chosen option is the type of that wire value |
| FilterBar.CollegeSelection | src/components/events/FilterBar.tsx:104 | null exactly for the empty option, otherwise the college chosen |
| FilterBar.ModeSelection | src/components/events/FilterBar.tsx:124 | the empty option is null; a chosen option is the mode of that wire value |
| FilterBar.DateSelection | src/components/events/FilterBar.tsx:148 | null exactly for an empty date input, otherwise the parsed date |
| FilterBar.SelectionsRoundTrip | src/components/events/FilterBar.tsx:83-84 | reading back what a select shows gives its value (an empty college name reads back as null) |
| LoginPage.FormCheck | src/pages/LoginPage.tsx:47-61 | a missing email or password gives "Please fill in all fields" in either mode; no message iff both are given and, in sign-up mode, the passwords match and have at least 6 characters |
| LoginPage.SignUpOrder | src/pages/LoginPage.tsx:52-61 | a mismatch is reported before the length check; a matching password is rejected iff shorter than 6 |
| LoginPage.SignInIgnoresSignUpChecks | src/pages/LoginPage.tsx:68-74 | in sign-in mode the confirmation and the length never matter |
| LoginPage.LoginForm.constructor | src/pages/LoginPage.tsx:12-20 | sign-up mode iff the signup parameter is 'true'; empty fields, no error |
| LoginPage.LoginForm.ToggleAuthMode | src/pages/LoginPage.tsx:36-39 | flips the mode and clears the form error |
| LoginPage.LoginForm.HandleSubmit | src/pages/LoginPage.tsx:42-75 | the error is FormCheck's message; a request goes out iff there is none, sign-up or sign-in by mode |
| EventDetail.DurationLabel | src/pages/EventDetailPage.tsx:198-210 | the text for a day count; DurationBuckets states each bucket |
| EventDetail.CalculateDuration | src/pages/EventDetailPage.tsx:190-211 | the label for the ceiling of the distance between the dates in days; DurationSymmetric and DurationFromDates state its meaning |
| EventDetail.DurationBuckets | src/pages/EventDetailPage.tsx:198-210 | 0 is same day, 1 is "1 day", 2-6 "n days", 7-13 "1 week", 14-29 whole weeks, 30-59 "1 month", 60 and up whole thirty-day months |
| EventDetail.DurationSymmetric | src/pages/EventDetailPage.tsx:195 | the duration does not depend on the order of the dates |
| EventDetail.DurationFromDates | src/pages/EventDetailPage.tsx:194-201 | same instant iff "Same day event"; at most one day apart is "1 day"; more than six and at most thirteen days apart is "1 week" |
| EventDetail.DurationLine | src/pages/EventDetailPage.tsx:174-177 | the computed duration with an end date, "Single day event" without |
| EventDetail.LocationLine | src/pages/EventDetailPage.tsx:163 | the location when non-empty, else "Online Event" for online events, else "TBA"; never empty |
| HomePage.CollegesOf | src/pages/HomePage.tsx:13 | one college per event, position by position |
| HomePage.Dedup | src/pages/HomePage.tsx:13 | the set keeps the same values, none twice |
| HomePage.InsertString | src/pages/HomePage.tsx:13 | insertion adds exactly the new value |
| HomePage.SortStrings | src/pages/HomePage.tsx:13 | sorting keeps exactly the same values |
| HomePage.SortStringsStrict | src/pages/HomePage.tsx:13 | sorting distinct values yields them strictly ascending |
| HomePage.StrictlySortedUnique | src/pages/HomePage.tsx:13 | two strictly ascending lists of the same values are equal, so the result does not depend on the sort algorithm |
| HomePage.Colleges | src/pages/HomePage.tsx:13 | the distinct colleges of the events, sorted; characterised by CollegesCorrect |
| HomePage.CollegesCorrect | src/pages/HomePage.tsx:13 | a college is listed iff some event has it; the list is strictly ascending, has no duplicates, and is the only such list |
| DateUtils.Abs | src/utils/dateUtils.ts:67 | the absolute difference is the difference or its negation |
| DateUtils.CeilDays | src/utils/dateUtils.ts:68 | the fewest whole days covering the difference; zero only for no difference |
| DateUtils.IsFutureDate | src/utils/dateUtils.ts:40-44 | the date is after now |
| DateUtils.IsPastDate | src/utils/dateUtils.ts:51-55 | the date is before now |
| DateUtils.FutureOrPast | src/utils/dateUtils.ts:40-55 | never both future and past; neither exactly when the date is now |
| DateUtils.DaysLabel | src/utils/dateUtils.ts:82 | a day-count label is a numeral spelling the count, followed by " days" |
| DateUtils.DaysRemaining | src/utils/dateUtils.ts:62-83 | the label as written, from the ceiling of the distance in days; DaysRemainingMeaning and TodayOnlyAtNow state its meaning |
| DateUtils.DaysRemainingMeaning | src/utils/dateUtils.ts:62-83 | "Event has passed" iff the date is before now; "Tomorrow" iff up to one day ahead; further ahead, the number of days that covers the distance |
| DateUtils.TodayOnlyAtNow | src/utils/dateUtils.ts:67-76 | as written: a date not in the past is labelled "Today" only when it equals now; 1 ms ahead is "Tomorrow" |
| DateUtils.FloorDays | src/utils/dateUtils.ts:68 | the whole days contained in the difference |
| DateUtils.DaysRemainingByWholeDays | src/utils/dateUtils.ts:62-83 | the corrected label, counting whole days left; TodayWithinADay states its meaning |
| DateUtils.TodayWithinADay | src/utils/dateUtils.ts:62-83 | with whole days counted: passed iff before now, "Today" iff less than a day ahead, "Tomorrow" iff one to two days ahead |

## Left out

- Rendering is not modelled: JSX, CSS classes, spinners, `document.title`,
  `alert`, `confirm`, `navigate`, and sharing or the clipboard. These are
  presentation and browser I/O.
- The backend client and the authentication context are not modelled.
  Client creation is the `hasClient` flag. The outcome of each request is
  the `Reply` input. The sign-up and sign-in requests are only the
  `LoginPage.AuthRequest` value the page sends. Profile lookups and auth
  subscriptions are outside the model.
- Concurrency is not modelled. Overlapping asynchronous `fetchEvents` calls
  are not, and neither is the real interval timer: one timer firing is one
  `Tick` call, and `clearInterval` is the re-run in `EventsChanged`.
- The backend's order among rows with equal `event_date` values is not
  modelled: `order('event_date')` promises none. The model orders such rows
  stably, by their position in the table. The engine's `sort`, used by the
  admin table, is stable, as the model's sort is (`EventOrder.SortEventsStable`).
- Dates and times are epoch-millisecond integers. The source compares ISO
  strings in the admin sort and in the `gte`/`lte` clauses, and for one
  format that is the same order. Neither `new Date` parsing nor date-input
  text is modelled: the latter is the `parseDate` parameter.
- URL checking with `new URL` is the `validUrl` parameter.
- `formatDate` and `formatDateOnly` are left out. They are locale
  formatting.
- The percentage bar widths on the statistics page are left out. They are
  floating point.
- `toLowerCase` is modelled for ASCII letters only. Strings are sequences of
  characters, not UTF-16 code units.
- The `as` casts of raw select values are not modelled as casts. A type or
  mode option string that is not one of the wire values reads as no filter
  (`FilterBar.TypeSelection`, `FilterBar.ModeSelection`).
- Empty-string dates in the submitted payload are represented as `None`. The
  form spreads its raw strings into the payload, so an empty end date is sent
  as '' rather than null.
- The payload copies `location` and `image_url` as given, including ''
  (`AddEventPage.Payload`). The table then stores '' rather than null.
- EventTypeBadge, EventModeBadge, the navigation bar, the footer, the event
  cards and lists, the not-found page, the users page, routing and
  PrivateRoute are left out. They hold no logic beyond presentation and
  routing.

## Findings

| source | as written | input that shows it | evidently intended | confidence | as-written member | corrected member |
|---|---|---|---|---|---|---|
| src/contexts/EventContext.tsx:40-55 | the mount effect calls the `fetchEvents` of the first render, whose `supabase` is still null, so it returns at once; the filters effect also ran on that render and does not re-run | both settings present at start-up: `events` stays empty and `loading` stays true until the filters change | fetch the lists once the client exists | high (not executed) | EventContext.EventStore.Mount | EventContext.EventStore.MountAndFetch |
| src/utils/dateUtils.ts:67-76 | the day count is the ceiling of the distance, so it is 0 only at the exact instant | an event 1 ms ahead is labelled "Tomorrow", and one 23 hours ahead also "Tomorrow" | "Today" for an event less than a day ahead | medium (not executed) | DateUtils.TodayOnlyAtNow | DateUtils.TodayWithinADay |
| src/components/admin/AdminEventsList.tsx:12-25 | the admin table filters the provider's `events`, which only ever holds approved rows | any pending submission: the "pending" filter shows no rows, so the approve button never appears for it | the admin table lists every row of the table, whatever its status | high (not executed) | AdminEventsList.OnlyApprovedReachTheTable | AdminEventsList.AllRowsShowPending |
| src/components/admin/AdminStatsPage.tsx:6-11 | the statistics count over the same approved-only `events` | any pending submission: "Pending Approval" shows 0 and "Live Events" equals "Total Events" | the counts are over every row of the table | high (not executed) | AdminStats.ListingHasNoPending | AdminStats.TableCountsEveryStatus |
