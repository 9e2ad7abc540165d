/** The event provider: an in-memory view (`events`, `featuredEvents`,
    `loading`, `error`, `filters`) over the backend's `events` table, and the
    queries and updates it sends. The table itself is a field of the store;
    whether a backend request fails is an input of each operation. */
module EventContext {
  import opened Types
  import opened Seqs
  import opened EventOrder

  /** The outcome of one backend request. */
  datatype Reply = Ok | Failed(message: string)

  /** One `.eq`, `.gte` or `.lte` clause of a table query. */
  datatype Constraint =
    | StatusIs(status: EventStatus)
    | FeaturedIs(featured: bool)
    | TypeIs(eventType: EventType)
    | CollegeIs(college: string)
    | ModeIs(mode: EventMode)
    | DateFrom(from: int)
    | DateTo(to: int)

  predicate Holds(c: Constraint, e: Event)
  {
    match c
    case StatusIs(s) => e.status == s
    case FeaturedIs(b) => e.featured == b
    case TypeIs(t) => e.eventType == t
    case CollegeIs(name) => e.college == name
    case ModeIs(m) => e.mode == m
    case DateFrom(t) => e.eventDate >= t
    case DateTo(t) => e.eventDate <= t
  }

  predicate AllHold(cs: seq<Constraint>, e: Event)
  {
    forall i :: 0 <= i < |cs| ==> Holds(cs[i], e)
  }

  /** A select over the table: the rows meeting every clause, ordered by
      `event_date` ascending, at most `limit` of them. */
  datatype Query = Query(clauses: seq<Constraint>, limit: Option<nat>)

  function Run(table: seq<Event>, q: Query): seq<Event>
  {
    var rows := SortEvents(EventDateField, Asc, Keep(table, e => AllHold(q.clauses, e)));
    if q.limit.Some? then Take(rows, q.limit.value) else rows
  }

  function AddClause(q: Query, c: Constraint): (r: Query)
    ensures r.limit == q.limit
    ensures r.clauses == q.clauses + [c]
  {
    Query(q.clauses + [c], q.limit)
  }

  /** An added clause narrows the selection by exactly that clause. */
  lemma AllHoldAppend(cs: seq<Constraint>, c: Constraint, e: Event)
    ensures AllHold(cs + [c], e) <==> AllHold(cs, e) && Holds(c, e)
  {
    var r := cs + [c];
    if AllHold(r, e) {
      assert Holds(r[|cs|], e);
      forall i | 0 <= i < |cs| ensures Holds(cs[i], e) {
        assert Holds(r[i], e);
      }
    }
  }

  // ---- The reference meaning of the public list filters

  /** A filter field is "set" when it is truthy: present, and non-empty for text. */
  predicate CollegeSet(f: EventFilters)
  {
    f.college.Some? && f.college.value != ""
  }

  predicate TypeOk(f: EventFilters, e: Event) { f.eventType.Some? ==> e.eventType == f.eventType.value }
  predicate CollegeOk(f: EventFilters, e: Event) { CollegeSet(f) ==> e.college == f.college.value }
  predicate ModeOk(f: EventFilters, e: Event) { f.mode.Some? ==> e.mode == f.mode.value }
  predicate FromOk(f: EventFilters, e: Event) { f.startDate.Some? ==> f.startDate.value <= e.eventDate }
  predicate UntilOk(f: EventFilters, e: Event) { f.endDate.Some? ==> e.eventDate <= f.endDate.value }

  /** An event passes the filters when each set filter agrees with it
      (equality; the two dates are inclusive bounds). */
  predicate MatchesFilters(f: EventFilters, e: Event)
  {
    TypeOk(f, e) && CollegeOk(f, e) && ModeOk(f, e) && FromOk(f, e) && UntilOk(f, e)
  }

  /** An event the public list shows under the current filters. */
  predicate Listed(f: EventFilters, e: Event)
  {
    e.status == Approved && MatchesFilters(f, e)
  }

  /** The list the main query returns. */
  function ListResult(table: seq<Event>, f: EventFilters): seq<Event>
  {
    SortEvents(EventDateField, Asc, Keep(table, e => Listed(f, e)))
  }

  predicate Promoted(e: Event)
  {
    e.status == Approved && e.featured
  }

  /** The featured query's limit. */
  const FeaturedLimit: nat := 5

  /** The list the featured query returns. */
  function FeaturedResult(table: seq<Event>): seq<Event>
  {
    Take(SortEvents(EventDateField, Asc, Keep(table, Promoted)), FeaturedLimit)
  }

  const NoFilters := EventFilters(None, None, None, None, None)

  const MissingConfigMessage := "Supabase configuration is missing. Please connect to Supabase."

  /** The table after `update({ status }).eq('id', id)`. */
  function SetStatus(table: seq<Event>, id: string, s: EventStatus): (r: seq<Event>)
    ensures |r| == |table|
    ensures forall i :: 0 <= i < |r| && table[i].id == id ==> r[i].status == s
    ensures forall i :: 0 <= i < |r| ==> r[i].(status := table[i].status) == table[i]
    ensures forall i :: 0 <= i < |r| && table[i].id != id ==> r[i] == table[i]
  {
    if table == [] then []
    else [if table[0].id == id then table[0].(status := s) else table[0]] + SetStatus(table[1..], id, s)
  }

  // ---- Properties of the two read queries

  /** Every listed event is approved and passes the filters, every such row of
      the table is listed with its multiplicity, and the list is in
      ascending `event_date` order. */
  lemma ListResultCorrect(table: seq<Event>, f: EventFilters, e: Event)
    ensures e in ListResult(table, f) <==> e in table && Listed(f, e)
    ensures e in ListResult(table, f) ==> e.status == Approved
    ensures multiset(ListResult(table, f))[e] == if Listed(f, e) then multiset(table)[e] else 0
    ensures Sorted(EventDateField, Asc, ListResult(table, f))
  {
    var kept := Keep(table, e => Listed(f, e));
    SortEventsPermutes(EventDateField, Asc, kept);
    SortEventsSorted(EventDateField, Asc, kept);
    KeepMultiset(table, e => Listed(f, e), e);
    assert e in ListResult(table, f) <==> e in multiset(kept);
  }

  /** An unset filter record constrains nothing but the status. */
  lemma NoFiltersListsAllApproved(table: seq<Event>, e: Event)
    ensures e in ListResult(table, NoFilters) <==> e in table && e.status == Approved
  {
    ListResultCorrect(table, NoFilters, e);
  }

  /** At most five featured events, all approved and featured rows of the
      table, in ascending `event_date` order, and the earliest ones: when
      there are at most five such rows, all of them. */
  lemma FeaturedResultCorrect(table: seq<Event>)
    ensures |FeaturedResult(table)| <= FeaturedLimit
    ensures |FeaturedResult(table)| ==
      if |Keep(table, Promoted)| <= FeaturedLimit then |Keep(table, Promoted)| else FeaturedLimit
    ensures forall e :: e in FeaturedResult(table) ==> e in table && Promoted(e)
    ensures Sorted(EventDateField, Asc, FeaturedResult(table))
    ensures FeaturedResult(table) == SortEvents(EventDateField, Asc, Keep(table, Promoted))[..|FeaturedResult(table)|]
    ensures |Keep(table, Promoted)| <= FeaturedLimit ==>
      forall e :: e in table && Promoted(e) ==> e in FeaturedResult(table)
  {
    var kept := Keep(table, Promoted);
    var sorted := SortEvents(EventDateField, Asc, kept);
    SortEventsPermutes(EventDateField, Asc, kept);
    SortEventsSorted(EventDateField, Asc, kept);
    assert |sorted| == |kept| by { assert |multiset(sorted)| == |multiset(kept)|; }
    var r := FeaturedResult(table);
    forall e | e in r ensures e in table && Promoted(e) {
      assert e in multiset(sorted);
    }
    if |kept| <= FeaturedLimit {
      forall e | e in table && Promoted(e) ensures e in r {
        assert e in multiset(kept);
      }
    }
  }

  /** Approving or rejecting changes only the status of the rows with that id. */
  lemma SetStatusOnlyStatus(table: seq<Event>, id: string, s: EventStatus, i: int)
    requires 0 <= i < |table|
    ensures SetStatus(table, id, s)[i].status == (if table[i].id == id then s else table[i].status)
    ensures table[i].id == id ==> SetStatus(table, id, s)[i] == table[i].(status := s)
    ensures table[i].id != id ==> SetStatus(table, id, s)[i] == table[i]
  {
    var r := SetStatus(table, id, s);
    assert r[i].(status := table[i].status) == table[i];
  }

  /** Setting the same status twice is the same as setting it once, whatever
      the status was before. */
  lemma {:induction false} SetStatusIdempotent(table: seq<Event>, id: string, s: EventStatus)
    ensures SetStatus(SetStatus(table, id, s), id, s) == SetStatus(table, id, s)
  {
    if table != [] {
      SetStatusIdempotent(table[1..], id, s);
      assert SetStatus(table, id, s)[1..] == SetStatus(table[1..], id, s);
    }
  }

  /** After approving, a row with that id is listed exactly when it passes the filters. */
  lemma ApprovedRowListed(table: seq<Event>, id: string, f: EventFilters, i: int)
    requires 0 <= i < |table| && table[i].id == id
    ensures SetStatus(table, id, Approved)[i] in ListResult(SetStatus(table, id, Approved), f) <==>
      MatchesFilters(f, table[i])
  {
    var t := SetStatus(table, id, Approved);
    SetStatusOnlyStatus(table, id, Approved, i);
    ListResultCorrect(t, f, t[i]);
    assert MatchesFilters(f, t[i]) == MatchesFilters(f, table[i]);
  }

  /** After rejecting, no row with that id is listed. */
  lemma RejectedRowUnlisted(table: seq<Event>, id: string, f: EventFilters, e: Event)
    requires e in ListResult(SetStatus(table, id, Rejected), f)
    ensures e.id != id
  {
    var t := SetStatus(table, id, Rejected);
    ListResultCorrect(t, f, e);
    var i :| 0 <= i < |t| && t[i] == e;
  }

  /** The main query of `fetchEvents`, built clause by clause: approved rows,
      then one clause for each set filter. It selects exactly the listed rows. */
  method BuildListQuery(f: EventFilters) returns (query: Query)
    ensures query.limit == None
    ensures forall e :: AllHold(query.clauses, e) <==> Listed(f, e)
  {
    query := Query([StatusIs(Approved)], None);
    ghost var q0 := query;
    if f.eventType.Some? {
      query := AddClause(query, TypeIs(f.eventType.value));
    }
    ghost var q1 := query;
    if f.college.Some? && f.college.value != "" {
      query := AddClause(query, CollegeIs(f.college.value));
    }
    ghost var q2 := query;
    if f.mode.Some? {
      query := AddClause(query, ModeIs(f.mode.value));
    }
    ghost var q3 := query;
    if f.startDate.Some? {
      query := AddClause(query, DateFrom(f.startDate.value));
    }
    ghost var q4 := query;
    if f.endDate.Some? {
      query := AddClause(query, DateTo(f.endDate.value));
    }
    forall e ensures AllHold(query.clauses, e) <==> Listed(f, e) {
      assert AllHold(q0.clauses, e) <==> e.status == Approved by {
        assert Holds(q0.clauses[0], e) <==> e.status == Approved;
      }
      if f.eventType.Some? { AllHoldAppend(q0.clauses, TypeIs(f.eventType.value), e); }
      if CollegeSet(f) { AllHoldAppend(q1.clauses, CollegeIs(f.college.value), e); }
      if f.mode.Some? { AllHoldAppend(q2.clauses, ModeIs(f.mode.value), e); }
      if f.startDate.Some? { AllHoldAppend(q3.clauses, DateFrom(f.startDate.value), e); }
      if f.endDate.Some? { AllHoldAppend(q4.clauses, DateTo(f.endDate.value), e); }
    }
  }

  /** Running a query that selects exactly the listed rows yields the list result. */
  lemma RunListQuery(table: seq<Event>, q: Query, f: EventFilters)
    requires q.limit == None
    requires forall e :: AllHold(q.clauses, e) <==> Listed(f, e)
    ensures Run(table, q) == ListResult(table, f)
  {
    KeepCongruent(table, e => AllHold(q.clauses, e), e => Listed(f, e));
  }

  /** The featured query of `fetchEvents` yields the featured result. */
  lemma RunFeaturedQuery(table: seq<Event>)
    ensures Run(table, Query([StatusIs(Approved), FeaturedIs(true)], Some(FeaturedLimit))) == FeaturedResult(table)
  {
    var q := Query([StatusIs(Approved), FeaturedIs(true)], Some(FeaturedLimit));
    forall e ensures AllHold(q.clauses, e) <==> Promoted(e) {
      assert Holds(q.clauses[0], e) && Holds(q.clauses[1], e) ==> Promoted(e);
    }
    KeepCongruent(table, e => AllHold(q.clauses, e), Promoted);
  }

  /** The provider's state. `hasClient` is whether a backend client was created. */
  class EventStore {
    var table: seq<Event>
    var hasClient: bool
    var events: seq<Event>
    var featuredEvents: seq<Event>
    var loading: bool
    var error: Option<string>
    var filters: EventFilters

    /** The state before the mount effect runs. */
    constructor (rows: seq<Event>)
      ensures table == rows && !hasClient
      ensures events == [] && featuredEvents == [] && loading && error == None
      ensures filters == NoFilters
    {
      table := rows;
      hasClient := false;
      events, featuredEvents := [], [];
      loading := true;
      error := None;
      filters := NoFilters;
    }

    /** The mount effect as written: a client is created when both settings
        are present, but the `fetchEvents` it calls belongs to the first
        render, which sees no client yet, so nothing is fetched; without the
        settings `loading` ends and an error is shown. */
    method Mount(url: Option<string>, key: Option<string>)
      requires !hasClient
      modifies this
      ensures var configured := url.Some? && url.value != "" && key.Some? && key.value != "";
        && hasClient == configured
        && events == old(events) && featuredEvents == old(featuredEvents)
        && table == old(table) && filters == old(filters)
        && loading == (configured && old(loading))
        && error == (if configured then old(error) else Some(MissingConfigMessage))
    {
      if url.Some? && url.value != "" && key.Some? && key.value != "" {
        // the `fetchEvents` called here tests the first render's client,
        // which is still absent, and returns at once
        hasClient := true;
      } else {
        loading := false;
        error := Some(MissingConfigMessage);
      }
    }

    /** The mount effect as evidently intended: once the client exists the
        first fetch runs with it. */
    method MountAndFetch(url: Option<string>, key: Option<string>, main: Reply, featured: Reply)
      requires !hasClient
      modifies this
      ensures var configured := url.Some? && url.value != "" && key.Some? && key.value != "";
        && hasClient == configured
        && table == old(table) && filters == old(filters)
        && !loading
        && events == (if configured && main.Ok? then ListResult(table, filters) else old(events))
        && featuredEvents ==
           (if configured && main.Ok? && featured.Ok? then FeaturedResult(table) else old(featuredEvents))
        && error == (if !configured then Some(MissingConfigMessage)
                     else if main.Failed? then Some(main.message)
                     else if featured.Failed? then Some(featured.message)
                     else old(error))
    {
      if url.Some? && url.value != "" && key.Some? && key.value != "" {
        hasClient := true;
        FetchEvents(main, featured);
      } else {
        loading := false;
        error := Some(MissingConfigMessage);
      }
    }

    /** `fetchEvents`: the main query (approved rows, each set filter added as
        a clause) and then the featured query. A failure of either records
        its message and leaves that list as it was; the featured query runs
        only after the main one succeeded. */
    method FetchEvents(main: Reply, featured: Reply)
      modifies this
      ensures table == old(table) && filters == old(filters) && hasClient == old(hasClient)
      ensures !hasClient ==>
        events == old(events) && featuredEvents == old(featuredEvents)
        && loading == old(loading) && error == old(error)
      ensures hasClient ==> !loading
      ensures hasClient ==> events == (if main.Ok? then ListResult(table, filters) else old(events))
      ensures hasClient ==>
        featuredEvents == (if main.Ok? && featured.Ok? then FeaturedResult(table) else old(featuredEvents))
      ensures hasClient ==>
        error == (if main.Failed? then Some(main.message)
                  else if featured.Failed? then Some(featured.message)
                  else old(error))
    {
      if !hasClient {
        return;
      }
      loading := true;
      var query := BuildListQuery(filters);
      if main.Failed? {
        error := Some(main.message);
        loading := false;
        return;
      }
      RunListQuery(table, query, filters);
      events := Run(table, query);
      var featuredQuery := Query([StatusIs(Approved), FeaturedIs(true)], Some(FeaturedLimit));
      if featured.Failed? {
        error := Some(featured.message);
        loading := false;
        return;
      }
      RunFeaturedQuery(table);
      featuredEvents := Run(table, featuredQuery);
      loading := false;
    }

    /** `fetchEventById`: the one row with that id (any status), or None when
        there is no client, the request fails, or the id matches zero or
        several rows (the `.single()` error, whose message is `singleMessage`). */
    method FetchEventById(id: string, reply: Reply, singleMessage: string) returns (r: Option<Event>)
      modifies this
      ensures table == old(table) && events == old(events) && featuredEvents == old(featuredEvents)
      ensures loading == old(loading) && filters == old(filters) && hasClient == old(hasClient)
      ensures r.Some? <==> hasClient && reply.Ok? && |Keep(table, (e: Event) => e.id == id)| == 1
      ensures r.Some? ==> r.value in table && r.value.id == id
      ensures !hasClient ==> error == old(error)
      ensures hasClient && reply.Failed? ==> error == Some(reply.message)
      ensures hasClient && reply.Ok? ==> error == (if r.Some? then old(error) else Some(singleMessage))
    {
      if !hasClient {
        return None;
      }
      if reply.Failed? {
        error := Some(reply.message);
        return None;
      }
      var rows := Keep(table, (e: Event) => e.id == id);
      if |rows| == 1 {
        r := Some(rows[0]);
      } else {
        error := Some(singleMessage);
        r := None;
      }
    }

    /** `addEvent`: insert the payload (the backend assigns `newId` and
        `createdAt`), then refetch. A failed insert records its message and
        changes nothing else. */
    method AddEvent(payload: NewEvent, newId: string, createdAt: int, insert: Reply, main: Reply, featured: Reply)
      modifies this
      ensures filters == old(filters) && hasClient == old(hasClient)
      ensures !hasClient ==>
        table == old(table) && events == old(events) && featuredEvents == old(featuredEvents)
        && loading == old(loading) && error == old(error)
      ensures hasClient ==> !loading
      ensures hasClient && insert.Failed? ==>
        table == old(table) && events == old(events) && featuredEvents == old(featuredEvents)
        && error == Some(insert.message)
      ensures hasClient && insert.Ok? ==> table == old(table) + [Stored(payload, newId, createdAt)]
      ensures hasClient && insert.Ok? ==>
        events == (if main.Ok? then ListResult(table, filters) else old(events))
      ensures hasClient && insert.Ok? ==>
        featuredEvents == (if main.Ok? && featured.Ok? then FeaturedResult(table) else old(featuredEvents))
      ensures hasClient && insert.Ok? ==>
        error == (if main.Failed? then Some(main.message)
                  else if featured.Failed? then Some(featured.message)
                  else old(error))
    {
      if !hasClient {
        return;
      }
      loading := true;
      if insert.Failed? {
        error := Some(insert.message);
        loading := false;
        return;
      }
      table := table + [Stored(payload, newId, createdAt)];
      FetchEvents(main, featured);
      loading := false;
    }

    /** `approveEvent` / `rejectEvent`: overwrite the status of the rows with
        that id, then refetch. A failed update records its message and
        changes nothing else. */
    method ChangeStatus(id: string, s: EventStatus, update: Reply, main: Reply, featured: Reply)
      modifies this
      ensures filters == old(filters) && hasClient == old(hasClient)
      ensures !hasClient ==>
        table == old(table) && events == old(events) && featuredEvents == old(featuredEvents)
        && loading == old(loading) && error == old(error)
      ensures hasClient ==> !loading
      ensures hasClient && update.Failed? ==>
        table == old(table) && events == old(events) && featuredEvents == old(featuredEvents)
        && error == Some(update.message)
      ensures hasClient && update.Ok? ==> table == SetStatus(old(table), id, s)
      ensures hasClient && update.Ok? ==>
        events == (if main.Ok? then ListResult(table, filters) else old(events))
      ensures hasClient && update.Ok? ==>
        featuredEvents == (if main.Ok? && featured.Ok? then FeaturedResult(table) else old(featuredEvents))
      ensures hasClient && update.Ok? ==>
        error == (if main.Failed? then Some(main.message)
                  else if featured.Failed? then Some(featured.message)
                  else old(error))
    {
      if !hasClient {
        return;
      }
      loading := true;
      if update.Failed? {
        error := Some(update.message);
        loading := false;
        return;
      }
      table := SetStatus(table, id, s);
      FetchEvents(main, featured);
      loading := false;
    }

    /** `approveEvent`: the rows with that id become approved, then both lists are refetched. */
    method ApproveEvent(id: string, update: Reply, main: Reply, featured: Reply)
      modifies this
      ensures filters == old(filters) && hasClient == old(hasClient)
      ensures !hasClient ==>
        table == old(table) && events == old(events) && featuredEvents == old(featuredEvents)
        && loading == old(loading) && error == old(error)
      ensures hasClient ==> !loading
      ensures hasClient && update.Failed? ==>
        table == old(table) && events == old(events) && featuredEvents == old(featuredEvents)
        && error == Some(update.message)
      ensures hasClient && update.Ok? ==> table == SetStatus(old(table), id, Approved)
      ensures hasClient && update.Ok? ==>
        events == (if main.Ok? then ListResult(table, filters) else old(events))
      ensures hasClient && update.Ok? ==>
        featuredEvents == (if main.Ok? && featured.Ok? then FeaturedResult(table) else old(featuredEvents))
      ensures hasClient && update.Ok? ==>
        error == (if main.Failed? then Some(main.message)
                  else if featured.Failed? then Some(featured.message)
                  else old(error))
    {
      ChangeStatus(id, Approved, update, main, featured);
    }

    /** `rejectEvent`: the rows with that id become rejected, then both lists are refetched. */
    method RejectEvent(id: string, update: Reply, main: Reply, featured: Reply)
      modifies this
      ensures filters == old(filters) && hasClient == old(hasClient)
      ensures !hasClient ==>
        table == old(table) && events == old(events) && featuredEvents == old(featuredEvents)
        && loading == old(loading) && error == old(error)
      ensures hasClient ==> !loading
      ensures hasClient && update.Failed? ==>
        table == old(table) && events == old(events) && featuredEvents == old(featuredEvents)
        && error == Some(update.message)
      ensures hasClient && update.Ok? ==> table == SetStatus(old(table), id, Rejected)
      ensures hasClient && update.Ok? ==>
        events == (if main.Ok? then ListResult(table, filters) else old(events))
      ensures hasClient && update.Ok? ==>
        featuredEvents == (if main.Ok? && featured.Ok? then FeaturedResult(table) else old(featuredEvents))
      ensures hasClient && update.Ok? ==>
        error == (if main.Failed? then Some(main.message)
                  else if featured.Failed? then Some(featured.message)
                  else old(error))
    {
      ChangeStatus(id, Rejected, update, main, featured);
    }

    /** `setFilters` and the effect that refetches when the filters change. */
    method SetFilters(f: EventFilters, main: Reply, featured: Reply)
      modifies this
      ensures filters == f && table == old(table) && hasClient == old(hasClient)
      ensures !hasClient ==>
        events == old(events) && featuredEvents == old(featuredEvents)
        && loading == old(loading) && error == old(error)
      ensures hasClient ==> !loading
      ensures hasClient ==> events == (if main.Ok? then ListResult(table, f) else old(events))
      ensures hasClient ==>
        featuredEvents == (if main.Ok? && featured.Ok? then FeaturedResult(table) else old(featuredEvents))
      ensures hasClient ==>
        error == (if main.Failed? then Some(main.message)
                  else if featured.Failed? then Some(featured.message)
                  else old(error))
    {
      filters := f;
      FetchEvents(main, featured);
    }
  }
}
