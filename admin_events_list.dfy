/** The admin table of events: a status filter, a case-insensitive search
    over name, college and description, and a sort on a copy by the chosen
    column and direction; clicking a column header toggles the sort; each
    workflow status offers its own actions. */
module AdminEventsList {
  import opened Types
  import opened Seqs
  import opened Text
  import opened EventOrder
  import EventContext

  datatype StatusFilter = AllStatuses | OnlyStatus(status: EventStatus)

  predicate StatusPasses(sf: StatusFilter, e: Event)
  {
    sf.AllStatuses? || e.status == sf.status
  }

  /** First stage: with `AllStatuses` every event, otherwise the events of
      that status, in their original order. */
  function FilterByStatus(events: seq<Event>, sf: StatusFilter): (r: seq<Event>)
    ensures sf.AllStatuses? ==> r == events
    ensures forall e :: e in r <==> e in events && StatusPasses(sf, e)
    ensures forall e :: multiset(r)[e] == if StatusPasses(sf, e) then multiset(events)[e] else 0
    ensures IsSubsequence(r, events)
  {
    if sf.AllStatuses? then
      KeepAll(events, e => StatusPasses(sf, e));
      KeepIsSubsequence(events, e => StatusPasses(sf, e));
      events
    else
      KeepIsSubsequence(events, e => StatusPasses(sf, e));
      assert forall e :: (multiset(Keep(events, x => StatusPasses(sf, x)))[e] ==
                          if StatusPasses(sf, e) then multiset(events)[e] else 0) by {
        forall e ensures multiset(Keep(events, x => StatusPasses(sf, x)))[e] ==
                         if StatusPasses(sf, e) then multiset(events)[e] else 0 {
          KeepMultiset(events, x => StatusPasses(sf, x), e);
        }
      }
      Keep(events, e => StatusPasses(sf, e))
  }

  /** The lower-cased term occurs in the lower-cased name, college or description. */
  predicate MatchesTerm(e: Event, term: string)
  {
    var t := Lower(term);
    Contains(Lower(e.name), t) || Contains(Lower(e.college), t) || Contains(Lower(e.description), t)
  }

  /** Second stage: an empty term keeps everything; otherwise the events the term matches. */
  function Search(events: seq<Event>, term: string): (r: seq<Event>)
    ensures term == "" ==> r == events
    ensures forall e :: e in r <==> e in events && (term == "" || MatchesTerm(e, term))
  {
    if term == "" then events else Keep(events, e => MatchesTerm(e, term))
  }

  /** `t` is a substring of `s`, stated positionally. */
  ghost predicate IsSubstring(t: string, s: string)
  {
    exists i :: OccursAt(s, t, i)
  }

  /** The search keeps exactly the events in whose lower-cased name, college
      or description the lower-cased term occurs (all of them for the empty
      term), in their original order. */
  lemma SearchCorrect(events: seq<Event>, term: string, e: Event)
    ensures term == "" ==> Search(events, term) == events
    ensures e in Search(events, term) <==>
      e in events &&
      (term == "" ||
       IsSubstring(Lower(term), Lower(e.name)) ||
       IsSubstring(Lower(term), Lower(e.college)) ||
       IsSubstring(Lower(term), Lower(e.description)))
    ensures IsSubsequence(Search(events, term), events)
  {
    ContainsIff(Lower(e.name), Lower(term));
    ContainsIff(Lower(e.college), Lower(term));
    ContainsIff(Lower(e.description), Lower(term));
    KeepIsSubsequence(events, e => MatchesTerm(e, term));
    if term == "" {
      KeepAll(events, e => true);
      KeepIsSubsequence(events, e => true);
    }
  }

  /** The list the table shows: status stage, search stage, then a sorted copy. */
  function Displayed(all: seq<Event>, sf: StatusFilter, term: string, f: SortField, d: Direction): seq<Event>
  {
    SortEvents(f, d, Search(FilterByStatus(all, sf), term))
  }

  /** The shown list is a permutation of the filtered list, sorted on the
      chosen column in the chosen direction, and holds exactly the events
      that pass both stages. */
  lemma DisplayedCorrect(all: seq<Event>, sf: StatusFilter, term: string, f: SortField, d: Direction, e: Event)
    ensures multiset(Displayed(all, sf, term, f, d)) == multiset(Search(FilterByStatus(all, sf), term))
    ensures Sorted(f, d, Displayed(all, sf, term, f, d))
    ensures e in Displayed(all, sf, term, f, d) <==>
      e in all && StatusPasses(sf, e) && (term == "" || MatchesTerm(e, term))
  {
    var filtered := Search(FilterByStatus(all, sf), term);
    SortEventsPermutes(f, d, filtered);
    SortEventsSorted(f, d, filtered);
    assert e in Displayed(all, sf, term, f, d) <==> e in multiset(filtered);
  }

  /** Re-sorting what the table shows by the same column and direction changes nothing. */
  lemma DisplayedStable(all: seq<Event>, sf: StatusFilter, term: string, f: SortField, d: Direction)
    ensures SortEvents(f, d, Displayed(all, sf, term, f, d)) == Displayed(all, sf, term, f, d)
  {
    SortEventsSorted(f, d, Search(FilterByStatus(all, sf), term));
    SortEventsIdempotent(f, d, Displayed(all, sf, term, f, d));
  }

  /** The list the table is given is the provider's `events`, which only ever
      holds approved rows: under the Pending and Rejected filters it is empty,
      so the approve button for a pending event never appears. */
  lemma OnlyApprovedReachTheTable(table: seq<Event>, filters: EventFilters, s: EventStatus,
                                   term: string, f: SortField, d: Direction)
    requires s != Approved
    ensures Displayed(EventContext.ListResult(table, filters), OnlyStatus(s), term, f, d) == []
  {
    var listed := EventContext.ListResult(table, filters);
    var r := Displayed(listed, OnlyStatus(s), term, f, d);
    if r != [] {
      DisplayedCorrect(listed, OnlyStatus(s), term, f, d, r[0]);
      EventContext.ListResultCorrect(table, filters, r[0]);
      assert false;
    }
  }

  /** With the table fed every row of the backend table, whatever its status,
      each pending row that the search matches is shown under the Pending filter. */
  lemma AllRowsShowPending(table: seq<Event>, term: string, f: SortField, d: Direction, e: Event)
    requires e in table && e.status == Pending && (term == "" || MatchesTerm(e, term))
    ensures e in Displayed(table, OnlyStatus(Pending), term, f, d)
  {
    DisplayedCorrect(table, OnlyStatus(Pending), term, f, d, e);
  }

  /** Clicking a column header: the same column flips the direction, another
      column becomes the sort column, ascending. */
  function ToggleSort(current: SortField, dir: Direction, clicked: SortField): (r: (SortField, Direction))
    ensures r.0 == clicked
    ensures clicked == current ==> r.1 != dir
    ensures clicked != current ==> r.1 == Asc
  {
    if clicked == current then (current, if dir == Asc then Desc else Asc) else (clicked, Asc)
  }

  /** Two clicks on the same header restore the direction. */
  lemma ToggleTwice(current: SortField, dir: Direction)
    ensures var (f1, d1) := ToggleSort(current, dir, current);
            ToggleSort(f1, d1, current) == (current, dir)
  {
  }

  /** The admin actions and the status each one sets. */
  datatype AdminAction = ApproveAction | RejectAction

  function Target(a: AdminAction): EventStatus
  {
    match a
    case ApproveAction => Approved
    case RejectAction => Rejected
  }

  /** The buttons a row shows, in order: pending rows both, rejected rows
      Approve, approved rows Reject. */
  function ActionsFor(s: EventStatus): seq<AdminAction>
  {
    match s
    case Pending => [ApproveAction, RejectAction]
    case Rejected => [ApproveAction]
    case Approved => [RejectAction]
  }

  /** A row offers exactly the actions that would change its status. */
  lemma ActionsChangeStatus(s: EventStatus, a: AdminAction)
    ensures a in ActionsFor(s) <==> Target(a) != s
  {
  }

  /** The table's own state: the status filter, the search term and the sort. */
  class AdminListView {
    var statusFilter: StatusFilter
    var sortField: SortField
    var sortDirection: Direction
    var searchTerm: string

    constructor ()
      ensures statusFilter == AllStatuses && sortField == CreatedAtField
      ensures sortDirection == Desc && searchTerm == ""
    {
      statusFilter := AllStatuses;
      sortField := CreatedAtField;
      sortDirection := Desc;
      searchTerm := "";
    }

    /** What the table shows for the provider's `events`. */
    function Shown(all: seq<Event>): seq<Event>
      reads this
    {
      Displayed(all, statusFilter, searchTerm, sortField, sortDirection)
    }

    /** `handleSort`. */
    method HandleSort(clicked: SortField)
      modifies this
      ensures (sortField, sortDirection) == ToggleSort(old(sortField), old(sortDirection), clicked)
      ensures statusFilter == old(statusFilter) && searchTerm == old(searchTerm)
    {
      if sortField == clicked {
        sortDirection := if sortDirection == Asc then Desc else Asc;
      } else {
        sortField := clicked;
        sortDirection := Asc;
      }
    }

    method SetStatusFilter(sf: StatusFilter)
      modifies this
      ensures statusFilter == sf
      ensures sortField == old(sortField) && sortDirection == old(sortDirection) && searchTerm == old(searchTerm)
    {
      statusFilter := sf;
    }

    method SetSearchTerm(term: string)
      modifies this
      ensures searchTerm == term
      ensures sortField == old(sortField) && sortDirection == old(sortDirection) && statusFilter == old(statusFilter)
    {
      searchTerm := term;
    }
  }
}
