/** The statistics overview: counts by status and by type over the list the
    page is given, with "other" derived as what the three named types leave. */
module AdminStats {
  import opened Types
  import opened Seqs
  import EventContext

  datatype Stats = Stats(
    total: nat,
    pending: nat,
    approved: nat,
    hackathons: nat,
    workshops: nat,
    webinars: nat,
    other: int)

  /** `events.filter(event => event.status === s).length`. */
  function StatusCount(events: seq<Event>, s: EventStatus): nat
  {
    |Keep(events, (e: Event) => e.status == s)|
  }

  /** `events.filter(event => event.event_type === t).length`. */
  function TypeCount(events: seq<Event>, t: EventType): nat
  {
    |Keep(events, (e: Event) => e.eventType == t)|
  }

  /** The figures the page shows; `other` is the total less the three named types. */
  function ComputeStats(events: seq<Event>): (r: Stats)
    ensures r.total == |events|
    ensures r.hackathons + r.workshops + r.webinars + r.other == r.total
    ensures r.hackathons <= r.total && r.workshops <= r.total && r.webinars <= r.total
  {
    var total := |events|;
    var hackathons := TypeCount(events, Hackathon);
    var workshops := TypeCount(events, Workshop);
    var webinars := TypeCount(events, Webinar);
    Stats(total, StatusCount(events, Pending), StatusCount(events, Approved),
          hackathons, workshops, webinars, total - hackathons - workshops - webinars)
  }

  predicate NamedType(e: Event)
  {
    e.eventType == Hackathon || e.eventType == Workshop || e.eventType == Webinar
  }

  /** Pending and approved events are disjoint, so together they never
      exceed the total. */
  lemma PendingApprovedBound(events: seq<Event>)
    ensures ComputeStats(events).pending + ComputeStats(events).approved <= ComputeStats(events).total
  {
    var p := (e: Event) => e.status == Pending;
    var a := (e: Event) => e.status == Approved;
    var pa := (e: Event) => e.status == Pending || e.status == Approved;
    KeepDisjointUnion(events, p, a, pa);
  }

  /** "Other" counts exactly the events of the four remaining types, so it is
      never negative. */
  lemma OtherIsRest(events: seq<Event>)
    ensures ComputeStats(events).other == |Keep(events, (e: Event) => !NamedType(e))|
    ensures ComputeStats(events).other >= 0
  {
    var h := (e: Event) => e.eventType == Hackathon;
    var w := (e: Event) => e.eventType == Workshop;
    var b := (e: Event) => e.eventType == Webinar;
    var hw := (e: Event) => e.eventType == Hackathon || e.eventType == Workshop;
    var hwb := (e: Event) => NamedType(e);
    var rest := (e: Event) => !NamedType(e);
    KeepDisjointUnion(events, h, w, hw);
    KeepDisjointUnion(events, hw, b, hwb);
    KeepComplement(events, hwb, rest);
  }

  /** Over a list of approved events only, no event is pending and every
      event is live. */
  lemma AllApprovedStats(events: seq<Event>)
    requires forall i :: 0 <= i < |events| ==> events[i].status == Approved
    ensures ComputeStats(events).pending == 0
    ensures ComputeStats(events).approved == ComputeStats(events).total
  {
    KeepNone(events, (e: Event) => e.status == Pending);
    KeepAll(events, (e: Event) => e.status == Approved);
  }

  /** Over the provider's `events`, which hold only approved rows, the page
      always shows zero pending events and as many live events as events. */
  lemma ListingHasNoPending(table: seq<Event>, filters: EventFilters)
    ensures ComputeStats(EventContext.ListResult(table, filters)).pending == 0
    ensures ComputeStats(EventContext.ListResult(table, filters)).approved ==
            ComputeStats(EventContext.ListResult(table, filters)).total
  {
    var listed := EventContext.ListResult(table, filters);
    forall i | 0 <= i < |listed| ensures listed[i].status == Approved {
      EventContext.ListResultCorrect(table, filters, listed[i]);
    }
    AllApprovedStats(listed);
  }

  /** Over the whole table, every pending row is counted, and the three
      status counts add up to the total. */
  lemma TableCountsEveryStatus(table: seq<Event>)
    ensures ComputeStats(table).pending + ComputeStats(table).approved + StatusCount(table, Rejected)
            == ComputeStats(table).total
    ensures forall e :: e in table && e.status == Pending ==> ComputeStats(table).pending > 0
    ensures ComputeStats(table).pending == |set i: nat | i < |table| && table[i].status == Pending|
  {
    var p := (e: Event) => e.status == Pending;
    var a := (e: Event) => e.status == Approved;
    var r := (e: Event) => e.status == Rejected;
    var pa := (e: Event) => e.status == Pending || e.status == Approved;
    var notPa := (e: Event) => !(e.status == Pending || e.status == Approved);
    KeepDisjointUnion(table, p, a, pa);
    KeepComplement(table, pa, notPa);
    KeepCongruent(table, notPa, r);
    KeepCountsPositions(table, p);
    assert ComputeStats(table).pending == |Keep(table, p)|;
    assert Positions(table, p) == set i: nat | i < |table| && table[i].status == Pending;
  }
}
