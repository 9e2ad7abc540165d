/** The filter bar of the public listing: one-key updates of the filter
    record, clearing it, the "filters applied" test, and the mapping from
    a select or date input's raw value to a filter value (the empty option
    means no filter). Turning a date input's text into a timestamp is the
    parameter `parseDate`. */
module FilterBar {
  import opened Types
  import EventContext

  datatype FilterKey = TypeKey | CollegeKey | ModeKey | StartDateKey | EndDateKey

  /** A value of one filter field. */
  datatype FilterValue =
    | TypeChoice(eventType: Option<EventType>)
    | CollegeChoice(college: Option<string>)
    | ModeChoice(mode: Option<EventMode>)
    | DateChoice(date: Option<int>)

  function Get(f: EventFilters, k: FilterKey): FilterValue
  {
    match k
    case TypeKey => TypeChoice(f.eventType)
    case CollegeKey => CollegeChoice(f.college)
    case ModeKey => ModeChoice(f.mode)
    case StartDateKey => DateChoice(f.startDate)
    case EndDateKey => DateChoice(f.endDate)
  }

  /** Field `k` holds values of this shape. */
  predicate Fits(k: FilterKey, v: FilterValue)
  {
    match k
    case TypeKey => v.TypeChoice?
    case CollegeKey => v.CollegeChoice?
    case ModeKey => v.ModeChoice?
    case StartDateKey | EndDateKey => v.DateChoice?
  }

  /** `handleFilterChange(key, value)`: the record handed to the provider. */
  function HandleFilterChange(f: EventFilters, k: FilterKey, v: FilterValue): (r: EventFilters)
    requires Fits(k, v)
    ensures Get(r, k) == v
    ensures forall j :: j != k ==> Get(r, j) == Get(f, j)
  {
    match k
    case TypeKey => f.(eventType := v.eventType)
    case CollegeKey => f.(college := v.college)
    case ModeKey => f.(mode := v.mode)
    case StartDateKey => f.(startDate := v.date)
    case EndDateKey => f.(endDate := v.date)
  }

  /** `clearFilters`: every field unset, which is the provider's initial record. */
  function ClearFilters(): (r: EventFilters)
    ensures forall k :: !Applied(Get(r, k))
    ensures r == EventContext.NoFilters
  {
    EventFilters(None, None, None, None, None)
  }

  /** A field value is truthy: present, and non-empty for the college name. */
  predicate Applied(v: FilterValue)
  {
    match v
    case TypeChoice(t) => t.Some?
    case CollegeChoice(c) => c.Some? && c.value != ""
    case ModeChoice(m) => m.Some?
    case DateChoice(d) => d.Some?
  }

  /** `isFiltersApplied`: some field is truthy. */
  function IsFiltersApplied(f: EventFilters): (r: bool)
    ensures r <==> exists k :: Applied(Get(f, k))
  {
    AppliedFields(f);
    f.eventType.Some? || (f.college.Some? && f.college.value != "") || f.mode.Some?
    || f.startDate.Some? || f.endDate.Some?
  }

  lemma AppliedFields(f: EventFilters)
    ensures (exists k :: Applied(Get(f, k))) <==>
      f.eventType.Some? || (f.college.Some? && f.college.value != "") || f.mode.Some?
      || f.startDate.Some? || f.endDate.Some?
  {
    if f.eventType.Some? { assert Applied(Get(f, TypeKey)); }
    if f.college.Some? && f.college.value != "" { assert Applied(Get(f, CollegeKey)); }
    if f.mode.Some? { assert Applied(Get(f, ModeKey)); }
    if f.startDate.Some? { assert Applied(Get(f, StartDateKey)); }
    if f.endDate.Some? { assert Applied(Get(f, EndDateKey)); }
  }

  /** After clearing, no filter is applied. */
  lemma ClearedNotApplied()
    ensures !IsFiltersApplied(ClearFilters())
  {
  }

  /** Setting one field to a truthy value applies the filters. */
  lemma ChangeApplies(f: EventFilters, k: FilterKey, v: FilterValue)
    requires Fits(k, v) && Applied(v)
    ensures IsFiltersApplied(HandleFilterChange(f, k, v))
  {
  }

  /** When no filter is applied, the filters constrain nothing: the listing
      shows every approved event. */
  lemma NotAppliedListsAllApproved(f: EventFilters, e: Event)
    requires !IsFiltersApplied(f)
    ensures EventContext.Listed(f, e) <==> e.status == Approved
  {
    assert !Applied(Get(f, TypeKey)) && !Applied(Get(f, CollegeKey)) && !Applied(Get(f, ModeKey));
    assert !Applied(Get(f, StartDateKey)) && !Applied(Get(f, EndDateKey));
  }

  // ---- Inputs: a raw option value to a filter value, and back

  /** The type select: "" is "All Types". */
  function TypeSelection(raw: string): (r: Option<EventType>)
    ensures raw == "" ==> r == None
    ensures r.Some? ==> raw == TypeValue(r.value)
  {
    if raw == "" then None else ParseType(raw)
  }

  /** The college select: "" is "All Colleges". */
  function CollegeSelection(raw: string): (r: Option<string>)
    ensures r.None? <==> raw == ""
    ensures r.Some? ==> r.value == raw
  {
    if raw == "" then None else Some(raw)
  }

  /** The mode select: "" is "All Modes". */
  function ModeSelection(raw: string): (r: Option<EventMode>)
    ensures raw == "" ==> r == None
    ensures r.Some? ==> raw == ModeValue(r.value)
  {
    if raw == "" then None else ParseMode(raw)
  }

  /** A date input: `value || null`. */
  function DateSelection(raw: string, parseDate: string -> int): (r: Option<int>)
    ensures r.None? <==> raw == ""
    ensures r.Some? ==> r.value == parseDate(raw)
  {
    if raw == "" then None else Some(parseDate(raw))
  }

  /** What a select shows for a field: `filters.x || ''`. */
  function TypeShown(t: Option<EventType>): string
  {
    if t.Some? then TypeValue(t.value) else ""
  }

  function CollegeShown(c: Option<string>): string
  {
    if c.Some? then c.value else ""
  }

  function ModeShown(m: Option<EventMode>): string
  {
    if m.Some? then ModeValue(m.value) else ""
  }

  /** Reading back what a select shows gives the value it shows, except that
      an empty college name reads back as no college. Every option of the
      type and mode selects is read as its own value. */
  lemma SelectionsRoundTrip(t: Option<EventType>, c: Option<string>, m: Option<EventMode>)
    ensures TypeSelection(TypeShown(t)) == t
    ensures CollegeSelection(CollegeShown(c)) == if c == Some("") then None else c
    ensures ModeSelection(ModeShown(m)) == m
  {
    if t.Some? { ParseTypeValue(t.value); }
    if m.Some? { ParseModeValue(m.value); }
  }
}
