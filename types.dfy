/** The record types shared by every page: an event row of the backend's
    `events` table, the three closed enumerations it uses, and the filter
    record of the public listing. Timestamps are epoch milliseconds. */
module Types {

  datatype Option<+T> = None | Some(value: T)

  datatype EventType = Hackathon | Workshop | Webinar | Seminar | Competition | TechTalk | OtherType

  datatype EventMode = Online | Offline | Hybrid

  datatype EventStatus = Pending | Approved | Rejected

  /** One row of the events table. `location`, `endDate`, `imageUrl` and
      `createdBy` are nullable in the table. */
  datatype Event = Event(
    id: string,
    name: string,
    description: string,
    shortDescription: string,
    college: string,
    eventType: EventType,
    mode: EventMode,
    location: Option<string>,
    eventDate: int,
    endDate: Option<int>,
    registrationLink: string,
    imageUrl: Option<string>,
    featured: bool,
    status: EventStatus,
    createdAt: int,
    createdBy: Option<string>)

  /** A row as the client inserts it: the backend assigns `id` and `createdAt`. */
  datatype NewEvent = NewEvent(
    name: string,
    description: string,
    shortDescription: string,
    college: string,
    eventType: EventType,
    mode: EventMode,
    location: Option<string>,
    eventDate: int,
    endDate: Option<int>,
    registrationLink: string,
    imageUrl: Option<string>,
    featured: bool,
    status: EventStatus,
    createdBy: Option<string>)

  /** The stored row for an inserted payload, with the identity the backend gave it. */
  function Stored(p: NewEvent, id: string, createdAt: int): (e: Event)
    ensures e.id == id && e.createdAt == createdAt
    ensures e.status == p.status && e.featured == p.featured && e.createdBy == p.createdBy
  {
    Event(id, p.name, p.description, p.shortDescription, p.college, p.eventType, p.mode,
          p.location, p.eventDate, p.endDate, p.registrationLink, p.imageUrl, p.featured,
          p.status, createdAt, p.createdBy)
  }

  /** The structured filters of the public listing; None means "no constraint". */
  datatype EventFilters = EventFilters(
    eventType: Option<EventType>,
    college: Option<string>,
    mode: Option<EventMode>,
    startDate: Option<int>,
    endDate: Option<int>)

  /** The wire value of each event type, as the select options carry it. */
  function TypeValue(t: EventType): (v: string)
    ensures v != ""
  {
    match t
    case Hackathon => "hackathon"
    case Workshop => "workshop"
    case Webinar => "webinar"
    case Seminar => "seminar"
    case Competition => "competition"
    case TechTalk => "tech_talk"
    case OtherType => "other"
  }

  /** Inverse of TypeValue on the seven wire values. */
  function ParseType(v: string): (r: Option<EventType>)
    ensures r.Some? ==> TypeValue(r.value) == v
  {
    if v == "hackathon" then Some(Hackathon)
    else if v == "workshop" then Some(Workshop)
    else if v == "webinar" then Some(Webinar)
    else if v == "seminar" then Some(Seminar)
    else if v == "competition" then Some(Competition)
    else if v == "tech_talk" then Some(TechTalk)
    else if v == "other" then Some(OtherType)
    else None
  }

  lemma ParseTypeValue(t: EventType)
    ensures ParseType(TypeValue(t)) == Some(t)
  {
  }

  function ModeValue(m: EventMode): (v: string)
    ensures v != ""
  {
    match m
    case Online => "online"
    case Offline => "offline"
    case Hybrid => "hybrid"
  }

  function ParseMode(v: string): (r: Option<EventMode>)
    ensures r.Some? ==> ModeValue(r.value) == v
  {
    if v == "online" then Some(Online)
    else if v == "offline" then Some(Offline)
    else if v == "hybrid" then Some(Hybrid)
    else None
  }

  lemma ParseModeValue(m: EventMode)
    ensures ParseMode(ModeValue(m)) == Some(m)
  {
  }

  function StatusValue(s: EventStatus): (v: string)
    ensures v != ""
  {
    match s
    case Pending => "pending"
    case Approved => "approved"
    case Rejected => "rejected"
  }
}
