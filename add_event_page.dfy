/** The event submission form: the form state, the error map its validator
    builds, the clearing of a field's error when the field is edited, and
    the payload handed to the provider's `addEvent`. An empty select, date
    or text input is `None` or "". URL validity is the parameter `validUrl`. */
module AddEventPage {
  import opened Types
  import EventContext

  datatype Field =
    | NameField | ShortDescriptionField | DescriptionField | CollegeField
    | EventTypeField | ModeField | LocationField | EventDateField | EndDateField
    | RegistrationLinkField | ImageUrlField

  const AllFields: set<Field> := {
    NameField, ShortDescriptionField, DescriptionField, CollegeField, EventTypeField, ModeField,
    LocationField, EventDateField, EndDateField, RegistrationLinkField, ImageUrlField }

  /** The eight fields the validator requires, in its order. */
  const RequiredFields: seq<Field> := [
    NameField, ShortDescriptionField, DescriptionField, CollegeField,
    EventTypeField, ModeField, EventDateField, RegistrationLinkField ]

  datatype EventForm = EventForm(
    name: string,
    shortDescription: string,
    description: string,
    college: string,
    eventType: Option<EventType>,
    mode: Option<EventMode>,
    location: string,
    eventDate: Option<int>,
    endDate: Option<int>,
    registrationLink: string,
    imageUrl: string)

  const EmptyForm := EventForm("", "", "", "", None, None, "", None, None, "", "")

  /** The value an input of the form delivers. */
  datatype FieldValue =
    | TextInput(text: string)
    | TypeInput(eventType: Option<EventType>)
    | ModeInput(mode: Option<EventMode>)
    | DateInput(date: Option<int>)

  /** The value the form holds for a field. */
  function Get(form: EventForm, f: Field): FieldValue
  {
    match f
    case NameField => TextInput(form.name)
    case ShortDescriptionField => TextInput(form.shortDescription)
    case DescriptionField => TextInput(form.description)
    case CollegeField => TextInput(form.college)
    case EventTypeField => TypeInput(form.eventType)
    case ModeField => ModeInput(form.mode)
    case LocationField => TextInput(form.location)
    case EventDateField => DateInput(form.eventDate)
    case EndDateField => DateInput(form.endDate)
    case RegistrationLinkField => TextInput(form.registrationLink)
    case ImageUrlField => TextInput(form.imageUrl)
  }

  /** The input of field `f` delivers values of this shape. */
  predicate Fits(f: Field, v: FieldValue)
  {
    match f
    case EventTypeField => v.TypeInput?
    case ModeField => v.ModeInput?
    case EventDateField | EndDateField => v.DateInput?
    case _ => v.TextInput?
  }

  /** `{ ...formData, [name]: value }`. */
  function WithField(form: EventForm, f: Field, v: FieldValue): (r: EventForm)
    requires Fits(f, v)
    ensures Get(r, f) == v
    ensures forall g :: g != f ==> Get(r, g) == Get(form, g)
  {
    match f
    case NameField => form.(name := v.text)
    case ShortDescriptionField => form.(shortDescription := v.text)
    case DescriptionField => form.(description := v.text)
    case CollegeField => form.(college := v.text)
    case EventTypeField => form.(eventType := v.eventType)
    case ModeField => form.(mode := v.mode)
    case LocationField => form.(location := v.text)
    case EventDateField => form.(eventDate := v.date)
    case EndDateField => form.(endDate := v.date)
    case RegistrationLinkField => form.(registrationLink := v.text)
    case ImageUrlField => form.(imageUrl := v.text)
  }

  /** `!formData[field]`: the empty string or an unselected choice. */
  predicate Blank(form: EventForm, f: Field)
  {
    match Get(form, f)
    case TextInput(s) => s == ""
    case TypeInput(t) => t.None?
    case ModeInput(m) => m.None?
    case DateInput(d) => d.None?
  }

  const RequiredMessage := "This field is required"
  const TooLongMessage := "Short description must be less than 150 characters"
  const BadUrlMessage := "Please enter a valid URL"
  const EndBeforeStartMessage := "End date must be after start date"

  /** The longest short description the validator accepts. */
  const MaxShortDescription := 150

  /** The error the validator leaves on one field, if any. */
  function FieldError(form: EventForm, f: Field, validUrl: string -> bool): Option<string>
  {
    match f
    case ShortDescriptionField =>
      if |form.shortDescription| > MaxShortDescription then Some(TooLongMessage)
      else if form.shortDescription == "" then Some(RequiredMessage)
      else None
    case RegistrationLinkField =>
      if form.registrationLink == "" then Some(RequiredMessage)
      else if !validUrl(form.registrationLink) then Some(BadUrlMessage)
      else None
    case ImageUrlField =>
      if form.imageUrl != "" && !validUrl(form.imageUrl) then Some(BadUrlMessage) else None
    case EndDateField =>
      if form.eventDate.Some? && form.endDate.Some? && form.eventDate.value > form.endDate.value
      then Some(EndBeforeStartMessage) else None
    case LocationField => None
    case _ => if Blank(form, f) then Some(RequiredMessage) else None
  }

  lemma FieldInAllFields(f: Field)
    ensures f in AllFields
  {
    match f
    case NameField =>
    case ShortDescriptionField =>
    case DescriptionField =>
    case CollegeField =>
    case EventTypeField =>
    case ModeField =>
    case LocationField =>
    case EventDateField =>
    case EndDateField =>
    case RegistrationLinkField =>
    case ImageUrlField =>
  }

  /** The error map of a form: one entry per field that has an error. */
  function ExpectedErrors(form: EventForm, validUrl: string -> bool): map<Field, string>
  {
    map f | f in AllFields && FieldError(form, f, validUrl).Some? :: FieldError(form, f, validUrl).value
  }

  /** `validateForm`'s map: the required-field pass, then the length, URL and
      date checks, each overwriting the entry of its field. */
  method ComputeErrors(form: EventForm, validUrl: string -> bool) returns (newErrors: map<Field, string>)
    ensures newErrors == ExpectedErrors(form, validUrl)
  {
    newErrors := map[];
    var i := 0;
    while i < |RequiredFields|
      invariant 0 <= i <= |RequiredFields|
      invariant forall f :: f in newErrors <==> f in RequiredFields[..i] && Blank(form, f)
      invariant forall f :: f in newErrors ==> newErrors[f] == RequiredMessage
    {
      var field := RequiredFields[i];
      if Blank(form, field) {
        newErrors := newErrors[field := RequiredMessage];
      }
      assert RequiredFields[..i + 1] == RequiredFields[..i] + [field];
      i := i + 1;
    }
    assert RequiredFields[..i] == RequiredFields;
    var required := newErrors;
    if |form.shortDescription| > MaxShortDescription {
      newErrors := newErrors[ShortDescriptionField := TooLongMessage];
    }
    if form.registrationLink != "" && !validUrl(form.registrationLink) {
      newErrors := newErrors[RegistrationLinkField := BadUrlMessage];
    }
    if form.imageUrl != "" && !validUrl(form.imageUrl) {
      newErrors := newErrors[ImageUrlField := BadUrlMessage];
    }
    if form.eventDate.Some? && form.endDate.Some? && form.eventDate.value > form.endDate.value {
      newErrors := newErrors[EndDateField := EndBeforeStartMessage];
    }
    forall f
      ensures f in newErrors <==> FieldError(form, f, validUrl).Some?
      ensures f in newErrors ==> newErrors[f] == FieldError(form, f, validUrl).value
    {
      RequiredPass(form, required, f);
    }
    ExpectedErrorsAt(form, validUrl, newErrors);
  }

  /** The entries the required-field pass leaves, field by field. */
  lemma RequiredPass(form: EventForm, required: map<Field, string>, f: Field)
    requires forall g :: g in required <==> g in RequiredFields && Blank(form, g)
    ensures f in required <==> Blank(form, f) && f !in {LocationField, EndDateField, ImageUrlField}
  {
  }

  /** Where a field other than location, end date and image URL stands in the required list. */
  lemma RequiredIndex(f: Field) returns (i: int)
    requires f !in {LocationField, EndDateField, ImageUrlField}
    ensures 0 <= i < |RequiredFields| && RequiredFields[i] == f
  {
    i := if f == NameField then 0
      else if f == ShortDescriptionField then 1
      else if f == DescriptionField then 2
      else if f == CollegeField then 3
      else if f == EventTypeField then 4
      else if f == ModeField then 5
      else if f == EventDateField then 6
      else 7;
  }

  /** A map agreeing with FieldError on every field is the error map. */
  lemma ExpectedErrorsAt(form: EventForm, validUrl: string -> bool, m: map<Field, string>)
    requires forall f :: f in m <==> FieldError(form, f, validUrl).Some?
    requires forall f :: f in m ==> m[f] == FieldError(form, f, validUrl).value
    ensures m == ExpectedErrors(form, validUrl)
  {
    var e := ExpectedErrors(form, validUrl);
    forall f ensures f in e <==> f in m {
      FieldInAllFields(f);
    }
  }

  /** What the error map says: every blank required field is reported as
      required, a short description over 150 characters (and only then) gets
      the length error, a non-empty link or image URL gets the URL error
      exactly when it is invalid, and the end date gets an error exactly when
      both dates are set and the end is before the start. */
  lemma ErrorsCorrect(form: EventForm, validUrl: string -> bool)
    ensures var errs := ExpectedErrors(form, validUrl);
      && (forall i :: 0 <= i < |RequiredFields| && Blank(form, RequiredFields[i]) ==>
            RequiredFields[i] in errs && errs[RequiredFields[i]] == RequiredMessage)
      && (|form.shortDescription| > MaxShortDescription <==>
            ShortDescriptionField in errs && errs[ShortDescriptionField] == TooLongMessage)
      && (form.registrationLink != "" ==>
            (RegistrationLinkField in errs <==> !validUrl(form.registrationLink)))
      && (form.registrationLink != "" && RegistrationLinkField in errs ==>
            errs[RegistrationLinkField] == BadUrlMessage)
      && (ImageUrlField in errs <==> form.imageUrl != "" && !validUrl(form.imageUrl))
      && (ImageUrlField in errs ==> errs[ImageUrlField] == BadUrlMessage)
      && (EndDateField in errs <==>
            form.eventDate.Some? && form.endDate.Some? && form.endDate.value < form.eventDate.value)
      && (EndDateField in errs ==> errs[EndDateField] == EndBeforeStartMessage)
      && LocationField !in errs
  {
    var errs := ExpectedErrors(form, validUrl);
    forall i | 0 <= i < |RequiredFields| && Blank(form, RequiredFields[i])
      ensures RequiredFields[i] in errs && errs[RequiredFields[i]] == RequiredMessage
    {
      assert RequiredFields[i] in AllFields;
    }
  }

  /** Validation passes exactly when every required field is filled, the
      short description is at most 150 characters, the URLs are valid where
      present and the end date is not before the start date. */
  lemma ValidIff(form: EventForm, validUrl: string -> bool)
    ensures ExpectedErrors(form, validUrl) == map[] <==>
      && (forall i :: 0 <= i < |RequiredFields| ==> !Blank(form, RequiredFields[i]))
      && |form.shortDescription| <= MaxShortDescription
      && validUrl(form.registrationLink)
      && (form.imageUrl == "" || validUrl(form.imageUrl))
      && !(form.eventDate.Some? && form.endDate.Some? && form.endDate.value < form.eventDate.value)
  {
    var errs := ExpectedErrors(form, validUrl);
    if errs == map[] {
      forall i | 0 <= i < |RequiredFields| ensures !Blank(form, RequiredFields[i]) {
        assert RequiredFields[i] !in errs;
      }
      assert ShortDescriptionField !in errs && RegistrationLinkField !in errs;
      assert ImageUrlField !in errs && EndDateField !in errs;
    } else {
      var f :| f in errs;
      assert FieldError(form, f, validUrl).Some?;
      if f !in {LocationField, EndDateField, ImageUrlField} && Blank(form, f) {
        var i := RequiredIndex(f);
      }
    }
  }

  /** A form that passes validation has a type, a mode and a start date, so
      its payload can be built. */
  predicate Complete(form: EventForm)
  {
    form.eventType.Some? && form.mode.Some? && form.eventDate.Some?
  }

  lemma ValidFormIsComplete(form: EventForm, validUrl: string -> bool)
    requires ExpectedErrors(form, validUrl) == map[]
    ensures Complete(form)
  {
    ValidIff(form, validUrl);
    assert !Blank(form, RequiredFields[4]) && !Blank(form, RequiredFields[5]) && !Blank(form, RequiredFields[6]);
  }

  /** `user?.id || null`. */
  function Creator(userId: Option<string>): (r: Option<string>)
    ensures r.Some? <==> userId.Some? && userId.value != ""
    ensures r.Some? ==> r == userId
  {
    if userId.Some? && userId.value != "" then userId else None
  }

  /** The inserted record: the form's fields copied, `featured` false, status
      pending and the submitting user as creator. */
  function Payload(form: EventForm, userId: Option<string>): (p: NewEvent)
    requires Complete(form)
    ensures p.status == Pending && !p.featured && p.createdBy == Creator(userId)
  {
    NewEvent(form.name, form.description, form.shortDescription, form.college,
             form.eventType.value, form.mode.value, Some(form.location), form.eventDate.value,
             form.endDate, form.registrationLink, Some(form.imageUrl),
             false, Pending, Creator(userId))
  }

  /** Whatever the form holds, the submitted row is pending, not featured and
      created by the submitting user; once stored it is neither on the public
      list nor in the featured rotation until an administrator approves it. */
  lemma SubmittedEventAwaitsApproval(form: EventForm, userId: Option<string>, table: seq<Event>,
                                     id: string, createdAt: int, filters: EventFilters)
    requires Complete(form)
    ensures var row := Stored(Payload(form, userId), id, createdAt);
      && row.status == Pending && !row.featured && row.createdBy == Creator(userId)
      && row.name == form.name && row.shortDescription == form.shortDescription
      && row.description == form.description && row.college == form.college
      && row.eventType == form.eventType.value && row.mode == form.mode.value
      && row.location == Some(form.location) && row.registrationLink == form.registrationLink
      && row.imageUrl == Some(form.imageUrl)
      && row.eventDate == form.eventDate.value && row.endDate == form.endDate
      && row !in EventContext.ListResult(table + [row], filters)
      && row !in EventContext.FeaturedResult(table + [row])
  {
    var row := Stored(Payload(form, userId), id, createdAt);
    EventContext.ListResultCorrect(table + [row], filters, row);
    EventContext.FeaturedResultCorrect(table + [row]);
  }

  /** `if (errors[name]) setErrors({ ...errors, [name]: '' })`. */
  function ClearError(errors: map<Field, string>, f: Field): (r: map<Field, string>)
    ensures r.Keys == errors.Keys
    ensures f in errors ==> r[f] == ""
    ensures forall g :: g in errors && g != f ==> r[g] == errors[g]
  {
    if f in errors && errors[f] != "" then errors[f := ""] else errors
  }

  /** The form component's state. */
  class SubmissionForm {
    var data: EventForm
    var errors: map<Field, string>
    var submitting: bool

    constructor ()
      ensures data == EmptyForm && errors == map[] && !submitting
    {
      data := EmptyForm;
      errors := map[];
      submitting := false;
    }

    /** `handleChange`: store the value and clear that field's error. */
    method HandleChange(f: Field, v: FieldValue)
      requires Fits(f, v)
      modifies this
      ensures data == WithField(old(data), f, v)
      ensures errors == ClearError(old(errors), f)
      ensures submitting == old(submitting)
    {
      data := WithField(data, f, v);
      if f in errors && errors[f] != "" {
        errors := errors[f := ""];
      }
    }

    /** `validateForm`: replace the error map and report whether it is empty. */
    method Validate(validUrl: string -> bool) returns (ok: bool)
      modifies this
      ensures data == old(data) && submitting == old(submitting)
      ensures errors == ExpectedErrors(data, validUrl)
      ensures ok <==> errors == map[]
    {
      errors := ComputeErrors(data, validUrl);
      ok := |errors| == 0;
    }

    /** `handleSubmit`: validate, then hand the payload to the provider's
        `addEvent` (the backend's identity for the row and the replies are
        its parameters). `addEvent` handles its own failures, so once
        validation passes the page always reports success. */
    method HandleSubmit(userId: Option<string>, validUrl: string -> bool, store: EventContext.EventStore,
                        newId: string, createdAt: int, insert: EventContext.Reply,
                        main: EventContext.Reply, featured: EventContext.Reply)
      returns (reported: bool)
      modifies this, store
      ensures data == old(data)
      ensures errors == ExpectedErrors(data, validUrl)
      ensures reported <==> errors == map[]
      ensures store.filters == old(store.filters) && store.hasClient == old(store.hasClient)
      ensures !reported ==> submitting == old(submitting)
      ensures !reported || !store.hasClient ==>
        store.table == old(store.table) && store.events == old(store.events)
        && store.featuredEvents == old(store.featuredEvents)
        && store.loading == old(store.loading) && store.error == old(store.error)
      ensures reported ==> !submitting && Complete(data)
      ensures reported && store.hasClient ==> !store.loading
      ensures reported && store.hasClient && insert.Failed? ==>
        store.table == old(store.table) && store.events == old(store.events)
        && store.featuredEvents == old(store.featuredEvents) && store.error == Some(insert.message)
      ensures reported && store.hasClient && insert.Ok? ==>
        store.table == old(store.table) + [Stored(Payload(data, userId), newId, createdAt)]
      ensures reported && store.hasClient && insert.Ok? ==>
        store.events == (if main.Ok? then EventContext.ListResult(store.table, store.filters) else old(store.events))
      ensures reported && store.hasClient && insert.Ok? ==>
        store.featuredEvents ==
        (if main.Ok? && featured.Ok? then EventContext.FeaturedResult(store.table) else old(store.featuredEvents))
      ensures reported && store.hasClient && insert.Ok? ==>
        store.error == (if main.Failed? then Some(main.message)
                        else if featured.Failed? then Some(featured.message)
                        else old(store.error))
    {
      var ok := Validate(validUrl);
      if !ok {
        return false;
      }
      submitting := true;
      ValidFormIsComplete(data, validUrl);
      store.AddEvent(Payload(data, userId), newId, createdAt, insert, main, featured);
      submitting := false;
      reported := true;
    }
  }
}
