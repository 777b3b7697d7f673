/** The request bodies of the task routes: deadline normalisation and the field constraints
    and defaults of a create body and a partial-update body. */
module TodoSchema {
  import opened Wrappers
  import opened DateTimes
  import opened TodoEnums

  /** A deadline as the request may give it: a calendar date or a datetime. */
  datatype DeadlineInput = DateInput(date: Date) | DateTimeInput(dateTime: DateTime)

  /** 23:59:59 as a time of day, in microseconds. */
  const EndOfDay: nat := (23 * 3600 + 59 * 60 + 59) * MicrosPerSecond

  /** Turns every deadline into an aware UTC datetime: a date becomes the last second of that
      day in UTC, a naive datetime is read as UTC, an aware one is converted to UTC. */
  function NormalizeDeadline(value: Option<DeadlineInput>): (r: Option<DateTime>)
    ensures r.None? <==> value.None?
    ensures r.Some? ==> IsUtc(r.value)
    ensures value.Some? && value.value.DateInput? ==>
      DateOf(r.value) == value.value.date && TimeOfDay(r.value) == EndOfDay
    ensures value.Some? && value.value.DateTimeInput? && !IsAware(value.value.dateTime) ==>
      DateOf(r.value) == DateOf(value.value.dateTime) && TimeOfDay(r.value) == TimeOfDay(value.value.dateTime)
    ensures value.Some? && value.value.DateTimeInput? && IsAware(value.value.dateTime) ==>
      Instant(r.value) == Instant(value.value.dateTime)
  {
    match value
    case None => None
    case Some(DateInput(d)) => Some(Combine(d, EndOfDay, Utc))
    case Some(DateTimeInput(dt)) =>
      if dt.offset.None? then Some(ReplaceTz(dt, Utc)) else Some(AsUtc(dt))
  }

  /** A normalised deadline sent again normalises to itself. */
  lemma NormalizeIdempotent(value: Option<DeadlineInput>)
    requires NormalizeDeadline(value).Some?
    ensures NormalizeDeadline(Some(DateTimeInput(NormalizeDeadline(value).value))) == NormalizeDeadline(value)
  {
    var r := NormalizeDeadline(value).value;
    var again := NormalizeDeadline(Some(DateTimeInput(r))).value;
    assert Instant(again) == Instant(r);
  }

  /** Two aware datetimes for the same instant, in whatever zones, normalise alike. */
  lemma NormalizeSameInstant(a: DateTime, b: DateTime)
    requires IsAware(a) && IsAware(b) && Instant(a) == Instant(b)
    ensures NormalizeDeadline(Some(DateTimeInput(a))) == NormalizeDeadline(Some(DateTimeInput(b)))
  {
    var ra := NormalizeDeadline(Some(DateTimeInput(a))).value;
    var rb := NormalizeDeadline(Some(DateTimeInput(b))).value;
    assert ra.wall == Instant(a);
  }

  // ---------------------------------------------------------------------------
  // Field constraints

  const MaxDescriptionLength: nat := 20000

  /** A field that failed validation; the response lists every one of them. */
  datatype FieldError =
    | TitleMissing
    | TitleTooShort
    | DescriptionTooLong
    | StatusInvalid
    | PriorityInvalid

  /** A create body as received: each optional key may be absent (`None`). */
  datatype RawCreate = RawCreate(
    title: Option<string>,
    description: Option<string>,
    deadline: Option<DeadlineInput>,
    priority: Option<string>)

  /** A validated create body. */
  datatype TodoCreate = TodoCreate(
    title: string,
    description: string,
    deadline: Option<DateTime>,
    priority: Priority)

  /** Every failed constraint of a create body, in field order. */
  function CreateErrors(raw: RawCreate): (errors: seq<FieldError>)
    ensures TitleMissing in errors <==> raw.title.None?
    ensures TitleTooShort in errors <==> raw.title == Some("")
    ensures DescriptionTooLong in errors <==> raw.description.Some? && |raw.description.value| > MaxDescriptionLength
    ensures PriorityInvalid in errors <==> raw.priority.Some? && ParsePriority(raw.priority.value).None?
    ensures StatusInvalid !in errors
  {
    (if raw.title.None? then [TitleMissing] else if |raw.title.value| < 1 then [TitleTooShort] else [])
    + (if raw.description.Some? && |raw.description.value| > MaxDescriptionLength then [DescriptionTooLong] else [])
    + (if raw.priority.Some? && ParsePriority(raw.priority.value).None? then [PriorityInvalid] else [])
  }

  /** Validates a create body: a non-empty title, a description of at most 20000 characters
      (empty when absent), a known priority (medium when absent) and a normalised deadline. */
  function ValidateCreate(raw: RawCreate): (r: Result<TodoCreate, seq<FieldError>>)
    ensures r.Ok? <==> CreateErrors(raw) == []
    ensures r.Err? ==> r.error == CreateErrors(raw)
    ensures r.Ok? ==>
      && Some(r.value.title) == raw.title && |r.value.title| >= 1
      && |r.value.description| <= MaxDescriptionLength
      && (raw.description.None? ==> r.value.description == "")
      && (raw.description.Some? ==> r.value.description == raw.description.value)
      && (raw.priority.None? ==> r.value.priority == Medium)
      && (raw.priority.Some? ==> PriorityValue(r.value.priority) == raw.priority.value)
      && r.value.deadline == NormalizeDeadline(raw.deadline)
  {
    var errors := CreateErrors(raw);
    if errors != [] then Err(errors)
    else
      Ok(TodoCreate(
        raw.title.value,
        raw.description.GetOr(""),
        NormalizeDeadline(raw.deadline),
        if raw.priority.None? then Medium else ParsePriority(raw.priority.value).value))
  }

  /** An update body as received. Each key is absent (`None`), null (`Some(None)`) or
      given (`Some(Some(x))`); the present keys are the body's set fields. */
  datatype RawUpdate = RawUpdate(
    title: Option<Option<string>>,
    description: Option<Option<string>>,
    status: Option<Option<string>>,
    deadline: Option<Option<DeadlineInput>>,
    priority: Option<Option<string>>)

  /** A validated update body, with the same three-way reading of each key. */
  datatype TodoUpdate = TodoUpdate(
    title: Option<Option<string>>,
    description: Option<Option<string>>,
    status: Option<Option<Status>>,
    deadline: Option<Option<DateTime>>,
    priority: Option<Option<Priority>>)

  predicate GivenAnd<T>(field: Option<Option<T>>, bad: T -> bool) {
    field.Some? && field.value.Some? && bad(field.value.value)
  }

  /** Every failed constraint of an update body: a given title must be non-empty, a given
      description at most 20000 characters, a given status or priority a known value. */
  function UpdateErrors(raw: RawUpdate): (errors: seq<FieldError>)
    ensures TitleTooShort in errors <==> raw.title == Some(Some(""))
    ensures DescriptionTooLong in errors <==>
      raw.description.Some? && raw.description.value.Some? && |raw.description.value.value| > MaxDescriptionLength
    ensures StatusInvalid in errors <==>
      raw.status.Some? && raw.status.value.Some? && ParseStatus(raw.status.value.value).None?
    ensures PriorityInvalid in errors <==>
      raw.priority.Some? && raw.priority.value.Some? && ParsePriority(raw.priority.value.value).None?
    ensures TitleMissing !in errors
  {
    (if GivenAnd(raw.title, (t: string) => |t| < 1) then [TitleTooShort] else [])
    + (if GivenAnd(raw.description, (d: string) => |d| > MaxDescriptionLength) then [DescriptionTooLong] else [])
    + (if GivenAnd(raw.status, (s: string) => ParseStatus(s).None?) then [StatusInvalid] else [])
    + (if GivenAnd(raw.priority, (p: string) => ParsePriority(p).None?) then [PriorityInvalid] else [])
  }

  function MapGiven<T, U>(field: Option<Option<T>>, f: T -> U): (r: Option<Option<U>>)
    ensures r.None? <==> field.None?
    ensures r.Some? ==> (r.value.None? <==> field.value.None?)
  {
    match field
    case None => None
    case Some(None) => Some(None)
    case Some(Some(x)) => Some(Some(f(x)))
  }

  /** Validates an update body. No field is required; the set fields stay set, nulls stay null,
      and a given deadline is normalised. */
  function ValidateUpdate(raw: RawUpdate): (r: Result<TodoUpdate, seq<FieldError>>)
    ensures r.Ok? <==> UpdateErrors(raw) == []
    ensures r.Err? ==> r.error == UpdateErrors(raw)
    ensures r.Ok? ==>
      && r.value.title == raw.title
      && r.value.description == raw.description
      && (r.value.status.None? <==> raw.status.None?)
      && (raw.status.Some? && raw.status.value.Some? ==>
            r.value.status.value.Some? && StatusValue(r.value.status.value.value) == raw.status.value.value)
      && (raw.status == Some(None) ==> r.value.status == Some(None))
      && (r.value.priority.None? <==> raw.priority.None?)
      && (raw.priority.Some? && raw.priority.value.Some? ==>
            r.value.priority.value.Some? && PriorityValue(r.value.priority.value.value) == raw.priority.value.value)
      && (raw.priority == Some(None) ==> r.value.priority == Some(None))
      && (r.value.deadline.None? <==> raw.deadline.None?)
      && (raw.deadline.Some? ==> r.value.deadline.value == NormalizeDeadline(raw.deadline.value))
  {
    var errors := UpdateErrors(raw);
    if errors != [] then Err(errors)
    else
      Ok(TodoUpdate(
        raw.title,
        raw.description,
        MapGiven(raw.status, (s: string) => if ParseStatus(s).Some? then ParseStatus(s).value else NotStarted),
        match raw.deadline
        case None => None
        case Some(d) => Some(NormalizeDeadline(d)),
        MapGiven(raw.priority, (p: string) => if ParsePriority(p).Some? then ParsePriority(p).value else Medium)))
  }
}
