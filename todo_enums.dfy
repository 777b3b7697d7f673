/** The closed enumerations of a task's status and priority, shared by the backend schema
    (`TodoStatus`, `TodoPriority`) and the page's `TodoStatus` and `TodoPriority` types, with the
    string values both sides put on the wire and in stored documents. */
module TodoEnums {
  import opened Wrappers

  datatype Status = NotStarted | InProgress | Finished

  datatype Priority = Low | Medium | High | Urgent

  function StatusValue(status: Status): string {
    match status
    case NotStarted => "not_started"
    case InProgress => "in_progress"
    case Finished => "finished"
  }

  function PriorityValue(priority: Priority): string {
    match priority
    case Low => "low"
    case Medium => "medium"
    case High => "high"
    case Urgent => "urgent"
  }

  /** `TodoStatus(value)`: the member whose value is `value`, if there is one. */
  function ParseStatus(value: string): (r: Option<Status>)
    ensures r.Some? ==> StatusValue(r.value) == value
    ensures r.None? <==> forall status :: StatusValue(status) != value
  {
    if value == "not_started" then Some(NotStarted)
    else if value == "in_progress" then Some(InProgress)
    else if value == "finished" then Some(Finished)
    else None
  }

  /** `TodoPriority(value)`: the member whose value is `value`, if there is one. */
  function ParsePriority(value: string): (r: Option<Priority>)
    ensures r.Some? ==> PriorityValue(r.value) == value
    ensures r.None? <==> forall priority :: PriorityValue(priority) != value
  {
    if value == "low" then Some(Low)
    else if value == "medium" then Some(Medium)
    else if value == "high" then Some(High)
    else if value == "urgent" then Some(Urgent)
    else None
  }

  /** Every member's value parses back to the member: the values are distinct and complete. */
  lemma EnumValuesRoundTrip(status: Status, priority: Priority)
    ensures ParseStatus(StatusValue(status)) == Some(status)
    ensures ParsePriority(PriorityValue(priority)) == Some(priority)
  {
  }
}
