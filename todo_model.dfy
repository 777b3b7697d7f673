/** The backend's task documents: the countdown text the server sends, the document a new task
    is stored as, and the normalisation every document goes through on its way out. */
module TodoModel {
  import opened Wrappers
  import opened Text
  import opened Duration
  import opened DateTimes
  import opened Documents

  // ---------------------------------------------------------------------------
  // format_time_left

  /** The server's countdown text: all four units, even leading zero ones, then " overdue"
      for negative seconds and " left" otherwise. */
  function FormatTimeLeft(seconds: int): (text: string)
    ensures EndsWith(text, " overdue") <==> seconds < 0
    ensures EndsWith(text, " left") <==> seconds >= 0
  {
    var u := Decompose(Abs(seconds));
    var body := (NatToString(u.days) + "d") + " " + (NatToString(u.hours) + "h") + " "
      + (NatToString(u.minutes) + "m") + " " + (NatToString(u.seconds) + "s");
    WordEnding(body, seconds);
    body + " " + Word(seconds)
  }

  /** The server's text is the four unit tokens joined by spaces, then the word. */
  lemma FormatTimeLeftTokens(seconds: int)
    ensures FormatTimeLeft(seconds) == Join(UnitTokens(Decompose(Abs(seconds))), " ") + " " + Word(seconds)
  {
    var u := Decompose(Abs(seconds));
    var d, h, m, s := NatToString(u.days), NatToString(u.hours), NatToString(u.minutes), NatToString(u.seconds);
    assert UnitTokens(u) == [d + "d", h + "h", m + "m", s + "s"];
    JoinFour(d + "d", h + "h", m + "m", s + "s", " ");
  }

  /** The server's text reads back as the seconds it was made from. */
  lemma FormatTimeLeftReadsBack(seconds: int)
    ensures ParseCountdown(FormatTimeLeft(seconds)) == Some(seconds)
  {
    FormatTimeLeftTokens(seconds);
    CountdownReadsBack(seconds, 0);
    assert UnitTokens(Decompose(Abs(seconds)))[0..] == UnitTokens(Decompose(Abs(seconds)));
  }

  // ---------------------------------------------------------------------------
  // Seconds left, as the server computes them

  /** Integer division rounding toward zero, as `int()` of a quotient does. */
  function TruncDiv(a: int, b: nat): (q: int)
    requires b > 0
    ensures a >= 0 ==> q * b <= a < q * b + b
    ensures a < 0 ==> q * b - b < a <= q * b
  {
    if a >= 0 then a / b else -((-a) / b)
  }

  /** Whole seconds from now until an aware deadline, rounded toward zero. */
  function SecondsLeft(deadline: DateTime, nowUs: int): int
    requires IsAware(deadline)
  {
    TruncDiv(Instant(deadline) - nowUs, MicrosPerSecond)
  }

  // ---------------------------------------------------------------------------
  // Todo.create

  /** The keys of a newly created task document. */
  const CreatedKeys: set<string> :=
    {"title", "description", "status", "priority", "user_id", "deadline", "created_at", "updated_at"}

  function DeadlineValue(deadline: Option<DateTime>): Value {
    if deadline.Some? then Time(deadline.value) else Null
  }

  /** A new task's document: not started, priority medium unless given, created and updated
      at the same instant `nowUs` (UTC). */
  function CreateTodoDoc(title: string, description: string, userId: string, deadline: Option<DateTime>,
                         priority: Option<string>, nowUs: int): (doc: Doc)
    ensures doc.Keys == CreatedKeys
    ensures doc["status"] == Str("not_started")
    ensures doc["priority"] == Str(if priority.Some? then priority.value else "medium")
    ensures doc["created_at"] == doc["updated_at"] == Time(DateTime(nowUs, Utc))
    ensures doc["title"] == Str(title) && doc["description"] == Str(description)
    ensures doc["user_id"] == Str(userId)
    ensures doc["deadline"].Null? <==> deadline.None?
    ensures deadline.Some? ==> doc["deadline"] == Time(deadline.value)
  {
    var now := Time(DateTime(nowUs, Utc));
    map[
      "title" := Str(title),
      "description" := Str(description),
      "status" := Str("not_started"),
      "priority" := Str(priority.GetOr("medium")),
      "user_id" := Str(userId),
      "deadline" := DeadlineValue(deadline),
      "created_at" := now,
      "updated_at" := now]
  }

  // ---------------------------------------------------------------------------
  // Todo.to_dict

  /** What the conversion needs of a non-empty document: an ObjectId under "_id", and a
      datetime under "deadline" when that value is truthy. */
  predicate Convertible(doc: Doc) {
    doc != map[] ==>
      && "_id" in doc && doc["_id"].Oid?
      && (Truthy(Get(doc, "deadline")) ==> Get(doc, "deadline").Time?)
  }

  /** The keys the conversion always writes. */
  const AddedKeys: set<string> :=
    {"id", "status", "priority", "description", "time_left_seconds", "time_left_human", "is_overdue"}

  /** The keys whose value the conversion may change. */
  const RewrittenKeys: set<string> := AddedKeys + {"deadline"}

  /** The stored deadline made aware: a naive one is read as UTC. */
  function AwareDeadline(v: Value): Value {
    if v.Time? && v.t.offset.None? then Time(ReplaceTz(v.t, Utc)) else v
  }

  /** The value under `k` once the id is renamed and the missing fields are filled. */
  function FilledValue(doc: Doc, k: string): Value
    requires Convertible(doc) && doc != map[]
    requires k in FilledKeys || k in doc
  {
    if k == "id" then Str(ObjectIdText(doc["_id"].id))
    else if k in doc then doc[k]
    else if k == "status" then Str(if Truthy(Get(doc, "completed")) then "finished" else "not_started")
    else if k == "priority" then Str("medium")
    else Str("")
  }

  /** The keys renaming and filling always write. */
  const FilledKeys: set<string> := {"id", "status", "priority", "description"}

  /** The keys of the countdown fields. */
  const CountdownKeys: set<string> := {"time_left_seconds", "time_left_human", "is_overdue"}

  /** The value of a countdown field for a deadline value that is already aware. */
  function CountdownValue(deadline: Value, k: string, nowUs: int): Value
    requires Truthy(deadline) ==> deadline.Time? && IsAware(deadline.t)
  {
    if k == "time_left_seconds" then
      (if Truthy(deadline) then Int(SecondsLeft(deadline.t, nowUs)) else Null)
    else if k == "time_left_human" then
      (if Truthy(deadline) then Str(FormatTimeLeft(SecondsLeft(deadline.t, nowUs))) else Null)
    else
      Bool(Truthy(deadline) && SecondsLeft(deadline.t, nowUs) < 0)
  }

  /** The value under key `k` of the converted document. */
  function ConvertedValue(doc: Doc, k: string, nowUs: int): Value
    requires Convertible(doc) && doc != map[]
    requires k in AddedKeys || k in doc
  {
    if k in CountdownKeys then CountdownValue(AwareDeadline(Get(doc, "deadline")), k, nowUs)
    else if k == "deadline" then AwareDeadline(Get(doc, "deadline"))
    else FilledValue(doc, k)
  }

  /** The document as the API returns it: an empty document stays empty; otherwise every key
      but "_id", and every key the conversion adds, with its converted value. */
  function NormalizedTodo(doc: Doc, nowUs: int): (r: Doc)
    requires Convertible(doc)
    ensures doc == map[] ==> r == doc
    ensures doc != map[] ==> "_id" !in r && forall k :: k in r <==> k in AddedKeys || (k in doc && k != "_id")
  {
    if doc == map[] then doc
    else map k | k in AddedKeys + (doc.Keys - {"_id"}) :: ConvertedValue(doc, k, nowUs)
  }

  /** The filled keys are neither countdown keys nor "deadline", and are distinct. */
  lemma FilledKeysApart()
    ensures "id" !in CountdownKeys && "status" !in CountdownKeys
    ensures "priority" !in CountdownKeys && "description" !in CountdownKeys
    ensures "id" != "deadline" && "status" != "deadline" && "priority" != "deadline" && "description" != "deadline"
    ensures "status" != "id" && "priority" != "id" && "description" != "id"
    ensures "priority" != "status" && "description" != "status" && "description" != "priority"
  {
    assert "priority"[0] != "deadline"[0];
  }

  /** "_id" becomes the text "id"; a missing status is "finished" when a legacy "completed"
      flag is truthy and "not_started" otherwise; a missing priority is "medium" and a missing
      description ""; every key the conversion does not rewrite keeps its value. */
  lemma NormalizedFields(doc: Doc, nowUs: int)
    requires Convertible(doc) && doc != map[]
    ensures var r := NormalizedTodo(doc, nowUs);
      && r["id"] == Str(ObjectIdText(doc["_id"].id))
      && r["status"] == (if "status" in doc then doc["status"]
                         else Str(if Truthy(Get(doc, "completed")) then "finished" else "not_started"))
      && r["priority"] == (if "priority" in doc then doc["priority"] else Str("medium"))
      && r["description"] == (if "description" in doc then doc["description"] else Str(""))
      && (forall k :: k in doc && k != "_id" && k !in RewrittenKeys ==> r[k] == doc[k])
  {
    FilledKeysApart();
  }

  /** Without a truthy deadline the countdown fields are null, null and false, and the stored
      deadline value, if any, is kept. */
  lemma NormalizedWithoutDeadline(doc: Doc, nowUs: int)
    requires Convertible(doc) && doc != map[] && !Truthy(Get(doc, "deadline"))
    ensures var r := NormalizedTodo(doc, nowUs);
      && r["time_left_seconds"] == Null && r["time_left_human"] == Null && r["is_overdue"] == Bool(false)
      && ("deadline" in doc ==> r["deadline"] == doc["deadline"])
  {
  }

  /** With a deadline it is made aware (a naive one keeps its wall clock and is read as UTC,
      an aware one is kept), and the countdown fields hold the seconds left, rounded toward
      zero, their text, and whether they are negative. */
  lemma NormalizedWithDeadline(doc: Doc, nowUs: int)
    requires Convertible(doc) && doc != map[] && Truthy(Get(doc, "deadline"))
    ensures var r := NormalizedTodo(doc, nowUs);
      var stored := doc["deadline"].t;
      var secs := SecondsLeft(AwareDeadline(Time(stored)).t, nowUs);
      && r["deadline"].Time? && IsAware(r["deadline"].t)
      && DateOf(r["deadline"].t) == DateOf(stored) && TimeOfDay(r["deadline"].t) == TimeOfDay(stored)
      && (IsAware(stored) ==> r["deadline"] == doc["deadline"])
      && r["time_left_seconds"] == Int(secs)
      && r["time_left_human"] == Str(FormatTimeLeft(secs))
      && r["is_overdue"] == Bool(secs < 0)
  {
  }

  /** Maps with the same keys and the same value under each key are equal. */
  lemma SameMap<K, V>(a: map<K, V>, b: map<K, V>)
    requires forall k :: k in a <==> k in b
    requires forall k :: k in a ==> a[k] == b[k]
    ensures a == b
  {
  }

  /** `Todo.to_dict`: copies the document, then renames the id and fills the missing fields,
      makes the deadline aware, and adds the countdown fields. */
  method ToDict(doc: Doc, nowUs: int) returns (r: Doc)
    requires Convertible(doc)
    ensures r == NormalizedTodo(doc, nowUs)
  {
    if doc == map[] {
      return doc;
    }
    var filled := RenameAndFill(doc);
    var aware, deadline := MakeDeadlineAware(filled);
    assert deadline == AwareDeadline(Get(doc, "deadline"));
    r := AddCountdown(aware, deadline, nowUs);
    forall k | k in r ensures r[k] == ConvertedValue(doc, k, nowUs) {
      if k in CountdownKeys {
      } else if k == "deadline" {
      } else {
        assert r[k] == filled[k];
      }
    }
    ghost var spec := NormalizedTodo(doc, nowUs);
    assert forall k :: k in spec ==> spec[k] == ConvertedValue(doc, k, nowUs);
    SameMap(r, spec);
  }

  /** Renames "_id" to the text "id" and fills a missing status, priority and description. */
  method RenameAndFill(doc: Doc) returns (todo: Doc)
    requires Convertible(doc) && doc != map[]
    ensures forall k :: k in todo <==> k in FilledKeys || (k in doc && k != "_id")
    ensures forall k :: k in todo ==> todo[k] == FilledValue(doc, k)
  {
    todo := doc;
    todo := todo["id" := Str(ObjectIdText(todo["_id"].id))];
    todo := todo - {"_id"};
    if "status" !in todo {
      todo := todo["status" := Str(if Truthy(Get(todo, "completed")) then "finished" else "not_started")];
    }
    if "priority" !in todo {
      todo := todo["priority" := Str("medium")];
    }
    if "description" !in todo {
      todo := todo["description" := Str("")];
    }
  }

  /** Reads a naive deadline as UTC, writing the aware value back; returns the deadline value. */
  method MakeDeadlineAware(todo: Doc) returns (r: Doc, deadline: Value)
    requires Truthy(Get(todo, "deadline")) ==> Get(todo, "deadline").Time?
    ensures deadline == AwareDeadline(Get(todo, "deadline"))
    ensures Truthy(deadline) ==> deadline.Time? && IsAware(deadline.t)
    ensures forall k :: k in r <==> k in todo
    ensures forall k :: k in r ==> r[k] == if k == "deadline" then deadline else todo[k]
  {
    r := todo;
    deadline := Get(todo, "deadline");
    if Truthy(deadline) && deadline.t.offset.None? {
      deadline := Time(ReplaceTz(deadline.t, Utc));
      r := r["deadline" := deadline];
    }
  }

  /** Adds the seconds left, their text and the overdue flag, or null, null and false. */
  method AddCountdown(todo: Doc, deadline: Value, nowUs: int) returns (r: Doc)
    requires Truthy(deadline) ==> deadline.Time? && IsAware(deadline.t)
    ensures forall k :: k in r <==> k in todo || k in CountdownKeys
    ensures forall k :: k in r ==> r[k] == if k in CountdownKeys then CountdownValue(deadline, k, nowUs) else todo[k]
  {
    r := todo;
    if Truthy(deadline) {
      var secs := SecondsLeft(deadline.t, nowUs);
      r := r["time_left_seconds" := Int(secs)];
      r := r["time_left_human" := Str(FormatTimeLeft(secs))];
      r := r["is_overdue" := Bool(secs < 0)];
    } else {
      r := r["time_left_seconds" := Null];
      r := r["time_left_human" := Null];
      r := r["is_overdue" := Bool(false)];
    }
    forall k | k in r
      ensures r[k] == if k in CountdownKeys then CountdownValue(deadline, k, nowUs) else todo[k]
    {
      if k == "time_left_seconds" {
      } else if k == "time_left_human" {
      } else if k == "is_overdue" {
      } else {
        assert k !in CountdownKeys;
      }
    }
  }

  /** In a converted document the overdue flag and the countdown text always agree, and the
      text reads back as the seconds left. */
  lemma OverdueFlagMatchesText(doc: Doc, nowUs: int)
    requires Convertible(doc) && doc != map[]
    ensures var r := NormalizedTodo(doc, nowUs);
      r["is_overdue"] == Bool(r["time_left_human"].Str? && EndsWith(r["time_left_human"].s, " overdue"))
    ensures var r := NormalizedTodo(doc, nowUs);
      r["time_left_seconds"].Int? ==>
        r["time_left_human"].Str? && ParseCountdown(r["time_left_human"].s) == Some(r["time_left_seconds"].i)
  {
    var r := NormalizedTodo(doc, nowUs);
    if r["time_left_seconds"].Int? {
      FormatTimeLeftReadsBack(r["time_left_seconds"].i);
    }
  }
}
