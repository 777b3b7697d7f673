/** The task routes over the caller's slice of the task collection. The collection is a map
    from ObjectId to stored document; the caller is identified by the text of their user id. */
module TodoRoutes {
  import opened Wrappers
  import opened DateTimes
  import opened Documents
  import opened TodoEnums
  import opened TodoSchema
  import opened TodoModel

  /** The document belongs to the user whose id text is `userId`. */
  predicate OwnedBy(doc: Doc, userId: string) {
    Get(doc, "user_id") == Str(userId)
  }

  /** A well-formed collection: every document sits under its own ObjectId and can be
      converted for output. */
  predicate WellFormed(docs: map<ObjectId, Doc>) {
    forall id :: id in docs ==> "_id" in docs[id] && docs[id]["_id"] == Oid(id) && Convertible(docs[id])
  }

  /** The ids of the caller's tasks. */
  function OwnedIds(docs: map<ObjectId, Doc>, userId: string): set<ObjectId> {
    set id | id in docs && OwnedBy(docs[id], userId)
  }

  /** A list of ids without repeats that holds exactly the ids of a set is as long as the set. */
  lemma {:induction false} DistinctLength(s: seq<ObjectId>, ids: set<ObjectId>)
    requires forall i, j :: 0 <= i < j < |s| ==> s[i] != s[j]
    requires forall i :: 0 <= i < |s| ==> s[i] in ids
    requires forall id :: id in ids ==> id in s
    ensures |s| == |ids|
  {
    if s == [] {
      assert ids == {};
    } else {
      var last, rest := s[|s| - 1], s[..|s| - 1];
      forall id | id in ids - {last}
        ensures id in rest
      {
        var i :| 0 <= i < |s| && s[i] == id;
        assert rest[i] == id;
      }
      DistinctLength(rest, ids - {last});
    }
  }

  /** Converts the found documents one by one, in the order found. */
  method ConvertEach(todos: seq<Doc>, nowUs: int) returns (r: seq<Doc>)
    requires forall k :: 0 <= k < |todos| ==> Convertible(todos[k])
    ensures |r| == |todos|
    ensures forall k :: 0 <= k < |r| ==> r[k] == NormalizedTodo(todos[k], nowUs)
  {
    r := [];
    for i := 0 to |todos|
      invariant |r| == i
      invariant forall k :: 0 <= k < i ==> r[k] == NormalizedTodo(todos[k], nowUs)
    {
      var converted := ToDict(todos[i], nowUs);
      r := r + [converted];
    }
  }

  // ---------------------------------------------------------------------------
  // The fields an update writes

  /** The names of the fields set in the update body. */
  function SetFields(update: TodoUpdate): set<string> {
    (if update.title.Some? then {"title"} else {})
    + (if update.description.Some? then {"description"} else {})
    + (if update.status.Some? then {"status"} else {})
    + (if update.deadline.Some? then {"deadline"} else {})
    + (if update.priority.Some? then {"priority"} else {})
  }

  /** The names of the update fields are 5, 6, 8 or 11 characters long, so none of them is
      "_id", "user_id" or "updated_at". */
  lemma SetFieldLengths(update: TodoUpdate)
    ensures forall k :: k in SetFields(update) ==> |k| == 5 || |k| == 6 || |k| == 8 || |k| == 11
    ensures "_id" !in SetFields(update) && "user_id" !in SetFields(update)
    ensures "updated_at" !in SetFields(update)
  {
  }

  /** A field name is among the set fields exactly when the update gives that field. */
  lemma SetFieldsMembers(update: TodoUpdate)
    ensures "title" in SetFields(update) <==> update.title.Some?
    ensures "description" in SetFields(update) <==> update.description.Some?
    ensures "status" in SetFields(update) <==> update.status.Some?
    ensures "deadline" in SetFields(update) <==> update.deadline.Some?
    ensures "priority" in SetFields(update) <==> update.priority.Some?
  {
    assert "deadline"[0] != "priority"[0];
  }

  function TextOrNull(v: Option<string>): Value {
    if v.Some? then Str(v.value) else Null
  }

  function StatusOrNull(v: Option<Status>): Value {
    if v.Some? then Str(StatusValue(v.value)) else Null
  }

  function PriorityOrNull(v: Option<Priority>): Value {
    if v.Some? then Str(PriorityValue(v.value)) else Null
  }

  /** `m` with `key` set to `v` when `given`, else `m`. */
  function PutIf(m: map<string, Value>, given: bool, key: string, v: Value): map<string, Value> {
    if given then m[key := v] else m
  }

  /** The `$set` document of an update: every set field with its stored value (an explicit
      null stored as null), and nothing else. */
  function Updates(update: TodoUpdate): map<string, Value> {
    var m1 := PutIf(map[], update.title.Some?, "title", TextOrNull(update.title.GetOr(None)));
    var m2 := PutIf(m1, update.description.Some?, "description", TextOrNull(update.description.GetOr(None)));
    var m3 := PutIf(m2, update.status.Some?, "status", StatusOrNull(update.status.GetOr(None)));
    var m4 := PutIf(m3, update.deadline.Some?, "deadline", DeadlineValue(update.deadline.GetOr(None)));
    PutIf(m4, update.priority.Some?, "priority", PriorityOrNull(update.priority.GetOr(None)))
  }

  lemma PutIfKeys(m: map<string, Value>, given: bool, key: string, v: Value)
    ensures PutIf(m, given, key, v).Keys == m.Keys + (if given then {key} else {})
  {
  }

  /** The `$set` document holds exactly the set fields. */
  lemma UpdatesKeys(update: TodoUpdate)
    ensures Updates(update).Keys == SetFields(update)
    ensures "updated_at" !in Updates(update)
  {
    var m1 := PutIf(map[], update.title.Some?, "title", TextOrNull(update.title.GetOr(None)));
    var m2 := PutIf(m1, update.description.Some?, "description", TextOrNull(update.description.GetOr(None)));
    var m3 := PutIf(m2, update.status.Some?, "status", StatusOrNull(update.status.GetOr(None)));
    var m4 := PutIf(m3, update.deadline.Some?, "deadline", DeadlineValue(update.deadline.GetOr(None)));
    PutIfKeys(map[], update.title.Some?, "title", TextOrNull(update.title.GetOr(None)));
    assert m1.Keys == if update.title.Some? then {"title"} else {};
    PutIfKeys(m1, update.description.Some?, "description", TextOrNull(update.description.GetOr(None)));
    PutIfKeys(m2, update.status.Some?, "status", StatusOrNull(update.status.GetOr(None)));
    PutIfKeys(m3, update.deadline.Some?, "deadline", DeadlineValue(update.deadline.GetOr(None)));
    PutIfKeys(m4, update.priority.Some?, "priority", PriorityOrNull(update.priority.GetOr(None)));
    SetFieldLengths(update);
  }

  /** The `$set` document holds exactly the set fields, each with the value given for it. */
  lemma UpdatesFields(update: TodoUpdate)
    ensures Updates(update).Keys == SetFields(update)
    ensures update.title.Some? ==> Updates(update)["title"] == TextOrNull(update.title.value)
    ensures update.description.Some? ==> Updates(update)["description"] == TextOrNull(update.description.value)
    ensures update.status.Some? ==> Updates(update)["status"] == StatusOrNull(update.status.value)
    ensures update.deadline.Some? ==> Updates(update)["deadline"] == DeadlineValue(update.deadline.value)
    ensures update.priority.Some? ==> Updates(update)["priority"] == PriorityOrNull(update.priority.value)
  {
  }

  /** No field is set exactly when the `$set` document is empty. */
  lemma NoUpdatesWhenNothingSet(update: TodoUpdate)
    ensures Updates(update) == map[] <==>
      update.title.None? && update.description.None? && update.status.None? &&
      update.deadline.None? && update.priority.None?
  {
    UpdatesFields(update);
    var u := Updates(update);
    if update.title.Some? { assert "title" in u; }
    if update.description.Some? { assert "description" in u; }
    if update.status.Some? { assert "status" in u; }
    if update.deadline.Some? { assert "deadline" in u; }
    if update.priority.Some? { assert "priority" in u; }
    if u != map[] {
      var k :| k in u;
    }
  }

  /** Builds the `$set` document one field at a time. */
  method BuildUpdates(update: TodoUpdate) returns (updates: map<string, Value>)
    ensures updates == Updates(update)
  {
    updates := map[];
    if update.title.Some? {
      updates := updates["title" := TextOrNull(update.title.value)];
    }
    if update.description.Some? {
      updates := updates["description" := TextOrNull(update.description.value)];
    }
    if update.status.Some? {
      updates := updates["status" := StatusOrNull(update.status.value)];
    }
    if update.deadline.Some? {
      updates := updates["deadline" := DeadlineValue(update.deadline.value)];
    }
    if update.priority.Some? {
      updates := updates["priority" := PriorityOrNull(update.priority.value)];
    }
  }

  /** A stored task after an update: the set fields and the update time overwritten. */
  function Patched(doc: Doc, update: TodoUpdate, nowUs: int): Doc {
    doc + Updates(update)["updated_at" := Time(DateTime(nowUs, Utc))]
  }

  /** An update overwrites the set fields and the update time and leaves every other key,
      including the owner and the id, as it was. */
  lemma PatchedKeepsTheRest(doc: Doc, update: TodoUpdate, nowUs: int)
    ensures Updates(update).Keys == SetFields(update)
    ensures var r, u := Patched(doc, update, nowUs), Updates(update);
      && r.Keys == doc.Keys + u.Keys + {"updated_at"}
      && (forall k :: k in doc && k !in u && k != "updated_at" ==> r[k] == doc[k])
      && (forall k :: k in u ==> r[k] == u[k])
      && r["updated_at"] == Time(DateTime(nowUs, Utc))
  {
    UpdatesKeys(update);
  }

  /** The value an update leaves under a key it does not write. */
  lemma PatchedGet(doc: Doc, update: TodoUpdate, nowUs: int, key: string)
    requires key !in SetFields(update) && key != "updated_at"
    ensures Get(Patched(doc, update, nowUs), key) == Get(doc, key)
  {
    UpdatesKeys(update);
  }

  /** A deadline given in the update is what the stored task then carries. */
  lemma PatchedDeadline(doc: Doc, update: TodoUpdate, nowUs: int)
    requires update.deadline.Some?
    ensures Get(Patched(doc, update, nowUs), "deadline") == DeadlineValue(update.deadline.value)
  {
    UpdatesFields(update);
    assert "deadline" in Updates(update);
  }

  /** An update keeps a convertible document convertible: the id is never among the set
      fields, and a deadline is written as a datetime or null. */
  lemma PatchedConvertible(doc: Doc, update: TodoUpdate, nowUs: int)
    requires Convertible(doc) && doc != map[]
    ensures Convertible(Patched(doc, update, nowUs))
    ensures Get(Patched(doc, update, nowUs), "_id") == Get(doc, "_id")
    ensures Get(Patched(doc, update, nowUs), "user_id") == Get(doc, "user_id")
  {
    var r := Patched(doc, update, nowUs);
    SetFieldLengths(update);
    PatchedGet(doc, update, nowUs, "_id");
    PatchedGet(doc, update, nowUs, "user_id");
    assert Get(r, "_id") == doc["_id"];
    assert "_id" in r && r["_id"].Oid?;
    var deadline := Get(r, "deadline");
    if update.deadline.Some? {
      PatchedDeadline(doc, update, nowUs);
    } else {
      SetFieldsMembers(update);
      PatchedGet(doc, update, nowUs, "deadline");
    }
    assert Truthy(deadline) ==> deadline.Time?;
  }

  /** An explicit null for the title is stored as a null title. */
  lemma NullTitleIsStored(doc: Doc, update: TodoUpdate, nowUs: int)
    requires update.title == Some(None)
    ensures Patched(doc, update, nowUs)["title"] == Null
  {
    PatchedKeepsTheRest(doc, update, nowUs);
    assert "title" in SetFields(update);
  }

  /** The stored document of a new task, under the ObjectId `newId`. */
  function NewTodoDoc(todo: TodoCreate, userId: string, newId: ObjectId, nowUs: int): Doc {
    CreateTodoDoc(todo.title, todo.description, userId, todo.deadline,
                  Some(PriorityValue(todo.priority)), nowUs)["_id" := Oid(newId)]
  }

  /** A new task's document is the caller's, not started, carries its own id and can be
      converted. */
  lemma NewTodoDocFacts(todo: TodoCreate, userId: string, newId: ObjectId, nowUs: int)
    ensures var d := NewTodoDoc(todo, userId, newId, nowUs);
      && d != map[] && "_id" in d && d["_id"] == Oid(newId)
      && Convertible(d) && OwnedBy(d, userId)
      && d["status"] == Str("not_started")
  {
    var d := NewTodoDoc(todo, userId, newId, nowUs);
    var created := CreateTodoDoc(todo.title, todo.description, userId, todo.deadline,
                                 Some(PriorityValue(todo.priority)), nowUs);
    assert Get(d, "deadline") == Get(created, "deadline");
    assert Get(d, "user_id") == Get(created, "user_id");
  }

  /** Adding a well-formed document of the caller's under a new id keeps the collection
      well formed and adds exactly that id to the caller's tasks. */
  lemma AddOwned(docs: map<ObjectId, Doc>, id: ObjectId, d: Doc, userId: string)
    requires WellFormed(docs) && id !in docs
    requires "_id" in d && d["_id"] == Oid(id) && Convertible(d) && OwnedBy(d, userId)
    ensures WellFormed(docs[id := d])
    ensures OwnedIds(docs[id := d], userId) == OwnedIds(docs, userId) + {id}
  {
  }

  /** Replacing a document by one that keeps its id and can be converted keeps the
      collection well formed. */
  lemma ReplaceKeepsWellFormed(docs: map<ObjectId, Doc>, id: ObjectId, d: Doc)
    requires WellFormed(docs)
    requires "_id" in d && d["_id"] == Oid(id) && Convertible(d)
    ensures WellFormed(docs[id := d])
  {
  }

  // ---------------------------------------------------------------------------
  // The collection

  class TodoCollection {
    var docs: map<ObjectId, Doc>

    predicate Valid()
      reads this
    {
      WellFormed(docs)
    }

    constructor ()
      ensures Valid() && docs == map[]
    {
      docs := map[];
    }

    /** The ids of the caller's tasks, each once, in an order the database chooses and that
        is not modelled. */
    method FindOwned(userId: string) returns (found: seq<ObjectId>)
      requires Valid()
      ensures forall i, j :: 0 <= i < j < |found| ==> found[i] != found[j]
      ensures forall i :: 0 <= i < |found| ==> found[i] in OwnedIds(docs, userId)
      ensures forall id :: id in OwnedIds(docs, userId) ==> id in found
      ensures |found| == |OwnedIds(docs, userId)|
    {
      ghost var owned := OwnedIds(docs, userId);
      var remaining := OwnedIds(docs, userId);
      found := [];
      while remaining != {}
        invariant remaining <= owned
        invariant forall id :: id in owned ==> (id in remaining <==> id !in found)
        invariant forall i, j :: 0 <= i < j < |found| ==> found[i] != found[j]
        invariant forall i :: 0 <= i < |found| ==> found[i] in owned
        decreases remaining
      {
        var id :| id in remaining;
        found := found + [id];
        remaining := remaining - {id};
      }
      DistinctLength(found, owned);
    }

    /** Lists the caller's tasks, each converted for output, and no one else's. The order
        is the database's and is not modelled: `order` says which task each entry is. */
    method GetTodos(userId: string, nowUs: int) returns (r: seq<Doc>, ghost order: seq<ObjectId>)
      requires Valid()
      ensures |r| == |OwnedIds(docs, userId)|
      ensures |order| == |r|
      ensures forall i, j :: 0 <= i < j < |order| ==> order[i] != order[j]
      ensures forall i :: 0 <= i < |order| ==> order[i] in docs && OwnedBy(docs[order[i]], userId)
      ensures forall id :: id in docs && OwnedBy(docs[id], userId) ==> id in order
      ensures forall i :: 0 <= i < |r| ==> order[i] in docs && r[i] == NormalizedTodo(docs[order[i]], nowUs)
    {
      var found := FindOwned(userId);
      var all := docs;
      var todos := seq(|found|, k requires 0 <= k < |found| && found[k] in all => all[found[k]]);
      r := ConvertEach(todos, nowUs);
      order := found;
    }

    /** Stores a new task for the caller: one document more, not started, owned by the caller,
        under the fresh ObjectId `newId` the database assigns; returns it converted. */
    method CreateTodo(todo: TodoCreate, userId: string, newId: ObjectId, nowUs: int) returns (r: Doc)
      requires Valid() && newId !in docs
      modifies this
      ensures Valid()
      ensures docs == old(docs)[newId := NewTodoDoc(todo, userId, newId, nowUs)]
      ensures OwnedIds(docs, userId) == OwnedIds(old(docs), userId) + {newId}
      ensures docs[newId]["status"] == Str("not_started")
      ensures r == NormalizedTodo(docs[newId], nowUs)
    {
      var todoDoc := CreateTodoDoc(todo.title, todo.description, userId, todo.deadline,
                                   Some(PriorityValue(todo.priority)), nowUs);
      todoDoc := todoDoc["_id" := Oid(newId)];
      NewTodoDocFacts(todo, userId, newId, nowUs);
      AddOwned(docs, newId, todoDoc, userId);
      docs := docs[newId := todoDoc];
      r := ToDict(todoDoc, nowUs);
    }

    /** Updates one of the caller's tasks. A malformed id is refused with 400, a task that is
        missing or someone else's with 404, an update without set fields with 400, in that
        order, and then nothing changes; otherwise only that task's set fields and update time
        are written. */
    method UpdateTodo(todoId: string, update: TodoUpdate, userId: string, nowUs: int)
      returns (res: Result<Doc, HttpError>)
      requires Valid()
      modifies this
      ensures Valid()
      ensures ParseObjectId(todoId).None? ==>
        res == Err(HttpError(BadRequest, "Invalid todo ID")) && docs == old(docs)
      ensures ParseObjectId(todoId).Some? ==>
        var id := ParseObjectId(todoId).value;
        if !(id in old(docs) && OwnedBy(old(docs)[id], userId)) then
          res == Err(HttpError(NotFound, "Todo not found")) && docs == old(docs)
        else if SetFields(update) == {} then
          res == Err(HttpError(BadRequest, "No fields provided to update")) && docs == old(docs)
        else
          && docs == old(docs)[id := Patched(old(docs)[id], update, nowUs)]
          && res == Ok(NormalizedTodo(docs[id], nowUs))
    {
      var parsed := ParseObjectId(todoId);
      if parsed.None? {
        return Err(HttpError(BadRequest, "Invalid todo ID"));
      }
      var id := parsed.value;
      if !(id in docs && OwnedBy(docs[id], userId)) {
        return Err(HttpError(NotFound, "Todo not found"));
      }
      var updates := BuildUpdates(update);
      UpdatesKeys(update);
      if updates == map[] {
        return Err(HttpError(BadRequest, "No fields provided to update"));
      }
      assert SetFields(update) != {} by {
        var k :| k in updates;
      }
      updates := updates["updated_at" := Time(DateTime(nowUs, Utc))];
      var patched := docs[id] + updates;
      assert patched == Patched(docs[id], update, nowUs);
      PatchedConvertible(docs[id], update, nowUs);
      assert Get(patched, "_id") == Oid(id);
      ReplaceKeepsWellFormed(docs, id, patched);
      var converted := ToDict(patched, nowUs);
      docs := docs[id := patched];
      res := Ok(converted);
    }

    /** Deletes the caller's task with that id; a malformed id gives 400, and a task that is
        missing or someone else's gives 404 and nothing changes. */
    method DeleteTodo(todoId: string, userId: string) returns (res: Result<string, HttpError>)
      requires Valid()
      modifies this
      ensures Valid()
      ensures ParseObjectId(todoId).None? ==>
        res == Err(HttpError(BadRequest, "Invalid todo ID")) && docs == old(docs)
      ensures ParseObjectId(todoId).Some? ==>
        var id := ParseObjectId(todoId).value;
        if id in old(docs) && OwnedBy(old(docs)[id], userId) then
          docs == old(docs) - {id} && res == Ok("Todo deleted successfully")
        else
          docs == old(docs) && res == Err(HttpError(NotFound, "Todo not found"))
    {
      var parsed := ParseObjectId(todoId);
      if parsed.None? {
        return Err(HttpError(BadRequest, "Invalid todo ID"));
      }
      var id := parsed.value;
      if !(id in docs && OwnedBy(docs[id], userId)) {
        return Err(HttpError(NotFound, "Todo not found"));
      }
      docs := docs - {id};
      res := Ok("Todo deleted successfully");
    }
  }
}
