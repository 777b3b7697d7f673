/** The task page's state and the handlers that change it. Each handler takes the server's
    reply as a parameter (`None` when the request fails) and returns the request it sends. */
module TodosPage {
  import opened Wrappers
  import opened TodoEnums
  import opened Countdown
  import opened TaskBoard
  import Text

  datatype ViewMode = TodosView | ArchivedView

  /** The fields of a PATCH body; an absent field is `None`. A present deadline may be null. */
  datatype UpdatePayload = UpdatePayload(
    title: Option<string>,
    description: Option<string>,
    status: Option<Status>,
    deadline: Option<Option<Ms>>,
    priority: Option<Priority>)

  /** The body of a POST; the deadline key is left out when there is no deadline. */
  datatype CreatePayload = CreatePayload(
    title: string,
    description: string,
    deadline: Option<Ms>,
    priority: Priority)

  datatype Request =
    | Patch(id: string, payload: UpdatePayload)
    | Post(body: CreatePayload)
    | Delete(id: string)

  function StatusOnly(status: Status): UpdatePayload {
    UpdatePayload(None, None, Some(status), None, None)
  }

  // ---------------------------------------------------------------------------
  // List operations

  /** The list with every task carrying `id` swapped for `updated`, everything else in place. */
  function ReplaceById(todos: seq<Todo>, id: string, updated: Todo): (r: seq<Todo>)
    ensures |r| == |todos|
    ensures forall i :: 0 <= i < |r| ==> r[i] == (if todos[i].id == id then updated else todos[i])
  {
    seq(|todos|, i requires 0 <= i < |todos| => if todos[i].id == id then updated else todos[i])
  }

  /** The test "does not carry `id`". */
  function NotId(id: string): Todo -> bool {
    (t: Todo) => t.id != id
  }

  /** The list without the tasks carrying `id`, the rest in order. */
  function RemoveById(todos: seq<Todo>, id: string): seq<Todo> {
    Filter(todos, NotId(id))
  }

  /** Removal drops exactly the tasks carrying `id`, each other task staying as often as it was. */
  lemma RemoveByIdContents(todos: seq<Todo>, id: string, t: Todo)
    ensures multiset(RemoveById(todos, id))[t] == if t.id == id then 0 else multiset(todos)[t]
    ensures t in RemoveById(todos, id) <==> t in todos && t.id != id
  {
    FilterCount(todos, NotId(id), t);
  }

  /** Replacing and then removing the same id is removing it. */
  lemma RemoveAfterReplace(todos: seq<Todo>, id: string, updated: Todo)
    requires updated.id == id
    ensures RemoveById(ReplaceById(todos, id, updated), id) == RemoveById(todos, id)
    decreases |todos|
  {
    if todos != [] {
      var init := todos[..|todos| - 1];
      RemoveAfterReplace(init, id, updated);
      assert ReplaceById(todos, id, updated)[..|todos| - 1] == ReplaceById(init, id, updated);
    }
  }

  /** Replacing with a task that is already there under its own id changes nothing more. */
  lemma ReplaceIdempotent(todos: seq<Todo>, id: string, updated: Todo)
    requires updated.id == id
    ensures ReplaceById(ReplaceById(todos, id, updated), id, updated) == ReplaceById(todos, id, updated)
  {
  }

  /** Once the server's copy says finished, no task with that id stays on the board, and the
      finished copy is in the archive when the id was in the list. */
  lemma ArchivedLeavesBoard(todos: seq<Todo>, updated: Todo)
    requires updated.status == Finished
    ensures forall t :: t in Active(ReplaceById(todos, updated.id, updated)) ==> t.id != updated.id
    ensures (exists i :: 0 <= i < |todos| && todos[i].id == updated.id) ==>
      updated in Archived(ReplaceById(todos, updated.id, updated))
  {
    var r := ReplaceById(todos, updated.id, updated);
    forall t | t in Active(r) ensures t.id != updated.id {
      FilterCount(r, IsActive, t);
      assert t in multiset(Active(r));
    }
    if exists i :: 0 <= i < |todos| && todos[i].id == updated.id {
      var i :| 0 <= i < |todos| && todos[i].id == updated.id;
      assert r[i] == updated;
      FilterCount(r, IsArchived, updated);
      assert updated in multiset(r);
      assert updated in multiset(Archived(r));
    }
  }

  // ---------------------------------------------------------------------------
  // The page

  class Page {
    var todos: seq<Todo>
    var viewMode: ViewMode
    var detailTodo: Option<Todo>
    var archiveCandidate: Option<Todo>
    var deleteCandidate: Option<Todo>
    var showCreateModal: bool

    /** The page as first rendered, before the task list arrives. */
    constructor ()
      ensures todos == [] && viewMode == TodosView
      ensures detailTodo == None && archiveCandidate == None && deleteCandidate == None
      ensures !showCreateModal
    {
      todos := [];
      viewMode := TodosView;
      detailTodo := None;
      archiveCandidate := None;
      deleteCandidate := None;
      showCreateModal := false;
    }

    /** Loading the list: the server's list replaces the page's; a failure keeps the old one. */
    method FetchTodos(reply: Option<seq<Todo>>)
      modifies this
      ensures todos == (if reply.Some? then reply.value else old(todos))
      ensures viewMode == old(viewMode) && detailTodo == old(detailTodo)
      ensures archiveCandidate == old(archiveCandidate) && deleteCandidate == old(deleteCandidate)
      ensures showCreateModal == old(showCreateModal)
    {
      if reply.Some? {
        todos := reply.value;
      }
    }

    /** Sends a PATCH; the server's copy replaces every task with that id. */
    method PatchTodo(id: string, payload: UpdatePayload, reply: Option<Todo>) returns (sent: Request)
      modifies this
      ensures sent == Patch(id, payload)
      ensures todos == (if reply.Some? then ReplaceById(old(todos), id, reply.value) else old(todos))
      ensures viewMode == old(viewMode) && detailTodo == old(detailTodo)
      ensures archiveCandidate == old(archiveCandidate) && deleteCandidate == old(deleteCandidate)
      ensures showCreateModal == old(showCreateModal)
    {
      sent := Patch(id, payload);
      if reply.Some? {
        todos := ReplaceById(todos, id, reply.value);
      }
    }

    /** A status button on a card. Finishing only asks for confirmation and sends nothing;
        any other status is sent, and an open detail view of that task shows the reply. */
    method UpdateStatus(todo: Todo, status: Status, reply: Option<Todo>) returns (sent: Option<Request>)
      modifies this
      ensures status == Finished ==>
        sent == None && archiveCandidate == Some(todo) && todos == old(todos) && detailTodo == old(detailTodo)
      ensures status != Finished ==>
        sent == Some(Patch(todo.id, StatusOnly(status))) && archiveCandidate == old(archiveCandidate) &&
        todos == (if reply.Some? then ReplaceById(old(todos), todo.id, reply.value) else old(todos)) &&
        detailTodo == (if reply.Some? && old(detailTodo).Some? && old(detailTodo).value.id == reply.value.id
                       then reply else old(detailTodo))
      ensures viewMode == old(viewMode) && deleteCandidate == old(deleteCandidate)
      ensures showCreateModal == old(showCreateModal)
    {
      if status == Finished {
        archiveCandidate := Some(todo);
        return None;
      }
      var request := PatchTodo(todo.id, StatusOnly(status), reply);
      sent := Some(request);
      if reply.Some? && detailTodo.Some? && detailTodo.value.id == reply.value.id {
        detailTodo := reply;
      }
    }

    /** "Yes, Archive": sends the finished status for the candidate. On success the candidate
        is cleared and a detail view of the archived task closes; on failure the dialog stays. */
    method ConfirmArchive(reply: Option<Todo>) returns (sent: Option<Request>)
      modifies this
      ensures old(archiveCandidate).None? ==>
        sent == None && todos == old(todos) && archiveCandidate == None && detailTodo == old(detailTodo)
      ensures old(archiveCandidate).Some? ==>
        sent == Some(Patch(old(archiveCandidate).value.id, StatusOnly(Finished)))
      ensures old(archiveCandidate).Some? && reply.None? ==>
        todos == old(todos) && archiveCandidate == old(archiveCandidate) && detailTodo == old(detailTodo)
      ensures old(archiveCandidate).Some? && reply.Some? ==>
        todos == ReplaceById(old(todos), old(archiveCandidate).value.id, reply.value) &&
        archiveCandidate == None &&
        detailTodo == (if old(detailTodo).Some? && old(detailTodo).value.id == reply.value.id
                       then None else old(detailTodo))
      ensures viewMode == old(viewMode) && deleteCandidate == old(deleteCandidate)
      ensures showCreateModal == old(showCreateModal)
    {
      if archiveCandidate.None? {
        return None;
      }
      var request := PatchTodo(archiveCandidate.value.id, StatusOnly(Finished), reply);
      sent := Some(request);
      if reply.Some? {
        if detailTodo.Some? && detailTodo.value.id == reply.value.id {
          detailTodo := None;
        }
        archiveCandidate := None;
      }
    }

    /** "Cancel" or a click outside the archive dialog. */
    method CancelArchive()
      modifies this
      ensures archiveCandidate == None
      ensures todos == old(todos) && viewMode == old(viewMode) && detailTodo == old(detailTodo)
      ensures deleteCandidate == old(deleteCandidate) && showCreateModal == old(showCreateModal)
    {
      archiveCandidate := None;
    }

    /** "Restore" in the archive: sends not-started and, on success, returns to the board. */
    method RestoreTodo(todo: Todo, reply: Option<Todo>) returns (sent: Request)
      modifies this
      ensures sent == Patch(todo.id, StatusOnly(NotStarted))
      ensures todos == (if reply.Some? then ReplaceById(old(todos), todo.id, reply.value) else old(todos))
      ensures viewMode == (if reply.Some? then TodosView else old(viewMode))
      ensures detailTodo == old(detailTodo) && archiveCandidate == old(archiveCandidate)
      ensures deleteCandidate == old(deleteCandidate) && showCreateModal == old(showCreateModal)
    {
      sent := PatchTodo(todo.id, StatusOnly(NotStarted), reply);
      if reply.Some? {
        viewMode := TodosView;
      }
    }

    /** Sends a DELETE; on success the tasks with that id leave the list and their detail view. */
    method DeleteTodo(id: string, ok: bool) returns (sent: Request)
      modifies this
      ensures sent == Delete(id)
      ensures todos == (if ok then RemoveById(old(todos), id) else old(todos))
      ensures detailTodo == (if ok && old(detailTodo).Some? && old(detailTodo).value.id == id
                             then None else old(detailTodo))
      ensures viewMode == old(viewMode) && archiveCandidate == old(archiveCandidate)
      ensures deleteCandidate == old(deleteCandidate) && showCreateModal == old(showCreateModal)
    {
      sent := Delete(id);
      if ok {
        todos := RemoveById(todos, id);
        if detailTodo.Some? && detailTodo.value.id == id {
          detailTodo := None;
        }
      }
    }

    /** The bin icon on a card: only opens the confirmation. */
    method RequestDelete(todo: Todo)
      modifies this
      ensures deleteCandidate == Some(todo)
      ensures todos == old(todos) && viewMode == old(viewMode) && detailTodo == old(detailTodo)
      ensures archiveCandidate == old(archiveCandidate) && showCreateModal == old(showCreateModal)
    {
      deleteCandidate := Some(todo);
    }

    /** "Yes, Delete": deletes the candidate, then closes the dialog whether or not that worked. */
    method ConfirmDelete(ok: bool) returns (sent: Option<Request>)
      modifies this
      ensures old(deleteCandidate).None? ==>
        sent == None && todos == old(todos) && detailTodo == old(detailTodo)
      ensures old(deleteCandidate).Some? ==>
        var id := old(deleteCandidate).value.id;
        sent == Some(Delete(id)) &&
        todos == (if ok then RemoveById(old(todos), id) else old(todos)) &&
        detailTodo == (if ok && old(detailTodo).Some? && old(detailTodo).value.id == id
                       then None else old(detailTodo))
      ensures deleteCandidate == None
      ensures viewMode == old(viewMode) && archiveCandidate == old(archiveCandidate)
      ensures showCreateModal == old(showCreateModal)
    {
      if deleteCandidate.None? {
        return None;
      }
      var request := DeleteTodo(deleteCandidate.value.id, ok);
      sent := Some(request);
      deleteCandidate := None;
    }

    /** "Cancel" or a click outside the delete dialog. */
    method CancelDelete()
      modifies this
      ensures deleteCandidate == None
      ensures todos == old(todos) && viewMode == old(viewMode) && detailTodo == old(detailTodo)
      ensures archiveCandidate == old(archiveCandidate) && showCreateModal == old(showCreateModal)
    {
      deleteCandidate := None;
    }

    /** A status button in the detail view: finishing closes the view and asks for
        confirmation; any other status goes through `UpdateStatus`. */
    method DetailStatusClick(status: Status, reply: Option<Todo>) returns (sent: Option<Request>)
      requires detailTodo.Some?
      modifies this
      ensures status == Finished ==>
        sent == None && detailTodo == None && archiveCandidate == old(detailTodo) && todos == old(todos)
      ensures status != Finished ==>
        var todo := old(detailTodo).value;
        sent == Some(Patch(todo.id, StatusOnly(status))) && archiveCandidate == old(archiveCandidate) &&
        todos == (if reply.Some? then ReplaceById(old(todos), todo.id, reply.value) else old(todos)) &&
        detailTodo == (if reply.Some? && todo.id == reply.value.id then reply else old(detailTodo))
      ensures viewMode == old(viewMode) && deleteCandidate == old(deleteCandidate)
      ensures showCreateModal == old(showCreateModal)
    {
      if status == Finished {
        archiveCandidate := detailTodo;
        detailTodo := None;
        return None;
      }
      sent := UpdateStatus(detailTodo.value, status, reply);
    }

    method OpenDetail(todo: Todo)
      modifies this
      ensures detailTodo == Some(todo)
      ensures todos == old(todos) && viewMode == old(viewMode) && archiveCandidate == old(archiveCandidate)
      ensures deleteCandidate == old(deleteCandidate) && showCreateModal == old(showCreateModal)
    {
      detailTodo := Some(todo);
    }

    method CloseDetail()
      modifies this
      ensures detailTodo == None
      ensures todos == old(todos) && viewMode == old(viewMode) && archiveCandidate == old(archiveCandidate)
      ensures deleteCandidate == old(deleteCandidate) && showCreateModal == old(showCreateModal)
    {
      detailTodo := None;
    }

    /** The "Active" and "Archived" buttons. */
    method SetViewMode(mode: ViewMode)
      modifies this
      ensures viewMode == mode
      ensures todos == old(todos) && detailTodo == old(detailTodo) && archiveCandidate == old(archiveCandidate)
      ensures deleteCandidate == old(deleteCandidate) && showCreateModal == old(showCreateModal)
    {
      viewMode := mode;
    }

    /** "Create Task" / "Save Changes". The title is trimmed and a blank one sends nothing.
        Editing patches every form field, a missing deadline as null; creating posts the
        form and, on success, puts the new task first. Success closes the form. */
    method SaveCreateOrEdit(editingId: Option<string>, createTitle: string, createDescription: string,
                            deadline: Option<Ms>, priority: Priority, reply: Option<Todo>)
      returns (sent: Option<Request>)
      modifies this
      ensures Text.Trim(createTitle) == [] ==>
        sent == None && todos == old(todos) && detailTodo == old(detailTodo) &&
        showCreateModal == old(showCreateModal)
      ensures Text.Trim(createTitle) != [] && editingId.Some? ==>
        sent == Some(Patch(editingId.value, UpdatePayload(Some(Text.Trim(createTitle)), Some(createDescription),
                                                          None, Some(deadline), Some(priority)))) &&
        todos == (if reply.Some? then ReplaceById(old(todos), editingId.value, reply.value) else old(todos)) &&
        detailTodo == (if reply.Some? && old(detailTodo).Some? && old(detailTodo).value.id == reply.value.id
                       then reply else old(detailTodo))
      ensures Text.Trim(createTitle) != [] && editingId.None? ==>
        sent == Some(Post(CreatePayload(Text.Trim(createTitle), createDescription, deadline, priority))) &&
        todos == (if reply.Some? then [reply.value] + old(todos) else old(todos)) &&
        detailTodo == old(detailTodo)
      ensures Text.Trim(createTitle) != [] ==>
        showCreateModal == (if reply.Some? then false else old(showCreateModal))
      ensures viewMode == old(viewMode) && archiveCandidate == old(archiveCandidate)
      ensures deleteCandidate == old(deleteCandidate)
    {
      var title := Text.Trim(createTitle);
      if title == [] {
        return None;
      }
      if editingId.Some? {
        var payload := UpdatePayload(Some(title), Some(createDescription), None, Some(deadline), Some(priority));
        var request := PatchTodo(editingId.value, payload, reply);
        sent := Some(request);
        if reply.Some? && detailTodo.Some? && detailTodo.value.id == reply.value.id {
          detailTodo := reply;
        }
      } else {
        sent := Some(Post(CreatePayload(title, createDescription, deadline, priority)));
        if reply.Some? {
          todos := [reply.value] + todos;
        }
      }
      if reply.Some? {
        showCreateModal := false;
      }
    }
  }
}
