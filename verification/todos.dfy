/**
 * The dashboard's to-do list: adding a to-do from the form, toggling its
 * completion and deleting it.
 */
module Todos {
  import opened Wrappers
  import Seqs
  import Text

  /** The add form's state. */
  datatype Draft = Draft(title: string, description: string, dueDate: string, priority: string, showForm: bool)

  /** The form after a successful add: empty, priority back to medium, closed. */
  const Cleared: Draft := Draft("", "", "", "medium", false)

  /** The values an add inserts; `createdBy` is the session's user, if any. */
  datatype TodoInsert = TodoInsert(
    title: string, description: string, dueDate: Option<string>, priority: string, createdBy: Option<string>)

  /** The outcome of an add: the insert attempted, the form afterwards and the toast, if any. */
  datatype AddOutcome = AddOutcome(inserted: Option<TodoInsert>, draft: Draft, toast: Option<string>)

  /**
   * `handleAddTodo`: a blank title does nothing; otherwise the trimmed
   * title and description are inserted with the due date or null, and a
   * successful insert clears the form.
   */
  function Add(d: Draft, user: Option<string>, insertOk: bool): (r: AddOutcome)
    ensures r.inserted.None? <==> Text.IsBlank(d.title)
    ensures Text.IsBlank(d.title) ==> r == AddOutcome(None, d, None)
    ensures r.inserted.Some? ==>
              (r.inserted.value.title == Text.Trim(d.title) && r.inserted.value.title != "" &&
               r.inserted.value.description == Text.Trim(d.description) &&
               r.inserted.value.dueDate == (if d.dueDate == "" then None else Some(d.dueDate)) &&
               r.inserted.value.priority == d.priority && r.inserted.value.createdBy == user)
    ensures r.inserted.Some? && insertOk ==> r.draft == Cleared && r.toast == Some("Todo added successfully")
    ensures r.inserted.Some? && !insertOk ==> r.draft == d && r.toast == Some("Failed to add todo")
  {
    if Text.IsBlank(d.title) then AddOutcome(None, d, None)
    else
      var row := TodoInsert(Text.Trim(d.title), Text.Trim(d.description),
                            if d.dueDate == "" then None else Some(d.dueDate), d.priority, user);
      if insertOk then AddOutcome(Some(row), Cleared, Some("Todo added successfully"))
      else AddOutcome(Some(row), d, Some("Failed to add todo"))
  }

  /**
   * Submitting again after a successful add inserts nothing, because the
   * form was cleared; and a title that is already trimmed is inserted as
   * it stands.
   */
  lemma AddClearsThenRefuses(d: Draft, user: Option<string>, insertOk: bool)
    requires !Text.IsBlank(d.title)
    ensures var first := Add(d, user, true);
      first.inserted.Some? && Add(first.draft, user, insertOk).inserted.None?
    ensures Add(d.(title := Text.Trim(d.title)), user, insertOk).inserted == Add(d, user, insertOk).inserted
  {
    assert Cleared.title == [];
    assert Text.IsBlank([]);
    Text.TrimIdempotent(d.title);
  }

  /** A stored to-do. */
  datatype Todo = Todo(
    id: string, title: string, description: Option<string>, dueDate: Option<string>, priority: string,
    isCompleted: bool, createdBy: string)

  /** `handleToggleTodo`: writes the negation of the shown completion flag; the toast names the new state. */
  function Toggle(t: Todo, ok: bool): (r: (Todo, string))
    ensures ok ==> r.0.isCompleted == !t.isCompleted && r.0.(isCompleted := t.isCompleted) == t
    ensures !ok ==> r.0 == t && r.1 == "Failed to update todo"
    ensures ok ==> r.1 == (if t.isCompleted then "Todo unmarked" else "Todo completed")
  {
    if !ok then (t, "Failed to update todo")
    else (t.(isCompleted := !t.isCompleted), if t.isCompleted then "Todo unmarked" else "Todo completed")
  }

  /** Toggling twice restores the to-do. */
  lemma ToggleTwice(t: Todo)
    ensures Toggle(Toggle(t, true).0, true).0 == t
  {
  }

  /** `handleDeleteTodo`: a hard delete; the other to-dos stay, in order. */
  function Delete(todos: seq<Todo>, id: string, ok: bool): (r: seq<Todo>)
    ensures !ok ==> r == todos
    ensures ok ==> forall i :: 0 <= i < |r| ==> r[i].id != id
    ensures forall i :: 0 <= i < |r| ==> r[i] in todos
    ensures forall i :: 0 <= i < |todos| && todos[i].id != id ==> todos[i] in r
  {
    if !ok then todos else Seqs.Filter(todos, (t: Todo) => t.id != id)
  }

  /** Deleting a to-do shortens the list by exactly the rows with its id. */
  lemma {:induction false} DeleteCount(todos: seq<Todo>, id: string)
    ensures |Delete(todos, id, true)| + Seqs.Count(todos, (t: Todo) => t.id == id) == |todos|
  {
    if |todos| > 0 {
      DeleteCount(todos[1..], id);
    }
  }
}
