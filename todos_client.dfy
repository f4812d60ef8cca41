/** The todo page's side: every subscription item (`sync` or `update`)
    overwrites the cached list, and the handlers build the arguments of the
    create, toggle and delete mutations. */
module TodosClient {
  import opened Common
  import opened Domain
  import opened Text
  import opened TodoSubscription

  /** The `todos.list` query cache after the items received so far, starting
      from `cached`: each item overwrites it with its full list. */
  function CacheAfter(cached: Option<seq<Todo>>, items: seq<TodoItem>): (r: Option<seq<Todo>>)
    ensures |items| == 0 ==> r == cached
    ensures r.None? <==> cached.None? && |items| == 0
    decreases |items|
  {
    if |items| == 0 then cached else CacheAfter(Some(items[0].todos), items[1..])
  }

  /** Only the last item counts: the cache is its list, whatever came
      before, because every item carries a complete list. */
  lemma {:induction false} CacheIsLastItem(cached: Option<seq<Todo>>, items: seq<TodoItem>)
    requires |items| > 0
    ensures CacheAfter(cached, items) == Some(items[|items| - 1].todos)
    decreases |items|
  {
    if |items| > 1 {
      CacheIsLastItem(Some(items[0].todos), items[1..]);
    }
  }

  /** Over a whole stream, the page shows what the last successful fetch
      returned. */
  lemma PageShowsLastFetch(initial: seq<Todo>, startedAt: int, polls: seq<Poll>)
    ensures var items := TodoRun(Some(initial), startedAt, polls);
            CacheAfter(None, items) == Some(items[|items| - 1].todos)
            && (|items| == 1 ==> CacheAfter(None, items) == Some(initial))
            && (|items| > 1 ==> polls[|items| - 2].fetched.Some? && CacheAfter(None, items) == Some(polls[|items| - 2].fetched.value))
  {
    var items := TodoRun(Some(initial), startedAt, polls);
    CacheIsLastItem(None, items);
    TodoRunShape(Some(initial), startedAt, polls);
  }

  /** The arguments of `todos.create`. */
  datatype CreateInput = CreateInput(title: string, description: Option<string>)

  /** `handleCreateTodo`: nothing is sent for a title that is blank after
      trimming; otherwise the title as typed, and the description unless it
      is empty (`newDescription || undefined`). */
  function CreateArgs(title: string, description: string): (r: Option<CreateInput>)
    ensures r.Some? <==> exists i :: 0 <= i < |title| && !IsSpace(title[i])
    ensures r.Some? ==> r.value.title == title
    ensures r.Some? ==> (r.value.description.None? <==> description == "")
    ensures r.Some? && description != "" ==> r.value.description == Some(description)
  {
    TrimEmptyIff(title);
    if Trim(title) == "" then None
    else Some(CreateInput(title, if description == "" then None else Some(description)))
  }

  /** The arguments of `todos.toggleComplete`. */
  datatype ToggleInput = ToggleInput(todoId: string, completed: bool)

  /** `handleToggleTodo`: the todo's id and the opposite of the completion
      state the page shows for it. */
  function ToggleArgs(todoId: string, completed: bool): (r: ToggleInput)
    ensures r.todoId == todoId && r.completed != completed
  {
    ToggleInput(todoId, !completed)
  }

  /** Toggling from the state a toggle produced asks for the original
      state again. */
  lemma ToggleTwice(todoId: string, completed: bool)
    ensures ToggleArgs(todoId, ToggleArgs(todoId, completed).completed) == ToggleInput(todoId, completed)
  {
  }

  /** The arguments of `todos.delete`: the id alone. */
  datatype DeleteInput = DeleteInput(todoId: string)

  function DeleteArgs(todoId: string): (r: DeleteInput)
    ensures r.todoId == todoId
  {
    DeleteInput(todoId)
  }
}
