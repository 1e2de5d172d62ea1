/**
 * The hook-held state of the task-list page and the event handlers that update
 * it. Every server reply is a parameter: `None` stands for a failed request
 * (non-2xx status or network error), `Some(v)` for the decoded JSON body.
 *
 * The page renders only the login form until the token is truthy, so the add,
 * mark-done and filter handlers exist only for an authenticated session: each
 * of them requires `Authenticated` of the token.
 */
module App {
  import opened Wrappers
  import opened Text
  import opened Tasks

  /** The root component: `token`, `todos`, `filter` and `tagFilter`. */
  class TodoList {
    var token: Option<String>
    var todos: seq<Task>
    var filter: Filter
    var tagFilter: String

    /** The filter pair as one value. */
    function State(): FilterState
      reads this
    {
      FilterState(filter, tagFilter)
    }

    /** The tag filter is set exactly in `tag` mode. */
    ghost predicate Valid()
      reads this
    {
      Consistent(State())
    }

    /** The page before login: no token, an empty store, the `all` view. */
    constructor ()
      ensures Valid()
      ensures token == None && todos == [] && State() == Initial
    {
      token := None;
      todos := [];
      filter := All;
      tagFilter := [];
    }

    /** `login`: the token is stored only when the server accepted the credentials. */
    method Login(reply: Option<String>) returns (ok: bool)
      modifies this`token
      ensures ok == reply.Some?
      ensures token == if ok then reply else old(token)
    {
      ok := reply.Some?;
      if ok {
        token := reply;
      }
    }

    /** The fetch effect: pick the request, then replace the store on success. */
    method FetchTodos(reply: Option<seq<Task>>) returns (target: FetchTarget)
      modifies this`todos
      ensures target == FetchTargetOf(token, State())
      ensures todos == AfterFetch(old(todos), target, reply)
    {
      target := FetchTargetOf(token, State());
      if target != NoFetch && reply.Some? {
        todos := reply.value;
      }
    }

    /** `setFilter` was passed down to the filter links as `applyFilter`. */
    method ApplyFilter(f: Filter)
      modifies this`filter
      ensures filter == f
    {
      filter := f;
    }

    method SetTagFilter(t: String)
      modifies this`tagFilter
      ensures tagFilter == t
    {
      tagFilter := t;
    }

    /** `addTodo`: append the created task and leave the `done` view. */
    method AddTodo(newTodo: Task)
      requires Authenticated(token) && Valid()
      modifies this`todos, this`filter
      ensures Valid()
      ensures todos == old(todos) + [newTodo]
      ensures State() == OnAdd(old(State()))
    {
      todos := todos + [newTodo];
      if filter == Done {
        ApplyFilter(All);
      }
    }

    /** `markTodoAsDone`: merge the server's record by its id, or do nothing on failure. */
    method MarkTodoAsDone(id: Id, reply: Option<Task>)
      requires Authenticated(token)
      modifies this`todos
      ensures todos == if reply.Some? then ReplaceById(old(todos), reply.value) else old(todos)
    {
      if reply.Some? {
        todos := ReplaceById(todos, reply.value);
      }
    }
  }

  /** `AddTodo`: the two input fields of the add form. */
  class AddTodoForm {
    var texto: String
    var tags: String

    constructor ()
      ensures texto == [] && tags == []
    {
      texto := [];
      tags := [];
    }

    /** Typing into the fields. */
    method Edit(newTexto: String, newTags: String)
      modifies this
      ensures texto == newTexto && tags == newTags
    {
      texto := newTexto;
      tags := newTags;
    }

    /**
     * `handleAdd`: post the trimmed text and parsed tags unless the text is
     * blank; on a created task append it and clear both fields. A failed post
     * throws before any state changes.
     */
    method HandleAdd(list: TodoList, reply: Option<Task>) returns (sent: Option<Payload>)
      requires Authenticated(list.token) && list.Valid()
      modifies this, list`todos, list`filter
      ensures list.Valid()
      ensures sent == Submission(old(texto), old(tags))
      ensures sent.Some? && reply.Some? ==>
        list.todos == old(list.todos) + [reply.value] && list.State() == OnAdd(old(list.State())) &&
        texto == [] && tags == []
      ensures !(sent.Some? && reply.Some?) ==>
        list.todos == old(list.todos) && list.filter == old(list.filter) &&
        texto == old(texto) && tags == old(tags)
    {
      sent := Submission(texto, tags);
      if sent.Some? && reply.Some? {
        list.AddTodo(reply.value);
        texto := [];
        tags := [];
      }
    }
  }

  /** `TodoFilter`: the tag input and the four filter controls. */
  class TodoFilterForm {
    var tag: String

    constructor ()
      ensures tag == []
    {
      tag := [];
    }

    method EditTag(newTag: String)
      modifies this
      ensures tag == newTag
    {
      tag := newTag;
    }

    /** `handleFilterClick` on the link `filter-all`, `filter-done` or `filter-pending`. */
    method HandleFilterClick(list: TodoList, m: Filter)
      requires Authenticated(list.token) && m != Tag
      modifies list`filter, list`tagFilter
      ensures list.Valid()
      ensures list.State() == OnFilterClick(m)
    {
      list.ApplyFilter(m);
      list.SetTagFilter([]);
    }

    /** `handleTagFilter`: switch to the trimmed tag unless it is blank. */
    method HandleTagFilter(list: TodoList)
      requires Authenticated(list.token) && list.Valid()
      modifies list`filter, list`tagFilter
      ensures list.Valid()
      ensures list.State() == OnTagSubmit(old(list.State()), tag)
    {
      var t := Trim(tag);
      if t != [] {
        list.ApplyFilter(Tag);
        list.SetTagFilter(t);
      }
      TransitionsKeepConsistent(old(list.State()), tag);
    }
  }
}
