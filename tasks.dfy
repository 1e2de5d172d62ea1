/**
 * The value-level logic of the task list: task records, the view predicate,
 * the filter controller's transitions, the choice of the list request, the
 * add-task payload and the merge of a completed task.
 */
module Tasks {
  import opened Wrappers
  import opened Text

  /** The server-assigned task identifier, compared with strict equality. */
  type Id = int

  datatype Task = Task(id: Id, texto: String, feito: bool, tags: seq<String>)

  /** The four filter modes; `Tag` means the server returned a tag-scoped list. */
  datatype Filter = All | Done | Pending | Tag

  /* ---------------- View predicate (`filterBy`) ---------------- */

  /** Whether a task is listed under a filter mode. */
  predicate Shows(f: Filter, t: Task) {
    match f
    case All => true
    case Done => t.feito
    case Pending => !t.feito
    case Tag => true
  }

  /** `todos.filter(filterBy)`: the tasks rendered, in store order. */
  function Visible(todos: seq<Task>, f: Filter): (r: seq<Task>)
    ensures |r| <= |todos|
    ensures forall i :: 0 <= i < |r| ==> Shows(f, r[i])
  {
    if todos == [] then []
    else (if Shows(f, todos[0]) then [todos[0]] else []) + Visible(todos[1..], f)
  }

  /** A task is rendered exactly when it is in the store and passes the filter. */
  lemma {:induction false} VisibleMember(todos: seq<Task>, f: Filter, t: Task)
    ensures t in Visible(todos, f) <==> t in todos && Shows(f, t)
  {
    if todos != [] {
      VisibleMember(todos[1..], f, t);
      assert todos == [todos[0]] + todos[1..];
    }
  }

  /** Filtering distributes over concatenation, so store order is kept. */
  lemma {:induction false} VisibleAppend(a: seq<Task>, b: seq<Task>, f: Filter)
    ensures Visible(a + b, f) == Visible(a, f) + Visible(b, f)
  {
    if a == [] {
      assert a + b == b;
    } else {
      var h := if Shows(f, a[0]) then [a[0]] else [];
      assert (a + b)[0] == a[0];
      assert (a + b)[1..] == a[1..] + b;
      VisibleAppend(a[1..], b, f);
      assert h + (Visible(a[1..], f) + Visible(b, f)) == (h + Visible(a[1..], f)) + Visible(b, f);
    }
  }

  /** The `all` view and the (server-scoped) `tag` view are the whole store. */
  lemma {:induction false} VisibleUnfiltered(todos: seq<Task>, f: Filter)
    requires f == All || f == Tag
    ensures Visible(todos, f) == todos
  {
    if todos != [] {
      VisibleUnfiltered(todos[1..], f);
      assert todos == [todos[0]] + todos[1..];
    }
  }

  /** The `done` and `pending` views split the store between them. */
  lemma {:induction false} DonePendingPartition(todos: seq<Task>)
    ensures multiset(Visible(todos, Done)) + multiset(Visible(todos, Pending)) == multiset(todos)
    ensures |Visible(todos, Done)| + |Visible(todos, Pending)| == |todos|
  {
    if todos != [] {
      DonePendingPartition(todos[1..]);
      assert todos == [todos[0]] + todos[1..];
    }
  }

  /** Tasks 1 (pending) and 2 (done): `all` shows both, `done` only 2, `pending` only 1. */
  lemma ViewExample()
    ensures var a, b := Task(1, "A", false, []), Task(2, "B", true, []);
      Visible([a, b], All) == [a, b] && Visible([a, b], Done) == [b] && Visible([a, b], Pending) == [a]
  {
    var a, b := Task(1, "A", false, []), Task(2, "B", true, []);
    assert [a, b][1..] == [b];
  }

  /* ---------------- Filter controller (`TodoFilter`) ---------------- */

  /** The pair (`filter`, `tagFilter`) held by the root component. */
  datatype FilterState = FilterState(mode: Filter, tag: String)

  const Initial := FilterState(All, [])

  /** The tag is set exactly in `tag` mode, and then it is trimmed and non-empty. */
  predicate Consistent(s: FilterState) {
    if s.mode == Tag then s.tag != [] && Trim(s.tag) == s.tag else s.tag == []
  }

  /** `handleFilterClick`: one of the all/done/pending links sets that mode and clears the tag. */
  function OnFilterClick(m: Filter): (r: FilterState)
    requires m != Tag
    ensures r.mode == m && r.tag == [] && Consistent(r)
  {
    FilterState(m, [])
  }

  /** `handleTagFilter`: a blank tag is ignored; otherwise switch to `tag` mode with the trimmed tag. */
  function OnTagSubmit(s: FilterState, input: String): (r: FilterState)
    ensures AllSpace(input) ==> r == s
    ensures !AllSpace(input) ==> r == FilterState(Tag, Trim(input)) && Consistent(r)
  {
    TrimEmptyIffAllSpace(input);
    TrimIdempotent(input);
    if Trim(input) != [] then FilterState(Tag, Trim(input)) else s
  }

  /** `addTodo`'s filter side effect: leave `done` so the new pending task is seen. */
  function OnAdd(s: FilterState): (r: FilterState)
    ensures r.tag == s.tag
    ensures s.mode == Done ==> r.mode == All
    ensures s.mode != Done ==> r.mode == s.mode
  {
    if s.mode == Done then FilterState(All, s.tag) else s
  }

  /** Every transition keeps the filter state consistent. */
  lemma TransitionsKeepConsistent(s: FilterState, input: String)
    requires Consistent(s)
    ensures Consistent(OnTagSubmit(s, input))
    ensures Consistent(OnAdd(s))
  {
  }

  /** A task just added with `feito = false` is on screen after the add. */
  lemma AddedPendingTaskVisible(todos: seq<Task>, s: FilterState, t: Task)
    requires !t.feito
    ensures t in Visible(todos + [t], OnAdd(s).mode)
  {
    VisibleAppend(todos, [t], OnAdd(s).mode);
    assert Visible([t], OnAdd(s).mode) == [t];
  }

  /* ---------------- Which list request is made ---------------- */

  /** The list request of the fetch effect; URLs and their encoding are abstracted away. */
  datatype FetchTarget = NoFetch | Unfiltered | ByTag(tag: String)

  /** JavaScript truthiness of the token: neither null nor the empty string. */
  predicate Authenticated(token: Option<String>) {
    token.Some? && token.value != []
  }

  /** The request the fetch effect issues for the current token and filter state. */
  function FetchTargetOf(token: Option<String>, s: FilterState): (r: FetchTarget)
    ensures r == NoFetch <==> !Authenticated(token)
    ensures r.ByTag? <==> Authenticated(token) && s.mode == Tag && s.tag != []
    ensures r.ByTag? ==> r.tag == s.tag
  {
    if !Authenticated(token) then NoFetch
    else if s.mode == Tag && s.tag != [] then ByTag(s.tag)
    else Unfiltered
  }

  /** With a consistent filter state, the by-tag request is made exactly in `tag` mode. */
  lemma ConsistentFetch(token: Option<String>, s: FilterState)
    requires Authenticated(token) && Consistent(s)
    ensures FetchTargetOf(token, s) == if s.mode == Tag then ByTag(s.tag) else Unfiltered
  {
  }

  /** After a link or a non-blank tag submission, the request follows the new mode. */
  lemma FetchAfterTransitions(token: Option<String>, s: FilterState, m: Filter, input: String)
    requires Authenticated(token) && m != Tag
    ensures FetchTargetOf(token, OnFilterClick(m)) == Unfiltered
    ensures !AllSpace(input) ==> FetchTargetOf(token, OnTagSubmit(s, input)) == ByTag(Trim(input))
  {
  }

  /** The list after a fetch: replaced wholesale by a successful reply, else unchanged. */
  function AfterFetch(todos: seq<Task>, target: FetchTarget, reply: Option<seq<Task>>): (r: seq<Task>)
    ensures target == NoFetch ==> r == todos
    ensures target != NoFetch && reply.Some? ==> r == reply.value
    ensures reply.None? ==> r == todos
  {
    if target != NoFetch && reply.Some? then reply.value else todos
  }

  /* ---------------- Add task (`AddTodo.handleAdd`) ---------------- */

  /** The body posted to create a task. */
  datatype Payload = Payload(texto: String, feito: bool, tags: seq<String>)

  /** What the add form posts for its two input fields; nothing when the text is blank. */
  function Submission(texto: String, tagsInput: String): (r: Option<Payload>)
    ensures r.None? <==> AllSpace(texto)
    ensures r.Some? ==> r.value.texto != [] && Trim(r.value.texto) == r.value.texto
    ensures r.Some? ==> !r.value.feito && r.value.tags == ParseTags(tagsInput)
  {
    TrimEmptyIffAllSpace(texto);
    TrimIdempotent(texto);
    var t := Trim(texto);
    if t != [] then Some(Payload(t, false, ParseTags(tagsInput))) else None
  }

  /** The posted text is the trimmed text of the form. */
  lemma SubmissionText(texto: String, tagsInput: String)
    requires !AllSpace(texto)
    ensures Submission(texto, tagsInput).Some?
    ensures Submission(texto, tagsInput).value.texto == Trim(texto)
  {
  }

  lemma TrimExample()
    ensures Trim(" buy milk ") == "buy milk"
  {
    assert " buy milk "[1..] == "buy milk ";
    assert TrimStart("buy milk ") == "buy milk ";
    assert "buy milk "[..8] == "buy milk";
    assert TrimEnd("buy milk") == "buy milk";
  }

  lemma ParseTagsExample()
    ensures ParseTags("home, ,urgent") == ["home", "urgent"]
  {
    assert "home, ,urgent" == "home" + [','] + " " + [','] + "urgent";
    ParseTagsWordsAroundBlank("home", " ", "urgent");
  }

  /** ` buy milk ` with tags `home, ,urgent` posts `buy milk` with tags `home` and `urgent`. */
  lemma SubmissionExample()
    ensures Submission(" buy milk ", "home, ,urgent") == Some(Payload("buy milk", false, ["home", "urgent"]))
  {
    TrimExample();
    ParseTagsExample();
  }

  /* ---------------- Mark done merge (`markTodoAsDone`) ---------------- */

  /** `prevTodos.map(todo => todo.id === updated.id ? updated : todo)` */
  function ReplaceById(todos: seq<Task>, updated: Task): (r: seq<Task>)
    ensures |r| == |todos|
    ensures forall i :: 0 <= i < |todos| ==>
      r[i] == if todos[i].id == updated.id then updated else todos[i]
  {
    if todos == [] then []
    else [if todos[0].id == updated.id then updated else todos[0]] + ReplaceById(todos[1..], updated)
  }

  /** The sequence of ids, one per position. */
  function Ids(todos: seq<Task>): (r: seq<Id>)
    ensures |r| == |todos| && forall i :: 0 <= i < |todos| ==> r[i] == todos[i].id
  {
    if todos == [] then [] else [todos[0].id] + Ids(todos[1..])
  }

  /** The merge keeps every id in its place. */
  lemma ReplaceByIdKeepsIds(todos: seq<Task>, updated: Task)
    ensures Ids(ReplaceById(todos, updated)) == Ids(todos)
  {
  }

  /** The reply is in the merged list exactly when its id was in the store. */
  lemma ReplaceByIdMember(todos: seq<Task>, updated: Task)
    ensures updated in ReplaceById(todos, updated) <==> updated.id in Ids(todos)
  {
    var r := ReplaceById(todos, updated);
    if updated in r {
      var i :| 0 <= i < |r| && r[i] == updated;
      assert Ids(todos)[i] == updated.id;
    }
    if updated.id in Ids(todos) {
      var i :| 0 <= i < |todos| && Ids(todos)[i] == updated.id;
      assert r[i] == updated;
    }
  }

  /** A reply whose id is not in the store leaves it unchanged. */
  lemma ReplaceByIdAbsent(todos: seq<Task>, updated: Task)
    requires updated.id !in Ids(todos)
    ensures ReplaceById(todos, updated) == todos
  {
    var r := ReplaceById(todos, updated);
    forall i | 0 <= i < |todos| ensures r[i] == todos[i] {
      assert Ids(todos)[i] == todos[i].id;
    }
  }

  /** Completing task 1 replaces only the entry with id 1, in place. */
  lemma MarkDoneExample()
    ensures var a, b := Task(1, "A", false, []), Task(2, "B", true, []);
      ReplaceById([a, b], a.(feito := true)) == [a.(feito := true), b]
  {
  }

  /** Merging the same reply twice is merging it once. */
  lemma ReplaceByIdIdempotent(todos: seq<Task>, updated: Task)
    ensures ReplaceById(ReplaceById(todos, updated), updated) == ReplaceById(todos, updated)
  {
  }
}
