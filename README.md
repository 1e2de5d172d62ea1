# Task-list client state, modelled in Dafny

This project models the state management of the task-list page
`pacotes/frontend/src/TodoList.jsx`. The page keeps four pieces of state:
the session `token`, the task store `todos`, the filter mode `filter` and the
active tag `tagFilter`. The model covers how the event handlers and the fetch
effect change that state, plus the pure helpers they use:

- trimming text, splitting on commas and parsing the tag field;
- the view predicate `filterBy`;
- the filter controller's transitions;
- the choice of list request;
- the add-task payload;
- the merge of a completed task.

Files:

- `wrappers.dfy`: `Option`, used for every server reply. `None` is a failed
  request (a non-2xx status or a network error). `Some(v)` is the decoded
  JSON body.
- `text.dfy` (module `Text`): `String.prototype.trim` over the exact set of
  ECMAScript white-space and line-terminator characters. Also
  `split(",")`, `join(",")`, and the tag chain
  `split(",").map(trim).filter(nonEmpty)` as `ParseTags`.
- `tasks.dfy` (module `Tasks`): values and pure logic. This covers the task
  record, the four filter modes, the `filterBy` view, and the filter-state
  transitions (`OnFilterClick`, `OnTagSubmit`, `OnAdd`) with their invariant
  `Consistent`. It also holds the request choice (`FetchTargetOf`:
  `NoFetch | Unfiltered | ByTag(tag)`), the add payload (`Submission`) and the
  by-id merge (`ReplaceById`).
- `app.dfy` (module `App`): the hook-held state as classes. `TodoList` holds
  `token`, `todos`, `filter` and `tagFilter`. `AddTodoForm` holds the two
  add-form inputs. `TodoFilterForm` holds the tag input. Each handler is a
  method whose `ensures` gives the new state in terms of the old state, the
  pure functions above and the server reply it receives as a parameter.

Points where the model follows the code more closely than a prose summary
would:

- The mark-done merge matches on the id of the task the server returned
  (`updatedTodo.id`), not on the id that was requested. The model does the
  same: `MarkTodoAsDone` takes the requested id but merges by the reply's id.
- The token gate is JavaScript truthiness. `!token` holds for `null` and also
  for the empty string, so `Authenticated` requires a non-empty token.
- "Blank" means all characters are ECMAScript white space. `Trim(s) == []`
  holds exactly when `AllSpace(s)` does (`TrimEmptyIffAllSpace`).
- Until the token is truthy the page renders only the login form
  (`TodoList.jsx:273`). So the add, mark-done and filter handlers run only in
  an authenticated session, and their methods require `Authenticated` of the
  token.
- Adding a task in `tag` mode appends it and leaves the mode unchanged
  (`OnAdd`). The list is not refetched, and the `tag` view shows every stored
  task (`VisibleUnfiltered`). So the tag view then lists the new task even when
  it does not carry the active tag. `AddedPendingTaskVisible` covers this case
  along with the others.

## Model

| member | source | states |
|---|---|---|
| Text.Trim | pacotes/frontend/src/TodoList.jsx:78 | `String.prototype.trim`; its own contract only bounds the length, and its meaning is given by `TrimIsSlice`, `TrimEmptyIffAllSpace` and `TrimIdempotent` |
| Text.TrimStartIsSuffix | pacotes/frontend/src/TodoList.jsx:78 | trimming the front removes exactly a whitespace-only prefix, and what is left does not start with whitespace |
| Text.TrimEndIsPrefix | pacotes/frontend/src/TodoList.jsx:78 | trimming the back removes exactly a whitespace-only suffix, and what is left does not end with whitespace |
| Text.TrimIsSlice | pacotes/frontend/src/TodoList.jsx:78 | `trim()` returns the middle slice of its input between a whitespace-only prefix and a whitespace-only suffix; that slice neither starts nor ends with whitespace |
| Text.TrimEmptyIffAllSpace | pacotes/frontend/src/TodoList.jsx:84 | a string trims to the empty string exactly when every character is whitespace (the falsy test on the trimmed text) |
| Text.TrimIdempotent | pacotes/frontend/src/TodoList.jsx:81 | trimming an already trimmed string changes nothing |
| Text.TrimSubset | pacotes/frontend/src/TodoList.jsx:81 | trimming adds no characters, so a trimmed piece has no comma |
| Text.Split | pacotes/frontend/src/TodoList.jsx:80 | `split(",")` always yields at least one piece, and no piece contains a comma |
| Text.JoinSplit | pacotes/frontend/src/TodoList.jsx:80 | joining the pieces back with commas gives the input, so no character is lost or reordered |
| Text.SplitJoin | pacotes/frontend/src/TodoList.jsx:80 | splitting comma-free pieces joined by commas gives back exactly those pieces (the other half of the round trip) |
| Text.SplitAtComma | pacotes/frontend/src/TodoList.jsx:80 | a comma separates the pieces on its left from the pieces on its right, in order |
| Text.SplitNoComma | pacotes/frontend/src/TodoList.jsx:80 | a string without commas is one piece |
| Text.ParseTags | pacotes/frontend/src/TodoList.jsx:79-82 | the tag chain yields at most one tag per comma-separated piece; its meaning is given by `ParseTagsWellFormed`, `ParseTagsKeepsNonBlank`, `ParseTagsAtComma` and `ParseTagsPiece`, which together determine it |
| Text.ParseTagsWord | pacotes/frontend/src/TodoList.jsx:79-82 | a comma-free word that neither starts nor ends with whitespace is exactly one tag |
| Text.ParseTagsWordsAroundBlank | pacotes/frontend/src/TodoList.jsx:79-82 | two such words separated by a blank piece yield exactly those two tags, in order |
| Text.ParseTagsWellFormed | pacotes/frontend/src/TodoList.jsx:79-82 | every parsed tag is non-empty, equal to its own trim and free of commas, and is the trim of one of the input's comma-separated pieces |
| Text.ParseTagsKeepsNonBlank | pacotes/frontend/src/TodoList.jsx:79-82 | the trim of every piece that is not all whitespace is among the tags, so only blank pieces are dropped |
| Text.ParseTagsAtComma | pacotes/frontend/src/TodoList.jsx:79-82 | the tags of the text before a comma come first, followed by the tags of the text after it |
| Text.ParseTagsPiece | pacotes/frontend/src/TodoList.jsx:79-82 | a comma-free piece yields its trimmed text as one tag, or nothing when it is blank |
| Text.DropEmptyMember | pacotes/frontend/src/TodoList.jsx:82 | `filter(t => t.length > 0)` keeps exactly the non-empty elements |
| Tasks.Shows | pacotes/frontend/src/TodoList.jsx:210-215 | `filterBy`: `all` and `tag` accept every task, `done` accepts tasks with `feito`, and `pending` accepts tasks without it; used through `VisibleMember`, `VisibleUnfiltered` and `DonePendingPartition` |
| Tasks.Visible | pacotes/frontend/src/TodoList.jsx:287 | `todos.filter(filterBy)` is no longer than the store and every element it keeps passes the predicate; `VisibleMember` adds that its elements are exactly the store's tasks that pass |
| Tasks.VisibleMember | pacotes/frontend/src/TodoList.jsx:210-215 | a task is rendered exactly when it is in the store and the mode's predicate holds: `all` and `tag` always, `done` when `feito`, `pending` when not `feito` |
| Tasks.VisibleAppend | pacotes/frontend/src/TodoList.jsx:287 | filtering commutes with concatenation, so the rendered tasks keep store order |
| Tasks.VisibleUnfiltered | pacotes/frontend/src/TodoList.jsx:210-214 | the `all` view and the `tag` view are the whole store |
| Tasks.DonePendingPartition | pacotes/frontend/src/TodoList.jsx:212-213 | the `done` view and the `pending` view together hold the store's tasks exactly, as multisets and by count |
| Tasks.Consistent | pacotes/frontend/src/TodoList.jsx:133-146 | the filter-state invariant: in `tag` mode the tag is non-empty and trimmed, and in every other mode it is empty; kept by `OnFilterClick`, `OnTagSubmit` and `OnAdd` (`TransitionsKeepConsistent`) |
| Tasks.OnFilterClick | pacotes/frontend/src/TodoList.jsx:133-138 | choosing `all`, `done` or `pending` sets that mode and clears the tag |
| Tasks.OnTagSubmit | pacotes/frontend/src/TodoList.jsx:140-146 | a blank tag submission changes nothing; otherwise the mode becomes `tag` and the tag becomes the trimmed input |
| Tasks.OnAdd | pacotes/frontend/src/TodoList.jsx:249 | adding a task turns `done` into `all`, keeps every other mode, and never touches the tag |
| Tasks.TransitionsKeepConsistent | pacotes/frontend/src/TodoList.jsx:133-146 | the invariant "a trimmed non-empty tag in `tag` mode, an empty tag otherwise" survives a tag submission and an add |
| Tasks.AddedPendingTaskVisible | pacotes/frontend/src/TodoList.jsx:247-250 | a task appended with `feito = false` is rendered under the filter mode that follows the add |
| Tasks.FetchTargetOf | pacotes/frontend/src/TodoList.jsx:223-229 | no request without a truthy token; the by-tag request, for exactly the active tag, when the mode is `tag` and the tag is non-empty; otherwise the unfiltered list |
| Tasks.ConsistentFetch | pacotes/frontend/src/TodoList.jsx:223-229 | when the filter state is consistent and a token is held, the by-tag request is made exactly in `tag` mode |
| Tasks.FetchAfterTransitions | pacotes/frontend/src/TodoList.jsx:221-245 | after a link click the unfiltered list is requested; after a non-blank tag submission the by-tag list for the trimmed tag is requested |
| Tasks.AfterFetch | pacotes/frontend/src/TodoList.jsx:235-241 | a successful fetch replaces the store wholesale; a failed fetch, or no fetch, leaves it unchanged |
| Tasks.Submission | pacotes/frontend/src/TodoList.jsx:78-95 | nothing is posted exactly when the text is blank; otherwise the payload has non-empty trimmed text, `feito = false` and the parsed tags |
| Tasks.SubmissionText | pacotes/frontend/src/TodoList.jsx:78-92 | the posted text is the trim of the typed text |
| Tasks.ParseTagsExample | pacotes/frontend/src/TodoList.jsx:79-82 | the tag text `home, ,urgent` parses to the tags `home` and `urgent` |
| Tasks.SubmissionExample | pacotes/frontend/src/TodoList.jsx:78-95 | text ` buy milk ` with tags `home, ,urgent` posts `buy milk`, `feito = false` and the tags `home` and `urgent` |
| Tasks.ReplaceById | pacotes/frontend/src/TodoList.jsx:269-271 | the merge keeps the length; each entry whose id equals the reply's id becomes the reply, and every other entry stays at its index |
| Tasks.ReplaceByIdKeepsIds | pacotes/frontend/src/TodoList.jsx:270 | the merge keeps the sequence of ids, so no entry changes position |
| Tasks.ReplaceByIdMember | pacotes/frontend/src/TodoList.jsx:270 | the reply is in the merged list exactly when its id was in the store |
| Tasks.ReplaceByIdAbsent | pacotes/frontend/src/TodoList.jsx:270 | a reply whose id is not in the store leaves the store unchanged |
| Tasks.ReplaceByIdIdempotent | pacotes/frontend/src/TodoList.jsx:270 | merging the same reply twice is the same as merging it once |
| App.TodoList.constructor | pacotes/frontend/src/TodoList.jsx:204-208 | the page starts with no token, an empty store, mode `all` and an empty tag, which satisfies the filter invariant |
| App.TodoList.Login | pacotes/frontend/src/TodoList.jsx:6-24 | the token is set to the server's token only when login succeeds; on failure it is unchanged and failure is reported |
| App.TodoList.FetchTodos | pacotes/frontend/src/TodoList.jsx:221-245 | the effect issues the request chosen by `FetchTargetOf` for the current state, and the store becomes `AfterFetch` of the old store and the reply |
| App.TodoList.ApplyFilter | pacotes/frontend/src/TodoList.jsx:217-219 | sets the filter mode and nothing else |
| App.TodoList.SetTagFilter | pacotes/frontend/src/TodoList.jsx:208 | sets the active tag and nothing else |
| App.TodoList.AddTodo | pacotes/frontend/src/TodoList.jsx:247-250 | the store becomes the old store with the new task appended; the filter state becomes `OnAdd` of the old one; the invariant is kept; only called with a truthy token |
| App.TodoList.MarkTodoAsDone | pacotes/frontend/src/TodoList.jsx:252-272 | on a reply the store becomes `ReplaceById` of the old store and the reply; on a failed request the store is unchanged; only reachable with a truthy token |
| App.AddTodoForm.constructor | pacotes/frontend/src/TodoList.jsx:72-74 | both inputs start empty |
| App.AddTodoForm.Edit | pacotes/frontend/src/TodoList.jsx:114-123 | typing sets the two input fields |
| App.AddTodoForm.HandleAdd | pacotes/frontend/src/TodoList.jsx:76-107 | only reachable with a truthy token (the form is rendered after the login gate). It posts `Submission` of the inputs. A created task is appended, the filter follows `OnAdd` and both inputs are cleared. A blank text or a failed post leaves the store, the filter and the inputs unchanged |
| App.TodoFilterForm.constructor | pacotes/frontend/src/TodoList.jsx:131 | the tag input starts empty |
| App.TodoFilterForm.EditTag | pacotes/frontend/src/TodoList.jsx:164 | typing sets the tag input |
| App.TodoFilterForm.HandleFilterClick | pacotes/frontend/src/TodoList.jsx:133-138 | with a truthy token, clicking a mode link makes the filter state `OnFilterClick` of that mode, which is consistent |
| App.TodoFilterForm.HandleTagFilter | pacotes/frontend/src/TodoList.jsx:140-146 | with a truthy token, submitting the tag input makes the filter state `OnTagSubmit` of the old state and the input, keeping the invariant |

## Left out

- HTTP: no requests, headers, JSON bodies or status codes are modelled. Each
  reply is a parameter. `None` means the response was not ok, or the network
  failed, or the JSON could not be parsed.
- A failed add or mark-done rejects its promise (an unhandled rejection in the
  page). The model does not represent the exception itself, only that no
  state changes.
- URL strings and `encodeURIComponent` are left out. `FetchTarget` names the
  endpoint abstractly.
- `LoginForm`'s error message and its own input state are left out because
  they are UI only. `Login` returns whether it succeeded, which is what the
  form turns into its message.
- JSX rendering, `TodoItem` markup, `key={index}` and the "Carregando" branch
  for a falsy store are left out because they are UI only.
- A successful list reply is assumed to be an array of tasks. A successful add
  or mark-done reply is assumed to be a task record. The source does not check
  this. A `null` list body would make the page show "Carregando" and make the
  next add or merge throw. A truthy body that is not an array would make the
  rendering throw. The model's reply types exclude these bodies.
- A failed fetch is logged with `console.error`. The log is not modelled.
- React effect scheduling is not modelled. When the effect re-runs is left to
  the caller of `FetchTodos`.
- The race between overlapping fetches that complete out of order is
  asynchronous concurrency. The model is sequential: each reply is applied
  when `FetchTodos` is called.
- `handleFilterClick` reads the mode from the link's id by removing the
  `filter-` prefix. Only the links `filter-all`, `filter-done` and
  `filter-pending` exist, so `HandleFilterClick` takes the mode directly and
  requires it not to be `tag`.
- Task ids are modelled as integers compared for equality. The server's id
  representation is not modelled.
- Strings are sequences of Unicode scalar values, not UTF-16 code units.
  Every character that `trim` removes is in the Basic Multilingual Plane, so
  trimming and splitting on `,` come out the same.
