# todolist — a verified model of the task store and its helper modules

This project models the core of the `todolist` application in Dafny. The
application is a to-do manager whose tasks live in a JSON file. A task record has
an integer id, a title, an optional description, a status string, a creation time
and optional hashtag tags. The model covers six parts:

- **The engine store**, `TodoList` in `todo_engine.py`. The command-line and web
  front ends use it. It validates input, assigns ids, extracts `#tags` from the
  text, reports typed errors and saves the whole list after every change.
- **The legacy store**, `TodoList` in `todo.py`. The desktop form uses it. It has
  the same list operations but no validation and no typed errors.
- **Text search**, `modules/search.py`: by text, by tag, by status, and the
  composite search.
- **Tag handling**, `modules/tags.py`: extraction, adding, removing and collecting.
- **The error taxonomy and validation**, `modules/error_handler.py`.
- **The status-and-date sort**, `sandbox_sort.py`.

Modules follow the source files: `Engine`, `Legacy`, `Search`, `Tags`, `Errors`
and `Sort`. Four support modules sit under them:

- `Wrappers`: Option, Result and a pass/fail Outcome.
- `Text`: ASCII character classes, lower-casing, substring search and stripping.
- `Seqs`: a filter that models list comprehensions, subsequences and
  first-occurrence de-duplication.
- `Tasks`: the task record, the first-index-of-id scan and `list.remove`.

Tasks are values: a `Task` datatype. Missing JSON keys are modelled separately
from empty values: `description: Option<string>` and `tags: Option<seq<string>>`.
Both stores are classes with a `tasks` sequence that the methods reassign. The
engine store also holds `file`, the state of the task file as a `TaskFile` value:
missing, unreadable, malformed, or holding a task list. How a write ends is a
parameter, `WriteResult`:
- it succeeds;
- `open` fails, which leaves the old file;
- the dump fails after `open(..., 'w')` has emptied the file, which leaves a file
  that no longer parses.

The legacy store keeps `file`, a `TaskFile` too. It starts as the file it was opened on,
so a missing or unparsable file stays as it was until the first save, and becomes
`Stored(tasks)` after each save.

## Model

| member | source | states |
|---|---|---|
| Engine.LoadTasks | todo_engine.py:27-40 | No file gives an empty list. A readable file gives its tasks. An unreadable or unparsable file gives a storage error for operation 'read' whose details carry the cause. |
| Engine.NewTask | todo_engine.py:71-82 | The new record has the given id, title, description and time, and status 'Pending'. Its tags have no duplicates. A tag is present exactly when it occurs in the title, or in a non-empty description. |
| Engine.SequentialIdsAreUnique | todo_engine.py:72 | While the ids run 1..n they are pairwise distinct. |
| Engine.AddKeepsIdsSequential | todo_engine.py:72 | Adding with id = length + 1 to a list whose ids run 1..n keeps them running 1..n+1. |
| Engine.IdReusedAfterDelete | todo_engine.py:72 | After any task except the last is deleted from a list with ids 1..n, the id the next add assigns is already in use. |
| Engine.FileAfterWrite | todo_engine.py:42-52 | After a successful write, loading the file gives back exactly the list written. A failed `open` leaves the file as it was. A failed dump leaves a file whose load is a storage error. |
| Engine.WriteError | todo_engine.py:51-52 | A failed write is a storage error for operation 'write' whose details carry the cause. |
| Engine.TodoList.constructor | todo_engine.py:22-25 | Over a file that loads, memory holds the loaded tasks and the file is kept as it was. |
| Engine.TodoList.Open | todo_engine.py:22-40 | Construction fails exactly when the load fails, with the load's error. Otherwise a new store holds the loaded tasks. |
| Engine.TodoList.SaveTasks | todo_engine.py:42-52 | Memory is unchanged, and the file becomes `FileAfterWrite` of the list. The result passes exactly when the write succeeds; otherwise it is the write error. |
| Engine.TodoList.AddTask | todo_engine.py:54-85 | A missing or rejected title, or a rejected description, changes nothing and returns the validation error. Otherwise exactly the `NewTask` record with id = old length + 1 is appended and the list is written. The new task is returned on success. A failed write leaves the task appended in memory and returns the write error. |
| Engine.TodoList.FindTask | todo_engine.py:99-102 | The position found holds the first task with that id. Failure happens exactly when no task has the id, and it is the not-found error for that id. |
| Engine.TodoList.GetTaskById | todo_engine.py:87-102 | The result is the first task with the id, or the not-found error when no task has it. |
| Engine.TodoList.UpdateTask | todo_engine.py:104-121 | An unknown id changes nothing and returns not-found. Otherwise only the first task with that id changes, and only its status. The list is written. The result is the updated task, or the write error when the write fails. |
| Engine.TodoList.DeleteTask | todo_engine.py:123-139 | An unknown id changes nothing and returns not-found. Otherwise exactly the first task with that id is removed, the rest keep their order, and the list is written. The removed task is returned, or the write error when the write fails. |
| Engine.TodoList.SearchTasks | todo_engine.py:141-151 | The result keeps input order. A task is in it exactly when it matches every truthy criterion, as many times as it occurs in memory. With no truthy criterion it is the whole list. |
| Engine.TodoList.GetAllTags | todo_engine.py:153-155 | A string is in the result exactly when some task in memory carries it as a tag. |
| Engine.SearchFilters | todo_engine.py:143-149 | Each criterion is passed on exactly when its argument is truthy. A single tag becomes a one-element list; a list is passed as given. |
| Engine.IdCollisionScenario | todo_engine.py:72 | For any title that passes validation, adding three tasks, deleting id 2 and adding again leaves two tasks with id 3. |
| Engine.TruncatedWriteScenario | todo_engine.py:42-84 | An add whose dump fails returns the write error, and a store opened afresh on the file it leaves fails with a storage error for operation 'read'. |
| Engine.LifecycleScenario | todo_engine.py:54-139 | From an empty store: an add yields id 1 with status 'Pending'. After an update the lookup shows 'Completed'. After a delete the lookup fails with not-found for id 1. |
| Legacy.LoadTasks | todo.py:11-17 | No file and an unparsable file both give an empty list. A readable file gives its tasks. Only a file that cannot be opened escapes as an I/O error. |
| Legacy.TodoList.constructor | todo.py:6-17 | Over a file `load_tasks` gets through, memory holds what it loaded and the file is left untouched. |
| Legacy.TodoList.Open | todo.py:6-17 | Opening fails exactly when the file cannot be opened. Otherwise the new store holds the loaded tasks over the untouched file. |
| Legacy.TodoList.SaveTasks | todo.py:19-21 | Memory is unchanged. The file becomes the stored list and loads back as exactly that list. |
| Legacy.TodoList.AddTask | todo.py:23-33 | Exactly one record is appended: id = old length + 1, status 'Pending', and no tags key. Nothing is validated. The file becomes the stored list. |
| Legacy.TodoList.UpdateTask | todo.py:50-57 | An unknown id changes nothing. Otherwise only the status of the first task with that id changes, and the file becomes the stored list. |
| Legacy.TodoList.DeleteTask | todo.py:59-66 | An unknown id changes nothing. Otherwise exactly the first task with that id is removed, order is kept, and the file becomes the stored list. |
| Legacy.EmptyTitleAccepted | todo.py:23-33 | With no validation, a task with an empty title is stored with id 1. |
| Legacy.MalformedFileScenario | todo.py:11-17 | An unparsable file opens as an empty legacy store and stays unparsable, while the engine store fails to open on it with the 'read' storage error. |
| Errors.NewTodoError | modules/error_handler.py:5-9 | The error keeps the message and code. Absent details become an empty map. |
| Errors.TaskNotFoundError | modules/error_handler.py:11-18 | The error has kind not-found, code 'TASK_NOT_FOUND', details holding the task id, and a message naming the id. |
| Errors.ValidationError | modules/error_handler.py:20-27 | The error has kind validation, code 'VALIDATION_ERROR' and details naming the field. |
| Errors.StorageError | modules/error_handler.py:29-36 | The error has kind storage, code 'STORAGE_ERROR', the given details, and a message naming the operation. |
| Errors.FormatErrorResponse | modules/error_handler.py:40-48 | The response is an object with one key, 'error', holding code, message and details. Reading it back gives exactly the error's code, message and details. |
| Errors.HandleValidation | modules/error_handler.py:51-58 | The input passes exactly when the title is present, non-blank and at most 200 characters and the description is at most 1000. A failure is a validation error. It names 'title' when the title is at fault and 'description' otherwise, and a missing or blank title gets the 'Title cannot be empty' message. |
| Errors.RejectedInputResponse | modules/error_handler.py:40-58 | The formatted response to rejected input reads back with code 'VALIDATION_ERROR' and names the field at fault. |
| Errors.NotFoundResponse | modules/error_handler.py:11-18 | The formatted not-found response reads back with code 'TASK_NOT_FOUND' and the id it names. |
| Tags.FindAll | modules/tags.py:27 | Every tag found is a non-empty run of word characters. Text without '#' yields none. |
| Tags.FindAllIsTagsFrom | modules/tags.py:27 | The scan finds exactly the maximal word runs that follow a '#'. |
| Tags.ExtractTags | modules/tags.py:16-28 | The result is exactly the set of word runs after a '#'. Each is non-empty and word-only. Text without '#' has no tags. |
| Tags.ExtractTagsSample | modules/tags.py:16-28 | 'Buy milk #grocery #urgent' yields exactly {grocery, urgent}. |
| Tags.AddTagsToTask | modules/tags.py:31-48 | Only the tags change. They end without duplicates. A tag is present exactly when it was already there or occurs in the text. |
| Tags.RemoveTagsFromTask | modules/tags.py:51-64 | Only the tags change. The remaining tags are an in-order subsequence of the old ones. None of the removed names is left, and every other tag stays as many times as it occurred. A task without tags is unchanged. |
| Tags.GetAllTags | modules/tags.py:67-81 | A string is in the result exactly when some task carries it as a tag. No tasks gives no tags. |
| Search.SearchByText | modules/search.py:17-33 | The result keeps input order. A task is in it exactly when the lower-cased query occurs in its lower-cased title or description, as many times as it occurs in the input. |
| Search.SearchByTag | modules/search.py:36-52 | The result keeps input order. A task is in it exactly when it carries the tag with leading '#' characters removed, as many times as it occurs in the input. |
| Search.SearchByStatus | modules/search.py:55-70 | The result keeps input order. A task is in it exactly when its lower-cased status equals the lower-cased query, as many times as it occurs in the input. |
| Search.EmptyQueryKeepsAll | modules/search.py:28-33 | The empty text query matches every task. |
| Search.LeadingHashIgnored | modules/search.py:48 | Searching for '#tag' gives the same result as searching for 'tag'. |
| Search.FiltersIdempotent | modules/search.py:17-70 | Applying any of the three searches to its own result changes nothing. |
| Search.NarrowByTags | modules/search.py:98-100 | After the loop the result keeps input order. A task is in it exactly when it carries every listed tag, as many times as it occurs in the input. |
| Search.AdvancedSearchResult | modules/search.py:93-105 | The text stage, tag stage and status stage in sequence keep exactly the tasks matching all present filters. |
| Search.AdvancedSearch | modules/search.py:73-105 | The result keeps input order. A task is in it exactly when it matches every present filter, as many times as it occurs in the input. With no filters it is the input. |
| Seqs.Filter | modules/search.py:28-33 | The result keeps input order. It holds only elements passing the test, and every passing element is in it. |
| Seqs.FilterCounts | modules/search.py:28-33 | Every element passing the test occurs in the filtered list as many times as in the input, and no element occurs more often. |
| Seqs.Distinct | modules/tags.py:47 | The result has no duplicates and holds exactly the elements of the input. |
| Tasks.FirstIndex | todo_engine.py:99-102 | The index returned holds the first task with the id. None is returned exactly when no task has the id. |
| Tasks.RemoveFirst | todo_engine.py:137 | The result is the input with the position of the first equal element removed, the rest in order. Its multiset is the input's minus that one element. |
| Tasks.RemoveFirstWithId | todo_engine.py:137 | Removing the first task with a given id by value removes exactly that position. |
| Text.Lower | modules/search.py:28 | Length is kept. Each upper-case letter becomes its lower-case counterpart, and other characters are unchanged. |
| Text.Contains | modules/search.py:31-32 | The result is true exactly when the query occurs in the text at some position. |
| Text.Strip | modules/error_handler.py:53 | The result is empty exactly when the text is all whitespace. |
| Text.LStrip | modules/search.py:48 | The result is a suffix of the input. Every removed character was the given one, and the result does not start with it. |
| Sort.SortBy | sandbox_sort.py:42-43 | The result is a permutation of the input. |
| Sort.SortByLexSorted | sandbox_sort.py:39-44 | Two stable sorts, first by the inner key and then by the outer one, leave the list ordered by the outer key and by the inner key within each outer class. |
| Sort.SortBySorted | sandbox_sort.py:42 | The sort orders the list by its key. |
| Sort.SortByStable | sandbox_sort.py:42-43 | Elements of one key value keep their relative order. |
| Sort.SortByStatusAndDate | sandbox_sort.py:39-44 | The result is a permutation. Every task not 'Completed' comes before every 'Completed' task. Within each group creation times do not increase. |
| Sort.SortByStatusAndDateStable | sandbox_sort.py:39-44 | Tasks in the same status group with the same creation time keep their input order. |
| Sort.LowercaseCompletedSortsAsPending | sandbox_sort.py:43 | The status comparison is case-sensitive: 'completed' sorts with the open tasks, before a 'Completed' one. |

## Where the code and its design differ

Where the intended behaviour and the code differ, the model follows the code:

- **Ids are not unique.** Ids are meant to be unique and never reused. Both stores
  assign id = length + 1, so after a delete an id can be handed out again.
  `Engine.IdReusedAfterDelete` and `Engine.IdCollisionScenario` state this.
- **The tag filter drops every leading '#'.** It is described as removing one
  leading '#', but `lstrip('#')` removes all of them.
- **Unreadable files differ by store.** In the engine store, a file that cannot be
  read or parsed is a storage error. In the legacy store, a parse failure silently
  gives an empty list (`Legacy.MalformedFileScenario`).

## Left out

- File I/O and JSON encoding. The file's state is a `TaskFile` value: missing,
  unreadable, malformed, or stored tasks. A write's outcome is the `WriteResult`
  parameter. The file's indentation and its name are not modelled. A dump that
  fails only at the closing flush, after every byte was written, is treated like
  any failed dump.
- The clock. `datetime.now()` becomes the `createdAt` parameter, a natural number
  where larger means newer. The `'%Y-%m-%d %H:%M:%S'` text and its `strptime`
  parsing are not modelled: the sort compares these numbers.
- Unicode. `\w`, `str.lower` and `str.strip` are modelled on ASCII: word
  characters are letters, digits and `_`, and whitespace is the characters
  Python treats as such below 128.
- Tags.AddTagsToTask: states the tag set and the absence of duplicates, not the
  order, because `list(set(...))` orders by hash. `Seqs.Distinct` keeps first
  occurrences, which is one possible order.
- Aliasing. Python hands back the dictionary that sits inside the list, so a
  caller who later mutates it changes the store. Here tasks are values. The tag
  functions return an updated task instead of changing it in place.
- `get_task_by_id` returns an object reference. `Engine.TodoList.FindTask`
  returns its position instead.
- Engine.TodoList.constructor: requires a file that loads. A file that does not
  load makes `__init__` raise; `Engine.TodoList.Open` models that as a failure.
- Legacy: the console messages (`print`) and `view_tasks`, which only prints.
  An I/O error in the legacy `save_tasks` is not caught by the source. The model
  treats every legacy write as successful.
- Records loaded from a file are taken to have the keys the stores read (`id`,
  `title`, `status`, `created_at`). A `KeyError` from a record missing one of them
  is not modelled.
- Errors.HandleValidation: the description is always a string. The web front end
  can pass a JSON `null` description, and `len(description)` then raises a
  `TypeError` that no handler catches. A missing title is modelled.
- The front ends (`todo_cli.py`, `todo_gui.py`, `todo_web.py`) and the
  suggestion helper (`ai_engine.py`) are not part of this model.
