/**
 * The engine store shared by the command-line and web front ends: a list of
 * tasks kept in memory and rewritten to the task file after every change.
 */
module Engine {
  import opened Wrappers
  import opened Seqs
  import opened Tasks
  import opened Errors
  import opened Tags
  import opened Search

  /** `load_tasks`: no file gives no tasks; a file that cannot be read or parsed is a storage error. */
  function LoadTasks(file: TaskFile): (r: Result<seq<Task>, TodoError>)
    ensures file.Missing? ==> r == Success([])
    ensures file.Stored? ==> r == Success(file.tasks)
    ensures file.Unreadable? || file.Malformed? ==>
      r.Failure? && r.error.kind == Storage && r.error.message == "Storage operation 'read' failed"
      && r.error.details == map["error" := JStr(file.cause)]
  {
    match file
    case Missing => Success([])
    case Stored(tasks) => Success(tasks)
    case Unreadable(cause) => Failure(StorageError("read", map["error" := JStr(cause)]))
    case Malformed(cause) => Failure(StorageError("read", map["error" := JStr(cause)]))
  }

  /**
   * The record `add_task` builds: the given id, title, description and creation time,
   * status 'Pending', and the tags of the title, then of the description when it is not empty.
   */
  function NewTask(id: int, title: string, description: string, createdAt: nat): (t: Task)
    ensures t.id == id && t.title == title && t.description == Some(description)
    ensures t.status == "Pending" && t.createdAt == createdAt
    ensures t.tags.Some? && NoDup(t.tags.value)
    ensures forall x :: x in t.tags.value <==>
      x in ExtractTags(title) || (description != "" && x in ExtractTags(description))
  {
    var task := Task(id, title, Some(description), "Pending", createdAt, Some([]));
    var task := AddTagsToTask(task, title);
    if description != "" then AddTagsToTask(task, description) else task
  }

  /** Ids run 1..n while nothing is deleted, so they are then unique. */
  lemma SequentialIdsAreUnique(tasks: seq<Task>)
    requires IdsSequential(tasks)
    ensures IdsUnique(tasks)
  {
  }

  /** An add after adds only keeps the ids running 1..n+1. */
  lemma AddKeepsIdsSequential(tasks: seq<Task>, title: string, description: string, createdAt: nat)
    requires IdsSequential(tasks)
    ensures IdsSequential(tasks + [NewTask(|tasks| + 1, title, description, createdAt)])
  {
  }

  /**
   * The id hazard: once a task other than the last is deleted from a list with ids
   * 1..n, the id the next add assigns (the new length plus one) is still in use.
   */
  lemma IdReusedAfterDelete(tasks: seq<Task>, k: nat)
    requires IdsSequential(tasks) && k + 1 < |tasks|
    ensures HasId(RemoveAt(tasks, k), |RemoveAt(tasks, k)| + 1)
  {
    var after := RemoveAt(tasks, k);
    assert after[|after| - 1] == tasks[|tasks| - 1];
  }

  /**
   * How a `save_tasks` write ends. `open(..., 'w')` empties the file before `json.dump`
   * writes to it, so a failure to open leaves the old file, while a failure during the
   * dump (or the closing flush) leaves an emptied or partly written one. `cause` is the
   * text of the I/O error.
   */
  datatype WriteResult = Written | OpenFailed(cause: string) | DumpFailed(cause: string)

  /**
   * The task file after writing `tasks`. A partly written list is never valid JSON (the
   * closing bracket comes last), so it is a malformed file, recorded with the write's cause.
   */
  function FileAfterWrite(before: TaskFile, tasks: seq<Task>, write: WriteResult): (f: TaskFile)
    ensures write.Written? ==> LoadTasks(f) == Success(tasks)
    ensures write.OpenFailed? ==> f == before
    ensures write.DumpFailed? ==> LoadTasks(f).Failure? && LoadTasks(f).error.kind == Storage
  {
    match write
    case Written => Stored(tasks)
    case OpenFailed(_) => before
    case DumpFailed(cause) => Malformed(cause)
  }

  /** The error `save_tasks` raises for a failed write. */
  function WriteError(write: WriteResult): (e: TodoError)
    requires !write.Written?
    ensures e.kind == Storage && e.message == "Storage operation 'write' failed"
    ensures e.details == map["error" := JStr(write.cause)]
  {
    StorageError("write", map["error" := JStr(write.cause)])
  }

  /** The command-line and web front ends' store (`TodoList` in the engine). */
  class TodoList {
    /** The tasks in memory, in insertion order. */
    var tasks: seq<Task>
    /** The task file as it stands. */
    var file: TaskFile

    /** `__init__` over a file `load_tasks` accepts: memory holds what the file holds. */
    constructor(file: TaskFile)
      requires LoadTasks(file).Success?
      ensures tasks == LoadTasks(file).value && this.file == file
    {
      tasks := LoadTasks(file).value;
      this.file := file;
    }

    /** `__init__` in full: a file `load_tasks` rejects makes construction fail with its error. */
    static method Open(file: TaskFile) returns (r: Result<TodoList, TodoError>)
      ensures r.Failure? <==> LoadTasks(file).Failure?
      ensures r.Failure? ==> r.error == LoadTasks(file).error
      ensures r.Success? ==> fresh(r.value) && r.value.tasks == LoadTasks(file).value && r.value.file == file
    {
      var loaded := LoadTasks(file);
      if loaded.Failure? {
        return Failure(loaded.error);
      }
      var store := new TodoList(file);
      r := Success(store);
    }

    /**
     * `save_tasks`: the whole list is written. `write` is how the file system lets the
     * write end; a failure is reported as a storage error for operation 'write'.
     */
    method SaveTasks(write: WriteResult) returns (r: Outcome<TodoError>)
      modifies this
      ensures tasks == old(tasks)
      ensures file == FileAfterWrite(old(file), tasks, write)
      ensures write.Written? ==> r == Pass
      ensures !write.Written? ==> r == Fail(WriteError(write))
    {
      file := FileAfterWrite(file, tasks, write);
      if write.Written? {
        r := Pass;
      } else {
        r := Fail(WriteError(write));
      }
    }

    /**
     * `add_task`: validate, then append the new task with id = length + 1, then save.
     * A rejected title or description leaves the store as it was. A failed save still
     * leaves the task appended in memory.
     */
    method AddTask(title: Option<string>, description: string, createdAt: nat, write: WriteResult)
      returns (r: Result<Task, TodoError>)
      modifies this
      ensures HandleValidation(title, description).Fail? ==>
        r == Failure(HandleValidation(title, description).error) && tasks == old(tasks) && file == old(file)
      ensures HandleValidation(title, description).Pass? ==>
        var t := NewTask(|old(tasks)| + 1, title.value, description, createdAt);
        && tasks == old(tasks) + [t]
        && file == FileAfterWrite(old(file), tasks, write)
        && (write.Written? ==> r == Success(t))
        && (!write.Written? ==> r == Failure(WriteError(write)))
    {
      var check := HandleValidation(title, description);
      if check.Fail? {
        return Failure(check.error);
      }
      var task := NewTask(|tasks| + 1, title.value, description, createdAt);
      tasks := tasks + [task];
      var saving := SaveTasks(write);
      if saving.Fail? {
        return Failure(saving.error);
      }
      r := Success(task);
    }

    /**
     * The scan of `get_task_by_id`: the position of the first task with that id, which
     * stands for the task object the source hands back; otherwise a not-found error.
     */
    method FindTask(taskId: int) returns (r: Result<nat, TodoError>)
      ensures r.Success? ==> IsFirstWithId(tasks, taskId, r.value) && FirstIndex(tasks, taskId) == Some(r.value)
      ensures r.Failure? ==> !HasId(tasks, taskId) && r.error == TaskNotFoundError(taskId)
    {
      for i := 0 to |tasks|
        invariant forall j :: 0 <= j < i ==> tasks[j].id != taskId
      {
        if tasks[i].id == taskId {
          return Success(i);
        }
      }
      return Failure(TaskNotFoundError(taskId));
    }

    /** `get_task_by_id`: the first task with that id, or a not-found error carrying the id. */
    method GetTaskById(taskId: int) returns (r: Result<Task, TodoError>)
      ensures r.Success? ==> exists i :: IsFirstWithId(tasks, taskId, i) && r.value == tasks[i]
      ensures r.Failure? ==> !HasId(tasks, taskId) && r == Failure(TaskNotFoundError(taskId))
    {
      var found := FindTask(taskId);
      match found
      case Success(i) => r := Success(tasks[i]);
      case Failure(e) => r := Failure(e);
    }

    /**
     * `update_task`: the first task with that id gets the new status and nothing else
     * changes; then the list is saved. An unknown id leaves everything as it was.
     */
    method UpdateTask(taskId: int, status: string, write: WriteResult) returns (r: Result<Task, TodoError>)
      modifies this
      ensures match FirstIndex(old(tasks), taskId)
        case None => r == Failure(TaskNotFoundError(taskId)) && tasks == old(tasks) && file == old(file)
        case Some(i) =>
          && tasks == old(tasks)[i := old(tasks)[i].(status := status)]
          && file == FileAfterWrite(old(file), tasks, write)
          && (write.Written? ==> r == Success(tasks[i]))
          && (!write.Written? ==> r == Failure(WriteError(write)))
    {
      var found := FindTask(taskId);
      if found.Failure? {
        return Failure(found.error);
      }
      var i := found.value;
      tasks := tasks[i := tasks[i].(status := status)];
      var saving := SaveTasks(write);
      if saving.Fail? {
        return Failure(saving.error);
      }
      r := Success(tasks[i]);
    }

    /**
     * `delete_task`: the first task with that id is removed (by `list.remove`, which
     * takes out the first equal element: that same position), the rest keep their
     * order, and the list is saved. An unknown id leaves everything as it was.
     */
    method DeleteTask(taskId: int, write: WriteResult) returns (r: Result<Task, TodoError>)
      modifies this
      ensures match FirstIndex(old(tasks), taskId)
        case None => r == Failure(TaskNotFoundError(taskId)) && tasks == old(tasks) && file == old(file)
        case Some(i) =>
          && tasks == RemoveAt(old(tasks), i)
          && file == FileAfterWrite(old(file), tasks, write)
          && (write.Written? ==> r == Success(old(tasks)[i]))
          && (!write.Written? ==> r == Failure(WriteError(write)))
    {
      var found := FindTask(taskId);
      if found.Failure? {
        return Failure(found.error);
      }
      var task := tasks[found.value];
      RemoveFirstWithId(tasks, taskId, found.value);
      tasks := RemoveFirst(tasks, task);
      var saving := SaveTasks(write);
      if saving.Fail? {
        return Failure(saving.error);
      }
      r := Success(task);
    }

    /** `search_tasks`: the composite search over the tasks in memory, with falsy criteria left out. */
    method SearchTasks(query: Option<string>, tags: TagsArgument, status: Option<string>) returns (r: seq<Task>)
      ensures IsSubsequence(r, tasks)
      ensures forall i :: 0 <= i < |r| ==> Matches(SearchFilters(query, tags, status), r[i])
      ensures forall i :: 0 <= i < |tasks| && Matches(SearchFilters(query, tags, status), tasks[i]) ==> tasks[i] in r
      ensures multiset(r) <= multiset(tasks)
      ensures forall i :: 0 <= i < |tasks| && Matches(SearchFilters(query, tags, status), tasks[i]) ==>
        multiset(r)[tasks[i]] == multiset(tasks)[tasks[i]]
      ensures query.GetOr("") == "" && !IsTruthy(tags) && status.GetOr("") == "" ==> r == tasks
    {
      r := AdvancedSearch(tasks, SearchFilters(query, tags, status));
    }

    /** `get_all_tags`: every tag on some task in memory. */
    method GetAllTags() returns (all: set<string>)
      ensures forall x :: x in all <==> TaggedAmong(tasks, |tasks|, x)
    {
      all := Tags.GetAllTags(tasks);
    }
  }

  /** The `tags` argument of `search_tasks`: absent, one tag, or a list of tags. */
  datatype TagsArgument = NoTags | OneTag(tag: string) | TagList(list: seq<string>)

  /** Python truthiness of the `tags` argument. */
  predicate IsTruthy(tags: TagsArgument) {
    match tags
    case NoTags => false
    case OneTag(tag) => tag != ""
    case TagList(list) => list != []
  }

  /**
   * The filters `search_tasks` passes on: a criterion is present only when its argument
   * is truthy, and a single tag that is not a list becomes a one-element list.
   */
  function SearchFilters(query: Option<string>, tags: TagsArgument, status: Option<string>): (f: Filters)
    ensures f.text.Some? <==> query.GetOr("") != ""
    ensures f.text.Some? ==> f.text == query
    ensures f.tags.Some? <==> IsTruthy(tags)
    ensures tags.OneTag? && IsTruthy(tags) ==> f.tags == Some([tags.tag])
    ensures tags.TagList? && IsTruthy(tags) ==> f.tags == Some(tags.list)
    ensures f.status.Some? <==> status.GetOr("") != ""
    ensures f.status.Some? ==> f.status == status
  {
    Filters(
      if query.GetOr("") != "" then query else None,
      match tags
      case NoTags => None
      case OneTag(tag) => if tag != "" then Some([tag]) else None
      case TagList(list) => if list != [] then Some(list) else None,
      if status.GetOr("") != "" then status else None)
  }

  /** Three adds of an accepted title to an empty store give ids 1, 2 and 3. */
  method AddThree(title: string) returns (store: TodoList)
    requires HandleValidation(Some(title), "").Pass?
    ensures fresh(store)
    ensures |store.tasks| == 3 && store.tasks[0].id == 1 && store.tasks[1].id == 2 && store.tasks[2].id == 3
  {
    store := new TodoList(Missing);
    var first := store.AddTask(Some(title), "", 1, Written);
    assert |store.tasks| == 1 && store.tasks[0].id == 1;
    var second := store.AddTask(Some(title), "", 2, Written);
    assert |store.tasks| == 2 && store.tasks[1].id == 2;
    var third := store.AddTask(Some(title), "", 3, Written);
  }

  /**
   * The duplicate-id scenario, for any title that passes validation: add three tasks,
   * delete the one with id 2, add again. The new task gets id 3, which the third task
   * still carries.
   */
  method IdCollisionScenario(title: string) returns (store: TodoList)
    requires HandleValidation(Some(title), "").Pass?
    ensures |store.tasks| == 3 && store.tasks[1].id == 3 && store.tasks[2].id == 3
    ensures !IdsUnique(store.tasks)
  {
    store := AddThree(title);
    assert FirstIndex(store.tasks, 2) == Some(1);
    var removed := store.DeleteTask(2, Written);
    assert |store.tasks| == 2 && store.tasks[1].id == 3;
    var fourth := store.AddTask(Some(title), "", 4, Written);
  }

  /**
   * A store's life from empty: add a task, mark it completed, delete it. After the
   * delete, looking its id up fails with a not-found error.
   */
  method LifecycleScenario() returns (created: Result<Task, TodoError>, afterUpdate: Result<Task, TodoError>,
                                      afterDelete: Result<Task, TodoError>)
    ensures created.Success? && created.value.id == 1 && created.value.status == "Pending"
    ensures afterUpdate.Success? && afterUpdate.value.id == 1 && afterUpdate.value.status == "Completed"
    ensures afterDelete == Failure(TaskNotFoundError(1))
  {
    var store := new TodoList(Missing);
    assert !Text.IsSpace("Ship feature #launch"[0]);
    created := store.AddTask(Some("Ship feature #launch"), "", 1, Written);
    var updated := store.UpdateTask(1, "Completed", Written);
    afterUpdate := store.GetTaskById(1);
    var removed := store.DeleteTask(1, Written);
    afterDelete := store.GetTaskById(1);
  }

  /**
   * A write that fails after the file was opened: the task stays in memory, the add
   * reports a storage error, and a store opened afresh on the emptied file fails to load.
   */
  method TruncatedWriteScenario() returns (added: Result<Task, TodoError>, reopened: Result<TodoList, TodoError>)
    ensures added == Failure(WriteError(DumpFailed("No space left on device")))
    ensures reopened.Failure? && reopened.error.kind == Storage
    ensures reopened.error.message == "Storage operation 'read' failed"
  {
    var store := new TodoList(Missing);
    assert !Text.IsSpace("Task"[0]);
    added := store.AddTask(Some("Task"), "", 1, DumpFailed("No space left on device"));
    assert |store.tasks| == 1;
    reopened := TodoList.Open(store.file);
  }
}
