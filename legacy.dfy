/**
 * The older store the desktop form uses: the same list operations as the
 * engine, without validation, tags or typed errors. An unknown id is reported
 * on the console and otherwise ignored.
 */
module Legacy {
  import opened Wrappers
  import opened Tasks
  import opened Errors
  import Engine

  /**
   * `load_tasks` of the older store: no file and an unparsable file both give no tasks.
   * None stands for a file that cannot be opened, whose I/O error is not caught.
   */
  function LoadTasks(file: TaskFile): (r: Option<seq<Task>>)
    ensures file.Missing? || file.Malformed? ==> r == Some([])
    ensures file.Stored? ==> r == Some(file.tasks)
    ensures r.None? <==> file.Unreadable?
  {
    match file
    case Missing => Some([])
    case Malformed(_) => Some([])
    case Stored(tasks) => Some(tasks)
    case Unreadable(_) => None
  }

  /** The desktop form's store (`TodoList` in the older module). */
  class TodoList {
    /** The tasks in memory, in insertion order. */
    var tasks: seq<Task>
    /** The task file as it stands. */
    var file: TaskFile

    /**
     * `__init__` over a file `load_tasks` gets through: memory holds what it loaded, and
     * the file is left as it was (a missing file stays missing, a malformed one malformed).
     */
    constructor(file: TaskFile)
      requires LoadTasks(file).Some?
      ensures tasks == LoadTasks(file).value && this.file == file
    {
      tasks := LoadTasks(file).value;
      this.file := file;
    }

    /** `__init__` in full: None when the file cannot be opened and the I/O error escapes. */
    static method Open(file: TaskFile) returns (r: Option<TodoList>)
      ensures r.None? <==> file.Unreadable?
      ensures r.Some? ==> fresh(r.value) && r.value.tasks == LoadTasks(file).value && r.value.file == file
    {
      var loaded := LoadTasks(file);
      if loaded.None? {
        return None;
      }
      var store := new TodoList(file);
      r := Some(store);
    }

    /** `save_tasks`: the whole list is written to the file, which then loads back as that list. */
    method SaveTasks()
      modifies this
      ensures tasks == old(tasks) && file == Stored(tasks)
      ensures LoadTasks(file) == Some(tasks)
    {
      file := Stored(tasks);
    }

    /**
     * `add_task`: append a task with id = length + 1, status 'Pending' and no `tags`
     * key, then save. Nothing is checked: an empty title is stored as given.
     */
    method AddTask(title: string, description: string, createdAt: nat)
      modifies this
      ensures tasks == old(tasks) + [Task(|old(tasks)| + 1, title, Some(description), "Pending", createdAt, None)]
      ensures file == Stored(tasks)
    {
      var task := Task(|tasks| + 1, title, Some(description), "Pending", createdAt, None);
      tasks := tasks + [task];
      SaveTasks();
    }

    /**
     * `update_task`: scan for the first task with that id, set its status, save and stop.
     * An unknown id changes nothing.
     */
    method UpdateTask(taskId: int, status: string)
      modifies this
      ensures match FirstIndex(old(tasks), taskId)
        case None => tasks == old(tasks) && file == old(file)
        case Some(i) => tasks == old(tasks)[i := old(tasks)[i].(status := status)] && file == Stored(tasks)
    {
      var i := 0;
      while i < |tasks|
        invariant 0 <= i <= |tasks|
        invariant tasks == old(tasks) && file == old(file)
        invariant forall j :: 0 <= j < i ==> tasks[j].id != taskId
      {
        if tasks[i].id == taskId {
          tasks := tasks[i := tasks[i].(status := status)];
          SaveTasks();
          return;
        }
        i := i + 1;
      }
    }

    /**
     * `delete_task`: scan for the first task with that id, remove it (by `list.remove`,
     * which takes out that same position), save and stop. An unknown id changes nothing.
     */
    method DeleteTask(taskId: int)
      modifies this
      ensures match FirstIndex(old(tasks), taskId)
        case None => tasks == old(tasks) && file == old(file)
        case Some(i) => tasks == RemoveAt(old(tasks), i) && file == Stored(tasks)
    {
      var i := 0;
      while i < |tasks|
        invariant 0 <= i <= |tasks|
        invariant tasks == old(tasks) && file == old(file)
        invariant forall j :: 0 <= j < i ==> tasks[j].id != taskId
      {
        if tasks[i].id == taskId {
          RemoveFirstWithId(tasks, taskId, i);
          tasks := RemoveFirst(tasks, tasks[i]);
          SaveTasks();
          return;
        }
        i := i + 1;
      }
    }
  }

  /** With no validation, a task whose title is empty is stored. */
  method EmptyTitleAccepted() returns (store: TodoList)
    ensures |store.tasks| == 1 && store.tasks[0].title == "" && store.tasks[0].id == 1
  {
    store := new TodoList(Missing);
    store.AddTask("", "", 0);
  }

  /**
   * The older store opens an unparsable file as an empty list and leaves the file as it
   * is; the engine store opening the same file fails with a 'read' storage error.
   */
  method MalformedFileScenario(cause: string) returns (legacy: Option<TodoList>, engine: Result<Engine.TodoList, TodoError>)
    ensures legacy.Some? && legacy.value.tasks == [] && legacy.value.file == Malformed(cause)
    ensures engine.Failure? && engine.error.kind == Storage && engine.error.message == "Storage operation 'read' failed"
  {
    legacy := TodoList.Open(Malformed(cause));
    engine := Engine.TodoList.Open(Malformed(cause));
  }
}
