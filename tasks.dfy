/**
 * The task record both stores keep, and the lookup by id they share.
 */
module Tasks {
  import opened Wrappers

  /**
   * One task. `description` is None when the record has no `description` key and
   * `tags` is None when it has no `tags` key: the two stores and the filters tell
   * those apart from the empty string and the empty list. `createdAt` stands for the
   * creation timestamp; a larger value is a later moment.
   */
  datatype Task = Task(
    id: int,
    title: string,
    description: Option<string>,
    status: string,
    createdAt: nat,
    tags: Option<seq<string>>)

  /** Position `i` holds the first task with id `id`. */
  ghost predicate IsFirstWithId(tasks: seq<Task>, id: int, i: int) {
    0 <= i < |tasks| && tasks[i].id == id && forall j :: 0 <= j < i ==> tasks[j].id != id
  }

  /** Some task has id `id`. */
  ghost predicate HasId(tasks: seq<Task>, id: int) {
    exists i :: 0 <= i < |tasks| && tasks[i].id == id
  }

  /** The position a front-to-back scan for id `id` stops at, if any. */
  function FirstIndex(tasks: seq<Task>, id: int): (r: Option<nat>)
    ensures r.Some? ==> IsFirstWithId(tasks, id, r.value)
    ensures r.None? <==> !HasId(tasks, id)
  {
    if tasks == [] then None
    else if tasks[0].id == id then Some(0)
    else
      match FirstIndex(tasks[1..], id)
      case None =>
        assert forall i :: 1 <= i < |tasks| ==> tasks[i] == tasks[1..][i - 1];
        None
      case Some(k) =>
        assert tasks[k + 1] == tasks[1..][k];
        Some(k + 1)
  }

  /** No two tasks share an id. */
  ghost predicate IdsUnique(tasks: seq<Task>) {
    forall i, j :: 0 <= i < j < |tasks| ==> tasks[i].id != tasks[j].id
  }

  /** The ids are 1, 2, ..., n in list order, as a run of adds without deletes leaves them. */
  ghost predicate IdsSequential(tasks: seq<Task>) {
    forall i :: 0 <= i < |tasks| ==> tasks[i].id == i + 1
  }

  /** The list with position `i` removed, the rest in order. */
  function RemoveAt(tasks: seq<Task>, i: nat): (r: seq<Task>)
    requires i < |tasks|
    ensures |r| == |tasks| - 1
    ensures forall j :: 0 <= j < i ==> r[j] == tasks[j]
    ensures forall j :: i <= j < |r| ==> r[j] == tasks[j + 1]
  {
    tasks[..i] + tasks[i + 1..]
  }

  /** Position `k` holds the first element equal to `x`. */
  ghost predicate IsFirstOccurrence(tasks: seq<Task>, x: Task, k: int) {
    0 <= k < |tasks| && tasks[k] == x && forall j :: 0 <= j < k ==> tasks[j] != x
  }

  /** `list.remove(x)`: the first element equal to `x` is taken out, the rest keep their order. */
  function RemoveFirst(tasks: seq<Task>, x: Task): (r: seq<Task>)
    requires x in tasks
    ensures |r| == |tasks| - 1
    ensures multiset(r) == multiset(tasks) - multiset{x}
    ensures forall k :: IsFirstOccurrence(tasks, x, k) ==> r == RemoveAt(tasks, k)
  {
    assert tasks == [tasks[0]] + tasks[1..];
    if tasks[0] == x then
      tasks[1..]
    else
      var rest := RemoveFirst(tasks[1..], x);
      RemoveFirstStep(tasks, x, rest);
      [tasks[0]] + rest
  }

  /** Past a head that differs from `x`, the first occurrence of `x` is one position further on. */
  lemma RemoveFirstStep(tasks: seq<Task>, x: Task, rest: seq<Task>)
    requires tasks != [] && tasks[0] != x
    requires forall k :: IsFirstOccurrence(tasks[1..], x, k) ==> rest == RemoveAt(tasks[1..], k)
    ensures forall k :: IsFirstOccurrence(tasks, x, k) ==> [tasks[0]] + rest == RemoveAt(tasks, k)
  {
    forall k | IsFirstOccurrence(tasks, x, k)
      ensures [tasks[0]] + rest == RemoveAt(tasks, k)
    {
      assert IsFirstOccurrence(tasks[1..], x, k - 1);
      assert [tasks[0]] + RemoveAt(tasks[1..], k - 1) == RemoveAt(tasks, k);
    }
  }

  /**
   * Removing by equality the first task with a given id removes exactly its position:
   * no earlier task can equal it, since every earlier task has another id.
   */
  lemma {:induction false} RemoveFirstWithId(tasks: seq<Task>, id: int, i: nat)
    requires IsFirstWithId(tasks, id, i)
    ensures RemoveFirst(tasks, tasks[i]) == RemoveAt(tasks, i)
  {
    if i > 0 {
      assert IsFirstWithId(tasks[1..], id, i - 1);
      RemoveFirstWithId(tasks[1..], id, i - 1);
      assert tasks[1..][i - 1] == tasks[i];
      assert RemoveAt(tasks, i) == [tasks[0]] + RemoveAt(tasks[1..], i - 1);
    }
  }

  /** What the task file holds when a store starts: no file, an unreadable or unparsable one, or a task list. */
  datatype TaskFile = Missing | Unreadable(cause: string) | Malformed(cause: string) | Stored(tasks: seq<Task>)
}
