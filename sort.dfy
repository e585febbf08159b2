/**
 * `sort_by_status_and_date`: two passes of Python's stable `sorted`, first by
 * creation time with `reverse=True`, then by "status is exactly 'Completed'".
 */
module Sort {
  import opened Seqs
  import opened Tasks

  /** Insert `x` in front of the first element whose key is not smaller than its own. */
  function Insert<T>(x: T, s: seq<T>, key: T -> int): (r: seq<T>)
    ensures |r| == |s| + 1
    ensures multiset(r) == multiset(s) + multiset{x}
  {
    if s == [] || key(x) <= key(s[0]) then [x] + s
    else
      assert s == [s[0]] + s[1..];
      [s[0]] + Insert(x, s[1..], key)
  }

  /** Python's `sorted(s, key=key)`: ascending by key, and stable (insertion sort from the back). */
  function SortBy<T>(s: seq<T>, key: T -> int): (r: seq<T>)
    ensures |r| == |s|
    ensures multiset(r) == multiset(s)
  {
    if s == [] then []
    else
      assert s == [s[0]] + s[1..];
      Insert(s[0], SortBy(s[1..], key), key)
  }

  /** Ascending by `key`. */
  ghost predicate SortedBy<T>(s: seq<T>, key: T -> int) {
    forall i, j :: 0 <= i < j < |s| ==> key(s[i]) <= key(s[j])
  }

  /** Ascending by `k1`, and ascending by `k2` among elements with equal `k1`. */
  ghost predicate LexSorted<T>(s: seq<T>, k1: T -> int, k2: T -> int) {
    forall i, j :: 0 <= i < j < |s| ==>
      k1(s[i]) < k1(s[j]) || (k1(s[i]) == k1(s[j]) && k2(s[i]) <= k2(s[j]))
  }

  /** An element of `Insert(x, s, key)` is `x` or an element of `s`. */
  lemma InsertMember<T>(x: T, s: seq<T>, key: T -> int, y: T)
    requires y in Insert(x, s, key)
    ensures y == x || y in s
  {
    assert y in multiset(Insert(x, s, key));
  }

  /**
   * Inserting `x` into a list sorted by `(k1, k2)`, when `x` has the least `k2` of all,
   * by `k1` alone keeps the list sorted by `(k1, k2)`.
   */
  lemma {:induction false} InsertLexSorted<T>(x: T, s: seq<T>, k1: T -> int, k2: T -> int)
    requires LexSorted(s, k1, k2)
    requires forall i :: 0 <= i < |s| ==> k2(x) <= k2(s[i])
    ensures LexSorted(Insert(x, s, k1), k1, k2)
  {
    var r := Insert(x, s, k1);
    if s == [] || k1(x) <= k1(s[0]) {
      assert r == [x] + s;
      forall j | 1 <= j < |r|
        ensures k1(x) < k1(r[j]) || (k1(x) == k1(r[j]) && k2(x) <= k2(r[j]))
      {
        assert r[j] == s[j - 1];
        if j > 1 {
          assert k1(s[0]) <= k1(s[j - 1]);
        }
      }
    } else {
      var rest := Insert(x, s[1..], k1);
      InsertLexSorted(x, s[1..], k1, k2);
      assert r == [s[0]] + rest;
      forall j | 1 <= j < |r|
        ensures k1(s[0]) < k1(r[j]) || (k1(s[0]) == k1(r[j]) && k2(s[0]) <= k2(r[j]))
      {
        assert r[j] == rest[j - 1];
        InsertMember(x, s[1..], k1, rest[j - 1]);
        if rest[j - 1] != x {
          var m :| 0 <= m < |s[1..]| && s[1..][m] == rest[j - 1];
          assert s[m + 1] == rest[j - 1];
        }
      }
    }
  }

  /** Sorting by `k1` a list already sorted by `k2` leaves it sorted by `(k1, k2)`. */
  lemma {:induction false} SortByLexSorted<T>(s: seq<T>, k1: T -> int, k2: T -> int)
    requires SortedBy(s, k2)
    ensures LexSorted(SortBy(s, k1), k1, k2)
  {
    if s != [] {
      var rest := SortBy(s[1..], k1);
      SortByLexSorted(s[1..], k1, k2);
      forall i | 0 <= i < |rest|
        ensures k2(s[0]) <= k2(rest[i])
      {
        assert rest[i] in multiset(s[1..]);
        var m :| 0 <= m < |s[1..]| && s[1..][m] == rest[i];
        assert s[m + 1] == rest[i];
      }
      InsertLexSorted(s[0], rest, k1, k2);
    }
  }

  /** Sorting by `key` sorts by `key`. */
  lemma {:induction false} SortBySorted<T>(s: seq<T>, key: T -> int)
    ensures SortedBy(SortBy(s, key), key)
  {
    var zero := (x: T) => 0;
    SortByLexSorted(s, key, zero);
  }

  /** Inserting `x` puts it among the elements `p` selects exactly where stability wants it: first. */
  lemma {:induction false} InsertStable<T>(x: T, s: seq<T>, key: T -> int, p: T -> bool, c: int)
    requires forall a :: p(a) ==> key(a) == c
    ensures Filter(Insert(x, s, key), p) == (if p(x) then [x] else []) + Filter(s, p)
  {
    if s == [] || key(x) <= key(s[0]) {
      FilterCons(x, s, p);
    } else {
      var px: seq<T> := if p(x) then [x] else [];
      var ph: seq<T> := if p(s[0]) then [s[0]] else [];
      assert !(p(x) && p(s[0]));
      calc {
        Filter(Insert(x, s, key), p);
        Filter([s[0]] + Insert(x, s[1..], key), p);
        { FilterCons(s[0], Insert(x, s[1..], key), p); }
        ph + Filter(Insert(x, s[1..], key), p);
        { InsertStable(x, s[1..], key, p, c); }
        ph + (px + Filter(s[1..], p));
        px + (ph + Filter(s[1..], p));
        { FilterCons(s[0], s[1..], p); assert [s[0]] + s[1..] == s; }
        px + Filter(s, p);
      }
    }
  }

  /** Stability: the elements of one key class keep their relative order. */
  lemma {:induction false} SortByStable<T>(s: seq<T>, key: T -> int, p: T -> bool, c: int)
    requires forall a :: p(a) ==> key(a) == c
    ensures Filter(SortBy(s, key), p) == Filter(s, p)
  {
    if s != [] {
      SortByStable(s[1..], key, p, c);
      InsertStable(s[0], SortBy(s[1..], key), key, p, c);
    }
  }

  /** The status is exactly 'Completed'; any other spelling sorts with the pending tasks. */
  predicate IsCompleted(task: Task) {
    task.status == "Completed"
  }

  /** The key of the second pass: pending (0) before completed (1). */
  function StatusKey(task: Task): int {
    if IsCompleted(task) then 1 else 0
  }

  /** The key of the first pass: `reverse=True` on the creation time is ascending on its negation. */
  function NewestFirstKey(task: Task): int {
    0 - task.createdAt as int
  }

  /**
   * `sort_by_status_and_date`: a permutation of the input in which every task not
   * exactly 'Completed' precedes every 'Completed' one, and each group runs newest first.
   */
  function SortByStatusAndDate(tasks: seq<Task>): (r: seq<Task>)
    ensures |r| == |tasks| && multiset(r) == multiset(tasks)
    ensures forall i, j :: 0 <= i < j < |r| && IsCompleted(r[i]) ==> IsCompleted(r[j])
    ensures forall i, j :: 0 <= i < j < |r| && IsCompleted(r[i]) == IsCompleted(r[j]) ==>
      r[i].createdAt >= r[j].createdAt
  {
    var byDate := SortBy(tasks, NewestFirstKey);
    SortBySorted(tasks, NewestFirstKey);
    SortByLexSorted(byDate, StatusKey, NewestFirstKey);
    SortBy(byDate, StatusKey)
  }

  /** Tasks `p` selects, when they share the completed flag and the creation time, keep their input order. */
  lemma SortByStatusAndDateStable(tasks: seq<Task>, p: Task -> bool)
    requires forall a, b :: p(a) && p(b) ==> IsCompleted(a) == IsCompleted(b) && a.createdAt == b.createdAt
    ensures Filter(SortByStatusAndDate(tasks), p) == Filter(tasks, p)
  {
    if exists a :: p(a) {
      var a :| p(a);
      SortByStable(SortBy(tasks, NewestFirstKey), StatusKey, p, StatusKey(a));
      SortByStable(tasks, NewestFirstKey, p, NewestFirstKey(a));
    } else {
      SortByStable(SortBy(tasks, NewestFirstKey), StatusKey, p, 0);
      SortByStable(tasks, NewestFirstKey, p, 0);
    }
  }

  /** The status test is case-sensitive: a 'completed' task sorts ahead of a 'Completed' one. */
  lemma LowercaseCompletedSortsAsPending(done: Task, other: Task)
    requires done.status == "Completed" && other.status == "completed"
    ensures SortByStatusAndDate([done, other]) == [other, done]
  {
    var r := SortByStatusAndDate([done, other]);
    assert !IsCompleted(other);
    assert r[0] in multiset([done, other]) && r[1] in multiset([done, other]);
  }
}
