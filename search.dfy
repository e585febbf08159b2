/**
 * The search engine: three order-preserving list filters (text, tag, status)
 * and the composite search that applies them in a fixed order.
 */
module Search {
  import opened Wrappers
  import opened Text
  import opened Seqs
  import opened Tasks

  /** `task.get('description', '')`: a task without a description reads as the empty string. */
  function DescriptionOrEmpty(task: Task): string {
    task.description.GetOr("")
  }

  /** The text test as stated: the lower-cased query occurs in the lower-cased title or description. */
  ghost predicate MatchesText(task: Task, query: string) {
    OccursIn(Lower(query), Lower(task.title)) || OccursIn(Lower(query), Lower(DescriptionOrEmpty(task)))
  }

  /** The tag test: the task has a tag list and `tag` is in it, exactly and case-sensitively. */
  predicate HasTag(task: Task, tag: string) {
    task.tags.Some? && tag in task.tags.value
  }

  /** The status test: the statuses agree once lower-cased. */
  predicate MatchesStatus(task: Task, status: string) {
    Lower(task.status) == Lower(status)
  }

  /** `search_by_text`: the tasks whose title or description contains the query, ignoring case. */
  function SearchByText(tasks: seq<Task>, query: string): (r: seq<Task>)
    ensures IsSubsequence(r, tasks)
    ensures forall i :: 0 <= i < |r| ==> r[i] in tasks
    ensures forall i :: 0 <= i < |r| ==> MatchesText(r[i], query)
    ensures forall i :: 0 <= i < |tasks| && MatchesText(tasks[i], query) ==> tasks[i] in r
    ensures multiset(r) <= multiset(tasks)
    ensures forall i :: 0 <= i < |tasks| && MatchesText(tasks[i], query) ==> multiset(r)[tasks[i]] == multiset(tasks)[tasks[i]]
  {
    var q := Lower(query);
    var keep := (t: Task) => Contains(Lower(t.title), q) || Contains(Lower(DescriptionOrEmpty(t)), q);
    FilterCounts(tasks, keep);
    Filter(tasks, keep)
  }

  /**
   * `search_by_tag`: every leading '#' of `tag` is dropped, then the tasks whose tag
   * list holds what remains are kept. A task with no tag list never matches.
   */
  function SearchByTag(tasks: seq<Task>, tag: string): (r: seq<Task>)
    ensures IsSubsequence(r, tasks)
    ensures forall i :: 0 <= i < |r| ==> r[i] in tasks
    ensures forall i :: 0 <= i < |r| ==> r[i].tags.Some? && LStrip(tag, '#') in r[i].tags.value
    ensures forall i :: 0 <= i < |tasks| && HasTag(tasks[i], LStrip(tag, '#')) ==> tasks[i] in r
    ensures multiset(r) <= multiset(tasks)
    ensures forall i :: 0 <= i < |tasks| && HasTag(tasks[i], LStrip(tag, '#')) ==> multiset(r)[tasks[i]] == multiset(tasks)[tasks[i]]
  {
    var bare := LStrip(tag, '#');
    var keep := (t: Task) => HasTag(t, bare);
    FilterCounts(tasks, keep);
    Filter(tasks, keep)
  }

  /** `search_by_status`: the tasks whose status equals `status`, ignoring case. */
  function SearchByStatus(tasks: seq<Task>, status: string): (r: seq<Task>)
    ensures IsSubsequence(r, tasks)
    ensures forall i :: 0 <= i < |r| ==> r[i] in tasks
    ensures forall i :: 0 <= i < |r| ==> MatchesStatus(r[i], status)
    ensures forall i :: 0 <= i < |tasks| && MatchesStatus(tasks[i], status) ==> tasks[i] in r
    ensures multiset(r) <= multiset(tasks)
    ensures forall i :: 0 <= i < |tasks| && MatchesStatus(tasks[i], status) ==> multiset(r)[tasks[i]] == multiset(tasks)[tasks[i]]
  {
    var s := Lower(status);
    var keep := (t: Task) => Lower(t.status) == s;
    FilterCounts(tasks, keep);
    Filter(tasks, keep)
  }

  /** The empty query occurs in every text, so it keeps every task. */
  lemma EmptyQueryKeepsAll(tasks: seq<Task>)
    ensures SearchByText(tasks, "") == tasks
  {
    var q := Lower("");
    forall i | 0 <= i < |tasks|
      ensures Contains(Lower(tasks[i].title), q)
    {
      assert OccursAt(q, Lower(tasks[i].title), 0);
    }
    FilterKeepsAll(tasks, (t: Task) => Contains(Lower(t.title), q) || Contains(Lower(DescriptionOrEmpty(t)), q));
  }

  /** `"#x"`, `"##x"` and `"x"` select the same tasks. */
  lemma {:induction false} LeadingHashIgnored(tasks: seq<Task>, tag: string)
    ensures SearchByTag(tasks, "#" + tag) == SearchByTag(tasks, tag)
  {
    assert ("#" + tag)[1..] == tag;
  }

  /** Each primitive filter is idempotent. */
  lemma FiltersIdempotent(tasks: seq<Task>, query: string, tag: string, status: string)
    ensures SearchByText(SearchByText(tasks, query), query) == SearchByText(tasks, query)
    ensures SearchByTag(SearchByTag(tasks, tag), tag) == SearchByTag(tasks, tag)
    ensures SearchByStatus(SearchByStatus(tasks, status), status) == SearchByStatus(tasks, status)
  {
    var q, bare, s := Lower(query), LStrip(tag, '#'), Lower(status);
    FilterIdempotent(tasks, (t: Task) => Contains(Lower(t.title), q) || Contains(Lower(DescriptionOrEmpty(t)), q));
    FilterIdempotent(tasks, (t: Task) => HasTag(t, bare));
    FilterIdempotent(tasks, (t: Task) => Lower(t.status) == s);
  }

  /** The criteria of a composite search; an absent one does not narrow the result. */
  datatype Filters = Filters(text: Option<string>, tags: Option<seq<string>>, status: Option<string>)

  /** The task carries every tag of `tags` (each with its leading '#' stripped). */
  ghost predicate HasAllTags(task: Task, tags: seq<string>) {
    forall k :: 0 <= k < |tags| ==> HasTag(task, LStrip(tags[k], '#'))
  }

  /** The composite test: the text test if given, every listed tag, and the status test if given. */
  ghost predicate Matches(filters: Filters, task: Task) {
    && (filters.text.Some? ==> MatchesText(task, filters.text.value))
    && (filters.tags.Some? ==> HasAllTags(task, filters.tags.value))
    && (filters.status.Some? ==> MatchesStatus(task, filters.status.value))
  }

  /**
   * After the tag filter has run for the first `n` tags, `result` holds exactly the
   * tasks of `textStage` that carry those `n` tags.
   */
  ghost predicate TagStage(result: seq<Task>, textStage: seq<Task>, tags: seq<string>, n: nat)
    requires n <= |tags|
  {
    && (forall i :: 0 <= i < |result| ==> result[i] in textStage && HasAllTags(result[i], tags[..n]))
    && (forall i :: 0 <= i < |textStage| && HasAllTags(textStage[i], tags[..n]) ==> textStage[i] in result)
    && multiset(result) <= multiset(textStage)
    && (forall i :: 0 <= i < |textStage| && HasAllTags(textStage[i], tags[..n]) ==>
          multiset(result)[textStage[i]] == multiset(textStage)[textStage[i]])
  }

  /** Carrying the first `n + 1` tags is carrying the first `n` and then tag `n`. */
  lemma HasAllTagsStep(task: Task, tags: seq<string>, n: nat)
    requires n < |tags|
    ensures HasAllTags(task, tags[..n + 1]) <==> HasAllTags(task, tags[..n]) && HasTag(task, LStrip(tags[n], '#'))
  {
    assert tags[..n + 1] == tags[..n] + [tags[n]];
    if HasAllTags(task, tags[..n + 1]) {
      forall k | 0 <= k < n
        ensures HasTag(task, LStrip(tags[..n][k], '#'))
      {
        assert tags[..n][k] == tags[..n + 1][k];
      }
      assert tags[..n + 1][n] == tags[n];
    }
  }

  /** One more pass of the tag filter extends the stage by one tag. */
  lemma TagStageStep(result: seq<Task>, textStage: seq<Task>, tags: seq<string>, n: nat)
    requires n < |tags| && TagStage(result, textStage, tags, n)
    ensures TagStage(SearchByTag(result, tags[n]), textStage, tags, n + 1)
  {
    var narrowed := SearchByTag(result, tags[n]);
    var bare := LStrip(tags[n], '#');
    forall i | 0 <= i < |narrowed|
      ensures narrowed[i] in textStage && HasAllTags(narrowed[i], tags[..n + 1])
    {
      var j :| 0 <= j < |result| && result[j] == narrowed[i];
      HasAllTagsStep(narrowed[i], tags, n);
    }
    forall i | 0 <= i < |textStage| && HasAllTags(textStage[i], tags[..n + 1])
      ensures textStage[i] in narrowed
      ensures multiset(narrowed)[textStage[i]] == multiset(textStage)[textStage[i]]
    {
      HasAllTagsStep(textStage[i], tags, n);
      var j :| 0 <= j < |result| && result[j] == textStage[i];
      assert HasTag(result[j], bare);
    }
  }

  /** What the tag loop leaves, followed by the status filter, is what the composite test selects. */
  lemma AdvancedSearchResult(tasks: seq<Task>, filters: Filters, textStage: seq<Task>, tagStage: seq<Task>,
                             result: seq<Task>)
    requires filters.text.Some? ==> textStage == SearchByText(tasks, filters.text.value)
    requires filters.text.None? ==> textStage == tasks
    requires filters.tags.Some? ==> TagStage(tagStage, textStage, filters.tags.value, |filters.tags.value|)
    requires filters.tags.None? ==> tagStage == textStage
    requires filters.status.Some? ==> result == SearchByStatus(tagStage, filters.status.value)
    requires filters.status.None? ==> result == tagStage
    ensures forall i :: 0 <= i < |result| ==> Matches(filters, result[i])
    ensures forall i :: 0 <= i < |tasks| && Matches(filters, tasks[i]) ==> tasks[i] in result
    ensures multiset(result) <= multiset(tasks)
    ensures forall i :: 0 <= i < |tasks| && Matches(filters, tasks[i]) ==>
      multiset(result)[tasks[i]] == multiset(tasks)[tasks[i]]
  {
    if filters.tags.Some? {
      assert filters.tags.value[..|filters.tags.value|] == filters.tags.value;
    }
    forall i | 0 <= i < |result|
      ensures Matches(filters, result[i])
    {
      assert result[i] in tagStage;
      var j :| 0 <= j < |tagStage| && tagStage[j] == result[i];
      assert tagStage[j] in textStage;
    }
    forall i | 0 <= i < |tasks| && Matches(filters, tasks[i])
      ensures tasks[i] in result
    {
      assert tasks[i] in textStage;
      var j :| 0 <= j < |textStage| && textStage[j] == tasks[i];
      assert tasks[i] in tagStage;
    }
  }

  /** The loop of `advanced_search` that runs the tag filter once per listed tag. */
  method NarrowByTags(tasks: seq<Task>, tags: seq<string>) returns (result: seq<Task>)
    ensures IsSubsequence(result, tasks)
    ensures TagStage(result, tasks, tags, |tags|)
    ensures tags == [] ==> result == tasks
  {
    result := tasks;
    SubsequenceRefl(tasks);
    for n := 0 to |tags|
      invariant IsSubsequence(result, tasks)
      invariant TagStage(result, tasks, tags, n)
      invariant n == 0 ==> result == tasks
    {
      var narrowed := SearchByTag(result, tags[n]);
      SubsequenceTrans(narrowed, result, tasks);
      TagStageStep(result, tasks, tags, n);
      result := narrowed;
    }
  }

  /**
   * `advanced_search`: the text filter, then the tag filter once per listed tag, then
   * the status filter. The result keeps, in order, exactly the tasks passing all of them.
   */
  method AdvancedSearch(tasks: seq<Task>, filters: Filters) returns (result: seq<Task>)
    ensures IsSubsequence(result, tasks)
    ensures forall i :: 0 <= i < |result| ==> Matches(filters, result[i])
    ensures forall i :: 0 <= i < |tasks| && Matches(filters, tasks[i]) ==> tasks[i] in result
    ensures multiset(result) <= multiset(tasks)
    ensures forall i :: 0 <= i < |tasks| && Matches(filters, tasks[i]) ==>
      multiset(result)[tasks[i]] == multiset(tasks)[tasks[i]]
    ensures filters.text.None? && (filters.tags.None? || filters.tags == Some([])) && filters.status.None?
            ==> result == tasks
  {
    result := tasks;
    SubsequenceRefl(tasks);
    if filters.text.Some? {
      result := SearchByText(result, filters.text.value);
    }
    ghost var textStage := result;
    if filters.tags.Some? {
      result := NarrowByTags(result, filters.tags.value);
      SubsequenceTrans(result, textStage, tasks);
    }
    ghost var tagStage := result;
    if filters.status.Some? {
      var narrowed := SearchByStatus(result, filters.status.value);
      SubsequenceTrans(narrowed, result, tasks);
      result := narrowed;
    }
    AdvancedSearchResult(tasks, filters, textStage, tagStage, result);
  }
}
