/**
 * The tag manager: hashtag extraction, merging tags into a task, removing tags
 * from a task, and the union of all tasks' tags.
 */
module Tags {
  import opened Wrappers
  import opened Text
  import opened Seqs
  import opened Tasks

  /** A possible tag: one or more word characters. */
  predicate IsTagWord(s: string) {
    |s| > 0 && forall k :: 0 <= k < |s| ==> IsWordChar(s[k])
  }

  /** The longest run of word characters starting at position `i`. */
  function WordRun(text: string, i: nat): (r: string)
    requires i <= |text|
    ensures i + |r| <= |text| && r == text[i..i + |r|]
    ensures forall k :: 0 <= k < |r| ==> IsWordChar(r[k])
    ensures i + |r| == |text| || !IsWordChar(text[i + |r|])
    decreases |text| - i
  {
    if i < |text| && IsWordChar(text[i]) then [text[i]] + WordRun(text, i + 1) else []
  }

  /** A match of the pattern `#(\w+)` begins at `i`: a '#' followed by a word character. */
  predicate TagStartsAt(text: string, i: int) {
    0 <= i && i + 1 < |text| && text[i] == '#' && IsWordChar(text[i + 1])
  }

  /**
   * The tags of `text` from position `i` on, stated without a scan: the longest
   * word run after every '#' that is followed by a word character.
   */
  ghost function TagsFrom(text: string, i: nat): set<string>
    requires i <= |text|
  {
    set j | i <= j < |text| && TagStartsAt(text, j) :: WordRun(text, j + 1)
  }

  /**
   * `re.findall(r'#(\w+)', text[i..])`: scan left to right, and after each match
   * resume right behind it, collecting the group of every match.
   */
  function FindAll(text: string, i: nat): (r: seq<string>)
    requires i <= |text|
    ensures forall k :: 0 <= k < |r| ==> IsTagWord(r[k])
    ensures (forall j :: i <= j < |text| ==> text[j] != '#') ==> r == []
    decreases |text| - i
  {
    if i == |text| then []
    else if TagStartsAt(text, i) then
      var tag := WordRun(text, i + 1);
      [tag] + FindAll(text, i + 1 + |tag|)
    else FindAll(text, i + 1)
  }

  /** The scan finds exactly the tags the declarative description names. */
  lemma {:induction false} FindAllIsTagsFrom(text: string, i: nat)
    requires i <= |text|
    ensures (set t | t in FindAll(text, i)) == TagsFrom(text, i)
    decreases |text| - i
  {
    if i == |text| {
      assert TagsFrom(text, i) == {};
    } else if TagStartsAt(text, i) {
      var tag := WordRun(text, i + 1);
      var m := i + 1 + |tag|;
      FindAllIsTagsFrom(text, m);
      forall j | i < j < m
        ensures !TagStartsAt(text, j)
      {
        assert text[j] == tag[j - i - 1];
      }
      assert FindAll(text, i) == [tag] + FindAll(text, m);
      assert TagsFrom(text, i) == {tag} + TagsFrom(text, m);
    } else {
      FindAllIsTagsFrom(text, i + 1);
      assert TagsFrom(text, i) == TagsFrom(text, i + 1);
    }
  }

  /** `extract_tags`: the distinct tags of `text`. */
  function ExtractTags(text: string): (r: set<string>)
    ensures r == TagsFrom(text, 0)
    ensures forall t :: t in r ==> IsTagWord(t)
    ensures '#' !in text ==> r == {}
  {
    FindAllIsTagsFrom(text, 0);
    set t | t in FindAll(text, 0)
  }

  /**
   * `add_tags_to_task`: a task without a `tags` key gets the extracted tags; otherwise
   * they are appended and the list is de-duplicated. Nothing but `tags` changes.
   */
  function AddTagsToTask(task: Task, text: string): (r: Task)
    ensures r == task.(tags := r.tags)
    ensures r.tags.Some? && NoDup(r.tags.value)
    ensures task.tags.None? ==> forall t :: t in r.tags.value <==> t in ExtractTags(text)
    ensures task.tags.Some? ==>
      forall t :: t in r.tags.value <==> t in task.tags.value || t in ExtractTags(text)
  {
    var found := Distinct(FindAll(text, 0));
    DistinctSameElements(FindAll(text, 0));
    match task.tags
    case None => task.(tags := Some(found))
    case Some(current) =>
      DistinctSameElements(current + found);
      task.(tags := Some(Distinct(current + found)))
  }

  /**
   * `remove_tags_from_task`: drop every tag listed in `toRemove`, keep the rest in
   * order; a task without a `tags` key is returned unchanged.
   */
  function RemoveTagsFromTask(task: Task, toRemove: seq<string>): (r: Task)
    ensures r == task.(tags := r.tags)
    ensures task.tags.None? ==> r == task
    ensures task.tags.Some? ==> r.tags.Some? && IsSubsequence(r.tags.value, task.tags.value)
    ensures task.tags.Some? ==> forall t :: t in r.tags.value ==> t !in toRemove
    ensures task.tags.Some? ==>
      forall i :: 0 <= i < |task.tags.value| && task.tags.value[i] !in toRemove ==> task.tags.value[i] in r.tags.value
    ensures task.tags.Some? ==> multiset(r.tags.value) <= multiset(task.tags.value)
    ensures task.tags.Some? ==>
      forall i :: 0 <= i < |task.tags.value| && task.tags.value[i] !in toRemove ==>
        multiset(r.tags.value)[task.tags.value[i]] == multiset(task.tags.value)[task.tags.value[i]]
  {
    match task.tags
    case None => task
    case Some(tags) =>
      var keep := (t: string) => t !in toRemove;
      FilterCounts(tags, keep);
      task.(tags := Some(Filter(tags, keep)))
  }

  /** The tag `x` appears on some task among the first `n`. */
  ghost predicate TaggedAmong(tasks: seq<Task>, n: nat, x: string)
    requires n <= |tasks|
  {
    exists j :: 0 <= j < n && tasks[j].tags.Some? && x in tasks[j].tags.value
  }

  /** `get_all_tags`: the union of the tag lists of all tasks that have one. */
  method GetAllTags(tasks: seq<Task>) returns (all: set<string>)
    ensures forall x :: x in all <==> TaggedAmong(tasks, |tasks|, x)
    ensures tasks == [] ==> all == {}
  {
    all := {};
    for i := 0 to |tasks|
      invariant forall x :: x in all <==> TaggedAmong(tasks, i, x)
    {
      if tasks[i].tags.Some? {
        all := all + set t | t in tasks[i].tags.value;
      }
    }
  }

  /** A stretch without '#' yields no match, so the scan passes over it. */
  lemma {:induction false} FindAllSkips(text: string, i: nat, j: nat)
    requires i <= j <= |text|
    requires '#' !in text[i..j]
    ensures FindAll(text, i) == FindAll(text, j)
    decreases j - i
  {
    if i < j {
      assert text[i] == text[i..j][0];
      assert text[i + 1..j] == text[i..j][1..];
      FindAllSkips(text, i + 1, j);
    }
  }

  /** The word run at `i` is `w` when `w` is a run of word characters there that ends the word. */
  lemma {:induction false} WordRunIs(text: string, i: nat, w: string)
    requires i + |w| <= |text| && text[i..i + |w|] == w
    requires forall k :: 0 <= k < |w| ==> IsWordChar(w[k])
    requires i + |w| == |text| || !IsWordChar(text[i + |w|])
    ensures WordRun(text, i) == w
    decreases |w|
  {
    if w != [] {
      assert text[i] == w[0];
      WordRunIs(text, i + 1, w[1..]);
      assert text[i + 1..i + 1 + |w[1..]|] == w[1..];
    }
  }

  /** The scan of the sample text up to its first tag. */
  lemma SampleFirstTag(text: string)
    requires text == "Buy milk #grocery #urgent"
    ensures FindAll(text, 0) == ["grocery"] + FindAll(text, 17)
  {
    assert text[0..9] == "Buy milk ";
    FindAllSkips(text, 0, 9);
    assert text[10..17] == "grocery";
    WordRunIs(text, 10, "grocery");
    assert TagStartsAt(text, 9);
  }

  /** The scan of the sample text from the end of its first tag. */
  lemma SampleSecondTag(text: string)
    requires text == "Buy milk #grocery #urgent"
    ensures FindAll(text, 17) == ["urgent"]
  {
    assert text[17..18] == " ";
    FindAllSkips(text, 17, 18);
    assert text[19..25] == "urgent";
    WordRunIs(text, 19, "urgent");
    assert TagStartsAt(text, 18);
  }

  /** The tags of a sample text: each hashtag once, without its '#'. */
  lemma ExtractTagsSample(text: string)
    requires text == "Buy milk #grocery #urgent"
    ensures ExtractTags(text) == {"grocery", "urgent"}
  {
    SampleFirstTag(text);
    SampleSecondTag(text);
    assert FindAll(text, 0) == ["grocery", "urgent"];
  }
}
