/** The status filter of the home page (app/page.js): the list the page
    renders for the chosen filter button, computed from the loaded task list. */
module HomePage {
  import opened Optional
  import opened TaskRecords
  import opened Ranking
  import opened Tasks

  /** The filter that shows every task. */
  const All: string := "all"

  /** The `useMemo` callback: nothing before the data has arrived, the whole
      list for `all`, otherwise the tasks whose status equals the filter. */
  function FilterTasks(data: Option<TaskList>, filter: string): (r: seq<ScoredTask>)
    ensures data.None? ==> r == []
    ensures data.Some? && filter == All ==> r == data.value.tasks
    ensures data.Some? && filter != All ==> forall i :: 0 <= i < |r| ==> r[i].status == filter
    ensures data.Some? ==> multiset(r) <= multiset(data.value.tasks)
  {
    match data
    case None => []
    case Some(d) => if filter == All then d.tasks else WithStatus(d.tasks, filter)
  }

  /** A filter keeps the order of the list and drops no task whose status
      matches it. */
  lemma FilterKeepsOrderAndMatches(d: TaskList, filter: string)
    ensures IsSubsequence(FilterTasks(Some(d), filter), d.tasks)
    ensures forall t: ScoredTask :: t.status == filter ==>
      multiset(FilterTasks(Some(d), filter))[t] == multiset(d.tasks)[t]
  {
    var r := FilterTasks(Some(d), filter);
    if filter == All {
      SubsequenceOfItself(d.tasks);
    } else {
      WithStatusIsSubsequence(d.tasks, filter);
      forall t: ScoredTask | t.status == filter
        ensures multiset(r)[t] == multiset(d.tasks)[t]
      {
        WithStatusKeepsMatches(d.tasks, filter, t);
      }
    }
  }

  /** The filtered view of a list sorted highest score first is still sorted. */
  lemma FilterStaysSorted(d: TaskList, filter: string)
    requires SortedByScore(d.tasks)
    ensures SortedByScore(FilterTasks(Some(d), filter))
  {
    FilterKeepsOrderAndMatches(d, filter);
    SubsequenceOfSorted(FilterTasks(Some(d), filter), d.tasks);
  }

  lemma {:induction false} SubsequenceOfItself(s: seq<ScoredTask>)
    ensures IsSubsequence(s, s)
  {
    if |s| > 0 {
      SubsequenceOfItself(s[1..]);
    }
  }

  /** On the loaded board, each status button shows exactly as many tasks as
      the summary counts for that status. */
  lemma FilterMatchesSummary(parsed: Option<Document>)
    ensures var d := LoadTasks(parsed);
      && |FilterTasks(Some(d), Todo)| == d.summary.todo
      && |FilterTasks(Some(d), InProgress)| == d.summary.inProgress
      && |FilterTasks(Some(d), Done)| == d.summary.done
      && |FilterTasks(Some(d), Blocked)| == d.summary.blocked
      && |FilterTasks(Some(d), All)| == d.summary.total
  {
  }

  /** Filtering the filtered list again by the same value changes nothing. */
  lemma FilterIdempotent(d: TaskList, filter: string)
    ensures FilterTasks(Some(d.(tasks := FilterTasks(Some(d), filter))), filter) == FilterTasks(Some(d), filter)
  {
    if filter != All {
      WithStatusIdempotent(d.tasks, filter);
    }
  }
}
