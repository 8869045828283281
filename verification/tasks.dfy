/** `loadTasks` of lib/tasks.js, starting from the already parsed task file:
    score every task, sort highest score first, and summarise. */
module Tasks {
  import opened Optional
  import opened Rice
  import opened TaskRecords
  import opened Ranking

  /** What the YAML parser returns for the task file: the `tasks` list and
      the `updated_at` stamp, each possibly missing. */
  datatype Document = Document(tasks: Option<seq<Task>>, updatedAt: Option<string>)

  /** The `summary` object: the number of tasks, one count per known status,
      and the top score. */
  datatype Summary = Summary(
    total: nat,
    todo: nat,
    inProgress: nat,
    done: nat,
    blocked: nat,
    topScore: real)

  /** The object `loadTasks` returns. */
  datatype TaskList = TaskList(updatedAt: Option<string>, tasks: seq<ScoredTask>, summary: Summary)

  /** `(yaml.load(raw) || {}).tasks || []`: an empty file or a missing `tasks`
      key both give no tasks. */
  function RawTasks(parsed: Option<Document>): (r: seq<Task>)
    ensures r != [] ==> parsed.Some? && parsed.value.tasks == Some(r)
    ensures parsed.Some? && parsed.value.tasks.Some? ==> r == parsed.value.tasks.value
  {
    match parsed
    case None => []
    case Some(d) => d.tasks.GetOr([])
  }

  /** `(yaml.load(raw) || {}).updated_at`, passed through untouched. */
  function UpdatedAt(parsed: Option<Document>): (r: Option<string>)
    ensures r.Some? ==> parsed.Some? && parsed.value.updatedAt == r
    ensures parsed.Some? ==> r == parsed.value.updatedAt
  {
    match parsed
    case None => None
    case Some(d) => d.updatedAt
  }

  /** `tasks[0]?.score || 0`: no first task, or a falsy first score, gives 0. */
  function TopScore(ts: seq<ScoredTask>): (r: real)
    ensures |ts| == 0 ==> r == 0.0
    ensures |ts| > 0 ==> r == ts[0].score
  {
    if |ts| == 0 || ts[0].score == 0.0 then 0.0 else ts[0].score
  }

  function Summarize(ts: seq<ScoredTask>): (s: Summary)
    ensures s.total == |ts|
    ensures s.todo + s.inProgress + s.done + s.blocked <= s.total
    ensures s.todo == |WithStatus(ts, Todo)| && s.inProgress == |WithStatus(ts, InProgress)|
    ensures s.done == |WithStatus(ts, Done)| && s.blocked == |WithStatus(ts, Blocked)|
    ensures s.topScore == TopScore(ts)
  {
    StatusCountsBound(ts);
    CountIsFilterLength(ts, Todo);
    CountIsFilterLength(ts, InProgress);
    CountIsFilterLength(ts, Done);
    CountIsFilterLength(ts, Blocked);
    Summary(|ts|, Count(ts, Todo), Count(ts, InProgress), Count(ts, Done), Count(ts, Blocked), TopScore(ts))
  }

  function LoadTasks(parsed: Option<Document>): (r: TaskList)
    ensures |r.tasks| == |RawTasks(parsed)| == r.summary.total
    ensures multiset(r.tasks) == multiset(ScoreAll(RawTasks(parsed)))
    ensures SortedByScore(r.tasks)
    ensures r.updatedAt == UpdatedAt(parsed)
  {
    var tasks := SortByScore(ScoreAll(RawTasks(parsed)));
    TaskList(UpdatedAt(parsed), tasks, Summarize(tasks))
  }

  /** No document, or no `tasks` key, gives an empty board with zero counts. */
  lemma LoadTasksEmpty(parsed: Option<Document>)
    requires parsed.None? || parsed.value.tasks.None?
    ensures LoadTasks(parsed).tasks == []
    ensures LoadTasks(parsed).summary == Summary(0, 0, 0, 0, 0, 0.0)
  {
  }

  /** Every returned task is the scoring of an input task, so only
      `framework` and `score` differ from what the file holds, and every
      input task is returned. */
  lemma LoadTasksOnePerInput(parsed: Option<Document>)
    ensures forall t :: t in LoadTasks(parsed).tasks ==>
      exists u :: u in RawTasks(parsed) && t == ScoreTask(u)
    ensures forall u :: u in RawTasks(parsed) ==> ScoreTask(u) in LoadTasks(parsed).tasks
  {
    SameMembers(LoadTasks(parsed).tasks, ScoreAll(RawTasks(parsed)));
    ScoreAllMembers(RawTasks(parsed));
  }

  /** Tasks with equal scores come out in file order, and the list is the
      only one ordered by score that does so. */
  lemma LoadTasksStable(parsed: Option<Document>, other: seq<ScoredTask>)
    ensures SameTieOrder(LoadTasks(parsed).tasks, ScoreAll(RawTasks(parsed)))
    ensures SortedByScore(other) && SameTieOrder(other, ScoreAll(RawTasks(parsed))) ==>
      other == LoadTasks(parsed).tasks
  {
    SortByScoreIsStable(ScoreAll(RawTasks(parsed)));
    if SortedByScore(other) && SameTieOrder(other, ScoreAll(RawTasks(parsed))) {
      SortByScoreIsTheStableSort(ScoreAll(RawTasks(parsed)), other);
    }
  }

  /** Each status count is the number of tasks in the file with that status,
      whatever order the sort put them in. */
  lemma LoadTasksCounts(parsed: Option<Document>)
    ensures var r := LoadTasks(parsed); var scored := ScoreAll(RawTasks(parsed));
      && r.summary.todo == Count(scored, Todo)
      && r.summary.inProgress == Count(scored, InProgress)
      && r.summary.done == Count(scored, Done)
      && r.summary.blocked == Count(scored, Blocked)
  {
    var r := LoadTasks(parsed);
    var scored := ScoreAll(RawTasks(parsed));
    CountPermutation(r.tasks, scored, Todo);
    CountPermutation(r.tasks, scored, InProgress);
    CountPermutation(r.tasks, scored, Done);
    CountPermutation(r.tasks, scored, Blocked);
  }

  /** The four counts add up to the total exactly when every task in the file
      has one of the four known statuses. */
  lemma LoadTasksCountsAddUp(parsed: Option<Document>)
    ensures var s := LoadTasks(parsed).summary; var raw := RawTasks(parsed);
      s.todo + s.inProgress + s.done + s.blocked == s.total
      <==> forall i :: 0 <= i < |raw| ==> KnownStatus(raw[i].status)
  {
    var r := LoadTasks(parsed);
    var raw := RawTasks(parsed);
    StatusCountsBound(r.tasks);
    AllKnownPermutation(r.tasks, ScoreAll(raw));
    AllKnownScored(raw);
  }

  /** The top score is the highest score of any task in the file, and 0 for
      an empty file. */
  lemma LoadTasksTopScore(parsed: Option<Document>)
    ensures var r := LoadTasks(parsed); var scored := ScoreAll(RawTasks(parsed));
      && (|scored| == 0 ==> r.summary.topScore == 0.0)
      && (|scored| > 0 ==> exists t :: t in scored && t.score == r.summary.topScore)
      && (forall t :: t in scored ==> t.score <= r.summary.topScore)
  {
    var r := LoadTasks(parsed);
    var scored := ScoreAll(RawTasks(parsed));
    if |scored| > 0 {
      SortedHeadIsMax(r.tasks, scored);
    }
  }

  /** A worked board: 3 × 2 × 0.8 / 2 scores 2.4, an all-ones task scores 1,
      and the higher score is listed first whatever the file order. */
  lemma ExampleBoard()
    ensures
      var t1 := Task("t1", "Ship", Todo, "ann", "", map[], Some(RawRice(Some(3.0), Some(2.0), Some(0.8), Some(2.0))));
      var t2 := Task("t2", "Fix", Done, "bob", "", map[], Some(RawRice(Some(1.0), Some(1.0), Some(1.0), Some(1.0))));
      var r := LoadTasks(Some(Document(Some([t2, t1]), None)));
      && |r.tasks| == 2
      && r.tasks[0].id == "t1" && r.tasks[0].score == 2.4
      && r.tasks[1].id == "t2" && r.tasks[1].score == 1.0
      && r.summary == Summary(2, 1, 0, 1, 0, 2.4)
  {
    var t1 := Task("t1", "Ship", Todo, "ann", "", map[], Some(RawRice(Some(3.0), Some(2.0), Some(0.8), Some(2.0))));
    var t2 := Task("t2", "Fix", Done, "bob", "", map[], Some(RawRice(Some(1.0), Some(1.0), Some(1.0), Some(1.0))));
    var p1, p2 := Params(3.0, 2.0, 0.8, 2.0), Params(1.0, 1.0, 1.0, 1.0);
    assert Normalize(t1.framework) == p1;
    assert Normalize(t2.framework) == p2;
    assert Product(p1) == 4.8;
    assert (240.5).Floor == 240;
    assert Score(p1) == 2.4;
    assert (100.5).Floor == 100;
    assert Score(p2) == 1.0;
    var s1, s2 := ScoreTask(t1), ScoreTask(t2);
    assert ScoreAll([t2, t1]) == [s2, s1];
    assert SortByScore([s2]) == [s2];
    assert [s2, s1][..1] == [s2];
    assert SortByScore([s2, s1]) == Insert([s2], s1);
    assert Insert([s2], s1) == [s1, s2];
    assert Count([s1, s2], Todo) == 1;
    assert Count([s1, s2], Done) == 1;
  }
}
