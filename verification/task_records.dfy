/** Task records of lib/tasks.js before and after scoring, the status values
    the board knows, and the two ways the code looks at statuses: filtering a
    list down to one status and counting the tasks that have it. */
module TaskRecords {
  import opened Optional
  import opened Rice

  const Todo: string := "todo"
  const InProgress: string := "in_progress"
  const Done: string := "done"
  const Blocked: string := "blocked"

  /** The four statuses the summary counts; the task file may hold others. */
  predicate KnownStatus(s: string) {
    s == Todo || s == InProgress || s == Done || s == Blocked
  }

  /** One entry of the `tasks` list of the task file. `extra` holds every
      field the code does not look at by name, with its value as text. */
  datatype Task = Task(
    id: string,
    title: string,
    status: string,
    owner: string,
    due: string,
    extra: map<string, string>,
    framework: Option<RawRice>)

  /** A task as `loadTasks` returns it: the defaulted RICE parameters and the
      derived score are written over the input's. */
  datatype ScoredTask = ScoredTask(
    id: string,
    title: string,
    status: string,
    owner: string,
    due: string,
    extra: map<string, string>,
    framework: Params,
    score: real)

  /** The keys `{ ...t, framework, score }` overrides. */
  const DerivedKeys: set<string> := {"framework", "score"}

  /** The mapping callback of `loadTasks`: only `framework` and `score` are
      rewritten, every other field passes through. */
  function ScoreTask(t: Task): (s: ScoredTask)
    ensures s.id == t.id && s.title == t.title && s.status == t.status
    ensures s.owner == t.owner && s.due == t.due
    ensures forall k :: k in s.extra <==> k in t.extra && k !in DerivedKeys
    ensures forall k :: k in s.extra ==> s.extra[k] == t.extra[k]
    ensures s.framework == Normalize(t.framework) && s.score == Score(s.framework)
  {
    var p := Normalize(t.framework);
    ScoredTask(t.id, t.title, t.status, t.owner, t.due, t.extra - DerivedKeys, p, Score(p))
  }

  /** Each scored parameter is the task's own value when that is truthy and 1
      otherwise, and the score is computed from exactly those parameters. */
  lemma ScoredParameters(t: Task)
    ensures var s := ScoreTask(t); var raw := t.framework.GetOr(RawRice(None, None, None, None));
      && s.framework.reach == (if Truthy(raw.reach) then raw.reach.value else 1.0)
      && s.framework.impact == (if Truthy(raw.impact) then raw.impact.value else 1.0)
      && s.framework.confidence == (if Truthy(raw.confidence) then raw.confidence.value else 1.0)
      && s.framework.effort == (if Truthy(raw.effort) then raw.effort.value else 1.0)
      && s.score == Score(s.framework)
  {
  }

  /** `ts.map(ScoreTask)`. */
  function ScoreAll(ts: seq<Task>): (r: seq<ScoredTask>)
    ensures |r| == |ts|
    ensures forall i :: 0 <= i < |ts| ==> r[i] == ScoreTask(ts[i])
  {
    seq(|ts|, i requires 0 <= i < |ts| => ScoreTask(ts[i]))
  }

  /** `ts.filter((t) => t.status === status)`. */
  function WithStatus(ts: seq<ScoredTask>, status: string): (r: seq<ScoredTask>)
    ensures |r| <= |ts|
    ensures forall i :: 0 <= i < |r| ==> r[i].status == status
    ensures multiset(r) <= multiset(ts)
  {
    if |ts| == 0 then []
    else
      assert ts == [ts[0]] + ts[1..];
      (if ts[0].status == status then [ts[0]] else []) + WithStatus(ts[1..], status)
  }

  /** The number of tasks whose status is `status`. */
  function Count(ts: seq<ScoredTask>, status: string): (n: nat)
    ensures n <= |ts|
    ensures n == 0 <==> forall i :: 0 <= i < |ts| ==> ts[i].status != status
  {
    if |ts| == 0 then 0
    else (if ts[0].status == status then 1 else 0) + Count(ts[1..], status)
  }

  /** `a` is `b` with some elements left out, the rest in their order. */
  predicate IsSubsequence<T(==)>(a: seq<T>, b: seq<T>)
    decreases |b|
  {
    |a| == 0 || (|b| > 0 &&
      if a[0] == b[0] then IsSubsequence(a[1..], b[1..]) else IsSubsequence(a, b[1..]))
  }

  /** The summary's counts are the lengths of the filtered lists. */
  lemma {:induction false} CountIsFilterLength(ts: seq<ScoredTask>, status: string)
    ensures Count(ts, status) == |WithStatus(ts, status)|
  {
    if |ts| > 0 {
      CountIsFilterLength(ts[1..], status);
    }
  }

  lemma {:induction false} CountAppend(a: seq<ScoredTask>, b: seq<ScoredTask>, status: string)
    ensures Count(a + b, status) == Count(a, status) + Count(b, status)
  {
    if |a| > 0 {
      assert (a + b)[1..] == a[1..] + b;
      CountAppend(a[1..], b, status);
    } else {
      assert a + b == b;
    }
  }

  /** Counting does not depend on the order of the list. */
  lemma {:induction false} CountPermutation(a: seq<ScoredTask>, b: seq<ScoredTask>, status: string)
    requires multiset(a) == multiset(b)
    ensures Count(a, status) == Count(b, status)
    decreases |a|
  {
    if |a| == 0 {
      assert |multiset(b)| == 0;
    } else {
      var x := a[0];
      assert x in multiset(b);
      var j :| 0 <= j < |b| && b[j] == x;
      var rest := b[..j] + b[j + 1..];
      RemoveAt(b, j, status);
      assert a == [x] + a[1..];
      assert multiset(a[1..]) == multiset(rest);
      CountPermutation(a[1..], rest, status);
    }
  }

  /** Taking the element at `j` out of `b` removes exactly its contribution. */
  lemma RemoveAt(b: seq<ScoredTask>, j: nat, status: string)
    requires j < |b|
    ensures multiset(b[..j] + b[j + 1..]) == multiset(b) - multiset{b[j]}
    ensures Count(b, status) == Count(b[..j] + b[j + 1..], status) + (if b[j].status == status then 1 else 0)
  {
    assert b == b[..j] + ([b[j]] + b[j + 1..]);
    CountAppend(b[..j], [b[j]] + b[j + 1..], status);
    CountAppend([b[j]], b[j + 1..], status);
    CountAppend(b[..j], b[j + 1..], status);
  }

  /** Every task has one of the four known statuses. */
  predicate AllKnown(ts: seq<ScoredTask>) {
    forall i :: 0 <= i < |ts| ==> KnownStatus(ts[i].status)
  }

  lemma AllKnownScored(ts: seq<Task>)
    ensures AllKnown(ScoreAll(ts)) <==> forall i :: 0 <= i < |ts| ==> KnownStatus(ts[i].status)
  {
    var r := ScoreAll(ts);
    assert forall i :: 0 <= i < |ts| ==> r[i].status == ts[i].status;
  }

  lemma AllKnownPermutation(a: seq<ScoredTask>, b: seq<ScoredTask>)
    requires multiset(a) == multiset(b)
    ensures AllKnown(a) <==> AllKnown(b)
  {
    if AllKnown(a) {
      forall i | 0 <= i < |b|
        ensures KnownStatus(b[i].status)
      {
        assert b[i] in multiset(a);
      }
    }
    if AllKnown(b) {
      forall i | 0 <= i < |a|
        ensures KnownStatus(a[i].status)
      {
        assert a[i] in multiset(b);
      }
    }
  }

  /** The four summary counts never exceed the number of tasks, and add up to
      it exactly when every task has one of the four known statuses. */
  lemma {:induction false} StatusCountsBound(ts: seq<ScoredTask>)
    ensures Count(ts, Todo) + Count(ts, InProgress) + Count(ts, Done) + Count(ts, Blocked) <= |ts|
    ensures Count(ts, Todo) + Count(ts, InProgress) + Count(ts, Done) + Count(ts, Blocked) == |ts|
        <==> AllKnown(ts)
  {
    if |ts| > 0 {
      StatusCountsBound(ts[1..]);
      assert forall i :: 1 <= i < |ts| ==> ts[i] == ts[1..][i - 1];
    }
  }

  /** The filter keeps the relative order of the tasks it keeps. */
  lemma {:induction false} WithStatusIsSubsequence(ts: seq<ScoredTask>, status: string)
    ensures IsSubsequence(WithStatus(ts, status), ts)
  {
    if |ts| > 0 {
      WithStatusIsSubsequence(ts[1..], status);
      var r := WithStatus(ts, status);
      if ts[0].status == status {
        assert r[1..] == WithStatus(ts[1..], status);
      } else {
        assert r == WithStatus(ts[1..], status);
        if |r| > 0 {
          assert r[0].status == status;
        }
      }
    }
  }

  /** The filter drops no task whose status matches: each such task occurs as
      often in the result as in the input. */
  lemma {:induction false} WithStatusKeepsMatches(ts: seq<ScoredTask>, status: string, t: ScoredTask)
    requires t.status == status
    ensures multiset(WithStatus(ts, status))[t] == multiset(ts)[t]
  {
    if |ts| > 0 {
      WithStatusKeepsMatches(ts[1..], status, t);
      var rest := WithStatus(ts[1..], status);
      assert multiset(ts)[t] == multiset([ts[0]])[t] + multiset(ts[1..])[t] by {
        assert ts == [ts[0]] + ts[1..];
      }
      if ts[0].status == status {
        assert WithStatus(ts, status) == [ts[0]] + rest;
      } else {
        assert WithStatus(ts, status) == rest;
        assert ts[0] != t;
      }
    }
  }

  /** Filtering an already filtered list by the same status changes nothing. */
  lemma {:induction false} WithStatusIdempotent(ts: seq<ScoredTask>, status: string)
    ensures WithStatus(WithStatus(ts, status), status) == WithStatus(ts, status)
  {
    AllMatchingKept(WithStatus(ts, status), status);
  }

  lemma {:induction false} AllMatchingKept(ts: seq<ScoredTask>, status: string)
    requires forall i :: 0 <= i < |ts| ==> ts[i].status == status
    ensures WithStatus(ts, status) == ts
  {
    if |ts| > 0 {
      AllMatchingKept(ts[1..], status);
      assert ts == [ts[0]] + ts[1..];
    }
  }

  /** Rearranging a list keeps the same tasks. */
  lemma SameMembers(a: seq<ScoredTask>, b: seq<ScoredTask>)
    requires multiset(a) == multiset(b)
    ensures forall t :: t in a <==> t in b
  {
    forall t
      ensures t in a <==> t in b
    {
      assert t in a <==> t in multiset(a);
    }
  }

  /** The scored list holds the scoring of each input task and nothing else. */
  lemma ScoreAllMembers(ts: seq<Task>)
    ensures forall u :: u in ts ==> ScoreTask(u) in ScoreAll(ts)
    ensures forall t :: t in ScoreAll(ts) ==> exists u :: u in ts && t == ScoreTask(u)
  {
    var r := ScoreAll(ts);
    forall u | u in ts
      ensures ScoreTask(u) in r
    {
      var i :| 0 <= i < |ts| && ts[i] == u;
      assert r[i] == ScoreTask(u);
    }
    forall t | t in r
      ensures exists u :: u in ts && t == ScoreTask(u)
    {
      var i :| 0 <= i < |r| && r[i] == t;
      assert ts[i] in ts;
    }
  }
}
