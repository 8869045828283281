/** `tasks.sort((a, b) => b.score - a.score)`: a stable sort, highest score
    first. ECMA-262 (section 23.1.3.30, Array.prototype.sort) requires the
    sort to be stable, so tasks with equal scores keep their input order.
    The model sorts by insertion; the lemmas show that the result is the one
    and only list that is ordered by score and keeps ties in input order, so
    the algorithm the runtime picks makes no difference. */
module Ranking {
  import opened TaskRecords

  /** Non-increasing by score: the first task has the highest score. */
  predicate SortedByScore(s: seq<ScoredTask>) {
    forall i, j :: 0 <= i < j < |s| ==> s[i].score >= s[j].score
  }

  /** The tasks of `s` whose score is `k`, in their order in `s`. */
  function WithScore(s: seq<ScoredTask>, k: real): seq<ScoredTask> {
    if |s| == 0 then []
    else (if s[0].score == k then [s[0]] else []) + WithScore(s[1..], k)
  }

  /** `a` lists every score's tasks in the same order as `b` does. */
  ghost predicate SameTieOrder(a: seq<ScoredTask>, b: seq<ScoredTask>) {
    forall k :: WithScore(a, k) == WithScore(b, k)
  }

  /** Puts `x` after every leading task whose score is at least `x`'s; in a
      sorted list that is after every task it ties with. */
  function Insert(t: seq<ScoredTask>, x: ScoredTask): (r: seq<ScoredTask>)
    ensures multiset(r) == multiset(t) + multiset{x}
    ensures |r| == |t| + 1
  {
    if |t| == 0 then [x]
    else if t[0].score >= x.score then
      assert t == [t[0]] + t[1..];
      [t[0]] + Insert(t[1..], x)
    else [x] + t
  }

  /** Inserting into a sorted list keeps it sorted. */
  lemma {:induction false} InsertSorted(t: seq<ScoredTask>, x: ScoredTask)
    requires SortedByScore(t)
    ensures SortedByScore(Insert(t, x))
    ensures Insert(t, x)[0] == x || (|t| > 0 && Insert(t, x)[0] == t[0])
  {
    if |t| == 0 {
    } else if t[0].score >= x.score {
      var rest := Insert(t[1..], x);
      InsertSorted(t[1..], x);
      ConsSorted(t[0], rest);
    } else {
      ConsSorted(x, t);
    }
  }

  lemma ConsSorted(h: ScoredTask, s: seq<ScoredTask>)
    requires SortedByScore(s) && (|s| == 0 || h.score >= s[0].score)
    ensures SortedByScore([h] + s)
  {
    var r := [h] + s;
    forall i, j | 0 <= i < j < |r|
      ensures r[i].score >= r[j].score
    {
      assert r[j] == s[j - 1];
      if i > 0 {
        assert r[i] == s[i - 1];
      }
    }
  }

  /** The list `loadTasks` returns, before the summary is taken. */
  function SortByScore(s: seq<ScoredTask>): (r: seq<ScoredTask>)
    ensures SortedByScore(r)
    ensures multiset(r) == multiset(s)
    ensures |r| == |s|
  {
    if |s| == 0 then []
    else
      assert s == s[..|s| - 1] + [s[|s| - 1]];
      var sorted := SortByScore(s[..|s| - 1]);
      InsertSorted(sorted, s[|s| - 1]);
      Insert(sorted, s[|s| - 1])
  }

  lemma {:induction false} WithScoreAppend(a: seq<ScoredTask>, b: seq<ScoredTask>, k: real)
    ensures WithScore(a + b, k) == WithScore(a, k) + WithScore(b, k)
  {
    if |a| > 0 {
      assert (a + b)[1..] == a[1..] + b;
      WithScoreAppend(a[1..], b, k);
    } else {
      assert a + b == b;
    }
  }

  lemma {:induction false} NoneWithScore(s: seq<ScoredTask>, k: real)
    requires forall i :: 0 <= i < |s| ==> s[i].score < k
    ensures WithScore(s, k) == []
  {
    if |s| > 0 {
      NoneWithScore(s[1..], k);
    }
  }

  /** The first task listed with score `k` is a task of `s` with that score. */
  lemma {:induction false} WithScoreHead(s: seq<ScoredTask>, k: real)
    requires WithScore(s, k) != []
    ensures WithScore(s, k)[0].score == k && WithScore(s, k)[0] in s
  {
    if s[0].score != k {
      WithScoreHead(s[1..], k);
    }
  }

  lemma WithScoreCons(h: ScoredTask, s: seq<ScoredTask>, k: real)
    ensures WithScore([h] + s, k) == (if h.score == k then [h] else []) + WithScore(s, k)
  {
    assert ([h] + s)[1..] == s;
  }

  /** Inserting `x` adds it behind the tasks it ties with. */
  lemma {:induction false} InsertKeepsTieOrder(t: seq<ScoredTask>, x: ScoredTask, k: real)
    requires SortedByScore(t)
    ensures WithScore(Insert(t, x), k) == WithScore(t, k) + WithScore([x], k)
  {
    if |t| == 0 {
      assert [x] == [x] + [];
      WithScoreCons(x, [], k);
    } else if t[0].score >= x.score {
      InsertKeepsTieOrder(t[1..], x, k);
      ConsKeepsTies(t[0], Insert(t[1..], x), t[1..], WithScore([x], k), k);
      assert Insert(t, x) == [t[0]] + Insert(t[1..], x);
      assert t == [t[0]] + t[1..];
    } else {
      InsertInFront(t, x, k);
    }
  }

  lemma ConsKeepsTies(h: ScoredTask, s: seq<ScoredTask>, u: seq<ScoredTask>, tail: seq<ScoredTask>, k: real)
    requires WithScore(s, k) == WithScore(u, k) + tail
    ensures WithScore([h] + s, k) == WithScore([h] + u, k) + tail
  {
    WithScoreCons(h, s, k);
    WithScoreCons(h, u, k);
  }

  lemma InsertInFront(t: seq<ScoredTask>, x: ScoredTask, k: real)
    requires SortedByScore(t) && |t| > 0 && t[0].score < x.score
    ensures WithScore(Insert(t, x), k) == WithScore(t, k) + WithScore([x], k)
  {
    assert Insert(t, x) == [x] + t;
    WithScoreCons(x, t, k);
    assert [x] == [x] + [];
    WithScoreCons(x, [], k);
    if x.score == k {
      NoneWithScore(t, k);
    }
  }

  /** The sort is stable: tasks with equal scores keep their input order. */
  lemma {:induction false} SortByScoreIsStable(s: seq<ScoredTask>)
    ensures SameTieOrder(SortByScore(s), s)
  {
    forall k
      ensures WithScore(SortByScore(s), k) == WithScore(s, k)
    {
      SortKeepsTieOrder(s, k);
    }
  }

  lemma {:induction false} SortKeepsTieOrder(s: seq<ScoredTask>, k: real)
    ensures WithScore(SortByScore(s), k) == WithScore(s, k)
  {
    if |s| > 0 {
      var init, last := s[..|s| - 1], s[|s| - 1];
      SortKeepsTieOrder(init, k);
      InsertKeepsTieOrder(SortByScore(init), last, k);
      assert s == init + [last];
      WithScoreAppend(init, [last], k);
    }
  }

  /** Two lists ordered by score that list every score's tasks in the same
      order are the same list. */
  lemma {:induction false} StableOrderUnique(a: seq<ScoredTask>, b: seq<ScoredTask>)
    requires SortedByScore(a) && SortedByScore(b)
    requires SameTieOrder(a, b)
    ensures a == b
    decreases |a|
  {
    if |a| > 0 {
      HasOwnTies(a);
    }
    if |b| > 0 {
      HasOwnTies(b);
    }
    if |a| > 0 {
      var m, n := a[0].score, b[0].score;
      assert WithScore(a, m)[0] == a[0];
      WithScoreHead(b, m);
      assert WithScore(b, n)[0] == b[0];
      WithScoreHead(a, n);
      assert m == n;
      assert a[0] == b[0];
      forall k
        ensures WithScore(a[1..], k) == WithScore(b[1..], k)
      {
        var head := if m == k then [a[0]] else [];
        assert WithScore(a, k) == head + WithScore(a[1..], k);
        assert WithScore(b, k) == head + WithScore(b[1..], k);
        assert WithScore(a[1..], k) == WithScore(a, k)[|head|..];
      }
      StableOrderUnique(a[1..], b[1..]);
      assert a == [a[0]] + a[1..];
      assert b == [b[0]] + b[1..];
    }
  }

  lemma HasOwnTies(s: seq<ScoredTask>)
    requires |s| > 0
    ensures WithScore(s, s[0].score) != []
  {
  }

  /** Any list ordered by score that keeps ties in input order is exactly
      what `SortByScore` returns: the result of a stable sort is determined
      by its input. */
  lemma SortByScoreIsTheStableSort(s: seq<ScoredTask>, r: seq<ScoredTask>)
    requires SortedByScore(r) && SameTieOrder(r, s)
    ensures r == SortByScore(s)
  {
    SortByScoreIsStable(s);
    StableOrderUnique(r, SortByScore(s));
  }

  /** A list made of some of a sorted list's tasks, in their order, is sorted. */
  lemma {:induction false} SubsequenceOfSorted(a: seq<ScoredTask>, b: seq<ScoredTask>)
    requires IsSubsequence(a, b) && SortedByScore(b)
    ensures SortedByScore(a)
    ensures forall i :: 0 <= i < |a| ==> a[i] in b
    decreases |b|
  {
    if |a| > 0 {
      if a[0] == b[0] {
        SubsequenceOfSorted(a[1..], b[1..]);
        assert forall i :: 1 <= i < |a| ==> a[i] == a[1..][i - 1];
      } else {
        SubsequenceOfSorted(a, b[1..]);
      }
    }
  }

  /** The first task of a sorted rearrangement of `s` has the highest score
      in `s`. */
  lemma SortedHeadIsMax(r: seq<ScoredTask>, s: seq<ScoredTask>)
    requires SortedByScore(r) && multiset(r) == multiset(s) && |s| > 0
    ensures r[0] in s
    ensures forall t :: t in s ==> t.score <= r[0].score
  {
    assert r[0] in multiset(s);
    forall t | t in s
      ensures t.score <= r[0].score
    {
      assert t in multiset(r);
    }
  }
}
