/** One board column: its tasks shown in `task_order` order and its header colour
    (components/kanban/column.tsx). The same ordering is used by the task-management hook. */
module KanbanColumn {
  import opened Strings
  import opened TaskTypes

  /** Ascending by order key (equal keys allowed). */
  predicate SortedByOrder(s: seq<Task>) {
    forall i, j :: 0 <= i < j < |s| ==> LexLe(s[i].taskOrder, s[j].taskOrder)
  }

  /** No two tasks share an id. */
  predicate DistinctIds(s: seq<Task>) {
    forall i, j :: 0 <= i < j < |s| ==> s[i].id != s[j].id
  }

  lemma ConsSorted(h: Task, r: seq<Task>)
    requires SortedByOrder(r)
    requires forall u :: u in r ==> LexLe(h.taskOrder, u.taskOrder)
    ensures SortedByOrder([h] + r)
  {
    forall i, j | 0 <= i < j < |[h] + r|
      ensures LexLe(([h] + r)[i].taskOrder, ([h] + r)[j].taskOrder)
    {
      if i > 0 { assert ([h] + r)[i] == r[i - 1] && ([h] + r)[j] == r[j - 1]; }
      else { assert ([h] + r)[j] in r; }
    }
  }

  lemma ConsDistinct(h: Task, r: seq<Task>)
    requires DistinctIds(r)
    requires forall u :: u in r ==> u.id != h.id
    ensures DistinctIds([h] + r)
  {
    forall i, j | 0 <= i < j < |[h] + r|
      ensures ([h] + r)[i].id != ([h] + r)[j].id
    {
      if i > 0 { assert ([h] + r)[i] == r[i - 1] && ([h] + r)[j] == r[j - 1]; }
      else { assert ([h] + r)[j] in r; }
    }
  }

  /** Insert `t` before the first task whose key is not below its own. */
  function InsertByOrder(t: Task, s: seq<Task>): (r: seq<Task>)
    ensures multiset(r) == multiset(s) + multiset{t}
    decreases |s|
  {
    if s == [] then [t]
    else if LexLe(t.taskOrder, s[0].taskOrder) then [t] + s
    else
      assert s == [s[0]] + s[1..];
      [s[0]] + InsertByOrder(t, s[1..])
  }

  lemma {:induction false} InsertSorted(t: Task, s: seq<Task>)
    requires SortedByOrder(s)
    ensures SortedByOrder(InsertByOrder(t, s))
    decreases |s|
  {
    if s == [] {
    } else if LexLe(t.taskOrder, s[0].taskOrder) {
      forall u | u in s ensures LexLe(t.taskOrder, u.taskOrder) {
        var j :| 0 <= j < |s| && s[j] == u;
        if j > 0 { LexLeTransitive(t.taskOrder, s[0].taskOrder, u.taskOrder); }
      }
      ConsSorted(t, s);
    } else {
      var rest := InsertByOrder(t, s[1..]);
      InsertSorted(t, s[1..]);
      LexLessTotal(t.taskOrder, s[0].taskOrder);
      forall u | u in rest ensures LexLe(s[0].taskOrder, u.taskOrder) {
        assert u in multiset(rest);
        if u != t {
          assert u in multiset(s[1..]);
          var j :| 0 <= j < |s[1..]| && s[1..][j] == u;
          assert s[j + 1] == u;
        }
      }
      ConsSorted(s[0], rest);
    }
  }

  lemma {:induction false} InsertDistinct(t: Task, s: seq<Task>)
    requires DistinctIds(s) && forall u :: u in s ==> u.id != t.id
    ensures DistinctIds(InsertByOrder(t, s))
    decreases |s|
  {
    if s == [] {
    } else if LexLe(t.taskOrder, s[0].taskOrder) {
      ConsDistinct(t, s);
    } else {
      var rest := InsertByOrder(t, s[1..]);
      forall u | u in s[1..] ensures u.id != t.id { }
      InsertDistinct(t, s[1..]);
      forall u | u in rest ensures u.id != s[0].id {
        assert u in multiset(rest);
        if u != t {
          assert u in multiset(s[1..]);
          var j :| 0 <= j < |s[1..]| && s[1..][j] == u;
          assert s[j + 1] == u;
        }
      }
      ConsDistinct(s[0], rest);
    }
  }

  /** `[...tasks].sort((a, b) => a.task_order.localeCompare(b.task_order))`: a sorted
      rearrangement of a copy; ids that were distinct stay distinct. */
  function SortByOrder(s: seq<Task>): (r: seq<Task>)
    ensures multiset(r) == multiset(s)
    ensures SortedByOrder(r)
    ensures DistinctIds(s) ==> DistinctIds(r)
    decreases |s|
  {
    if s == [] then []
    else
      assert s == [s[0]] + s[1..];
      var rest := SortByOrder(s[1..]);
      InsertSorted(s[0], rest);
      SortDistinctStep(s, rest);
      InsertByOrder(s[0], rest)
  }

  lemma SortDistinctStep(s: seq<Task>, rest: seq<Task>)
    requires |s| > 0 && multiset(rest) == multiset(s[1..])
    requires DistinctIds(s) ==> DistinctIds(rest)
    ensures DistinctIds(s) ==> DistinctIds(InsertByOrder(s[0], rest))
  {
    if DistinctIds(s) {
      forall u | u in rest ensures u.id != s[0].id {
        assert u in multiset(s[1..]);
        var j :| 0 <= j < |s[1..]| && s[1..][j] == u;
        assert s[j + 1] == u;
      }
      InsertDistinct(s[0], rest);
    }
  }

  /** The header count shows the number of tasks given, which is the number of cards shown. */
  lemma HeaderCountMatchesCards(tasks: seq<Task>)
    ensures |SortByOrder(tasks)| == |tasks|
  {
    assert |multiset(SortByOrder(tasks))| == |multiset(tasks)|;
  }

  const Gray := "#94A3B8"

  /** `getColumnColor`: one colour per status, pairwise distinct, gray for anything else. */
  function ColumnColor(status: string): (r: string)
    ensures ParseStatus(status).None? <==> r == Gray
  {
    if status == "todo" then "#6366F1"
    else if status == "in_progress" then "#F59E0B"
    else if status == "in_review" then "#8B5CF6"
    else if status == "done" then "#10B981"
    else Gray
  }

  lemma ColumnColorsDistinct(a: TaskStatus, b: TaskStatus)
    ensures a != b ==> ColumnColor(StatusWire(a)) != ColumnColor(StatusWire(b))
  {
  }
}
