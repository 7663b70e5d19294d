/** The metrics charts of the project page (components/metrics/task-metrics-charts.tsx): the
    status and priority histograms built with `reduce` into a keyed record, their chart
    entries, and the seven-day progress. Calendar arithmetic is abstracted: which day a task
    was created or completed on is given by predicates on the task and the day's index. */
module ChartMetrics {
  import opened Wrappers
  import opened Sequences
  import opened TaskTypes

  /** The keys of a keyed record, in insertion order. */
  function KeysOf<K>(e: seq<(K, nat)>): (r: seq<K>)
    ensures |r| == |e| && forall j :: 0 <= j < |e| ==> r[j] == e[j].0
  {
    Map((p: (K, nat)) => p.0, e)
  }

  function SumCounts<K>(e: seq<(K, nat)>): nat
    decreases |e|
  {
    if e == [] then 0 else SumCounts(e[..|e| - 1]) + e[|e| - 1].1
  }

  /** Changing one entry's count changes the sum by the difference. */
  lemma {:induction false} SumCountsUpdate<K>(e: seq<(K, nat)>, j: nat, v: nat)
    requires j < |e|
    ensures SumCounts(e[j := (e[j].0, v)]) == SumCounts(e) - e[j].1 + v
    decreases |e|
  {
    var u := e[j := (e[j].0, v)];
    assert u[..|u| - 1] == if j == |e| - 1 then e[..|e| - 1] else e[..|e| - 1][j := (e[j].0, v)];
    if j < |e| - 1 {
      SumCountsUpdate(e[..|e| - 1], j, v);
    }
  }

  lemma SumCountsSnoc<K>(e: seq<(K, nat)>, p: (K, nat))
    ensures SumCounts(e + [p]) == SumCounts(e) + p.1
  {
    assert (e + [p])[..|e|] == e;
  }

  function FindKey<K(==)>(e: seq<(K, nat)>, k: K): (r: Option<nat>)
    ensures r.Some? ==> r.value < |e| && e[r.value].0 == k
    ensures r.None? ==> forall j :: 0 <= j < |e| ==> e[j].0 != k
    decreases |e|
  {
    if e == [] then None
    else if e[0].0 == k then Some(0)
    else match FindKey(e[1..], k)
      case None => None
      case Some(j) => Some(j + 1)
  }

  ghost predicate DistinctKeys<K>(e: seq<(K, nat)>) {
    forall a, b :: 0 <= a < b < |e| ==> e[a].0 != e[b].0
  }

  /** Every entry counts its key's occurrences in `p`, and that key occurs. */
  ghost predicate CountsMatch<K>(e: seq<(K, nat)>, p: seq<K>) {
    forall j :: 0 <= j < |e| ==> e[j].1 == Count(p, e[j].0) && e[j].1 >= 1 && e[j].0 in p
  }

  ghost predicate Covers<K>(e: seq<(K, nat)>, p: seq<K>) {
    forall i :: 0 <= i < |p| ==> p[i] in KeysOf(e)
  }

  /** `e` is the keyed record that counting the values of `p` one by one produces: distinct
      keys, each counted as often as it occurs in `p`, every value of `p` among the keys. */
  ghost predicate Tallies<K>(e: seq<(K, nat)>, p: seq<K>) {
    DistinctKeys(e) && CountsMatch(e, p) && Covers(e, p) && SumCounts(e) == |p|
  }

  /** `acc[x] = (acc[x] || 0) + 1`: bump the count of a key present, or add it with count 1. */
  function Bump<K(==)>(e: seq<(K, nat)>, x: K): seq<(K, nat)> {
    match FindKey(e, x)
    case Some(j) => e[j := (x, e[j].1 + 1)]
    case None => e + [(x, 1)]
  }

  lemma BumpTallies<K>(e: seq<(K, nat)>, p: seq<K>, x: K)
    requires Tallies(e, p)
    ensures Tallies(Bump(e, x), p + [x])
  {
    match FindKey(e, x) {
      case Some(j) =>
        SumCountsUpdate(e, j, e[j].1 + 1);
        BumpPresentCounts(e, p, x, j);
        BumpPresentCovers(e, p, x, j);
      case None =>
        SumCountsSnoc(e, (x, 1));
        BumpAbsentCounts(e, p, x);
        BumpAbsentCovers(e, p, x);
    }
  }

  lemma BumpPresentCounts<K>(e: seq<(K, nat)>, p: seq<K>, x: K, j: nat)
    requires DistinctKeys(e) && CountsMatch(e, p) && j < |e| && e[j].0 == x
    ensures DistinctKeys(e[j := (x, e[j].1 + 1)]) && CountsMatch(e[j := (x, e[j].1 + 1)], p + [x])
  {
    var u := e[j := (x, e[j].1 + 1)];
    forall i | 0 <= i < |u| ensures u[i].1 == Count(p + [x], u[i].0) && u[i].1 >= 1 && u[i].0 in p + [x] {
      CountSnoc(p, x, e[i].0);
    }
  }

  lemma BumpPresentCovers<K>(e: seq<(K, nat)>, p: seq<K>, x: K, j: nat)
    requires Covers(e, p) && j < |e| && e[j].0 == x
    ensures Covers(e[j := (x, e[j].1 + 1)], p + [x])
  {
    var u := e[j := (x, e[j].1 + 1)];
    assert KeysOf(u) == KeysOf(e);
    forall i | 0 <= i < |p + [x]| ensures (p + [x])[i] in KeysOf(u) {
      if i < |p| { assert (p + [x])[i] == p[i]; } else { assert KeysOf(u)[j] == x; }
    }
  }

  lemma BumpAbsentCounts<K>(e: seq<(K, nat)>, p: seq<K>, x: K)
    requires DistinctKeys(e) && CountsMatch(e, p) && x !in p
    requires forall j :: 0 <= j < |e| ==> e[j].0 != x
    ensures DistinctKeys(e + [(x, 1)]) && CountsMatch(e + [(x, 1)], p + [x])
  {
    var u := e + [(x, 1)];
    forall i | 0 <= i < |u| ensures u[i].1 == Count(p + [x], u[i].0) && u[i].1 >= 1 && u[i].0 in p + [x] {
      CountSnoc(p, x, u[i].0);
      if i == |e| { CountPositiveIffPresent(p, x); }
    }
  }

  lemma BumpAbsentCovers<K>(e: seq<(K, nat)>, p: seq<K>, x: K)
    requires Covers(e, p)
    ensures Covers(e + [(x, 1)], p + [x])
  {
    var u := e + [(x, 1)];
    assert KeysOf(u) == KeysOf(e) + [x];
    forall i | 0 <= i < |p + [x]| ensures (p + [x])[i] in KeysOf(u) {
      if i < |p| { assert (p + [x])[i] == p[i]; assert p[i] in KeysOf(e); } else { assert KeysOf(u)[|e|] == x; }
    }
  }

  /** `reduce((acc, x) => { acc[x] = (acc[x] || 0) + 1; return acc }, {})` followed by
      `Object.entries`: each distinct value once, with its number of occurrences. The
      counts are at least 1 and add up to the length. */
  method Histogram<K(==)>(s: seq<K>) returns (e: seq<(K, nat)>)
    ensures forall a, b :: 0 <= a < b < |e| ==> e[a].0 != e[b].0
    ensures forall j :: 0 <= j < |e| ==> e[j].1 == Count(s, e[j].0) && e[j].1 >= 1 && e[j].0 in s
    ensures forall i :: 0 <= i < |s| ==> s[i] in KeysOf(e)
    ensures SumCounts(e) == |s|
    ensures Tallies(e, s)
  {
    e := [];
    var i := 0;
    while i < |s|
      invariant 0 <= i <= |s|
      invariant Tallies(e, s[..i])
    {
      BumpTallies(e, s[..i], s[i]);
      assert s[..i + 1] == s[..i] + [s[i]];
      e := Bump(e, s[i]);
      i := i + 1;
    }
    assert s[..|s|] == s;
  }

  /** One slice of a distribution chart. */
  datatype Slice = Slice(name: string, value: nat, color: string)

  /** One day of the weekly chart. */
  datatype DayProgress = DayProgress(name: string, completed: nat, total: nat)

  function StatusSlice(p: (TaskStatus, nat)): Slice { Slice(StatusLabel(p.0), p.1, StatusColor(p.0)) }
  function PrioritySlice(p: (TaskPriority, nat)): Slice { Slice(PriorityLabel(p.0), p.1, PriorityColor(p.0)) }

  function SliceSum(sl: seq<Slice>): nat
    decreases |sl|
  {
    if sl == [] then 0 else SliceSum(sl[..|sl| - 1]) + sl[|sl| - 1].value
  }

  /** Turning entries into slices keeps every count, so the slices sum as the entries do. */
  lemma {:induction false} SliceSumOfEntries<K>(e: seq<(K, nat)>, f: ((K, nat)) -> Slice)
    requires forall p: (K, nat) :: f(p).value == p.1
    ensures SliceSum(Map(f, e)) == SumCounts(e)
    decreases |e|
  {
    if e != [] {
      assert Map(f, e)[..|e| - 1] == Map(f, e[..|e| - 1]);
      SliceSumOfEntries(e[..|e| - 1], f);
    }
  }

  /** A task counts as completed on day `i` when its completion date is present, not the
      empty string, and falls on that day. */
  predicate CompletedOn(t: Task, completedOn: (Task, nat) -> bool, i: nat) {
    t.completedAt.Some? && t.completedAt.value != "" && completedOn(t, i)
  }

  /** Day `i` of the weekly chart: the tasks created that day, and among them those
      completed on that day (only the day of the month is compared for completion). */
  function Day(tasks: seq<Task>, createdOn: (Task, nat) -> bool,
               completedOn: (Task, nat) -> bool, dayName: nat -> string, i: nat): (d: DayProgress)
    ensures d.name == dayName(i)
    ensures d.total == |Filter((t: Task) => createdOn(t, i), tasks)|
    ensures d.completed == |Filter((t: Task) => createdOn(t, i) && CompletedOn(t, completedOn, i), tasks)|
    ensures d.completed <= d.total
  {
    var dayTasks := Filter((t: Task) => createdOn(t, i), tasks);
    var completed := Filter((t: Task) => CompletedOn(t, completedOn, i), dayTasks);
    FilterOfFilter((t: Task) => createdOn(t, i), (t: Task) => CompletedOn(t, completedOn, i),
                   (t: Task) => createdOn(t, i) && CompletedOn(t, completedOn, i), tasks);
    DayProgress(dayName(i), |completed|, |dayTasks|)
  }

  /** The seven days of the current week, day `i` at index `i`. */
  function WeeklyProgress(tasks: seq<Task>, createdOn: (Task, nat) -> bool,
                          completedOn: (Task, nat) -> bool, dayName: nat -> string): (r: seq<DayProgress>)
    ensures |r| == 7
    ensures forall i :: 0 <= i < 7 ==>
      r[i].name == dayName(i) && r[i].total == |Filter((t: Task) => createdOn(t, i), tasks)|
      && r[i].completed == |Filter((t: Task) => createdOn(t, i) && CompletedOn(t, completedOn, i), tasks)|
      && r[i].completed <= r[i].total
  {
    seq(7, i requires 0 <= i < 7 => Day(tasks, createdOn, completedOn, dayName, i))
  }

  function StatusesOfTasks(tasks: seq<Task>): seq<TaskStatus> { Map((t: Task) => t.status, tasks) }
  function PrioritiesOfTasks(tasks: seq<Task>): seq<TaskPriority> { Map((t: Task) => t.priority, tasks) }

  class ChartsState {
    var statusDistribution: seq<Slice>
    var priorityDistribution: seq<Slice>
    var weeklyProgress: seq<DayProgress>

    constructor()
      ensures statusDistribution == [] && priorityDistribution == [] && weeklyProgress == []
    {
      statusDistribution, priorityDistribution, weeklyProgress := [], [], [];
    }

    /** `calculateMetrics`, run whenever the task list changes. Each distribution is the
        tally of its field over the tasks turned into labelled, coloured slices: one slice
        per value that occurs, carrying that value's number of tasks. Both sum to the number
        of tasks, and the weekly chart is `WeeklyProgress`. */
    method CalculateMetrics(tasks: seq<Task>, createdOn: (Task, nat) -> bool,
                            completedOn: (Task, nat) -> bool, dayName: nat -> string)
      modifies this
      ensures SliceSum(statusDistribution) == |tasks| && SliceSum(priorityDistribution) == |tasks|
      ensures forall j :: 0 <= j < |statusDistribution| ==> statusDistribution[j].value >= 1
      ensures forall j :: 0 <= j < |priorityDistribution| ==> priorityDistribution[j].value >= 1
      ensures |statusDistribution| <= 4 && |priorityDistribution| <= 3
      ensures exists e :: Tallies(e, StatusesOfTasks(tasks)) && statusDistribution == Map(StatusSlice, e)
      ensures exists e :: Tallies(e, PrioritiesOfTasks(tasks)) && priorityDistribution == Map(PrioritySlice, e)
      ensures weeklyProgress == WeeklyProgress(tasks, createdOn, completedOn, dayName)
    {
      var statuses := StatusesOfTasks(tasks);
      var priorities := PrioritiesOfTasks(tasks);
      var statusCounts := Histogram(statuses);
      var priorityCounts := Histogram(priorities);
      DistinctStatusKeys(statusCounts);
      DistinctPriorityKeys(priorityCounts);
      SliceSumOfEntries(statusCounts, StatusSlice);
      SliceSumOfEntries(priorityCounts, PrioritySlice);
      statusDistribution := Map(StatusSlice, statusCounts);
      priorityDistribution := Map(PrioritySlice, priorityCounts);
      weeklyProgress := WeeklyProgress(tasks, createdOn, completedOn, dayName);
      assert Tallies(statusCounts, statuses) && statusDistribution == Map(StatusSlice, statusCounts);
      assert Tallies(priorityCounts, priorities) && priorityDistribution == Map(PrioritySlice, priorityCounts);
    }
  }

  /** A keyed record with distinct status keys has at most four entries. */
  lemma DistinctStatusKeys(e: seq<(TaskStatus, nat)>)
    requires forall a, b :: 0 <= a < b < |e| ==> e[a].0 != e[b].0
    ensures |e| <= 4
  {
    var ks := set j | 0 <= j < |e| :: e[j].0;
    assert ks <= {Todo, InProgress, InReview, Done} by {
      forall k | k in ks ensures k in {Todo, InProgress, InReview, Done} {
        assert k.Todo? || k.InProgress? || k.InReview? || k.Done?;
      }
    }
    InjectiveIndexSet(e);
    SubsetCard(ks, {Todo, InProgress, InReview, Done});
  }

  lemma DistinctPriorityKeys(e: seq<(TaskPriority, nat)>)
    requires forall a, b :: 0 <= a < b < |e| ==> e[a].0 != e[b].0
    ensures |e| <= 3
  {
    var ks := set j | 0 <= j < |e| :: e[j].0;
    assert ks <= {Low, Medium, High} by {
      forall k | k in ks ensures k in {Low, Medium, High} {
        assert k.Low? || k.Medium? || k.High?;
      }
    }
    InjectiveIndexSet(e);
    SubsetCard(ks, {Low, Medium, High});
  }

  /** Distinct keys make the set of keys as large as the record. */
  lemma {:induction false} InjectiveIndexSet<K>(e: seq<(K, nat)>)
    requires forall a, b :: 0 <= a < b < |e| ==> e[a].0 != e[b].0
    ensures |set j | 0 <= j < |e| :: e[j].0| == |e|
    decreases |e|
  {
    if e != [] {
      var f := e[..|e| - 1];
      InjectiveIndexSet(f);
      var sf := set j | 0 <= j < |f| :: f[j].0;
      var se := set j | 0 <= j < |e| :: e[j].0;
      assert se == sf + {e[|e| - 1].0};
      assert e[|e| - 1].0 !in sf;
    }
  }

  lemma {:induction false} SubsetCard<T>(a: set<T>, b: set<T>)
    requires a <= b
    ensures |a| <= |b|
    decreases |a|
  {
    if a != {} {
      var x :| x in a;
      SubsetCard(a - {x}, b - {x});
    }
  }
}
