/** The summary statistics of the project page (components/metrics/project-summary.tsx):
    counts of done, in-progress and to-do tasks, the task total and the completion rate. */
module SummaryStats {
  import opened Sequences
  import opened TaskTypes
  import opened StatusMetrics

  datatype Stats = Stats(totalTasks: nat, completedTasks: nat, inProgressTasks: nat, todoTasks: nat, completionRate: real)

  function StatusesOf(tasks: seq<Task>): (r: seq<TaskStatus>)
    ensures |r| == |tasks|
  {
    Map((t: Task) => t.status, tasks)
  }

  /** The `stats` memo: the three status counts, the task count and the completion rate,
      which is the same completed / total × 100 (0 without tasks) as the chart's percentage. */
  function ComputeStats(tasks: seq<Task>): (s: Stats)
    ensures s.completedTasks == Count(StatusesOf(tasks), Done)
    ensures s.inProgressTasks == Count(StatusesOf(tasks), InProgress)
    ensures s.todoTasks == Count(StatusesOf(tasks), Todo)
    ensures s.totalTasks == |tasks| && s.completionRate == Percentage(s.completedTasks, s.totalTasks)
  {
    var st := StatusesOf(tasks);
    Stats(|tasks|, Count(st, Done), Count(st, InProgress), Count(st, Todo), Percentage(Count(st, Done), |tasks|))
  }

  /** Every status is one of the four, so their counts add up to the length. */
  lemma {:induction false} StatusCountsPartition(st: seq<TaskStatus>)
    ensures Count(st, Done) + Count(st, InProgress) + Count(st, Todo) + Count(st, InReview) == |st|
    decreases |st|
  {
    if st != [] {
      StatusCountsPartition(st[1..]);
      assert st[0].Done? || st[0].InProgress? || st[0].Todo? || st[0].InReview?;
    }
  }

  /** The three counts and the uncounted in-review tasks make up the total, so the three
      counts never exceed it, and the completion rate lies between 0 and 100. */
  lemma StatsConsistent(tasks: seq<Task>)
    ensures var s := ComputeStats(tasks);
      s.completedTasks + s.inProgressTasks + s.todoTasks + Count(StatusesOf(tasks), InReview) == s.totalTasks
      && 0.0 <= s.completionRate <= 100.0
  {
    StatusCountsPartition(StatusesOf(tasks));
    var s := ComputeStats(tasks);
    PercentageBounded(s.completedTasks, s.totalTasks);
  }
}
