/** The project summary card (components/project/project-summary.tsx): task counts by
    status and by priority over the fetched (status, priority) rows, the member count, the
    completion rate, and the load that gives up, still loading, on either fetch error. */
module ProjectSummary {
  import opened Wrappers
  import opened Sequences
  import StatusMetrics

  datatype SummaryRow = SummaryRow(status: string, priority: string)

  datatype ProjectMetrics = ProjectMetrics(
    totalTasks: nat, completedTasks: nat, inProgressTasks: nat, todoTasks: nat, inReviewTasks: nat,
    totalMembers: nat, high: nat, medium: nat, low: nat)

  function Statuses(rows: seq<SummaryRow>): seq<string> { Map((r: SummaryRow) => r.status, rows) }
  function Priorities(rows: seq<SummaryRow>): seq<string> { Map((r: SummaryRow) => r.priority, rows) }

  /** The metrics record: the row count, per-status and per-priority row counts (absent data
      counts nothing), and the member count or 0 when it is absent. */
  function ComputeMetrics(data: Option<seq<SummaryRow>>, memberCount: Option<nat>): (m: ProjectMetrics)
    ensures m.totalTasks == |data.GetOr([])|
    ensures m.completedTasks == Count(Statuses(data.GetOr([])), "done")
    ensures m.inProgressTasks == Count(Statuses(data.GetOr([])), "in_progress")
    ensures m.todoTasks == Count(Statuses(data.GetOr([])), "todo")
    ensures m.inReviewTasks == Count(Statuses(data.GetOr([])), "in_review")
    ensures m.high == Count(Priorities(data.GetOr([])), "high")
    ensures m.medium == Count(Priorities(data.GetOr([])), "medium")
    ensures m.low == Count(Priorities(data.GetOr([])), "low")
    ensures m.totalMembers == memberCount.GetOr(0)
  {
    var rows := data.GetOr([]);
    var st := Statuses(rows);
    var pr := Priorities(rows);
    ProjectMetrics(|rows|, Count(st, "done"), Count(st, "in_progress"), Count(st, "todo"), Count(st, "in_review"),
                   memberCount.GetOr(0), Count(pr, "high"), Count(pr, "medium"), Count(pr, "low"))
  }

  /** Each row has one status and one priority, so neither family of counts exceeds the total. */
  lemma CountsBoundedByTotal(data: Option<seq<SummaryRow>>, memberCount: Option<nat>)
    ensures var m := ComputeMetrics(data, memberCount);
      m.completedTasks + m.inProgressTasks + m.todoTasks + m.inReviewTasks <= m.totalTasks
      && m.high + m.medium + m.low <= m.totalTasks
  {
    var rows := data.GetOr([]);
    CountFour(Statuses(rows), "done", "in_progress", "todo", "in_review");
    CountThree(Priorities(rows), "high", "medium", "low");
  }

  /** `((completed / total) * 100) || 0`: 0 for a project without tasks. */
  function CompletionRate(m: ProjectMetrics): (r: real)
    ensures m.totalTasks == 0 ==> r == 0.0
    ensures m.totalTasks > 0 ==> r * (m.totalTasks as real) == (m.completedTasks as real) * 100.0
  {
    StatusMetrics.Percentage(m.completedTasks, m.totalTasks)
  }

  /** The completion rate of computed metrics lies between 0 and 100. */
  lemma CompletionRateBounded(data: Option<seq<SummaryRow>>, memberCount: Option<nat>)
    ensures 0.0 <= CompletionRate(ComputeMetrics(data, memberCount)) <= 100.0
  {
    var m := ComputeMetrics(data, memberCount);
    CountsBoundedByTotal(data, memberCount);
    StatusMetrics.PercentageBounded(m.completedTasks, m.totalTasks);
  }

  class SummaryCard {
    var metrics: Option<ProjectMetrics>
    var loading: bool

    constructor()
      ensures metrics.None? && loading
    {
      metrics, loading := None, true;
    }

    /** `fetchMetrics`: the task rows, then the member count. Either error returns early,
        leaving the metrics unset and the card loading; the member count is asked for only
        after the tasks arrive. Returns whether the member count was requested. */
    method FetchMetrics(tasks: Result<Option<seq<SummaryRow>>, string>, members: Result<Option<nat>, string>)
      returns (askedMembers: bool)
      modifies this
      ensures askedMembers == tasks.Success?
      ensures tasks.Failure? || members.Failure? ==> metrics == old(metrics) && loading == old(loading)
      ensures tasks.Success? && members.Success? ==>
        metrics == Some(ComputeMetrics(tasks.value, members.value)) && !loading
    {
      askedMembers := false;
      if tasks.Failure? {
        return;
      }
      askedMembers := true;
      if members.Failure? {
        return;
      }
      metrics := Some(ComputeMetrics(tasks.value, members.value));
      loading := false;
    }
  }
}
