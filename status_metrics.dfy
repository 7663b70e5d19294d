/** The task-metrics panel (components/task-metrics-charts.tsx): per-status counts of the
    project's fetched task rows, their total, the chart entries in the fixed status order,
    the percentage shown on each card, and the panel state that recounts on every change. */
module StatusMetrics {
  import opened Wrappers
  import opened Sequences

  datatype Metrics = Metrics(total: nat, todo: nat, inProgress: nat, inReview: nat, done: nat)

  const ZeroMetrics := Metrics(0, 0, 0, 0, 0)

  /** `fetchMetrics`' counts over the fetched status column (absent data counts nothing):
      one count per status, and the total is their sum. */
  function ComputeMetrics(data: Option<seq<string>>): (m: Metrics)
    ensures m.todo == Count(data.GetOr([]), "todo") && m.inProgress == Count(data.GetOr([]), "in_progress")
    ensures m.inReview == Count(data.GetOr([]), "in_review") && m.done == Count(data.GetOr([]), "done")
    ensures m.total == m.todo + m.inProgress + m.inReview + m.done
  {
    var rows := data.GetOr([]);
    var todo := Count(rows, "todo");
    var inProgress := Count(rows, "in_progress");
    var inReview := Count(rows, "in_review");
    var done := Count(rows, "done");
    Metrics(todo + inProgress + inReview + done, todo, inProgress, inReview, done)
  }

  predicate KnownStatus(s: string) {
    s == "todo" || s == "in_progress" || s == "in_review" || s == "done"
  }

  /** The total never exceeds the number of rows, and equals it exactly when every row has
      one of the four statuses: rows with any other status are not counted. */
  lemma {:induction false} TotalCountsKnownStatuses(rows: seq<string>)
    ensures ComputeMetrics(Some(rows)).total <= |rows|
    ensures ComputeMetrics(Some(rows)).total == |rows| <==> forall i :: 0 <= i < |rows| ==> KnownStatus(rows[i])
    decreases |rows|
  {
    if rows != [] {
      TotalCountsKnownStatuses(rows[1..]);
      assert forall i :: 1 <= i < |rows| ==> rows[i] == rows[1..][i - 1];
    }
  }

  /** One chart slice. */
  datatype ChartEntry = ChartEntry(name: string, value: nat, color: string, total: nat)

  /** `chartData`: one entry per status in the STATUS_CONFIG order, each carrying the total. */
  function ChartData(m: Metrics): (r: seq<ChartEntry>)
    ensures |r| == 4
    ensures forall i :: 0 <= i < 4 ==> r[i].total == m.total
    ensures r[0].value == m.todo && r[1].value == m.inProgress && r[2].value == m.inReview && r[3].value == m.done
    ensures r[0].name == "Yapılacak" && r[1].name == "Devam Eden" && r[2].name == "İncelemede" && r[3].name == "Tamamlanan"
  {
    [ChartEntry("Yapılacak", m.todo, "#e11d48", m.total),
     ChartEntry("Devam Eden", m.inProgress, "#fb923c", m.total),
     ChartEntry("İncelemede", m.inReview, "#0ea5e9", m.total),
     ChartEntry("Tamamlanan", m.done, "#16a34a", m.total)]
  }

  /** The slices of a computed metrics record add up to its total. */
  lemma ChartValuesSumToTotal(data: Option<seq<string>>)
    ensures var r := ChartData(ComputeMetrics(data)); r[0].value + r[1].value + r[2].value + r[3].value == r[0].total
  {
  }

  /** A card's percentage: 0 when there are no tasks, otherwise value / total × 100. */
  function Percentage(value: nat, total: nat): (r: real)
    ensures total == 0 ==> r == 0.0
    ensures total > 0 ==> r * (total as real) == (value as real) * 100.0
  {
    if total > 0 then (value as real) / (total as real) * 100.0 else 0.0
  }

  /** A count no larger than the total gives a percentage between 0 and 100. */
  lemma PercentageBounded(value: nat, total: nat)
    requires value <= total
    ensures 0.0 <= Percentage(value, total) <= 100.0
  {
    if total > 0 {
      var r := Percentage(value, total);
      assert r * (total as real) <= 100.0 * (total as real);
    }
  }

  class MetricsPanel {
    var metrics: Metrics
    var loading: bool
    var error: Option<string>

    /** All zeros, loading, no error. */
    constructor()
      ensures metrics == ZeroMetrics && loading && error.None?
    {
      metrics, loading, error := ZeroMetrics, true, None;
    }

    /** `fetchMetrics`: a fetched status column is counted afresh; a failure stores the
        error's message and keeps the old counts. A success does not clear an earlier error.
        Loading always ends. */
    method FetchMetrics(fetched: Result<Option<seq<string>>, string>)
      modifies this
      ensures !loading
      ensures fetched.Success? ==> metrics == ComputeMetrics(fetched.value) && error == old(error)
      ensures fetched.Failure? ==> metrics == old(metrics) && error == Some(fetched.error)
    {
      match fetched {
        case Success(data) => metrics := ComputeMetrics(data);
        case Failure(message) => error := Some(message);
      }
      loading := false;
    }

    /** Any change event on the project's tasks refetches and recounts everything; what the
        event carried plays no part in the new counts. */
    method OnTaskChange<E>(event: E, refetched: Result<Option<seq<string>>, string>)
      modifies this
      ensures !loading
      ensures refetched.Success? ==> metrics == ComputeMetrics(refetched.value) && error == old(error)
      ensures refetched.Failure? ==> metrics == old(metrics) && error == Some(refetched.error)
    {
      FetchMetrics(refetched);
    }
  }
}
