/** The kanban board (components/kanban/board.tsx): the search / priority / assignee
    filter, the de-duplicated assignee list, the per-column selection and the
    drag-end handler that computes a numeric order for the dropped task. The filter
    and the assignee list are the same expressions in lib/hooks/use-task-management.ts. */
module KanbanBoard {
  import opened Wrappers
  import opened Strings
  import opened Sequences
  import opened TaskTypes
  import opened OrderKeys

  const AllFilter := "all"
  const UnassignedFilter := "unassigned"

  /** The search term occurs, case-insensitively, in the title or in the description
      (a missing description searches the empty string). */
  predicate MatchesSearch(t: Task, term: string) {
    Includes(Lower(t.title), Lower(term)) || Includes(Lower(t.description.GetOr("")), Lower(term))
  }

  predicate MatchesPriority(t: Task, filter: string) {
    filter == AllFilter || PriorityWire(t.priority) == filter
  }

  predicate MatchesAssignee(t: Task, filter: string) {
    filter == AllFilter
    || (filter == UnassignedFilter && t.assignedTo.None?)
    || (t.assignedTo.Some? && t.assignedTo.value.id == filter)
  }

  predicate MatchesFilters(t: Task, term: string, priority: string, assignee: string) {
    MatchesSearch(t, term) && MatchesPriority(t, priority) && MatchesAssignee(t, assignee)
  }

  /** `filteredTasks`: the tasks passing all three filters, in board order. */
  function FilterTasks(tasks: seq<Task>, term: string, priority: string, assignee: string): (r: seq<Task>)
    ensures forall t :: t in r <==> t in tasks && MatchesFilters(t, term, priority, assignee)
  {
    Filter((t: Task) => MatchesFilters(t, term, priority, assignee), tasks)
  }

  /** With every filter at its default the whole list is shown, in order. */
  lemma DefaultFiltersShowAll(tasks: seq<Task>)
    ensures FilterTasks(tasks, "", AllFilter, AllFilter) == tasks
  {
    forall t: Task ensures Includes(Lower(t.title), Lower("")) {
      assert Lower("") == [];
      assert [] <= Lower(t.title);
    }
    FilterKeepsAll((t: Task) => MatchesFilters(t, "", AllFilter, AllFilter), tasks);
  }

  /** Filtering is applied task by task, so the filtered list keeps the board order:
      filtering two halves and joining them equals filtering the whole. */
  lemma FilterTasksKeepsOrder(a: seq<Task>, b: seq<Task>, term: string, priority: string, assignee: string)
    ensures FilterTasks(a + b, term, priority, assignee)
         == FilterTasks(a, term, priority, assignee) + FilterTasks(b, term, priority, assignee)
  {
    FilterAppend((t: Task) => MatchesFilters(t, term, priority, assignee), a, b);
  }

  /** The unassigned filter keeps exactly the tasks without an assignee that match the search
      (assuming no assignee has the id "unassigned"); a priority filter keeps only that priority. */
  lemma UnassignedFilterShowsUnassigned(tasks: seq<Task>, term: string, p: TaskPriority)
    requires forall t :: t in tasks && t.assignedTo.Some? ==> t.assignedTo.value.id != UnassignedFilter
    ensures forall t ::
              t in FilterTasks(tasks, term, PriorityWire(p), UnassignedFilter)
              <==> t in tasks && t.assignedTo.None? && t.priority == p && MatchesSearch(t, term)
  {
    forall t | t in tasks ensures PriorityWire(t.priority) == PriorityWire(p) <==> t.priority == p {
      PriorityRoundTrip(t.priority);
      PriorityRoundTrip(p);
    }
  }

  /** The tasks a column shows: the filtered tasks whose status is the column id. */
  function ColumnTasks(filtered: seq<Task>, columnId: string): (r: seq<Task>)
    ensures forall t :: t in r <==> t in filtered && StatusWire(t.status) == columnId
  {
    Filter((t: Task) => StatusWire(t.status) == columnId, filtered)
  }

  /** Every filtered task lands in exactly one of the four columns, so the column
      lengths add up to the length of the filtered list. */
  lemma {:induction false} ColumnsPartition(filtered: seq<Task>)
    ensures |ColumnTasks(filtered, "todo")| + |ColumnTasks(filtered, "in_progress")|
          + |ColumnTasks(filtered, "in_review")| + |ColumnTasks(filtered, "done")| == |filtered|
    decreases |filtered|
  {
    if filtered != [] {
      ColumnsPartition(filtered[1..]);
    }
  }

  /** `assignees`: every assignee record of some task, each once (equal records are
      the same entry, as the Set of their JSON text makes them). */
  method CollectAssignees(tasks: seq<Task>) returns (r: seq<AssignedUser>)
    ensures forall i, j :: 0 <= i < j < |r| ==> r[i] != r[j]
    ensures forall a :: a in r <==> exists t :: t in tasks && t.assignedTo == Some(a)
  {
    r := [];
    var i := 0;
    while i < |tasks|
      invariant 0 <= i <= |tasks|
      invariant forall x, y :: 0 <= x < y < |r| ==> r[x] != r[y]
      invariant forall a :: a in r ==> exists j :: 0 <= j < i && tasks[j].assignedTo == Some(a)
      invariant forall j :: 0 <= j < i && tasks[j].assignedTo.Some? ==> tasks[j].assignedTo.value in r
    {
      match tasks[i].assignedTo {
        case Some(a) =>
          if a !in r {
            r := r + [a];
          }
        case None =>
      }
      i := i + 1;
    }
    forall a | exists t :: t in tasks && t.assignedTo == Some(a) ensures a in r {
      var t :| t in tasks && t.assignedTo == Some(a);
      var j :| 0 <= j < |tasks| && tasks[j] == t;
    }
  }

  /** Where a drag started or ended: a column id and a position in it. */
  datatype DropLocation = DropLocation(droppableId: string, index: nat)

  /** The update sent for the dropped task: its new status and order. */
  datatype OrderUpdate = OrderUpdate(id: string, status: string, taskOrder: real)

  /** `handleDragEnd`. The parent is told of the move (`moved`) before any remote call;
      `columnKeys` is the fetched order of the target column, in ascending order, or the
      fetch error, after which nothing more is sent. A failing update is only logged. */
  method HandleDragEnd(draggableId: string, source: DropLocation, destination: Option<DropLocation>,
                       columnKeys: Result<seq<real>, string>)
    returns (moved: Option<(string, string)>, update: Option<OrderUpdate>)
    ensures destination.None? || destination.value == source ==> moved.None? && update.None?
    ensures destination.Some? && destination.value != source ==>
      moved == Some((draggableId, destination.value.droppableId))
    ensures columnKeys.Failure? ==> update.None?
    ensures destination.Some? && destination.value != source && columnKeys.Success? ==>
      update == Some(OrderUpdate(draggableId, destination.value.droppableId,
                                 BoardNewOrder(columnKeys.value, destination.value.index)))
  {
    moved, update := None, None;
    if destination.None? {
      return;
    }
    var dest := destination.value;
    if source.droppableId == dest.droppableId && source.index == dest.index {
      return;
    }
    moved := Some((draggableId, dest.droppableId));
    match columnKeys {
      case Failure(_) =>
        return;
      case Success(keys) =>
        var newOrder := BoardNewOrder(keys, dest.index);
        update := Some(OrderUpdate(draggableId, dest.droppableId, newOrder));
    }
  }
}
