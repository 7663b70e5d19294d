# Kanban board core, modelled in Dafny

This project models the client-side logic of a small project-management application.
Each project has a kanban board of tasks (to do, in progress, in review, done), members
with roles, and a few metric panels. The database, the realtime channels and the
rendering are not modelled. Everything those parts deliver to the logic is a parameter:
the rows a query returns, whether a remote call succeeded, the change event a channel
delivers.

The modules follow the source files:

| module | file | what it holds |
|---|---|---|
| `TaskTypes` | task_types.dfy | The task record, its status and priority enums, their wire strings, labels and colours, and the row a change event carries. |
| `ProjectTypes` | project_types.dfy | Projects and memberships. |
| `ProjectPermissions` | permissions.dfy | The role-to-permission table and `checkRole`. |
| `TaskManagement` | task_management.dfy | The board hook. It holds the task list, the last-write-wins merge of refetched snapshots, the realtime handler, the filter comparator, `handleDragEnd` and `handleTaskClick`. |
| `KanbanBoard` | board.tsx | The filters, the per-column task lists, the assignee list and the drag-end order key. |
| `KanbanColumn` | column.tsx | The column's sort by `task_order` and its header colour. |
| `OrderKeys` | order_keys.dfy | The numeric and zero-padded order-key schemes, and `arrayMove`. |
| `ProjectService` | project_service.dfy | Row shaping, `updateTaskStatus` and `updateTaskOrder`. |
| `ProjectDetails` | project_details.dfy | The project page hook: fetch, move, delete, and the realtime handlers for tasks, members and the project. |
| `ProjectModals` | project_modals.dfy | The page's modal and selection state. |
| `MemberModal` | member_modal.dfy | The member dialog. |
| `TaskForm` | task_form.dfy | The board's task dialog. |
| `TaskDialog` | task_dialog.dfy | The project page's task dialog. |
| `StatusMetrics`, `ProjectSummary`, `SummaryStats`, `ChartMetrics`, `Dashboard` | | The metric counters. |
| `Middleware` | middleware.dfy | The route guard and user provisioning. |

`Wrappers`, `Strings` and `Sequences` hold shared helpers:
- `Option` and `Result`;
- lexicographic order on strings;
- case folding;
- decimal printing and left padding;
- filter, map and count over sequences.

Where the source changes state in place (a React hook's state, a dialog's fields), the
model is a class with those fields. Its methods state the whole new state. The pure
computations are functions, with lemmas about them.

## Model

| member | source | states |
|---|---|---|
| TaskTypes.ParseStatus | types/task.ts:1-6 | Exactly the four wire strings parse to a status, and a parsed status prints back to the same string. |
| TaskTypes.ParsePriority | types/task.ts:8-12 | Exactly the three wire strings parse to a priority, and a parsed priority prints back to the same string. |
| TaskTypes.StatusRoundTrip | types/task.ts:1-6 | Parsing a status's wire string gives the status back. |
| TaskTypes.PriorityRoundTrip | types/task.ts:8-12 | Parsing a priority's wire string gives the priority back. |
| TaskTypes.StatusLabelsDistinct | types/task.ts:102-107 | Every status has a non-empty label, and no two statuses share one. |
| TaskTypes.PriorityLabelsDistinct | types/task.ts:109-113 | Every priority has a non-empty label, and no two priorities share one. |
| TaskTypes.ColorsAreTotal | types/task.ts:115-126 | Every status and every priority has a `#rrggbb` colour. |
| TaskTypes.RowAsTask | lib/hooks/use-task-management.ts:171-173 | A change-event row used as a task carries exactly the row's columns. It has no assignee and no completion date. |
| TaskTypes.SpreadRow | lib/hooks/use-task-management.ts:143-147 | `{...task, ...row}`: the result's columns are exactly the row's (id, title, description, status, priority, order key, creator, assignee id, project, both timestamps). The joined assignee and the completion date are the task's. |
| TaskTypes.SpreadRowIdempotent | lib/hooks/use-task-management.ts:143-147 | Spreading the same row twice equals spreading it once. |
| ProjectTypes.RowAsMember | lib/hooks/use-project-details.ts:72-82 | A member taken from a change event keeps its id, user id and role. It has no join date and no joined user. |
| ProjectPermissions.PermissionsFor | lib/hooks/use-project-permissions.ts:59-101 | For each of the eight flags, exactly which of OWNER, ADMIN, MEMBER and VIEWER hold it. No role, and any other string, grants nothing. |
| ProjectPermissions.RoleTable | lib/hooks/use-project-permissions.ts:70-101 | The table row by row. OWNER has all eight flags. ADMIN has all but deleting the project. MEMBER can create, edit and assign tasks and comment. VIEWER can only comment. Anything else has none. |
| ProjectPermissions.RolesAreMonotone | lib/hooks/use-project-permissions.ts:70-101 | VIEWER ⊆ MEMBER ⊆ ADMIN ⊆ OWNER, flag by flag. Every role string is within OWNER, and an unknown role grants nothing. |
| ProjectPermissions.DerivedRole | lib/hooks/use-project-permissions.ts:36-54 | The project's creator is OWNER whatever the membership row says. Otherwise the role is the membership row's role, or none when there is no row or the lookup erred. |
| ProjectPermissions.PermissionState.constructor | lib/hooks/use-project-permissions.ts:7-17 | Every flag is false, with no role and no ownership. |
| ProjectPermissions.PermissionState.CheckRole | lib/hooks/use-project-permissions.ts:19-118 | No user id clears the role and ownership and leaves the permissions untouched. An exception clears all three. Otherwise ownership, the derived role and that role's permissions are stored. |
| OrderKeys.BoardNewOrder | components/kanban/board.tsx:127-139 | Read over numeric keys: an empty column gives 1000. Index 0 gives half the first key, which is below it when that key is positive. Past the end gives last + 1000, which is above the last key. Between two keys gives their midpoint, strictly between them when they ascend. |
| OrderKeys.ServiceNewOrder | lib/services/project-service.ts:137-146 | No tasks gives 1000. One task gives its key + 1000. Two or more give the midpoint of the last two keys. |
| OrderKeys.ServiceOrderNotAfterLast | lib/services/project-service.ts:142-146 | With two ascending last keys, the key given is below the last key: a moved task does not land at the end. |
| OrderKeys.PaddedDecimalIsDigits | lib/services/project-service.ts:197 | Left-padding the decimal form of n with '0' to w characters writes n in exactly w digits. |
| OrderKeys.DigitsOrdered | lib/services/project-service.ts:195-198 | Fixed-width digit strings order lexicographically as their numbers do. |
| OrderKeys.PaddedKeys | lib/services/project-service.ts:195-198 | The i-th key is `${i+1}` padded to five characters. |
| OrderKeys.PaddedKeysOrdered | lib/services/project-service.ts:195-198 | For fewer than 100000 ids, every key is five characters long and the keys ascend lexicographically with the index. |
| OrderKeys.ArrayMove | lib/hooks/use-task-management.ts:246 | `arrayMove` keeps the length and the multiset of elements, and puts the moved element at the target index. The other elements keep their relative order. |
| OrderKeys.ArrayMoveInverse | lib/hooks/use-task-management.ts:246 | Moving back from the target to the source undoes a move. |
| KanbanColumn.InsertByOrder | components/kanban/column.tsx:18-20 | Inserting one task adds exactly that task to the multiset. |
| KanbanColumn.InsertSorted | components/kanban/column.tsx:18-20 | Insertion into a sorted column keeps it ascending by `task_order`. |
| KanbanColumn.SortByOrder | components/kanban/column.tsx:18-20 | The sorted column is a permutation of its input, ascending by `task_order`, and keeps ids distinct. |
| KanbanColumn.HeaderCountMatchesCards | components/kanban/column.tsx:35 | The header count (the number of tasks given) equals the number of sorted cards shown. |
| KanbanColumn.ColumnColor | components/kanban/column.tsx:70-83 | Gray exactly for a string that is not one of the four statuses. |
| KanbanColumn.ColumnColorsDistinct | components/kanban/column.tsx:70-83 | The four statuses get four different colours. |
| KanbanBoard.FilterTasks | components/kanban/board.tsx:80-93 | A task is shown iff it is in the list and passes all three filters. Search matches the title or description case-insensitively. Priority matches, or the filter is 'all'. The assignee matches, or the filter is 'all', or it is 'unassigned' and there is no assignee. |
| KanbanBoard.DefaultFiltersShowAll | components/kanban/board.tsx:80-93 | With an empty search and both filters at 'all', the whole list is shown in order. |
| KanbanBoard.FilterTasksKeepsOrder | components/kanban/board.tsx:80-93 | Filtering a concatenation filters each part, so the board order is kept. |
| KanbanBoard.UnassignedFilterShowsUnassigned | components/kanban/board.tsx:87-89 | The 'unassigned' filter keeps exactly the unassigned tasks that match the search and priority. |
| KanbanBoard.ColumnTasks | components/kanban/board.tsx:229-231 | A column shows exactly the filtered tasks whose status is the column id. |
| KanbanBoard.ColumnsPartition | components/kanban/board.tsx:229-231 | The four columns' sizes add up to the number of filtered tasks. |
| KanbanBoard.CollectAssignees | components/kanban/board.tsx:69-77 | The assignees list has no duplicates and holds exactly the assignees of some task. |
| KanbanBoard.HandleDragEnd | components/kanban/board.tsx:96-156 | No destination, or the same column and index, does nothing. Otherwise the parent is told of the move first. A failed column fetch sends nothing. If the fetch succeeds, the update carries the destination status and `BoardNewOrder` of the fetched keys. |
| TaskManagement.MapSet | lib/hooks/use-task-management.ts:120 | `map.set` stores the task under its id and keeps every key and the map's invariant. |
| TaskManagement.FromList | lib/hooks/use-task-management.ts:112 | The id map of a list holds every listed id. |
| TaskManagement.FromListHolds | lib/hooks/use-task-management.ts:112 | Every entry of the id map is one of the listed tasks. |
| TaskManagement.MergeAllKeepsKeys | lib/hooks/use-task-management.ts:117-122 | The merge keeps every held id and adds every incoming id. |
| TaskManagement.MergeAllOnlyNewer | lib/hooks/use-task-management.ts:117-122 | A held entry is kept, or replaced only by an incoming task with a strictly later `updated_at`. |
| TaskManagement.MergeAllFrom | lib/hooks/use-task-management.ts:117-122 | Every merged entry is a held task or an incoming one. |
| TaskManagement.ValuesDistinct | lib/hooks/use-task-management.ts:124 | Listing the map's values gives pairwise-distinct ids. |
| TaskManagement.MergeKeepsHeldIds | lib/hooks/use-task-management.ts:109-126 | After the merge, every held id and every incoming id is present. The list has distinct ids and ascends by `task_order`. |
| TaskManagement.MergeAllNewerWins | lib/hooks/use-task-management.ts:117-122 | For every incoming task, the merged entry with its id has an `updated_at` not earlier than the incoming one. |
| TaskManagement.MergeNewerWins | lib/hooks/use-task-management.ts:109-126 | A snapshot task is never lost to an older held copy: the merged list has a task with its id that is at least as new. |
| TaskManagement.MergeReplacesOnlyNewer | lib/hooks/use-task-management.ts:117-122 | Each merged task was held or incoming. A held id ends with the held task, or with an incoming copy whose `updated_at` is strictly later. |
| TaskManagement.BuildMap | lib/hooks/use-task-management.ts:112 | The loop builds the same id map as `FromList`. |
| TaskManagement.MergeSnapshot | lib/hooks/use-task-management.ts:117-122 | The loop computes the merge `MergeAll`. |
| TaskManagement.ListValues | lib/hooks/use-task-management.ts:124 | The loop lists the map's values in key order. |
| TaskManagement.ApplyUpdate | lib/hooks/use-task-management.ts:143-147 | The length is kept. Tasks with another id are unchanged. A task with the row's id gets exactly the row's columns and keeps its joined assignee and completion date. |
| TaskManagement.UpdateUnknownIdIsNoOp | lib/hooks/use-task-management.ts:143-147 | An UPDATE for an unknown id changes nothing. |
| TaskManagement.UpdateIdempotent | lib/hooks/use-task-management.ts:143-147 | Applying the same UPDATE twice equals applying it once. |
| TaskManagement.RemoveId | lib/hooks/use-task-management.ts:161 | A task survives iff it was present and has another id. |
| TaskManagement.RemoveUnknownIdIsNoOp | lib/hooks/use-task-management.ts:161 | A DELETE for an unknown id changes nothing. |
| TaskManagement.RemovePresentIdShortensByOne | lib/hooks/use-task-management.ts:161 | With distinct ids, deleting a present id shortens the list by exactly one. |
| Strings.Compare | lib/hooks/use-task-management.ts:101 | `localeCompare` as a sign: 0 iff the strings are equal, negative iff the first sorts before the second, positive iff after. |
| TaskManagement.CompareAntisymmetric | lib/hooks/use-task-management.ts:101 | The string comparison is antisymmetric. |
| TaskManagement.TaskCompareAntisymmetric | lib/hooks/use-task-management.ts:83-105 | Swapping two tasks negates the comparator's result. |
| TaskManagement.CompareWithoutFiltersByOrder | lib/hooks/use-task-management.ts:99-104 | With no priority or assignee filter, tasks of one status compare by `task_order`, and the order is reversed for 'desc'. |
| TaskManagement.CompareNotTransitive | lib/hooks/use-task-management.ts:83-105 | The comparator is not transitive: three tasks exist for which it is not. |
| TaskManagement.FindIndex | lib/hooks/use-task-management.ts:225 | `findIndex` gives the first index holding the id, or nothing when no task has it. |
| TaskManagement.SetStatus | lib/hooks/use-task-management.ts:242 | Only the task at the index changes, and only its status. |
| TaskManagement.DropOnTaskKeepsStatus | lib/hooks/use-task-management.ts:229-243 | With distinct ids, a dragged task found in the drop target's column already has that column's status, so `statusChanged` never holds. |
| TaskManagement.ReorderKeysAscend | lib/hooks/use-task-management.ts:253 | The keys a reorder sends are five characters long and ascend with the position. |
| TaskManagement.TaskBoardState.constructor | lib/hooks/use-task-management.ts:45-52 | The initial tasks are held, with nothing selected and the modal closed. |
| TaskManagement.TaskBoardState.MergeInitial | lib/hooks/use-task-management.ts:109-127 | The held tasks become `MergedTasks` of the old list and the snapshot, whose last-write-wins behaviour `MergeReplacesOnlyNewer` and `MergeNewerWins` state. The selection and the modal are kept. |
| TaskManagement.TaskBoardState.OnTaskEvent | lib/hooks/use-task-management.ts:140-178 | UPDATE spreads the row over its tasks and the selected task. It reports a move unless the old row image has the same status, so an UPDATE whose old image lacks the status is always reported. DELETE with an id and status removes the id, closes the modal if the selected task was deleted, and reports. INSERT with an id appends the row, growing the list by one, and reports. Anything else changes nothing. |
| TaskManagement.TaskBoardState.HandleDragEnd | lib/hooks/use-task-management.ts:210-287 | Early exits change nothing. A drop on a task whose column holds the dragged task sends the column reordered by `arrayMove` with padded keys. A drop on another column sends the status change, and sets the status locally only after success. A failure raises the toast and leaves the list unchanged. |
| TaskManagement.TaskBoardState.HandleTaskClick | lib/hooks/use-task-management.ts:289-295 | A known id selects its first task and opens the modal. An unknown id changes nothing. |
| ProjectService.TransformTask | lib/services/project-service.ts:91-108 | The task's columns are exactly the row's, and it has no completion date. The assignee is absent iff the join is, and otherwise copies id, name and avatar. |
| ProjectService.TransformTasks | lib/services/project-service.ts:91-108 | One task per row, in the fetched order. |
| ProjectService.TransformKeepsIdsAndAssignees | lib/services/project-service.ts:91-108 | Each position keeps its row's id, and has an assignee iff its row had a joined user. |
| ProjectService.TransformTasksAppend | lib/services/project-service.ts:91-108 | Transforming a concatenation transforms each part, so order is preserved. |
| ProjectService.TransformMember | lib/services/project-service.ts:77-89 | A row without a user join gives no member, since reading the join throws. Otherwise `joined_at` is the row's `created_at`, the user is the joined user, and id, project id, user id and role are copied. |
| ProjectService.TransformMembers | lib/services/project-service.ts:77-89 | Fails with the `TypeError` iff some row lacks its user join. Otherwise one member per row, in order, each exactly `TransformMember` of its row. |
| ProjectService.UpdateTaskStatus | lib/services/project-service.ts:121-161 | A failed fetch is rethrown. Otherwise the update carries the new status, and the key is 1000, one key + 1000, or the midpoint of the last two keys. |
| ProjectService.UpdateTaskOrder | lib/services/project-service.ts:191-205 | The ids and status are sent unchanged, and the i-th id gets `${i+1}` padded to five characters. |
| ProjectService.UpdateTaskOrderKeysSortAsGiven | lib/services/project-service.ts:195-198 | For fewer than 100000 ids, the keys are five characters long and sort in the order the ids were given. |
| ProjectDetails.ReplaceById | lib/hooks/use-project-details.ts:63-66 | Every element with the id becomes the new value, and the others are unchanged. |
| ProjectDetails.ReplaceUnknownIdIsNoOp | lib/hooks/use-project-details.ts:63-66 | Replacing an unknown id changes nothing. |
| ProjectDetails.ReplaceIdempotent | lib/hooks/use-project-details.ts:63-66 | Replacing twice with a value that carries the id equals replacing once. |
| ProjectDetails.RemoveById | lib/hooks/use-project-details.ts:67-68 | Every survivor is an element of the list and lacks the id, and every element with another id survives. |
| ProjectDetails.RemoveUnknownIdIsNoOp | lib/hooks/use-project-details.ts:67-68 | Removing an unknown id changes nothing. |
| ProjectDetails.RemoveKeepsOrder | lib/hooks/use-project-details.ts:67-68 | Removal works part by part, so the survivors keep their order. |
| ProjectDetails.ProjectDetailsState.constructor | lib/hooks/use-project-details.ts:11-16 | Nothing loaded, loading, no error, not deleting. |
| ProjectDetails.ProjectDetailsState.FetchProjectDetails | lib/hooks/use-project-details.ts:18-32 | Loading always ends. Success stores the project, tasks and members. Failure stores only the error message. |
| ProjectDetails.ProjectDetailsState.HandleTaskMove | lib/hooks/use-project-details.ts:34-43 | Only after the remote call succeeds do the tasks with the id get the new status, and nothing else changes. On failure the list is unchanged. |
| ProjectDetails.ProjectDetailsState.HandleProjectDelete | lib/hooks/use-project-details.ts:45-58 | Without a project nothing happens. Otherwise success navigates, failure sets the error, and the delete flag ends false. |
| ProjectDetails.ProjectDetailsState.OnTaskChange | lib/hooks/use-project-details.ts:60-70 | INSERT appends the row. UPDATE replaces every task with the id by the row. DELETE removes the id. |
| ProjectDetails.ProjectDetailsState.OnMemberChange | lib/hooks/use-project-details.ts:72-82 | The same append / replace / remove rules, applied to the member list. |
| ProjectDetails.ProjectDetailsState.OnProjectChange | lib/hooks/use-project-details.ts:84-88 | Only an UPDATE or INSERT carrying a new row replaces the project. |
| ProjectModals.ModalState.constructor | lib/hooks/use-project-modals.ts:9-14 | All four modals are closed and both selections are empty. |
| ProjectModals.ModalState.HandleTaskClick | lib/hooks/use-project-modals.ts:18-24 | A known id selects the task and opens its modal. An unknown id changes nothing. |
| ProjectModals.ModalState.HandleMemberClick | lib/hooks/use-project-modals.ts:26-29 | The member (possibly none) is selected and the member modal opens. |
| ProjectModals.ModalState.CloseTaskModal | lib/hooks/use-project-modals.ts:31-34 | The task modal closes and the task is cleared. Member state is untouched. |
| ProjectModals.ModalState.CloseMemberModal | lib/hooks/use-project-modals.ts:36-39 | The member modal closes and the member is cleared. Task state is untouched. |
| MemberModal.ErrorText | components/modals/member-modal.tsx:166 | The error's message, or the fallback when the message is empty. |
| MemberModal.AvailableUsers | components/modals/member-modal.tsx:77-80 | A user is offered iff they are not yet a member, or they are the edited member's user. |
| MemberModal.AvailableUsersExcludeMembers | components/modals/member-modal.tsx:77-80 | When adding, no member is offered. When editing, the edited member's user is offered. |
| MemberModal.MemberDialog.constructor | components/modals/member-modal.tsx:51-56 | Fields start at their reset values, with no users loaded. |
| MemberModal.MemberDialog.Open | components/modals/member-modal.tsx:89-100 | The selection is the edited member's user and role, or '' and 'member' when adding. |
| MemberModal.MemberDialog.FetchUsers | components/modals/member-modal.tsx:58-87 | Success stores the available users. Failure stores the error. |
| MemberModal.MemberDialog.Close | components/modals/member-modal.tsx:220-227 | The user becomes '' and the role 'member'. The error is cleared and loading and deleting end. |
| MemberModal.MemberDialog.Submit | components/modals/member-modal.tsx:102-170 | A missing user or role only sets the error. Editing updates only the role, by member id and project id. Adding checks for an existing membership, and refuses with an error when one exists. Success resets the dialog. |
| MemberModal.MemberDialog.Delete | components/modals/member-modal.tsx:172-218 | No member means nothing happens. For an 'admin', the admin rows are counted, and exactly one refuses the delete. Other roles go straight to the delete. Success resets the dialog. |
| TaskForm.SubmitShownIffEditable | components/task/task-modal.tsx:313 | The submit button is shown exactly when the fields are enabled outside loading, and loading disables every field. |
| TaskForm.AssigneeValue | components/task/task-modal.tsx:263-270 | The selector shows the assignee id, or 'unassigned' for none. |
| TaskForm.AssigneeChoice | components/task/task-modal.tsx:270 | Choosing 'unassigned' stores none, and any other value stores that id. |
| TaskForm.AssigneeRoundTrip | components/task/task-modal.tsx:263-270 | Choosing what the selector shows gives back the stored assignee, and the reverse. |
| TaskForm.AssignableMembers | components/task/task-modal.tsx:49-82 | A member is assignable iff their role is not 'VIEWER' and they have a user. |
| TaskForm.TaskFormState.constructor | components/task/task-modal.tsx:21-29 | A new task starts from the given status (or TODO), priority MEDIUM and no assignee. An existing task's values are loaded. |
| TaskForm.TaskFormState.Reset | components/task/task-modal.tsx:33-47 | The fields are reloaded from the task, or set to the new-task defaults. |
| TaskForm.TaskFormState.Submit | components/task/task-modal.tsx:84-149 | A blank title raises the error toast and sends nothing. Otherwise an update of the existing task, or an insert, is sent, and success closes the dialog. |
| TaskForm.TaskFormState.Delete | components/task/task-modal.tsx:151-182 | Nothing happens without a task id, delete permission and confirmation. Otherwise the delete is sent. Success closes the dialog, and failure raises the fixed error toast. |
| TaskDialog.GatingByRole | components/modals/task-modal.tsx:89-90 | Through the role table: OWNER, ADMIN and MEMBER may edit and assign, only OWNER and ADMIN see delete, and creating is always allowed. |
| TaskDialog.SubmitErrorText | components/modals/task-modal.tsx:139-145 | Success shows no error. A thrown `Error` shows 'İşlem hatası: ' and its message. Anything else shows the fixed message. |
| TaskDialog.TaskDialogState.constructor | components/modals/task-modal.tsx:48-56 | The form starts at the reset values, not loading, with the confirmation closed. |
| TaskDialog.TaskDialogState.ResetForm | components/modals/task-modal.tsx:59-66 | Title and description become '', status 'todo', priority 'medium', assignee '', and the error is cleared. |
| TaskDialog.TaskDialogState.Populate | components/modals/task-modal.tsx:69-79 | An existing task's title, status and priority are loaded. A missing description or assignee becomes ''. Without a task the form is reset. |
| TaskDialog.TaskDialogState.OnOpenChange | components/modals/task-modal.tsx:82-86 | Closing resets the form. |
| TaskDialog.TaskDialogState.Submit | components/modals/task-modal.tsx:92-149 | The data carries title, description, status, priority, project, creator and the current time as `updated_at`. The existing order key is kept unless empty, and an empty assignee is sent as null. It is an update of the existing task or an insert with a creation time. Success closes the dialog, and failure shows the error. |
| TaskDialog.TaskDialogState.RequestDelete | components/modals/task-modal.tsx:331-335 | The confirmation opens only where the delete button is shown. |
| TaskDialog.TaskDialogState.Delete | components/modals/task-modal.tsx:151-173 | Without a task this is a no-op. Otherwise the delete is sent, success closes the dialog and failure sets the error. Either way the confirmation closes. |
| StatusMetrics.ComputeMetrics | components/task-metrics-charts.tsx:132-137 | Each status count is the number of rows with that status, and the total is their sum. |
| StatusMetrics.TotalCountsKnownStatuses | components/task-metrics-charts.tsx:137 | The total is at most the number of rows, with equality iff every row has one of the four statuses. |
| StatusMetrics.ChartData | components/task-metrics-charts.tsx:213-218 | Four entries in STATUS_CONFIG order, with their names and counts, each carrying the total. |
| StatusMetrics.ChartValuesSumToTotal | components/task-metrics-charts.tsx:213-218 | The chart entries add up to the total they carry. |
| StatusMetrics.Percentage | components/task-metrics-charts.tsx:265 | 0 when the total is 0, and otherwise value / total × 100. |
| StatusMetrics.PercentageBounded | components/task-metrics-charts.tsx:265 | A count within the total gives a percentage in [0, 100]. |
| StatusMetrics.MetricsPanel.constructor | components/task-metrics-charts.tsx:112-120 | Metrics are all zero, loading, with no error. |
| StatusMetrics.MetricsPanel.FetchMetrics | components/task-metrics-charts.tsx:122-156 | Success recounts. Failure keeps the metrics and stores the error. Loading always ends. |
| StatusMetrics.MetricsPanel.OnTaskChange | components/task-metrics-charts.tsx:172-175 | Any change event recounts from a fresh fetch, not incrementally. A successful refetch keeps the error as it was, and a failed one stores its message. |
| ProjectSummary.ComputeMetrics | components/project/project-summary.tsx:58-70 | The total and each status and priority count are row counts, and the member count defaults to 0. |
| ProjectSummary.CountsBoundedByTotal | components/project/project-summary.tsx:58-70 | Neither the status counts nor the priority counts add up to more than the total. |
| ProjectSummary.CompletionRate | components/project/project-summary.tsx:94 | 0 without tasks, and otherwise completed / total × 100 (the same percentage as `StatusMetrics.Percentage`). |
| ProjectSummary.CompletionRateBounded | components/project/project-summary.tsx:94 | The completion rate of computed metrics is in [0, 100]. |
| ProjectSummary.SummaryCard.constructor | components/project/project-summary.tsx:28-29 | No metrics, loading. |
| ProjectSummary.SummaryCard.FetchMetrics | components/project/project-summary.tsx:32-74 | Either error returns early, leaving the metrics unset and loading true. Otherwise the metrics are stored and loading ends. The member count is asked for only after the task query succeeds. |
| SummaryStats.ComputeStats | components/metrics/project-summary.tsx:15-29 | Completed, in-progress and to-do counts are the tasks with DONE, IN_PROGRESS and TODO. The total is the task count, and the rate is `StatusMetrics.Percentage` of completed over total. |
| SummaryStats.StatusCountsPartition | components/metrics/project-summary.tsx:16-19 | The four status counts add up to the number of tasks. |
| SummaryStats.StatsConsistent | components/metrics/project-summary.tsx:16-20 | completed + inProgress + todo + (in review) = total, so the three never exceed it. The rate is in [0, 100]. |
| ChartMetrics.Histogram | components/metrics/task-metrics-charts.tsx:55-58 | The keys are distinct and each is a value that occurs. Each count is the number of occurrences and at least 1. Every value is a key, and the counts add up to the length. |
| ChartMetrics.BumpTallies | components/metrics/task-metrics-charts.tsx:56 | One `acc[x] = (acc[x] \|\| 0) + 1` step turns the record for a prefix into the record for the prefix plus x. |
| ChartMetrics.SliceSumOfEntries | components/metrics/task-metrics-charts.tsx:60-64 | Mapping entries to chart slices keeps the sum of the counts. |
| ChartMetrics.Day | components/metrics/task-metrics-charts.tsx:82-95 | One day: its name, the tasks created that day, and the tasks created and completed that day, never more than the total. |
| ChartMetrics.WeeklyProgress | components/metrics/task-metrics-charts.tsx:79-96 | Exactly seven days, each named. A day's total is the number of tasks created that day. Its completed count is the number of tasks both created that day and completed that day with a non-empty date, so it never exceeds the total. |
| ChartMetrics.ChartsState.CalculateMetrics | components/metrics/task-metrics-charts.tsx:53-103 | Each distribution is a tally of its field over the tasks (distinct keys, each occurring value once with its exact count) mapped to slices with that value's label and colour. Both sum to the number of tasks, every value is at least 1, and there are at most four status slices and three priority slices. The weekly chart is `WeeklyProgress`. |
| ChartMetrics.DistinctStatusKeys | components/metrics/task-metrics-charts.tsx:55-64 | A record with distinct status keys has at most four entries. |
| ChartMetrics.DistinctPriorityKeys | components/metrics/task-metrics-charts.tsx:67-76 | A record with distinct priority keys has at most three entries. |
| Dashboard.DashboardStatsOf | lib/services/dashboard-service.ts:9-38 | A failed query is rethrown, the project error first. Otherwise: the project count, the task count, and the DONE and IN_PROGRESS counts. |
| Dashboard.TwoCountsBounded | lib/services/dashboard-service.ts:31-32 | The counts of two distinct values never exceed the length. |
| Dashboard.DashboardCountsBounded | lib/services/dashboard-service.ts:30-32 | completedTasks + inProgressTasks ≤ totalTasks. |
| Dashboard.UserProjects | lib/services/dashboard-service.ts:40-79 | A failed query is rethrown. Every project is kept in order with its columns and owner, and each member is cut to exactly its id, role and user, in order. |
| Middleware.BeforeAt | middleware.ts:88 | `split('@')[0]` is a prefix with no '@' that stops at the first '@' or at the end. |
| Middleware.BeforeAtExact | middleware.ts:88 | That prefix is exactly the text before the first '@', or the whole string when there is none. |
| Middleware.DisplayName | middleware.ts:88 | The full name when present and non-empty. Otherwise the part of the email before '@', or nothing without an email. |
| Middleware.Provision | middleware.ts:60-100 | A row is inserted iff there is a session and both lookups succeed without finding a row. It carries the session's id, email, display name and avatar. |
| Middleware.RouteDecision | middleware.ts:103-112 | Redirect to login iff there is no session on a '/dashboard' path. Redirect to the dashboard iff there is a session on an '/auth' path. Otherwise pass through. |
| Middleware.RedirectsLeaveTheirPrefix | middleware.ts:103-110 | Neither redirect target is guarded by the same rule, and the login page redirects a signed-in user. |

## Left out

- The database, the realtime channels, `toast`, `confirm` and the router. Every answer they give is a parameter (rows, `Result`, a success flag). A request is returned as a value and is not performed.
- Asynchrony. Each handler runs as one atomic step. An interleaving of two in-flight handlers, and the stale closures React would give them, are not modelled.
- `localeCompare` and JavaScript `<` on ISO dates are modelled as plain lexicographic order on characters. Locale collation is not modelled.
- Lower-casing (`toLowerCase`) covers ASCII only. Blank-title trimming (`trim`) treats only space, tab, newline and carriage return as whitespace.
- TaskManagement.TaskCompare: the sort in `filteredTasks` uses a comparator that is not transitive (proved in `CompareNotTransitive`). The resulting order depends on the engine, so the sorted order itself is not modelled, only the filter and the comparator's properties.
- TaskManagement.TaskBoardState.HandleDragEnd: the source mutates the shared task object in place (`updatedTasks[i].status = ...`), also before the remote call in the drop-on-task branch. The model copies instead. Aliasing through the previous list is not captured, and the status write in that branch is dead anyway (proved in `DropOnTaskKeepsStatus`).
- `handleDragStart` and `handleDragOver` only store ids for visual feedback and are not modelled.
- The debounce of the search and filter inputs.
- OrderKeys.BoardNewOrder: the board's arithmetic on `task_order`, which is text in the database, is modelled as arithmetic on real numbers. In JavaScript, `task_order / 2` (index 0) coerces the text to a number. But `+ 1000` past the end, and `prevOrder + nextOrder` in the midpoint, concatenate the strings: "2000" and "3000" give "20003000", halved to 10001500, which is not between them. Only the numeric reading is captured. The bounds in its row hold for that reading.
- OrderKeys.ServiceNewOrder: `parseInt` of the keys is not modelled. The keys arrive as integers, and the midpoint is a real, where the source prints a possibly fractional number.
- KanbanBoard.ColumnsPartition: a task's status is one of the four statuses by construction. The board types it as any string, and a task with another status would show in no column, so the column sizes would add up to less than the filtered count. That case is not representable here. StatusMetrics, which counts raw status strings, does model it (`TotalCountsKnownStatuses`).
- Floating point. Rates and percentages are exact reals.
- Dates and clocks. Timestamps are parameters. In the weekly chart, which day a task was created or completed on is a predicate parameter, because the `Date` arithmetic is not modelled.
- The `onTaskMove` realtime effect of the board (components/kanban/board.tsx:51-66) only forwards events to the parent and is not modelled.
- The cookie callbacks of the middleware, which only rebuild the pass-through response, are not modelled.
- `fetchUsers` in the member dialog reading a null user list as empty is folded into the fetched sequence.
- The recent-tasks query of the dashboard service returns rows unchanged and is not modelled.
- KanbanColumn.SortByOrder: the stability of `Array.prototype.sort` (tasks with equal `task_order` keep their input order) is not stated, only sortedness and permutation. The model's insertion sort is stable, but no contract says so.
- KanbanBoard.CollectAssignees: the first-occurrence order of `Array.from(new Set(...))` is not stated, only membership and distinctness.
- ChartMetrics.Histogram: the insertion order of `Object.entries` (keys in order of first occurrence) is not stated, only the tally.
- Sorting in `column.tsx` works on a copy. The model's functions never change their input, so this holds by construction and has no separate statement.
