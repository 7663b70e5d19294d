/** The project page's modal state (lib/hooks/use-project-modals.ts): four open flags and
    the selected task and member. */
module ProjectModals {
  import opened Wrappers
  import opened TaskTypes
  import opened ProjectTypes
  import TaskManagement

  class ModalState {
    var isTaskModalOpen: bool
    var isProjectModalOpen: bool
    var isMemberModalOpen: bool
    var isDeleteModalOpen: bool
    var selectedTask: Option<Task>
    var selectedMember: Option<ProjectMember>

    /** Every modal closed, nothing selected. */
    constructor()
      ensures !isTaskModalOpen && !isProjectModalOpen && !isMemberModalOpen && !isDeleteModalOpen
      ensures selectedTask.None? && selectedMember.None?
    {
      isTaskModalOpen, isProjectModalOpen, isMemberModalOpen, isDeleteModalOpen := false, false, false, false;
      selectedTask, selectedMember := None, None;
    }

    /** `handleTaskClick`: the first task with the id is selected and its modal opened;
        an unknown id changes nothing. */
    method HandleTaskClick(tasks: seq<Task>, taskId: string)
      modifies this
      ensures isProjectModalOpen == old(isProjectModalOpen) && isMemberModalOpen == old(isMemberModalOpen)
      ensures isDeleteModalOpen == old(isDeleteModalOpen) && selectedMember == old(selectedMember)
      ensures TaskManagement.FindIndex(tasks, taskId).None? ==>
        selectedTask == old(selectedTask) && isTaskModalOpen == old(isTaskModalOpen)
      ensures TaskManagement.FindIndex(tasks, taskId).Some? ==>
        selectedTask == Some(tasks[TaskManagement.FindIndex(tasks, taskId).value])
        && selectedTask.value.id == taskId && isTaskModalOpen
    {
      var i := TaskManagement.FindIndex(tasks, taskId);
      if i.Some? {
        selectedTask := Some(tasks[i.value]);
        isTaskModalOpen := true;
      }
    }

    /** `handleMemberClick`: select the member (none when adding) and open the member modal. */
    method HandleMemberClick(member: Option<ProjectMember>)
      modifies this
      ensures selectedMember == member && isMemberModalOpen
      ensures isTaskModalOpen == old(isTaskModalOpen) && isProjectModalOpen == old(isProjectModalOpen)
      ensures isDeleteModalOpen == old(isDeleteModalOpen) && selectedTask == old(selectedTask)
    {
      selectedMember := member;
      isMemberModalOpen := true;
    }

    /** `closeTaskModal`: close it and clear the task; member state is untouched. */
    method CloseTaskModal()
      modifies this
      ensures !isTaskModalOpen && selectedTask.None?
      ensures isProjectModalOpen == old(isProjectModalOpen) && isMemberModalOpen == old(isMemberModalOpen)
      ensures isDeleteModalOpen == old(isDeleteModalOpen) && selectedMember == old(selectedMember)
    {
      isTaskModalOpen := false;
      selectedTask := None;
    }

    /** `closeMemberModal`: close it and clear the member; task state is untouched. */
    method CloseMemberModal()
      modifies this
      ensures !isMemberModalOpen && selectedMember.None?
      ensures isTaskModalOpen == old(isTaskModalOpen) && isProjectModalOpen == old(isProjectModalOpen)
      ensures isDeleteModalOpen == old(isDeleteModalOpen) && selectedTask == old(selectedTask)
    {
      isMemberModalOpen := false;
      selectedMember := None;
    }
  }
}
