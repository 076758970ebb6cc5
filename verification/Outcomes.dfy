/** The source reports an internal error by throwing from `runtimeError`, which ends the run.
    The model makes that outcome a value, tagged with the check that failed. */
module Outcomes {

  datatype Fault =
    | ParentNotFinished      // removeAndScheduleParent on a parent that still runs
    | NotInHeaps             // remove: the pid is in neither heap
    | NothingToRun           // scheduleNextProcess with both heaps empty
    | EmptyHeap              // top() of an empty priority queue
    | NoSuchTracee           // a per-pid map has no entry
    | NoGroupEntry           // deleteMultimapEntry found nothing
    | GroupExists            // a new process whose thread group is already there
    | ExitGroupDeath         // nonEventExit while the exit_group flag is still set
    | ChildrenLeft           // nonEventExit with children left
    | ThreadedExec           // exec from a group with more than one member

  datatype Outcome<+T> = Ok(value: T) | Error(fault: Fault) {

    predicate IsFailure() {
      Error?
    }

    function PropagateFailure<U>(): Outcome<U>
      requires Error?
    {
      Error(fault)
    }

    function Extract(): T
      requires Ok?
    {
      value
    }
  }
}
