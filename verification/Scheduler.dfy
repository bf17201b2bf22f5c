/** AampScheduler as a class: each method is one locked section (or a call made without interference). */
module Scheduler {
  import opened SchedulerCore

  class AampScheduler {
    var mTaskQueue: seq<Task>
    var mNextTaskId: int
    var mCurrentTaskId: int
    var mLockOut: bool
    var mSchedulerRunning: bool
    var mState: PlayerState

    ghost function View(): Shared
      reads this
    {
      Shared(mTaskQueue, mNextTaskId, mCurrentTaskId, mLockOut, mSchedulerRunning, mState)
    }

    constructor ()
      ensures View() == FRESH
    {
      mTaskQueue, mNextTaskId, mCurrentTaskId := [], ID_DEFAULT, ID_INVALID;
      mLockOut, mSchedulerRunning, mState := false, false, Playable;
    }

    method StartScheduler()
      modifies this
      ensures View() == old(View()).(running := true)
    {
      mSchedulerRunning := true;
    }

    method ScheduleTask(body: nat) returns (id: int)
      modifies this
      ensures (View(), id) == Schedule(old(View()), body)
    {
      id := ID_INVALID;
      if mSchedulerRunning {
        if mState == Error || mState == Released {
          return;
        }
        if !mLockOut {
          id := mNextTaskId;
          mNextTaskId := mNextTaskId + 1;
          if mNextTaskId >= ID_MAX_VALUE {
            mNextTaskId := ID_DEFAULT;
          }
          mTaskQueue := mTaskQueue + [Task(body, id)];
        }
      }
    }

    /** The worker's section between taking mExMutex and running the task. */
    method TakeTask() returns (task: Task)
      requires mTaskQueue != []
      modifies this
      ensures task == old(mTaskQueue)[0]
      ensures View() == Dequeue(old(View()))
    {
      task := mTaskQueue[0];
      mTaskQueue := mTaskQueue[1..];
      if task.id != ID_INVALID {
        mCurrentTaskId := task.id;
      }
    }

    method RemoveAllTasks()
      modifies this
      ensures View() == ClearQueue(old(View()))
    {
      if mTaskQueue != [] {
        mTaskQueue := [];
      }
    }

    method RemoveTask(id: int) returns (ret: bool)
      modifies this
      ensures (View(), ret) == RemoveById(old(View()), id)
    {
      ret := false;
      if id != ID_INVALID && mCurrentTaskId != id {
        var it := 0;
        while it != |mTaskQueue|
          invariant it <= |mTaskQueue|
          invariant View() == old(View()) && !ret
          invariant forall j :: 0 <= j < it ==> mTaskQueue[j].id != id
        {
          if mTaskQueue[it].id == id {
            assert it == FirstWithId(mTaskQueue, id);
            mTaskQueue := mTaskQueue[..it] + mTaskQueue[it + 1..];
            ret := true;
            break;
          } else {
            it := it + 1;
          }
        }
      }
    }

    /** The part of SuspendScheduler after mExMutex is taken. */
    method LockOut()
      modifies this
      ensures View() == old(View()).(lockOut := true)
    {
      mLockOut := true;
    }

    /** The part of ResumeScheduler after mExMutex is released; also EnableScheduleTask. */
    method EnableScheduleTask()
      modifies this
      ensures View() == old(View()).(lockOut := false)
    {
      mLockOut := false;
    }

    method SetState(sstate: PlayerState)
      modifies this
      ensures View() == old(View()).(playerState := sstate)
    {
      mState := sstate;
    }
  }
}
