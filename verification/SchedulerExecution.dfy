/** Which tasks AampScheduler runs and which calls it refuses, over every interleaving. */
module SchedulerExecution {
  import opened SchedulerCore
  import opened SchedulerProtocol
  import opened SchedulerGuarantees

  /** No label of the run sets another state than a playable one. */
  predicate StaysPlayable(ls: seq<Label>) {
    forall p :: SetState(p) in ls ==> p == Playable
  }

  predicate StaysBlocked(ls: seq<Label>) {
    SetState(Playable) !in ls
  }

  /** What the worker took, in order: all begun but the one it is about to judge. */
  ghost predicate AllBegun(s: State) {
    && s.sh.playerState == Playable && s.h.skipped == []
    && s.h.dequeued == s.h.started + (if s.worker.Judging? then [s.worker.task.body] else [])
  }

  lemma AllBegunByWorker(s: State)
    requires Ids(s) && AllBegun(s) && WorkerEnabled(s)
    ensures AllBegun(WorkerApply(s))
  {
    if s.worker.Popping? && s.sh.queue != [] {
      assert s.sh.queue[0] in s.sh.queue;
    }
  }

  lemma AllBegunElsewhere(s: State, l: Label)
    requires AllBegun(s) && Enabled(s, l) && l != WorkerStep && (l.SetState? ==> l.p == Playable)
    ensures AllBegun(Apply(s, l))
  {
    WorkerUntouched(s, l);
    StateElsewhere(s, l);
  }

  lemma StateElsewhere(s: State, l: Label)
    requires Enabled(s, l)
    ensures Apply(s, l).sh.playerState == if l.SetState? then l.p else s.sh.playerState
  {
  }

  lemma {:induction false} AllBegunRun(s: State, ls: seq<Label>)
    requires Inv(s) && AllBegun(s) && CanRun(s, ls) && StaysPlayable(ls)
    ensures AllBegun(Run(s, ls))
    decreases |ls|
  {
    if ls != [] {
      assert ls[0] in ls && forall p :: SetState(p) in ls[1..] ==> SetState(p) in ls;
      if ls[0] == WorkerStep {
        AllBegunByWorker(s);
      } else {
        AllBegunElsewhere(s, ls[0]);
      }
      InvKept(s, ls[0]);
      AllBegunRun(Apply(s, ls[0]), ls[1..]);
    }
  }

  /** In a run in which the player stays playable nothing is skipped: every task the worker takes begins, in the
      order taken, the one just being judged excepted. */
  lemma EveryTakenTaskBegins(ls: seq<Label>)
    requires CanRun(START, ls) && forall p :: SetState(p) in ls ==> p == Playable
    ensures var s := Run(START, ls);
            && s.h.skipped == []
            && s.h.dequeued == s.h.started + (if s.worker.Judging? then [s.worker.task.body] else [])
  {
    StartInv();
    AllBegunRun(START, ls);
  }

  /** In ERROR or RELEASED, until the player becomes playable again, no task begins; those taken are skipped. */
  lemma {:induction false} NothingBeginsWhileBlocked(s: State, ls: seq<Label>)
    requires s.sh.playerState == Error || s.sh.playerState == Released
    requires CanRun(s, ls) && SetState(Playable) !in ls
    ensures Run(s, ls).h.started == s.h.started
    decreases |ls|
  {
    if ls != [] {
      assert ls[0] in ls;
      BlockedStep(s, ls[0]);
      NothingBeginsWhileBlocked(Apply(s, ls[0]), ls[1..]);
    }
  }

  lemma BlockedStep(s: State, l: Label)
    requires s.sh.playerState == Error || s.sh.playerState == Released
    requires Enabled(s, l) && l != SetState(Playable)
    ensures Apply(s, l).h.started == s.h.started
    ensures Apply(s, l).sh.playerState == Error || Apply(s, l).sh.playerState == Released
  {
    StateElsewhere(s, l);
  }

  // ---------------------------------------------------------------------------------------------
  // Refused calls

  /** ScheduleTask undisturbed: refused when the scheduler is stopped or locked out or the player is in ERROR or
      RELEASED, and otherwise the task goes to the back under the next id, which wraps below INT_MAX. */
  lemma ScheduleRule(s: Shared, body: nat)
    ensures var (s', id) := Schedule(s, body);
            if !s.running || s.lockOut || s.playerState == Error || s.playerState == Released then s' == s && id == 0
            else
              && id == s.nextTaskId && s'.queue == s.queue + [Task(body, id)]
              && s'.nextTaskId == (if id + 1 >= 2147483647 then 1 else id + 1)
              && s'.currentTaskId == s.currentTaskId
              && s'.lockOut == s.lockOut && s'.running == s.running && s'.playerState == s.playerState
  {
  }

  /** No thread inside ScheduleTask is past its check of mSchedulerRunning; of mState. */
  predicate NonePastRunning(s: State) {
    forall tid :: tid in s.callers ==> s.callers[tid] == ReadRunning
  }

  predicate NonePastState(s: State) {
    forall tid :: tid in s.callers ==> s.callers[tid] != EnterQueue
  }

  lemma StoppedCallStep(s: State, l: Label)
    requires Enabled(s, l) && !s.sh.running && NonePastRunning(s)
    ensures var s' := Apply(s, l); !s'.sh.running && NonePastRunning(s') && s'.h.issued == s.h.issued
  {
  }

  /** A stopped scheduler queues nothing more, once the calls that saw it running are over. */
  lemma {:induction false} StoppedQueuesNothing(s: State, ls: seq<Label>)
    requires !s.sh.running && NonePastRunning(s) && CanRun(s, ls)
    ensures Run(s, ls).h.issued == s.h.issued && !Run(s, ls).sh.running
    decreases |ls|
  {
    if ls != [] {
      StoppedCallStep(s, ls[0]);
      StoppedQueuesNothing(Apply(s, ls[0]), ls[1..]);
    }
  }

  lemma BlockedCallStep(s: State, l: Label)
    requires Enabled(s, l) && NonePastState(s) && l != SetState(Playable)
    requires s.sh.playerState == Error || s.sh.playerState == Released
    ensures var s' := Apply(s, l); NonePastState(s') && s'.h.issued == s.h.issued
  {
  }

  /** Nor does one in ERROR or RELEASED, once the calls that saw it playable are over. */
  lemma {:induction false} BlockedQueuesNothing(s: State, ls: seq<Label>)
    requires s.sh.playerState == Error || s.sh.playerState == Released
    requires NonePastState(s) && CanRun(s, ls) && SetState(Playable) !in ls
    ensures Run(s, ls).h.issued == s.h.issued
    decreases |ls|
  {
    if ls != [] {
      assert ls[0] in ls;
      BlockedStep(s, ls[0]);
      BlockedCallStep(s, ls[0]);
      BlockedQueuesNothing(Apply(s, ls[0]), ls[1..]);
    }
  }

  /** RemoveTask never takes out a task under id 0 or under the id of the current task. */
  lemma CurrentNeverRemoved(s: Shared, id: int)
    requires id == 0 || id == s.currentTaskId
    ensures RemoveById(s, id) == (s, false)
  {
  }

  // ---------------------------------------------------------------------------------------------
  // Emptying the queue

  /** The steps that are a call of RemoveAllTasks: by some thread, by the client, and by StopScheduler. */
  predicate RemovesAll(s: State, l: Label) {
    l == RemoveAllTasks || l == ClientRemoveAll || (l == ClientStep && s.client == StopRemoveAll)
  }

  /** RemoveAllTasks leaves the queue empty, and no task that was in it begins in any continuation. */
  lemma RemoveAllDiscards(s: State, l: Label, ls: seq<Label>, k: nat)
    requires Reachable(s) && Enabled(s, l) && RemovesAll(s, l) && CanRun(Apply(s, l), ls)
    requires k < |s.sh.queue|
    ensures Apply(s, l).sh.queue == [] && s.sh.queue[k].body !in Run(Apply(s, l), ls).h.started
  {
    var t, b := Apply(s, l), s.sh.queue[k].body;
    ReachableInv(s);
    InvKept(s, l);
    RunInv(t, ls);
    RemovedForever(t, ls);
    assert t.h.removed[|s.h.removed| + k] == b;
    assert Run(t, ls).h.removed[|s.h.removed| + k] == b;
    RemovedNotStarted(Run(t, ls), b);
  }

  /** StopScheduler is between its RemoveAllTasks and the release of the lockout. */
  predicate Emptied(c: ClientPc) {
    c == StopResume || c == ResumeWantQueue(true)
  }

  ghost predicate EmptyWhenEmptied(s: State) {
    Emptied(s.client) ==> s.sh.queue == []
  }

  lemma EmptyKept(s: State, l: Label)
    requires Inv(s) && EmptyWhenEmptied(s) && Enabled(s, l)
    ensures EmptyWhenEmptied(Apply(s, l))
  {
    if l == WorkerStep {
      WorkerShrinks(s);
    }
  }

  lemma WorkerShrinks(s: State)
    requires WorkerEnabled(s)
    ensures WorkerApply(s).client == s.client && (s.sh.queue == [] ==> WorkerApply(s).sh.queue == [])
  {
  }

  lemma {:induction false} EmptyRun(s: State, ls: seq<Label>)
    requires Inv(s) && EmptyWhenEmptied(s) && CanRun(s, ls)
    ensures EmptyWhenEmptied(Run(s, ls))
    decreases |ls|
  {
    if ls != [] {
      EmptyKept(s, ls[0]);
      InvKept(s, ls[0]);
      EmptyRun(Apply(s, ls[0]), ls[1..]);
    }
  }

  lemma EmptyAtStart()
    ensures Inv(START) && EmptyWhenEmptied(START)
  {
    StartInv();
  }

  lemma EmptyAt(s: State)
    requires Wakeups(s) && EmptyWhenEmptied(s)
    ensures s.client == StopResume || s.client == ResumeWantQueue(true) ==> s.sh.queue == [] && !s.sh.running
  {
  }

  /** When StopScheduler lifts the lockout again the queue is empty: nothing is queued behind its RemoveAllTasks
      before that, and afterwards only by calls that saw the scheduler running. */
  lemma StopEmptiesQueue(ls: seq<Label>)
    requires CanRun(START, ls)
    ensures var s := Run(START, ls);
            s.client == StopResume || s.client == ResumeWantQueue(true) ==> s.sh.queue == [] && !s.sh.running
  {
    EmptyAtStart();
    EmptyRun(START, ls);
    RunInv(START, ls);
    EmptyAt(Run(START, ls));
  }
}
