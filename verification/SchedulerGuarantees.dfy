/** What AampScheduler promises its users, over every interleaving. */
module SchedulerGuarantees {
  import opened SchedulerCore
  import opened SchedulerProtocol

  // ---------------------------------------------------------------------------------------------
  // Conservation

  lemma {:induction false} UpToCount(n: nat, b: nat)
    ensures UpTo(n)[b] == if b < n then 1 else 0
  {
    if n > 0 {
      UpToCount(n - 1, b);
    }
  }

  /** In how many places, counted with repetition, task b is found. */
  ghost function Places(s: State, b: nat): nat {
    multiset(Bodies(s.sh.queue))[b] + multiset(Held(s.worker))[b] + multiset(s.h.done)[b]
    + multiset(s.h.skipped)[b] + multiset(s.h.removed)[b]
  }

  /** Every task ever queued is in exactly one of: queued, held, done, skipped, removed. */
  lemma ExactlyOnePlace(s: State, b: nat)
    requires Inv(s)
    ensures Places(s, b) == if b < s.h.issued then 1 else 0
  {
    UpToCount(s.h.issued, b);
    assert UpTo(s.h.issued)[b]
        == multiset(Bodies(s.sh.queue))[b] + multiset(s.h.dequeued)[b] + multiset(s.h.removed)[b];
  }

  lemma StartedIsDoneOrHeld(s: State, b: nat)
    requires Inv(s) && b in s.h.started
    ensures multiset(s.h.done)[b] + multiset(Held(s.worker))[b] >= 1
  {
    if b in s.h.done {
      assert b in multiset(s.h.done);
    } else {
      assert Held(s.worker) == [b];
    }
  }

  /** Over every run: no task is lost or duplicated, and tasks are taken and begun in schedule order. */
  lemma ReachableConserves(s: State)
    requires Reachable(s)
    ensures forall b: nat :: Places(s, b) == if b < s.h.issued then 1 else 0
    ensures Increasing(s.h.dequeued) && Increasing(s.h.started)
    ensures forall t :: t in s.sh.queue ==> forall d :: d in s.h.dequeued ==> d < t.body
  {
    ReachableInv(s);
    forall b: nat ensures Places(s, b) == if b < s.h.issued then 1 else 0 {
      ExactlyOnePlace(s, b);
    }
    var n := |s.h.dequeued|;
    assert forall i :: 0 <= i < n ==> Order(s)[i] == s.h.dequeued[i];
    forall t, d | t in s.sh.queue && d in s.h.dequeued ensures d < t.body {
      var i :| 0 <= i < n && s.h.dequeued[i] == d;
      var j :| 0 <= j < |s.sh.queue| && s.sh.queue[j] == t;
      assert Order(s)[n + j] == t.body;
    }
  }

  // ---------------------------------------------------------------------------------------------
  // The suspend barrier

  /** A task taken and not finished exists only while the worker holds mExMutex. */
  lemma HeldOnlyUnderExecLock(s: State)
    requires Reachable(s) && Held(s.worker) != []
    ensures s.ex == Worker && !s.client.Suspended? && !s.client.StopRemoveAll?
  {
    ReachableInv(s);
  }

  /** While the client is suspended the worker holds no task. */
  lemma SuspendedMeansIdle(s: State)
    requires Reachable(s) && s.client.Suspended?
    ensures Held(s.worker) == [] && s.h.started == s.h.done
    ensures s.ex == Client && s.sh.lockOut
  {
    ReachableInv(s);
  }

  lemma QuietStep(s: State, l: Label)
    requires Inv(s) && s.client.Suspended? && Enabled(s, l) && l != BeginResume && l != BeginStop
    ensures var s' := Apply(s, l);
            s'.client.Suspended? && s'.h.started == s.h.started && s'.h.done == s.h.done
            && s'.h.issued == s.h.issued && s'.h.dequeued == s.h.dequeued
  {
  }

  /** Between Suspend and Resume nothing is queued, taken, begun or finished, whatever the others do. */
  lemma {:induction false} NothingRunsWhileSuspended(s: State, ls: seq<Label>)
    requires Inv(s) && s.client.Suspended? && CanRun(s, ls)
    requires BeginResume !in ls && BeginStop !in ls
    ensures var s' := Run(s, ls);
            s'.client.Suspended? && s'.h.started == s.h.started && s'.h.done == s.h.done
            && s'.h.issued == s.h.issued && s'.h.dequeued == s.h.dequeued
    decreases |ls|
  {
    if ls != [] {
      QuietStep(s, ls[0]);
      InvKept(s, ls[0]);
      NothingRunsWhileSuspended(Apply(s, ls[0]), ls[1..]);
    }
  }

  /** No task numbered below n is queued or held, and none began after the first k starts. */
  ghost predicate Cut(s: State, n: nat, k: nat) {
    && n <= s.h.issued
    && (forall t :: t in s.sh.queue ==> n <= t.body)
    && (forall b :: b in Held(s.worker) ==> n <= b)
    && k <= |s.h.started|
    && forall i :: k <= i < |s.h.started| ==> n <= s.h.started[i]
  }

  lemma CutKeptByWorker(s: State, n: nat, k: nat)
    requires Cut(s, n, k) && WorkerEnabled(s)
    ensures Cut(WorkerApply(s), n, k) && s.h.started <= WorkerApply(s).h.started
  {
    if s.worker.Judging? {
      assert s.worker.task.body in Held(s.worker);
    } else if s.worker.Popping? && s.sh.queue != [] {
      assert s.sh.queue[0] in s.sh.queue;
    }
  }

  /** A step of anyone else leaves the worker its task and may remove or add one. */
  lemma QueueElsewhere(s: State, l: Label)
    requires Enabled(s, l) && l != WorkerStep
    ensures var s' := Apply(s, l);
            && Held(s'.worker) == Held(s.worker) && s'.h.started == s.h.started && s.h.issued <= s'.h.issued
            && forall t :: t in s'.sh.queue ==> t in s.sh.queue || t.body == s.h.issued
  {
  }

  lemma CutKept(s: State, l: Label, n: nat, k: nat)
    requires Cut(s, n, k) && Enabled(s, l)
    ensures Cut(Apply(s, l), n, k) && s.h.started <= Apply(s, l).h.started
  {
    if l == WorkerStep {
      CutKeptByWorker(s, n, k);
    } else {
      QueueElsewhere(s, l);
    }
  }

  lemma {:induction false} CutForever(s: State, ls: seq<Label>, n: nat, k: nat)
    requires Cut(s, n, k) && CanRun(s, ls)
    ensures Cut(Run(s, ls), n, k) && s.h.started <= Run(s, ls).h.started
    decreases |ls|
  {
    if ls != [] {
      CutKept(s, ls[0], n, k);
      CutForever(Apply(s, ls[0]), ls[1..], n, k);
    }
  }

  /** DELIA-57121: once SuspendScheduler has returned and RemoveAllTasks has run, no task queued before
      that point is executing, and none ever begins or goes on, in any continuation. */
  lemma SuspendBarrier(s: State, ls: seq<Label>)
    requires Reachable(s) && s.client.Suspended? && Enabled(s, ClientRemoveAll)
    requires CanRun(Apply(s, ClientRemoveAll), ls)
    ensures var s' := Run(Apply(s, ClientRemoveAll), ls);
            && s.h.started <= s'.h.started
            && (forall i :: |s.h.started| <= i < |s'.h.started| ==> s.h.issued <= s'.h.started[i])
            && (forall b :: b in Held(s'.worker) ==> s.h.issued <= b)
            && (forall t :: t in s'.sh.queue ==> s.h.issued <= t.body)
  {
    SuspendedMeansIdle(s);
    CutForever(Apply(s, ClientRemoveAll), ls, s.h.issued, |s.h.started|);
  }

  // ---------------------------------------------------------------------------------------------
  // RemoveTask and ids

  lemma RemovedGrows(s: State, l: Label)
    requires Enabled(s, l)
    ensures s.h.removed <= Apply(s, l).h.removed
  {
  }

  lemma {:induction false} RemovedForever(s: State, ls: seq<Label>)
    requires CanRun(s, ls)
    ensures s.h.removed <= Run(s, ls).h.removed
    decreases |ls|
  {
    if ls != [] {
      RemovedGrows(s, ls[0]);
      RemovedForever(Apply(s, ls[0]), ls[1..]);
    }
  }

  lemma RemovedNotStarted(s: State, b: nat)
    requires Inv(s) && b in s.h.removed
    ensures b !in s.h.started && b !in Held(s.worker) && b !in Bodies(s.sh.queue)
  {
    ExactlyOnePlace(s, b);
    assert b in multiset(s.h.removed);
    if b in s.h.started {
      StartedIsDoneOrHeld(s, b);
      assert false;
    }
    assert b in Held(s.worker) ==> b in multiset(Held(s.worker));
    assert b in Bodies(s.sh.queue) ==> b in multiset(Bodies(s.sh.queue));
  }

  /** A task that RemoveTask took out never runs, in any continuation. */
  lemma RemovedNeverRuns(s: State, id: int, ls: seq<Label>)
    requires Reachable(s) && Enabled(s, RemoveTask(id)) && RemoveById(s.sh, id).1
    requires CanRun(Apply(s, RemoveTask(id)), ls)
    ensures var b := s.sh.queue[FirstWithId(s.sh.queue, id)].body;
            b !in Run(Apply(s, RemoveTask(id)), ls).h.started
  {
    ReachableInv(s);
    InvKept(s, RemoveTask(id));
    var s1 := Apply(s, RemoveTask(id));
    RunInv(s1, ls);
    RemovedForever(s1, ls);
    var b := s.sh.queue[FirstWithId(s.sh.queue, id)].body;
    assert s1.h.removed[|s.h.removed|] == b;
    assert Run(s1, ls).h.removed[|s.h.removed|] == b;
    RemovedNotStarted(Run(s1, ls), b);
  }

  /** Fewer than one id period lies between the oldest queued or current task and the next to be queued. */
  predicate WithinIdPeriod(s: State) {
    && (s.sh.queue != [] ==> s.h.issued - s.sh.queue[0].body <= ID_PERIOD)
    && (s.h.dequeued != [] ==> s.h.issued - Last(s.h.dequeued) <= ID_PERIOD)
  }

  lemma ReachableOrder(s: State)
    requires Reachable(s)
    ensures Fifo(s) && Ids(s)
  {
    ReachableInv(s);
  }

  lemma OrderBehind(s: State, i: nat)
    requires Fifo(s) && i < |s.sh.queue|
    ensures s.sh.queue[i].body < s.h.issued
    ensures s.h.dequeued != [] ==> Last(s.h.dequeued) < s.sh.queue[i].body
  {
    var n := |s.h.dequeued|;
    assert Order(s)[n + i] == s.sh.queue[i].body;
    assert n > 0 ==> Order(s)[n - 1] == Last(s.h.dequeued);
  }

  lemma OrderBetween(s: State, i: nat, j: nat)
    requires Fifo(s) && i < j < |s.sh.queue|
    ensures s.sh.queue[i].body < s.sh.queue[j].body
  {
    var n := |s.h.dequeued|;
    assert Order(s)[n + i] == s.sh.queue[i].body && Order(s)[n + j] == s.sh.queue[j].body;
  }

  lemma QueuedId(s: State, i: nat)
    requires Ids(s) && i < |s.sh.queue|
    ensures s.sh.queue[i].id == IdOf(s.sh.queue[i].body)
  {
    assert s.sh.queue[i] in s.sh.queue;
  }

  lemma QueuedIdsDiffer(s: State, i: nat, j: nat)
    requires Fifo(s) && Ids(s) && WithinIdPeriod(s) && i < j < |s.sh.queue|
    ensures s.sh.queue[i].id != s.sh.queue[j].id
  {
    QueuedId(s, i);
    QueuedId(s, j);
    OrderBetween(s, i, j);
    OrderBehind(s, j);
    if i > 0 {
      OrderBetween(s, 0, i);
    }
    IdOfDistinct(s.sh.queue[i].body, s.sh.queue[j].body);
  }

  lemma QueuedNotCurrent(s: State, i: nat)
    requires Fifo(s) && Ids(s) && WithinIdPeriod(s) && i < |s.sh.queue|
    ensures s.sh.queue[i].id != s.sh.currentTaskId && s.sh.queue[i].id != ID_INVALID
  {
    QueuedId(s, i);
    OrderBehind(s, i);
    if s.h.dequeued != [] {
      IdOfDistinct(Last(s.h.dequeued), s.sh.queue[i].body);
    }
  }

  lemma RemoveByDistinctId(sh: Shared, id: int)
    requires forall i, j :: 0 <= i < j < |sh.queue| ==> sh.queue[i].id != sh.queue[j].id
    requires forall i :: 0 <= i < |sh.queue| ==> sh.queue[i].id != sh.currentTaskId && sh.queue[i].id != ID_INVALID
    ensures RemoveById(sh, id).1 <==> exists t :: t in sh.queue && t.id == id
    ensures forall t :: t in sh.queue && t.id == id ==>
              RemoveById(sh, id).0.queue == WithoutIndex(sh.queue, FirstWithId(sh.queue, id))
              && t !in RemoveById(sh, id).0.queue
  {
    if Removable(sh, id) {
      assert sh.queue[FirstWithId(sh.queue, id)] in sh.queue;
    }
  }

  /** Within one period queued tasks have distinct ids, none equal to the current one; so RemoveTask
      succeeds exactly when a queued task has the id, and then takes out that one task. */
  lemma RemoveTaskExact(s: State, id: int)
    requires Reachable(s) && WithinIdPeriod(s)
    ensures forall i, j :: 0 <= i < j < |s.sh.queue| ==> s.sh.queue[i].id != s.sh.queue[j].id
    ensures RemoveById(s.sh, id).1 <==> exists t :: t in s.sh.queue && t.id == id
    ensures forall t :: t in s.sh.queue && t.id == id ==>
              RemoveById(s.sh, id).0.queue
              == WithoutIndex(s.sh.queue, FirstWithId(s.sh.queue, id)) && t !in RemoveById(s.sh, id).0.queue
  {
    ReachableOrder(s);
    var q := s.sh.queue;
    forall i, j | 0 <= i < j < |q| ensures q[i].id != q[j].id {
      QueuedIdsDiffer(s, i, j);
    }
    forall i | 0 <= i < |q| ensures q[i].id != s.sh.currentTaskId && q[i].id != ID_INVALID {
      QueuedNotCurrent(s, i);
    }
    RemoveByDistinctId(s.sh, id);
  }

  /** The id counter stays in range and the worker's "invalid ID" branch is never taken. */
  lemma IdsStayValid(s: State)
    requires Reachable(s)
    ensures ID_DEFAULT <= s.sh.nextTaskId < ID_MAX_VALUE
    ensures forall t :: t in s.sh.queue ==> ID_DEFAULT <= t.id < ID_MAX_VALUE
    ensures s.worker.Popping? && s.sh.queue != [] ==> WorkerApply(s).worker.Judging?
  {
    ReachableInv(s);
    assert s.sh.queue != [] ==> s.sh.queue[0] in s.sh.queue;
  }

  // ---------------------------------------------------------------------------------------------
  // Stopping

  /** No thread waits for mExMutex while holding mQMutex, and somebody can move unless the client is
      between calls and the worker has nothing it may do. */
  lemma NeverStuck(s: State)
    requires Reachable(s)
    ensures s.q != Client && (s.worker.WantExec? ==> s.q == Nobody)
    ensures WorkerEnabled(s) || ClientEnabled(s)
            || (s.client.Active? && s.worker.Waiting? && s.sh.queue == [])
            || (s.client.Suspended? && (s.worker.WantExec? || (s.worker.Waiting? && s.sh.queue == [])))
            || (s.client.Stopped? && s.worker.Exited?)
  {
    ReachableInv(s);
  }

  /** A queued task is never stranded: while the client is not suspended the worker can move. */
  lemma QueuedTaskNotStranded(s: State)
    requires Reachable(s) && s.client.Active? && s.sh.queue != []
    ensures WorkerEnabled(s)
  {
    ReachableInv(s);
  }

  function WorkerRank(w: WorkerPc): nat {
    match w
    case Exited => 0
    case Testing => 1
    case ReleasingExec | WantQueue => 2
    case WantQueueAfterRun | Waiting => 3
    case Running(_) => 4
    case Judging(_) => 5
    case Popping => 6
    case WantQueueToPop => 7
    case WantExec => 8
    case Checking => 9
  }

  function ClientRank(c: ClientPc): nat {
    match c
    case Stopped => 0
    case StopJoin => 1
    case StopNotify => 2
    case ResumeWantQueue(_) => 3
    case StopResume => 4
    case StopRemoveAll => 5
    case SuspendWantQueue(_) => 6
    case SuspendWantExec(_) => 7
    case _ => 8
  }

  /** How many steps of the worker and the stopper remain at most. */
  function StopRank(s: State): nat {
    WorkerRank(s.worker) + ClientRank(s.client)
  }

  predicate Counted(l: Label) {
    l == WorkerStep || l == ClientStep || l == SpuriousWake
  }

  lemma StopStep(s: State, l: Label)
    requires Inv(s) && Stopping(s.client) && Enabled(s, l)
    ensures Stopping(Apply(s, l).client)
    ensures StopRank(Apply(s, l)) + (if Counted(l) then 1 else 0) <= StopRank(s)
  {
    if l == WorkerStep {
      StopStepOfWorker(s);
    } else if l == ClientStep {
      StopStepOfClient(s);
    }
  }

  lemma StopStepOfWorker(s: State)
    requires Locks(s) && Wakeups(s) && Stopping(s.client) && WorkerEnabled(s)
    ensures WorkerApply(s).client == s.client && WorkerRank(WorkerApply(s).worker) < WorkerRank(s.worker)
  {
  }

  lemma StopStepOfClient(s: State)
    requires Locks(s) && Wakeups(s) && Stopping(s.client) && ClientEnabled(s)
    ensures Stopping(ClientApply(s).client) && StopRank(ClientApply(s)) < StopRank(s)
  {
  }

  function CountedSteps(ls: seq<Label>): nat {
    if ls == [] then 0 else (if Counted(ls[0]) then 1 else 0) + CountedSteps(ls[1..])
  }

  /** DELIA-57122: StopScheduler gets through. However others interleave, the worker and the stopper take
      at most 17 more steps, and as long as StopScheduler has not returned one of them can take a step. */
  lemma {:induction false} StopCompletes(s: State, ls: seq<Label>)
    requires Inv(s) && Stopping(s.client) && CanRun(s, ls)
    ensures CountedSteps(ls) <= StopRank(s) <= 17
    ensures var s' := Run(s, ls);
            s'.client.Stopped? || WorkerEnabled(s') || ClientEnabled(s')
    decreases |ls|
  {
    if ls != [] {
      StopStep(s, ls[0]);
      InvKept(s, ls[0]);
      StopCompletes(Apply(s, ls[0]), ls[1..]);
    }
  }

  lemma StoppedStep(s: State, l: Label)
    requires Inv(s) && s.client.Stopped? && Enabled(s, l)
    ensures var s' := Apply(s, l);
            s'.client.Stopped? && s'.h.started == s.h.started && s'.h.dequeued == s.h.dequeued
  {
  }

  /** After StopScheduler has returned no task is taken or run. */
  lemma {:induction false} NothingRunsAfterStop(s: State, ls: seq<Label>)
    requires Inv(s) && s.client.Stopped? && CanRun(s, ls)
    ensures var s' := Run(s, ls);
            s'.worker.Exited? && s'.h.started == s'.h.done == s.h.started && s'.h.dequeued == s.h.dequeued
    decreases |ls|
  {
    if ls != [] {
      StoppedStep(s, ls[0]);
      InvKept(s, ls[0]);
      NothingRunsAfterStop(Apply(s, ls[0]), ls[1..]);
    }
  }

  // ---------------------------------------------------------------------------------------------
  // The stepwise ScheduleTask against the locked one

  /** One call of ScheduleTask by thread tid and nothing else. */
  predicate OneCall(ls: seq<Label>, tid: nat) {
    ls != [] && ls[0] == Call(tid) && forall i :: 1 <= i < |ls| ==> ls[i] == CallerStep(tid)
  }

  /** What the call did is what the method does, and the id it returns is that of the task it queued. */
  predicate Scheduled(s: State, s': State) {
    var (sh, id) := Schedule(s.sh, s.h.issued);
    s'.sh == sh && sh.queue == s.sh.queue + if id == ID_INVALID then [] else [Task(s.h.issued, id)]
  }

  lemma ScheduledIs(s: State, s': State)
    requires Reachable(s) && s'.sh == Schedule(s.sh, s.h.issued).0
    ensures Scheduled(s, s')
  {
    IdsStayValid(s);
    assert s.sh.queue + [] == s.sh.queue;
  }

  /** A call of ScheduleTask that nobody interrupts, step by step, has the effect of the method. */
  lemma UninterruptedCall(s: State, tid: nat)
    requires Reachable(s) && tid !in s.callers && s.q == Nobody
    ensures exists ls :: OneCall(ls, tid) && CanRun(s, ls) && tid !in Run(s, ls).callers && Scheduled(s, Run(s, ls))
  {
    var step := CallerStep(tid);
    var s1 := Apply(s, Call(tid));
    var s2 := Apply(s1, step);
    var rest := [step];
    if !s.sh.running {
      RunOne(s1, step);
    } else if Blocked(s.sh.playerState) {
      rest := [step, step];
      RunTwo(s1, step, step);
    } else {
      rest := [step, step, step];
      RunThree(s1, step, step, step);
    }
    var ls := [Call(tid)] + rest;
    assert ls[1..] == rest;
    assert CanRun(s, ls) && Run(s, ls) == Run(s1, rest);
    ScheduledIs(s, Run(s, ls));
    assert OneCall(ls, tid);
  }

  lemma RunOne(s: State, a: Label)
    requires Enabled(s, a)
    ensures CanRun(s, [a]) && Run(s, [a]) == Apply(s, a)
  {
    assert [a][1..] == [];
  }

  lemma RunTwo(s: State, a: Label, b: Label)
    requires Enabled(s, a) && Enabled(Apply(s, a), b)
    ensures CanRun(s, [a, b]) && Run(s, [a, b]) == Apply(Apply(s, a), b)
  {
    RunOne(Apply(s, a), b);
    assert [a, b][1..] == [b];
  }

  lemma RunThree(s: State, a: Label, b: Label, c: Label)
    requires Enabled(s, a) && Enabled(Apply(s, a), b) && Enabled(Apply(Apply(s, a), b), c)
    ensures CanRun(s, [a, b, c]) && Run(s, [a, b, c]) == Apply(Apply(Apply(s, a), b), c)
  {
    RunTwo(Apply(s, a), b, c);
    assert [a, b, c][1..] == [b, c];
  }
}
