/** AampScheduler under every interleaving of its worker thread, one client that suspends, resumes and
    stops it, any number of callers of ScheduleTask, and threads that remove tasks or set the player state.
    A step ends wherever another thread may cut in. */
module SchedulerProtocol {
  import opened SchedulerCore

  datatype Owner = Nobody | Worker | Client

  /** Where ExecuteAsyncTask stands. */
  datatype WorkerPc =
    | WantQueue          // needs mQMutex, to (re)enter the loop
    | Testing            // holds mQMutex, about to read mSchedulerRunning
    | Checking           // holds mQMutex, about to ask whether the queue is empty
    | Waiting            // asleep on mQCond
    | WantExec           // needs mExMutex, holds nothing
    | WantQueueToPop     // holds mExMutex, needs mQMutex
    | Popping            // holds both
    | Judging(task: Task)  // holds both, has popped the task, about to read mState
    | Running(task: Task)  // holds mExMutex, inside the task
    | WantQueueAfterRun  // holds mExMutex, needs mQMutex
    | ReleasingExec      // holds both, about to release mExMutex
    | Exited

  /** Where the client stands; `stop` tells a call made by StopScheduler from a direct one. */
  datatype ClientPc =
    | Active                         // not suspended, not in a call
    | SuspendWantExec(stop: bool)
    | SuspendWantQueue(stop: bool)   // holds mExMutex
    | Suspended                      // SuspendScheduler has returned
    | ResumeWantQueue(stop: bool)    // has released mExMutex
    | StopTestLockOut                // has cleared mSchedulerRunning
    | StopRemoveAll
    | StopResume
    | StopNotify
    | StopJoin
    | Stopped

  /** Where a caller of ScheduleTask stands: it reads two fields unlocked before it locks. */
  datatype CallerPc = ReadRunning | ReadState | EnterQueue

  /** What has happened so far; tasks are numbered in the order they were queued. */
  datatype History = History(
    issued: nat,            // how many were queued
    dequeued: seq<nat>,     // in the order the worker took them
    started: seq<nat>,      // in the order their bodies began
    done: seq<nat>,
    skipped: seq<nat>,      // taken, then dropped because of the player state
    removed: seq<nat>)      // by RemoveTask or RemoveAllTasks

  datatype State = State(
    sh: Shared, q: Owner, ex: Owner,
    worker: WorkerPc, client: ClientPc, callers: map<nat, CallerPc>, h: History)

  /** The state once StartScheduler has returned. */
  const START := State(FRESH.(running := true), Nobody, Nobody, WantQueue, Active, map[],
                       History(0, [], [], [], [], []))

  datatype Label =
    | WorkerStep
    | SpuriousWake
    | ClientStep                  // continue the call the client is in
    | BeginSuspend | BeginResume | BeginStop
    | ClientRemoveAll
    | Call(tid: nat)              // a thread enters ScheduleTask
    | CallerStep(tid: nat)
    | RemoveTask(id: int)
    | RemoveAllTasks
    | SetState(p: PlayerState)

  function Bodies(ts: seq<Task>): (bs: seq<nat>)
    ensures |bs| == |ts|
    ensures forall i :: 0 <= i < |ts| ==> bs[i] == ts[i].body
  {
    seq(|ts|, i requires 0 <= i < |ts| => ts[i].body)
  }

  predicate Enabled(s: State, l: Label) {
    match l
    case WorkerStep => WorkerEnabled(s)
    case SpuriousWake => s.worker.Waiting?
    case ClientStep => ClientEnabled(s)
    case BeginSuspend => s.client.Active?
    case BeginResume => s.client.Suspended?
    case BeginStop => s.client.Active? || s.client.Suspended?
    case ClientRemoveAll => (s.client.Active? || s.client.Suspended?) && s.q == Nobody
    case Call(tid) => tid !in s.callers
    case CallerStep(tid) => tid in s.callers && (s.callers[tid] == EnterQueue ==> s.q == Nobody)
    case RemoveTask(_) => s.q == Nobody
    case RemoveAllTasks => s.q == Nobody
    case SetState(_) => true
  }

  predicate WorkerEnabled(s: State) {
    match s.worker
    case WantQueue | WantQueueToPop | WantQueueAfterRun => s.q == Nobody
    case WantExec => s.ex == Nobody
    case Waiting | Exited => false
    case _ => true
  }

  predicate ClientEnabled(s: State) {
    match s.client
    case SuspendWantExec(_) => s.ex == Nobody
    case SuspendWantQueue(_) | ResumeWantQueue(_) | StopRemoveAll => s.q == Nobody
    case StopJoin => s.worker.Exited?
    case Active | Suspended | Stopped => false
    case _ => true
  }

  /** notify_one: only the worker ever waits on mQCond. */
  function Notify(w: WorkerPc): WorkerPc {
    if w.Waiting? then WantQueue else w
  }

  function WorkerApply(s: State): State
    requires WorkerEnabled(s)
  {
    match s.worker
    case WantQueue => s.(q := Worker, worker := Testing)
    case Testing => if s.sh.running then s.(worker := Checking) else s.(q := Nobody, worker := Exited)
    case Checking => s.(q := Nobody, worker := if s.sh.queue == [] then Waiting else WantExec)
    case WantExec => s.(ex := Worker, worker := WantQueueToPop)
    case WantQueueToPop => s.(q := Worker, worker := Popping)
    case Popping =>
      if s.sh.queue == [] then s.(worker := ReleasingExec)
      else
        var t := s.sh.queue[0];
        var s' := s.(sh := Dequeue(s.sh), h := s.h.(dequeued := s.h.dequeued + [t.body]));
        if t.id != ID_INVALID then s'.(worker := Judging(t))
        else s'.(worker := ReleasingExec, h := s'.h.(skipped := s'.h.skipped + [t.body]))
    case Judging(t) =>
      if Blocked(s.sh.playerState) then
        s.(worker := ReleasingExec, h := s.h.(skipped := s.h.skipped + [t.body]))
      else s.(q := Nobody, worker := Running(t), h := s.h.(started := s.h.started + [t.body]))
    case Running(t) => s.(worker := WantQueueAfterRun, h := s.h.(done := s.h.done + [t.body]))
    case WantQueueAfterRun => s.(q := Worker, worker := ReleasingExec)
    case ReleasingExec => s.(ex := Nobody, worker := Testing)
  }

  function RemoveAll(s: State): State {
    s.(sh := ClearQueue(s.sh), h := s.h.(removed := s.h.removed + Bodies(s.sh.queue)))
  }

  function ClientApply(s: State): State
    requires ClientEnabled(s)
  {
    match s.client
    case SuspendWantExec(stop) => s.(ex := Client, client := SuspendWantQueue(stop))
    case SuspendWantQueue(stop) =>
      s.(sh := s.sh.(lockOut := true), client := if stop then StopRemoveAll else Suspended)
    case ResumeWantQueue(stop) =>
      s.(sh := s.sh.(lockOut := false), client := if stop then StopNotify else Active)
    case StopTestLockOut => s.(client := if s.sh.lockOut then StopRemoveAll else SuspendWantExec(true))
    case StopRemoveAll => RemoveAll(s).(client := StopResume)
    case StopResume => s.(ex := Nobody, client := ResumeWantQueue(true))
    case StopNotify => s.(worker := Notify(s.worker), client := StopJoin)
    case StopJoin => s.(client := Stopped)
  }

  function CallerApply(s: State, tid: nat): State
    requires Enabled(s, CallerStep(tid))
  {
    match s.callers[tid]
    case ReadRunning =>
      if s.sh.running then s.(callers := s.callers[tid := ReadState]) else s.(callers := s.callers - {tid})
    case ReadState =>
      if Blocked(s.sh.playerState) then s.(callers := s.callers - {tid})
      else s.(callers := s.callers[tid := EnterQueue])
    case EnterQueue =>
      var s' := s.(callers := s.callers - {tid}, sh := Enqueue(s.sh, s.h.issued).0);
      if s.sh.lockOut then s'
      else s'.(worker := Notify(s.worker), h := s.h.(issued := s.h.issued + 1))
  }

  function RemoveOne(s: State, id: int): State {
    if Removable(s.sh, id) then
      s.(sh := RemoveById(s.sh, id).0,
      h := s.h.(removed := s.h.removed + [s.sh.queue[FirstWithId(s.sh.queue, id)].body]))
    else s
  }

  function Apply(s: State, l: Label): State
    requires Enabled(s, l)
  {
    match l
    case WorkerStep => WorkerApply(s)
    case SpuriousWake => s.(worker := WantQueue)
    case ClientStep => ClientApply(s)
    case BeginSuspend => s.(client := SuspendWantExec(false))
    case BeginResume => s.(ex := Nobody, client := ResumeWantQueue(false))
    case BeginStop => s.(sh := s.sh.(running := false), client := StopTestLockOut)
    case ClientRemoveAll => RemoveAll(s)
    case Call(tid) => s.(callers := s.callers[tid := ReadRunning])
    case CallerStep(tid) => CallerApply(s, tid)
    case RemoveTask(id) => RemoveOne(s, id)
    case RemoveAllTasks => RemoveAll(s)
    case SetState(p) => s.(sh := s.sh.(playerState := p))
  }

  /** A run is a sequence of labels, each enabled when its turn comes. */
  predicate CanRun(s: State, ls: seq<Label>)
    decreases |ls|
  {
    ls == [] || (Enabled(s, ls[0]) && CanRun(Apply(s, ls[0]), ls[1..]))
  }

  function Run(s: State, ls: seq<Label>): State
    requires CanRun(s, ls)
    decreases |ls|
  {
    if ls == [] then s else Run(Apply(s, ls[0]), ls[1..])
  }

  ghost predicate Reachable(s: State) {
    exists ls :: CanRun(START, ls) && Run(START, ls) == s
  }

  // ---------------------------------------------------------------------------------------------
  // Invariants

  predicate WorkerHoldsQueue(w: WorkerPc) {
    w.Testing? || w.Checking? || w.Popping? || w.Judging? || w.ReleasingExec?
  }

  predicate WorkerHoldsExec(w: WorkerPc) {
    w.WantQueueToPop? || w.Popping? || w.Judging? || w.Running? || w.WantQueueAfterRun? || w.ReleasingExec?
  }

  predicate ClientHoldsExec(c: ClientPc, lockOut: bool) {
    c.SuspendWantQueue? || c.Suspended? || c.StopRemoveAll? || c.StopResume? || (c.StopTestLockOut? && lockOut)
  }

  /** mLockOut is set, to the client's knowledge. */
  predicate LockedOut(c: ClientPc) {
    c.Suspended? || c.StopRemoveAll? || c.StopResume? || c.ResumeWantQueue?
  }

  predicate Stopping(c: ClientPc) {
    match c
    case Active | Suspended => false
    case SuspendWantExec(stop) => stop
    case SuspendWantQueue(stop) => stop
    case ResumeWantQueue(stop) => stop
    case _ => true
  }

  /** The two mutexes are held by exactly the threads whose program counters say so. */
  predicate Locks(s: State) {
    && (s.q == Worker <==> WorkerHoldsQueue(s.worker))
    && s.q != Client
    && (s.ex == Worker <==> WorkerHoldsExec(s.worker))
    && (s.ex == Client <==> ClientHoldsExec(s.client, s.sh.lockOut))
    && (LockedOut(s.client) ==> s.sh.lockOut)
    && (s.sh.lockOut ==> LockedOut(s.client) || s.client.StopTestLockOut?)
  }

  /** The client has still to take mQMutex before its notify. */
  predicate BeforeLastLock(c: ClientPc) {
    Stopping(c) && !c.StopNotify? && !c.StopJoin? && !c.Stopped?
  }

  /** A worker asleep has nothing to do, and a stopper that it missed will still wake it. */
  predicate Wakeups(s: State) {
    && (s.sh.running <==> !Stopping(s.client))
    && (s.worker.Waiting? ==> s.sh.queue == [])
    && (s.worker.Waiting? && !s.sh.running ==> BeforeLastLock(s.client) || s.client.StopNotify?)
    && (s.worker.Checking? && !s.sh.running ==> BeforeLastLock(s.client))
    && (s.client.Stopped? ==> s.worker.Exited?)
    && (s.worker.Exited? ==> !s.sh.running)
  }

  /** The task the worker has taken and not finished, if any. */
  function Held(w: WorkerPc): seq<nat> {
    match w
    case Judging(t) => [t.body]
    case Running(t) => [t.body]
    case _ => []
  }

  ghost predicate Increasing(s: seq<nat>) {
    forall i, j :: 0 <= i < j < |s| ==> s[i] < s[j]
  }

  ghost predicate IncreasingBelow(s: seq<nat>, n: nat) {
    Increasing(s) && forall i :: 0 <= i < |s| ==> s[i] < n
  }

  /** What the worker has taken, followed by what it will take. */
  function Order(s: State): seq<nat> {
    s.h.dequeued + Bodies(s.sh.queue)
  }

  /** Dequeue order followed by queue order is a subsequence of schedule order. */
  ghost predicate Fifo(s: State) {
    IncreasingBelow(Order(s), s.h.issued)
  }

  /** Ids are the wrapped schedule numbers, and mCurrentTaskId is that of the last task taken. */
  ghost predicate Ids(s: State) {
    && s.sh.nextTaskId == IdOf(s.h.issued)
    && (forall t :: t in s.sh.queue ==> t.id == IdOf(t.body))
    && (s.worker.Judging? || s.worker.Running? ==> s.worker.task.id == IdOf(s.worker.task.body))
    && s.sh.currentTaskId == (if s.h.dequeued == [] then ID_INVALID else IdOf(Last(s.h.dequeued)))
  }

  function Last(s: seq<nat>): nat
    requires s != []
  {
    s[|s| - 1]
  }

  function UpTo(n: nat): multiset<nat> {
    if n == 0 then multiset{} else UpTo(n - 1) + multiset{n - 1}
  }

  /** Every task ever queued is still queued, or taken, or removed: once, in one of the three. */
  ghost predicate QueueConserved(s: State) {
    Balanced(s.h.issued, Bodies(s.sh.queue), s.h.dequeued, s.h.removed)
  }

  /** Every task taken is held, done or skipped: once, in one of the three. */
  ghost predicate WorkerConserved(s: State) {
    && multiset(s.h.dequeued) == multiset(Held(s.worker)) + multiset(s.h.done) + multiset(s.h.skipped)
    && s.h.started == s.h.done + (if s.worker.Running? then [s.worker.task.body] else [])
  }

  /** Bodies begin in schedule order, each after it was taken. */
  ghost predicate StartOrder(s: State) {
    && Increasing(s.h.started)
    && (forall b :: b in s.h.started ==> s.h.dequeued != [] && b <= Last(s.h.dequeued))
    && (s.worker.Judging? ==>
          && s.h.dequeued != [] && Last(s.h.dequeued) == s.worker.task.body
          && forall b :: b in s.h.started ==> b < s.worker.task.body)
  }

  ghost predicate Inv(s: State) {
    Locks(s) && StartOrder(s) && Wakeups(s) && Fifo(s) && Ids(s) && QueueConserved(s) && WorkerConserved(s)
  }

  lemma StartInv()
    ensures Inv(START)
  {
  }

  lemma LocksKeptByWorker(s: State)
    requires Locks(s) && Wakeups(s) && WorkerEnabled(s)
    ensures Locks(WorkerApply(s)) && Wakeups(WorkerApply(s))
  {
  }

  lemma LocksKeptByClient(s: State)
    requires Locks(s) && Wakeups(s) && ClientEnabled(s)
    ensures Locks(ClientApply(s)) && Wakeups(ClientApply(s))
  {
  }

  lemma LocksKeptByCaller(s: State, tid: nat)
    requires Locks(s) && Wakeups(s) && Enabled(s, CallerStep(tid))
    ensures Locks(CallerApply(s, tid)) && Wakeups(CallerApply(s, tid))
  {
    if s.callers[tid] == EnterQueue {
      LocksKeptByEnqueue(s, tid);
    }
  }

  lemma LocksKeptByEnqueue(s: State, tid: nat)
    requires Locks(s) && Wakeups(s) && tid in s.callers && s.callers[tid] == EnterQueue && s.q == Nobody
    ensures Locks(CallerApply(s, tid)) && Wakeups(CallerApply(s, tid))
  {
    var s' := CallerApply(s, tid);
    assert s'.client == s.client && s'.q == s.q && s'.ex == s.ex;
    assert s'.sh.lockOut == s.sh.lockOut && s'.sh.running == s.sh.running;
    assert s'.worker == s.worker || (s.worker.Waiting? && s'.worker.WantQueue?);
    assert s'.sh.queue == s.sh.queue || s'.worker == Notify(s.worker);
  }

  lemma LocksKept(s: State, l: Label)
    requires Locks(s) && Wakeups(s) && Enabled(s, l)
    ensures Locks(Apply(s, l)) && Wakeups(Apply(s, l))
  {
    match l
    case WorkerStep => LocksKeptByWorker(s);
    case ClientStep => LocksKeptByClient(s);
    case CallerStep(tid) => LocksKeptByCaller(s, tid);
    case _ =>
  }

  lemma OrderKeptByWorker(s: State)
    requires WorkerEnabled(s)
    ensures Order(WorkerApply(s)) == Order(s) && WorkerApply(s).h.issued == s.h.issued
  {
    if s.worker.Popping? && s.sh.queue != [] {
      PopParts(s);
    }
  }

  lemma OrderAfterCaller(s: State, tid: nat)
    requires Enabled(s, CallerStep(tid))
    ensures var s' := CallerApply(s, tid);
            || (Order(s') == Order(s) && s'.h.issued == s.h.issued)
            || (Order(s') == Order(s) + [s.h.issued] && s'.h.issued == s.h.issued + 1)
  {
    if s.callers[tid] == EnterQueue && !s.sh.lockOut {
      assert Bodies(Enqueue(s.sh, s.h.issued).0.queue) == Bodies(s.sh.queue) + [s.h.issued];
    }
  }

  lemma OrderAfterRemove(s: State, id: int)
    requires Removable(s.sh, id)
    ensures Order(RemoveOne(s, id)) == WithoutIndex(Order(s), |s.h.dequeued| + FirstWithId(s.sh.queue, id))
  {
    var k := FirstWithId(s.sh.queue, id);
    assert Bodies(WithoutIndex(s.sh.queue, k)) == WithoutIndex(Bodies(s.sh.queue), k);
  }

  lemma FifoKept(s: State, l: Label)
    requires Fifo(s) && Enabled(s, l)
    ensures Fifo(Apply(s, l))
  {
    OrderAfter(s, l);
    var o, o', n := Order(s), Order(Apply(s, l)), s.h.issued;
    if o' == o + [n] {
    } else if o' <= o {
    } else {
      var k: nat :| k < |o| && o' == WithoutIndex(o, k);
    }
  }

  /** A step leaves the order alone, appends the number just issued, cuts the end off or takes one number out. */
  lemma OrderAfter(s: State, l: Label)
    requires Enabled(s, l)
    ensures var o, o', n, n' := Order(s), Order(Apply(s, l)), s.h.issued, Apply(s, l).h.issued;
            || (o' == o + [n] && n' == n + 1)
            || (n' == n && (o' <= o || exists k: nat :: k < |o| && o' == WithoutIndex(o, k)))
  {
    match l
    case WorkerStep => OrderKeptByWorker(s);
    case CallerStep(tid) => OrderAfterCaller(s, tid);
    case RemoveTask(id) => if Removable(s.sh, id) { OrderAfterRemove(s, id); }
    case _ => OrderKeptElsewhere(s, l);
  }

  lemma OrderKeptElsewhere(s: State, l: Label)
    requires Enabled(s, l) && l != WorkerStep && !l.CallerStep? && !l.RemoveTask?
    ensures Order(Apply(s, l)) <= Order(s) && Apply(s, l).h.issued == s.h.issued
  {
    var s' := Apply(s, l);
    assert s'.h.dequeued == s.h.dequeued && (s'.sh.queue == s.sh.queue || s'.sh.queue == []);
    assert Bodies(s'.sh.queue) <= Bodies(s.sh.queue);
  }

  lemma IdsKept(s: State, l: Label)
    requires Ids(s) && Enabled(s, l)
    ensures Ids(Apply(s, l))
  {
    match l
    case WorkerStep => IdsKeptByWorker(s);
    case CallerStep(_) => IdOfStep(s.h.issued);
    case RemoveTask(_) =>
    case _ => IdsKeptElsewhere(s, l);
  }

  lemma IdsKeptByWorker(s: State)
    requires Ids(s) && WorkerEnabled(s)
    ensures Ids(WorkerApply(s))
  {
    if s.worker.Popping? && s.sh.queue != [] {
      assert s.sh.queue[0] in s.sh.queue;
    }
  }

  lemma IdsKeptElsewhere(s: State, l: Label)
    requires Ids(s) && Enabled(s, l) && l != WorkerStep && !l.CallerStep? && !l.RemoveTask?
    ensures Ids(Apply(s, l))
  {
    var s' := Apply(s, l);
    assert s'.h.dequeued == s.h.dequeued && s'.h.issued == s.h.issued && (s'.sh.queue == s.sh.queue || s'.sh.queue == []);
    assert s'.worker == s.worker || (!s'.worker.Judging? && !s'.worker.Running?);
  }

  lemma Snoc(s: seq<nat>, x: nat)
    ensures multiset(s + [x]) == multiset(s) + multiset{x}
  {
  }

  /** QueueConserved on its four parts. */
  ghost predicate Balanced(issued: nat, queued: seq<nat>, dequeued: seq<nat>, removed: seq<nat>) {
    UpTo(issued) == multiset(queued) + multiset(dequeued) + multiset(removed)
  }

  lemma BalancedPop(n: nat, b: nat, rest: seq<nat>, dequeued: seq<nat>, removed: seq<nat>)
    requires Balanced(n, [b] + rest, dequeued, removed)
    ensures Balanced(n, rest, dequeued + [b], removed)
  {
    Snoc(dequeued, b);
    assert multiset([b] + rest) == multiset{b} + multiset(rest);
  }

  lemma BalancedPush(n: nat, queued: seq<nat>, dequeued: seq<nat>, removed: seq<nat>)
    requires Balanced(n, queued, dequeued, removed)
    ensures Balanced(n + 1, queued + [n], dequeued, removed)
  {
    Snoc(queued, n);
    AddToFirst(UpTo(n), multiset(queued), multiset(dequeued), multiset(removed), multiset{n});
  }

  lemma AddToFirst(u: multiset<nat>, a: multiset<nat>, b: multiset<nat>, c: multiset<nat>, x: multiset<nat>)
    requires u == a + b + c
    ensures u + x == (a + x) + b + c
  {
  }

  lemma PopParts(s: State)
    requires s.worker.Popping? && s.sh.queue != []
    ensures var s', b, rest := WorkerApply(s), s.sh.queue[0].body, Bodies(s.sh.queue[1..]);
            && Bodies(s.sh.queue) == [b] + rest && Bodies(s'.sh.queue) == rest
            && s'.h.dequeued == s.h.dequeued + [b] && s'.h.issued == s.h.issued && s'.h.removed == s.h.removed
  {
  }

  lemma QueueConservedKeptByWorker(s: State)
    requires QueueConserved(s) && WorkerEnabled(s)
    ensures QueueConserved(WorkerApply(s))
  {
    var s' := WorkerApply(s);
    if s.worker.Popping? && s.sh.queue != [] {
      PopParts(s);
      BalancedPop(s.h.issued, s.sh.queue[0].body, Bodies(s'.sh.queue), s.h.dequeued, s.h.removed);
    } else {
      assert s'.sh == s.sh && s'.h.issued == s.h.issued;
      assert s'.h.removed == s.h.removed && s'.h.dequeued == s.h.dequeued;
    }
  }

  lemma PushParts(s: State, tid: nat)
    requires Enabled(s, CallerStep(tid))
    ensures var s' := CallerApply(s, tid);
            && s'.h.dequeued == s.h.dequeued && s'.h.removed == s.h.removed
            && if s.callers[tid] == EnterQueue && !s.sh.lockOut
               then s'.h.issued == s.h.issued + 1 && Bodies(s'.sh.queue) == Bodies(s.sh.queue) + [s.h.issued]
               else s'.h.issued == s.h.issued && s'.sh.queue == s.sh.queue
  {
  }

  lemma QueueConservedKeptByCaller(s: State, tid: nat)
    requires QueueConserved(s) && Enabled(s, CallerStep(tid))
    ensures QueueConserved(CallerApply(s, tid))
  {
    PushParts(s, tid);
    BalancedPush(s.h.issued, Bodies(s.sh.queue), s.h.dequeued, s.h.removed);
  }

  lemma QueueConservedKeptByRemove(s: State, id: int)
    requires QueueConserved(s)
    ensures QueueConserved(RemoveOne(s, id))
  {
    if Removable(s.sh, id) {
      var k, bodies := FirstWithId(s.sh.queue, id), Bodies(s.sh.queue);
      assert Bodies(WithoutIndex(s.sh.queue, k)) == WithoutIndex(bodies, k);
      BalancedRemove(s.h.issued, bodies, s.h.dequeued, s.h.removed, k);
    }
  }

  lemma BalancedRemove(n: nat, queued: seq<nat>, dequeued: seq<nat>, removed: seq<nat>, k: nat)
    requires Balanced(n, queued, dequeued, removed) && k < |queued|
    ensures Balanced(n, WithoutIndex(queued, k), dequeued, removed + [queued[k]])
  {
    WithoutIndexMultiset(queued, k);
    Snoc(removed, queued[k]);
  }

  lemma WithoutIndexMultiset(s: seq<nat>, k: nat)
    requires k < |s|
    ensures multiset(s) == multiset(WithoutIndex(s, k)) + multiset{s[k]}
  {
    assert s == s[..k] + ([s[k]] + s[k + 1..]);
  }

  lemma QueueConservedKeptByRemoveAll(s: State)
    requires QueueConserved(s)
    ensures QueueConserved(RemoveAll(s))
  {
    var bodies := Bodies(s.sh.queue);
    assert Bodies([]) == [];
    assert multiset(s.h.removed + bodies) == multiset(s.h.removed) + multiset(bodies);
  }

  lemma QueueConservedKept(s: State, l: Label)
    requires QueueConserved(s) && Enabled(s, l)
    ensures QueueConserved(Apply(s, l))
  {
    match l
    case WorkerStep => QueueConservedKeptByWorker(s);
    case CallerStep(tid) => QueueConservedKeptByCaller(s, tid);
    case RemoveTask(id) => QueueConservedKeptByRemove(s, id);
    case ClientStep => QueueConservedKeptByRemoveAll(s);
    case _ => QueueConservedKeptByRemoveAll(s);
  }

  lemma WorkerConservedKeptByPop(s: State)
    requires WorkerConserved(s) && s.worker.Popping? && s.sh.queue != []
    ensures WorkerConserved(WorkerApply(s))
  {
    var t := s.sh.queue[0];
    var s' := WorkerApply(s);
    assert s'.h.dequeued == s.h.dequeued + [t.body] && s'.h.done == s.h.done && Held(s.worker) == [];
    TakeHeld(s.h.dequeued, s.h.done, s.h.skipped, t.body);
    assert (Held(s'.worker) == [t.body] && s'.h.skipped == s.h.skipped)
        || (Held(s'.worker) == [] && s'.h.skipped == s.h.skipped + [t.body]);
  }

  lemma TakeHeld(dequeued: seq<nat>, done: seq<nat>, skipped: seq<nat>, b: nat)
    requires multiset(dequeued) == multiset([]) + multiset(done) + multiset(skipped)
    ensures multiset(dequeued + [b]) == multiset([b]) + multiset(done) + multiset(skipped)
    ensures multiset(dequeued + [b]) == multiset([]) + multiset(done) + multiset(skipped + [b])
  {
    Snoc(dequeued, b);
    Snoc(skipped, b);
  }

  lemma WorkerConservedKeptByJudge(s: State)
    requires WorkerConserved(s) && s.worker.Judging?
    ensures WorkerConserved(WorkerApply(s))
  {
    var b := s.worker.task.body;
    var s' := WorkerApply(s);
    assert s'.h.dequeued == s.h.dequeued && s'.h.done == s.h.done && Held(s.worker) == [b];
    if Blocked(s.sh.playerState) {
      assert Held(s'.worker) == [] && s'.h.skipped == s.h.skipped + [b];
      SkipHeld(multiset(s.h.dequeued), s.h.done, s.h.skipped, b);
    } else {
      assert Held(s'.worker) == [b] && s'.h.skipped == s.h.skipped;
    }
  }

  lemma SkipHeld(dequeued: multiset<nat>, done: seq<nat>, skipped: seq<nat>, b: nat)
    requires dequeued == multiset([b]) + multiset(done) + multiset(skipped)
    ensures dequeued == multiset([]) + multiset(done) + multiset(skipped + [b])
  {
    Snoc(skipped, b);
  }

  lemma WorkerConservedKeptByRun(s: State)
    requires WorkerConserved(s) && s.worker.Running?
    ensures WorkerConserved(WorkerApply(s))
  {
    Snoc(s.h.done, s.worker.task.body);
  }

  lemma WorkerConservedKept(s: State, l: Label)
    requires WorkerConserved(s) && Enabled(s, l)
    ensures WorkerConserved(Apply(s, l))
  {
    if l == WorkerStep {
      if s.worker.Popping? && s.sh.queue != [] {
        WorkerConservedKeptByPop(s);
      } else if s.worker.Judging? {
        WorkerConservedKeptByJudge(s);
      } else if s.worker.Running? {
        WorkerConservedKeptByRun(s);
      } else {
        WorkerIdle(s);
      }
    } else {
      WorkerUntouched(s, l);
    }
  }

  /** The worker's other steps move no task. */
  lemma WorkerIdle(s: State)
    requires WorkerEnabled(s) && !s.worker.Judging? && !s.worker.Running? && (s.worker.Popping? ==> s.sh.queue == [])
    ensures WorkerApply(s).h == s.h && Held(WorkerApply(s).worker) == [] == Held(s.worker)
    ensures !WorkerApply(s).worker.Running?
  {
  }

  /** Nor does a step of anyone else touch what the worker did and does. */
  lemma WorkerUntouched(s: State, l: Label)
    requires Enabled(s, l) && l != WorkerStep
    ensures var s' := Apply(s, l);
            && s'.h.dequeued == s.h.dequeued && s'.h.started == s.h.started
            && s'.h.done == s.h.done && s'.h.skipped == s.h.skipped
            && (s'.worker == s.worker || (s.worker.Waiting? && s'.worker.WantQueue?))
  {
  }

  lemma StartOrderKeptByPop(s: State)
    requires Fifo(s) && StartOrder(s) && s.worker.Popping? && s.sh.queue != []
    ensures StartOrder(WorkerApply(s))
  {
    var s' := WorkerApply(s);
    var b := s.sh.queue[0].body;
    assert s'.h.started == s.h.started && s'.h.dequeued == s.h.dequeued + [b];
    assert Order(s)[|s.h.dequeued|] == b;
    assert s.h.dequeued != [] ==> Order(s)[|s.h.dequeued| - 1] == Last(s.h.dequeued);
  }

  lemma StartOrderKeptByWorker(s: State)
    requires Fifo(s) && StartOrder(s) && WorkerEnabled(s)
    ensures StartOrder(WorkerApply(s))
  {
    var s' := WorkerApply(s);
    if s.worker.Popping? && s.sh.queue != [] {
      StartOrderKeptByPop(s);
    } else if s.worker.Judging? && !Blocked(s.sh.playerState) {
      var b := s.worker.task.body;
      assert s'.h.started == s.h.started + [b] && s'.h.dequeued == s.h.dequeued;
      assert forall i :: 0 <= i < |s.h.started| ==> s.h.started[i] in s.h.started;
    } else {
      assert s'.h.started == s.h.started && s'.h.dequeued == s.h.dequeued && !s'.worker.Judging?;
    }
  }

  lemma StartOrderKept(s: State, l: Label)
    requires Fifo(s) && StartOrder(s) && Enabled(s, l)
    ensures StartOrder(Apply(s, l))
  {
    if l == WorkerStep {
      StartOrderKeptByWorker(s);
    } else {
      var s' := Apply(s, l);
      assert s'.h.started == s.h.started && s'.h.dequeued == s.h.dequeued;
      assert s'.worker.Judging? ==> s'.worker == s.worker;
    }
  }

  lemma InvKept(s: State, l: Label)
    requires Inv(s) && Enabled(s, l)
    ensures Inv(Apply(s, l))
  {
    LocksKept(s, l);
    FifoKept(s, l);
    IdsKept(s, l);
    QueueConservedKept(s, l);
    WorkerConservedKept(s, l);
    StartOrderKept(s, l);
  }

  lemma {:induction false} RunInv(s: State, ls: seq<Label>)
    requires Inv(s) && CanRun(s, ls)
    ensures Inv(Run(s, ls))
    decreases |ls|
  {
    if ls != [] {
      InvKept(s, ls[0]);
      RunInv(Apply(s, ls[0]), ls[1..]);
    }
  }

  lemma ReachableInv(s: State)
    requires Reachable(s)
    ensures Inv(s)
  {
    var ls :| CanRun(START, ls) && Run(START, ls) == s;
    StartInv();
    RunInv(START, ls);
  }
}
