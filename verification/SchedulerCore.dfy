/** The data that AampScheduler's two mutexes protect, and its critical sections as functions on values. */
module SchedulerCore {

  const ID_INVALID := 0
  const ID_DEFAULT := 1
  const ID_MAX_VALUE := 0x7FFF_FFFF

  /** Number of distinct ids handed out before the counter wraps. */
  const ID_PERIOD := ID_MAX_VALUE - ID_DEFAULT

  /** The player state, as far as the scheduler looks at it. */
  datatype PlayerState = Error | Released | Playable

  predicate Blocked(p: PlayerState) {
    p == Error || p == Released
  }

  /** A queued task: `body` stands for the closure and its data, `id` is mId. */
  datatype Task = Task(body: nat, id: int)

  datatype Shared = Shared(
    queue: seq<Task>,
    nextTaskId: int,
    currentTaskId: int,
    lockOut: bool,
    running: bool,
    playerState: PlayerState)

  const FRESH := Shared([], ID_DEFAULT, ID_INVALID, false, false, Playable)

  /** The part of ScheduleTask that runs under mQMutex: the new state and the id returned. */
  function Enqueue(s: Shared, body: nat): (Shared, int) {
    if s.lockOut then (s, ID_INVALID)
    else
      var id := s.nextTaskId;
      var next := if id + 1 >= ID_MAX_VALUE then ID_DEFAULT else id + 1;
      (s.(queue := s.queue + [Task(body, id)], nextTaskId := next), id)
  }

  /** ScheduleTask when nothing else runs meanwhile. */
  function Schedule(s: Shared, body: nat): (Shared, int) {
    if !s.running || Blocked(s.playerState) then (s, ID_INVALID) else Enqueue(s, body)
  }

  /** Position of the first queued task with this id, or the queue's length. */
  function FirstWithId(q: seq<Task>, id: int): (k: nat)
    ensures k <= |q|
    ensures k < |q| ==> q[k].id == id
    ensures forall j :: 0 <= j < k ==> q[j].id != id
  {
    if q == [] then 0
    else if q[0].id == id then 0
    else
      var k := FirstWithId(q[1..], id);
      assert forall j :: 1 <= j < k + 1 ==> q[j] == q[1..][j - 1];
      k + 1
  }

  predicate Removable(s: Shared, id: int) {
    id != ID_INVALID && s.currentTaskId != id && FirstWithId(s.queue, id) < |s.queue|
  }

  function WithoutIndex<T>(q: seq<T>, k: nat): seq<T>
    requires k < |q|
  {
    q[..k] + q[k + 1..]
  }

  function RemoveById(s: Shared, id: int): (Shared, bool) {
    if Removable(s, id) then
      (s.(queue := WithoutIndex(s.queue, FirstWithId(s.queue, id))), true)
    else (s, false)
  }

  function ClearQueue(s: Shared): Shared {
    s.(queue := [])
  }

  /** The dequeue section of the worker: pop the front and note it as current. */
  function Dequeue(s: Shared): Shared
    requires s.queue != []
  {
    var t := s.queue[0];
    s.(queue := s.queue[1..], currentTaskId := if t.id != ID_INVALID then t.id else s.currentTaskId)
  }

  /** The id of the n-th task ever queued (counting from 0). */
  function IdOf(n: nat): (id: int)
    ensures ID_DEFAULT <= id < ID_MAX_VALUE
  {
    ID_DEFAULT + n % ID_PERIOD
  }

  lemma IdOfStep(n: nat)
    ensures IdOf(n + 1) == if IdOf(n) + 1 >= ID_MAX_VALUE then ID_DEFAULT else IdOf(n) + 1
  {
    var k := n / ID_PERIOD;
    var r := n % ID_PERIOD;
    assert n == k * ID_PERIOD + r;
    if r + 1 == ID_PERIOD {
      assert n + 1 == (k + 1) * ID_PERIOD;
    } else {
      assert n + 1 == k * ID_PERIOD + (r + 1);
    }
  }

  /** Tasks queued less than one id period apart have different ids. */
  lemma IdOfDistinct(m: nat, n: nat)
    requires m < n < m + ID_PERIOD
    ensures IdOf(m) != IdOf(n)
  {
    var km, kn := m / ID_PERIOD, n / ID_PERIOD;
    assert m == km * ID_PERIOD + m % ID_PERIOD;
    assert n == kn * ID_PERIOD + n % ID_PERIOD;
  }
}
