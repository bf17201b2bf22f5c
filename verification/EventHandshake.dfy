/** AampEventManager's asynchronous path under every interleaving of any number of senders, the main loop
    that runs the idle callbacks, and threads that flush or change the player state. */
module EventHandshake {
  import opened Common

  /** mPendingAsyncEvents. */
  type Pending = map<nat, bool>

  /** The asserts of SetCallbackAsPending and SetCallbackAsDispatched. */
  predicate PendingAssert(m: Pending, id: nat) {
    id in m ==> !m[id]
  }

  predicate DispatchedAssert(m: Pending, id: nat) {
    id in m ==> m[id]
  }

  function MarkPending(m: Pending, id: nat): Pending {
    if id in m then m - {id} else m[id := true]
  }

  function MarkDispatched(m: Pending, id: nat): Pending {
    if id in m then m - {id} else m[id := false]
  }

  /** The locked sections of SendEventAsync and AsyncEvent on the queue. */
  function Pushed(queue: seq<nat>, released: bool, event: nat): seq<nat> {
    if released then queue else queue + [event]
  }

  function Popped(queue: seq<nat>): (Option<nat>, seq<nat>) {
    if queue == [] then (None, queue) else (Some(queue[0]), queue[1..])
  }

  /** The sources FlushPendingEvents passes to g_source_remove. */
  function ToRemove(m: Pending): set<nat> {
    set id | id in m && id != 0 && m[id]
  }

  /** Where the main loop stands in EventManagerThreadFunction. */
  datatype MainPc =
    | BetweenSources
    | AtMark(id: nat)     // the callback has started, SetCallbackAsDispatched is next
    | AtPop               // AsyncEvent is next
    | AtSend(event: nat)  // an event was popped, SendEventSync may follow

  datatype FlushPc = NoFlush | Removing(todo: set<nat>)

  /** Senders are interchangeable: those before the lock and those that have pushed but not yet added
      their idle task are counted, those with a source still to be marked are named by it. */
  datatype State = State(
    queue: seq<nat>, pending: Pending, released: bool,
    arriving: nat, adding: nat, marking: set<nat>,
    live: set<nat>, main: MainPc, flush: FlushPc,
    h: History)

  /** Events are numbered in push order. */
  datatype History = History(
    pushed: nat,
    left: seq<nat>,      // events in the order they left the queue, by pop or by flush
    sent: seq<nat>,      // events handed to SendEventSync
    used: set<nat>,      // source ids ever returned by g_idle_add_full
    dropped: set<nat>,   // sources removed by a flush before they ran
    everPending: set<nat>, everDispatched: set<nat>,
    pendingSince: set<nat>, dispatchedSince: set<nat>,   // the same, since the last flush
    flushed: bool)       // whether any flush has begun

  const START := State([], map[], false, 0, 0, {}, {}, BetweenSources, NoFlush,
                       History(0, [], [], {}, {}, {}, {}, {}, {}, false))

  datatype Label =
    | Arrive              // a thread enters SendEventAsync
    | Push                // its locked section
    | AddIdle(id: nat)    // g_idle_add_full returns id
    | Mark(id: nat)       // SetCallbackAsPending
    | Dispatch(id: nat)   // the main loop starts the callback of source id
    | MarkDone            // SetCallbackAsDispatched
    | Pop                 // the locked section of AsyncEvent
    | Send(heard: bool)   // the rest of AsyncEvent; heard: some listener is registered
    | BeginFlush
    | RemoveSource(id: nat)
    | EndFlush
    | SetReleased(r: bool)

  /** mMutexVar is held across steps only by a flush. */
  predicate MutexFree(s: State) {
    s.flush.NoFlush?
  }

  /** Source ids are positive and never used twice. */
  predicate Enabled(s: State, l: Label) {
    match l
    case Arrive => true
    case Push => s.arriving > 0 && MutexFree(s)
    case AddIdle(id) => s.adding > 0 && id > 0 && id !in s.h.used
    case Mark(id) => id in s.marking && MutexFree(s)
    case Dispatch(id) => s.main.BetweenSources? && id in s.live
    case MarkDone => s.main.AtMark? && MutexFree(s)
    case Pop => s.main.AtPop? && MutexFree(s)
    case Send(_) => s.main.AtSend? && MutexFree(s)
    case BeginFlush => MutexFree(s)
    case RemoveSource(id) => s.flush.Removing? && id in s.flush.todo
    case EndFlush => s.flush.Removing? && s.flush.todo == {}
    case SetReleased(_) => MutexFree(s)
  }

  function Apply(s: State, l: Label): State
    requires Enabled(s, l)
  {
    match l
    case Arrive => s.(arriving := s.arriving + 1)
    case Push =>
      if s.released then s.(arriving := s.arriving - 1)
      else s.(arriving := s.arriving - 1, adding := s.adding + 1, queue := Pushed(s.queue, s.released, s.h.pushed),
              h := s.h.(pushed := s.h.pushed + 1))
    case AddIdle(id) =>
      s.(adding := s.adding - 1, live := s.live + {id}, marking := s.marking + {id},
         h := s.h.(used := s.h.used + {id}))
    case Mark(id) =>
      s.(pending := MarkPending(s.pending, id), marking := s.marking - {id},
         h := s.h.(everPending := s.h.everPending + {id}, pendingSince := s.h.pendingSince + {id}))
    case Dispatch(id) => s.(live := s.live - {id}, main := AtMark(id))
    case MarkDone =>
      var id := s.main.id;
      s.(pending := MarkDispatched(s.pending, id), main := AtPop,
         h := s.h.(everDispatched := s.h.everDispatched + {id}, dispatchedSince := s.h.dispatchedSince + {id}))
    case Pop =>
      (match Popped(s.queue)
       case (None, _) => s.(main := BetweenSources)
       case (Some(event), rest) => s.(queue := rest, main := AtSend(event), h := s.h.(left := s.h.left + [event])))
    case Send(heard) =>
      s.(main := BetweenSources,
         h := if heard && !s.released then s.h.(sent := s.h.sent + [s.main.event]) else s.h)
    case BeginFlush =>
      s.(queue := [], flush := Removing(ToRemove(s.pending)),
         h := s.h.(left := s.h.left + s.queue, flushed := true))
    case RemoveSource(id) =>
      s.(live := s.live - {id}, flush := Removing(s.flush.todo - {id}),
         h := s.h.(dropped := s.h.dropped + (s.live * {id})))
    case EndFlush =>
      s.(pending := map[], flush := NoFlush, h := s.h.(pendingSince := {}, dispatchedSince := {}))
    case SetReleased(r) => s.(released := r)
  }

  predicate CanRun(s: State, ls: seq<Label>)
    decreases |ls|
  {
    ls == [] || (Enabled(s, ls[0]) && CanRun(Apply(s, ls[0]), ls[1..]))
  }

  function Run(s: State, ls: seq<Label>): State
    requires CanRun(s, ls)
    decreases |ls|
  {
    if ls == [] then s else Run(Apply(s, ls[0]), ls[1..])
  }

  ghost predicate Reachable(s: State) {
    exists ls :: CanRun(START, ls) && Run(START, ls) == s
  }

  // ---------------------------------------------------------------------------------------------
  // Invariants

  function Callback(m: MainPc): set<nat> {
    if m.AtMark? then {m.id} else {}
  }

  /** Callbacks that will still pop an event: promised, attached, or started and before their pop. */
  function Outstanding(s: State): nat {
    s.adding + |s.live| + (if s.main.AtMark? || s.main.AtPop? then 1 else 0)
  }

  /** Every queued event has a callback to pop it. */
  ghost predicate NotStranded(s: State) {
    |s.queue| <= Outstanding(s) && (s.flush.Removing? ==> s.queue == [])
  }

  /** Events leave in push order: those gone, then those queued, are exactly those pushed. */
  ghost predicate InOrder(s: State) {
    && |s.h.left| + |s.queue| == s.h.pushed
    && (forall i :: 0 <= i < |s.h.left| ==> s.h.left[i] == i)
    && (forall i :: 0 <= i < |s.queue| ==> s.queue[i] == |s.h.left| + i)
    && (forall i, j :: 0 <= i < j < |s.h.sent| ==> s.h.sent[i] < s.h.sent[j])
    && (forall e :: e in s.h.sent ==> e < |s.h.left|)
    && (s.main.AtSend? ==> s.main.event < |s.h.left| && forall e :: e in s.h.sent ==> e < s.main.event)
  }

  /** Where each source id stands on its two journeys. */
  ghost predicate Sources(s: State) {
    && s.h.used == s.marking + s.h.everPending
    && s.marking !! s.h.everPending
    && s.h.used == s.live + Callback(s.main) + s.h.everDispatched + s.h.dropped
    && s.live !! Callback(s.main) !! s.h.everDispatched !! s.h.dropped
    && (!s.h.flushed ==> s.h.dropped == {} && s.flush.NoFlush?)
    && 0 !in s.h.used
  }

  /** The map holds exactly the ids with one of their two marks made since the last flush. */
  ghost predicate Handshake(s: State) {
    && s.h.pendingSince <= s.h.everPending && s.h.dispatchedSince <= s.h.everDispatched
    && (!s.h.flushed ==> s.h.pendingSince == s.h.everPending && s.h.dispatchedSince == s.h.everDispatched)
    && (forall id :: id in s.pending <==> (id in s.h.pendingSince <==> id !in s.h.dispatchedSince))
    && (forall id :: id in s.pending ==> (s.pending[id] <==> id in s.h.pendingSince))
  }

  /** A flush removes every attached source that its sender has marked pending. */
  ghost predicate Removals(s: State) {
    && (s.flush.NoFlush? ==> s.live * s.h.everPending <= s.h.pendingSince)
    && (s.flush.Removing? ==> s.live * s.h.everPending <= s.flush.todo <= s.h.pendingSince)
    && s.h.dropped <= s.h.everPending
  }

  ghost predicate Inv(s: State) {
    NotStranded(s) && InOrder(s) && Sources(s) && Handshake(s) && Removals(s)
  }

  lemma NotStrandedKept(s: State, l: Label)
    requires NotStranded(s) && Sources(s) && Enabled(s, l)
    ensures NotStranded(Apply(s, l))
  {
    if l.AddIdle? || l.Dispatch? || l.RemoveSource? {
      NotStrandedKeptBySources(s, l);
    } else if l.Push? || l.Pop? {
      NotStrandedKeptByQueue(s, l);
    } else {
      NotStrandedKeptElsewhere(s, l);
    }
  }

  lemma NotStrandedKeptBySources(s: State, l: Label)
    requires NotStranded(s) && Sources(s) && Enabled(s, l) && (l.AddIdle? || l.Dispatch? || l.RemoveSource?)
    ensures NotStranded(Apply(s, l))
  {
    match l
    case AddIdle(id) =>
      assert id !in s.live;
      OneMore(s.live, id);
    case Dispatch(id) => OneLess(s.live, id);
    case _ =>
  }

  lemma OneMore(ids: set<nat>, id: nat)
    requires id !in ids
    ensures |ids + {id}| == |ids| + 1
  {
  }

  lemma OneLess(ids: set<nat>, id: nat)
    requires id in ids
    ensures |ids - {id}| == |ids| - 1
  {
  }

  lemma NotStrandedKeptByQueue(s: State, l: Label)
    requires NotStranded(s) && Enabled(s, l) && (l.Push? || l.Pop?)
    ensures NotStranded(Apply(s, l))
  {
  }

  lemma NotStrandedKeptElsewhere(s: State, l: Label)
    requires NotStranded(s) && Enabled(s, l)
    requires !l.Push? && !l.AddIdle? && !l.Dispatch? && !l.Pop? && !l.RemoveSource?
    ensures NotStranded(Apply(s, l))
  {
    assert Apply(s, l).live == s.live && Apply(s, l).adding == s.adding;
    assert Apply(s, l).queue == s.queue || Apply(s, l).queue == [];
  }

  lemma InOrderKept(s: State, l: Label)
    requires InOrder(s) && Enabled(s, l)
    ensures InOrder(Apply(s, l))
  {
    assert forall i :: 0 <= i < |s.h.sent| ==> s.h.sent[i] in s.h.sent;
  }

  lemma SourcesKept(s: State, l: Label)
    requires Sources(s) && Enabled(s, l)
    ensures Sources(Apply(s, l))
  {
  }

  lemma HandshakeKept(s: State, l: Label)
    requires Sources(s) && Handshake(s) && Enabled(s, l)
    ensures Handshake(Apply(s, l))
  {
    if l.Mark? || l.MarkDone? {
      HandshakeKeptByMark(s, l);
    }
  }

  lemma HandshakeKeptByMark(s: State, l: Label)
    requires Sources(s) && Handshake(s) && Enabled(s, l) && (l.Mark? || l.MarkDone?)
    ensures Handshake(Apply(s, l))
  {
  }

  lemma ToRemoveAll(s: State)
    requires Sources(s) && Handshake(s) && Removals(s) && s.flush.NoFlush?
    ensures s.live * s.h.everPending <= ToRemove(s.pending) <= s.h.pendingSince
  {
  }

  lemma RemovalsKept(s: State, l: Label)
    requires Sources(s) && Handshake(s) && Removals(s) && Enabled(s, l)
    ensures Removals(Apply(s, l))
  {
    if l.BeginFlush? {
      ToRemoveAll(s);
    }
  }

  lemma InvKept(s: State, l: Label)
    requires Inv(s) && Enabled(s, l)
    ensures Inv(Apply(s, l))
  {
    RemovalsKept(s, l);
    NotStrandedKept(s, l);
    InOrderKept(s, l);
    SourcesKept(s, l);
    HandshakeKept(s, l);
  }

  lemma {:induction false} RunInv(s: State, ls: seq<Label>)
    requires Inv(s) && CanRun(s, ls)
    ensures Inv(Run(s, ls))
    decreases |ls|
  {
    if ls != [] {
      InvKept(s, ls[0]);
      RunInv(Apply(s, ls[0]), ls[1..]);
    }
  }

  lemma ReachableInv(s: State)
    requires Reachable(s)
    ensures Inv(s)
  {
    var ls :| CanRun(START, ls) && Run(START, ls) == s;
    RunInv(START, ls);
  }

  // ---------------------------------------------------------------------------------------------
  // Guarantees

  /** No sender is in a call, no source is attached, no callback or flush is under way. */
  predicate Quiescent(s: State) {
    && s.arriving == s.adding == 0 && s.marking == {} && s.live == {}
    && s.main.BetweenSources? && s.flush.NoFlush?
  }

  /** No stranded event: queued events never outnumber the callbacks to come, flushes included, so a
      quiescent manager has an empty queue and every event has left it. */
  lemma NoStrandedEvent(s: State)
    requires Reachable(s)
    ensures |s.queue| <= Outstanding(s)
    ensures Quiescent(s) ==> s.queue == [] && |s.h.left| == s.h.pushed
  {
    ReachableInv(s);
  }

  /** Events leave the queue, and are sent, in the order they were pushed. */
  lemma PushOrder(s: State)
    requires Reachable(s)
    ensures forall i :: 0 <= i < |s.h.left| ==> s.h.left[i] == i
    ensures forall i, j :: 0 <= i < j < |s.h.sent| ==> s.h.sent[i] < s.h.sent[j] < s.h.pushed
  {
    ReachableInv(s);
    assert forall j :: 0 <= j < |s.h.sent| ==> s.h.sent[j] in s.h.sent;
  }

  /** Neither assert of the handshake fails in any run, flushes included. */
  lemma AssertsHold(s: State)
    requires Reachable(s)
    ensures forall id :: id in s.marking ==> PendingAssert(s.pending, id)
    ensures s.main.AtMark? ==> DispatchedAssert(s.pending, s.main.id)
  {
    ReachableInv(s);
  }

  /** In a run without flushes the map holds an id as true iff it was marked pending and not dispatched,
      as false iff dispatched and not yet marked pending; so at rest it is empty. */
  lemma FlushFreeHandshake(s: State)
    requires Reachable(s) && !s.h.flushed
    ensures forall id ::
              (id in s.pending && s.pending[id] <==> id in s.h.everPending && id !in s.h.everDispatched)
              && (id in s.pending && !s.pending[id] <==> id in s.h.everDispatched && id !in s.h.everPending)
    ensures Quiescent(s) ==> s.pending == map[] && s.h.everPending == s.h.everDispatched == s.h.used
  {
    ReachableInv(s);
  }

  /** The sources of which a flush would forget the one mark made so far: the callback has marked and the
      sender has yet to, or the sender has marked and the callback is about to. */
  function Halfway(s: State): set<nat> {
    (s.marking - s.live - Callback(s.main)) + (Callback(s.main) - s.marking)
  }

  /** From f, where a flush ends, to s no other flush ended: the map knows just the marks made in between. */
  ghost predicate Since(f: State, s: State) {
    && f.h.everPending <= s.h.everPending && s.h.pendingSince == s.h.everPending - f.h.everPending
    && f.h.everDispatched <= s.h.everDispatched && s.h.dispatchedSince == s.h.everDispatched - f.h.everDispatched
    && f.h.used <= s.h.used && (s.flush.NoFlush? ==> s.h.dropped == f.h.dropped)
  }

  lemma SinceEndFlush(f: State)
    requires Enabled(f, EndFlush)
    ensures Since(f, Apply(f, EndFlush))
  {
  }

  lemma SinceStep(f: State, s: State, l: Label)
    requires Sources(s) && Handshake(s) && Since(f, s) && Enabled(s, l) && l != EndFlush
    ensures Since(f, Apply(s, l))
  {
  }

  lemma {:induction false} SinceRun(f: State, s: State, ls: seq<Label>)
    requires Inv(s) && Since(f, s) && CanRun(s, ls) && EndFlush !in ls
    ensures Since(f, Run(s, ls))
    decreases |ls|
  {
    if ls != [] {
      SinceStep(f, s, ls[0]);
      InvKept(s, ls[0]);
      SinceRun(f, Apply(s, ls[0]), ls[1..]);
    }
  }

  /** When a flush ends, the ids with one mark made and the other not are those halfway. */
  lemma HalfwayMarks(f: State, id: nat)
    requires Sources(f) && Removals(f) && Enabled(f, EndFlush)
    ensures id in Halfway(f) <==>
            id in f.h.used && (id in f.h.everPending <==> !(id in f.h.everDispatched || id in f.h.dropped))
  {
  }

  lemma RestEntry(f: State, s: State, id: nat)
    requires Sources(f) && Removals(f) && Enabled(f, EndFlush)
    requires Sources(s) && Handshake(s) && Since(f, s) && Quiescent(s)
    ensures id in s.pending <==> id in Halfway(f)
  {
    HalfwayMarks(f, id);
  }

  lemma RestEntries(f: State, s: State)
    requires Sources(f) && Removals(f) && Enabled(f, EndFlush)
    requires Sources(s) && Handshake(s) && Since(f, s) && Quiescent(s)
    ensures s.pending.Keys == Halfway(f)
  {
    forall id ensures id in s.pending <==> id in Halfway(f) {
      RestEntry(f, s, id);
    }
  }

  /** The state in which the last flush of a run ends, if there is one. */
  function LastFlush(s: State, ls: seq<Label>): (f: Option<State>)
    requires CanRun(s, ls)
    decreases |ls|
  {
    if ls == [] then None
    else match LastFlush(Apply(s, ls[0]), ls[1..])
      case Some(f) => Some(f)
      case None => if ls[0] == EndFlush then Some(s) else None
  }

  /** A run without an end of a flush, and one seen from the last end of a flush. */
  lemma {:induction false} LastFlushNone(s: State, ls: seq<Label>)
    requires CanRun(s, ls) && LastFlush(s, ls) == None
    ensures EndFlush !in ls
    decreases |ls|
  {
    if ls != [] {
      LastFlushNone(Apply(s, ls[0]), ls[1..]);
    }
  }

  /** f is a state in which a flush ends, and t one before the next such end. */
  ghost predicate FlushedAt(f: State, t: State) {
    Sources(f) && Removals(f) && Enabled(f, EndFlush) && Since(f, t)
  }

  lemma {:induction false} LastFlushSome(s: State, ls: seq<Label>)
    requires Inv(s) && CanRun(s, ls) && LastFlush(s, ls).Some?
    ensures FlushedAt(LastFlush(s, ls).value, Run(s, ls))
    decreases |ls|
  {
    if LastFlush(Apply(s, ls[0]), ls[1..]).Some? {
      InvKept(s, ls[0]);
      LastFlushSome(Apply(s, ls[0]), ls[1..]);
    } else {
      LastFlushNone(Apply(s, ls[0]), ls[1..]);
      SinceFlush(s, ls[1..]);
    }
  }

  lemma SinceFlush(f: State, ls: seq<Label>)
    requires Inv(f) && Enabled(f, EndFlush) && CanRun(Apply(f, EndFlush), ls) && EndFlush !in ls
    ensures FlushedAt(f, Run(Apply(f, EndFlush), ls))
  {
    InvKept(f, EndFlush);
    SinceEndFlush(f);
    SinceRun(f, Apply(f, EndFlush), ls);
  }

  lemma {:induction false} FlushedMeansEnd(s: State, ls: seq<Label>)
    requires CanRun(s, ls) && EndFlush !in ls && (s.flush.NoFlush? ==> !s.h.flushed)
    ensures Run(s, ls).flush.NoFlush? ==> !Run(s, ls).h.flushed
    decreases |ls|
  {
    if ls != [] {
      FlushedMeansEnd(Apply(s, ls[0]), ls[1..]);
    }
  }

  /** At rest after any run the map holds exactly the sources that were halfway when the last flush ended; so
      it is empty if and only if there was no flush or none was halfway then. */
  lemma RestIff(ls: seq<Label>)
    requires CanRun(START, ls) && Quiescent(Run(START, ls))
    ensures var left := match LastFlush(START, ls) case None => {} case Some(f) => Halfway(f);
            && Run(START, ls).pending.Keys == left
            && (Run(START, ls).pending == map[] <==> left == {})
  {
    RunInv(START, ls);
    var s := Run(START, ls);
    if LastFlush(START, ls).Some? {
      LastFlushSome(START, ls);
      RestEntries(LastFlush(START, ls).value, s);
    } else {
      LastFlushNone(START, ls);
      FlushedMeansEnd(START, ls);
      FlushFreeHandshake(s);
    }
  }

  /** A concrete run in which RestIff's condition fails: source 7 is dispatched, the flush forgets that, and the
      late mark stays in the map until another flush ends. */
  lemma FlushLeavesStaleEntry()
    ensures exists ls :: CanRun(START, ls) && Quiescent(Run(START, ls)) && Run(START, ls).pending == map[7 := true]
  {
    var dispatched := State([0], map[7 := false], false, 0, 0, {7}, {}, AtPop, NoFlush,
                            History(1, [], [], {7}, {}, {}, {7}, {}, {7}, false));
    var first := [Arrive, Push, AddIdle(7), Dispatch(7), MarkDone];
    var second := [BeginFlush, EndFlush, Pop, Mark(7)];
    StaleEntryFirstHalf(dispatched);
    StaleEntrySecondHalf(dispatched);
    StaleEntryRun(first, second, dispatched);
  }

  lemma StaleEntryRun(first: seq<Label>, second: seq<Label>, s: State)
    requires CanRun(START, first) && Run(START, first) == s && CanRun(s, second)
    requires Quiescent(Run(s, second)) && Run(s, second).pending == map[7 := true]
    ensures exists ls :: CanRun(START, ls) && Quiescent(Run(START, ls)) && Run(START, ls).pending == map[7 := true]
  {
    RunConcat(START, first, second);
    assert CanRun(START, first + second);
  }

  /** Five steps, given the states between them. */
  lemma RunFive(s: seq<State>, l: seq<Label>)
    requires |s| == 6 && |l| == 5 && forall i :: 0 <= i < 5 ==> Enabled(s[i], l[i]) && Apply(s[i], l[i]) == s[i + 1]
    ensures CanRun(s[0], l) && Run(s[0], l) == s[5]
  {
    RunCons(s[4], l[4], []);
    RunCons(s[3], l[3], [l[4]]);
    RunCons(s[2], l[2], [l[3], l[4]]);
    RunCons(s[1], l[1], [l[2], l[3], l[4]]);
    RunCons(s[0], l[0], [l[1], l[2], l[3], l[4]]);
    assert l == [l[0]] + [l[1], l[2], l[3], l[4]];
    assert [l[1]] + [l[2], l[3], l[4]] == [l[1], l[2], l[3], l[4]];
    assert [l[2]] + [l[3], l[4]] == [l[2], l[3], l[4]];
    assert [l[3]] + [l[4]] == [l[3], l[4]];
    assert [l[4]] + [] == [l[4]];
  }

  lemma StaleEntryFirstHalf(s: State)
    requires s == State([0], map[7 := false], false, 0, 0, {7}, {}, AtPop, NoFlush,
                        History(1, [], [], {7}, {}, {}, {7}, {}, {7}, false))
    ensures CanRun(START, [Arrive, Push, AddIdle(7), Dispatch(7), MarkDone])
    ensures Run(START, [Arrive, Push, AddIdle(7), Dispatch(7), MarkDone]) == s
  {
    var s1 := START.(arriving := 1);
    var s2 := State([0], map[], false, 0, 1, {}, {}, BetweenSources, NoFlush,
                    History(1, [], [], {}, {}, {}, {}, {}, {}, false));
    var s3 := s2.(adding := 0, live := {7}, marking := {7}, h := s2.h.(used := {7}));
    var s4 := s3.(live := {}, main := AtMark(7));
    assert Apply(s1, Push) == s2;
    assert Apply(s2, AddIdle(7)) == s3;
    assert Apply(s3, Dispatch(7)) == s4;
    assert Apply(s4, MarkDone) == s;
    RunFive([START, s1, s2, s3, s4, s], [Arrive, Push, AddIdle(7), Dispatch(7), MarkDone]);
  }

  lemma StaleEntrySecondHalf(s: State)
    requires s == State([0], map[7 := false], false, 0, 0, {7}, {}, AtPop, NoFlush,
                        History(1, [], [], {7}, {}, {}, {7}, {}, {7}, false))
    ensures CanRun(s, [BeginFlush, EndFlush, Pop, Mark(7)])
    ensures var s' := Run(s, [BeginFlush, EndFlush, Pop, Mark(7)]); Quiescent(s') && s'.pending == map[7 := true]
  {
    assert ToRemove(s.pending) == {};
    var s1 := Apply(s, BeginFlush);
    var s2 := Apply(s1, EndFlush);
    var s3 := Apply(s2, Pop);
    RunCons(s3, Mark(7), []);
    RunCons(s2, Pop, [Mark(7)]);
    RunCons(s1, EndFlush, [Pop, Mark(7)]);
    RunCons(s, BeginFlush, [EndFlush, Pop, Mark(7)]);
  }

  lemma RunCons(s: State, l: Label, ls: seq<Label>)
    requires Enabled(s, l) && CanRun(Apply(s, l), ls)
    ensures CanRun(s, [l] + ls) && Run(s, [l] + ls) == Run(Apply(s, l), ls)
  {
    assert ([l] + ls)[1..] == ls;
  }

  lemma {:induction false} RunConcat(s: State, ls: seq<Label>, ms: seq<Label>)
    requires CanRun(s, ls) && CanRun(Run(s, ls), ms)
    ensures CanRun(s, ls + ms) && Run(s, ls + ms) == Run(Run(s, ls), ms)
    decreases |ls|
  {
    if ls == [] {
      assert ls + ms == ms;
    } else {
      RunConcat(Apply(s, ls[0]), ls[1..], ms);
      assert (ls + ms)[1..] == ls[1..] + ms;
    }
  }

  /** A source that was attached runs once at most, and never after a flush removed it. */
  lemma SourceRunsOnce(s: State, id: nat)
    requires Reachable(s) && Enabled(s, Dispatch(id))
    ensures id !in s.h.everDispatched && id !in s.h.dropped && id !in Apply(s, Dispatch(id)).live
  {
    ReachableInv(s);
  }
}
