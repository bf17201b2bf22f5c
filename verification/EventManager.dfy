/** AampEventManager's queue, pending map and statistics as a class: each method is one section under
    mMutexVar, proved against the step of EventHandshake that it takes. */
module EventManager {
  import opened Common
  import opened EventHandshake

  const AAMP_MAX_NUM_EVENTS: nat := 43

  class AampEventManager {
    var mEventWorkerDataQue: seq<nat>
    var mPendingAsyncEvents: map<nat, bool>
    var mReleased: bool
    var mEventStats: array<int>

    ghost predicate Valid()
      reads this
    {
      mEventStats.Length == AAMP_MAX_NUM_EVENTS
    }

    constructor ()
      ensures Valid() && fresh(mEventStats)
      ensures mEventWorkerDataQue == [] && mPendingAsyncEvents == map[] && !mReleased
      ensures forall i :: 0 <= i < mEventStats.Length ==> mEventStats[i] == 0
    {
      mEventWorkerDataQue, mPendingAsyncEvents, mReleased := [], map[], false;
      mEventStats := new int[AAMP_MAX_NUM_EVENTS](_ => 0);
    }

    /** The locked section of SendEventAsync; pushed says whether an idle task must follow. */
    method PushEvent(event: nat) returns (pushed: bool)
      modifies this`mEventWorkerDataQue
      ensures pushed == !mReleased
      ensures mEventWorkerDataQue == Pushed(old(mEventWorkerDataQue), mReleased, event)
    {
      pushed := !mReleased;
      if pushed {
        mEventWorkerDataQue := mEventWorkerDataQue + [event];
      }
    }

    method SetCallbackAsPending(id: nat)
      requires PendingAssert(mPendingAsyncEvents, id)
      modifies this`mPendingAsyncEvents
      ensures mPendingAsyncEvents == MarkPending(old(mPendingAsyncEvents), id)
    {
      if id in mPendingAsyncEvents {
        assert !mPendingAsyncEvents[id];
        mPendingAsyncEvents := mPendingAsyncEvents - {id};
      } else {
        mPendingAsyncEvents := mPendingAsyncEvents[id := true];
      }
    }

    method SetCallbackAsDispatched(id: nat)
      requires DispatchedAssert(mPendingAsyncEvents, id)
      modifies this`mPendingAsyncEvents
      ensures mPendingAsyncEvents == MarkDispatched(old(mPendingAsyncEvents), id)
    {
      if id in mPendingAsyncEvents {
        assert mPendingAsyncEvents[id];
        mPendingAsyncEvents := mPendingAsyncEvents - {id};
      } else {
        mPendingAsyncEvents := mPendingAsyncEvents[id := false];
      }
    }

    /** The locked section of AsyncEvent. */
    method PopEvent() returns (eventData: Option<nat>)
      modifies this`mEventWorkerDataQue
      ensures (eventData, mEventWorkerDataQue) == Popped(old(mEventWorkerDataQue))
    {
      eventData := None;
      if |mEventWorkerDataQue| > 0 {
        eventData := Some(mEventWorkerDataQue[0]);
        mEventWorkerDataQue := mEventWorkerDataQue[1..];
      }
    }

    /** FlushPendingEvents; `gone` are the events dropped, in order, and `removed` the ids passed to
        g_source_remove. */
    method FlushPendingEvents() returns (gone: seq<nat>, removed: set<nat>)
      requires Valid()
      modifies this`mEventWorkerDataQue, this`mPendingAsyncEvents, mEventStats
      ensures Valid()
      ensures gone == old(mEventWorkerDataQue) && mEventWorkerDataQue == []
      ensures removed == ToRemove(old(mPendingAsyncEvents)) && mPendingAsyncEvents == map[]
      ensures forall i :: 0 <= i < mEventStats.Length ==> mEventStats[i] == 0
    {
      gone := [];
      while mEventWorkerDataQue != []
        invariant mPendingAsyncEvents == old(mPendingAsyncEvents)
        invariant gone + mEventWorkerDataQue == old(mEventWorkerDataQue)
        decreases |mEventWorkerDataQue|
      {
        gone := gone + [mEventWorkerDataQue[0]];
        mEventWorkerDataQue := mEventWorkerDataQue[1..];
      }
      removed := {};
      var todo := mPendingAsyncEvents.Keys;
      while todo != {}
        invariant mEventWorkerDataQue == [] && mPendingAsyncEvents == old(mPendingAsyncEvents)
        invariant todo <= mPendingAsyncEvents.Keys
        invariant removed == ToRemove(mPendingAsyncEvents) - todo
        decreases todo
      {
        var id :| id in todo;
        if id != 0 && mPendingAsyncEvents[id] {
          removed := removed + {id};
        }
        todo := todo - {id};
      }
      mPendingAsyncEvents := map[];
      for i := 0 to AAMP_MAX_NUM_EVENTS
        invariant mEventWorkerDataQue == [] && mPendingAsyncEvents == map[]
        invariant forall j :: 0 <= j < i ==> mEventStats[j] == 0
      {
        mEventStats[i] := 0;
      }
    }
  }
}
