/** Which events AampEventManager hands to its listeners, over every interleaving. */
module EventDelivery {
  import opened EventHandshake

  /** A run in normal play: no flush, the player is never released, some listener is always registered. */
  predicate NormalPlay(ls: seq<Label>) {
    BeginFlush !in ls && SetReleased(true) !in ls && Send(false) !in ls
  }

  function Arrivals(ls: seq<Label>): nat {
    if ls == [] then 0 else (if ls[0] == Arrive then 1 else 0) + Arrivals(ls[1..])
  }

  /** The event popped and not yet sent, if any. */
  function InHand(m: MainPc): seq<nat> {
    if m.AtSend? then [m.event] else []
  }

  ghost predicate AllSent(s: State) {
    !s.released && s.flush.NoFlush? && s.h.left == s.h.sent + InHand(s.main)
  }

  lemma AllSentStep(s: State, l: Label)
    requires AllSent(s) && Enabled(s, l) && l != BeginFlush && l != SetReleased(true) && l != Send(false)
    ensures AllSent(Apply(s, l))
    ensures Apply(s, l).h.pushed + Apply(s, l).arriving == s.h.pushed + s.arriving + (if l == Arrive then 1 else 0)
  {
  }

  lemma {:induction false} AllSentRun(s: State, ls: seq<Label>)
    requires AllSent(s) && CanRun(s, ls) && NormalPlay(ls)
    ensures AllSent(Run(s, ls))
    ensures Run(s, ls).h.pushed + Run(s, ls).arriving == s.h.pushed + s.arriving + Arrivals(ls)
    decreases |ls|
  {
    if ls != [] {
      assert ls[0] in ls;
      AllSentStep(s, ls[0]);
      AllSentRun(Apply(s, ls[0]), ls[1..]);
    }
  }

  /** In normal play every event of every sender is queued, every event that leaves the queue is sent, and so at
      rest all of them have been sent, in the order they were pushed. */
  lemma EveryEventIsSent(ls: seq<Label>)
    requires CanRun(START, ls) && BeginFlush !in ls && SetReleased(true) !in ls && Send(false) !in ls
    ensures var s := Run(START, ls);
            && s.h.pushed + s.arriving == Arrivals(ls)
            && s.h.left == s.h.sent + (if s.main.AtSend? then [s.main.event] else [])
            && (Quiescent(s) ==> |s.h.sent| == Arrivals(ls) && forall i :: 0 <= i < |s.h.sent| ==> s.h.sent[i] == i)
  {
    AllSentRun(START, ls);
    var s := Run(START, ls);
    if Quiescent(s) {
      NoStrandedEvent(s);
      PushOrder(s);
      assert s.h.sent == s.h.sent + [];
    }
  }

  /** A released player gets no event, and nothing more is queued for it, until it is in use again. */
  lemma {:induction false} NothingSentWhileReleased(s: State, ls: seq<Label>)
    requires s.released && CanRun(s, ls) && SetReleased(false) !in ls
    ensures Run(s, ls).h.sent == s.h.sent && Run(s, ls).h.pushed == s.h.pushed && Run(s, ls).released
    decreases |ls|
  {
    if ls != [] {
      assert ls[0] in ls;
      ReleasedStep(s, ls[0]);
      NothingSentWhileReleased(Apply(s, ls[0]), ls[1..]);
    }
  }

  lemma ReleasedStep(s: State, l: Label)
    requires s.released && Enabled(s, l) && l != SetReleased(false)
    ensures var s' := Apply(s, l); s'.released && s'.h.sent == s.h.sent && s'.h.pushed == s.h.pushed
  {
  }

  /** Nor does a player without a listener for the events that leave the queue. */
  lemma {:induction false} NothingSentUnheard(s: State, ls: seq<Label>)
    requires CanRun(s, ls) && Send(true) !in ls
    ensures Run(s, ls).h.sent == s.h.sent
    decreases |ls|
  {
    if ls != [] {
      assert ls[0] in ls;
      UnheardStep(s, ls[0]);
      NothingSentUnheard(Apply(s, ls[0]), ls[1..]);
    }
  }

  lemma UnheardStep(s: State, l: Label)
    requires Enabled(s, l) && l != Send(true)
    ensures Apply(s, l).h.sent == s.h.sent
  {
  }
}
