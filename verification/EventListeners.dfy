/** AampEventManager's listener lists: singly linked, newest first, edited through a pointer to a pointer. */
module EventListeners {

  /** An EventListener pointer; NULL_LISTENER stands for NULL. */
  type Listener = nat
  const NULL_LISTENER: Listener := 0

  /** Oldest first, given newest first. */
  function Reverse(s: seq<Listener>): (r: seq<Listener>)
    ensures |r| == |s|
  {
    if s == [] then [] else Reverse(s[1..]) + [s[0]]
  }

  /** The list without its first occurrence of x. */
  function RemoveFirst(s: seq<Listener>, x: Listener): seq<Listener> {
    if s == [] then []
    else if s[0] == x then s[1..]
    else [s[0]] + RemoveFirst(s[1..], x)
  }

  /** Registration order without the newest registration of x. */
  function RemoveNewest(s: seq<Listener>, x: Listener): seq<Listener> {
    if s == [] then []
    else if s[|s| - 1] == x then s[..|s| - 1]
    else RemoveNewest(s[..|s| - 1], x) + [s[|s| - 1]]
  }

  /** Unlinking the first match of the list is dropping the newest registration and keeping the others
      in order. */
  lemma {:induction false} UnlinkIsRemoveNewest(s: seq<Listener>, x: Listener)
    ensures Reverse(RemoveFirst(s, x)) == RemoveNewest(Reverse(s), x)
  {
    if s != [] {
      var r := Reverse(s);
      assert r[|r| - 1] == s[0] && r[..|r| - 1] == Reverse(s[1..]);
      if s[0] != x {
        UnlinkIsRemoveNewest(s[1..], x);
        assert ([s[0]] + RemoveFirst(s[1..], x))[1..] == RemoveFirst(s[1..], x);
      }
    }
  }

  lemma {:induction false} ReverseConcat(a: seq<Listener>, b: seq<Listener>)
    ensures Reverse(a + b) == Reverse(b) + Reverse(a)
  {
    if a == [] {
      assert a + b == b;
    } else {
      assert (a + b)[1..] == a[1..] + b;
      ReverseConcat(a[1..], b);
    }
  }

  /** The last of x's registrations. */
  predicate Newest(s: seq<Listener>, x: Listener, k: nat) {
    k < |s| && s[k] == x && x !in s[k + 1..]
  }

  /** RemoveEventListener takes out one registration if there is one, and nothing else. */
  lemma {:induction false} RemoveNewestExact(s: seq<Listener>, x: Listener)
    ensures x !in s ==> RemoveNewest(s, x) == s
    ensures x in s ==>
              exists k: nat :: Newest(s, x, k) && RemoveNewest(s, x) == s[..k] + s[k + 1..]
  {
    if s != [] {
      var n := |s| - 1;
      if s[n] == x {
        assert s[n + 1..] == [] && s[..n] + s[n + 1..] == s[..n] && Newest(s, x, n);
      } else {
        var t := s[..n];
        RemoveNewestExact(t, x);
        assert s == t + [s[n]];
        if x in s {
          var k: nat :| Newest(t, x, k) && RemoveNewest(t, x) == t[..k] + t[k + 1..];
          RemoveNewestBefore(t, s[n], x, k);
        }
      }
    }
  }

  lemma RemoveNewestBefore(t: seq<Listener>, y: Listener, x: Listener, k: nat)
    requires Newest(t, x, k) && x != y
    ensures var s := t + [y];
            Newest(s, x, k) && s[..k] + s[k + 1..] == t[..k] + t[k + 1..] + [y]
  {
    assert (t + [y])[k + 1..] == t[k + 1..] + [y];
  }

  class ListenerData {
    var eventListener: Listener
    var pNext: ListenerData?

    constructor (listener: Listener, next: ListenerData?)
      ensures eventListener == listener && pNext == next
    {
      eventListener, pNext := listener, next;
    }
  }

  /** The i-th node, or null past the end. */
  ghost function At(nodes: seq<ListenerData>, i: nat): ListenerData? {
    if i < |nodes| then nodes[i] else null
  }

  /** The i-th node is in repr, holds the i-th listener and links to the next node. */
  ghost predicate Linked(nodes: seq<ListenerData>, who: seq<Listener>, repr: set<ListenerData>, i: nat)
    requires i < |nodes| == |who|
    reads repr
  {
    nodes[i] in repr && nodes[i].pNext == At(nodes, i + 1) && nodes[i].eventListener == who[i]
  }

  /** The nodes, all in repr, form a chain from head to null without repetition and hold these listeners. */
  ghost predicate Chain(head: ListenerData?, nodes: seq<ListenerData>, who: seq<Listener>, repr: set<ListenerData>)
    reads repr
  {
    && |who| == |nodes| && head == At(nodes, 0)
    && (forall i :: 0 <= i < |nodes| ==> Linked(nodes, who, repr, i))
    && forall i, j :: 0 <= i < j < |nodes| ==> nodes[i] != nodes[j]
  }

  /** One slot of mEventListeners. */
  class ListenerList {
    var head: ListenerData?
    ghost var Contents: seq<Listener>      // newest first, as linked
    ghost var nodes: seq<ListenerData>
    ghost var Repr: set<ListenerData>

    ghost predicate Valid()
      reads this, Repr
    {
      Chain(head, nodes, Contents, Repr)
    }

    /** In registration order. */
    ghost function Registered(): seq<Listener>
      reads this
    {
      Reverse(Contents)
    }

    constructor ()
      ensures Valid() && Registered() == [] && Repr == {}
    {
      head, Contents, nodes, Repr := null, [], [], {};
    }

    method AddEventListener(eventListener: Listener)
      requires Valid()
      modifies this
      ensures Valid() && fresh(Repr - old(Repr))
      ensures Registered() == old(Registered()) + if eventListener == NULL_LISTENER then [] else [eventListener]
    {
      if eventListener != NULL_LISTENER {
        var pListener := new ListenerData(eventListener, head);
        head, nodes, Repr := pListener, [pListener] + nodes, Repr + {pListener};
        Contents := [eventListener] + Contents;
        forall i | 0 <= i < |nodes| ensures Linked(nodes, Contents, Repr, i) {
          assert i > 0 ==> old(Linked(nodes, Contents, Repr, i - 1));
        }
      }
    }

    method RemoveEventListener(eventListener: Listener)
      requires Valid()
      modifies this, Repr
      ensures Valid() && Repr == old(Repr)
      ensures Registered() == if eventListener == NULL_LISTENER then old(Registered())
                              else RemoveNewest(old(Registered()), eventListener)
    {
      if eventListener != NULL_LISTENER {
        UnlinkIsRemoveNewest(Contents, eventListener);
        var last: ListenerData? := null;
        var pListener := head;
        ghost var k := 0;
        while pListener != null && pListener.eventListener != eventListener
          invariant k <= |nodes| && pListener == At(nodes, k)
          invariant last == if k == 0 then null else At(nodes, k - 1)
          invariant forall i :: 0 <= i < k ==> Contents[i] != eventListener
          decreases |nodes| - k
        {
          assert Linked(nodes, Contents, Repr, k);
          last, pListener, k := pListener, pListener.pNext, k + 1;
        }
        if pListener != null {
          assert Linked(nodes, Contents, Repr, k);
          RemoveFirstAt(Contents, eventListener, k);
          Unlink(last, pListener, k);
        } else {
          RemoveFirstAbsent(Contents, eventListener);
        }
      }
    }

    /** *ppLast = pListener->pNext, where ppLast is the head (last == null) or the link of `last`. */
    method Unlink(last: ListenerData?, pListener: ListenerData, ghost k: nat)
      requires Valid() && k < |nodes| && pListener == nodes[k]
      requires last == if k == 0 then null else At(nodes, k - 1)
      modifies this`head, this`nodes, this`Contents, Repr
      ensures Valid()
      ensures Contents == old(Contents)[..k] + old(Contents)[k + 1..]
    {
      if last == null {
        UnlinkHead(pListener);
      } else {
        UnlinkAfter(last, pListener, k);
      }
    }

    method UnlinkHead(pListener: ListenerData)
      requires Valid() && nodes != [] && pListener == nodes[0]
      modifies this`head, this`nodes, this`Contents
      ensures Valid() && Contents == old(Contents)[1..]
    {
      assert Linked(nodes, Contents, Repr, 0);
      head := pListener.pNext;
      nodes, Contents := nodes[1..], Contents[1..];
      forall i | 0 <= i < |nodes| ensures Linked(nodes, Contents, Repr, i) {
        assert old(Linked(nodes, Contents, Repr, i + 1));
      }
    }

    method UnlinkAfter(last: ListenerData, pListener: ListenerData, ghost k: nat)
      requires Valid() && 0 < k < |nodes| && pListener == nodes[k] && last == nodes[k - 1]
      modifies this`nodes, this`Contents, Repr
      ensures Valid() && Contents == old(Contents)[..k] + old(Contents)[k + 1..]
    {
      assert Linked(nodes, Contents, Repr, k - 1) && Linked(nodes, Contents, Repr, k);
      last.pNext := pListener.pNext;
      nodes := nodes[..k] + nodes[k + 1..];
      Contents := Contents[..k] + Contents[k + 1..];
      forall i | 0 <= i < |nodes| ensures Linked(nodes, Contents, Repr, i) {
        assert old(Linked(nodes, Contents, Repr, if i < k then i else i + 1));
      }
    }
  }

  lemma {:induction false} RemoveFirstAt(s: seq<Listener>, x: Listener, k: nat)
    requires k < |s| && s[k] == x && forall i :: 0 <= i < k ==> s[i] != x
    ensures RemoveFirst(s, x) == s[..k] + s[k + 1..]
  {
    if k > 0 {
      RemoveFirstAt(s[1..], x, k - 1);
      assert [s[0]] + (s[1..][..k - 1] + s[1..][k..]) == s[..k] + s[k + 1..];
    }
  }

  lemma {:induction false} RemoveFirstAbsent(s: seq<Listener>, x: Listener)
    requires forall i :: 0 <= i < |s| ==> s[i] != x
    ensures RemoveFirst(s, x) == s
  {
    if s != [] {
      RemoveFirstAbsent(s[1..], x);
    }
  }

  // ---------------------------------------------------------------------------------------------
  // Dispatch

  lemma ReverseTakeNext(s: seq<Listener>, k: nat)
    requires k < |s|
    ensures Reverse(s[..k + 1]) == [s[k]] + Reverse(s[..k])
  {
    assert s[..k + 1] == s[..k] + [s[k]];
    ReverseConcat(s[..k], [s[k]]);
    assert Reverse([s[k]]) == [s[k]];
  }

  /** Pushes one copy in front of p. */
  method PushCopy(who: Listener, p: ListenerData?, ghost ps: seq<ListenerData>,
                  ghost copies: seq<Listener>, ghost repr: set<ListenerData>)
    returns (q: ListenerData?, ghost qs: seq<ListenerData>, ghost repr': set<ListenerData>)
    requires Chain(p, ps, copies, repr)
    ensures Chain(q, qs, [who] + copies, repr') && fresh(repr' - repr)
  {
    var pNew := new ListenerData(who, p);
    q, qs, repr' := pNew, [pNew] + ps, repr + {pNew};
    forall i | 0 <= i < |qs| ensures Linked(qs, [who] + copies, repr', i) {
      assert i > 0 ==> Linked(ps, copies, repr, i - 1);
    }
  }

  /** Pushes a copy of each listener of one list in front of pList. */
  method CopyOnto(list: ListenerList, pList: ListenerData?, ghost ns: seq<ListenerData>,
                  ghost copies: seq<Listener>, ghost repr: set<ListenerData>)
    returns (p: ListenerData?, ghost ps: seq<ListenerData>, ghost repr': set<ListenerData>)
    requires list.Valid() && Chain(pList, ns, copies, repr)
    ensures Chain(p, ps, list.Registered() + copies, repr') && fresh(repr' - repr)
  {
    p, ps, repr' := pList, ns, repr;
    var pListener := list.head;
    ghost var k := 0;
    ghost var done := copies;
    while pListener != null
      invariant k <= |list.nodes| && pListener == At(list.nodes, k)
      invariant Chain(p, ps, done, repr') && fresh(repr' - repr)
      invariant done == Reverse(list.Contents[..k]) + copies
      decreases |list.nodes| - k
    {
      assert Linked(list.nodes, list.Contents, list.Repr, k);
      p, ps, repr' := PushCopy(pListener.eventListener, p, ps, done, repr');
      ReverseTakeNext(list.Contents, k);
      done := [pListener.eventListener] + done;
      pListener, k := pListener.pNext, k + 1;
    }
    assert list.Contents[..k] == list.Contents;
  }

  /** What one event handler does to the two lists that matter for the event it is handling. */
  datatype Reaction = Add(toAll: bool, who: Listener) | Remove(fromAll: bool, who: Listener)

  /** The two slots, which share no node unless they are the same slot. */
  ghost predicate Ready(typed: ListenerList, all: ListenerList)
    reads typed, all, typed.Repr, all.Repr
  {
    typed.Valid() && all.Valid() && (typed == all || typed.Repr !! all.Repr)
  }

  method React(r: Reaction, typed: ListenerList, all: ListenerList)
    requires Ready(typed, all)
    modifies typed, all, typed.Repr, all.Repr
    ensures Ready(typed, all) && fresh(typed.Repr - old(typed.Repr)) && fresh(all.Repr - old(all.Repr))
  {
    match r {
      case Add(toAll, who) =>
        if toAll { all.AddEventListener(who); } else { typed.AddEventListener(who); }
      case Remove(fromAll, who) =>
        if fromAll { all.RemoveEventListener(who); } else { typed.RemoveEventListener(who); }
    }
  }

  /** The edits made while one handler runs, by it or by other threads. */
  method ReactAll(rs: seq<Reaction>, typed: ListenerList, all: ListenerList)
    requires Ready(typed, all)
    modifies typed, all, typed.Repr, all.Repr
    ensures Ready(typed, all) && fresh(typed.Repr - old(typed.Repr)) && fresh(all.Repr - old(all.Repr))
  {
    for i := 0 to |rs|
      invariant Ready(typed, all) && fresh(typed.Repr - old(typed.Repr)) && fresh(all.Repr - old(all.Repr))
    {
      React(rs[i], typed, all);
    }
  }

  /** SendEventSync. `typed` is the event type's slot and `all` the slot of AAMP_EVENT_ALL_EVENTS; script says
      which edits happen in each round of the dispatch. */
  method SendEventSync(released: bool, eventType: nat, mEventStats: array<int>, typed: ListenerList,
                       all: ListenerList, script: seq<seq<Reaction>>)
    returns (calls: seq<Listener>)
    requires Ready(typed, all) && eventType < mEventStats.Length
    modifies mEventStats, typed, all, typed.Repr, all.Repr
    ensures Ready(typed, all)
    ensures calls == if released then [] else NonNull(old(all.Registered()) + old(typed.Registered()))
    ensures mEventStats[..] == if released then old(mEventStats[..])
                               else old(mEventStats[..])[eventType := old(mEventStats[eventType]) + 1]
  {
    if released {
      return [];
    }
    mEventStats[eventType] := mEventStats[eventType] + 1;
    calls := Dispatch(typed, all, script);
  }

  method Dispatch(typed: ListenerList, all: ListenerList, script: seq<seq<Reaction>>) returns (calls: seq<Listener>)
    requires Ready(typed, all)
    modifies typed, all, typed.Repr, all.Repr
    ensures Ready(typed, all)
    ensures calls == NonNull(old(all.Registered()) + old(typed.Registered()))
  {
    var pList, ns, repr := Snapshot(typed, all);
    calls := CallEach(pList, ns, all.Registered() + typed.Registered(), repr, typed, all, script);
  }

  /** The copies of both lists. */
  method Snapshot(typed: ListenerList, all: ListenerList)
    returns (pList: ListenerData?, ghost ns: seq<ListenerData>, ghost repr: set<ListenerData>)
    requires typed.Valid() && all.Valid()
    ensures Chain(pList, ns, all.Registered() + typed.Registered(), repr) && fresh(repr)
  {
    ghost var who := typed.Registered();
    pList, ns, repr := CopyOnto(typed, null, [], [], {});
    assert typed.Registered() + [] == who;
    pList, ns, repr := CopyOnto(all, pList, ns, who, repr);
  }

  /** The dispatch loop: the copies are walked while the registered lists are edited. */
  method CallEach(first: ListenerData?, ghost ns: seq<ListenerData>, ghost who: seq<Listener>,
                  ghost repr: set<ListenerData>, typed: ListenerList, all: ListenerList,
                  script: seq<seq<Reaction>>)
    returns (calls: seq<Listener>)
    requires Ready(typed, all) && Chain(first, ns, who, repr)
    requires repr !! typed.Repr && repr !! all.Repr
    modifies typed, all, typed.Repr, all.Repr
    ensures Ready(typed, all)
    ensures calls == NonNull(who)
  {
    var pList := first;
    calls := [];
    var k := 0;
    while pList != null
      invariant k <= |ns| && pList == At(ns, k)
      invariant Ready(typed, all) && fresh(typed.Repr - old(typed.Repr)) && fresh(all.Repr - old(all.Repr))
      invariant Chain(first, ns, who, repr) && repr !! typed.Repr && repr !! all.Repr
      invariant calls == NonNull(who[..k])
      decreases |ns| - k
    {
      NonNullTakeNext(who, k);
      assert Linked(ns, who, repr, k);
      if pList.eventListener != NULL_LISTENER {
        calls := calls + [pList.eventListener];
      }
      if k < |script| {
        ReactAll(script[k], typed, all);
      }
      assert Linked(ns, who, repr, k);
      pList, k := pList.pNext, k + 1;
    }
    assert who[..k] == who;
  }

  lemma NonNullTakeNext(s: seq<Listener>, k: nat)
    requires k < |s|
    ensures NonNull(s[..k + 1]) == NonNull(s[..k]) + if s[k] == NULL_LISTENER then [] else [s[k]]
  {
    assert s[..k + 1] == s[..k] + [s[k]];
    NonNullSnoc(s[..k], s[k]);
  }

  function NonNull(s: seq<Listener>): seq<Listener> {
    if s == [] then [] else (if s[0] == NULL_LISTENER then [] else [s[0]]) + NonNull(s[1..])
  }

  lemma {:induction false} NonNullSnoc(s: seq<Listener>, x: Listener)
    ensures NonNull(s + [x]) == NonNull(s) + if x == NULL_LISTENER then [] else [x]
  {
    if s == [] {
      assert [x][1..] == [];
    } else {
      NonNullSnoc(s[1..], x);
      assert (s + [x])[1..] == s[1..] + [x];
    }
  }
}
