/** Where CurlStore's handles come from: which handle a Get finds, under which id and how old. */
module CurlProvenance {
  import opened Common
  import opened CurlPool
  import opened CurlStoreModel
  import opened CurlConservation

  // ---------------------------------------------------------------------------------------------
  // A Keep followed by a Get

  /** The entries a bulk Keep adds for slots i..end. */
  function Entries(slots: seq<Handle>, i: nat, end: nat, t: int): seq<Free>
    requires i <= end <= |slots|
    decreases end - i
  {
    if i == end then [] else [Free(slots[i], i, t)] + Entries(slots, i + 1, end, t)
  }

  lemma {:induction false} EntriesAgree(slots: seq<Handle>, slots': seq<Handle>, i: nat, end: nat, t: int)
    requires i <= end <= |slots| == |slots'| && forall j :: i <= j < end ==> slots[j] == slots'[j]
    ensures Entries(slots, i, end, t) == Entries(slots', i, end, t)
    decreases end - i
  {
    if i < end {
      EntriesAgree(slots, slots', i + 1, end, t);
    }
  }

  lemma {:induction false} PutSlotsAdds(q: seq<Free>, slots: seq<Handle>, i: nat, end: nat, t: int)
    requires i <= end <= |slots|
    ensures PutSlots(q, slots, i, end, t).0 == q + Entries(slots, i, end, t)
    ensures forall j :: 0 <= j < |slots| ==>
              PutSlots(q, slots, i, end, t).1[j] == if i <= j < end then NULL else slots[j]
    decreases end - i
  {
    if i < end {
      PutSlotsAdds(q + [Free(slots[i], i, t)], slots[i := NULL], i + 1, end, t);
      EntriesAgree(slots, slots[i := NULL], i + 1, end, t);
      assert q + [Free(slots[i], i, t)] + Entries(slots, i + 1, end, t) == q + Entries(slots, i, end, t);
    }
  }

  lemma FrontTaken(f: Free, rest: seq<Free>, maxAge: int)
    requires maxAge <= f.ts
    ensures GetFromFreeQ([f] + rest, maxAge, f.curlId) == Lookup(f.curl, rest, [])
  {
    assert ([f] + rest)[1..] == rest;
  }

  lemma {:induction false} EntriesTaken(slots: seq<Handle>, dest: seq<Handle>, i: nat, end: nat, maxAge: int, t: int)
    requires i <= end <= |slots| && end <= |dest| && maxAge <= t
    ensures var r := TakeSlots(Entries(slots, i, end, t), maxAge, dest, i, end);
            && r.freeQ == [] && r.cleaned == []
            && forall j :: 0 <= j < |dest| ==> r.slots[j] == if i <= j < end then slots[j] else dest[j]
    decreases end - i
  {
    if i < end {
      FrontTaken(Free(slots[i], i, t), Entries(slots, i + 1, end, t), maxAge);
      EntriesTaken(slots, dest[i := slots[i]], i + 1, end, maxAge, t);
    }
  }

  /** A bulk Keep into an empty pool and a bulk Get from it give every slot its own handle back, if the handles
      have not expired; the client's slots were NULL in between and the pool is empty again. */
  lemma KeepThenGet(slots: seq<Handle>, dest: seq<Handle>, i: nat, end: nat, maxAge: int, t: int)
    requires i <= end <= |slots| && end <= |dest| && maxAge <= t
    ensures var kept := PutSlots([], slots, i, end, t);
            var r := TakeSlots(kept.0, maxAge, dest, i, end);
            && (forall j :: 0 <= j < |slots| ==> kept.1[j] == if i <= j < end then 0 else slots[j])
            && (forall j :: 0 <= j < |dest| ==> r.slots[j] == if i <= j < end then slots[j] else dest[j])
            && r.freeQ == [] && r.cleaned == []
  {
    PutSlotsAdds([], slots, i, end, t);
    assert [] + Entries(slots, i, end, t) == Entries(slots, i, end, t);
    EntriesTaken(slots, dest, i, end, maxAge, t);
  }

  // ---------------------------------------------------------------------------------------------
  // Which entry a Get finds

  lemma {:induction false} LookupOwn(q: seq<Free>, maxAge: int, id: int)
    ensures var r := GetFromFreeQ(q, maxAge, id);
            && (r.handle != NULL ==> exists f :: f in q && f.curl == r.handle && f.curlId == id && f.ts >= maxAge)
            && (forall f :: f in r.rest ==> f in q)
  {
    if q != [] && maxAge > q[0].ts {
      LookupOwn(q[1..], maxAge, id);
    }
  }

  lemma {:induction false} TakeSlotsOwn(q: seq<Free>, maxAge: int, slots: seq<Handle>, i: nat, end: nat)
    requires end <= |slots| && AllNull(slots, i, end)
    ensures var r := TakeSlots(q, maxAge, slots, i, end);
            && (forall j :: i <= j < end && r.slots[j] != NULL ==>
                  exists f :: f in q && f.curl == r.slots[j] && f.curlId == j && f.ts >= maxAge)
            && (forall f :: f in r.freeQ ==> f in q)
    decreases end - i
  {
    if i < end && q != [] {
      var g := GetFromFreeQ(q, maxAge, i);
      LookupOwn(q, maxAge, i);
      NullBehind(slots, i, end, g.handle);
      TakeSlotsOwn(g.rest, maxAge, slots[i := g.handle], i + 1, end);
      AvailableMeansFilled(g.rest, maxAge, slots[i := g.handle], i + 1, end);
    }
  }

  /** The pool has an entry of the id strictly younger than the limit, and only handles of that id that are not
      NULL. */
  ghost predicate Pooled(q: seq<Free>, maxAge: int, id: int) {
    && (exists f :: f in q && f.curlId == id && f.ts > maxAge)
    && (forall f :: f in q && f.curlId == id ==> f.curl != NULL)
  }

  lemma {:induction false} PooledTaken(q: seq<Free>, maxAge: int, id: int)
    requires Pooled(q, maxAge, id)
    ensures GetFromFreeQ(q, maxAge, id).handle != NULL
  {
    if maxAge > q[0].ts {
      PooledTaken(q[1..], maxAge, id);
    } else if q[0].curlId != id {
      var f :| f in q && f.curlId == id && f.ts > maxAge;
      var k :| 0 <= k < |q| && q[k] == f;
      assert YoungMatch(q[k], maxAge, id);
    }
  }

  /** A lookup for another id leaves the young entries of this one. */
  lemma {:induction false} OthersLeft(q: seq<Free>, maxAge: int, other: int, f: Free)
    requires f in q && f.curlId != other && f.ts > maxAge
    ensures f in GetFromFreeQ(q, maxAge, other).rest
  {
    if maxAge > q[0].ts {
      OthersLeft(q[1..], maxAge, other, f);
    }
  }

  /** A bulk Get fills every slot whose id the pool has a young handle for, whatever else it takes. */
  lemma {:induction false} BulkReuses(q: seq<Free>, maxAge: int, slots: seq<Handle>, i: nat, end: nat, j: nat)
    requires end <= |slots| && AllNull(slots, i, end) && i <= j < end && Pooled(q, maxAge, j)
    ensures TakeSlots(q, maxAge, slots, i, end).slots[j] != NULL
    decreases end - i
  {
    var g := GetFromFreeQ(q, maxAge, i);
    LookupOwn(q, maxAge, i);
    NullBehind(slots, i, end, g.handle);
    if i == j {
      PooledTaken(q, maxAge, j);
      AvailableMeansFilled(g.rest, maxAge, slots[i := g.handle], i + 1, end);
    } else {
      var f :| f in q && f.curlId == j && f.ts > maxAge;
      OthersLeft(q, maxAge, i, f);
      BulkReuses(g.rest, maxAge, slots[i := g.handle], i + 1, end, j);
    }
  }

  // ---------------------------------------------------------------------------------------------
  // Runs

  /** A handle given to a Keep: for which host, under which id and when. */
  datatype Kept = Kept(host: Host, id: int, curl: Handle, at: int)

  function KeptBy(s: State, l: Label, now: int): set<Kept>
    requires Protocol(s, l)
  {
    match l
    case KeepBulk(host, c, i, end) => set j | i <= j < end :: Kept(host, j, s.slots[c][j], now)
    case KeepSingle(host, id, curl) => {Kept(host, id, curl, now)}
    case _ => {}
  }

  /** All that a run keeps. */
  ghost function KeptIn(s: State, max: nat, es: seq<Event>): set<Kept>
    requires CanRun(s, max, es)
    decreases |es|
  {
    if es == [] then {}
    else
      KeptBy(s, es[0].l, es[0].now) + KeptIn(Apply(s, max, es[0].l, es[0].now, es[0].v), max, es[1..])
  }

  ghost predicate Logged(store: map<Host, Sock>, log: set<Kept>) {
    forall h, f :: h in store && f in store[h].freeQ ==> Kept(h, f.curlId, f.curl, f.ts) in log
  }

  /** A step on one host puts into its queue only entries that were there or are logged. */
  lemma LoggedAfter(s: map<Host, Sock>, t: map<Host, Sock>, host: Host, q: seq<Free>, log: set<Kept>, more: set<Kept>)
    requires Logged(s, log)
    requires forall h :: h in t ==> if h == host then t[h].freeQ == q else h in s && t[h] == s[h]
    requires forall f :: f in q ==> (host in s && f in s[host].freeQ) || Kept(host, f.curlId, f.curl, f.ts) in more
    ensures Logged(t, log + more)
  {
  }

  lemma GetBulkLogged(s: State, max: nat, host: Host, c: nat, i: nat, end: nat, now: int, v: Option<Host>,
                      log: set<Kept>)
    requires Enabled(s, max, GetBulk(host, c, i, end), now, v) && Logged(s.store, log)
    ensures Logged(GetBulkStep(s, max, host, c, i, end, now, v).store, log + {})
  {
    var t := GetBulkStep(s, max, host, c, i, end, now, v).store;
    if host in s.store {
      var k := Used(s.store[host], now);
      TakeSlotsOwn(k.freeQ, MaxAge(k), s.slots[c], i, end);
      LoggedAfter(s.store, t, host, TakeSlots(k.freeQ, MaxAge(k), s.slots[c], i, end).freeQ, log, {});
    } else {
      LoggedAfter(s.store, t, host, [], log, {});
    }
  }

  lemma GetSingleLogged(s: State, max: nat, host: Host, id: nat, now: int, v: Option<Host>, log: set<Kept>)
    requires Enabled(s, max, GetSingle(host, id), now, v) && Logged(s.store, log)
    ensures Logged(GetSingleStep(s, max, host, id, now, v).store, log + {})
  {
    var t := GetSingleStep(s, max, host, id, now, v).store;
    GetSingleStore(s, max, host, id, now, v);
    if host in s.store {
      var k := Used(s.store[host], now);
      LookupOwn(k.freeQ, MaxAge(k), id);
      LoggedAfter(s.store, t, host, GetFromFreeQ(k.freeQ, MaxAge(k), id).rest, log, {});
    } else {
      LoggedAfter(s.store, t, host, [], log, {});
    }
  }

  lemma {:induction false} EntriesLogged(host: Host, slots: seq<Handle>, i: nat, end: nat, t: int, f: Free)
    requires i <= end <= |slots| && f in Entries(slots, i, end, t)
    ensures i <= f.curlId < end && f == Free(slots[f.curlId], f.curlId, t)
    decreases end - i
  {
    if f != Free(slots[i], i, t) {
      EntriesLogged(host, slots, i + 1, end, t, f);
    }
  }

  lemma KeepBulkLogged(s: State, max: nat, host: Host, c: nat, i: nat, end: nat, now: int, v: Option<Host>,
                       log: set<Kept>)
    requires Enabled(s, max, KeepBulk(host, c, i, end), now, v) && Logged(s.store, log) && host in s.store
    ensures Logged(KeepBulkStep(s, max, host, c, i, end, now, v).store, log + KeptBy(s, KeepBulk(host, c, i, end), now))
  {
    var t, more := KeepBulkStep(s, max, host, c, i, end, now, v).store, KeptBy(s, KeepBulk(host, c, i, end), now);
    var q0, slots := s.store[host].freeQ, s.slots[c];
    var q := PutSlots(q0, slots, i, end, now).0;
    forall f | f in q ensures f in q0 || Kept(host, f.curlId, f.curl, f.ts) in more {
      if i <= end {
        PutSlotsAdds(q0, slots, i, end, now);
        if f !in q0 {
          EntriesLogged(host, slots, i, end, now, f);
        }
      }
    }
    LoggedAfter(s.store, t, host, q, log, more);
  }

  lemma KeepSingleLogged(s: State, host: Host, id: nat, curl: Handle, now: int, log: set<Kept>)
    requires Logged(s.store, log) && host in s.store
    ensures Logged(KeepSingleStep(s, host, id, curl, now).store, log + {Kept(host, id, curl, now)})
  {
    var t := KeepSingleStep(s, host, id, curl, now).store;
    LoggedAfter(s.store, t, host, s.store[host].freeQ + [Free(curl, id, now)], log, {Kept(host, id, curl, now)});
  }

  lemma LoggedStep(s: State, max: nat, l: Label, now: int, v: Option<Host>, log: set<Kept>)
    requires Inv(s, max) && Enabled(s, max, l, now, v) && Logged(s.store, log)
    ensures Logged(Apply(s, max, l, now, v).store, log + KeptBy(s, l, now))
  {
    ApplyStore(s, max, l, now, v);
    match l
    case GetBulk(host, c, i, end) => GetBulkLogged(s, max, host, c, i, end, now, v, log);
    case GetSingle(host, id) => GetSingleLogged(s, max, host, id, now, v, log);
    case KeepBulk(host, c, i, end) => KeepBulkLogged(s, max, host, c, i, end, now, v, log);
    case KeepSingle(host, id, curl) => KeepSingleLogged(s, host, id, curl, now, log);
    case _ => EffectKeepsGets(s, max, l, now, v);
  }

  lemma Regroup(log: set<Kept>, more: set<Kept>, rest: set<Kept>)
    ensures log + more + rest == log + (more + rest)
  {
  }

  lemma {:induction false} LoggedRun(s: State, max: nat, es: seq<Event>, log: set<Kept>)
    requires Inv(s, max) && CanRun(s, max, es) && Logged(s.store, log)
    ensures Inv(Run(s, max, es), max) && Logged(Run(s, max, es).store, log + KeptIn(s, max, es))
    decreases |es|
  {
    if es == [] {
      assert log + {} == log;
    } else {
      var t, more := Apply(s, max, es[0].l, es[0].now, es[0].v), KeptBy(s, es[0].l, es[0].now);
      InvKept(s, max, es[0].l, es[0].now, es[0].v);
      LoggedStep(s, max, es[0].l, es[0].now, es[0].v, log);
      LoggedRun(t, max, es[1..], log + more);
      Regroup(log, more, KeptIn(t, max, es[1..]));
    }
  }

  lemma ReachableLogged(max: nat, es: seq<Event>)
    requires CanRun(START, max, es)
    ensures Inv(Run(START, max, es), max) && Logged(Run(START, max, es).store, KeptIn(START, max, es))
  {
    StartKeeps(max);
    LoggedRun(START, max, es, {});
    assert {} + KeptIn(START, max, es) == KeptIn(START, max, es);
  }

  /** After any run, a handle that a bulk Get finds for a slot was kept earlier, for the same host and under the
      id of that slot, 300 seconds ago at most. */
  lemma BulkHandleWasKept(max: nat, es: seq<Event>, host: Host, c: nat, i: nat, end: nat, now: int, v: Option<Host>,
                          j: nat)
    requires CanRun(START, max, es) && Enabled(Run(START, max, es), max, GetBulk(host, c, i, end), now, v)
    requires i <= j < end
    ensures var h := Apply(Run(START, max, es), max, GetBulk(host, c, i, end), now, v).slots[c][j];
            h != 0 ==> exists at :: now - 300000 <= at <= now && Kept(host, j, h, at) in KeptIn(START, max, es)
  {
    ReachableLogged(max, es);
    BulkFound(Run(START, max, es), max, host, c, i, end, now, v, j, KeptIn(START, max, es));
  }

  lemma BulkFound(s: State, max: nat, host: Host, c: nat, i: nat, end: nat, now: int, v: Option<Host>, j: nat,
                  log: set<Kept>)
    requires Inv(s, max) && Logged(s.store, log) && Enabled(s, max, GetBulk(host, c, i, end), now, v) && i <= j < end
    ensures var h := Apply(s, max, GetBulk(host, c, i, end), now, v).slots[c][j];
            h != 0 ==> exists at :: now - 300000 <= at <= now && Kept(host, j, h, at) in log
  {
    BulkSlots(s, max, host, c, i, end, now, v);
    if host in s.store {
      TakeSlotsOwn(s.store[host].freeQ, now - 300000, s.slots[c], i, end);
      assert InTime(s.store[host], s.now);
    }
  }

  lemma BulkSlots(s: State, max: nat, host: Host, c: nat, i: nat, end: nat, now: int, v: Option<Host>)
    requires Enabled(s, max, GetBulk(host, c, i, end), now, v)
    ensures Apply(s, max, GetBulk(host, c, i, end), now, v).slots[c]
         == if host in s.store then TakeSlots(s.store[host].freeQ, now - 300000, s.slots[c], i, end).slots
            else s.slots[c]
  {
    ApplyPlaces(s, max, GetBulk(host, c, i, end), now, v);
    GetBulkSlots(s, max, host, c, i, end, now, v);
  }

  lemma GetBulkSlots(s: State, max: nat, host: Host, c: nat, i: nat, end: nat, now: int, v: Option<Host>)
    requires c in s.slots && end <= |s.slots[c]| && (v.Some? ==> v.value in s.store)
    ensures GetBulkStep(s, max, host, c, i, end, now, v).slots
         == if host in s.store
            then s.slots[c := TakeSlots(s.store[host].freeQ, now - 300000, s.slots[c], i, end).slots] else s.slots
  {
    if host in s.store {
      var k := Used(s.store[host], now);
      var taken := TakeSlots(k.freeQ, MaxAge(k), s.slots[c], i, end);
      EvictSlots(s.(store := s.store[host := k.(freeQ := taken.freeQ)], slots := s.slots[c := taken.slots],
                 destroyed := s.destroyed + Bag(taken.cleaned)), max + 1, v);
    } else {
      EvictSlots(s, max, v);
    }
  }

  lemma EvictSlots(s: State, n: nat, v: Option<Host>)
    requires v.Some? ==> v.value in s.store
    ensures EvictAt(s, n, v).slots == s.slots
  {
  }

  /** The same for a single Get; if the pool has no such handle it makes a new one. */
  lemma SingleHandleWasKept(max: nat, es: seq<Event>, host: Host, id: nat, now: int, v: Option<Host>)
    requires CanRun(START, max, es) && Enabled(Run(START, max, es), max, GetSingle(host, id), now, v)
    ensures var s := Run(START, max, es);
            var t := Apply(s, max, GetSingle(host, id), now, v);
            || (t.made == s.made + 1 && t.held == s.held + multiset{t.made})
            || (t.made == s.made
                && exists h, at :: t.held == s.held + multiset{h} && h != 0 && now - 300000 <= at <= now
                                   && Kept(host, id, h, at) in KeptIn(START, max, es))
  {
    ReachableLogged(max, es);
    SingleFoundLogged(Run(START, max, es), max, host, id, now, v, KeptIn(START, max, es));
  }

  lemma SingleFoundLogged(s: State, max: nat, host: Host, id: nat, now: int, v: Option<Host>, log: set<Kept>)
    requires Inv(s, max) && Logged(s.store, log) && Enabled(s, max, GetSingle(host, id), now, v)
    ensures var t := Apply(s, max, GetSingle(host, id), now, v);
            || (t.made == s.made + 1 && t.held == s.held + multiset{t.made})
            || (t.made == s.made
                && exists h, at :: t.held == s.held + multiset{h} && h != 0 && now - 300000 <= at <= now
                                   && Kept(host, id, h, at) in log)
  {
    if host in s.store {
      SingleFound(s, max, host, id, now, v);
      if GetFromFreeQ(s.store[host].freeQ, now - 300000, id).handle != NULL {
        var at := LookupLogged(s, host, id, now, log);
      }
    } else {
      SingleMade(s, max, host, id, now, v);
    }
  }

  lemma LookupLogged(s: State, host: Host, id: nat, now: int, log: set<Kept>) returns (at: int)
    requires Times(s) && s.now <= now && Logged(s.store, log) && host in s.store
    requires GetFromFreeQ(s.store[host].freeQ, now - 300000, id).handle != NULL
    ensures now - 300000 <= at <= now
    ensures Kept(host, id, GetFromFreeQ(s.store[host].freeQ, now - 300000, id).handle, at) in log
  {
    var q := s.store[host].freeQ;
    LookupOwn(q, now - 300000, id);
    var f :| f in q && f.curl == GetFromFreeQ(q, now - 300000, id).handle && f.curlId == id && f.ts >= now - 300000;
    assert InTime(s.store[host], s.now);
    at := f.ts;
  }

  lemma SingleMade(s: State, max: nat, host: Host, id: nat, now: int, v: Option<Host>)
    requires Enabled(s, max, GetSingle(host, id), now, v) && host !in s.store
    ensures var t := Apply(s, max, GetSingle(host, id), now, v);
            t.made == s.made + 1 && t.held == s.held + multiset{t.made}
  {
  }

  lemma SingleFound(s: State, max: nat, host: Host, id: nat, now: int, v: Option<Host>)
    requires Enabled(s, max, GetSingle(host, id), now, v) && host in s.store
    ensures var h := GetFromFreeQ(s.store[host].freeQ, now - 300000, id).handle;
            var t := Apply(s, max, GetSingle(host, id), now, v);
            if h != NULL then t.made == s.made && t.held == s.held + multiset{h}
            else t.made == s.made + 1 && t.held == s.held + multiset{t.made}
  {
  }

  /** A single Get makes no new handle when the pool has a young one for its id. */
  lemma SingleReuses(s: State, max: nat, host: Host, id: nat, now: int, v: Option<Host>)
    requires Enabled(s, max, GetSingle(host, id), now, v) && host in s.store
    requires Pooled(s.store[host].freeQ, now - 300000, id)
    ensures Apply(s, max, GetSingle(host, id), now, v).made == s.made
  {
    PooledTaken(s.store[host].freeQ, now - 300000, id);
    SingleFound(s, max, host, id, now, v);
  }
}
