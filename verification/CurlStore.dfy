/** CurlStore and its per-host records as classes, proved against CurlPool and CurlStoreModel. */
module CurlStores {
  import opened Common
  import opened CurlPool
  import opened CurlStoreModel

  datatype AampCurlStoreErrorCode = HOST_NOT_AVAILABLE | SOCK_NOT_AVAILABLE | HOST_SOCK_AVAILABLE

  /** A lookup after some handles were already cleaned up. */
  function Behind(cleaned: seq<Handle>, r: Lookup): Lookup {
    r.(cleaned := cleaned + r.cleaned)
  }

  function BehindBulk(cleaned: seq<Handle>, available: bool, r: Bulk): Bulk {
    r.(cleaned := cleaned + r.cleaned, available := available && r.available)
  }

  /** The loop of GetFromCurlStoreBulk aims at `goal` and has come to slot i. */
  ghost predicate Taking(goal: Bulk, cleaned: seq<Handle>, available: bool, q: seq<Free>, maxAge: int,
                         slots: seq<Handle>, i: nat, end: nat) {
    end <= |slots| && goal == BehindBulk(cleaned, available, TakeSlots(q, maxAge, slots, i, end))
  }

  lemma TakingStart(q: seq<Free>, maxAge: int, slots: seq<Handle>, i: nat, end: nat)
    requires end <= |slots|
    ensures Taking(TakeSlots(q, maxAge, slots, i, end), [], true, q, maxAge, slots, i, end)
  {
    var r := TakeSlots(q, maxAge, slots, i, end);
    assert [] + r.cleaned == r.cleaned;
  }

  lemma TakingEnd(goal: Bulk, cleaned: seq<Handle>, available: bool, q: seq<Free>, maxAge: int,
                  slots: seq<Handle>, i: nat, end: nat)
    requires Taking(goal, cleaned, available, q, maxAge, slots, i, end) && (i >= end || q == [])
    ensures goal == Bulk(q, slots, cleaned, available && i >= end)
  {
    assert cleaned + [] == cleaned;
  }

  class CurlSocketStore {
    var mFreeQ: seq<Free>
    var mCurlStoreUserCount: nat
    var timestamp: int

    ghost function View(): Sock
      reads this
    {
      Sock(mFreeQ, mCurlStoreUserCount, timestamp)
    }

    /** CreateCurlStore, but for the insertion into the table. */
    constructor (now: int)
      ensures View() == Sock([], 1, now)
    {
      mFreeQ, mCurlStoreUserCount, timestamp := [], 1, now;
    }

    /** GetCurlHandleFromFreeQ; `cleaned` are the handles passed to curl_easy_cleanup. */
    method GetCurlHandleFromFreeQ(instId: int) returns (curlhdl: Handle, cleaned: seq<Handle>)
      modifies this`mFreeQ
      ensures Lookup(curlhdl, mFreeQ, cleaned) == GetFromFreeQ(old(mFreeQ), timestamp - MAX_AGE_TIME, instId)
    {
      curlhdl, cleaned := NULL, [];
      var maxAge := timestamp - MAX_AGE_TIME;
      ghost var goal := GetFromFreeQ(mFreeQ, maxAge, instId);
      var i := instId;
      while i < instId + 1 && mFreeQ != []
        invariant i == instId || i == instId + 1
        invariant i == instId ==> curlhdl == NULL && goal == Behind(cleaned, GetFromFreeQ(mFreeQ, maxAge, instId))
        invariant i == instId + 1 ==> goal == Lookup(curlhdl, mFreeQ, cleaned)
        decreases instId + 1 - i, |mFreeQ|
      {
        var front := mFreeQ[0];
        if maxAge > front.ts {
          mFreeQ := mFreeQ[1..];
          cleaned := cleaned + [front.curl];
          continue;
        }
        if front.curlId == i {
          mFreeQ := mFreeQ[1..];
          curlhdl := front.curl;
          i := i + 1;
          break;
        }
        curlhdl := TakeYoung(maxAge, i);
        i := i + 1;
      }
    }

    /** The loop of GetFromCurlStoreBulk. */
    method TakeIntoSlots(slots: array<Handle>, first: nat, end: nat) returns (cleaned: seq<Handle>, available: bool)
      requires end <= slots.Length
      modifies this`mFreeQ, slots
      ensures Bulk(mFreeQ, slots[..], cleaned, available)
           == TakeSlots(old(mFreeQ), timestamp - MAX_AGE_TIME, old(slots[..]), first, end)
    {
      ghost var goal := TakeSlots(mFreeQ, timestamp - MAX_AGE_TIME, slots[..], first, end);
      TakingStart(mFreeQ, timestamp - MAX_AGE_TIME, slots[..], first, end);
      cleaned, available := TakeFor(goal, slots, first, end);
    }

    method TakeFor(ghost goal: Bulk, slots: array<Handle>, first: nat, end: nat)
      returns (cleaned: seq<Handle>, available: bool)
      requires Taking(goal, [], true, mFreeQ, timestamp - MAX_AGE_TIME, slots[..], first, end)
      modifies this`mFreeQ, slots
      ensures Bulk(mFreeQ, slots[..], cleaned, available) == goal
    {
      cleaned, available := [], true;
      var loop := first;
      while loop < end
        invariant Taking(goal, cleaned, available, mFreeQ, timestamp - MAX_AGE_TIME, slots[..], loop, end)
        decreases end - loop
      {
        if mFreeQ == [] {
          break;
        }
        cleaned, available := TakeRound(slots, loop, end, cleaned, available, goal);
        loop := loop + 1;
      }
      TakingEnd(goal, cleaned, available, mFreeQ, timestamp - MAX_AGE_TIME, slots[..], loop, end);
      if loop < end {
        available := false;
      }
    }

    /** One round: what is still to be taken shrinks by what was taken. */
    method TakeRound(slots: array<Handle>, loop: nat, ghost end: nat, cleaned: seq<Handle>, available: bool,
                     ghost goal: Bulk)
      returns (cleaned': seq<Handle>, available': bool)
      requires loop < end <= slots.Length && mFreeQ != []
      requires Taking(goal, cleaned, available, mFreeQ, timestamp - MAX_AGE_TIME, slots[..], loop, end)
      modifies this`mFreeQ, slots
      ensures Taking(goal, cleaned', available', mFreeQ, timestamp - MAX_AGE_TIME, slots[..], loop + 1, end)
    {
      ghost var q, before := mFreeQ, slots[..];
      var curl, gone := GetCurlHandleFromFreeQ(loop);
      slots[loop] := curl;
      assert slots[..] == before[loop := curl];
      TakeOne(cleaned, available, q, timestamp - MAX_AGE_TIME, before, loop, end);
      cleaned' := cleaned + gone;
      available' := available && curl != NULL;
    }

    /** The loop of KeepInCurlStoreBulk. */
    method PutFromSlots(slots: array<Handle>, first: nat, end: nat)
      requires end <= slots.Length
      modifies this`mFreeQ, slots
      ensures (mFreeQ, slots[..]) == PutSlots(old(mFreeQ), old(slots[..]), first, end, timestamp)
    {
      ghost var goal := PutSlots(mFreeQ, slots[..], first, end, timestamp);
      var loop := first;
      while loop < end
        invariant goal == PutSlots(mFreeQ, slots[..], loop, end, timestamp)
        decreases end - loop
      {
        ghost var before := slots[..];
        mFreeQ := mFreeQ + [Free(slots[loop], loop, timestamp)];
        slots[loop] := NULL;
        assert slots[..] == before[loop := NULL];
        loop := loop + 1;
      }
    }

    /** The scan behind the front. */
    method TakeYoung(maxAge: int, i: int) returns (curlhdl: Handle)
      requires mFreeQ != []
      modifies this`mFreeQ
      ensures var q := old(mFreeQ); var k := FirstYoung(q, maxAge, i, 1);
              if k < |q| then curlhdl == q[k].curl && mFreeQ == q[..k] + q[k + 1..]
              else curlhdl == NULL && mFreeQ == q
    {
      curlhdl := NULL;
      var it := 1;
      while it != |mFreeQ|
        invariant 1 <= it <= |mFreeQ| && mFreeQ == old(mFreeQ)
        invariant FirstYoung(mFreeQ, maxAge, i, 1) == FirstYoung(mFreeQ, maxAge, i, it)
      {
        if maxAge < mFreeQ[it].ts && mFreeQ[it].curlId == i {
          curlhdl := mFreeQ[it].curl;
          mFreeQ := mFreeQ[..it] + mFreeQ[it + 1..];
          return;
        }
        it := it + 1;
      }
    }
  }

  /** One round of the loop of GetFromCurlStoreBulk. */
  lemma TakeOne(cleaned: seq<Handle>, available: bool, q: seq<Free>, maxAge: int, slots: seq<Handle>, i: nat, end: nat)
    requires i < end <= |slots| && q != []
    ensures var g := GetFromFreeQ(q, maxAge, i);
            BehindBulk(cleaned, available, TakeSlots(q, maxAge, slots, i, end))
            == BehindBulk(cleaned + g.cleaned, available && g.handle != NULL,
                          TakeSlots(g.rest, maxAge, slots[i := g.handle], i + 1, end))
  {
    var g := GetFromFreeQ(q, maxAge, i);
    var r := TakeSlots(g.rest, maxAge, slots[i := g.handle], i + 1, end);
    assert cleaned + (g.cleaned + r.cleaned) == cleaned + g.cleaned + r.cleaned;
  }

  /** The table after a scan that runs when its size is at least n, and the handles that cleans up. */
  function Evicted(store: map<Host, Sock>, n: nat, v: Option<Host>): map<Host, Sock> {
    if |store| >= n && v.Some? then store - {v.value} else store
  }

  function EvictedHandles(store: map<Host, Sock>, n: nat, v: Option<Host>): seq<Handle> {
    if |store| >= n && v.Some? && v.value in store then Handles(store[v.value].freeQ) else []
  }

  /** The bulk loop would find a handle for every slot. */
  predicate FillsAll(k: Sock, slots: seq<Handle>, first: nat, end: nat, now: int)
    requires end <= |slots|
  {
    TakeSlots(k.freeQ, now - MAX_AGE_TIME, slots, first, end).available
  }

  /** The handle a host's queue has for an id, or NULL. */
  function Pooled(k: Sock, id: nat, now: int): Handle {
    GetFromFreeQ(k.freeQ, now - MAX_AGE_TIME, id).handle
  }

  class CurlStore {
    var umCurlSockDataStore: map<Host, CurlSocketStore>
    const MaxCurlSockStore: nat

    /** Hosts have records of their own. */
    ghost predicate Valid()
      reads this
    {
      forall g, h :: g in umCurlSockDataStore && h in umCurlSockDataStore && g != h ==>
        umCurlSockDataStore[g] != umCurlSockDataStore[h]
    }

    ghost function Store(): map<Host, Sock>
      reads this, umCurlSockDataStore.Values
    {
      map h | h in umCurlSockDataStore :: umCurlSockDataStore[h].View()
    }

    constructor (maxSockStoreSize: nat)
      ensures Valid() && Store() == map[] && MaxCurlSockStore == maxSockStoreSize
    {
      umCurlSockDataStore := map[];
      MaxCurlSockStore := maxSockStoreSize;
    }

    /** The scan of RemoveCurlSock: the table is visited in any order, and an idle host replaces the
        candidate when it was used strictly earlier. */
    method FindVictim(now: int) returns (v: Option<Host>)
      requires forall h :: h in umCurlSockDataStore ==> umCurlSockDataStore[h].timestamp <= now
      ensures IsVictim(Store(), v)
    {
      v := None;
      var time := now + 1;
      var todo := umCurlSockDataStore.Keys;
      while todo != {}
        invariant todo <= umCurlSockDataStore.Keys
        invariant match v
          case None => time == now + 1 && forall h :: h in umCurlSockDataStore && h !in todo ==> Store()[h].users > 0
          case Some(g) =>
            && g in umCurlSockDataStore && Store()[g].users == 0 && time == Store()[g].timestamp
            && forall h :: h in umCurlSockDataStore && h !in todo && Store()[h].users == 0 ==> time <= Store()[h].timestamp
        decreases todo
      {
        var h :| h in todo;
        var sock := umCurlSockDataStore[h];
        if sock.mCurlStoreUserCount == 0 && time > sock.timestamp {
          time := sock.timestamp;
          v := Some(h);
        }
        todo := todo - {h};
      }
    }

    /** RemoveCurlSock: the victim and the handles cleaned up with it. */
    method RemoveCurlSock(now: int) returns (v: Option<Host>, cleaned: seq<Handle>)
      requires Valid() && forall h :: h in umCurlSockDataStore ==> umCurlSockDataStore[h].timestamp <= now
      modifies this
      ensures Valid() && IsVictim(old(Store()), v)
      ensures umCurlSockDataStore == if v.Some? then old(umCurlSockDataStore) - {v.value} else old(umCurlSockDataStore)
      ensures v.None? ==> cleaned == [] && Store() == old(Store())
      ensures v.Some? ==> cleaned == Handles(old(Store())[v.value].freeQ) && Store() == old(Store()) - {v.value}
    {
      v := FindVictim(now);
      cleaned := [];
      if v.Some? {
        cleaned := Handles(umCurlSockDataStore[v.value].mFreeQ);
        umCurlSockDataStore := umCurlSockDataStore - {v.value};
      }
    }

    lemma SameSize()
      ensures |umCurlSockDataStore| == |Store()| && umCurlSockDataStore.Keys == Store().Keys
    {
      assert umCurlSockDataStore.Keys == Store().Keys;
      assert |umCurlSockDataStore| == |umCurlSockDataStore.Keys| && |Store()| == |Store().Keys|;
    }

    /** The size checks around RemoveCurlSock: evict when the size is at least n. */
    method EvictIfFull(n: nat, now: int) returns (v: Option<Host>, cleaned: seq<Handle>)
      requires Valid() && forall h :: h in umCurlSockDataStore ==> umCurlSockDataStore[h].timestamp <= now
      modifies this
      ensures Valid() && (|old(Store())| >= n ==> IsVictim(old(Store()), v)) && (v.Some? ==> v.value in old(Store()))
      ensures umCurlSockDataStore.Keys <= old(umCurlSockDataStore.Keys)
      ensures umCurlSockDataStore.Values <= old(umCurlSockDataStore.Values)
      ensures Store() == Evicted(old(Store()), n, v) && cleaned == EvictedHandles(old(Store()), n, v)
    {
      v, cleaned := None, [];
      SameSize();
      if |umCurlSockDataStore| >= n {
        v, cleaned := RemoveCurlSock(now);
      }
    }

    /** umCurlSockDataStore[hostname]=CurlSock. */
    method AddSock(hostname: Host, curlSock: CurlSocketStore)
      requires Valid() && hostname !in umCurlSockDataStore && curlSock !in umCurlSockDataStore.Values
      modifies this
      ensures Valid() && Store() == old(Store())[hostname := curlSock.View()]
    {
      umCurlSockDataStore := umCurlSockDataStore[hostname := curlSock];
    }

    /** CreateCurlStore. */
    method CreateCurlStore(hostname: Host, now: int) returns (v: Option<Host>, cleaned: seq<Handle>)
      requires Valid() && hostname !in umCurlSockDataStore
      requires forall h :: h in umCurlSockDataStore ==> umCurlSockDataStore[h].timestamp <= now
      modifies this
      ensures Valid() && (|old(Store())| >= MaxCurlSockStore ==> IsVictim(old(Store()), v))
      ensures v.Some? ==> v.value in old(Store())
      ensures Store() == Evicted(old(Store()), MaxCurlSockStore, v)[hostname := Sock([], 1, now)]
      ensures cleaned == EvictedHandles(old(Store()), MaxCurlSockStore, v)
    {
      v, cleaned := EvictIfFull(MaxCurlSockStore, now);
      AddHost(hostname, now);
    }

    method AddHost(hostname: Host, now: int)
      requires Valid() && hostname !in umCurlSockDataStore
      modifies this
      ensures Valid() && Store() == old(Store())[hostname := Sock([], 1, now)]
    {
      var curlSock := new CurlSocketStore(now);
      AddSock(hostname, curlSock);
    }

    /** No record is newer than the clock. */
    ghost predicate Past(now: int)
      reads this, umCurlSockDataStore.Values
    {
      forall h :: h in umCurlSockDataStore ==> umCurlSockDataStore[h].timestamp <= now
    }

    /** A new Get on a host of the table, with the bulk loop. */
    method TakeBulk(hostname: Host, slots: array<Handle>, first: nat, end: nat, now: int)
      returns (cleaned: seq<Handle>, available: bool)
      requires Valid() && Past(now) && hostname in umCurlSockDataStore && end <= slots.Length
      modifies umCurlSockDataStore.Values, slots
      ensures Past(now)
      ensures var k := Used(old(Store())[hostname], now);
              var r := TakeSlots(k.freeQ, MaxAge(k), old(slots[..]), first, end);
              && Store() == old(Store())[hostname := k.(freeQ := r.freeQ)]
              && slots[..] == r.slots && cleaned == r.cleaned && available == r.available
    {
      var curlSock := umCurlSockDataStore[hostname];
      curlSock.mCurlStoreUserCount := More(curlSock.mCurlStoreUserCount);
      curlSock.timestamp := now;
      cleaned, available := curlSock.TakeIntoSlots(slots, first, end);
    }

    /** The last lines of the bulk operations: shrink a table that is too large. */
    method Shrink(now: int, cleaned: seq<Handle>, ghost s: State, ghost before: multiset<Handle>)
      returns (v: Option<Host>, all: seq<Handle>)
      requires Valid() && Past(now) && s.store == Store() && s.destroyed == before + Bag(cleaned)
      modifies this
      ensures Valid() && (v.Some? ==> v.value in s.store)
      ensures |s.store| >= MaxCurlSockStore + 1 ==> IsVictim(s.store, v)
      ensures var t := EvictAt(s, MaxCurlSockStore + 1, v);
              Store() == t.store && t.destroyed == before + Bag(all)
      ensures umCurlSockDataStore.Keys <= old(umCurlSockDataStore.Keys)
    {
      var gone;
      v, gone := EvictIfFull(MaxCurlSockStore + 1, now);
      BagConcat(cleaned, gone);
      all := cleaned + gone;
    }

    /** GetFromCurlStoreBulk. s and c name a state whose store this is and the client whose array it is. */
    method GetFromCurlStoreBulk(hostname: Host, slots: array<Handle>, first: nat, end: nat, now: int,
                                ghost s: State, ghost c: nat)
      returns (ret: AampCurlStoreErrorCode, v: Option<Host>, cleaned: seq<Handle>)
      requires Valid() && Past(now) && end <= slots.Length
      requires s.store == Store() && c in s.slots && s.slots[c] == slots[..]
      modifies this, umCurlSockDataStore.Values, slots
      ensures Valid() && (v.Some? ==> v.value in s.store)
      ensures var t := GetBulkStep(s, MaxCurlSockStore, hostname, c, first, end, now, v);
              Store() == t.store && slots[..] == t.slots[c] && t.destroyed == s.destroyed + Bag(cleaned)
      ensures Scans(s, MaxCurlSockStore, GetBulk(hostname, c, first, end)) ==>
                VictimOk(s, GetBulk(hostname, c, first, end), now, v)
      ensures ret.HOST_NOT_AVAILABLE? <==> hostname !in s.store
      ensures ret.HOST_SOCK_AVAILABLE? <==>
                hostname in s.store && FillsAll(s.store[hostname], s.slots[c], first, end, now)
      ensures hostname in s.store && AllNull(s.slots[c], first, end) ==>
                (ret.HOST_SOCK_AVAILABLE? <==> forall j :: first <= j < end ==> slots[j] != NULL)
    {
      if hostname in umCurlSockDataStore {
        ret, v, cleaned := GetBulkExisting(hostname, slots, first, end, now, s, c);
      } else {
        ret := HOST_NOT_AVAILABLE;
        v, cleaned := CreateCurlStore(hostname, now);
        assert Bag([]) == multiset{};
      }
    }

    method GetBulkExisting(hostname: Host, slots: array<Handle>, first: nat, end: nat, now: int,
                           ghost s: State, ghost c: nat)
      returns (ret: AampCurlStoreErrorCode, v: Option<Host>, cleaned: seq<Handle>)
      requires Valid() && Past(now) && end <= slots.Length && hostname in umCurlSockDataStore
      requires s.store == Store() && c in s.slots && s.slots[c] == slots[..]
      modifies this, umCurlSockDataStore.Values, slots
      ensures Valid() && (v.Some? ==> v.value in s.store)
      ensures var t := GetBulkStep(s, MaxCurlSockStore, hostname, c, first, end, now, v);
              Store() == t.store && slots[..] == t.slots[c] && t.destroyed == s.destroyed + Bag(cleaned)
      ensures Scans(s, MaxCurlSockStore, GetBulk(hostname, c, first, end)) ==>
                VictimOk(s, GetBulk(hostname, c, first, end), now, v)
      ensures !ret.HOST_NOT_AVAILABLE?
      ensures ret.HOST_SOCK_AVAILABLE? <==> FillsAll(s.store[hostname], s.slots[c], first, end, now)
      ensures AllNull(s.slots[c], first, end) ==>
                (ret.HOST_SOCK_AVAILABLE? <==> forall j :: first <= j < end ==> slots[j] != NULL)
    {
      ret, cleaned := FillFromHost(hostname, slots, first, end, now, s, c);
      ghost var t := s.(store := Store(), slots := s.slots[c := slots[..]], destroyed := s.destroyed + Bag(cleaned));
      v, cleaned := Shrink(now, cleaned, t, s.destroyed);
      ScannedAfterTake(s, hostname, t.store[hostname], c, first, end, now, v, MaxCurlSockStore);
    }

    /** GetFromCurlStoreBulk up to its size check, on a host of the table. */
    method FillFromHost(hostname: Host, slots: array<Handle>, first: nat, end: nat, now: int,
                        ghost s: State, ghost c: nat)
      returns (ret: AampCurlStoreErrorCode, cleaned: seq<Handle>)
      requires Valid() && Past(now) && end <= slots.Length && hostname in umCurlSockDataStore
      requires s.store == Store() && c in s.slots && s.slots[c] == slots[..]
      modifies umCurlSockDataStore.Values, slots
      ensures Past(now)
      ensures var k := Used(s.store[hostname], now);
              var r := TakeSlots(k.freeQ, MaxAge(k), s.slots[c], first, end);
              && Store() == s.store[hostname := k.(freeQ := r.freeQ)] && slots[..] == r.slots && cleaned == r.cleaned
      ensures !ret.HOST_NOT_AVAILABLE?
      ensures ret.HOST_SOCK_AVAILABLE? <==> FillsAll(s.store[hostname], s.slots[c], first, end, now)
      ensures AllNull(s.slots[c], first, end) ==>
                (ret.HOST_SOCK_AVAILABLE? <==> forall j :: first <= j < end ==> slots[j] != NULL)
    {
      var available;
      cleaned, available := TakeBulk(hostname, slots, first, end, now);
      FilledSlots(s.store[hostname].freeQ, now - MAX_AGE_TIME, s.slots[c], first, end, slots[..], available);
      ret := if available then HOST_SOCK_AVAILABLE else SOCK_NOT_AVAILABLE;
    }

    /** KeepInCurlStoreBulk. */
    method KeepInCurlStoreBulk(hostname: Host, slots: array<Handle>, first: nat, end: nat, now: int,
                               ghost s: State, ghost c: nat)
      returns (v: Option<Host>, cleaned: seq<Handle>)
      requires Valid() && Past(now) && end <= slots.Length
      requires s.store == Store() && c in s.slots && s.slots[c] == slots[..]
      modifies this, umCurlSockDataStore.Values, slots
      ensures Valid() && (v.Some? ==> v.value in s.store)
      ensures var t := KeepBulkStep(s, MaxCurlSockStore, hostname, c, first, end, now, v);
              Store() == t.store && slots[..] == t.slots[c] && t.destroyed == s.destroyed + Bag(cleaned)
      ensures hostname in s.store && Scans(s, MaxCurlSockStore, KeepBulk(hostname, c, first, end)) ==>
                VictimOk(s, KeepBulk(hostname, c, first, end), now, v)
      ensures hostname !in s.store ==> Store() == s.store && slots[..] == s.slots[c] && v == None && cleaned == []
    {
      v, cleaned := None, [];
      if hostname in umCurlSockDataStore {
        v, cleaned := KeepBulkExisting(hostname, slots, first, end, now, s, c);
      } else {
        assert Bag([]) == multiset{};
      }
    }

    method KeepBulkExisting(hostname: Host, slots: array<Handle>, first: nat, end: nat, now: int,
                               ghost s: State, ghost c: nat)
      returns (v: Option<Host>, cleaned: seq<Handle>)
      requires Valid() && Past(now) && end <= slots.Length
      requires s.store == Store() && c in s.slots && s.slots[c] == slots[..]
      requires hostname in s.store
      modifies this, umCurlSockDataStore.Values, slots
      ensures Valid() && (v.Some? ==> v.value in s.store)
      ensures var t := KeepBulkStep(s, MaxCurlSockStore, hostname, c, first, end, now, v);
              Store() == t.store && slots[..] == t.slots[c] && t.destroyed == s.destroyed + Bag(cleaned)
      ensures Scans(s, MaxCurlSockStore, KeepBulk(hostname, c, first, end)) ==>
                VictimOk(s, KeepBulk(hostname, c, first, end), now, v)
    {
      PutBulk(hostname, slots, first, end, now);
      ghost var t := s.(store := Store(), slots := s.slots[c := slots[..]]);
      assert Bag([]) == multiset{};
      v, cleaned := Shrink(now, [], t, s.destroyed);
      ScannedAfterPut(s, hostname, t.store[hostname], c, first, end, now, v, MaxCurlSockStore);
    }

    method PutBulk(hostname: Host, slots: array<Handle>, first: nat, end: nat, now: int)
      requires Valid() && Past(now) && hostname in umCurlSockDataStore && end <= slots.Length
      modifies umCurlSockDataStore.Values, slots
      ensures Past(now)
      ensures var k := Unused(old(Store())[hostname], now);
              var r := PutSlots(k.freeQ, old(slots[..]), first, end, now);
              Store() == old(Store())[hostname := k.(freeQ := r.0)] && slots[..] == r.1
    {
      var curlSock := umCurlSockDataStore[hostname];
      curlSock.timestamp := now;
      curlSock.mCurlStoreUserCount := Less(curlSock.mCurlStoreUserCount);
      curlSock.PutFromSlots(slots, first, end);
    }

    /** The end of CurlInit: make the handles the store could not give; curl_easy_init numbers them. */
    method InitSlots(slots: array<Handle>, startIdx: nat, instanceEnd: nat, made: nat) returns (made': nat)
      requires instanceEnd <= slots.Length
      modifies slots
      ensures (slots[..], made') == FillSlots(old(slots[..]), made, startIdx, instanceEnd)
    {
      made' := made;
      ghost var goal := FillSlots(slots[..], made, startIdx, instanceEnd);
      var i := startIdx;
      while i < instanceEnd
        invariant goal == FillSlots(slots[..], made', i, instanceEnd)
        decreases instanceEnd - i
      {
        if slots[i] == NULL {
          ghost var before := slots[..];
          made' := made' + 1;
          slots[i] := made';
          assert slots[..] == before[i := made'];
        }
        i := i + 1;
      }
    }

    /** GetFromCurlStore; curlNew is the handle curl_easy_init returns if it is called. */
    method GetFromCurlStore(hostname: Host, id: nat, now: int, curlNew: Handle, ghost s: State)
      returns (ret: AampCurlStoreErrorCode, curl: Handle, v: Option<Host>, cleaned: seq<Handle>)
      requires Valid() && Past(now) && s.store == Store() && curlNew == s.made + 1
      modifies this, umCurlSockDataStore.Values
      ensures Valid() && (v.Some? ==> v.value in s.store)
      ensures var t := GetSingleStep(s, MaxCurlSockStore, hostname, id, now, v);
              Store() == t.store && t.held == s.held + multiset{curl} && t.destroyed == s.destroyed + Bag(cleaned)
      ensures Scans(s, MaxCurlSockStore, GetSingle(hostname, id)) ==> VictimOk(s, GetSingle(hostname, id), now, v)
      ensures ret.HOST_NOT_AVAILABLE? <==> hostname !in s.store
      ensures ret.HOST_SOCK_AVAILABLE? <==> hostname in s.store && Pooled(s.store[hostname], id, now) != NULL
      ensures curl == if ret.HOST_SOCK_AVAILABLE? then Pooled(s.store[hostname], id, now) else curlNew
    {
      if hostname in umCurlSockDataStore {
        v := None;
        ret, curl, cleaned := GetSingleExisting(hostname, id, now, curlNew, s);
      } else {
        ret, curl := HOST_NOT_AVAILABLE, curlNew;
        v, cleaned := GetSingleNew(hostname, id, now, s);
      }
    }

    method GetSingleNew(hostname: Host, id: nat, now: int, ghost s: State)
      returns (v: Option<Host>, cleaned: seq<Handle>)
      requires Valid() && Past(now) && s.store == Store() && hostname !in umCurlSockDataStore
      modifies this
      ensures Valid() && (v.Some? ==> v.value in s.store)
      ensures var t := GetSingleStep(s, MaxCurlSockStore, hostname, id, now, v);
              Store() == t.store && t.held == s.held + multiset{s.made + 1} && t.destroyed == s.destroyed + Bag(cleaned)
      ensures Scans(s, MaxCurlSockStore, GetSingle(hostname, id)) ==> VictimOk(s, GetSingle(hostname, id), now, v)
    {
      v, cleaned := CreateCurlStore(hostname, now);
      SingleStepNew(s, MaxCurlSockStore, hostname, id, now, v);
    }

    method GetSingleExisting(hostname: Host, id: nat, now: int, curlNew: Handle, ghost s: State)
      returns (ret: AampCurlStoreErrorCode, curl: Handle, cleaned: seq<Handle>)
      requires Valid() && hostname in umCurlSockDataStore && s.store == Store() && curlNew == s.made + 1
      modifies umCurlSockDataStore.Values
      ensures var t := GetSingleStep(s, MaxCurlSockStore, hostname, id, now, None);
              Store() == t.store && t.held == s.held + multiset{curl} && t.destroyed == s.destroyed + Bag(cleaned)
      ensures !ret.HOST_NOT_AVAILABLE?
      ensures ret.HOST_SOCK_AVAILABLE? <==> Pooled(s.store[hostname], id, now) != NULL
      ensures curl == if ret.HOST_SOCK_AVAILABLE? then Pooled(s.store[hostname], id, now) else curlNew
    {
      ret := HOST_SOCK_AVAILABLE;
      curl, cleaned := TakeSingle(hostname, id, now);
      if curl == NULL {
        ret := SOCK_NOT_AVAILABLE;
        curl := curlNew;
      }
    }

    method TakeSingle(hostname: Host, id: nat, now: int) returns (curl: Handle, cleaned: seq<Handle>)
      requires Valid() && hostname in umCurlSockDataStore
      modifies umCurlSockDataStore.Values
      ensures var k := Used(old(Store())[hostname], now);
              var r := GetFromFreeQ(k.freeQ, MaxAge(k), id);
              Store() == old(Store())[hostname := k.(freeQ := r.rest)] && curl == r.handle && cleaned == r.cleaned
    {
      var curlSock := umCurlSockDataStore[hostname];
      curlSock.mCurlStoreUserCount := More(curlSock.mCurlStoreUserCount);
      curlSock.timestamp := now;
      curl, cleaned := curlSock.GetCurlHandleFromFreeQ(id);
    }

    /** KeepInCurlStore. */
    method KeepInCurlStore(hostname: Host, id: nat, curl: Handle, now: int, ghost s: State)
      requires Valid() && s.store == Store()
      modifies umCurlSockDataStore.Values
      ensures Store() == KeepSingleStep(s, hostname, id, curl, now).store
    {
      if hostname !in umCurlSockDataStore {
        return;
      }
      var curlSock := umCurlSockDataStore[hostname];
      curlSock.timestamp := now;
      curlSock.mCurlStoreUserCount := Less(curlSock.mCurlStoreUserCount);
      curlSock.mFreeQ := curlSock.mFreeQ + [Free(curl, id, now)];
    }
  }

  lemma FilledSlots(q: seq<Free>, maxAge: int, before: seq<Handle>, first: nat, end: nat, slots: seq<Handle>,
                    available: bool)
    requires end <= |before|
    requires var r := TakeSlots(q, maxAge, before, first, end); slots == r.slots && available == r.available
    ensures AllNull(before, first, end) ==> (available <==> forall j :: first <= j < end ==> slots[j] != NULL)
  {
    if AllNull(before, first, end) {
      AvailableMeansFilled(q, maxAge, before, first, end);
    }
  }

  lemma SingleStepNew(s: State, max: nat, host: Host, id: nat, now: int, v: Option<Host>)
    requires host !in s.store && (v.Some? ==> v.value in s.store)
    ensures var t := GetSingleStep(s, max, host, id, now, v);
            && t.store == Evicted(s.store, max, v)[host := Sock([], 1, now)]
            && t.held == s.held + multiset{s.made + 1}
            && t.destroyed == s.destroyed + Bag(EvictedHandles(s.store, max, v))
  {
    assert Bag([]) == multiset{};
  }

  /** The scan after the bulk loop judges hosts as the model's scan does. */
  lemma ScannedAfterTake(s: State, host: Host, k: Sock, c: nat, i: nat, end: nat, now: int, v: Option<Host>, max: nat)
    requires host in s.store && k.users == More(s.store[host].users) && k.timestamp == now
    requires |s.store[host := k]| >= max + 1 ==> IsVictim(s.store[host := k], v)
    ensures Scans(s, max, GetBulk(host, c, i, end)) ==> VictimOk(s, GetBulk(host, c, i, end), now, v)
  {
    assert s.store[host := k].Keys == s.store.Keys;
    assert |s.store[host := k]| == |s.store[host := k].Keys| && |s.store| == |s.store.Keys|;
    if |s.store| >= max + 1 {
      VictimSame(s.store, host, k, Used(s.store[host], now), v);
    }
  }

  lemma ScannedAfterPut(s: State, host: Host, k: Sock, c: nat, i: nat, end: nat, now: int, v: Option<Host>, max: nat)
    requires host in s.store && k.users == Less(s.store[host].users) && k.timestamp == now
    requires |s.store[host := k]| >= max + 1 ==> IsVictim(s.store[host := k], v)
    ensures Scans(s, max, KeepBulk(host, c, i, end)) ==> VictimOk(s, KeepBulk(host, c, i, end), now, v)
  {
    assert s.store[host := k].Keys == s.store.Keys;
    assert |s.store[host := k]| == |s.store[host := k].Keys| && |s.store| == |s.store.Keys|;
    if |s.store| >= max + 1 {
      VictimSame(s.store, host, k, Unused(s.store[host], now), v);
    }
  }
}
