/** No run of CurlStore's operations loses, duplicates or cleans up twice a curl handle. */
module CurlConservation {
  import opened Common
  import opened CurlPool
  import opened CurlStoreModel

  /** All handles in the sequences of a map. */
  ghost function BagSum<K>(m: map<K, seq<Handle>>): multiset<Handle> {
    if m == map[] then multiset{}
    else
      var k :| k in m;
      Bag(m[k]) + BagSum(m - {k})
  }

  lemma {:induction false} BagSumWithout<K>(m: map<K, seq<Handle>>, k: K)
    requires k in m
    ensures BagSum(m) == Bag(m[k]) + BagSum(m - {k})
    decreases |m|
  {
    var x :| x in m && BagSum(m) == Bag(m[x]) + BagSum(m - {x});
    if x != k {
      WithoutSize(m, x);
      WithoutSize(m, k);
      assert m - {x} - {k} == m - {k} - {x};
      BagSumWithout(m - {x}, k);
      BagSumWithout(m - {k}, x);
      SwapBags(Bag(m[x]), Bag(m[k]), BagSum(m - {x} - {k}), BagSum(m - {x}), BagSum(m - {k}));
    }
  }

  lemma SwapBags(x: multiset<Handle>, k: multiset<Handle>, rest: multiset<Handle>, noX: multiset<Handle>,
                 noK: multiset<Handle>)
    requires noX == k + rest && noK == x + rest
    ensures x + noX == k + noK
  {
  }

  /** Replacing one sequence. */
  lemma BagSumReplace<K>(m: map<K, seq<Handle>>, k: K, hs: seq<Handle>)
    ensures BagSum(m[k := hs]) + (if k in m then Bag(m[k]) else multiset{}) == BagSum(m) + Bag(hs)
  {
    BagSumWithout(m[k := hs], k);
    assert m[k := hs] - {k} == m - {k};
    if k in m {
      BagSumWithout(m, k);
    } else {
      assert m - {k} == m;
    }
  }

  function Queues(store: map<Host, Sock>): map<Host, seq<Handle>> {
    map h | h in store :: Handles(store[h].freeQ)
  }

  /** Every place a handle can be. */
  ghost function Total(s: State): multiset<Handle> {
    BagSum(Queues(s.store)) + BagSum(s.slots) + s.held + s.destroyed
  }

  /** One of each of the handles made so far. */
  function Made(n: nat): multiset<Handle> {
    if n == 0 then multiset{} else Made(n - 1) + multiset{n}
  }

  /** Each handle made is in exactly one free queue, client slot or client's hands, or was cleaned up once. */
  ghost predicate Conserved(s: State) {
    Total(s) == Made(s.made) && s.held[NULL] == 0
  }

  lemma {:induction false} MadeCount(n: nat, h: Handle)
    ensures Made(n)[h] == if 1 <= h <= n then 1 else 0
  {
    if n > 0 {
      MadeCount(n - 1, h);
    }
  }

  lemma QueuesReplace(store: map<Host, Sock>, host: Host, k: Sock)
    ensures BagSum(Queues(store[host := k])) + (if host in store then Bag(Handles(store[host].freeQ)) else multiset{})
         == BagSum(Queues(store)) + Bag(Handles(k.freeQ))
  {
    assert Queues(store[host := k]) == Queues(store)[host := Handles(k.freeQ)];
    BagSumReplace(Queues(store), host, Handles(k.freeQ));
  }

  lemma EvictConserves(s: State, n: nat, v: Option<Host>)
    requires v.Some? ==> v.value in s.store
    ensures Total(EvictAt(s, n, v)) == Total(s)
  {
    if v.Some? {
      BagSumWithout(Queues(s.store), v.value);
      QueuesWithout(s.store, v.value);
    }
  }

  lemma QueuesWithout(store: map<Host, Sock>, host: Host)
    ensures Queues(store - {host}) == Queues(store) - {host}
  {
  }

  lemma BagUpdate(hs: seq<Handle>, i: nat, h: Handle)
    requires i < |hs|
    ensures Bag(hs[i := h]) + Bag([hs[i]]) == Bag(hs) + Bag([h])
  {
    assert hs == hs[..i] + ([hs[i]] + hs[i + 1..]);
    assert hs[i := h] == hs[..i] + ([h] + hs[i + 1..]);
    BagConcat(hs[..i], [hs[i]] + hs[i + 1..]);
    BagConcat(hs[..i], [h] + hs[i + 1..]);
    BagConcat([hs[i]], hs[i + 1..]);
    BagConcat([h], hs[i + 1..]);
  }

  lemma BagNull()
    ensures Bag([NULL]) == multiset{}
  {
  }

  /** The handles left, taken and cleaned up by the loop over the slots from i on; and those there before. */
  ghost function TakenBag(q: seq<Free>, maxAge: int, slots: seq<Handle>, i: nat, end: nat): multiset<Handle>
    requires end <= |slots|
  {
    var r := TakeSlots(q, maxAge, slots, i, end);
    Bag(Handles(r.freeQ)) + Bag(r.slots) + Bag(r.cleaned)
  }

  function BothBags(q: seq<Free>, slots: seq<Handle>): multiset<Handle> {
    Bag(Handles(q)) + Bag(slots)
  }

  lemma TakeOneBalanced(q: seq<Free>, maxAge: int, slots: seq<Handle>, i: nat, end: nat)
    requires i < end <= |slots| && q != [] && slots[i] == NULL
    requires var g := GetFromFreeQ(q, maxAge, i);
             TakenBag(g.rest, maxAge, slots[i := g.handle], i + 1, end) == BothBags(g.rest, slots[i := g.handle])
    ensures TakenBag(q, maxAge, slots, i, end) == BothBags(q, slots)
  {
    var g := GetFromFreeQ(q, maxAge, i);
    var slots' := slots[i := g.handle];
    var r := TakeSlots(g.rest, maxAge, slots', i + 1, end);
    LookupConserves(q, maxAge, i);
    SlotFilled(slots, i, g.handle);
    BagConcat(g.cleaned, r.cleaned);
    TakeRegroup(Bag(Handles(r.freeQ)), Bag(r.slots), Bag(g.cleaned), Bag(r.cleaned),
                Bag(Handles(g.rest)), Bag(slots'), Bag(Handles(q)), Bag(slots), Bag([g.handle]));
  }

  lemma TakeNone(q: seq<Free>, maxAge: int, slots: seq<Handle>, i: nat, end: nat)
    requires end <= |slots| && (i >= end || q == [])
    ensures TakenBag(q, maxAge, slots, i, end) == BothBags(q, slots)
  {
    assert Bag([]) == multiset{};
  }

  lemma NullBehind(slots: seq<Handle>, i: nat, end: nat, h: Handle)
    requires i < end <= |slots| && AllNull(slots, i, end)
    ensures slots[i] == NULL && AllNull(slots[i := h], i + 1, end)
  {
  }

  lemma {:induction false} TakeSlotsConserves(q: seq<Free>, maxAge: int, slots: seq<Handle>, i: nat, end: nat)
    requires end <= |slots| && AllNull(slots, i, end)
    ensures TakenBag(q, maxAge, slots, i, end) == BothBags(q, slots)
    decreases end - i
  {
    if i < end && q != [] {
      var g := GetFromFreeQ(q, maxAge, i);
      NullBehind(slots, i, end, g.handle);
      TakeSlotsConserves(g.rest, maxAge, slots[i := g.handle], i + 1, end);
      TakeOneBalanced(q, maxAge, slots, i, end);
    } else {
      TakeNone(q, maxAge, slots, i, end);
    }
  }

  lemma SlotFilled(slots: seq<Handle>, i: nat, h: Handle)
    requires i < |slots| && slots[i] == NULL
    ensures Bag(slots[i := h]) == Bag(slots) + Bag([h])
  {
    BagUpdate(slots, i, h);
    BagNull();
  }

  lemma TakeRegroup(rq: multiset<Handle>, rs: multiset<Handle>, gc: multiset<Handle>, rc: multiset<Handle>,
                    gq: multiset<Handle>, s': multiset<Handle>, q: multiset<Handle>, s: multiset<Handle>, h: multiset<Handle>)
    requires rq + rs + rc == gq + s' && q == gq + gc + h && s' == s + h
    ensures rq + rs + (gc + rc) == q + s
  {
    forall x ensures (rq + rs + (gc + rc))[x] == (q + s)[x] {
      assert (rq + rs + rc)[x] == (gq + s')[x];
    }
  }

  lemma {:induction false} PutSlotsConserves(q: seq<Free>, slots: seq<Handle>, i: nat, end: nat, now: int)
    requires end <= |slots|
    ensures var r := PutSlots(q, slots, i, end, now);
            Bag(Handles(r.0)) + Bag(r.1) == Bag(Handles(q)) + Bag(slots)
    decreases end - i
  {
    if i < end {
      var f := Free(slots[i], i, now);
      PutSlotsConserves(q + [f], slots[i := NULL], i + 1, end, now);
      PushBag(q, f);
      BagUpdate(slots, i, NULL);
      BagNull();
      assert Bag(slots[i := NULL]) + Bag([slots[i]]) == Bag(slots);
    }
  }

  lemma PushBag(q: seq<Free>, f: Free)
    ensures Bag(Handles(q + [f])) == Bag(Handles(q)) + Bag([f.curl])
  {
    assert Handles(q + [f]) == Handles(q) + [f.curl];
    BagConcat(Handles(q), [f.curl]);
  }

  lemma FillSlotMakes(slots: seq<Handle>, made: nat, i: nat)
    requires i < |slots|
    ensures var r := FillSlot(slots, made, i); Bag(r.0) + Made(made) == Bag(slots) + Made(r.1)
  {
    if slots[i] == NULL {
      SlotFilled(slots, i, made + 1);
      BagOne(made + 1);
    }
  }

  lemma {:induction false} FillSlotsMakes(slots: seq<Handle>, made: nat, i: nat, end: nat)
    requires end <= |slots|
    ensures var r := FillSlots(slots, made, i, end);
            Bag(r.0) + Made(made) == Bag(slots) + Made(r.1)
    decreases end - i
  {
    if i < end {
      var (slots', made') := FillSlot(slots, made, i);
      FillSlotMakes(slots, made, i);
      FillSlotsMakes(slots', made', i + 1, end);
      var r := FillSlots(slots', made', i + 1, end);
      Chain(Bag(slots), Made(made), Bag(slots'), Made(made'), Bag(r.0), Made(r.1));
    }
  }

  lemma Chain(s: multiset<Handle>, m: multiset<Handle>, s': multiset<Handle>, m': multiset<Handle>,
              s'': multiset<Handle>, m'': multiset<Handle>)
    requires s' + m == s + m' && s'' + m' == s' + m''
    ensures s'' + m == s + m''
  {
    forall h ensures s''[h] + m[h] == s[h] + m''[h] {
      assert (s' + m)[h] == (s + m')[h] && (s'' + m')[h] == (s' + m'')[h];
    }
    assert forall h :: (s'' + m)[h] == (s + m'')[h];
  }

  lemma BagOne(h: Handle)
    requires h != NULL
    ensures Bag([h]) == multiset{h}
  {
  }

  // ---------------------------------------------------------------------------------------------
  // Steps

  /** Total after one host's record and one array were replaced. */
  lemma TotalReplace(s: State, t: State, host: Host, k: Sock, c: nat, slots: seq<Handle>)
    requires host in s.store && c in s.slots && t.store == s.store[host := k] && t.slots == s.slots[c := slots]
    requires t.held == s.held
    requires Bag(Handles(k.freeQ)) + Bag(slots) + t.destroyed
          == Bag(Handles(s.store[host].freeQ)) + Bag(s.slots[c]) + s.destroyed
    ensures Total(t) == Total(s)
  {
    QueuesReplace(s.store, host, k);
    BagSumReplace(s.slots, c, slots);
    Balance(BagSum(Queues(t.store)), Bag(Handles(s.store[host].freeQ)), BagSum(Queues(s.store)), Bag(Handles(k.freeQ)),
            BagSum(t.slots), Bag(s.slots[c]), BagSum(s.slots), Bag(slots), t.destroyed, s.destroyed, s.held);
  }

  lemma Balance(q': multiset<Handle>, qOld: multiset<Handle>, q: multiset<Handle>, qNew: multiset<Handle>,
                a': multiset<Handle>, aOld: multiset<Handle>, a: multiset<Handle>, aNew: multiset<Handle>,
                d': multiset<Handle>, d: multiset<Handle>, held: multiset<Handle>)
    requires q' + qOld == q + qNew && a' + aOld == a + aNew
    requires qNew + aNew + d' == qOld + aOld + d
    ensures q' + a' + held + d' == q + a + held + d
  {
    forall x ensures (q' + a' + held + d')[x] == (q + a + held + d)[x] {
      assert (q' + qOld)[x] == (q + qNew)[x];
      assert (a' + aOld)[x] == (a + aNew)[x];
      assert (qNew + aNew + d')[x] == (qOld + aOld + d)[x];
    }
  }

  lemma GetBulkConserves(s: State, max: nat, host: Host, c: nat, i: nat, end: nat, now: int, v: Option<Host>)
    requires c in s.slots && end <= |s.slots[c]| && AllNull(s.slots[c], i, end)
    requires v.Some? ==> v.value in s.store
    ensures Total(GetBulkStep(s, max, host, c, i, end, now, v)) == Total(s)
  {
    if host in s.store {
      var u := Used(s.store[host], now);
      var r := TakeSlots(u.freeQ, MaxAge(u), s.slots[c], i, end);
      var k := u.(freeQ := r.freeQ);
      var t := s.(store := s.store[host := k], slots := s.slots[c := r.slots], destroyed := s.destroyed + Bag(r.cleaned));
      TakeSlotsConserves(u.freeQ, MaxAge(u), s.slots[c], i, end);
      TotalReplace(s, t, host, k, c, r.slots);
      EvictConserves(t, max + 1, v);
    } else {
      MakeHostConserves(s, max, host, now, v);
    }
  }

  lemma MakeHostConserves(s: State, max: nat, host: Host, now: int, v: Option<Host>)
    requires host !in s.store && (v.Some? ==> v.value in s.store)
    ensures Total(MakeHost(EvictAt(s, max, v), host, now)) == Total(s)
  {
    EvictConserves(s, max, v);
    var e := EvictAt(s, max, v);
    QueuesReplace(e.store, host, Sock([], 1, now));
    assert Bag(Handles(Sock([], 1, now).freeQ)) == multiset{};
    AddNothing(BagSum(Queues(e.store[host := Sock([], 1, now)])), BagSum(Queues(e.store)));
  }

  lemma AddNothing(a: multiset<Handle>, b: multiset<Handle>)
    requires a + multiset{} == b + multiset{}
    ensures a == b
  {
    assert a + multiset{} == a && b + multiset{} == b;
  }

  lemma KeepBulkConserves(s: State, max: nat, host: Host, c: nat, i: nat, end: nat, now: int, v: Option<Host>)
    requires c in s.slots && end <= |s.slots[c]| && (v.Some? ==> v.value in s.store)
    ensures Total(KeepBulkStep(s, max, host, c, i, end, now, v)) == Total(s)
  {
    if host in s.store {
      var u := Unused(s.store[host], now);
      var r := PutSlots(u.freeQ, s.slots[c], i, end, now);
      var k := u.(freeQ := r.0);
      var t := s.(store := s.store[host := k], slots := s.slots[c := r.1]);
      PutSlotsConserves(u.freeQ, s.slots[c], i, end, now);
      TotalReplace(s, t, host, k, c, r.1);
      EvictConserves(t, max + 1, v);
    }
  }

  lemma KeepSingleConserves(s: State, host: Host, id: nat, curl: Handle, now: int)
    requires host in s.store && curl in s.held && s.held[NULL] == 0
    ensures Total(KeepSingleStep(s, host, id, curl, now)) == Total(s)
  {
    var t := KeepSingleStep(s, host, id, curl, now);
    var q := s.store[host].freeQ;
    QueuesReplace(s.store, host, t.store[host]);
    PushBag(q, Free(curl, id, now));
    assert Bag([curl]) == multiset{curl};
    Shift(BagSum(Queues(t.store)), Bag(Handles(q)), BagSum(Queues(s.store)), multiset{curl});
    assert s.held == t.held + multiset{curl};
  }

  lemma Shift(q': multiset<Handle>, old': multiset<Handle>, q: multiset<Handle>, x: multiset<Handle>)
    requires q' + old' == q + (old' + x)
    ensures q' == q + x
  {
    forall h ensures q'[h] == (q + x)[h] {
      assert (q' + old')[h] == (q + (old' + x))[h];
    }
  }

  /** Handles moved from queues to clients or to the cleaned ones. */
  lemma ConservedMove(s: State, t: State, cleaned: multiset<Handle>, taken: multiset<Handle>)
    requires Conserved(s) && taken[NULL] == 0 && t.slots == s.slots && t.made == s.made
    requires BagSum(Queues(t.store)) + cleaned + taken == BagSum(Queues(s.store))
    requires t.destroyed == s.destroyed + cleaned && t.held == s.held + taken
    ensures Conserved(t)
  {
    var q', q, a := BagSum(Queues(t.store)), BagSum(Queues(s.store)), BagSum(s.slots);
    assert q' + a + (s.held + taken) + (s.destroyed + cleaned) == (q' + cleaned + taken) + a + s.held + s.destroyed;
  }

  /** curl_easy_init. */
  function HandOutNew(s: State): State {
    s.(held := s.held + multiset{s.made + 1}, made := s.made + 1)
  }

  lemma ConservedNew(s: State)
    requires Conserved(s)
    ensures Conserved(HandOutNew(s))
  {
    var t, x := HandOutNew(s), multiset{s.made + 1};
    assert Total(t) == Total(s) + x;
  }

  lemma GetSingleConserves(s: State, max: nat, host: Host, id: nat, now: int, v: Option<Host>)
    requires Conserved(s) && (v.Some? ==> v.value in s.store)
    ensures Conserved(GetSingleStep(s, max, host, id, now, v))
  {
    if host in s.store {
      GetSingleExisting(s, max, host, id, now, v);
    } else {
      GetSingleNew(s, max, host, id, now, v);
    }
  }

  lemma GetSingleNew(s: State, max: nat, host: Host, id: nat, now: int, v: Option<Host>)
    requires Conserved(s) && (v.Some? ==> v.value in s.store) && host !in s.store
    ensures Conserved(GetSingleStep(s, max, host, id, now, v))
  {
    var m := MakeHost(EvictAt(s, max, v), host, now);
    MakeHostConserves(s, max, host, now, v);
    SameTotal(s, m);
    ConservedNew(m);
    SingleNew(s, max, host, id, now, v);
  }

  lemma SingleNew(s: State, max: nat, host: Host, id: nat, now: int, v: Option<Host>)
    requires host !in s.store && (v.Some? ==> v.value in s.store)
    ensures GetSingleStep(s, max, host, id, now, v) == HandOutNew(MakeHost(EvictAt(s, max, v), host, now))
  {
  }

  lemma GetSingleExisting(s: State, max: nat, host: Host, id: nat, now: int, v: Option<Host>)
    requires Conserved(s) && (v.Some? ==> v.value in s.store) && host in s.store
    ensures Conserved(GetSingleStep(s, max, host, id, now, v))
  {
    var u := Used(s.store[host], now);
    var r := GetFromFreeQ(u.freeQ, MaxAge(u), id);
    var store := s.store[host := u.(freeQ := r.rest)];
    var taken := Bag([r.handle]);
    var t := s.(store := store, destroyed := s.destroyed + Bag(r.cleaned), held := s.held + taken);
    QueuesReplace(s.store, host, u.(freeQ := r.rest));
    LookupConserves(u.freeQ, MaxAge(u), id);
    Looked(BagSum(Queues(store)), BagSum(Queues(s.store)), Bag(Handles(r.rest)), Bag(r.cleaned), taken);
    ConservedMove(s, t, Bag(r.cleaned), taken);
    ConservedNew(t);
    SingleTaken(s, max, host, id, now, v, t);
  }

  /** The handle found is handed out, or else a new one. */
  lemma SingleTaken(s: State, max: nat, host: Host, id: nat, now: int, v: Option<Host>, t: State)
    requires host in s.store && (v.Some? ==> v.value in s.store)
    requires var u := Used(s.store[host], now);
             var r := GetFromFreeQ(u.freeQ, MaxAge(u), id);
             t == s.(store := s.store[host := u.(freeQ := r.rest)], destroyed := s.destroyed + Bag(r.cleaned),
                     held := s.held + Bag([r.handle]))
    ensures GetSingleStep(s, max, host, id, now, v) == t || GetSingleStep(s, max, host, id, now, v) == HandOutNew(t)
  {
    var u := Used(s.store[host], now);
    var h := GetFromFreeQ(u.freeQ, MaxAge(u), id).handle;
    if h == NULL {
      BagNull();
      assert s.held + multiset{} == s.held;
    } else {
      assert Bag([h]) == multiset{h};
    }
  }

  lemma Looked(q': multiset<Handle>, q: multiset<Handle>, rest: multiset<Handle>, cleaned: multiset<Handle>, taken: multiset<Handle>)
    requires q' + (rest + cleaned + taken) == q + rest
    ensures q' + cleaned + taken == q
  {
    forall h ensures (q' + cleaned + taken)[h] == q[h] {
      assert (q' + (rest + cleaned + taken))[h] == (q + rest)[h];
    }
  }

  lemma InitSlotsConserves(s: State, c: nat, i: nat, end: nat)
    requires Conserved(s) && c in s.slots && end <= |s.slots[c]|
    ensures var r := FillSlots(s.slots[c], s.made, i, end);
            Conserved(s.(slots := s.slots[c := r.0], made := r.1))
  {
    var r := FillSlots(s.slots[c], s.made, i, end);
    FillSlotsMakes(s.slots[c], s.made, i, end);
    BagSumReplace(s.slots, c, r.0);
    Filled(BagSum(s.slots[c := r.0]), Bag(s.slots[c]), BagSum(s.slots), Bag(r.0), Made(s.made), Made(r.1),
           BagSum(Queues(s.store)), s.held, s.destroyed);
  }

  lemma Filled(a': multiset<Handle>, aOld: multiset<Handle>, a: multiset<Handle>, aNew: multiset<Handle>,
               m: multiset<Handle>, m': multiset<Handle>, q: multiset<Handle>, held: multiset<Handle>, d: multiset<Handle>)
    requires a' + aOld == a + aNew && aNew + m == aOld + m' && q + a + held + d == m
    ensures q + a' + held + d == m'
  {
    forall x ensures (q + a' + held + d)[x] == m'[x] {
      assert (a' + aOld)[x] == (a + aNew)[x];
      assert (aNew + m)[x] == (aOld + m')[x];
      assert (q + a + held + d)[x] == m[x];
    }
  }

  lemma {:induction false} BagNulls(hs: seq<Handle>)
    requires AllNull(hs, 0, |hs|)
    ensures Bag(hs) == multiset{}
  {
    if hs != [] {
      assert hs == [NULL] + hs[1..];
      BagConcat([NULL], hs[1..]);
      BagNull();
      BagNulls(hs[1..]);
    }
  }

  lemma ConnectConserves(s: State, c: nat, size: nat)
    requires Conserved(s) && c !in s.slots
    ensures Conserved(s.(slots := s.slots[c := seq(size, _ => NULL)]))
  {
    var nulls := seq(size, _ => NULL);
    BagNulls(nulls);
    BagSumReplace(s.slots, c, nulls);
    AddNothing(BagSum(s.slots[c := nulls]), BagSum(s.slots));
  }

  lemma SameTotal(s: State, t: State)
    requires Conserved(s) && Total(t) == Total(s) && t.made == s.made && t.held[NULL] == 0
    ensures Conserved(t)
  {
  }

  lemma EffectConserves(s: State, max: nat, l: Label, now: int, v: Option<Host>)
    requires Enabled(s, max, l, now, v) && Conserved(s)
    ensures Conserved(Effect(s, max, l, now, v))
  {
    match l
    case InitSlots(c, i, end) => InitSlotsConserves(s, c, i, end);
    case GetSingle(host, id) => GetSingleConserves(s, max, host, id, now, v);
    case Connect(c, size) => ConnectConserves(s, c, size);
    case _ => EffectKeepsTotal(s, max, l, now, v);
  }

  lemma EffectKeepsTotal(s: State, max: nat, l: Label, now: int, v: Option<Host>)
    requires Enabled(s, max, l, now, v) && Conserved(s)
    requires l.GetBulk? || l.KeepBulk? || l.KeepSingle?
    ensures Conserved(Effect(s, max, l, now, v))
  {
    EffectTotal(s, max, l, now, v);
    HeldKept(s, max, l, now, v);
    SameTotal(s, Effect(s, max, l, now, v));
  }

  lemma EffectTotal(s: State, max: nat, l: Label, now: int, v: Option<Host>)
    requires Enabled(s, max, l, now, v) && s.held[NULL] == 0
    requires l.GetBulk? || l.KeepBulk? || l.KeepSingle?
    ensures Total(Effect(s, max, l, now, v)) == Total(s)
  {
    match l
    case GetBulk(host, c, i, end) => GetBulkConserves(s, max, host, c, i, end, now, v);
    case KeepBulk(host, c, i, end) => KeepBulkConserves(s, max, host, c, i, end, now, v);
    case KeepSingle(host, id, curl) =>
      if host in s.store {
        KeepSingleConserves(s, host, id, curl, now);
      }
  }

  lemma HeldKept(s: State, max: nat, l: Label, now: int, v: Option<Host>)
    requires Enabled(s, max, l, now, v) && s.held[NULL] == 0
    requires l.GetBulk? || l.KeepBulk? || l.KeepSingle?
    ensures var e := Effect(s, max, l, now, v); e.made == s.made && e.held[NULL] == 0
  {
  }

  // ---------------------------------------------------------------------------------------------
  // Runs

  /** A step, the time it reads and the victim its eviction scan arrives at. Runs assume only that clients
      follow the protocol, that the clock does not go back, and that the scan finds a victim of its store. */
  datatype Event = Event(l: Label, now: int, v: Option<Host>)

  ghost predicate CanRun(s: State, max: nat, es: seq<Event>)
    decreases |es|
  {
    es == [] ||
    (Enabled(s, max, es[0].l, es[0].now, es[0].v)
     && CanRun(Apply(s, max, es[0].l, es[0].now, es[0].v), max, es[1..]))
  }

  ghost function Run(s: State, max: nat, es: seq<Event>): State
    requires CanRun(s, max, es)
    decreases |es|
  {
    if es == [] then s else Run(Apply(s, max, es[0].l, es[0].now, es[0].v), max, es[1..])
  }

  predicate NoSingleKeep(es: seq<Event>) {
    forall e :: e in es ==> !e.l.KeepSingle?
  }

  lemma ConservedKept(s: State, max: nat, l: Label, now: int, v: Option<Host>)
    requires Enabled(s, max, l, now, v) && Conserved(s)
    ensures Conserved(Apply(s, max, l, now, v))
  {
    EffectConserves(s, max, l, now, v);
    ApplyPlaces(s, max, l, now, v);
    SamePlaces(Effect(s, max, l, now, v), Apply(s, max, l, now, v));
  }

  lemma ApplyPlaces(s: State, max: nat, l: Label, now: int, v: Option<Host>)
    requires Enabled(s, max, l, now, v)
    ensures var e, t := Effect(s, max, l, now, v), Apply(s, max, l, now, v);
            t.store == e.store && t.slots == e.slots && t.held == e.held && t.destroyed == e.destroyed && t.made == e.made
  {
  }

  lemma SamePlaces(e: State, t: State)
    requires Conserved(e)
    requires t.store == e.store && t.slots == e.slots && t.held == e.held && t.destroyed == e.destroyed && t.made == e.made
    ensures Conserved(t)
  {
  }

  lemma {:induction false} RunKeeps(s: State, max: nat, es: seq<Event>)
    requires Inv(s, max) && Conserved(s) && CanRun(s, max, es)
    ensures Inv(Run(s, max, es), max) && Conserved(Run(s, max, es))
    ensures Tight(s, max) && NoSingleKeep(es) ==> Tight(Run(s, max, es), max)
    decreases |es|
  {
    if es != [] {
      var e := es[0];
      InvKept(s, max, e.l, e.now, e.v);
      ConservedKept(s, max, e.l, e.now, e.v);
      if Tight(s, max) && NoSingleKeep(es) {
        TightKept(s, max, e.l, e.now, e.v);
      }
      RunKeeps(Apply(s, max, e.l, e.now, e.v), max, es[1..]);
    }
  }

  lemma StartKeeps(max: nat)
    ensures Inv(START, max) && Conserved(START) && Tight(START, max)
  {
    assert Queues(START.store) == map[];
    assert Busy(START.store) == {};
  }

  /** From the empty store, over any run in which clients follow the protocol: each handle ever made is in
      exactly one place, once, and NULL in none; a host's user count is its outstanding Gets, so a Keep
      always finds its host; the store never outgrows both its maximum and the most hosts ever busy at once;
      and without single Keeps it is larger than its maximum only while every host is busy. */
  lemma PoolKeepsItsPromises(max: nat, es: seq<Event>)
    requires CanRun(START, max, es)
    ensures var t := Run(START, max, es);
            && (forall h: Handle :: Total(t)[h] == if 1 <= h <= t.made then 1 else 0)
            && (forall h :: Gets(t, h) == Users(t.store, h))
            && (forall h :: Gets(t, h) > 0 ==> h in t.store)
            && (|t.store| <= max || |t.store| <= t.peak)
            && (NoSingleKeep(es) && |t.store| > max ==> AllBusy(t.store))
  {
    StartKeeps(max);
    RunKeeps(START, max, es);
    var t := Run(START, max, es);
    forall h: Handle ensures Total(t)[h] == if 1 <= h <= t.made then 1 else 0 {
      MadeCount(t.made, h);
    }
  }
}
