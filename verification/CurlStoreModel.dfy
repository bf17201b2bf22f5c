/** CurlStore's operations on the whole store, and what every run of them keeps. */
module CurlStoreModel {
  import opened Common
  import opened CurlPool

  /** Store, the handle arrays of the player instances (curl or curlhost), and single handles handed out by
      GetFromCurlStore; then history: the clock, how many handles curl_easy_init has made, the handles
      cleaned up, Gets minus Keeps per host, and the most hosts ever busy at once. */
  datatype State = State(
    store: map<Host, Sock>,
    slots: map<nat, seq<Handle>>,
    held: multiset<Handle>,
    now: int,
    made: nat,
    destroyed: multiset<Handle>,
    gets: map<Host, nat>,
    peak: nat)

  const START := State(map[], map[], multiset{}, 0, 0, multiset{}, map[], 0)

  // ---------------------------------------------------------------------------------------------
  // Eviction

  ghost predicate IsVictim(store: map<Host, Sock>, v: Option<Host>) {
    match v
    case None => forall h :: h in store ==> store[h].users > 0
    case Some(h) =>
      h in store && store[h].users == 0
      && forall g :: g in store && store[g].users == 0 ==> store[h].timestamp <= store[g].timestamp
  }

  /** RemoveCurlSock, given the victim its scan arrives at: the least recently used idle host, if any. */
  function Evict(s: State, v: Option<Host>): (r: State)
    requires v.Some? ==> v.value in s.store
    ensures r.gets == s.gets && r.made == s.made && r.held == s.held
  {
    match v
    case None => s
    case Some(h) =>
      s.(store := s.store - {h}, destroyed := s.destroyed + Bag(Handles(s.store[h].freeQ)))
  }

  /** Evict when the size is at least n. */
  function EvictAt(s: State, n: nat, v: Option<Host>): (r: State)
    requires v.Some? ==> v.value in s.store
    ensures r.gets == s.gets && r.made == s.made && r.held == s.held
  {
    if |s.store| >= n then Evict(s, v) else s
  }

  // ---------------------------------------------------------------------------------------------
  // Operations on one host's record

  /** The largest unsigned int. */
  const MAX_USERS: nat := 0xFFFF_FFFF

  function More(users: nat): nat {
    if users == MAX_USERS then 0 else users + 1
  }

  function Less(users: nat): nat {
    if users == 0 then MAX_USERS else users - 1
  }

  function Used(k: Sock, now: int): Sock {
    k.(users := More(k.users), timestamp := now)
  }

  function Unused(k: Sock, now: int): Sock {
    k.(users := Less(k.users), timestamp := now)
  }

  function MaxAge(k: Sock): int {
    k.timestamp - MAX_AGE_TIME
  }

  datatype Bulk = Bulk(freeQ: seq<Free>, slots: seq<Handle>, cleaned: seq<Handle>, available: bool)

  /** The loop of GetFromCurlStoreBulk over slots i..end. */
  function TakeSlots(q: seq<Free>, maxAge: int, slots: seq<Handle>, i: nat, end: nat): (r: Bulk)
    requires end <= |slots|
    ensures |r.slots| == |slots|
    decreases end - i
  {
    if i >= end then Bulk(q, slots, [], true)
    else if q == [] then Bulk(q, slots, [], false)
    else
      var g := GetFromFreeQ(q, maxAge, i);
      var r := TakeSlots(g.rest, maxAge, slots[i := g.handle], i + 1, end);
      r.(cleaned := g.cleaned + r.cleaned, available := r.available && g.handle != NULL)
  }

  /** The loop of KeepInCurlStoreBulk. */
  function PutSlots(q: seq<Free>, slots: seq<Handle>, i: nat, end: nat, now: int): (r: (seq<Free>, seq<Handle>))
    requires end <= |slots|
    ensures |r.1| == |slots|
    decreases end - i
  {
    if i >= end then (q, slots) else PutSlots(q + [Free(slots[i], i, now)], slots[i := NULL], i + 1, end, now)
  }

  // ---------------------------------------------------------------------------------------------
  // Steps

  datatype Label =
    | GetBulk(host: Host, c: nat, i: nat, end: nat)
    | InitSlots(c: nat, i: nat, end: nat)             // the rest of CurlInit: make what is missing
    | GetSingle(host: Host, id: nat)
    | KeepBulk(host: Host, c: nat, i: nat, end: nat)
    | KeepSingle(host: Host, id: nat, curl: Handle)
    | Connect(c: nat, size: nat)                      // a player instance with its array of NULLs

  function Gets(s: State, host: Host): nat {
    if host in s.gets then s.gets[host] else 0
  }

  predicate AllNull(slots: seq<Handle>, i: nat, end: nat)
    requires end <= |slots|
  {
    forall j :: i <= j < end ==> slots[j] == NULL
  }

  /** The clients' protocol: slots are NULL before a Get, each Keep follows an unmatched Get on its host,
      a single handle kept is one that was handed out, and a host has fewer than 2^32 - 1 Gets to match. */
  predicate Protocol(s: State, l: Label) {
    match l
    case GetBulk(host, c, i, end) =>
      Gets(s, host) < MAX_USERS && c in s.slots && end <= |s.slots[c]| && AllNull(s.slots[c], i, end)
    case InitSlots(c, i, end) => c in s.slots && end <= |s.slots[c]|
    case GetSingle(host, _) => Gets(s, host) < MAX_USERS
    case KeepBulk(host, c, i, end) => Gets(s, host) > 0 && c in s.slots && end <= |s.slots[c]|
    case KeepSingle(host, _, curl) => Gets(s, host) > 0 && curl in s.held
    case Connect(c, _) => c !in s.slots
  }

  /** The pool before any eviction of this step, and the size from which it evicts. */
  function MakeHost(s: State, host: Host, now: int): (r: State)
    ensures r.gets == s.gets && r.made == s.made && r.held == s.held
  {
    s.(store := s.store[host := Sock([], 1, now)])
  }

  function CountGet(s: State, host: Host): State {
    s.(gets := s.gets[host := Gets(s, host) + 1])
  }

  function CountKeep(s: State, host: Host): State
    requires Gets(s, host) > 0
  {
    s.(gets := s.gets[host := Gets(s, host) - 1])
  }

  /** Fill the NULL slots i..end with new handles. */
  function FillSlots(slots: seq<Handle>, made: nat, i: nat, end: nat): (r: (seq<Handle>, nat))
    requires end <= |slots|
    ensures |r.0| == |slots| && made <= r.1
    decreases end - i
  {
    if i >= end then (slots, made)
    else
      var (slots', made') := FillSlot(slots, made, i);
      FillSlots(slots', made', i + 1, end)
  }

  function FillSlot(slots: seq<Handle>, made: nat, i: nat): (r: (seq<Handle>, nat))
    requires i < |slots|
    ensures |r.0| == |slots| && made <= r.1
  {
    if slots[i] == NULL then (slots[i := made + 1], made + 1) else (slots, made)
  }

  /** The store as a step's eviction scan sees it: the host of the operation has its new count and time. */
  function Scanned(s: State, l: Label, now: int): map<Host, Sock> {
    match l
    case GetBulk(host, _, _, _) => if host in s.store then s.store[host := Used(s.store[host], now)] else s.store
    case KeepBulk(host, _, _, _) => if host in s.store then s.store[host := Unused(s.store[host], now)] else s.store
    case _ => s.store
  }

  /** The victim a step's eviction scan may arrive at. */
  ghost predicate VictimOk(s: State, l: Label, now: int, v: Option<Host>) {
    IsVictim(Scanned(s, l, now), v)
  }

  /** Whether a step runs the scan at all. */
  predicate Scans(s: State, max: nat, l: Label) {
    match l
    case GetBulk(host, _, _, _) => |s.store| >= if host in s.store then max + 1 else max
    case GetSingle(host, _) => host !in s.store && |s.store| >= max
    case KeepBulk(_, _, _, _) => |s.store| >= max + 1
    case _ => false
  }

  ghost predicate Enabled(s: State, max: nat, l: Label, now: int, v: Option<Host>) {
    s.now <= now && Protocol(s, l) && VictimOk(s, l, now, v)
  }

  function Busy(store: map<Host, Sock>): set<Host> {
    set h | h in store && store[h].users > 0
  }

  function GetBulkStep(s: State, max: nat, host: Host, c: nat, i: nat, end: nat, now: int, v: Option<Host>): (r: State)
    requires c in s.slots && end <= |s.slots[c]| && (v.Some? ==> v.value in s.store)
    ensures r.gets == s.gets && r.made == s.made && r.held == s.held
  {
    if host in s.store then
      var k := Used(s.store[host], now);
      var taken := TakeSlots(k.freeQ, MaxAge(k), s.slots[c], i, end);
      EvictAt(s.(store := s.store[host := k.(freeQ := taken.freeQ)], slots := s.slots[c := taken.slots],
              destroyed := s.destroyed + Bag(taken.cleaned)), max + 1, v)
    else MakeHost(EvictAt(s, max, v), host, now)
  }

  function GetSingleStep(s: State, max: nat, host: Host, id: nat, now: int, v: Option<Host>): (r: State)
    requires v.Some? ==> v.value in s.store
    ensures r.gets == s.gets
  {
    if host in s.store then
      var k := Used(s.store[host], now);
      var taken := GetFromFreeQ(k.freeQ, MaxAge(k), id);
      var s' := s.(store := s.store[host := k.(freeQ := taken.rest)], destroyed := s.destroyed + Bag(taken.cleaned));
      if taken.handle != NULL then s'.(held := s.held + multiset{taken.handle})
      else s'.(held := s.held + multiset{s.made + 1}, made := s.made + 1)
    else
      MakeHost(EvictAt(s, max, v), host, now).(held := s.held + multiset{s.made + 1}, made := s.made + 1)
  }

  function KeepBulkStep(s: State, max: nat, host: Host, c: nat, i: nat, end: nat, now: int, v: Option<Host>): (r: State)
    requires c in s.slots && end <= |s.slots[c]| && (v.Some? ==> v.value in s.store)
    ensures r.gets == s.gets && r.made == s.made && r.held == s.held
  {
    if host in s.store then
      var k := Unused(s.store[host], now);
      var taken := PutSlots(k.freeQ, s.slots[c], i, end, now);
      EvictAt(s.(store := s.store[host := k.(freeQ := taken.0)], slots := s.slots[c := taken.1]), max + 1, v)
    else s
  }

  function KeepSingleStep(s: State, host: Host, id: nat, curl: Handle, now: int): (r: State)
    ensures r.gets == s.gets
  {
    if host in s.store then
      var k := Unused(s.store[host], now);
      s.(store := s.store[host := k.(freeQ := k.freeQ + [Free(curl, id, now)])], held := s.held - multiset{curl})
    else s
  }

  /** The step without its bookkeeping of Gets, clock and peak. */
  ghost function Effect(s: State, max: nat, l: Label, now: int, v: Option<Host>): State
    requires Enabled(s, max, l, now, v)
  {
    match l
    case GetBulk(host, c, i, end) => GetBulkStep(s, max, host, c, i, end, now, v)
    case InitSlots(c, i, end) =>
      var r := FillSlots(s.slots[c], s.made, i, end); s.(slots := s.slots[c := r.0], made := r.1)
    case GetSingle(host, id) => GetSingleStep(s, max, host, id, now, v)
    case KeepBulk(host, c, i, end) => KeepBulkStep(s, max, host, c, i, end, now, v)
    case KeepSingle(host, id, curl) => KeepSingleStep(s, host, id, curl, now)
    case Connect(c, size) => s.(slots := s.slots[c := seq(size, _ => NULL)])
  }

  ghost function Apply(s: State, max: nat, l: Label, now: int, v: Option<Host>): State
    requires Enabled(s, max, l, now, v)
  {
    var e := Effect(s, max, l, now, v).(now := now);
    var f := match l
      case GetBulk(host, _, _, _) => CountGet(e, host)
      case GetSingle(host, _) => CountGet(e, host)
      case KeepBulk(host, _, _, _) => CountKeep(e, host)
      case KeepSingle(host, _, _) => CountKeep(e, host)
      case _ => e;
    f.(peak := if |Busy(f.store)| > s.peak then |Busy(f.store)| else s.peak)
  }

  // ---------------------------------------------------------------------------------------------
  // Invariants

  /** The user count of a host is its outstanding Gets; a host not in the store has none. */
  ghost predicate Counts(s: State) {
    forall h :: Gets(s, h) == Users(s.store, h)
  }

  ghost predicate InTime(k: Sock, now: int) {
    k.timestamp <= now && Sorted(k.freeQ) && forall f :: f in k.freeQ ==> f.ts <= k.timestamp
  }

  ghost predicate Times(s: State) {
    forall h :: h in s.store ==> InTime(s.store[h], s.now)
  }

  ghost predicate Sizes(s: State, max: nat) {
    && |s.store| <= (if max < s.peak then s.peak else max)
    && |Busy(s.store)| <= s.peak
  }

  ghost predicate Inv(s: State, max: nat) {
    Counts(s) && Times(s) && Sizes(s, max)
  }

  lemma {:induction false} TakeSlotsOrder(q: seq<Free>, maxAge: int, slots: seq<Handle>, i: nat, end: nat)
    requires end <= |slots| && Sorted(q)
    ensures var r := TakeSlots(q, maxAge, slots, i, end);
            Sorted(r.freeQ) && forall f :: f in r.freeQ ==> f in q
    decreases end - i
  {
    if i < end && q != [] {
      var g := GetFromFreeQ(q, maxAge, i);
      LookupKeepsOrder(q, maxAge, i);
      TakeSlotsOrder(g.rest, maxAge, slots[i := g.handle], i + 1, end);
    }
  }

  /** The bulk loop reports success exactly when it filled every slot asked for. */
  lemma {:induction false} AvailableMeansFilled(q: seq<Free>, maxAge: int, slots: seq<Handle>, i: nat, end: nat)
    requires end <= |slots| && forall j :: i <= j < end ==> slots[j] == NULL
    ensures var r := TakeSlots(q, maxAge, slots, i, end);
            && (r.available <==> forall j :: i <= j < end ==> r.slots[j] != NULL)
            && forall j :: 0 <= j < |slots| && !(i <= j < end) ==> r.slots[j] == slots[j]
    decreases end - i
  {
    if i < end && q != [] {
      var g := GetFromFreeQ(q, maxAge, i);
      AvailableMeansFilled(g.rest, maxAge, slots[i := g.handle], i + 1, end);
      assert TakeSlots(q, maxAge, slots, i, end).slots[i] == g.handle;
    } else if i < end {
      assert slots[i] == NULL;
    }
  }

  lemma {:induction false} PutSlotsOrder(q: seq<Free>, slots: seq<Handle>, i: nat, end: nat, now: int)
    requires end <= |slots| && Sorted(q) && forall f :: f in q ==> f.ts <= now
    ensures var r := PutSlots(q, slots, i, end, now);
            Sorted(r.0) && forall f :: f in r.0 ==> f.ts <= now
    decreases end - i
  {
    if i < end {
      PushKeepsOrder(q, Free(slots[i], i, now));
      PutSlotsOrder(q + [Free(slots[i], i, now)], slots[i := NULL], i + 1, end, now);
    }
  }

  lemma PushKeepsOrder(q: seq<Free>, f: Free)
    requires Sorted(q) && forall g :: g in q ==> g.ts <= f.ts
    ensures Sorted(q + [f]) && forall g :: g in q + [f] ==> g.ts <= f.ts
  {
    assert forall i :: 0 <= i < |q| ==> q[i] in q;
  }

  /** t is s with k under host, less some idle hosts. */
  ghost predicate After(s: map<Host, Sock>, t: map<Host, Sock>, host: Host, k: Sock) {
    && (forall h :: h in t ==> if h == host then t[h] == k else h in s && t[h] == s[h])
    && (forall h :: h in s && h != host && h !in t ==> s[h].users == 0)
    && (host !in t ==> k.users == 0)
  }

  /** The scan looks only at user counts and timestamps. */
  lemma VictimSame(store: map<Host, Sock>, host: Host, k: Sock, k': Sock, v: Option<Host>)
    requires IsVictim(store[host := k], v) && k.users == k'.users && k.timestamp == k'.timestamp
    ensures IsVictim(store[host := k'], v)
  {
    var a, b := store[host := k], store[host := k'];
    assert forall h :: h in b ==> h in a && a[h].users == b[h].users && a[h].timestamp == b[h].timestamp;
  }

  lemma EvictAfter(s: State, host: Host, k: Sock, n: nat, v: Option<Host>)
    requires host in s.store && s.store[host] == k && IsVictim(s.store, v)
    ensures After(s.store, EvictAt(s, n, v).store, host, k)
  {
  }

  lemma AfterUpdate(s: map<Host, Sock>, t: map<Host, Sock>, host: Host, k: Sock)
    requires After(s[host := k], t, host, k)
    ensures After(s, t, host, k)
  {
  }

  lemma GetBulkAfter(s: State, max: nat, host: Host, c: nat, i: nat, end: nat, now: int, v: Option<Host>)
    requires Times(s) && s.now <= now && c in s.slots && end <= |s.slots[c]| && Users(s.store, host) < MAX_USERS
    requires VictimOk(s, GetBulk(host, c, i, end), now, v)
    ensures v.Some? ==> v.value in s.store
    ensures exists k :: After(s.store, GetBulkStep(s, max, host, c, i, end, now, v).store, host, k)
                        && InTime(k, now) && k.users == Users(s.store, host) + 1
  {
    if host in s.store {
      var u := Used(s.store[host], now);
      var r := TakeSlots(u.freeQ, MaxAge(u), s.slots[c], i, end);
      var k := u.(freeQ := r.freeQ);
      TakeSlotsOrder(u.freeQ, MaxAge(u), s.slots[c], i, end);
      var s1 := s.(store := s.store[host := k], slots := s.slots[c := r.slots], destroyed := s.destroyed + Bag(r.cleaned));
      VictimSame(s.store, host, u, k, v);
      EvictAfter(s1, host, k, max + 1, v);
      AfterUpdate(s.store, EvictAt(s1, max + 1, v).store, host, k);
    } else {
      MakeHostAfter(s, max, host, now, v);
    }
  }

  lemma MakeHostAfter(s: State, max: nat, host: Host, now: int, v: Option<Host>)
    requires host !in s.store && IsVictim(s.store, v)
    ensures After(s.store, MakeHost(EvictAt(s, max, v), host, now).store, host, Sock([], 1, now))
  {
  }

  lemma GetSingleStore(s: State, max: nat, host: Host, id: nat, now: int, v: Option<Host>)
    requires v.Some? ==> v.value in s.store
    ensures host !in s.store ==>
              GetSingleStep(s, max, host, id, now, v).store == MakeHost(EvictAt(s, max, v), host, now).store
    ensures host in s.store ==>
              var u := Used(s.store[host], now);
              GetSingleStep(s, max, host, id, now, v).store
              == s.store[host := u.(freeQ := GetFromFreeQ(u.freeQ, MaxAge(u), id).rest)]
  {
  }

  lemma GetSingleAfter(s: State, max: nat, host: Host, id: nat, now: int, v: Option<Host>)
    requires Times(s) && s.now <= now && VictimOk(s, GetSingle(host, id), now, v) && Users(s.store, host) < MAX_USERS
    ensures exists k :: After(s.store, GetSingleStep(s, max, host, id, now, v).store, host, k)
                        && InTime(k, now) && k.users == Users(s.store, host) + 1
  {
    GetSingleStore(s, max, host, id, now, v);
    if host in s.store {
      var u := Used(s.store[host], now);
      LookupKeepsOrder(u.freeQ, MaxAge(u), id);
      UpdateAfter(s.store, host, u.(freeQ := GetFromFreeQ(u.freeQ, MaxAge(u), id).rest));
    } else {
      MakeHostAfter(s, max, host, now, v);
    }
  }

  lemma KeepBulkAfter(s: State, max: nat, host: Host, c: nat, i: nat, end: nat, now: int, v: Option<Host>)
    requires Times(s) && s.now <= now && c in s.slots && end <= |s.slots[c]| && Users(s.store, host) > 0
    requires VictimOk(s, KeepBulk(host, c, i, end), now, v)
    ensures v.Some? ==> v.value in s.store
    ensures exists k :: After(s.store, KeepBulkStep(s, max, host, c, i, end, now, v).store, host, k)
                        && InTime(k, now) && k.users == Users(s.store, host) - 1
  {
    var r := PutSlots(s.store[host].freeQ, s.slots[c], i, end, now);
    var k := Sock(r.0, s.store[host].users - 1, now);
    PutSlotsOrder(s.store[host].freeQ, s.slots[c], i, end, now);
    var s1 := s.(store := s.store[host := k], slots := s.slots[c := r.1]);
    VictimSame(s.store, host, Unused(s.store[host], now), k, v);
    EvictAfter(s1, host, k, max + 1, v);
    AfterUpdate(s.store, EvictAt(s1, max + 1, v).store, host, k);
  }

  lemma UpdateAfter(s: map<Host, Sock>, host: Host, k: Sock)
    ensures After(s, s[host := k], host, k)
  {
  }

  lemma KeepSingleAfter(s: State, host: Host, id: nat, curl: Handle, now: int)
    requires Times(s) && s.now <= now && host in s.store && s.store[host].users > 0
    ensures exists k :: After(s.store, KeepSingleStep(s, host, id, curl, now).store, host, k)
                        && InTime(k, now) && k.users == Users(s.store, host) - 1
  {
    var k := Unused(s.store[host], now);
    k := k.(freeQ := k.freeQ + [Free(curl, id, now)]);
    PushKeepsOrder(s.store[host].freeQ, Free(curl, id, now));
    UpdateAfter(s.store, host, k);
  }

  function Users(store: map<Host, Sock>, h: Host): nat {
    if h in store then store[h].users else 0
  }

  lemma AfterUsers(s: map<Host, Sock>, t: map<Host, Sock>, host: Host, k: Sock)
    requires After(s, t, host, k)
    ensures forall h :: Users(t, h) == if h == host then k.users else Users(s, h)
  {
  }

  lemma AfterTimes(s: State, t: map<Host, Sock>, host: Host, k: Sock, now: int)
    requires Times(s) && s.now <= now && After(s.store, t, host, k) && InTime(k, now)
    ensures forall h :: h in t ==> InTime(t[h], now)
  {
  }

  /** The host a step works on, and by how much it changes the host's user count. */
  function HostOf(l: Label): Option<(Host, int)> {
    match l
    case GetBulk(host, _, _, _) => Some((host, 1))
    case GetSingle(host, _) => Some((host, 1))
    case KeepBulk(host, _, _, _) => Some((host, -1))
    case KeepSingle(host, _, _) => Some((host, -1))
    case _ => None
  }

  lemma EffectAfter(s: State, max: nat, l: Label, now: int, v: Option<Host>)
    requires Inv(s, max) && Enabled(s, max, l, now, v) && HostOf(l).Some?
    ensures exists k :: After(s.store, Effect(s, max, l, now, v).store, HostOf(l).value.0, k)
                        && InTime(k, now) && k.users == Users(s.store, HostOf(l).value.0) + HostOf(l).value.1
  {
    match l
    case GetBulk(host, c, i, end) => GetBulkAfter(s, max, host, c, i, end, now, v);
    case GetSingle(host, id) => GetSingleAfter(s, max, host, id, now, v);
    case KeepBulk(host, c, i, end) => KeepBulkAfter(s, max, host, c, i, end, now, v);
    case KeepSingle(host, id, curl) => KeepSingleAfter(s, host, id, curl, now);
    case _ =>
  }

  lemma CountsMove(s: State, t: State, host: Host, d: int)
    requires Counts(s)
    requires forall h :: Gets(t, h) == Gets(s, h) + if h == host then d else 0
    requires forall h :: Users(t.store, h) == Users(s.store, h) + if h == host then d else 0
    ensures Counts(t)
  {
  }

  lemma EffectKeepsGets(s: State, max: nat, l: Label, now: int, v: Option<Host>)
    requires Enabled(s, max, l, now, v)
    ensures Effect(s, max, l, now, v).gets == s.gets
    ensures HostOf(l).None? ==> Effect(s, max, l, now, v).store == s.store
  {
  }

  lemma ApplyGets(s: State, max: nat, l: Label, now: int, v: Option<Host>)
    requires Enabled(s, max, l, now, v)
    ensures var t := Apply(s, max, l, now, v);
            && t.store == Effect(s, max, l, now, v).store && t.now == now
            && forall h :: Gets(t, h) == Gets(s, h) + if HostOf(l).Some? && h == HostOf(l).value.0 then HostOf(l).value.1 else 0
  {
    EffectKeepsGets(s, max, l, now, v);
  }

  lemma CountsAndTimesKept(s: State, max: nat, l: Label, now: int, v: Option<Host>)
    requires Inv(s, max) && Enabled(s, max, l, now, v)
    ensures Counts(Apply(s, max, l, now, v)) && Times(Apply(s, max, l, now, v))
  {
    var store, t := Effect(s, max, l, now, v).store, Apply(s, max, l, now, v);
    ApplyGets(s, max, l, now, v);
    if HostOf(l).Some? {
      EffectAfter(s, max, l, now, v);
      MovedOn(s, t, store, HostOf(l).value.0, HostOf(l).value.1, now);
    } else {
      EffectKeepsGets(s, max, l, now, v);
      CountsMove(s, t, "", 0);
    }
  }

  /** After a step on one host. */
  lemma MovedOn(s: State, t: State, store: map<Host, Sock>, host: Host, d: int, now: int)
    requires Counts(s) && Times(s) && s.now <= now && t.store == store && t.now == now
    requires exists k :: After(s.store, store, host, k) && InTime(k, now) && k.users == Users(s.store, host) + d
    requires forall h :: Gets(t, h) == Gets(s, h) + if h == host then d else 0
    ensures Counts(t) && Times(t)
  {
    var k :| After(s.store, store, host, k) && InTime(k, now) && k.users == Users(s.store, host) + d;
    AfterUsers(s.store, store, host, k);
    AfterTimes(s, store, host, k, now);
    CountsMove(s, t, host, d);
  }

  // ---------------------------------------------------------------------------------------------
  // Pool size

  lemma {:induction false} SubsetSize<T>(a: set<T>, b: set<T>)
    requires a <= b
    ensures |a| <= |b|
    decreases b
  {
    if b != {} {
      var x :| x in b;
      SubsetSize(a - {x}, b - {x});
    }
  }

  lemma FewerHosts(s: map<Host, Sock>, t: map<Host, Sock>)
    requires t.Keys <= s.Keys
    ensures |t| <= |s|
  {
    SubsetSize(t.Keys, s.Keys);
    assert |t| == |t.Keys| && |s| == |s.Keys|;
  }

  predicate AllBusy(store: map<Host, Sock>) {
    forall h :: h in store ==> store[h].users > 0
  }

  lemma AllBusySize(store: map<Host, Sock>)
    requires AllBusy(store)
    ensures |Busy(store)| == |store|
  {
    assert Busy(store) == store.Keys;
    assert |store| == |store.Keys|;
  }

  lemma WithoutSize<K, V>(m: map<K, V>, k: K)
    requires k in m
    ensures |m - {k}| == |m| - 1
  {
    assert (m - {k}).Keys == m.Keys - {k};
    assert |m| == |m.Keys| && |m - {k}| == |(m - {k}).Keys|;
  }

  lemma WithSize<K, V>(m: map<K, V>, k: K, v: V)
    requires k !in m
    ensures |m[k := v]| == |m| + 1
  {
    assert m[k := v].Keys == m.Keys + {k};
    assert |m| == |m.Keys| && |m[k := v]| == |m[k := v].Keys|;
  }

  /** Creating a host: the store grows only while it is small, or when every host is busy. */
  lemma MakeHostSize(s: State, max: nat, host: Host, now: int, v: Option<Host>)
    requires host !in s.store && IsVictim(s.store, v)
    ensures var t := MakeHost(EvictAt(s, max, v), host, now).store;
            && |t| <= |s.store| + 1
            && (|t| > |s.store| && |t| > max ==> AllBusy(t))
            && (|s.store| >= max && v.Some? ==> |t| == |s.store|)
  {
    WithSize(EvictAt(s, max, v).store, host, Sock([], 1, now));
    if v.Some? {
      WithoutSize(s.store, v.value);
    }
  }

  /** Every other operation leaves no new host. */
  lemma SameHosts(s: State, max: nat, l: Label, now: int, v: Option<Host>)
    requires Inv(s, max) && Enabled(s, max, l, now, v)
    requires HostOf(l).Some? ==> HostOf(l).value.0 in s.store
    ensures Effect(s, max, l, now, v).store.Keys <= s.store.Keys
  {
  }

  lemma CreateIsMakeHost(s: State, max: nat, l: Label, now: int, v: Option<Host>)
    requires Inv(s, max) && Enabled(s, max, l, now, v)
    requires HostOf(l).Some? && HostOf(l).value.0 !in s.store
    ensures IsVictim(s.store, v)
    ensures Effect(s, max, l, now, v).store == MakeHost(EvictAt(s, max, v), HostOf(l).value.0, now).store
  {
  }

  lemma SizesKept(s: State, max: nat, l: Label, now: int, v: Option<Host>)
    requires Inv(s, max) && Enabled(s, max, l, now, v)
    ensures Sizes(Apply(s, max, l, now, v), max)
  {
    var store := Effect(s, max, l, now, v).store;
    ApplyGets(s, max, l, now, v);
    if HostOf(l).Some? && HostOf(l).value.0 !in s.store {
      CreateIsMakeHost(s, max, l, now, v);
      MakeHostSize(s, max, HostOf(l).value.0, now, v);
      if AllBusy(store) {
        AllBusySize(store);
      }
    } else {
      SameHosts(s, max, l, now, v);
      FewerHosts(s.store, store);
    }
  }

  lemma InvKept(s: State, max: nat, l: Label, now: int, v: Option<Host>)
    requires Inv(s, max) && Enabled(s, max, l, now, v)
    ensures Inv(Apply(s, max, l, now, v), max)
  {
    CountsAndTimesKept(s, max, l, now, v);
    SizesKept(s, max, l, now, v);
  }

  /** Above its maximum the store holds busy hosts only. */
  predicate Tight(s: State, max: nat) {
    |s.store| > max ==> AllBusy(s.store)
  }

  lemma BusyHasNoVictim(store: map<Host, Sock>, v: Option<Host>)
    requires IsVictim(store, v)
    ensures AllBusy(store) <==> v == None
  {
  }

  lemma CreateKeepsTight(s: State, max: nat, host: Host, now: int, v: Option<Host>)
    requires host !in s.store && IsVictim(s.store, v) && Tight(s, max)
    ensures Tight(MakeHost(EvictAt(s, max, v), host, now), max)
  {
    BusyHasNoVictim(s.store, v);
    MakeHostSize(s, max, host, now, v);
  }

  /** A bulk operation on a host of the store evicts one host when the store is too large. */
  lemma EvictKeepsTight(s: State, max: nat, host: Host, k: Sock, v: Option<Host>)
    requires Tight(s, max) && host in s.store && IsVictim(s.store[host := k], v)
    ensures Tight(EvictAt(s.(store := s.store[host := k]), max + 1, v), max)
  {
    var s1 := s.(store := s.store[host := k]);
    assert s1.store.Keys == s.store.Keys;
    assert |s1.store| == |s1.store.Keys| && |s.store| == |s.store.Keys|;
    if v.Some? {
      WithoutSize(s1.store, v.value);
      if |s.store| > max {
        assert v.value == host;
      }
    }
  }

  lemma GetBulkKeepsTight(s: State, max: nat, host: Host, c: nat, i: nat, end: nat, now: int, v: Option<Host>)
    requires Tight(s, max) && host in s.store && c in s.slots && end <= |s.slots[c]|
    requires VictimOk(s, GetBulk(host, c, i, end), now, v)
    ensures v.Some? ==> v.value in s.store
    ensures Tight(GetBulkStep(s, max, host, c, i, end, now, v), max)
  {
    var u := Used(s.store[host], now);
    var k := u.(freeQ := TakeSlots(u.freeQ, MaxAge(u), s.slots[c], i, end).freeQ);
    VictimSame(s.store, host, u, k, v);
    EvictKeepsTight(s, max, host, k, v);
    assert GetBulkStep(s, max, host, c, i, end, now, v).store == EvictAt(s.(store := s.store[host := k]), max + 1, v).store;
  }

  lemma KeepBulkKeepsTight(s: State, max: nat, host: Host, c: nat, i: nat, end: nat, now: int, v: Option<Host>)
    requires Tight(s, max) && host in s.store && c in s.slots && end <= |s.slots[c]|
    requires VictimOk(s, KeepBulk(host, c, i, end), now, v)
    ensures v.Some? ==> v.value in s.store
    ensures Tight(KeepBulkStep(s, max, host, c, i, end, now, v), max)
  {
    var u := Unused(s.store[host], now);
    var k := u.(freeQ := PutSlots(s.store[host].freeQ, s.slots[c], i, end, now).0);
    VictimSame(s.store, host, u, k, v);
    EvictKeepsTight(s, max, host, k, v);
    assert KeepBulkStep(s, max, host, c, i, end, now, v).store == EvictAt(s.(store := s.store[host := k]), max + 1, v).store;
  }

  lemma GetSingleKeepsTight(s: State, max: nat, host: Host, id: nat, now: int, v: Option<Host>)
    requires Tight(s, max) && host in s.store && Users(s.store, host) < MAX_USERS
    requires VictimOk(s, GetSingle(host, id), now, v)
    ensures Tight(GetSingleStep(s, max, host, id, now, v), max)
  {
    var u := Used(s.store[host], now);
    var k := u.(freeQ := GetFromFreeQ(u.freeQ, MaxAge(u), id).rest);
    var t := GetSingleStep(s, max, host, id, now, v).store;
    assert t == s.store[host := k];
    assert t.Keys == s.store.Keys;
    assert |t| == |t.Keys| && |s.store| == |s.store.Keys|;
  }

  /** Every operation but a single Keep leaves the store tight. */
  lemma TightKept(s: State, max: nat, l: Label, now: int, v: Option<Host>)
    requires Inv(s, max) && Enabled(s, max, l, now, v) && Tight(s, max) && !l.KeepSingle?
    ensures Tight(Apply(s, max, l, now, v), max)
  {
    ApplyGets(s, max, l, now, v);
    if HostOf(l).Some? && HostOf(l).value.0 !in s.store {
      CreateIsMakeHost(s, max, l, now, v);
      CreateKeepsTight(s, max, HostOf(l).value.0, now, v);
    } else {
      match l
      case GetBulk(host, c, i, end) => GetBulkKeepsTight(s, max, host, c, i, end, now, v);
      case KeepBulk(host, c, i, end) => KeepBulkKeepsTight(s, max, host, c, i, end, now, v);
      case GetSingle(host, id) => GetSingleKeepsTight(s, max, host, id, now, v);
      case _ => EffectKeepsGets(s, max, l, now, v);
    }
  }

  /** A single Keep never evicts: it leaves the store tight exactly when the store is not too large or the
      host has other users. */
  lemma KeepSingleTightIff(s: State, max: nat, host: Host, id: nat, curl: Handle, now: int, v: Option<Host>)
    requires Inv(s, max) && Tight(s, max) && Enabled(s, max, KeepSingle(host, id, curl), now, v)
    ensures Tight(Apply(s, max, KeepSingle(host, id, curl), now, v), max)
            <==> |s.store| <= max || Users(s.store, host) > 1
  {
    var t := KeepSingleStep(s, host, id, curl, now).store;
    assert t.Keys == s.store.Keys;
    assert |t| == |t.Keys| && |s.store| == |s.store.Keys|;
    assert host in t && t[host].users == s.store[host].users - 1;
  }

  /** A host leaves the store only as the victim of the step's scan; so at most one leaves in a step, and none
      while the store is below its maximum. */
  lemma EvictsOnlyVictim(s: State, max: nat, l: Label, now: int, v: Option<Host>, gone: Host)
    requires Enabled(s, max, l, now, v)
    requires gone in s.store && gone !in Apply(s, max, l, now, v).store
    ensures v == Some(gone) && Scans(s, max, l)
  {
    ApplyStore(s, max, l, now, v);
    match l
    case GetBulk(host, c, i, end) => GetBulkEvicts(s, max, host, c, i, end, now, v, gone);
    case KeepBulk(host, c, i, end) => KeepBulkEvicts(s, max, host, c, i, end, now, v, gone);
    case GetSingle(host, id) => GetSingleEvicts(s, max, host, id, now, v, gone);
    case _ =>
  }

  lemma ApplyStore(s: State, max: nat, l: Label, now: int, v: Option<Host>)
    requires Enabled(s, max, l, now, v)
    ensures Apply(s, max, l, now, v).store == Effect(s, max, l, now, v).store
  {
  }

  lemma GetBulkEvicts(s: State, max: nat, host: Host, c: nat, i: nat, end: nat, now: int, v: Option<Host>, gone: Host)
    requires c in s.slots && end <= |s.slots[c]| && (v.Some? ==> v.value in s.store)
    requires gone in s.store && gone !in GetBulkStep(s, max, host, c, i, end, now, v).store
    ensures v == Some(gone) && Scans(s, max, GetBulk(host, c, i, end))
  {
    if host in s.store {
      var k := Used(s.store[host], now);
      KeysReplaced(s.store, host, k.(freeQ := TakeSlots(k.freeQ, MaxAge(k), s.slots[c], i, end).freeQ));
    }
  }

  lemma KeepBulkEvicts(s: State, max: nat, host: Host, c: nat, i: nat, end: nat, now: int, v: Option<Host>, gone: Host)
    requires c in s.slots && end <= |s.slots[c]| && (v.Some? ==> v.value in s.store)
    requires gone in s.store && gone !in KeepBulkStep(s, max, host, c, i, end, now, v).store
    ensures v == Some(gone) && Scans(s, max, KeepBulk(host, c, i, end))
  {
    if host in s.store {
      var k := Unused(s.store[host], now);
      KeysReplaced(s.store, host, k.(freeQ := PutSlots(k.freeQ, s.slots[c], i, end, now).0));
    }
  }

  lemma GetSingleEvicts(s: State, max: nat, host: Host, id: nat, now: int, v: Option<Host>, gone: Host)
    requires v.Some? ==> v.value in s.store
    requires gone in s.store && gone !in GetSingleStep(s, max, host, id, now, v).store
    ensures v == Some(gone) && Scans(s, max, GetSingle(host, id))
  {
    GetSingleStore(s, max, host, id, now, v);
  }

  lemma KeysReplaced(store: map<Host, Sock>, host: Host, k: Sock)
    requires host in store
    ensures store[host := k].Keys == store.Keys && |store[host := k]| == |store|
  {
    assert store[host := k].Keys == store.Keys;
    assert |store[host := k]| == |store[host := k].Keys| && |store| == |store.Keys|;
  }

  /** Whatever the store, some host is a victim or all are busy: a client that follows the protocol is never
      refused. */
  lemma AlwaysEnabled(s: State, max: nat, l: Label, now: int)
    requires s.now <= now && Protocol(s, l)
    ensures exists v :: Enabled(s, max, l, now, v)
  {
    var v := VictimOf(Scanned(s, l, now), Scanned(s, l, now).Keys);
    assert Enabled(s, max, l, now, v);
  }

  /** A victim among some hosts. */
  lemma {:induction false} VictimOf(store: map<Host, Sock>, hosts: set<Host>) returns (v: Option<Host>)
    requires hosts <= store.Keys
    ensures match v
            case None => forall h :: h in hosts ==> store[h].users > 0
            case Some(h) =>
              h in hosts && store[h].users == 0
              && forall g :: g in hosts && store[g].users == 0 ==> store[h].timestamp <= store[g].timestamp
    decreases hosts
  {
    if hosts == {} {
      v := None;
    } else {
      var h :| h in hosts;
      v := VictimOf(store, hosts - {h});
      if store[h].users == 0 && (v.None? || store[h].timestamp < store[v.value].timestamp) {
        v := Some(h);
      }
    }
  }

  /** The state after two Gets on different hosts of an empty store. */
  function TwoHosts(g: Host, h: Host, now: int): State {
    State(map[g := Sock([], 1, now), h := Sock([], 1, now)], map[], multiset{1, 2}, now, 2, multiset{},
          map[g := 1, h := 1], 2)
  }

  lemma FirstGet(g: Host, now: int)
    requires now >= 0
    ensures Enabled(START, 1, GetSingle(g, 0), now, None)
    ensures Apply(START, 1, GetSingle(g, 0), now, None)
         == State(map[g := Sock([], 1, now)], map[], multiset{1}, now, 1, multiset{}, map[g := 1], 1)
  {
    var t := START.store[g := Sock([], 1, now)];
    assert t == map[g := Sock([], 1, now)];
    assert Busy(t) == {g};
  }

  lemma SecondGet(s: State, g: Host, h: Host, now: int)
    requires g != h
    requires s == State(map[g := Sock([], 1, now)], map[], multiset{1}, now, 1, multiset{}, map[g := 1], 1)
    ensures Enabled(s, 1, GetSingle(h, 0), now, None)
    ensures Apply(s, 1, GetSingle(h, 0), now, None) == TwoHosts(g, h, now)
  {
    var t := s.store[h := Sock([], 1, now)];
    assert t == TwoHosts(g, h, now).store;
    assert Busy(t) == {g, h};
  }

  lemma GiveBackFirst(s: State, g: Host, h: Host, now: int)
    requires g != h && s == TwoHosts(g, h, now)
    ensures Enabled(s, 1, KeepSingle(g, 0, 1), now, None) && Tight(s, 1)
    ensures !Tight(Apply(s, 1, KeepSingle(g, 0, 1), now, None), 1)
  {
    var t := KeepSingleStep(s, g, 0, 1, now).store;
    KeysReplaced(s.store, g, t[g]);
    assert s.store.Keys == {g, h} && |s.store| == |s.store.Keys|;
    ApplyStore(s, 1, KeepSingle(g, 0, 1), now, None);
  }

  /** The eviction that a single Keep leaves out matters: two hosts in a store for one, the first given back. */
  lemma SingleKeepLoosens(g: Host, h: Host, now: int)
    requires g != h && now >= 0
    ensures Enabled(START, 1, GetSingle(g, 0), now, None)
    ensures var s := Apply(START, 1, GetSingle(g, 0), now, None);
            Enabled(s, 1, GetSingle(h, 0), now, None)
            && var t := Apply(s, 1, GetSingle(h, 0), now, None);
               Enabled(t, 1, KeepSingle(g, 0, 1), now, None) && Tight(t, 1)
               && !Tight(Apply(t, 1, KeepSingle(g, 0, 1), now, None), 1)
  {
    FirstGet(g, now);
    SecondGet(Apply(START, 1, GetSingle(g, 0), now, None), g, h, now);
    GiveBackFirst(TwoHosts(g, h, now), g, h, now);
  }
}
