/** Which host CurlStore evicts, in terms of the calls made on it. */
module CurlRecency {
  import opened Common
  import opened CurlPool
  import opened CurlStoreModel
  import opened CurlConservation

  predicate UsesHost(l: Label, h: Host) {
    match l
    case GetBulk(host, _, _, _) => host == h
    case GetSingle(host, _) => host == h
    case KeepBulk(host, _, _, _) => host == h
    case KeepSingle(host, _, _) => host == h
    case _ => false
  }

  /** When a run last used a host. */
  function LastUse(es: seq<Event>, h: Host): Option<int> {
    if es == [] then None
    else match LastUse(es[1..], h)
      case Some(at) => Some(at)
      case None => if UsesHost(es[0].l, h) then Some(es[0].now) else None
  }

  lemma {:induction false} LastUseNext(es: seq<Event>, e: Event, h: Host)
    ensures LastUse(es + [e], h) == if UsesHost(e.l, h) then Some(e.now) else LastUse(es, h)
  {
    if es == [] {
      assert [e][1..] == [] && [] + [e] == [e];
    } else {
      LastUseNext(es[1..], e, h);
      assert (es + [e])[1..] == es[1..] + [e];
    }
  }

  /** A step stamps the host it works on, if that stays in the store, and no other. */
  lemma StepStamps(s: State, max: nat, l: Label, now: int, v: Option<Host>, h: Host)
    requires Enabled(s, max, l, now, v) && Inv(s, max) && h in Apply(s, max, l, now, v).store
    ensures var t := Apply(s, max, l, now, v).store;
            if UsesHost(l, h) then t[h].timestamp == now else h in s.store && t[h] == s.store[h]
  {
    ApplyStore(s, max, l, now, v);
    match l
    case GetBulk(host, c, i, end) => GetBulkStamps(s, max, host, c, i, end, now, v, h);
    case KeepBulk(host, c, i, end) => KeepBulkStamps(s, max, host, c, i, end, now, v, h);
    case GetSingle(host, id) => GetSingleStamps(s, max, host, id, now, v, h);
    case KeepSingle(host, id, curl) => assert host in s.store;
    case _ => EffectKeepsGets(s, max, l, now, v);
  }

  lemma GetSingleStamps(s: State, max: nat, host: Host, id: nat, now: int, v: Option<Host>, h: Host)
    requires (v.Some? ==> v.value in s.store) && h in GetSingleStep(s, max, host, id, now, v).store
    ensures var t := GetSingleStep(s, max, host, id, now, v).store;
            if h == host then t[h].timestamp == now else h in s.store && t[h] == s.store[h]
  {
    GetSingleStore(s, max, host, id, now, v);
  }

  lemma GetBulkStamps(s: State, max: nat, host: Host, c: nat, i: nat, end: nat, now: int, v: Option<Host>, h: Host)
    requires Enabled(s, max, GetBulk(host, c, i, end), now, v)
    requires h in GetBulkStep(s, max, host, c, i, end, now, v).store
    ensures var t := GetBulkStep(s, max, host, c, i, end, now, v).store;
            if h == host then t[h].timestamp == now else h in s.store && t[h] == s.store[h]
  {
  }

  lemma KeepBulkStamps(s: State, max: nat, host: Host, c: nat, i: nat, end: nat, now: int, v: Option<Host>, h: Host)
    requires Enabled(s, max, KeepBulk(host, c, i, end), now, v) && host in s.store
    requires h in KeepBulkStep(s, max, host, c, i, end, now, v).store
    ensures var t := KeepBulkStep(s, max, host, c, i, end, now, v).store;
            if h == host then t[h].timestamp == now else h in s.store && t[h] == s.store[h]
  {
  }

  lemma {:induction false} RunStamps(s: State, max: nat, es: seq<Event>, h: Host)
    requires Inv(s, max) && CanRun(s, max, es) && h in Run(s, max, es).store
    ensures match LastUse(es, h)
            case Some(at) => Run(s, max, es).store[h].timestamp == at
            case None => h in s.store && Run(s, max, es).store[h] == s.store[h]
    decreases |es|
  {
    if es != [] {
      var t := Apply(s, max, es[0].l, es[0].now, es[0].v);
      InvKept(s, max, es[0].l, es[0].now, es[0].v);
      RunStamps(t, max, es[1..], h);
      if LastUse(es[1..], h).None? {
        StepStamps(s, max, es[0].l, es[0].now, es[0].v, h);
      }
    }
  }

  /** The scan sees every host but its own as the run left it, and its own as this step leaves it. */
  lemma ScanSees(s: State, max: nat, l: Label, now: int, v: Option<Host>, h: Host)
    requires Inv(s, max) && Enabled(s, max, l, now, v) && h in s.store && (UsesHost(l, h) ==> l.GetBulk? || l.KeepBulk?)
    ensures var k := Scanned(s, l, now);
            && h in k && k[h].users == Gets(Apply(s, max, l, now, v), h)
            && k[h].timestamp == if UsesHost(l, h) then now else s.store[h].timestamp
  {
    ApplyGets(s, max, l, now, v);
    assert Gets(s, h) == Users(s.store, h);
  }

  /** A host leaves the store only when all its Gets have been matched by Keeps, when the store is over its maximum,
      or at it with another host to come, and when of all unused hosts it is the one used the longest ago. */
  lemma EvictsLeastRecentlyUsed(max: nat, es: seq<Event>, e: Event, gone: Host)
    requires CanRun(START, max, es) && Enabled(Run(START, max, es), max, e.l, e.now, e.v)
    requires gone in Run(START, max, es).store && gone !in Apply(Run(START, max, es), max, e.l, e.now, e.v).store
    ensures var s := Run(START, max, es);
            var t := Apply(s, max, e.l, e.now, e.v);
            && (|s.store| > max || (|s.store| == max && !exists h :: UsesHost(e.l, h) && h in s.store))
            && Gets(t, gone) == 0 && LastUse(es + [e], gone).Some?
            && forall h :: h in s.store && h != gone && Gets(t, h) == 0 ==>
                 LastUse(es + [e], h).Some? && LastUse(es + [e], gone).value <= LastUse(es + [e], h).value
  {
    StartKeeps(max);
    RunKeeps(START, max, es);
    var s := Run(START, max, es);
    EvictsOnlyVictim(s, max, e.l, e.now, e.v, gone);
    VictimUses(s, max, es, e, gone);
    forall h | h in s.store && h != gone && Gets(Apply(s, max, e.l, e.now, e.v), h) == 0
      ensures LastUse(es + [e], h).Some? && LastUse(es + [e], gone).value <= LastUse(es + [e], h).value
    {
      VictimUses(s, max, es, e, h);
    }
  }

  /** Reading the scan's view of a host off the run. */
  lemma VictimUses(s: State, max: nat, es: seq<Event>, e: Event, h: Host)
    requires CanRun(START, max, es) && s == Run(START, max, es) && Inv(s, max)
    requires Enabled(s, max, e.l, e.now, e.v) && Scans(s, max, e.l) && h in s.store
    ensures var k := Scanned(s, e.l, e.now);
            && h in k && k[h].users == Gets(Apply(s, max, e.l, e.now, e.v), h)
            && LastUse(es + [e], h) == Some(k[h].timestamp)
  {
    StartKeeps(max);
    ScanSees(s, max, e.l, e.now, e.v, h);
    RunStamps(START, max, es, h);
    LastUseNext(es, e, h);
  }

  /** Making up for missing handles: a slot of the range that holds NULL gets a handle made now, different from
      those of the other slots; every other slot keeps what it holds. */
  lemma {:induction false} FillsMissing(slots: seq<Handle>, made: nat, i: nat, end: nat)
    requires end <= |slots|
    ensures var r := FillSlots(slots, made, i, end);
            && (forall j :: 0 <= j < |slots| && !(i <= j < end && slots[j] == 0) ==> r.0[j] == slots[j])
            && (forall j :: i <= j < end && slots[j] == 0 ==> made < r.0[j] <= r.1)
            && (forall j, k :: i <= j < k < end && slots[j] == 0 && slots[k] == 0 ==> r.0[j] < r.0[k])
    decreases end - i
  {
    if i < end {
      var (slots', made') := FillSlot(slots, made, i);
      FillsMissing(slots', made', i + 1, end);
    }
  }
}
