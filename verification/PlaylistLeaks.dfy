/** Which buffers of the playlist cache are never freed. */
module PlaylistLeaks {
  import opened Common
  import opened CacheBuffers
  import opened PlaylistCache

  /** Every live buffer has an entry that owns it, and so will be freed. */
  ghost predicate NoLeak<B>(c: Cache<B>) {
    Owned(c.entries, c.entries.Keys) == c.live.Keys
  }

  /** The cache an insert adds to, after any flush and eviction. */
  ghost function Room<B>(c: Cache<B>, limit: int, t: MediaType, len: nat): Cache<B> {
    MakeRoom(ForNewManifest(c, t), limit, t, len).0
  }

  /** An insert that stores overwrites, with its redirect entry, an entry that owns a buffer. */
  ghost predicate Overwrites<B>(c: Cache<B>, limit: int, op: Op<B>) {
    && op.InsertOp? && op.url != op.eff && Accepts(c, limit, op.url, |op.bytes|, op.isLive, op.t)
    && var d := Room(c, limit, op.t, |op.bytes|); op.eff in d.entries && !d.entries[op.eff].duplicate
  }

  lemma DropNoLeak<B>(c: Cache<B>, keys: set<Url>)
    requires Sound(c) && NoLeak(c)
    ensures NoLeak(Drop(c, keys))
  {
    var d, gone := Drop(c, keys), Owned(c.entries, keys);
    forall b | b in d.live ensures b in Owned(d.entries, d.entries.Keys) {
      assert b in Owned(c.entries, c.entries.Keys);
      var u :| u in c.entries && !c.entries[u].duplicate && c.entries[u].buffer == b;
      assert u !in keys;
      assert u in d.entries;
    }
    forall u | u in d.entries && !d.entries[u].duplicate ensures d.entries[u].buffer in d.live {
      assert c.entries[u].buffer in Owned(c.entries, c.entries.Keys);
      assert c.entries[u].buffer !in gone;
    }
  }

  lemma RoomNoLeak<B>(c: Cache<B>, limit: int, t: MediaType, len: nat)
    requires Sound(c) && NoLeak(c)
    ensures Sound(Room(c, limit, t, len)) && NoLeak(Room(c, limit, t, len))
  {
    ClearSound(c);
    DropNoLeak(c, c.entries.Keys);
    var c1 := ForNewManifest(c, t);
    MakeRoomHits(c1, limit, t, len);
    ClearSound(c1);
    DropNoLeak(c1, c1.entries.Keys);
    DropNoLeak(c1, Victims(c1, t, len));
  }

  lemma StoreNoLeakIff<B>(c: Cache<B>, url: Url, bytes: seq<byte>, eff: Url, t: MediaType, b: B)
    requires Sound(c) && NoLeak(c) && b !in c.live && b !in c.freed && url !in c.entries
    ensures NoLeak(Store(c, url, bytes, eff, t, b)) <==>
            !(url != eff && eff in c.entries && !c.entries[eff].duplicate)
  {
    var d := Store(c, url, bytes, eff, t, b);
    assert d.entries[url].buffer == b && !d.entries[url].duplicate;
    if url != eff && eff in c.entries && !c.entries[eff].duplicate {
      StoreLeak(c, url, bytes, eff, t, b);
    } else {
      StoreNoLeak(c, d, url, eff, b);
    }
  }

  /** The buffer of the entry overwritten has lost its only owner. */
  lemma StoreLeak<B>(c: Cache<B>, url: Url, bytes: seq<byte>, eff: Url, t: MediaType, b: B)
    requires Sound(c) && b !in c.live && url !in c.entries
    requires url != eff && eff in c.entries && !c.entries[eff].duplicate
    ensures Leaked(Store(c, url, bytes, eff, t, b), c.entries[eff].buffer)
  {
  }

  lemma StoreNoLeak<B>(c: Cache<B>, d: Cache<B>, url: Url, eff: Url, b: B)
    requires NoLeak(c) && url in d.entries && d.entries[url].buffer == b && !d.entries[url].duplicate
    requires d.live.Keys == c.live.Keys + {b} && url !in c.entries
    requires forall u :: u in d.entries && u != url && !d.entries[u].duplicate ==> u in c.entries && c.entries[u] == d.entries[u]
    requires forall u :: u in c.entries && !c.entries[u].duplicate ==> u in d.entries && c.entries[u] == d.entries[u]
    ensures NoLeak(d)
  {
    forall x | x in c.live ensures x in Owned(d.entries, d.entries.Keys) {
      assert x in Owned(c.entries, c.entries.Keys);
      var u :| u in c.entries && !c.entries[u].duplicate && c.entries[u].buffer == x;
      assert u in d.entries && !d.entries[u].duplicate && d.entries[u].buffer == x;
    }
    forall u | u in d.entries && !d.entries[u].duplicate ensures d.entries[u].buffer in d.live {
      assert u != url ==> c.entries[u].buffer in Owned(c.entries, c.entries.Keys);
    }
  }

  /** A step keeps every buffer owned exactly when it does not overwrite an owning entry. */
  lemma StepNoLeakIff<B>(c: Cache<B>, limit: int, op: Op<B>)
    requires Sound(c) && NoLeak(c) && Allowed(c, op)
    ensures NoLeak(Do(c, limit, op)) <==> !Overwrites(c, limit, op)
  {
    match op
    case RemoveOp(url) => DropNoLeak(c, {url});
    case ClearOp => DropNoLeak(c, c.entries.Keys);
    case InsertOp(url, bytes, eff, isLive, t, b) =>
      if !((isLive && t != MANIFEST) || url in c.entries) {
        InsertRoom(c, limit, url, bytes, eff, isLive, t, b);
        RoomNoLeak(c, limit, t, |bytes|);
        if Accepts(c, limit, url, |bytes|, isLive, t) {
          StoreNoLeakIff(Room(c, limit, t, |bytes|), url, bytes, eff, t, b);
        }
      }
  }

  /** An insert stores into the cache that room was made in, or leaves that. */
  lemma InsertRoom<B>(c: Cache<B>, limit: int, url: Url, bytes: seq<byte>, eff: Url, isLive: bool, t: MediaType, b: B)
    requires Sound(c) && !(isLive && t != MANIFEST) && url !in c.entries && b !in c.live && b !in c.freed
    ensures var d := Room(c, limit, t, |bytes|);
            && Shrunk(c, d) && url !in d.entries && b !in d.live && b !in d.freed
            && Insert(c, limit, url, bytes, eff, isLive, t, b)
               == if Accepts(c, limit, url, |bytes|, isLive, t) then Store(d, url, bytes, eff, t, b) else d
  {
    ClearSound(c);
    ClearShrinks(c);
    MakeRoomShrinks(ForNewManifest(c, t), limit, t, |bytes|);
  }

  ghost predicate Leaked<B>(c: Cache<B>, x: B) {
    x in c.live && x !in Owned(c.entries, c.entries.Keys)
  }

  lemma DropLeaked<B>(c: Cache<B>, keys: set<Url>, x: B)
    requires Leaked(c, x)
    ensures Leaked(Drop(c, keys), x)
  {
    assert Owned(c.entries, keys) <= Owned(c.entries, c.entries.Keys);
  }

  lemma StoreLeaked<B>(c: Cache<B>, url: Url, bytes: seq<byte>, eff: Url, t: MediaType, b: B, x: B)
    requires Leaked(c, x) && b !in c.live
    ensures Leaked(Store(c, url, bytes, eff, t, b), x)
  {
    var d := Store(c, url, bytes, eff, t, b);
    forall u | u in d.entries && !d.entries[u].duplicate ensures d.entries[u].buffer != x {
      if u != url {
        assert c.entries[u].buffer in Owned(c.entries, c.entries.Keys);
      }
    }
  }

  lemma RoomLeaked<B>(c: Cache<B>, limit: int, t: MediaType, len: nat, x: B)
    requires Leaked(c, x)
    ensures Leaked(Room(c, limit, t, len), x)
  {
    DropLeaked(c, c.entries.Keys, x);
    var c1 := ForNewManifest(c, t);
    DropLeaked(c1, c1.entries.Keys, x);
    DropLeaked(c1, Victims(c1, t, len), x);
  }

  /** What is leaked stays leaked. */
  lemma StepLeaked<B>(c: Cache<B>, limit: int, op: Op<B>, x: B)
    requires Sound(c) && Allowed(c, op) && Leaked(c, x)
    ensures Leaked(Do(c, limit, op), x)
  {
    match op
    case RemoveOp(url) => DropLeaked(c, {url}, x);
    case ClearOp => DropLeaked(c, c.entries.Keys, x);
    case InsertOp(url, bytes, eff, isLive, t, b) =>
      if !((isLive && t != MANIFEST) || url in c.entries) {
        InsertRoom(c, limit, url, bytes, eff, isLive, t, b);
        RoomLeaked(c, limit, t, |bytes|, x);
        if Accepts(c, limit, url, |bytes|, isLive, t) {
          StoreLeaked(Room(c, limit, t, |bytes|), url, bytes, eff, t, b, x);
        }
      }
  }

  lemma {:induction false} RunLeaked<B>(c: Cache<B>, limit: int, ops: seq<Op<B>>, x: B)
    requires Sound(c) && CanRun(c, limit, ops) && Leaked(c, x)
    ensures Leaked(Run(c, limit, ops), x)
    decreases |ops|
  {
    if ops != [] {
      StepLeaked(c, limit, ops[0], x);
      StepHits(c, limit, ops[0], "");
      RunLeaked(Do(c, limit, ops[0]), limit, ops[1..], x);
    }
  }

  ghost predicate NeverOverwrites<B>(c: Cache<B>, limit: int, ops: seq<Op<B>>)
    decreases |ops|
  {
    ops == [] || (!Overwrites(c, limit, ops[0]) && NeverOverwrites(Do(c, limit, ops[0]), limit, ops[1..]))
  }

  lemma LeakExists<B>(c: Cache<B>) returns (x: B)
    requires Sound(c) && !NoLeak(c)
    ensures Leaked(c, x)
  {
    var owned := Owned(c.entries, c.entries.Keys);
    assert owned <= c.live.Keys;
    x :| x in c.live && x !in owned;
  }

  lemma {:induction false} RunNoLeakIff<B>(c: Cache<B>, limit: int, ops: seq<Op<B>>)
    requires Sound(c) && NoLeak(c) && CanRun(c, limit, ops)
    ensures NoLeak(Run(c, limit, ops)) <==> NeverOverwrites(c, limit, ops)
    decreases |ops|
  {
    if ops != [] {
      var d := Do(c, limit, ops[0]);
      StepNoLeakIff(c, limit, ops[0]);
      StepHits(c, limit, ops[0], "");
      if NoLeak(d) {
        RunNoLeakIff(d, limit, ops[1..]);
      } else {
        var x := LeakExists(d);
        RunLeaked(d, limit, ops[1..], x);
      }
    }
  }

  /** The buffer a step allocates. */
  ghost function Allocated<B>(c: Cache<B>, limit: int, op: Op<B>): set<B> {
    if op.InsertOp? && Accepts(c, limit, op.url, |op.bytes|, op.isLive, op.t) then {op.b} else {}
  }

  /** All buffers a run allocates. */
  ghost function Allocations<B>(c: Cache<B>, limit: int, ops: seq<Op<B>>): set<B>
    decreases |ops|
  {
    if ops == [] then {}
    else Allocated(c, limit, ops[0]) + Allocations(Do(c, limit, ops[0]), limit, ops[1..])
  }

  lemma StepHeap<B>(c: Cache<B>, limit: int, op: Op<B>)
    requires Sound(c) && Allowed(c, op)
    ensures var d := Do(c, limit, op); d.live.Keys + d.freed == c.live.Keys + c.freed + Allocated(c, limit, op)
  {
    match op
    case RemoveOp(url) =>
    case ClearOp =>
    case InsertOp(url, bytes, eff, isLive, t, b) =>
      if !((isLive && t != MANIFEST) || url in c.entries) {
        InsertRoom(c, limit, url, bytes, eff, isLive, t, b);
      }
  }

  lemma {:induction false} RunHeap<B>(c: Cache<B>, limit: int, ops: seq<Op<B>>)
    requires Sound(c) && CanRun(c, limit, ops)
    ensures var d := Run(c, limit, ops);
            Sound(d) && d.live.Keys + d.freed == c.live.Keys + c.freed + Allocations(c, limit, ops)
    decreases |ops|
  {
    if ops != [] {
      StepHeap(c, limit, ops[0]);
      StepHits(c, limit, ops[0], "");
      RunHeap(Do(c, limit, ops[0]), limit, ops[1..]);
    }
  }

  /** From the empty cache, over any run: a clear frees every buffer the run allocated, the earlier evicted ones
      included, exactly when no redirect entry ever overwrote an owning one. */
  lemma ClearFreesAllIff<B>(limit: int, ops: seq<Op<B>>)
    requires CanRun(Empty<B>(), limit, ops)
    ensures var c := Clear(Run(Empty<B>(), limit, ops));
            && c.live.Keys + c.freed == Allocations(Empty<B>(), limit, ops) && c.live.Keys !! c.freed
            && (c.freed == Allocations(Empty<B>(), limit, ops) <==> NeverOverwrites(Empty<B>(), limit, ops))
  {
    var e := Empty<B>();
    assert Owned(e.entries, e.entries.Keys) == {};
    RunHeap(e, limit, ops);
    RunNoLeakIff(e, limit, ops);
    var c := Run(e, limit, ops);
    assert Owned(c.entries, c.entries.Keys) <= c.live.Keys;
    assert Clear(c).live.Keys == c.live.Keys - Owned(c.entries, c.entries.Keys);
  }

  /** Such a run: the redirect of "b" overwrites the entry of "a", whose buffer then no entry names. */
  lemma RedirectLeaks(limit: int, t: MediaType, x: seq<byte>, y: seq<byte>)
    requires limit == UNLIMITED && t != MANIFEST
    ensures var ops := [InsertOp("a", x, "a", false, t, 1), InsertOp("b", y, "a", false, t, 2)];
            && CanRun(Empty<nat>(), limit, ops)
            && Clear(Run(Empty<nat>(), limit, ops)).live == map[1 := x]
  {
    var op1, op2 := InsertOp("a", x, "a", false, t, 1), InsertOp("b", y, "a", false, t, 2);
    var c1 := Store(Empty<nat>(), "a", x, "a", t, 1);
    var c2 := Store(c1, "b", y, "a", t, 2);
    assert Do(Empty<nat>(), limit, op1) == c1;
    assert "b" !in c1.entries && Do(c1, limit, op2) == c2;
    assert [op1, op2][1..] == [op2] && [op2][1..] == [];
    assert Run(c1, limit, [op2]) == c2;
    assert Run(Empty<nat>(), limit, [op1, op2]) == c2;
    LeftLive(c2, x, y);
  }

  lemma LeftLive(c: Cache<nat>, x: seq<byte>, y: seq<byte>)
    requires c.entries.Keys == {"a", "b"} && c.entries["a"].duplicate && !c.entries["b"].duplicate
    requires c.entries["b"].buffer == 2 && c.live == map[1 := x, 2 := y]
    ensures Clear(c).live == map[1 := x]
  {
    assert Owned(c.entries, c.entries.Keys) == {2};
  }
}
