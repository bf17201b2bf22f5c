/** What every run of the init-fragment cache keeps. */
module InitFragRuns {
  import opened Common
  import opened CacheBuffers
  import opened InitFragCache

  datatype Op<B> = InsertOp(url: Url, bytes: seq<byte>, eff: Url, t: MediaType, b: B) | ClearOp

  /** The allocator returns a buffer not in use; a new redirect URL does not collide with a cached key. */
  ghost predicate Allowed<B>(c: Cache<B>, slots: int, op: Op<B>) {
    match op
    case InsertOp(url, _, eff, t, b) =>
      b !in c.live && b !in c.freed && (url !in c.entries ==> !Collides(Trimmed(c, slots, t), url, eff))
    case ClearOp => true
  }

  ghost function Do<B>(c: Cache<B>, slots: int, op: Op<B>): Cache<B> {
    match op
    case InsertOp(url, bytes, eff, t, b) => Insert(c, slots, url, bytes, eff, t, b)
    case ClearOp => Clear(c)
  }

  ghost predicate CanRun<B>(c: Cache<B>, slots: int, ops: seq<Op<B>>)
    decreases |ops|
  {
    ops == [] || (Allowed(c, slots, ops[0]) && CanRun(Do(c, slots, ops[0]), slots, ops[1..]))
  }

  ghost function Run<B>(c: Cache<B>, slots: int, ops: seq<Op<B>>): Cache<B>
    decreases |ops|
  {
    if ops == [] then c else Run(Do(c, slots, ops[0]), slots, ops[1..])
  }

  lemma InsertKeeps<B>(c: Cache<B>, slots: int, url: Url, bytes: seq<byte>, eff: Url, t: MediaType, b: B)
    requires Sound(c) && Bounded(c, slots) && -0x8000_0000 <= slots
    requires url !in c.entries && b !in c.live && b !in c.freed && !Collides(Trimmed(c, slots, t), url, eff)
    ensures var d := Insert(c, slots, url, bytes, eff, t, b);
            Sound(d) && Bounded(d, slots) && d.live.Keys + d.freed == c.live.Keys + c.freed + {b}
  {
    InsertSoundIff(c, slots, url, bytes, eff, t, b);
    InsertBounded(c, slots, url, bytes, eff, t, b);
    InsertHeapGrows(c, slots, url, bytes, eff, t, b);
  }

  lemma InsertHeapGrows<B>(c: Cache<B>, slots: int, url: Url, bytes: seq<byte>, eff: Url, t: MediaType, b: B)
    requires Sound(c) && url !in c.entries && b !in c.live && b !in c.freed
    ensures var d := Insert(c, slots, url, bytes, eff, t, b); d.live.Keys + d.freed == c.live.Keys + c.freed + {b}
  {
    EvictionCommutes(c, slots, url, bytes, t, b);
    TrimmedHeapSame(c, slots, t);
    var d := Trimmed(c, slots, t);
    AddedHeapGrows(d, Insert(c, slots, url, bytes, eff, t, b), url, bytes, eff, t, b);
  }

  /** An eviction only moves a buffer from the live ones to the freed ones. */
  lemma TrimmedHeapSame<B>(c: Cache<B>, slots: int, t: MediaType)
    requires Sound(c)
    ensures var d := Trimmed(c, slots, t); d.live.Keys + d.freed == c.live.Keys + c.freed
  {
    if Queue(c, t) != [] {
      MainsAfterRemove(c, t);
    }
  }

  lemma AddedHeapGrows<B>(d: Cache<B>, e: Cache<B>, url: Url, bytes: seq<byte>, eff: Url, t: MediaType, b: B)
    requires e == Added(d, url, bytes, eff, t, b)
    ensures e.live.Keys + e.freed == d.live.Keys + d.freed + {b}
  {
    assert e.live == d.live[b := bytes] && e.freed == d.freed;
  }

  /** The buffer a step allocates. */
  function Allocated<B>(c: Cache<B>, op: Op<B>): set<B> {
    if op.InsertOp? && op.url !in c.entries then {op.b} else {}
  }

  /** All buffers a run allocates. */
  ghost function Allocations<B>(c: Cache<B>, slots: int, ops: seq<Op<B>>): set<B>
    decreases |ops|
  {
    if ops == [] then {} else Allocated(c, ops[0]) + Allocations(Do(c, slots, ops[0]), slots, ops[1..])
  }

  lemma StepKeeps<B>(c: Cache<B>, slots: int, op: Op<B>)
    requires Sound(c) && Bounded(c, slots) && Allowed(c, slots, op) && -0x8000_0000 <= slots
    ensures var d := Do(c, slots, op);
            && Sound(d) && Bounded(d, slots)
            && d.live.Keys + d.freed == c.live.Keys + c.freed + Allocated(c, op)
  {
    match op
    case ClearOp => ClearFreesEachOnce(c);
    case InsertOp(url, bytes, eff, t, b) =>
      if url !in c.entries {
        InsertKeeps(c, slots, url, bytes, eff, t, b);
      }
  }

  lemma {:induction false} RunKeeps<B>(c: Cache<B>, slots: int, ops: seq<Op<B>>)
    requires Sound(c) && Bounded(c, slots) && CanRun(c, slots, ops) && -0x8000_0000 <= slots
    ensures var d := Run(c, slots, ops);
            && Sound(d) && Bounded(d, slots)
            && d.live.Keys + d.freed == c.live.Keys + c.freed + Allocations(c, slots, ops) == Clear(d).freed
    decreases |ops|
  {
    if ops == [] {
      ClearFreesEachOnce(c);
    } else {
      StepKeeps(c, slots, ops[0]);
      RunKeeps(Do(c, slots, ops[0]), slots, ops[1..]);
    }
  }

  /** Whether a step stores something under u. */
  predicate Writes<B>(c: Cache<B>, op: Op<B>, u: Url) {
    op.InsertOp? && op.url !in c.entries && (u == op.url || (HasRedirect(op.url, op.eff) && u == op.eff))
  }

  /** The last step of a run that stores something under u. */
  ghost function LastWrite<B>(c: Cache<B>, slots: int, ops: seq<Op<B>>, u: Url): (k: Option<nat>)
    ensures k.Some? ==> k.value < |ops| && ops[k.value].InsertOp?
    decreases |ops|
  {
    if ops == [] then None
    else match LastWrite(Do(c, slots, ops[0]), slots, ops[1..], u)
      case Some(k) => Some(k + 1)
      case None => if Writes(c, ops[0], u) then Some(0) else None
  }

  lemma EntryLive<B>(c: Cache<B>, u: Url)
    requires Sound(c) && u in c.entries
    ensures c.entries[u].buffer in c.live && IsMain(c, MainOf(c, u))
    ensures c.entries[u].buffer == c.entries[MainOf(c, u)].buffer
  {
  }

  /** An eviction leaves the other entries their bytes: they belong to other mains. */
  lemma TrimmedHits<B>(c: Cache<B>, slots: int, t: MediaType, u: Url)
    requires Sound(c)
    ensures var d := Trimmed(c, slots, t);
            && Sound(d)
            && (u in d.entries ==>
                  && u in c.entries && d.entries[u].buffer in d.live && c.entries[u].buffer in c.live
                  && Retrieve(d, u) == Retrieve(c, u))
  {
    TrimmedSound(c, slots, t);
    var d := Trimmed(c, slots, t);
    if u in d.entries {
      EntryLive(d, u);
      if Queue(c, t) != [] {
        MainsAfterRemove(c, t);
        LosesOldest(c, t);
        EntryLive(c, u);
      }
    }
  }

  lemma ExtendedHits<B>(d: Cache<B>, e: Cache<B>, url: Url, bytes: seq<byte>, eff: Url, t: MediaType, b: B, u: Url)
    requires Extends(d, e, url, eff, t, b) && Grows(d, e, url, bytes, t, b) && b !in d.live
    requires u in d.entries ==> d.entries[u].buffer in d.live
    requires url !in d.entries && !Collides(d, url, eff)
    ensures var stored := u == url || (HasRedirect(url, eff) && u == eff);
            && (stored ==> u in e.entries && e.entries[u].buffer in e.live && Retrieve(e, u) == Some((bytes, eff)))
            && (u in e.entries && !stored ==>
                  && u in d.entries && d.entries[u].buffer in d.live
                  && e.entries[u].buffer in e.live && Retrieve(e, u) == Retrieve(d, u))
  {
  }

  lemma StepHits<B>(c: Cache<B>, slots: int, op: Op<B>, u: Url)
    requires Sound(c) && Allowed(c, slots, op)
    ensures var d := Do(c, slots, op);
            && (u in d.entries && Writes(c, op, u) ==>
                  d.entries[u].buffer in d.live && Retrieve(d, u) == Some((op.bytes, op.eff)))
            && (u in d.entries && !Writes(c, op, u) ==>
                  && u in c.entries && c.entries[u].buffer in c.live
                  && d.entries[u].buffer in d.live && Retrieve(d, u) == Retrieve(c, u))
  {
    match op
    case ClearOp =>
    case InsertOp(url, bytes, eff, t, b) =>
      if url in c.entries {
        if u in c.entries {
          EntryLive(c, u);
        }
      } else {
        EvictionCommutes(c, slots, url, bytes, t, b);
        TrimmedHits(c, slots, t, u);
        TrimmedAvoids(c, slots, t, url, b);
        var d := Trimmed(c, slots, t);
        if u in d.entries {
          EntryLive(d, u);
        }
        AddedExtends(d, url, bytes, eff, t, b);
        ExtendedHits(d, Added(d, url, bytes, eff, t, b), url, bytes, eff, t, b, u);
      }
  }

  /** A hit returns what the last insert stored under that key, or what was there before the run. */
  lemma {:induction false} HitIsLastInsert<B>(c: Cache<B>, slots: int, ops: seq<Op<B>>, u: Url)
    requires Sound(c) && Bounded(c, slots) && CanRun(c, slots, ops) && -0x8000_0000 <= slots
    ensures var d := Run(c, slots, ops);
            u in d.entries ==>
              && d.entries[u].buffer in d.live
              && match LastWrite(c, slots, ops, u)
                 case Some(k) => Retrieve(d, u) == Some((ops[k].bytes, ops[k].eff))
                 case None => u in c.entries && c.entries[u].buffer in c.live && Retrieve(d, u) == Retrieve(c, u)
    decreases |ops|
  {
    if ops == [] {
      if u in c.entries {
        EntryLive(c, u);
      }
    } else {
      StepHits(c, slots, ops[0], u);
      StepKeeps(c, slots, ops[0]);
      HitIsLastInsert(Do(c, slots, ops[0]), slots, ops[1..], u);
    }
  }

  // ---------------------------------------------------------------------------------------------
  // Insertion order

  /** The main URLs of type t stored since the last clear, in order, if `log` are those before the step. */
  function Logged<B>(c: Cache<B>, op: Op<B>, t: MediaType, log: seq<Url>): seq<Url> {
    match op
    case ClearOp => []
    case InsertOp(url, _, _, s, _) => if url !in c.entries && s == t then log + [url] else log
  }

  /** ... and after a run. */
  ghost function Log<B>(c: Cache<B>, slots: int, ops: seq<Op<B>>, t: MediaType, log: seq<Url>): seq<Url>
    decreases |ops|
  {
    if ops == [] then log else Log(Do(c, slots, ops[0]), slots, ops[1..], t, Logged(c, ops[0], t, log))
  }

  /** How many mains of one type the cache keeps. */
  function Capacity(slots: int): int {
    if slots == 0 then 1 else AsSize(slots)
  }

  /** The last n of a sequence, or all of it. */
  function LastOf<T>(s: seq<T>, n: int): seq<T>
    requires n >= 0
  {
    if |s| <= n then s else s[|s| - n..]
  }

  lemma LastOfSnoc<T>(s: seq<T>, n: int, x: T)
    requires n > 0
    ensures var q := LastOf(s, n); LastOf(s + [x], n) == if |q| + 1 <= n then q + [x] else q[1..] + [x]
  {
  }

  /** The queue of each type after an insert. */
  lemma QueueAfterInsert<B>(c: Cache<B>, slots: int, url: Url, bytes: seq<byte>, eff: Url, s: MediaType, b: B, t: MediaType)
    requires Sound(c) && url !in c.entries && b !in c.live && b !in c.freed
    ensures var q := Queue(c, t);
            Queue(Insert(c, slots, url, bytes, eff, s, b), t)
            == if t != s then q else if q == [] || |q| + 1 <= AsSize(slots) then q + [url] else q[1..] + [url]
  {
    InsertIsFifo(c, slots, url, bytes, eff, s, b);
  }

  lemma StepOrder<B>(c: Cache<B>, slots: int, op: Op<B>, t: MediaType, log: seq<Url>)
    requires Sound(c) && Allowed(c, slots, op) && -0x8000_0000 <= slots && Queue(c, t) == LastOf(log, Capacity(slots))
    ensures Queue(Do(c, slots, op), t) == LastOf(Logged(c, op, t, log), Capacity(slots))
  {
    if op.InsertOp? && op.url !in c.entries {
      QueueAfterInsert(c, slots, op.url, op.bytes, op.eff, op.t, op.b, t);
      LastOfSnoc(log, Capacity(slots), op.url);
    }
  }

  lemma {:induction false} RunOrder<B>(c: Cache<B>, slots: int, ops: seq<Op<B>>, t: MediaType, log: seq<Url>)
    requires Sound(c) && Bounded(c, slots) && CanRun(c, slots, ops) && -0x8000_0000 <= slots
    requires Queue(c, t) == LastOf(log, Capacity(slots))
    ensures Queue(Run(c, slots, ops), t) == LastOf(Log(c, slots, ops, t, log), Capacity(slots))
    decreases |ops|
  {
    if ops != [] {
      StepKeeps(c, slots, ops[0]);
      StepOrder(c, slots, ops[0], t, log);
      RunOrder(Do(c, slots, ops[0]), slots, ops[1..], t, Logged(c, ops[0], t, log));
    }
  }

  /** What a run from the empty cache leaves under u is what the last insert stored there. */
  ghost predicate HitsAreLast<B>(slots: int, ops: seq<Op<B>>, c: Cache<B>) {
    forall u :: u in c.entries ==> c.entries[u].buffer in c.live && HitIsLast(slots, ops, c, u)
  }

  ghost predicate HitIsLast<B>(slots: int, ops: seq<Op<B>>, c: Cache<B>, u: Url)
    requires u in c.entries && c.entries[u].buffer in c.live
  {
    var k := LastWrite(Empty<B>(), slots, ops, u);
    k.Some? && Retrieve(c, u) == Some((ops[k.value].bytes, ops[k.value].eff))
  }

  lemma AllHitsAreLast<B>(slots: int, ops: seq<Op<B>>, c: Cache<B>)
    requires CanRun(Empty<B>(), slots, ops) && -0x8000_0000 <= slots && c == Run(Empty<B>(), slots, ops)
    ensures HitsAreLast(slots, ops, c)
  {
    forall u | u in c.entries ensures c.entries[u].buffer in c.live && HitIsLast(slots, ops, c, u) {
      HitIsLastInsert(Empty<B>(), slots, ops, u);
    }
  }

  /** The queue of each type is the last mains stored. */
  ghost predicate QueuesAreLogs<B>(slots: int, ops: seq<Op<B>>, c: Cache<B>)
    requires -0x8000_0000 <= slots
  {
    forall t :: Queue(c, t) == LastOf(Log(Empty<B>(), slots, ops, t, []), Capacity(slots))
  }

  lemma AllQueuesAreLogs<B>(slots: int, ops: seq<Op<B>>, c: Cache<B>)
    requires CanRun(Empty<B>(), slots, ops) && -0x8000_0000 <= slots && c == Run(Empty<B>(), slots, ops)
    ensures QueuesAreLogs(slots, ops, c)
  {
    forall t ensures Queue(c, t) == LastOf(Log(Empty<B>(), slots, ops, t, []), Capacity(slots)) {
      RunOrder(Empty<B>(), slots, ops, t, []);
    }
  }

  /** From the empty cache, over any run of inserts and clears without colliding redirects, c is left: a hit
      returns what the last insert stored under that key; the queue of each type is the last MaxInitCacheSlot main
      URLs stored since the last clear, in order, and they are its cached mains; and of the buffers ever allocated
      each is either live, under one main, or was freed, and a final clear frees the rest. */
  lemma CacheIsFifo<B>(slots: int, ops: seq<Op<B>>, c: Cache<B>)
    requires CanRun(Empty<B>(), slots, ops) && -0x8000_0000 <= slots && c == Run(Empty<B>(), slots, ops)
    ensures HitsAreLast(slots, ops, c) && QueuesAreLogs(slots, ops, c)
    ensures forall t, u :: u in Queue(c, t) <==> IsMain(c, u) && c.entries[u].fileType == t
    ensures BuffersAccounted(slots, ops, c)
  {
    AllQueuesAreLogs(slots, ops, c);
    AllHitsAreLast(slots, ops, c);
    AllAccounted(slots, ops, c);
  }

  ghost predicate BuffersAccounted<B>(slots: int, ops: seq<Op<B>>, c: Cache<B>) {
    && Heap(c) && c.live.Keys + c.freed == Allocations(Empty<B>(), slots, ops) == Clear(c).freed
  }

  lemma AllAccounted<B>(slots: int, ops: seq<Op<B>>, c: Cache<B>)
    requires CanRun(Empty<B>(), slots, ops) && -0x8000_0000 <= slots && c == Run(Empty<B>(), slots, ops)
    ensures BuffersAccounted(slots, ops, c)
    ensures forall t, u :: u in Queue(c, t) <==> IsMain(c, u) && c.entries[u].fileType == t
  {
    RunKeeps(Empty<B>(), slots, ops);
    QueuesListMains(c);
  }

  lemma QueuesListMains<B>(c: Cache<B>)
    requires Queues(c)
    ensures forall t, u :: u in Queue(c, t) <==> IsMain(c, u) && c.entries[u].fileType == t
  {
  }
}
