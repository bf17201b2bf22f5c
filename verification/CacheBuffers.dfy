/** What AampCacheHandler's two caches share: entries that alias buffers, and sums over sets of buffers.
    B identifies a heap-allocated GrowableBuffer. */
module CacheBuffers {
  import opened Common
  import opened GrowableBuffers

  type Url = string

  /** The MediaType enumeration; only MANIFEST is singled out. */
  type MediaType = nat
  const MANIFEST: MediaType := 4

  /** PlayListCachedData. */
  datatype Entry<B> = Entry(effectiveUrl: Url, buffer: B, fileType: MediaType, duplicate: bool)

  /** The keys a pass over a cache has dealt with and those it has not. */
  ghost predicate Parts(done: set<Url>, todo: set<Url>, all: set<Url>) {
    done + todo == all && done !! todo
  }

  lemma PartsNext(done: set<Url>, todo: set<Url>, all: set<Url>, u: Url)
    requires Parts(done, todo, all) && u in todo
    ensures Parts(done + {u}, todo - {u}, all) && u !in done && u in all && done <= all
  {
  }

  function Size<B>(live: map<B, seq<byte>>, b: B): nat {
    if b in live then |live[b]| else 0
  }

  /** Total length of the live ones of some buffers. */
  ghost function Sum<B>(live: map<B, seq<byte>>, bs: set<B>): nat {
    if bs == {} then 0
    else
      var b :| b in bs;
      Size(live, b) + Sum(live, bs - {b})
  }

  lemma {:induction false} SumWithout<B>(live: map<B, seq<byte>>, bs: set<B>, b: B)
    requires b in bs
    ensures Sum(live, bs) == Size(live, b) + Sum(live, bs - {b})
    decreases bs
  {
    var x :| x in bs && Sum(live, bs) == Size(live, x) + Sum(live, bs - {x});
    if x != b {
      SumWithout(live, bs - {x}, b);
      SumWithout(live, bs - {b}, x);
      assert bs - {x} - {b} == bs - {b} - {x};
    }
  }

  lemma {:induction false} SumUnion<B>(live: map<B, seq<byte>>, a: set<B>, b: set<B>)
    requires a !! b
    ensures Sum(live, a + b) == Sum(live, a) + Sum(live, b)
    decreases a
  {
    if a == {} {
      assert a + b == b;
    } else {
      var x :| x in a;
      SumWithout(live, a, x);
      SumWithout(live, a + b, x);
      assert a + b - {x} == (a - {x}) + b;
      SumUnion(live, a - {x}, b);
    }
  }

  lemma SumSubset<B>(live: map<B, seq<byte>>, a: set<B>, b: set<B>)
    requires a <= b
    ensures Sum(live, b) == Sum(live, a) + Sum(live, b - a)
  {
    SumUnion(live, a, b - a);
    assert a + (b - a) == b;
  }

  lemma {:induction false} SumAgrees<B>(live: map<B, seq<byte>>, live': map<B, seq<byte>>, bs: set<B>)
    requires forall b :: b in bs ==> Size(live, b) == Size(live', b)
    ensures Sum(live, bs) == Sum(live', bs)
    decreases bs
  {
    if bs != {} {
      var x :| x in bs;
      SumWithout(live, bs, x);
      SumWithout(live', bs, x);
      SumAgrees(live, live', bs - {x});
    }
  }

  /** The heap buffers of one cache: those not yet freed with the bytes they hold, and those freed. */
  class BufferHeap {
    ghost var live: map<GrowableBuffer, seq<byte>>
    ghost var freed: set<GrowableBuffer>
    ghost var blocks: set<array<byte>>

    ghost predicate Valid()
      reads this, live.Keys, blocks
    {
      forall b :: b in live ==>
        (b.ptr != null ==> b.ptr in blocks) && b.Valid() && b.View().data == live[b] && b.len == |live[b]|
    }

    constructor ()
      ensures Valid() && live == map[] && freed == {} && blocks == {}
    {
      live, freed, blocks := map[], {}, {};
    }

    /** A buffer object as `new GrowableBuffer()` and memset leave it. */
    ghost predicate Unused(b: GrowableBuffer)
      reads this, b, b.ptr
    {
      b.Valid() && b.View() == ZEROED && b !in live && b !in freed
    }

    /** aamp_Free and delete of a buffer, which must not have been freed before. */
    method Free(b: GrowableBuffer)
      requires Valid() && b in live && b !in freed
      modifies this`live, this`freed, b`ptr
      ensures Valid() && live == old(live) - {b} && freed == old(freed) + {b}
    {
      b.Free();
      live, freed := live - {b}, freed + {b};
    }

    /** Copy bytes into a new buffer. */
    method Fill(b: GrowableBuffer, bytes: seq<byte>)
      requires Valid() && Unused(b)
      modifies this`live, this`blocks, b
      ensures Valid() && live == old(live)[b := bytes] && fresh(blocks - old(blocks))
    {
      b.AppendBytes(bytes);
      live := live[b := bytes];
      if b.ptr != null {
        blocks := blocks + {b.ptr};
      }
    }

    /** Copy a cached buffer into the caller's, replacing what that held. */
    method CopyOut(b: GrowableBuffer, buffer: GrowableBuffer)
      requires Valid() && b in live && buffer !in live && buffer.Valid()
      requires buffer.ptr != null ==> buffer.ptr !in blocks
      modifies buffer, buffer.ptr
      ensures Valid() && buffer.Valid() && buffer.View() == Append(Reset(old(buffer.View())), live[b])
    {
      var bytes := if b.ptr == null then [] else b.ptr[..b.len];
      assert bytes == live[b];
      buffer.ResetLength();
      buffer.AppendBytes(bytes);
    }
  }
}
