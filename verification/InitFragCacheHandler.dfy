/** The init-fragment half of AampCacheHandler as a class over heap buffers, proved against InitFragCache. */
module InitFragCacheHandler {
  import opened Common
  import opened GrowableBuffers
  import opened CacheBuffers
  import InitFragCache

  class AampInitFragCache {
    var umInitFragCache: map<Url, Entry<GrowableBuffer>>
    var umCacheTrackQ: map<MediaType, seq<Url>>
    var MaxInitCacheSlot: int
    const heap: BufferHeap
    ghost var mainOf: map<Url, Url>   // history: the main URL of each redirect key

    ghost function View(): InitFragCache.Cache<GrowableBuffer>
      reads this, heap
    {
      InitFragCache.Cache(umInitFragCache, umCacheTrackQ, heap.live, heap.freed, mainOf)
    }

    ghost predicate Valid()
      reads this, heap, heap.live.Keys, heap.blocks
    {
      heap.Valid() && InitFragCache.Sound(View())
    }

    constructor (maxInitFragCacheSz: int)
      ensures Valid() && View() == InitFragCache.Empty() && fresh(heap) && heap.blocks == {}
      ensures MaxInitCacheSlot == maxInitFragCacheSz
    {
      umInitFragCache, umCacheTrackQ, mainOf := map[], map[], map[];
      MaxInitCacheSlot := maxInitFragCacheSz;
      heap := new BufferHeap();
    }

    /** RemoveInitFragCacheEntry. */
    method RemoveInitFragCacheEntry(fileType: MediaType)
      requires heap.Valid() && InitFragCache.FrontLive(View(), fileType)
      modifies this`umInitFragCache, this`umCacheTrackQ, this`mainOf, heap`live, heap`freed, heap.live.Keys
      ensures heap.Valid() && View() == InitFragCache.RemoveOldest(old(View()), fileType)
    {
      if fileType !in umCacheTrackQ {
        return;
      }
      var front := umCacheTrackQ[fileType][0];
      if front in umInitFragCache {
        ghost var c := View();
        var removeCacheData := umInitFragCache[front];
        if removeCacheData.duplicate {
          umInitFragCache := umInitFragCache - {removeCacheData.effectiveUrl};
          mainOf := mainOf - {removeCacheData.effectiveUrl};
        }
        heap.Free(removeCacheData.buffer);
        umInitFragCache := umInitFragCache - {front};
        umCacheTrackQ := umCacheTrackQ[fileType := umCacheTrackQ[fileType][1..]];
        assert umInitFragCache == InitFragCache.RemoveOldest(c, fileType).entries;
      }
    }

    /** The buffer is copied and the URL queued behind the others. */
    method Push(url: Url, bytes: seq<byte>, fileType: MediaType, b: GrowableBuffer)
      requires heap.Valid() && heap.Unused(b)
      modifies this`umCacheTrackQ, heap`live, heap`blocks, b
      ensures heap.Valid() && fresh(heap.blocks - old(heap.blocks))
      ensures View() == InitFragCache.Push(old(View()), url, bytes, fileType, b)
    {
      heap.Fill(b, bytes);
      var queue := if fileType in umCacheTrackQ then umCacheTrackQ[fileType] else [];
      umCacheTrackQ := umCacheTrackQ[fileType := queue + [url]];
    }

    /** The queue part: the URL is queued, and an overflow evicts. */
    method QueueUrl(url: Url, bytes: seq<byte>, fileType: MediaType, b: GrowableBuffer)
      requires heap.Valid() && heap.Unused(b)
      requires InitFragCache.FrontLive(InitFragCache.Push(View(), url, bytes, fileType, b), fileType)
      modifies this`umInitFragCache, this`umCacheTrackQ, this`mainOf, heap, heap.live.Keys, b
      ensures heap.Valid() && fresh(heap.blocks - old(heap.blocks))
      ensures View() == InitFragCache.Enqueue(old(View()), MaxInitCacheSlot, url, bytes, fileType, b)
    {
      Push(url, bytes, fileType, b);
      if |umCacheTrackQ[fileType]| > AsSize(MaxInitCacheSlot) {
        RemoveInitFragCacheEntry(fileType);
      }
    }

    /** InsertToInitFragCache; b is the buffer object it allocates for a new URL. A colliding redirect URL
        breaks the invariant. */
    method InsertToInitFragCache(url: Url, bytes: seq<byte>, eff: Url, fileType: MediaType, b: GrowableBuffer)
      requires Valid() && heap.Unused(b)
      modifies this`umInitFragCache, this`umCacheTrackQ, this`mainOf, heap, heap.live.Keys, b
      ensures heap.Valid() && fresh(heap.blocks - old(heap.blocks))
      ensures View() == InitFragCache.Insert(old(View()), MaxInitCacheSlot, url, bytes, eff, fileType, b)
      ensures Valid() <==> url in old(umInitFragCache)
                           || !InitFragCache.Collides(InitFragCache.Trimmed(old(View()), MaxInitCacheSlot, fileType), url, eff)
    {
      if url !in umInitFragCache {
        InitFragCache.InsertSoundIff(View(), MaxInitCacheSlot, url, bytes, eff, fileType, b);
        ghost var inserted := InitFragCache.Insert(View(), MaxInitCacheSlot, url, bytes, eff, fileType, b);
        InitFragCache.FrontAfterPush(View(), url, bytes, fileType, b);
        QueueUrl(url, bytes, fileType, b);
        AddEntries(url, bytes, eff, fileType, b, inserted);
      }
    }

    method AddEntries(url: Url, bytes: seq<byte>, eff: Url, fileType: MediaType, b: GrowableBuffer,
                      ghost inserted: InitFragCache.Cache<GrowableBuffer>)
      requires heap.Valid() && inserted == InitFragCache.AddEntries(View(), url, bytes, eff, fileType, b)
      modifies this`umInitFragCache, this`mainOf
      ensures heap.Valid() && View() == inserted
    {
      var duplicateEntry := |eff| > 0 && eff != url;
      umInitFragCache := umInitFragCache[url := Entry(eff, b, fileType, duplicateEntry)];
      if duplicateEntry {
        umInitFragCache := umInitFragCache[eff := Entry(eff, b, fileType, false)];
        mainOf := mainOf[eff := url];
      }
      assert View() == inserted;
    }

    /** RetrieveFromInitFragCache: the hit is copied into the caller's buffer, and the cache is not touched. */
    method RetrieveFromInitFragCache(url: Url, buffer: GrowableBuffer, effectiveUrl: Url)
      returns (ret: bool, newEffectiveUrl: Url)
      requires Valid()
      requires buffer !in heap.live && buffer.Valid()
      requires buffer.ptr != null ==> buffer.ptr !in heap.blocks
      modifies buffer, buffer.ptr
      ensures Valid() && buffer.Valid()
      ensures match InitFragCache.Retrieve(old(View()), url)
              case None => !ret && newEffectiveUrl == effectiveUrl && unchanged(buffer)
              case Some((bytes, eff)) =>
                && ret && newEffectiveUrl == eff && buffer.View() == Append(Reset(old(buffer.View())), bytes)
                && (buffer.View().data == bytes
                    <==> old(buffer.ptr) != null || bytes == [] || |bytes| > old(buffer.avail))
    {
      newEffectiveUrl := effectiveUrl;
      ret := url in umInitFragCache;
      if ret {
        ghost var view, bytes := buffer.View(), heap.live[umInitFragCache[url].buffer];
        heap.CopyOut(umInitFragCache[url].buffer, buffer);
        RefillIff(view, bytes);
        newEffectiveUrl := umInitFragCache[url].effectiveUrl;
      }
    }

    method FreeIfUnflagged(u: Url, ghost c: InitFragCache.Cache<GrowableBuffer>, ghost done: set<Url>)
      requires heap.Valid() && InitFragCache.Sound(c) && umInitFragCache == c.entries
      requires u in umInitFragCache && u !in done && InitFragCache.Progress(c, done, heap.live, heap.freed)
      modifies heap`live, heap`freed, c.live.Keys
      ensures heap.Valid() && InitFragCache.Progress(c, done + {u}, heap.live, heap.freed)
    {
      InitFragCache.ProgressNext(c, done, u, heap.live, heap.freed);
      if !umInitFragCache[u].duplicate {
        heap.Free(umInitFragCache[u].buffer);
      }
    }

    /** The entry loop of ClearInitFragCache; the entries are visited in any order. */
    method FreeUnflagged(ghost c: InitFragCache.Cache<GrowableBuffer>)
      requires heap.Valid() && InitFragCache.Sound(c) && View() == c
      modifies heap`live, heap`freed, heap.live.Keys
      ensures heap.Valid() && InitFragCache.Progress(c, c.entries.Keys, heap.live, heap.freed)
    {
      InitFragCache.ProgressStart(c);
      ghost var done := {};
      var todo := umInitFragCache.Keys;
      while todo != {}
        invariant heap.Valid() && Parts(done, todo, c.entries.Keys)
        invariant InitFragCache.Progress(c, done, heap.live, heap.freed)
        decreases todo
      {
        var u :| u in todo;
        PartsNext(done, todo, c.entries.Keys, u);
        FreeIfUnflagged(u, c, done);
        todo, done := todo - {u}, done + {u};
      }
    }

    method ClearInitFragCache()
      requires Valid()
      modifies this`umInitFragCache, this`umCacheTrackQ, this`mainOf, heap`live, heap`freed, heap.live.Keys
      ensures Valid() && View() == InitFragCache.Clear(old(View()))
    {
      ghost var c := View();
      FreeUnflagged(c);
      InitFragCache.Cleared(c, heap.live, heap.freed);
      umInitFragCache, umCacheTrackQ, mainOf := map[], map[], map[];
    }
  }
}
