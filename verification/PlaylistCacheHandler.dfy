/** The playlist half of AampCacheHandler as a class over heap buffers, proved against PlaylistCache. */
module PlaylistCacheHandler {
  import opened Common
  import opened GrowableBuffers
  import opened CacheBuffers
  import PlaylistCache

  class AampPlaylistCache {
    var mPlaylistCache: map<Url, Entry<GrowableBuffer>>
    var mCacheStoredSize: int
    var mMaxPlaylistCacheSize: int

    const heap: BufferHeap

    ghost function View(): PlaylistCache.Cache<GrowableBuffer>
      reads this, heap
    {
      PlaylistCache.Cache(mPlaylistCache, mCacheStoredSize, heap.live, heap.freed)
    }

    ghost predicate Valid()
      reads this, heap, heap.live.Keys, heap.blocks
    {
      heap.Valid() && PlaylistCache.Sound(View())
    }

    constructor (maxPlaylistCacheSize: int)
      ensures Valid() && View() == PlaylistCache.Empty() && fresh(heap) && heap.blocks == {}
      ensures mMaxPlaylistCacheSize == maxPlaylistCacheSize
    {
      mPlaylistCache, mCacheStoredSize := map[], 0;
      mMaxPlaylistCacheSize := maxPlaylistCacheSize;
      heap := new BufferHeap();
    }

    /** What every pass does with the entry under u: free the buffer if the entry owns it. */
    method FreeOwned(u: Url, ghost c: PlaylistCache.Cache<GrowableBuffer>, ghost done: set<Url>)
      returns (freedSize: nat)
      requires heap.Valid() && PlaylistCache.Sound(c) && PlaylistCache.Progress(c, done, heap.live, heap.freed)
      requires done <= c.entries.Keys && u in c.entries && u !in done
      requires u in mPlaylistCache && mPlaylistCache[u] == c.entries[u]
      modifies heap`live, heap`freed, c.live.Keys
      ensures heap.Valid() && PlaylistCache.Progress(c, done + {u}, heap.live, heap.freed)
      ensures freedSize == if c.entries[u].duplicate then 0 else |c.live[c.entries[u].buffer]|
    {
      freedSize := 0;
      PlaylistCache.ProgressNext(c, done, u, heap.live, heap.freed);
      var tmpData := mPlaylistCache[u];
      if !tmpData.duplicate {
        freedSize := tmpData.buffer.len;
        heap.Free(tmpData.buffer);
      }
    }

    /** The loop of ClearPlaylistCache; the entries are visited in any order. */
    method FreeAllOwned(ghost c: PlaylistCache.Cache<GrowableBuffer>)
      requires heap.Valid() && PlaylistCache.Sound(c) && View() == c
      modifies heap`live, heap`freed, heap.live.Keys
      ensures heap.Valid() && PlaylistCache.Progress(c, c.entries.Keys, heap.live, heap.freed)
    {
      ghost var done := {};
      var todo := mPlaylistCache.Keys;
      while todo != {}
        invariant heap.Valid() && Parts(done, todo, c.entries.Keys)
        invariant PlaylistCache.Progress(c, done, heap.live, heap.freed)
        decreases todo
      {
        var u :| u in todo;
        PartsNext(done, todo, c.entries.Keys, u);
        var _ := FreeOwned(u, c, done);
        todo, done := todo - {u}, done + {u};
      }
    }

    method ClearPlaylistCache()
      requires Valid()
      modifies this`mPlaylistCache, this`mCacheStoredSize, heap`live, heap`freed, heap.live.Keys
      ensures Valid() && View() == PlaylistCache.Clear(old(View()))
    {
      ghost var c := View();
      FreeAllOwned(c);
      PlaylistCache.Cleared(c, heap.live, heap.freed);
      mCacheStoredSize := 0;
      mPlaylistCache := map[];
    }

    /** Erase one entry, as an eviction pass does. */
    method EraseEntry(u: Url, ghost c: PlaylistCache.Cache<GrowableBuffer>, ghost done: set<Url>)
      returns (freedSize: nat)
      requires heap.Valid() && PlaylistCache.Sound(c) && View() == PlaylistCache.Drop(c, done)
      requires done <= c.entries.Keys && u in c.entries && u !in done
      modifies this`mPlaylistCache, heap`live, heap`freed, c.live.Keys
      ensures heap.Valid() && View() == PlaylistCache.Drop(c, done + {u})
      ensures PlaylistCache.OwnedBytes(c, done + {u}) == PlaylistCache.OwnedBytes(c, done) + freedSize
    {
      PlaylistCache.DropNext(c, done, u);
      PlaylistCache.OwnedSumNext(c, done, u);
      freedSize := FreeOwned(u, c, done);
      mPlaylistCache := mPlaylistCache - {u};
    }

    /** One eviction pass: erase the playlists of one type, or of every type when `only` is None, but never
        the manifest. */
    method EvictionPass(only: Option<MediaType>) returns (freedSize: nat)
      requires Valid()
      modifies this`mPlaylistCache, heap`live, heap`freed, heap.live.Keys
      ensures Valid() && View() == PlaylistCache.Drop(old(View()), PlaylistCache.PassKeys(old(View()), only))
      ensures freedSize == PlaylistCache.OwnedBytes(old(View()), PlaylistCache.PassKeys(old(View()), only))
    {
      ghost var c := View();
      ghost var keys, done := PlaylistCache.PassKeys(c, only), {};
      freedSize := 0;
      PlaylistCache.DropNothing(c);
      PlaylistCache.PassSound(c, only);
      var todo := mPlaylistCache.Keys;
      while todo != {}
        invariant heap.Valid() && View() == PlaylistCache.Drop(c, done)
        invariant todo <= c.entries.Keys && done <= keys && done !! todo && keys <= done + todo
        invariant freedSize == PlaylistCache.OwnedBytes(c, done)
        decreases todo
      {
        var u :| u in todo;
        PlaylistCache.DropNext(c, done, u);
        if mPlaylistCache[u].fileType == MANIFEST || (only.Some? && mPlaylistCache[u].fileType != only.value) {
          todo := todo - {u};
        } else {
          var n := EraseEntry(u, c, done);
          freedSize := freedSize + n;
          todo, done := todo - {u}, done + {u};
        }
      }
      assert done == keys;
    }

    /** The second pass, taken when the first one did not free enough. */
    method SecondPass(firstFreed: nat, newLen: nat) returns (freedSize: nat)
      requires Valid()
      modifies this`mPlaylistCache, heap`live, heap`freed, heap.live.Keys
      ensures Valid() && freedSize >= firstFreed
      ensures firstFreed >= newLen ==> View() == old(View()) && freedSize == firstFreed
      ensures firstFreed < newLen ==>
                && View() == PlaylistCache.Drop(old(View()), PlaylistCache.PassKeys(old(View()), None))
                && freedSize == firstFreed + PlaylistCache.OwnedBytes(old(View()), PlaylistCache.PassKeys(old(View()), None))
    {
      freedSize := firstFreed;
      if freedSize < newLen {
        var more := EvictionPass(None);
        freedSize := freedSize + more;
      }
    }

    method Discount(freedSize: nat, ghost result: PlaylistCache.Cache<GrowableBuffer>)
      requires heap.Valid() && PlaylistCache.Sound(result)
      requires result == View().(stored := mCacheStoredSize - freedSize)
      modifies this`mCacheStoredSize
      ensures Valid() && View() == result
    {
      mCacheStoredSize := mCacheStoredSize - freedSize;
    }

    /** AllocatePlaylistCacheSlot for anything but the manifest, with something cached. */
    method EvictPlaylists(fileType: MediaType, newLen: nat) returns (retVal: bool)
      requires Valid() && fileType != MANIFEST && mPlaylistCache != map[]
      modifies this`mPlaylistCache, this`mCacheStoredSize, heap`live, heap`freed, heap.live.Keys
      ensures Valid() && (View(), retVal) == PlaylistCache.AllocateSlot(old(View()), fileType, newLen)
    {
      ghost var c := View();
      var first := EvictionPass(Some(fileType));
      ghost var d := View();
      var freedSize := SecondPass(first, newLen);
      ghost var e := View();
      PlaylistCache.AllocateByPasses(c, fileType, newLen, d, e, first, freedSize);
      PlaylistCache.AllocateSlotSound(c, fileType, newLen);
      Discount(freedSize, PlaylistCache.AllocateSlot(c, fileType, newLen).0);
      retVal := freedSize >= newLen;
    }

    method AllocatePlaylistCacheSlot(fileType: MediaType, newLen: nat) returns (retVal: bool)
      requires Valid()
      modifies this`mPlaylistCache, this`mCacheStoredSize, heap`live, heap`freed, heap.live.Keys
      ensures Valid() && (View(), retVal) == PlaylistCache.AllocateSlot(old(View()), fileType, newLen)
    {
      retVal := true;
      if |mPlaylistCache| > 0 {
        if fileType == MANIFEST {
          ClearPlaylistCache();
        } else {
          retVal := EvictPlaylists(fileType, newLen);
        }
      }
    }

    /** The entry under the URL and, when it differs, the redirect entry under the effective URL. */
    method AddEntries(url: Url, bytes: seq<byte>, eff: Url, fileType: MediaType, b: GrowableBuffer,
                      ghost c: PlaylistCache.Cache<GrowableBuffer>)
      requires heap.Valid() && View() == c.(live := c.live[b := bytes])
      requires PlaylistCache.Sound(PlaylistCache.Store(c, url, bytes, eff, fileType, b))
      modifies this`mPlaylistCache, this`mCacheStoredSize
      ensures Valid() && View() == PlaylistCache.Store(c, url, bytes, eff, fileType, b)
    {
      mPlaylistCache := mPlaylistCache[url := Entry(eff, b, fileType, false)];
      mCacheStoredSize := mCacheStoredSize + |bytes|;
      if url != eff {
        mPlaylistCache := mPlaylistCache[eff := Entry(eff, b, fileType, true)];
      }
      assert View() == PlaylistCache.Store(c, url, bytes, eff, fileType, b);
    }

    /** Allocate the copy and add the one or two entries. */
    method StorePlaylist(url: Url, bytes: seq<byte>, eff: Url, fileType: MediaType, b: GrowableBuffer)
      requires Valid() && heap.Unused(b) && url !in mPlaylistCache
      modifies this`mPlaylistCache, this`mCacheStoredSize, heap, b
      ensures Valid() && View() == PlaylistCache.Store(old(View()), url, bytes, eff, fileType, b)
      ensures fresh(heap.blocks - old(heap.blocks))
    {
      ghost var c := View();
      PlaylistCache.StoreSound(c, url, bytes, eff, fileType, b);
      heap.Fill(b, bytes);
      AddEntries(url, bytes, eff, fileType, b, c);
    }

    method MakeRoom(fileType: MediaType, newLen: nat) returns (ready: bool)
      requires Valid()
      modifies this`mPlaylistCache, this`mCacheStoredSize, heap`live, heap`freed, heap.live.Keys
      ensures Valid() && (View(), ready) == PlaylistCache.MakeRoom(old(View()), mMaxPlaylistCacheSize, fileType, newLen)
      ensures PlaylistCache.Shrunk(old(View()), View())
    {
      PlaylistCache.MakeRoomShrinks(View(), mMaxPlaylistCacheSize, fileType, newLen);
      var max := AsSize(mMaxPlaylistCacheSize);
      ready := false;
      if mMaxPlaylistCacheSize == PlaylistCache.UNLIMITED || newLen < max {
        ready := true;
        if mMaxPlaylistCacheSize != PlaylistCache.UNLIMITED && mCacheStoredSize + newLen > max {
          ready := AllocatePlaylistCacheSlot(fileType, newLen);
        }
      }
    }

    /** A manifest not yet cached flushes the files of the old one. */
    method FlushForManifest(fileType: MediaType)
      requires Valid()
      modifies this`mPlaylistCache, this`mCacheStoredSize, heap`live, heap`freed, heap.live.Keys
      ensures Valid() && View() == PlaylistCache.ForNewManifest(old(View()), fileType)
      ensures PlaylistCache.Shrunk(old(View()), View())
    {
      PlaylistCache.ClearShrinks(View());
      if fileType == MANIFEST && |mPlaylistCache| > 0 {
        ClearPlaylistCache();
      }
    }

    /** InsertToPlaylistCache for a URL not yet cached. */
    method InsertNew(url: Url, bytes: seq<byte>, eff: Url, fileType: MediaType, b: GrowableBuffer)
      requires Valid() && heap.Unused(b) && url !in mPlaylistCache
      modifies this`mPlaylistCache, this`mCacheStoredSize, heap, heap.live.Keys, b
      ensures Valid() && fresh(heap.blocks - old(heap.blocks))
      ensures View() == PlaylistCache.Insert(old(View()), mMaxPlaylistCacheSize, url, bytes, eff, false, fileType, b)
    {
      ghost var c := View();
      FlushForManifest(fileType);
      var cacheStoreReady := MakeRoom(fileType, |bytes|);
      PlaylistCache.InsertByParts(c, mMaxPlaylistCacheSize, url, bytes, eff, fileType, b, View(), cacheStoreReady);
      if cacheStoreReady {
        StorePlaylist(url, bytes, eff, fileType, b);
      }
    }

    /** InsertToPlaylistCache; b is the buffer object it allocates if it stores the playlist. */
    method InsertToPlaylistCache(url: Url, bytes: seq<byte>, eff: Url, trackLiveStatus: bool, fileType: MediaType,
                                 b: GrowableBuffer)
      requires Valid() && heap.Unused(b)
      modifies this`mPlaylistCache, this`mCacheStoredSize, heap, heap.live.Keys, b
      ensures Valid() && fresh(heap.blocks - old(heap.blocks))
      ensures View() == PlaylistCache.Insert(old(View()), mMaxPlaylistCacheSize, url, bytes, eff, trackLiveStatus, fileType, b)
    {
      if !trackLiveStatus || fileType == MANIFEST {
        if url !in mPlaylistCache {
          InsertNew(url, bytes, eff, fileType, b);
        }
      }
    }

    /** RetrieveFromPlaylistCache: the hit is copied into the caller's buffer, and the cache is not touched. */
    method RetrieveFromPlaylistCache(url: Url, buffer: GrowableBuffer, effectiveUrl: Url)
      returns (ret: bool, newEffectiveUrl: Url)
      requires Valid() && buffer !in heap.live && buffer.Valid()
      requires buffer.ptr != null ==> buffer.ptr !in heap.blocks
      modifies buffer, buffer.ptr
      ensures Valid() && buffer.Valid()
      ensures match PlaylistCache.Retrieve(old(View()), url)
              case None => !ret && newEffectiveUrl == effectiveUrl && unchanged(buffer)
              case Some((bytes, eff)) =>
                && ret && newEffectiveUrl == eff && buffer.View() == Append(Reset(old(buffer.View())), bytes)
                && (buffer.View().data == bytes
                    <==> old(buffer.ptr) != null || bytes == [] || |bytes| > old(buffer.avail))
    {
      newEffectiveUrl := effectiveUrl;
      ret := url in mPlaylistCache;
      if ret {
        ghost var view, bytes := buffer.View(), heap.live[mPlaylistCache[url].buffer];
        heap.CopyOut(mPlaylistCache[url].buffer, buffer);
        RefillIff(view, bytes);
        newEffectiveUrl := mPlaylistCache[url].effectiveUrl;
      }
    }

    /** RemoveFromPlaylistCache, which may leave an entry with a freed buffer. */
    method RemoveFromPlaylistCache(url: Url)
      requires Valid()
      modifies this`mPlaylistCache, heap`live, heap`freed, heap.live.Keys
      ensures heap.Valid() && View() == PlaylistCache.Remove(old(View()), url)
      ensures Valid() <==> PlaylistCache.Removable(old(View()), url)
    {
      ghost var c := View();
      PlaylistCache.RemoveSoundIff(c, url);
      PlaylistCache.DropNothing(c);
      if url in mPlaylistCache {
        var _ := EraseEntry(url, c, {});
        assert {} + {url} == {url};
      } else {
        PlaylistCache.DropAbsent(c, url);
      }
    }
  }
}
