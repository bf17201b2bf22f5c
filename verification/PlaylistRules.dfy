/** What an insert into the playlist cache stores, evicts and counts, in terms of the cache before it. */
module PlaylistRules {
  import opened Common
  import opened GrowableBuffers
  import opened CacheBuffers
  import opened PlaylistCache

  /** A limit as the unsigned size it is compared as. */
  function Unsigned(limit: int): int {
    if limit < 0 then limit + 0x1_0000_0000_0000_0000 else limit
  }

  /** A manifest that is not cached empties the cache: every buffer owned by an entry is freed, and what is left
      is the new manifest under its two URLs, or nothing if it is too large. */
  lemma NewManifestFlushes<B>(c: Cache<B>, limit: int, url: Url, bytes: seq<byte>, eff: Url, isLive: bool, b: B)
    requires Sound(c) && b !in c.live && b !in c.freed && url !in c.entries
    ensures var d := Insert(c, limit, url, bytes, eff, isLive, 4, b);
            && (forall u :: u in c.entries && !c.entries[u].duplicate ==>
                  c.entries[u].buffer in d.freed && c.entries[u].buffer !in d.live)
            && d.entries.Keys == (if limit == -1 || |bytes| < Unsigned(limit) then {url, eff} else {})
            && (c.entries != map[] ==> d.stored == (if limit == -1 || |bytes| < Unsigned(limit) then |bytes| else 0))
  {
    assert c.entries == map[] ==> ForNewManifest(c, 4) == c;
    forall u | u in c.entries && !c.entries[u].duplicate ensures c.entries[u].buffer in Clear(c).freed {
      assert c.entries[u].buffer in Owned(c.entries, c.entries.Keys);
    }
    var c1 := ForNewManifest(c, 4);
    assert c1.entries == map[];
    assert MakeRoom(c1, limit, 4, |bytes|) == (c1, limit == -1 || |bytes| < Unsigned(limit));
  }

  /** The bytes of the playlists of one type, and of all playlists but the manifest. */
  ghost function TypeBytes<B>(c: Cache<B>, t: MediaType): nat {
    Sum(c.live, set u | u in c.entries && c.entries[u].fileType == t && !c.entries[u].duplicate :: c.entries[u].buffer)
  }

  ghost function PlaylistBytes<B>(c: Cache<B>): nat {
    Sum(c.live, set u | u in c.entries && c.entries[u].fileType != 4 && !c.entries[u].duplicate :: c.entries[u].buffer)
  }

  lemma BytesOwned<B>(c: Cache<B>, t: MediaType)
    ensures PlaylistBytes(c) == Sum(c.live, Owned(c.entries, NonManifest(c)))
    ensures t != 4 ==> TypeBytes(c, t) == Sum(c.live, Owned(c.entries, SameType(c, t)))
  {
    assert (set u | u in c.entries && c.entries[u].fileType != 4 && !c.entries[u].duplicate :: c.entries[u].buffer)
        == Owned(c.entries, NonManifest(c));
    if t != 4 {
      assert (set u | u in c.entries && c.entries[u].fileType == t && !c.entries[u].duplicate :: c.entries[u].buffer)
          == Owned(c.entries, SameType(c, t));
    }
  }

  /** A playlist is stored exactly when it is not live, not cached yet, smaller than the limit, and either fits
      beside the bytes counted, or the cache is empty, or the playlists to evict own as many bytes as it has. A
      manifest is stored, live or not, when it is not cached yet and smaller than the limit. */
  lemma InsertStoresIff<B>(c: Cache<B>, limit: int, url: Url, bytes: seq<byte>, eff: Url, isLive: bool,
                           t: MediaType, b: B)
    requires Sound(c) && b !in c.live && b !in c.freed
    ensures b in Insert(c, limit, url, bytes, eff, isLive, t, b).live <==>
            && (t == 4 || !isLive) && url !in c.entries
            && (limit == -1
                || (|bytes| < Unsigned(limit)
                    && (t == 4 || c.stored + |bytes| <= Unsigned(limit) || c.entries == map[]
                        || PlaylistBytes(c) >= |bytes|)))
  {
    if (t == 4 || !isLive) && url !in c.entries {
      StoresIfReady(c, limit, url, bytes, eff, isLive, t, b);
      if t == 4 {
        assert ForNewManifest(c, 4).entries == map[];
      } else if c.entries != map[] {
        AllocateReady(c, t, |bytes|);
      }
    }
  }

  lemma StoresIfReady<B>(c: Cache<B>, limit: int, url: Url, bytes: seq<byte>, eff: Url, isLive: bool,
                         t: MediaType, b: B)
    requires Sound(c) && b !in c.live && b !in c.freed && (t == 4 || !isLive) && url !in c.entries
    ensures b in Insert(c, limit, url, bytes, eff, isLive, t, b).live <==>
            MakeRoom(ForNewManifest(c, t), limit, t, |bytes|).1
  {
    ClearSound(c);
    ClearShrinks(c);
    MakeRoomShrinks(ForNewManifest(c, t), limit, t, |bytes|);
  }

  lemma AllocateReady<B>(c: Cache<B>, t: MediaType, len: nat)
    requires Sound(c) && t != 4 && c.entries != map[]
    ensures AllocateSlot(c, t, len).1 <==> PlaylistBytes(c) >= len
  {
    BytesOwned(c, t);
    var u :| u in c.entries;
    EvictionRule(c, t, len, u);
  }

  /** The keys a playlist's insert evicts: none while it fits or is refused at once; else those of its own type if
      they own enough bytes, and all but the manifest's if not. */
  ghost function Evicted<B>(c: Cache<B>, limit: int, url: Url, len: nat, isLive: bool, t: MediaType): set<Url> {
    if isLive || url in c.entries || limit == -1 || len >= Unsigned(limit) || c.stored + len <= Unsigned(limit) then {}
    else if TypeBytes(c, t) >= len then set u | u in c.entries && c.entries[u].fileType == t
    else set u | u in c.entries && c.entries[u].fileType != 4
  }

  lemma RoomIsDrop<B>(c: Cache<B>, limit: int, url: Url, t: MediaType, len: nat)
    requires Sound(c) && t != 4 && url !in c.entries
    ensures var keys := Evicted(c, limit, url, len, false, t);
            MakeRoom(c, limit, t, len).0 == Drop(c, keys).(stored := c.stored - Sum(c.live, Owned(c.entries, keys)))
  {
    BytesOwned(c, t);
    DropNothing(c);
    var keys := Evicted(c, limit, url, len, false, t);
    if limit != -1 && len < Unsigned(limit) && c.stored + len > Unsigned(limit) {
      if c.entries == map[] {
        assert keys == {};
      } else {
        assert keys == Victims(c, t, len);
      }
    }
  }

  /** What is left of the entries without some keys, and the buffers those keys own. */
  ghost function Kept<B>(c: Cache<B>, keys: set<Url>): map<Url, Entry<B>> {
    map u | u in c.entries && u !in keys :: c.entries[u]
  }

  ghost function Gone<B>(c: Cache<B>, keys: set<Url>): set<B> {
    set u | u in keys && u in c.entries && !c.entries[u].duplicate :: c.entries[u].buffer
  }

  lemma DropRule<B>(c: Cache<B>, keys: set<Url>)
    ensures Owned(c.entries, keys) == Gone(c, keys)
    ensures Drop(c, keys).entries == Kept(c, keys) && Drop(c, keys).freed == c.freed + Gone(c, keys)
    ensures Kept(c, {}) == c.entries && Gone(c, {}) == {}
  {
  }

  /** What a store adds to the entries and the counter of the cache there is room in. */
  ghost predicate Adds<B>(c: Cache<B>, d: Cache<B>, url: Url, bytes: seq<byte>, eff: Url, t: MediaType, b: B) {
    && d.stored == c.stored + |bytes| && d.freed == c.freed
    && b in d.live && d.live[b] == bytes
    && d.entries == if url == eff then c.entries[url := Entry(url, b, t, false)]
                    else c.entries[url := Entry(eff, b, t, false)][eff := Entry(eff, b, t, true)]
  }

  lemma StoreAdds<B>(c: Cache<B>, url: Url, bytes: seq<byte>, eff: Url, t: MediaType, b: B)
    ensures Adds(c, Store(c, url, bytes, eff, t, b), url, bytes, eff, t, b)
  {
  }

  /** A playlist's insert leaves every entry that is not evicted, drops the evicted ones and frees what they own;
      if it stores, it adds its one or two entries; and the counter follows the bytes freed and stored. */
  lemma PlaylistInsertRule<B>(c: Cache<B>, limit: int, url: Url, bytes: seq<byte>, eff: Url, isLive: bool,
                              t: MediaType, b: B)
    requires Sound(c) && b !in c.live && b !in c.freed && t != 4
    ensures var d := Insert(c, limit, url, bytes, eff, isLive, t, b);
            var evicted := Evicted(c, limit, url, |bytes|, isLive, t);
            var room := c.(entries := Kept(c, evicted), stored := c.stored - Sum(c.live, Gone(c, evicted)),
                           live := c.live - Gone(c, evicted), freed := c.freed + Gone(c, evicted));
            if b in d.live then Adds(room, d, url, bytes, eff, t, b) else d == room
  {
    var keys := Evicted(c, limit, url, |bytes|, isLive, t);
    DropRule(c, keys);
    if !isLive && url !in c.entries {
      RoomIsDrop(c, limit, url, t, |bytes|);
      MakeRoomShrinks(c, limit, t, |bytes|);
      StoreAdds(MakeRoom(c, limit, t, |bytes|).0, url, bytes, eff, t, b);
      assert Insert(c, limit, url, bytes, eff, isLive, t, b)
          == if MakeRoom(c, limit, t, |bytes|).1 then Store(MakeRoom(c, limit, t, |bytes|).0, url, bytes, eff, t, b)
             else MakeRoom(c, limit, t, |bytes|).0;
    } else {
      assert keys == {} && c.live - {} == c.live;
    }
  }
}
