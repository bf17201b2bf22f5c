/** AampCacheHandler's playlist cache on values. */
module PlaylistCache {
  import opened Common
  import opened GrowableBuffers
  import opened CacheBuffers

  const UNLIMITED: int := -1

  /** The cache. The last two fields are history: contents of the buffers not yet freed, and the buffers
      freed. */
  datatype Cache<B> = Cache(
    entries: map<Url, Entry<B>>,
    stored: int,
    live: map<B, seq<byte>>,
    freed: set<B>)

  function Empty<B>(): Cache<B> {
    Cache(map[], 0, map[], {})
  }

  /** Buffers of the entries under some keys, and those of them that these entries own. */
  ghost function Buffers<B>(m: map<Url, Entry<B>>, keys: set<Url>): set<B> {
    set u | u in keys && u in m :: m[u].buffer
  }

  ghost function Owned<B>(m: map<Url, Entry<B>>, keys: set<Url>): set<B> {
    set u | u in keys && u in m && !m[u].duplicate :: m[u].buffer
  }

  /** Erase some keys and free what they own. */
  ghost function Drop<B>(c: Cache<B>, keys: set<Url>): Cache<B> {
    var gone := Owned(c.entries, keys);
    c.(entries := c.entries - keys, live := c.live - gone, freed := c.freed + gone)
  }

  /** ClearPlaylistCache. */
  ghost function Clear<B>(c: Cache<B>): Cache<B> {
    Drop(c, c.entries.Keys).(stored := 0)
  }

  function SameType<B>(c: Cache<B>, t: MediaType): set<Url> {
    set u | u in c.entries && c.entries[u].fileType != MANIFEST && c.entries[u].fileType == t
  }

  function NonManifest<B>(c: Cache<B>): set<Url> {
    set u | u in c.entries && c.entries[u].fileType != MANIFEST
  }

  /** Keys that AllocatePlaylistCacheSlot erases: one type, or everything but the manifest. */
  ghost function Victims<B>(c: Cache<B>, t: MediaType, newLen: nat): set<Url> {
    if Sum(c.live, Owned(c.entries, SameType(c, t))) < newLen then NonManifest(c) else SameType(c, t)
  }

  /** AllocatePlaylistCacheSlot: the new cache and whether there is room. */
  ghost function AllocateSlot<B>(c: Cache<B>, t: MediaType, newLen: nat): (Cache<B>, bool) {
    if c.entries == map[] then (c, true)
    else if t == MANIFEST then (Clear(c), true)
    else
      var keys := Victims(c, t, newLen);
      var freedSize := Sum(c.live, Owned(c.entries, keys));
      (Drop(c, keys).(stored := c.stored - freedSize), freedSize >= newLen)
  }

  /** The part of InsertToPlaylistCache that stores: b is the newly allocated buffer. */
  function Store<B>(c: Cache<B>, url: Url, bytes: seq<byte>, eff: Url, t: MediaType, b: B): Cache<B> {
    var main := c.entries[url := Entry(eff, b, t, false)];
    c.(entries := if url != eff then main[eff := Entry(eff, b, t, true)] else main,
    stored := c.stored + |bytes|,
    live := c.live[b := bytes])
  }

  /** The size checks of InsertToPlaylistCache: the cache after any eviction, and whether to store. */
  ghost function MakeRoom<B>(c: Cache<B>, limit: int, t: MediaType, newLen: nat): (Cache<B>, bool) {
    if limit != UNLIMITED && newLen >= AsSize(limit) then (c, false)
    else if limit != UNLIMITED && c.stored + newLen > AsSize(limit) then AllocateSlot(c, t, newLen)
    else (c, true)
  }

  /** A new manifest first empties the cache. */
  ghost function ForNewManifest<B>(c: Cache<B>, t: MediaType): Cache<B> {
    if t == MANIFEST && c.entries != map[] then Clear(c) else c
  }

  /** InsertToPlaylistCache. */
  ghost function Insert<B>(c: Cache<B>, limit: int, url: Url, bytes: seq<byte>, eff: Url, isLive: bool,
                           t: MediaType, b: B): Cache<B>
  {
    if (isLive && t != MANIFEST) || url in c.entries then c
    else
      var (c', ready) := MakeRoom(ForNewManifest(c, t), limit, t, |bytes|);
      if ready then Store(c', url, bytes, eff, t, b) else c'
  }

  /** RetrieveFromPlaylistCache: the bytes and the effective URL. */
  function Retrieve<B>(c: Cache<B>, url: Url): Option<(seq<byte>, Url)>
    requires url in c.entries ==> c.entries[url].buffer in c.live
  {
    if url in c.entries then Some((c.live[c.entries[url].buffer], c.entries[url].effectiveUrl)) else None
  }

  /** RemoveFromPlaylistCache: the counter stays. */
  ghost function Remove<B>(c: Cache<B>, url: Url): Cache<B> {
    Drop(c, {url})
  }

  // ---------------------------------------------------------------------------------------------
  // Invariants

  /** No entry refers to a freed buffer, no buffer has two owners, and entries that share a buffer have
      one file type. */
  ghost predicate Sound<B>(c: Cache<B>) {
    && (forall u :: u in c.entries ==> c.entries[u].buffer in c.live)
    && c.live.Keys !! c.freed
    && (forall u, v :: (u in c.entries && v in c.entries && u != v
                        && !c.entries[u].duplicate && !c.entries[v].duplicate) ==>
          c.entries[u].buffer != c.entries[v].buffer)
    && (forall u, v :: u in c.entries && v in c.entries && c.entries[u].buffer == c.entries[v].buffer ==>
          c.entries[u].fileType == c.entries[v].fileType)
  }

  /** Total length of the distinct buffers that entries refer to. */
  ghost function Reach<B>(c: Cache<B>): nat {
    Sum(c.live, Buffers(c.entries, c.entries.Keys))
  }

  ghost predicate Budget<B>(c: Cache<B>, limit: int) {
    Sound(c) && Reach(c) <= c.stored && (limit != UNLIMITED ==> Reach(c) <= AsSize(limit))
  }

  /** Keys closed under sharing a buffer. */
  ghost predicate Closed<B>(c: Cache<B>, keys: set<Url>) {
    forall u, v :: u in c.entries && v in c.entries && c.entries[u].buffer == c.entries[v].buffer ==>
      (u in keys <==> v in keys)
  }

  /** Erasing one more key after some others: its entry is still there and what it owns is not yet freed. */
  lemma DropNext<B>(c: Cache<B>, keys: set<Url>, u: Url)
    requires Sound(c) && keys <= c.entries.Keys && u in c.entries && u !in keys
    ensures var d, e := Drop(c, keys), c.entries[u];
            && u in d.entries && d.entries[u] == e
            && Drop(d, {u}) == Drop(c, keys + {u})
            && (!e.duplicate ==> e.buffer in d.live && d.live[e.buffer] == c.live[e.buffer] && e.buffer !in d.freed)
  {
    var d, e := Drop(c, keys), c.entries[u];
    OwnedNext(c, keys, u);
    assert Owned(d.entries, {u}) == if e.duplicate then {} else {e.buffer};
    assert c.entries - keys - {u} == c.entries - (keys + {u});
  }

  lemma OwnedNext<B>(c: Cache<B>, keys: set<Url>, u: Url)
    requires Sound(c) && keys <= c.entries.Keys && u in c.entries && u !in keys
    ensures Owned(c.entries, keys + {u})
         == Owned(c.entries, keys) + if c.entries[u].duplicate then {} else {c.entries[u].buffer}
    ensures !c.entries[u].duplicate ==> c.entries[u].buffer !in Owned(c.entries, keys)
  {
  }

  lemma OwnedSumNext<B>(c: Cache<B>, keys: set<Url>, u: Url)
    requires Sound(c) && keys <= c.entries.Keys && u in c.entries && u !in keys
    ensures Sum(c.live, Owned(c.entries, keys + {u}))
         == Sum(c.live, Owned(c.entries, keys)) + if c.entries[u].duplicate then 0 else |c.live[c.entries[u].buffer]|
  {
    OwnedNext(c, keys, u);
    var before, after := Owned(c.entries, keys), Owned(c.entries, keys + {u});
    if !c.entries[u].duplicate {
      SumWithout(c.live, after, c.entries[u].buffer);
      assert after - {c.entries[u].buffer} == before;
    } else {
      assert after == before;
    }
  }

  lemma OwnedSplit<B>(c: Cache<B>, some: set<Url>, rest: set<Url>)
    requires Sound(c) && some !! rest && some + rest <= c.entries.Keys
    ensures Owned(c.entries, some + rest) == Owned(c.entries, some) + Owned(c.entries, rest)
    ensures Owned(c.entries, some) !! Owned(c.entries, rest)
    ensures Owned(Drop(c, some).entries, rest) == Owned(c.entries, rest)
  {
  }

  /** Erasing some keys and then the rest is erasing them all. */
  lemma DropTwice<B>(c: Cache<B>, some: set<Url>, rest: set<Url>)
    requires Sound(c) && some !! rest && some + rest <= c.entries.Keys
    ensures var d := Drop(c, some);
            && Drop(d, rest) == Drop(c, some + rest)
            && Owned(d.entries, rest) <= d.live.Keys
            && Sum(c.live, Owned(c.entries, some + rest))
               == Sum(c.live, Owned(c.entries, some)) + Sum(d.live, Owned(d.entries, rest))
  {
    var d := Drop(c, some);
    OwnedSplit(c, some, rest);
    var first, second := Owned(c.entries, some), Owned(c.entries, rest);
    assert c.entries - some - rest == c.entries - (some + rest);
    assert c.live - first - second == c.live - (first + second);
    assert c.freed + first + second == c.freed + (first + second);
    SumUnion(c.live, first, second);
    SumAgrees(c.live, d.live, second);
  }

  /** The keys one eviction pass erases. */
  function PassKeys<B>(c: Cache<B>, only: Option<MediaType>): set<Url> {
    if only.Some? then SameType(c, only.value) else NonManifest(c)
  }

  ghost function OwnedBytes<B>(c: Cache<B>, keys: set<Url>): nat {
    Sum(c.live, Owned(c.entries, keys))
  }

  /** The second eviction pass over what the first one left is one pass over all playlist types. */
  lemma TwoPasses<B>(c: Cache<B>, t: MediaType)
    requires Sound(c)
    ensures var d := Drop(c, SameType(c, t));
            && Sound(d) && Drop(d, NonManifest(d)) == Drop(c, NonManifest(c))
            && Sum(c.live, Owned(c.entries, NonManifest(c)))
               == Sum(c.live, Owned(c.entries, SameType(c, t))) + Sum(d.live, Owned(d.entries, NonManifest(d)))
  {
    var d := Drop(c, SameType(c, t));
    DropSound(c, SameType(c, t));
    assert NonManifest(c) == SameType(c, t) + NonManifest(d);
    DropTwice(c, SameType(c, t), NonManifest(d));
  }

  lemma DropNothing<B>(c: Cache<B>)
    ensures Drop(c, {}) == c && Owned(c.entries, {}) == {}
  {
    assert c.entries - {} == c.entries && c.live - {} == c.live;
  }

  lemma DropAbsent<B>(c: Cache<B>, url: Url)
    requires url !in c.entries
    ensures Remove(c, url) == c
  {
    assert c.entries - {url} == c.entries && Owned(c.entries, {url}) == {} && c.live - {} == c.live;
  }

  lemma PassSound<B>(c: Cache<B>, only: Option<MediaType>)
    requires Sound(c)
    ensures Sound(Drop(c, PassKeys(c, only)))
  {
    DropSound(c, PassKeys(c, only));
  }

  /** AllocatePlaylistCacheSlot as the passes it makes: d is the cache after the first, e after both. */
  lemma AllocateByPasses<B>(c: Cache<B>, t: MediaType, newLen: nat, d: Cache<B>, e: Cache<B>, first: nat, all: nat)
    requires Sound(c) && t != MANIFEST && c.entries != map[]
    requires d == Drop(c, PassKeys(c, Some(t))) && first == OwnedBytes(c, PassKeys(c, Some(t)))
    requires first >= newLen ==> e == d && all == first
    requires first < newLen ==> e == Drop(d, PassKeys(d, None)) && all == first + OwnedBytes(d, PassKeys(d, None))
    ensures AllocateSlot(c, t, newLen) == (e.(stored := e.stored - all), all >= newLen)
  {
    TwoPasses(c, t);
  }

  lemma AllocateSlotSound<B>(c: Cache<B>, t: MediaType, newLen: nat)
    requires Sound(c)
    ensures Sound(AllocateSlot(c, t, newLen).0)
  {
    ClearSound(c);
    VictimsClosed(c, t, newLen);
    DropSound(c, Victims(c, t, newLen));
  }

  /** The heap while a pass that started at c has dealt with the keys in done. */
  ghost predicate Progress<B>(c: Cache<B>, done: set<Url>, live: map<B, seq<byte>>, freed: set<B>) {
    live == Drop(c, done).live && freed == Drop(c, done).freed
  }

  /** An entry not yet dealt with still has its buffer, if it owns one. */
  lemma ProgressNext<B>(c: Cache<B>, done: set<Url>, u: Url, live: map<B, seq<byte>>, freed: set<B>)
    requires Sound(c) && done <= c.entries.Keys && u in c.entries && u !in done && Progress(c, done, live, freed)
    ensures c.entries[u].duplicate ==> Progress(c, done + {u}, live, freed)
    ensures !c.entries[u].duplicate ==>
              var b := c.entries[u].buffer;
              b in live && live[b] == c.live[b] && b !in freed && Progress(c, done + {u}, live - {b}, freed + {b})
  {
    OwnedNext(c, done, u);
    var gone, gone' := Owned(c.entries, done), Owned(c.entries, done + {u});
    if c.entries[u].duplicate {
      assert gone' == gone;
    } else {
      LessOne(c.live, c.freed, gone, c.entries[u].buffer, gone');
    }
  }

  lemma LessOne<B>(live: map<B, seq<byte>>, freed: set<B>, gone: set<B>, b: B, gone': set<B>)
    requires gone' == gone + {b}
    ensures live - gone - {b} == live - gone' && freed + gone + {b} == freed + gone'
  {
  }

  lemma DropSound<B>(c: Cache<B>, keys: set<Url>)
    requires Sound(c) && Closed(c, keys)
    ensures Sound(Drop(c, keys))
  {
  }

  lemma ClearSound<B>(c: Cache<B>)
    requires Sound(c)
    ensures Sound(Clear(c))
  {
    DropSound(c, c.entries.Keys);
  }

  lemma Cleared<B>(c: Cache<B>, live: map<B, seq<byte>>, freed: set<B>)
    requires Sound(c) && Progress(c, c.entries.Keys, live, freed)
    ensures Cache(map[], 0, live, freed) == Clear(c) && Sound(Clear(c))
  {
    ClearSound(c);
    assert c.entries - c.entries.Keys == map[];
  }

  /** Erasing closed keys lowers the reachable total by at least what they own. */
  lemma DropReach<B>(c: Cache<B>, keys: set<Url>)
    requires Sound(c) && Closed(c, keys) && keys <= c.entries.Keys
    ensures Sound(Drop(c, keys))
    ensures Reach(Drop(c, keys)) + Sum(c.live, Owned(c.entries, keys)) <= Reach(c)
  {
    DropSound(c, keys);
    var d := Drop(c, keys);
    var all, gone := Buffers(c.entries, c.entries.Keys), Owned(c.entries, keys);
    var kept := Buffers(d.entries, d.entries.Keys);
    assert kept <= all - gone;
    SumSubset(c.live, gone, all);
    SumSubset(c.live, kept, all - gone);
    SumAgrees(c.live, d.live, kept);
  }

  lemma VictimsClosed<B>(c: Cache<B>, t: MediaType, newLen: nat)
    requires Sound(c)
    ensures Closed(c, Victims(c, t, newLen)) && Victims(c, t, newLen) <= c.entries.Keys
  {
  }

  lemma AllocateSlotKeeps<B>(c: Cache<B>, limit: int, t: MediaType, newLen: nat)
    requires Budget(c, limit)
    ensures var (c', ready) := AllocateSlot(c, t, newLen);
            && Budget(c', limit)
            && (ready && limit != UNLIMITED && newLen <= AsSize(limit) ==> Reach(c') + newLen <= AsSize(limit))
  {
    if c.entries != map[] {
      if t == MANIFEST {
        ClearKeeps(c, limit);
      } else {
        var keys := Victims(c, t, newLen);
        VictimsClosed(c, t, newLen);
        DropReach(c, keys);
        var d := Drop(c, keys);
        var freedSize := Sum(c.live, Owned(c.entries, keys));
        assert Reach(d.(stored := c.stored - freedSize)) == Reach(d);
      }
    }
  }

  lemma ClearKeeps<B>(c: Cache<B>, limit: int)
    requires Budget(c, limit)
    ensures Budget(Clear(c), limit) && Clear(c).entries == map[]
  {
    ClearSound(c);
    assert Buffers(Clear(c).entries, Clear(c).entries.Keys) == {};
  }

  lemma StoreSound<B>(c: Cache<B>, url: Url, bytes: seq<byte>, eff: Url, t: MediaType, b: B)
    requires Sound(c) && b !in c.live && b !in c.freed && url !in c.entries
    ensures Sound(Store(c, url, bytes, eff, t, b))
  {
    var d := Store(c, url, bytes, eff, t, b);
    forall u | u in d.entries ensures StoredOrKept(c, d, url, eff, t, b, u) {
    }
    StoreOwners(c, d, url, eff, t, b);
    StoreTypes(c, d, url, eff, t, b);
  }

  /** An entry is one of the two for b, or an old one. */
  ghost predicate StoredOrKept<B>(c: Cache<B>, d: Cache<B>, url: Url, eff: Url, t: MediaType, b: B, u: Url)
    requires u in d.entries
  {
    || (d.entries[u].buffer == b && d.entries[u].fileType == t && (u == url || (u == eff && d.entries[u].duplicate)))
    || (u != url && u in c.entries && d.entries[u] == c.entries[u])
  }

  lemma StoreOwners<B>(c: Cache<B>, d: Cache<B>, url: Url, eff: Url, t: MediaType, b: B)
    requires Sound(c) && b !in c.live && forall u :: u in d.entries ==> StoredOrKept(c, d, url, eff, t, b, u)
    ensures forall u, v :: (u in d.entries && v in d.entries && u != v
                            && !d.entries[u].duplicate && !d.entries[v].duplicate) ==>
              d.entries[u].buffer != d.entries[v].buffer
  {
    forall u, v | u in d.entries && v in d.entries && u != v && !d.entries[u].duplicate && !d.entries[v].duplicate
      ensures d.entries[u].buffer != d.entries[v].buffer
    {
      assert StoredOrKept(c, d, url, eff, t, b, u) && StoredOrKept(c, d, url, eff, t, b, v);
    }
  }

  lemma StoreTypes<B>(c: Cache<B>, d: Cache<B>, url: Url, eff: Url, t: MediaType, b: B)
    requires Sound(c) && b !in c.live && forall u :: u in d.entries ==> StoredOrKept(c, d, url, eff, t, b, u)
    ensures forall u, v :: u in d.entries && v in d.entries && d.entries[u].buffer == d.entries[v].buffer ==>
              d.entries[u].fileType == d.entries[v].fileType
  {
    forall u, v | u in d.entries && v in d.entries && d.entries[u].buffer == d.entries[v].buffer
      ensures d.entries[u].fileType == d.entries[v].fileType
    {
      assert StoredOrKept(c, d, url, eff, t, b, u) && StoredOrKept(c, d, url, eff, t, b, v);
    }
  }

  lemma StoreReach<B>(c: Cache<B>, url: Url, bytes: seq<byte>, eff: Url, t: MediaType, b: B)
    requires Sound(c) && b !in c.live && b !in c.freed && url !in c.entries
    ensures Sound(Store(c, url, bytes, eff, t, b))
    ensures Reach(Store(c, url, bytes, eff, t, b)) <= Reach(c) + |bytes|
  {
    StoreSound(c, url, bytes, eff, t, b);
    var d := Store(c, url, bytes, eff, t, b);
    var before, after := Buffers(c.entries, c.entries.Keys), Buffers(d.entries, d.entries.Keys);
    assert d.entries[url].buffer == b;
    assert b in after && after - {b} <= before;
    SumWithout(d.live, after, b);
    SumAgrees(d.live, c.live, after - {b});
    SumSubset(c.live, after - {b}, before);
  }

  lemma StoreKeeps<B>(c: Cache<B>, limit: int, url: Url, bytes: seq<byte>, eff: Url, t: MediaType, b: B)
    requires Budget(c, limit) && b !in c.live && b !in c.freed && url !in c.entries
    requires limit != UNLIMITED ==> Reach(c) + |bytes| <= AsSize(limit)
    ensures var c' := Store(c, url, bytes, eff, t, b); Budget(c', limit)
  {
    StoreReach(c, url, bytes, eff, t, b);
  }

  lemma MakeRoomKeeps<B>(c: Cache<B>, limit: int, t: MediaType, newLen: nat)
    requires Budget(c, limit)
    ensures var (c', ready) := MakeRoom(c, limit, t, newLen);
            && Budget(c', limit)
            && (ready && limit != UNLIMITED ==> Reach(c') + newLen <= AsSize(limit))
  {
    AllocateSlotKeeps(c, limit, t, newLen);
  }

  /** From c to d nothing was allocated and no key added; what is gone from the heap was freed. */
  ghost predicate Shrunk<B>(c: Cache<B>, d: Cache<B>) {
    && d.live.Keys + d.freed == c.live.Keys + c.freed
    && d.live.Keys <= c.live.Keys && d.entries.Keys <= c.entries.Keys
  }

  lemma ClearShrinks<B>(c: Cache<B>)
    requires Sound(c)
    ensures Shrunk(c, Clear(c))
  {
  }

  lemma MakeRoomShrinks<B>(c: Cache<B>, limit: int, t: MediaType, newLen: nat)
    requires Sound(c)
    ensures Shrunk(c, MakeRoom(c, limit, t, newLen).0)
  {
  }

  /** An insert keeps every invariant, whatever it evicts and whatever redirect key it overwrites. */
  lemma InsertKeeps<B>(c: Cache<B>, limit: int, url: Url, bytes: seq<byte>, eff: Url, isLive: bool,
                       t: MediaType, b: B)
    requires Budget(c, limit) && b !in c.live && b !in c.freed
    ensures var c' := Insert(c, limit, url, bytes, eff, isLive, t, b); Budget(c', limit)
  {
    if !((isLive && t != MANIFEST) || url in c.entries) {
      ClearKeeps(c, limit);
      ClearShrinks(c);
      MakeRoomShrinks(ForNewManifest(c, t), limit, t, |bytes|);
      var c1 := ForNewManifest(c, t);
      MakeRoomKeeps(c1, limit, t, |bytes|);
      var (c', ready) := MakeRoom(c1, limit, t, |bytes|);
      if ready {
        StoreKeeps(c', limit, url, bytes, eff, t, b);
      }
    }
  }

  /** An insert of a cacheable, unknown URL as the parts it is made of. */
  lemma InsertByParts<B>(c: Cache<B>, limit: int, url: Url, bytes: seq<byte>, eff: Url, t: MediaType, b: B,
                         room: Cache<B>, ready: bool)
    requires url !in c.entries && (room, ready) == MakeRoom(ForNewManifest(c, t), limit, t, |bytes|)
    ensures Insert(c, limit, url, bytes, eff, false, t, b)
         == if ready then Store(room, url, bytes, eff, t, b) else room
  {
  }

  /** Removing the entry frees no buffer that another one names. */
  ghost predicate Removable<B>(c: Cache<B>, url: Url) {
    || url !in c.entries || c.entries[url].duplicate
    || forall v :: v in c.entries && v != url ==> c.entries[v].buffer != c.entries[url].buffer
  }

  /** Removing an entry leaves the cache sound exactly when the entry is absent, a redirect entry, or the
      only one with its buffer. */
  lemma RemoveSoundIff<B>(c: Cache<B>, url: Url)
    requires Sound(c)
    ensures Sound(Remove(c, url)) <==> Removable(c, url)
  {
    if url in c.entries && !c.entries[url].duplicate {
      var d := Remove(c, url);
      assert c.entries[url].buffer in Owned(c.entries, {url});
      if v :| v in c.entries && v != url && c.entries[v].buffer == c.entries[url].buffer {
        assert v in d.entries && d.entries[v].buffer !in d.live;
      }
    }
  }

  /** A main entry with a redirect is such a case: removing it under its own URL frees the buffer that
      the redirect entry still names, so the promise is kept only under the condition above. */
  lemma RemoveMainWithRedirect<B>(url: Url, eff: Url, bytes: seq<byte>, t: MediaType, b: B)
    requires url != eff
    ensures var c := Store(Empty<B>(), url, bytes, eff, t, b);
            Sound(c) && !Sound(Remove(c, url)) && Sound(Remove(c, eff))
  {
    var c := Store(Empty<B>(), url, bytes, eff, t, b);
    StoreSound(Empty<B>(), url, bytes, eff, t, b);
    assert c.entries[eff].buffer == c.entries[url].buffer;
    RemoveSoundIff(c, url);
    RemoveSoundIff(c, eff);
  }

  lemma RemoveKeeps<B>(c: Cache<B>, limit: int, url: Url)
    requires Budget(c, limit) && Removable(c, url)
    ensures Budget(Remove(c, url), limit)
  {
    RemoveSoundIff(c, url);
    var d := Remove(c, url);
    var before, after := Buffers(c.entries, c.entries.Keys), Buffers(d.entries, d.entries.Keys);
    assert after <= before;
    SumAgrees(c.live, d.live, after);
    SumSubset(c.live, after, before);
  }

  /** An eviction for a playlist spares the manifest, and the other types too if the playlist's own type
      gives enough room; a refused insert has emptied every playlist type. */
  lemma EvictionRule<B>(c: Cache<B>, t: MediaType, newLen: nat, u: Url)
    requires Sound(c) && t != MANIFEST && u in c.entries
    ensures var (c', ready) := AllocateSlot(c, t, newLen);
            var own := Sum(c.live, Owned(c.entries, SameType(c, t)));
            && (c.entries[u].fileType == MANIFEST ==> u in c'.entries && c'.entries[u] == c.entries[u])
            && (own >= newLen ==> ready && (u in c'.entries <==> c.entries[u].fileType != t))
            && (own < newLen ==> (u in c'.entries <==> c.entries[u].fileType == MANIFEST))
            && (ready <==> Sum(c.live, Owned(c.entries, NonManifest(c))) >= newLen)
  {
    var same, others := Owned(c.entries, SameType(c, t)), Owned(c.entries, NonManifest(c));
    assert same <= others;
    SumSubset(c.live, same, others);
  }

  // ---------------------------------------------------------------------------------------------
  // Runs

  datatype Op<B> =
    | InsertOp(url: Url, bytes: seq<byte>, eff: Url, isLive: bool, t: MediaType, b: B)
    | RemoveOp(url: Url)
    | ClearOp

  /** The allocator returns a buffer not in use, and a removal frees none that another entry names. */
  ghost predicate Allowed<B>(c: Cache<B>, op: Op<B>) {
    match op
    case InsertOp(_, _, _, _, _, b) => b !in c.live && b !in c.freed
    case RemoveOp(url) => Removable(c, url)
    case ClearOp => true
  }

  ghost function Do<B>(c: Cache<B>, limit: int, op: Op<B>): Cache<B> {
    match op
    case InsertOp(url, bytes, eff, isLive, t, b) => Insert(c, limit, url, bytes, eff, isLive, t, b)
    case RemoveOp(url) => Remove(c, url)
    case ClearOp => Clear(c)
  }

  ghost predicate CanRun<B>(c: Cache<B>, limit: int, ops: seq<Op<B>>)
    decreases |ops|
  {
    ops == [] || (Allowed(c, ops[0]) && CanRun(Do(c, limit, ops[0]), limit, ops[1..]))
  }

  ghost function Run<B>(c: Cache<B>, limit: int, ops: seq<Op<B>>): Cache<B>
    decreases |ops|
  {
    if ops == [] then c else Run(Do(c, limit, ops[0]), limit, ops[1..])
  }

  lemma {:induction false} RunKeeps<B>(c: Cache<B>, limit: int, ops: seq<Op<B>>)
    requires Budget(c, limit) && CanRun(c, limit, ops)
    ensures Budget(Run(c, limit, ops), limit)
    decreases |ops|
  {
    if ops != [] {
      match ops[0] {
        case InsertOp(url, bytes, eff, isLive, t, b) => InsertKeeps(c, limit, url, bytes, eff, isLive, t, b);
        case RemoveOp(url) => RemoveKeeps(c, limit, url);
        case ClearOp => ClearKeeps(c, limit);
      }
      RunKeeps(Do(c, limit, ops[0]), limit, ops[1..]);
    }
  }

  /** Whether an insert stores its playlist. */
  ghost predicate Accepts<B>(c: Cache<B>, limit: int, url: Url, len: nat, isLive: bool, t: MediaType) {
    (!isLive || t == MANIFEST) && url !in c.entries && MakeRoom(ForNewManifest(c, t), limit, t, len).1
  }

  /** Whether a step stores something under u. */
  ghost predicate Writes<B>(c: Cache<B>, limit: int, op: Op<B>, u: Url) {
    op.InsertOp? && (u == op.url || u == op.eff) && Accepts(c, limit, op.url, |op.bytes|, op.isLive, op.t)
  }

  /** The last step of a run that stores something under u. */
  ghost function LastWrite<B>(c: Cache<B>, limit: int, ops: seq<Op<B>>, u: Url): (k: Option<nat>)
    ensures k.Some? ==> k.value < |ops| && ops[k.value].InsertOp?
    decreases |ops|
  {
    if ops == [] then None
    else match LastWrite(Do(c, limit, ops[0]), limit, ops[1..], u)
      case Some(k) => Some(k + 1)
      case None => if Writes(c, limit, ops[0], u) then Some(0) else None
  }

  /** What d holds, c held too, with the same bytes and effective URL. */
  ghost predicate SameHits<B>(c: Cache<B>, d: Cache<B>)
    requires Sound(c) && Sound(d)
  {
    forall u :: u in d.entries ==> u in c.entries && Retrieve(d, u) == Retrieve(c, u)
  }

  lemma DropHits<B>(c: Cache<B>, keys: set<Url>)
    requires Sound(c) && Sound(Drop(c, keys))
    ensures SameHits(c, Drop(c, keys))
  {
  }

  lemma MakeRoomHits<B>(c: Cache<B>, limit: int, t: MediaType, newLen: nat)
    requires Sound(c)
    ensures var (d, _) := MakeRoom(c, limit, t, newLen); Sound(d) && SameHits(c, d)
  {
    ClearSound(c);
    VictimsClosed(c, t, newLen);
    DropSound(c, Victims(c, t, newLen));
    DropHits(c, Victims(c, t, newLen));
  }

  lemma StoreHits<B>(c: Cache<B>, url: Url, bytes: seq<byte>, eff: Url, t: MediaType, b: B, u: Url)
    requires Sound(c) && b !in c.live && b !in c.freed && url !in c.entries
    ensures var d := Store(c, url, bytes, eff, t, b);
            && Sound(d) && (u in d.entries <==> u in c.entries || u == url || u == eff)
            && (u in d.entries ==>
                  Retrieve(d, u) == if u == url || u == eff then Some((bytes, eff)) else Retrieve(c, u))
  {
    StoreSound(c, url, bytes, eff, t, b);
  }

  /** An insert that stores leaves its bytes and effective URL under both URLs; what else it leaves was there
      before, unchanged. */
  lemma InsertHits<B>(c: Cache<B>, limit: int, url: Url, bytes: seq<byte>, eff: Url, isLive: bool, t: MediaType,
                      b: B, u: Url)
    requires Sound(c) && b !in c.live && b !in c.freed
    ensures var d := Insert(c, limit, url, bytes, eff, isLive, t, b);
            && Sound(d)
            && (Accepts(c, limit, url, |bytes|, isLive, t) && (u == url || u == eff) ==>
                  Retrieve(d, u) == Some((bytes, eff)))
            && (!(Accepts(c, limit, url, |bytes|, isLive, t) && (u == url || u == eff)) && u in d.entries ==>
                  u in c.entries && Retrieve(d, u) == Retrieve(c, u))
  {
    if !((isLive && t != MANIFEST) || url in c.entries) {
      ClearSound(c);
      ClearShrinks(c);
      var c1 := ForNewManifest(c, t);
      MakeRoomHits(c1, limit, t, |bytes|);
      MakeRoomShrinks(c1, limit, t, |bytes|);
      var (c2, ready) := MakeRoom(c1, limit, t, |bytes|);
      if ready {
        StoreHits(c2, url, bytes, eff, t, b, u);
      }
    }
  }

  lemma StepHits<B>(c: Cache<B>, limit: int, op: Op<B>, u: Url)
    requires Sound(c) && Allowed(c, op)
    ensures var d := Do(c, limit, op);
            && Sound(d)
            && (u in d.entries && Writes(c, limit, op, u) ==> Retrieve(d, u) == Some((op.bytes, op.eff)))
            && (u in d.entries && !Writes(c, limit, op, u) ==> u in c.entries && Retrieve(d, u) == Retrieve(c, u))
  {
    match op
    case InsertOp(url, bytes, eff, isLive, t, b) => InsertHits(c, limit, url, bytes, eff, isLive, t, b, u);
    case RemoveOp(url) =>
      RemoveSoundIff(c, url);
      DropHits(c, {url});
    case ClearOp => ClearSound(c);
  }

  /** A hit returns what the last insert stored under that key, or what was there before the run. */
  lemma {:induction false} HitIsLastInsert<B>(c: Cache<B>, limit: int, ops: seq<Op<B>>, u: Url)
    requires Sound(c) && CanRun(c, limit, ops)
    ensures var d := Run(c, limit, ops);
            && Sound(d)
            && (u in d.entries ==>
                  match LastWrite(c, limit, ops, u)
                  case Some(k) => Retrieve(d, u) == Some((ops[k].bytes, ops[k].eff))
                  case None => u in c.entries && Retrieve(d, u) == Retrieve(c, u))
    decreases |ops|
  {
    if ops != [] {
      StepHits(c, limit, ops[0], u);
      HitIsLastInsert(Do(c, limit, ops[0]), limit, ops[1..], u);
    }
  }

  /** From the empty cache, over any run of inserts, removals, evictions and clears: a hit returns the
      bytes and effective URL of the last insert that stored under that key; no entry names a freed buffer;
      and the distinct buffers named by entries together never exceed the counter, nor a finite limit. */
  lemma CacheIsSimpleMap<B>(limit: int, ops: seq<Op<B>>)
    requires limit == UNLIMITED || limit >= 0
    requires CanRun(Empty<B>(), limit, ops)
    ensures var c := Run(Empty<B>(), limit, ops);
            && Sound(c)
            && (forall u :: u in c.entries ==>
                  var k := LastWrite(Empty<B>(), limit, ops, u);
                  k.Some? && Retrieve(c, u) == Some((ops[k.value].bytes, ops[k.value].eff)))
            && Reach(c) <= c.stored && (limit != UNLIMITED ==> Reach(c) <= limit)
  {
    var e := Empty<B>();
    assert Buffers(e.entries, e.entries.Keys) == {};
    RunKeeps(e, limit, ops);
    forall u ensures u in Run(e, limit, ops).entries ==>
                var k := LastWrite(e, limit, ops, u);
                k.Some? && Retrieve(Run(e, limit, ops), u) == Some((ops[k.value].bytes, ops[k.value].eff))
    {
      HitIsLastInsert(e, limit, ops, u);
    }
  }
}
