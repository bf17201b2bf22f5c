/** AampCacheHandler's init-fragment cache on values. */
module InitFragCache {
  import opened Common
  import opened GrowableBuffers
  import opened CacheBuffers

  /** umInitFragCache and umCacheTrackQ. The last three fields are history: contents of buffers not yet
      freed, the buffers freed, and for each redirect key the main URL it was inserted with. */
  datatype Cache<B> = Cache(
    entries: map<Url, Entry<B>>,
    queues: map<MediaType, seq<Url>>,
    live: map<B, seq<byte>>,
    freed: set<B>,
    mainOf: map<Url, Url>)

  function Empty<B>(): Cache<B> {
    Cache(map[], map[], map[], {}, map[])
  }

  function Queue<B>(c: Cache<B>, t: MediaType): seq<Url> {
    if t in c.queues then c.queues[t] else []
  }

  /** RemoveInitFragCacheEntry, called with a queue that is not empty. */
  function RemoveOldest<B>(c: Cache<B>, t: MediaType): Cache<B>
    requires t in c.queues ==> c.queues[t] != []
  {
    if t !in c.queues || c.queues[t][0] !in c.entries then c
    else
      var main := c.queues[t][0];
      var e := c.entries[main];
      var gone := if e.duplicate then {main, e.effectiveUrl} else {main};
      c.(entries := c.entries - gone, queues := c.queues[t := c.queues[t][1..]],
      live := c.live - {e.buffer}, freed := c.freed + {e.buffer},
      mainOf := if e.duplicate then c.mainOf - {e.effectiveUrl} else c.mainOf)
  }

  predicate HasRedirect(url: Url, eff: Url) {
    |eff| > 0 && eff != url
  }

  /** The URL is queued and its buffer allocated; there is no entry for it yet. */
  function Push<B>(c: Cache<B>, url: Url, bytes: seq<byte>, t: MediaType, b: B): Cache<B> {
    c.(queues := c.queues[t := Queue(c, t) + [url]], live := c.live[b := bytes])
  }

  /** InsertToInitFragCache up to the eviction: a queue that overflows gives up its oldest entry. */
  function Enqueue<B>(c: Cache<B>, slots: int, url: Url, bytes: seq<byte>, t: MediaType, b: B): Cache<B> {
    var c1 := Push(c, url, bytes, t, b);
    if |c1.queues[t]| > AsSize(slots) then RemoveOldest(c1, t) else c1
  }

  /** The entries it then adds: the flag is set on the main entry, not on the redirect. */
  function AddEntries<B>(c: Cache<B>, url: Url, bytes: seq<byte>, eff: Url, t: MediaType, b: B): Cache<B> {
    var dup := HasRedirect(url, eff);
    var main := c.entries[url := Entry(eff, b, t, dup)];
    if dup then c.(entries := main[eff := Entry(eff, b, t, false)], mainOf := c.mainOf[eff := url])
    else c.(entries := main)
  }

  function Insert<B>(c: Cache<B>, slots: int, url: Url, bytes: seq<byte>, eff: Url, t: MediaType, b: B): Cache<B> {
    if url in c.entries then c
    else AddEntries(Enqueue(c, slots, url, bytes, t, b), url, bytes, eff, t, b)
  }

  /** The buffers ClearInitFragCache frees: those of the entries without the flag. */
  ghost function Unflagged<B>(m: map<Url, Entry<B>>): set<B> {
    set u | u in m && !m[u].duplicate :: m[u].buffer
  }

  ghost function Clear<B>(c: Cache<B>): Cache<B> {
    Cache(map[], map[], c.live - Unflagged(c.entries), c.freed + Unflagged(c.entries), map[])
  }

  function Retrieve<B>(c: Cache<B>, url: Url): Option<(seq<byte>, Url)>
    requires url in c.entries ==> c.entries[url].buffer in c.live
  {
    if url in c.entries then Some((c.live[c.entries[url].buffer], c.entries[url].effectiveUrl)) else None
  }

  // ---------------------------------------------------------------------------------------------
  // Invariant

  predicate IsMain<B>(c: Cache<B>, u: Url) {
    u in c.entries && u !in c.mainOf
  }

  ghost predicate Distinct(q: seq<Url>) {
    forall i, j :: 0 <= i < j < |q| ==> q[i] != q[j]
  }

  /** Each queue lists distinct main URLs of its type; every main URL is queued. */
  ghost predicate Queues<B>(c: Cache<B>) {
    && (forall t :: t in c.queues ==> Distinct(c.queues[t]))
    && (forall t, u :: t in c.queues && u in c.queues[t] ==> IsMain(c, u) && c.entries[u].fileType == t)
    && (forall u :: IsMain(c, u) ==> c.entries[u].fileType in c.queues && u in c.queues[c.entries[u].fileType])
  }

  /** No queue is longer than the limit, or than one entry when the limit is 0. */
  ghost predicate Bounded<B>(c: Cache<B>, slots: int) {
    forall t :: t in c.queues ==> |c.queues[t]| <= if slots == 0 then 1 else AsSize(slots)
  }

  /** Redirect entries are exactly the effective URLs of the flagged mains, share their main's buffer, and
      carry no flag. */
  ghost predicate Redirects<B>(c: Cache<B>) {
    && (forall u :: IsMain(c, u) && c.entries[u].duplicate ==>
          var e := c.entries[u];
          e.effectiveUrl in c.mainOf && c.mainOf[e.effectiveUrl] == u)
    && (forall f :: f in c.mainOf ==>
          var u := c.mainOf[f];
          && f in c.entries && IsMain(c, u)
          && c.entries[u].duplicate && c.entries[u].effectiveUrl == f
          && c.entries[f] == Entry(f, c.entries[u].buffer, c.entries[u].fileType, false))
  }

  /** The live buffers are those of the mains, one each. */
  ghost predicate Heap<B>(c: Cache<B>) {
    && (forall u :: IsMain(c, u) ==> c.entries[u].buffer in c.live)
    && (forall u, v :: IsMain(c, u) && IsMain(c, v) && u != v ==> c.entries[u].buffer != c.entries[v].buffer)
    && (forall b :: b in c.live ==> exists u :: IsMain(c, u) && c.entries[u].buffer == b)
    && c.live.Keys !! c.freed
  }

  ghost predicate Sound<B>(c: Cache<B>) {
    Queues(c) && Redirects(c) && Heap(c)
  }

  lemma DistinctTail(q: seq<Url>)
    requires Distinct(q) && q != []
    ensures Distinct(q[1..]) && forall u :: u in q <==> u == q[0] || u in q[1..]
    ensures q[0] !in q[1..]
  {
    assert q == [q[0]] + q[1..];
  }

  /** The mains after an eviction are the mains before, but for the oldest. */
  lemma MainsAfterRemove<B>(c: Cache<B>, t: MediaType)
    requires Sound(c) && t in c.queues && c.queues[t] != []
    ensures var d, main := RemoveOldest(c, t), c.queues[t][0];
            && IsMain(c, main) && c.entries[main].fileType == t
            && forall u :: IsMain(d, u) <==> IsMain(c, u) && u != main
  {
    var main := c.queues[t][0];
    assert main in c.queues[t];
  }

  /** The queues without the front of one, when that main is gone and the other mains are as they were. */
  lemma QueuesWithoutFront<B>(c: Cache<B>, d: Cache<B>, t: MediaType)
    requires Queues(c) && t in c.queues && c.queues[t] != [] && d.queues == c.queues[t := c.queues[t][1..]]
    requires forall u :: IsMain(d, u) <==> IsMain(c, u) && u != c.queues[t][0]
    requires forall u :: IsMain(d, u) ==> d.entries[u] == c.entries[u]
    ensures Queues(d)
  {
    var front := c.queues[t][0];
    DistinctTail(c.queues[t]);
    assert front in c.queues[t];
    forall s, u | s in d.queues && u in d.queues[s] ensures IsMain(d, u) && d.entries[u].fileType == s {
      assert u in c.queues[s];
      assert IsMain(c, u) && c.entries[u].fileType == s;
      assert u != front;
    }
    forall u | IsMain(d, u) ensures d.entries[u].fileType in d.queues && u in d.queues[d.entries[u].fileType] {
      assert IsMain(c, u) && u in c.queues[c.entries[u].fileType];
    }
  }

  lemma RemoveOldestQueues<B>(c: Cache<B>, t: MediaType)
    requires Sound(c) && t in c.queues && c.queues[t] != []
    ensures Queues(RemoveOldest(c, t))
  {
    MainsAfterRemove(c, t);
    LosesOldest(c, t);
    RemoveOldestShape(c, t);
    QueuesWithoutFront(c, RemoveOldest(c, t), t);
  }

  /** d is c without the main entry u and its redirect. */
  ghost predicate Loses<B>(c: Cache<B>, d: Cache<B>, u: Url)
    requires u in c.entries
  {
    var e := c.entries[u];
    var redirect := if e.duplicate then {e.effectiveUrl} else {};
    && d.entries.Keys == c.entries.Keys - {u} - redirect
    && (forall v :: v in d.entries ==> d.entries[v] == c.entries[v])
    && d.mainOf.Keys == c.mainOf.Keys - redirect
    && (forall f :: f in d.mainOf ==> d.mainOf[f] == c.mainOf[f])
  }

  lemma LosesOldest<B>(c: Cache<B>, t: MediaType)
    requires t in c.queues && c.queues[t] != [] && c.queues[t][0] in c.entries
    ensures Loses(c, RemoveOldest(c, t), c.queues[t][0])
  {
  }

  lemma LostRedirects<B>(c: Cache<B>, d: Cache<B>, u: Url)
    requires Redirects(c) && IsMain(c, u) && Loses(c, d, u)
    requires forall v :: IsMain(d, v) <==> IsMain(c, v) && v != u
    ensures Redirects(d)
  {
  }

  lemma RemoveOldestRedirects<B>(c: Cache<B>, t: MediaType)
    requires Sound(c) && t in c.queues && c.queues[t] != []
    ensures Redirects(RemoveOldest(c, t))
  {
    MainsAfterRemove(c, t);
    LosesOldest(c, t);
    LostRedirects(c, RemoveOldest(c, t), c.queues[t][0]);
  }

  lemma RemoveOldestHeap<B>(c: Cache<B>, t: MediaType)
    requires Sound(c) && t in c.queues && c.queues[t] != []
    ensures Heap(RemoveOldest(c, t))
  {
    var d, main := RemoveOldest(c, t), c.queues[t][0];
    MainsAfterRemove(c, t);
    forall b | b in d.live ensures exists u :: IsMain(d, u) && d.entries[u].buffer == b {
      var u :| IsMain(c, u) && c.entries[u].buffer == b;
      assert u != main;
    }
  }

  lemma RemoveOldestSound<B>(c: Cache<B>, t: MediaType)
    requires Sound(c) && t in c.queues && c.queues[t] != []
    ensures Sound(RemoveOldest(c, t))
  {
    RemoveOldestQueues(c, t);
    RemoveOldestRedirects(c, t);
    RemoveOldestHeap(c, t);
  }

  // ---------------------------------------------------------------------------------------------
  // Insertion

  /** The cache an insert adds to: c, or c without the oldest entry of a full queue. */
  function Trimmed<B>(c: Cache<B>, slots: int, t: MediaType): Cache<B> {
    if Queue(c, t) != [] && |Queue(c, t)| + 1 > AsSize(slots) then RemoveOldest(c, t) else c
  }

  lemma UpdateThenDrop<K, V>(m: map<K, V>, k: K, v: V, gone: K)
    requires k != gone
    ensures m[k := v] - {gone} == (m - {gone})[k := v]
  {
  }

  lemma SnocThenTail(qs: map<MediaType, seq<Url>>, t: MediaType, q: seq<Url>, url: Url)
    requires q != []
    ensures qs[t := q + [url]][t := (q + [url])[1..]] == qs[t := q[1..]][t := q[1..] + [url]]
  {
    assert (q + [url])[1..] == q[1..] + [url];
  }

  lemma RemoveOldestAfterPush<B>(c: Cache<B>, url: Url, bytes: seq<byte>, t: MediaType, b: B)
    requires t in c.queues && c.queues[t] != [] && c.queues[t][0] in c.entries
    requires c.entries[c.queues[t][0]].buffer != b
    ensures RemoveOldest(Push(c, url, bytes, t, b), t) == Push(RemoveOldest(c, t), url, bytes, t, b)
  {
    var q := c.queues[t];
    var e := c.entries[q[0]];
    assert (q + [url])[0] == q[0];
    SnocThenTail(c.queues, t, q, url);
    UpdateThenDrop(c.live, b, bytes, e.buffer);
  }

  /** The front of the queue, if it has an entry, has a live buffer. */
  predicate FrontLive<B>(c: Cache<B>, t: MediaType) {
    t in c.queues ==>
      c.queues[t] != []
      && (c.queues[t][0] in c.entries ==>
            var x := c.entries[c.queues[t][0]].buffer; x in c.live && x !in c.freed)
  }

  /** The URL that an overflow evicts, if any, has a live buffer of its own. */
  lemma FrontAfterPush<B>(c: Cache<B>, url: Url, bytes: seq<byte>, t: MediaType, b: B)
    requires Sound(c) && url !in c.entries && b !in c.live && b !in c.freed
    ensures FrontLive(Push(c, url, bytes, t, b), t)
  {
    var q := Queue(c, t);
    if q != [] {
      assert q[0] in c.queues[t] && IsMain(c, q[0]);
      assert (q + [url])[0] == q[0];
    }
  }

  /** Evicting after the new URL was queued is evicting before. */
  lemma EvictionCommutes<B>(c: Cache<B>, slots: int, url: Url, bytes: seq<byte>, t: MediaType, b: B)
    requires Sound(c) && url !in c.entries && b !in c.live && b !in c.freed
    ensures Enqueue(c, slots, url, bytes, t, b) == Push(Trimmed(c, slots, t), url, bytes, t, b)
  {
    var q := Queue(c, t);
    if q != [] {
      assert q[0] in c.queues[t] && IsMain(c, q[0]);
      RemoveOldestAfterPush(c, url, bytes, t, b);
    } else {
      assert [] + [url] == [url];
    }
  }

  lemma TrimmedSound<B>(c: Cache<B>, slots: int, t: MediaType)
    requires Sound(c)
    ensures Sound(Trimmed(c, slots, t))
  {
    if Queue(c, t) != [] {
      RemoveOldestSound(c, t);
    }
  }

  /** A trimmed cache and the insert that follows. */
  function Added<B>(d: Cache<B>, url: Url, bytes: seq<byte>, eff: Url, t: MediaType, b: B): Cache<B> {
    AddEntries(Push(d, url, bytes, t, b), url, bytes, eff, t, b)
  }

  predicate Collides<B>(d: Cache<B>, url: Url, eff: Url) {
    HasRedirect(url, eff) && eff in d.entries
  }

  /** e is d with one more main, its redirect if it has one, and their buffer. */
  ghost predicate Extends<B>(d: Cache<B>, e: Cache<B>, url: Url, eff: Url, t: MediaType, b: B) {
    var redirect := if HasRedirect(url, eff) then {eff} else {};
    && e.entries.Keys == d.entries.Keys + {url} + redirect
    && (forall u :: u in d.entries ==> e.entries[u] == d.entries[u])
    && e.entries[url] == Entry(eff, b, t, HasRedirect(url, eff))
    && (HasRedirect(url, eff) ==> e.entries[eff] == Entry(eff, b, t, false))
    && e.mainOf.Keys == d.mainOf.Keys + redirect
    && (forall f :: f in d.mainOf ==> e.mainOf[f] == d.mainOf[f])
    && (HasRedirect(url, eff) ==> e.mainOf[eff] == url)
  }

  /** The heap and the queues grow by the new buffer and URL. */
  ghost predicate Grows<B>(d: Cache<B>, e: Cache<B>, url: Url, bytes: seq<byte>, t: MediaType, b: B) {
    e.queues == d.queues[t := Queue(d, t) + [url]] && e.live == d.live[b := bytes] && e.freed == d.freed
  }

  lemma AddedExtends<B>(d: Cache<B>, url: Url, bytes: seq<byte>, eff: Url, t: MediaType, b: B)
    requires Redirects(d) && url !in d.entries && !Collides(d, url, eff)
    ensures var e := Added(d, url, bytes, eff, t, b);
            Extends(d, e, url, eff, t, b) && Grows(d, e, url, bytes, t, b)
  {
  }

  lemma ExtendedMains<B>(d: Cache<B>, e: Cache<B>, url: Url, eff: Url, t: MediaType, b: B)
    requires Redirects(d) && url !in d.entries && !Collides(d, url, eff) && Extends(d, e, url, eff, t, b)
    ensures forall u :: IsMain(e, u) <==> IsMain(d, u) || u == url
  {
  }

  lemma AddedQueues<B>(d: Cache<B>, e: Cache<B>, url: Url, bytes: seq<byte>, eff: Url, t: MediaType, b: B)
    requires Queues(d) && url !in d.entries && Extends(d, e, url, eff, t, b) && Grows(d, e, url, bytes, t, b)
    requires forall u :: IsMain(e, u) <==> IsMain(d, u) || u == url
    ensures Queues(e)
  {
    var q := Queue(d, t);
    assert forall u :: u in q + [url] <==> u in q || u == url;
    assert url !in q;
    assert Distinct(q + [url]);
  }

  lemma AddedRedirects<B>(d: Cache<B>, e: Cache<B>, url: Url, eff: Url, t: MediaType, b: B)
    requires Redirects(d) && url !in d.entries && !Collides(d, url, eff) && Extends(d, e, url, eff, t, b)
    requires forall u :: IsMain(e, u) <==> IsMain(d, u) || u == url
    ensures Redirects(e)
  {
  }

  lemma AddedHeap<B>(d: Cache<B>, e: Cache<B>, url: Url, bytes: seq<byte>, eff: Url, t: MediaType, b: B)
    requires Heap(d) && Extends(d, e, url, eff, t, b) && Grows(d, e, url, bytes, t, b)
    requires b !in d.live && b !in d.freed
    requires forall u :: IsMain(e, u) <==> IsMain(d, u) || u == url
    ensures Heap(e)
  {
    AddedNamed(d, e, url, bytes, eff, t, b);
    AddedApart(d, e, url, eff, t, b);
  }

  /** Every live buffer belongs to a main, and every main has one. */
  lemma AddedNamed<B>(d: Cache<B>, e: Cache<B>, url: Url, bytes: seq<byte>, eff: Url, t: MediaType, b: B)
    requires Heap(d) && Extends(d, e, url, eff, t, b) && Grows(d, e, url, bytes, t, b)
    requires forall u :: IsMain(e, u) <==> IsMain(d, u) || u == url
    ensures forall x :: x in e.live ==> exists u :: IsMain(e, u) && e.entries[u].buffer == x
    ensures forall u :: IsMain(e, u) ==> e.entries[u].buffer in e.live
  {
    forall x | x in e.live ensures exists u :: IsMain(e, u) && e.entries[u].buffer == x {
      if x == b {
        assert IsMain(e, url) && e.entries[url].buffer == b;
      } else {
        var u :| IsMain(d, u) && d.entries[u].buffer == x;
        assert IsMain(e, u);
      }
    }
  }

  /** The mains still have buffers of their own. */
  lemma AddedApart<B>(d: Cache<B>, e: Cache<B>, url: Url, eff: Url, t: MediaType, b: B)
    requires Heap(d) && Extends(d, e, url, eff, t, b) && b !in d.live
    requires forall u :: IsMain(e, u) <==> IsMain(d, u) || u == url
    ensures forall u, v :: IsMain(e, u) && IsMain(e, v) && u != v ==> e.entries[u].buffer != e.entries[v].buffer
  {
  }

  lemma CollisionUnsound<B>(d: Cache<B>, url: Url, bytes: seq<byte>, eff: Url, t: MediaType, b: B)
    requires Sound(d) && url !in d.entries && Collides(d, url, eff)
    ensures !Sound(Added(d, url, bytes, eff, t, b))
  {
    if IsMain(d, eff) {
      CollidesWithMain(d, url, bytes, eff, t, b);
    } else {
      CollidesWithRedirect(d, url, bytes, eff, t, b);
    }
  }

  /** The main's URL stays in its queue and is no main any more. */
  lemma CollidesWithMain<B>(d: Cache<B>, url: Url, bytes: seq<byte>, eff: Url, t: MediaType, b: B)
    requires Queues(d) && HasRedirect(url, eff) && IsMain(d, eff)
    ensures !Queues(Added(d, url, bytes, eff, t, b))
  {
    var e, s := Added(d, url, bytes, eff, t, b), d.entries[eff].fileType;
    assert eff in e.queues[s] && !IsMain(e, eff);
  }

  /** The redirect's first main has lost it. */
  lemma CollidesWithRedirect<B>(d: Cache<B>, url: Url, bytes: seq<byte>, eff: Url, t: MediaType, b: B)
    requires Redirects(d) && url !in d.entries && HasRedirect(url, eff) && eff in d.mainOf
    ensures !Redirects(Added(d, url, bytes, eff, t, b))
  {
    var e, m := Added(d, url, bytes, eff, t, b), d.mainOf[eff];
    assert IsMain(e, m) && e.entries[m].duplicate && e.mainOf[eff] == url;
  }

  /** An insert of a new URL keeps the cache sound exactly when its redirect URL, if it has one, is not a
      key of the cache left after the eviction. */
  lemma InsertSoundIff<B>(c: Cache<B>, slots: int, url: Url, bytes: seq<byte>, eff: Url, t: MediaType, b: B)
    requires Sound(c) && url !in c.entries && b !in c.live && b !in c.freed
    ensures Sound(Insert(c, slots, url, bytes, eff, t, b)) <==> !Collides(Trimmed(c, slots, t), url, eff)
  {
    var d := Trimmed(c, slots, t);
    EvictionCommutes(c, slots, url, bytes, t, b);
    TrimmedSound(c, slots, t);
    TrimmedAvoids(c, slots, t, url, b);
    if Collides(d, url, eff) {
      CollisionUnsound(d, url, bytes, eff, t, b);
    } else {
      var e := Added(d, url, bytes, eff, t, b);
      AddedExtends(d, url, bytes, eff, t, b);
      ExtendedMains(d, e, url, eff, t, b);
      AddedQueues(d, e, url, bytes, eff, t, b);
      AddedRedirects(d, e, url, eff, t, b);
      AddedHeap(d, e, url, bytes, eff, t, b);
    }
  }

  lemma TrimmedAvoids<B>(c: Cache<B>, slots: int, t: MediaType, url: Url, b: B)
    requires Sound(c) && url !in c.entries && b !in c.live && b !in c.freed
    ensures var d := Trimmed(c, slots, t); url !in d.entries && b !in d.live && b !in d.freed
  {
    if Queue(c, t) != [] {
      MainsAfterRemove(c, t);
    }
  }

  /** The keys of a main entry and of its redirect. */
  function KeysOf<B>(c: Cache<B>, u: Url): set<Url>
    requires u in c.entries
  {
    if c.entries[u].duplicate then {u, c.entries[u].effectiveUrl} else {u}
  }

  lemma RemoveOldestShape<B>(c: Cache<B>, t: MediaType)
    requires t in c.queues && c.queues[t] != [] && c.queues[t][0] in c.entries
    ensures var d, u := RemoveOldest(c, t), c.queues[t][0];
            && d.queues == c.queues[t := c.queues[t][1..]]
            && d.entries.Keys == c.entries.Keys - KeysOf(c, u)
            && d.freed == c.freed + {c.entries[u].buffer}
  {
  }

  lemma AddedShape<B>(d: Cache<B>, url: Url, bytes: seq<byte>, eff: Url, t: MediaType, b: B)
    ensures var e := Added(d, url, bytes, eff, t, b);
            && e.queues == d.queues[t := Queue(d, t) + [url]]
            && e.entries.Keys == d.entries.Keys + (if HasRedirect(url, eff) then {url, eff} else {url})
            && e.freed == d.freed
  {
  }

  /** First in, first out, per type: the new URL goes to the back of its queue; when the queue was full the
      front leaves it, and exactly that URL, its redirect and its buffer leave the cache. */
  lemma InsertIsFifo<B>(c: Cache<B>, slots: int, url: Url, bytes: seq<byte>, eff: Url, t: MediaType, b: B)
    requires Sound(c) && url !in c.entries && b !in c.live && b !in c.freed
    ensures var e, q := Insert(c, slots, url, bytes, eff, t, b), Queue(c, t);
            var added := if eff != "" && eff != url then {url, eff} else {url};
            if q == [] || |q| + 1 <= (if slots < 0 then slots + 0x1_0000_0000_0000_0000 else slots) then
              && e.queues == c.queues[t := q + [url]]
              && e.entries.Keys == c.entries.Keys + added && e.freed == c.freed
            else
              && e.queues == c.queues[t := q[1..] + [url]]
              && q[0] in c.entries && e.entries.Keys == c.entries.Keys - KeysOf(c, q[0]) + added
              && e.freed == c.freed + {c.entries[q[0]].buffer}
  {
    EvictionCommutes(c, slots, url, bytes, t, b);
    AddedShape(Trimmed(c, slots, t), url, bytes, eff, t, b);
    if Queue(c, t) != [] {
      MainsAfterRemove(c, t);
      RemoveOldestShape(c, t);
    }
  }

  lemma TrimmedEntry<B>(c: Cache<B>, slots: int, t: MediaType, u: Url)
    requires Sound(c) && u in Trimmed(c, slots, t).entries
    ensures u in c.entries && Trimmed(c, slots, t).entries[u] == c.entries[u]
  {
    if Queue(c, t) != [] {
      MainsAfterRemove(c, t);
      LosesOldest(c, t);
    }
  }

  lemma AddedEntries<B>(d: Cache<B>, e: Cache<B>, url: Url, bytes: seq<byte>, eff: Url, t: MediaType, b: B, u: Url)
    requires e == Added(d, url, bytes, eff, t, b)
    ensures url in e.entries && e.entries[url] == Entry(eff, b, t, eff != "" && eff != url)
    ensures eff != "" && eff != url ==> eff in e.entries && e.entries[eff] == Entry(eff, b, t, false)
    ensures u in e.entries && u != url && (eff == "" || u != eff) ==> u in d.entries && e.entries[u] == d.entries[u]
    ensures b in e.live && e.live[b] == bytes
  {
  }

  /** What an insert puts under its URLs: the main entry is flagged exactly when the effective URL is neither empty
      nor the URL itself, and only then is there a redirect entry; every other entry was there before. */
  lemma InsertEntries<B>(c: Cache<B>, slots: int, url: Url, bytes: seq<byte>, eff: Url, t: MediaType, b: B, u: Url)
    requires Sound(c) && url !in c.entries && b !in c.live && b !in c.freed
    ensures var e := Insert(c, slots, url, bytes, eff, t, b);
            && url in e.entries && e.entries[url] == Entry(eff, b, t, eff != "" && eff != url)
            && (eff != "" && eff != url ==> eff in e.entries && e.entries[eff] == Entry(eff, b, t, false))
            && (u in e.entries && u != url && (eff == "" || u != eff) ==>
                  u in c.entries && e.entries[u] == c.entries[u])
            && b in e.live && e.live[b] == bytes
  {
    EvictionCommutes(c, slots, url, bytes, t, b);
    var d := Trimmed(c, slots, t);
    AddedEntries(d, Added(d, url, bytes, eff, t, b), url, bytes, eff, t, b, u);
    if u in d.entries {
      TrimmedEntry(c, slots, t, u);
    }
  }

  lemma InsertBounded<B>(c: Cache<B>, slots: int, url: Url, bytes: seq<byte>, eff: Url, t: MediaType, b: B)
    requires Sound(c) && Bounded(c, slots) && b !in c.live && b !in c.freed && -0x8000_0000 <= slots
    ensures Bounded(Insert(c, slots, url, bytes, eff, t, b), slots)
  {
    if url !in c.entries {
      InsertIsFifo(c, slots, url, bytes, eff, t, b);
    }
  }

  // ---------------------------------------------------------------------------------------------
  // Clearing

  /** An unflagged entry is a main without redirect, or the redirect of a flagged main. */
  lemma UnflaggedMain<B>(c: Cache<B>, u: Url)
    requires Redirects(c) && u in c.entries && !c.entries[u].duplicate
    ensures var m := MainOf(c, u);
            && IsMain(c, m) && c.entries[m].buffer == c.entries[u].buffer
            && (m != u ==> c.entries[m].duplicate && c.entries[m].effectiveUrl == u)
  {
  }

  lemma UnflaggedAll<B>(c: Cache<B>)
    requires Redirects(c) && Heap(c)
    ensures Unflagged(c.entries) == c.live.Keys
  {
    forall b | b in c.live ensures b in Unflagged(c.entries) {
      var u :| IsMain(c, u) && c.entries[u].buffer == b;
      if c.entries[u].duplicate {
        var f := c.entries[u].effectiveUrl;
        assert f in c.entries && !c.entries[f].duplicate && c.entries[f].buffer == b;
      }
    }
    forall u | u in c.entries && !c.entries[u].duplicate ensures c.entries[u].buffer in c.live {
      UnflaggedMain(c, u);
    }
  }

  lemma UnflaggedDistinct<B>(c: Cache<B>, u: Url, v: Url)
    requires Redirects(c) && Heap(c) && u in c.entries && v in c.entries && u != v
    requires !c.entries[u].duplicate && !c.entries[v].duplicate
    ensures c.entries[u].buffer != c.entries[v].buffer
  {
    UnflaggedMain(c, u);
    UnflaggedMain(c, v);
  }

  /** Although the flag sits on the wrong entry, ClearInitFragCache frees every live buffer, each through
      one entry only. */
  lemma ClearFreesEachOnce<B>(c: Cache<B>)
    requires Sound(c)
    ensures Unflagged(c.entries) == c.live.Keys
    ensures forall u, v :: (u in c.entries && v in c.entries && u != v
                            && !c.entries[u].duplicate && !c.entries[v].duplicate) ==>
              c.entries[u].buffer != c.entries[v].buffer
    ensures Sound(Clear(c)) && Clear(c).live == map[] && Clear(c).freed == c.live.Keys + c.freed
  {
    UnflaggedAll(c);
    forall u, v | u in c.entries && v in c.entries && u != v && !c.entries[u].duplicate && !c.entries[v].duplicate
      ensures c.entries[u].buffer != c.entries[v].buffer
    {
      UnflaggedDistinct(c, u, v);
    }
    EmptySound(Clear(c));
  }

  ghost function UnflaggedIn<B>(m: map<Url, Entry<B>>, keys: set<Url>): set<B> {
    set u | u in keys && u in m && !m[u].duplicate :: m[u].buffer
  }

  lemma UnflaggedNext<B>(c: Cache<B>, done: set<Url>, u: Url)
    requires Sound(c) && u in c.entries && u !in done
    ensures UnflaggedIn(c.entries, done + {u})
         == UnflaggedIn(c.entries, done) + (if c.entries[u].duplicate then {} else {c.entries[u].buffer})
    ensures !c.entries[u].duplicate ==>
              c.entries[u].buffer !in UnflaggedIn(c.entries, done) && c.entries[u].buffer in c.live
  {
    UnflaggedGrows(c.entries, done, u);
    if !c.entries[u].duplicate {
      UnflaggedMain(c, u);
      UnflaggedApart(c, done, u);
    }
  }

  lemma UnflaggedGrows<B>(m: map<Url, Entry<B>>, done: set<Url>, u: Url)
    requires u in m
    ensures UnflaggedIn(m, done + {u}) == UnflaggedIn(m, done) + (if m[u].duplicate then {} else {m[u].buffer})
  {
  }

  lemma UnflaggedApart<B>(c: Cache<B>, done: set<Url>, u: Url)
    requires Redirects(c) && Heap(c) && u in c.entries && u !in done && !c.entries[u].duplicate
    ensures c.entries[u].buffer !in UnflaggedIn(c.entries, done)
  {
    forall v | v in done && v in c.entries && !c.entries[v].duplicate ensures c.entries[v].buffer != c.entries[u].buffer {
      UnflaggedDistinct(c, u, v);
    }
  }

  /** The heap while a clear that started at c has dealt with the keys in done. */
  ghost predicate Progress<B>(c: Cache<B>, done: set<Url>, live: map<B, seq<byte>>, freed: set<B>) {
    live == c.live - UnflaggedIn(c.entries, done) && freed == c.freed + UnflaggedIn(c.entries, done)
  }

  /** An unflagged entry not yet dealt with still has its buffer. */
  lemma ProgressNext<B>(c: Cache<B>, done: set<Url>, u: Url, live: map<B, seq<byte>>, freed: set<B>)
    requires Sound(c) && Progress(c, done, live, freed) && u in c.entries && u !in done
    ensures c.entries[u].duplicate ==> Progress(c, done + {u}, live, freed)
    ensures !c.entries[u].duplicate ==>
              && c.entries[u].buffer in live && c.entries[u].buffer !in freed
              && Progress(c, done + {u}, live - {c.entries[u].buffer}, freed + {c.entries[u].buffer})
  {
    UnflaggedNext(c, done, u);
    var gone, gone' := UnflaggedIn(c.entries, done), UnflaggedIn(c.entries, done + {u});
    if c.entries[u].duplicate {
      assert gone' == gone;
    } else {
      NextSets(c.live, c.freed, gone, c.entries[u].buffer, gone');
    }
  }

  lemma NextSets<B>(live: map<B, seq<byte>>, freed: set<B>, gone: set<B>, b: B, gone': set<B>)
    requires gone' == gone + {b}
    ensures live - gone - {b} == live - gone' && freed + gone + {b} == freed + gone'
  {
  }

  /** What the clear leaves once every entry was dealt with. */
  lemma Cleared<B>(c: Cache<B>, live: map<B, seq<byte>>, freed: set<B>)
    requires Sound(c) && Progress(c, c.entries.Keys, live, freed)
    ensures Cache(map[], map[], live, freed, map[]) == Clear(c) && Sound(Clear(c))
  {
    assert UnflaggedIn(c.entries, c.entries.Keys) == Unflagged(c.entries);
    ClearFreesEachOnce(c);
  }

  lemma ProgressStart<B>(c: Cache<B>)
    ensures Progress(c, {}, c.live, c.freed)
  {
    assert UnflaggedIn(c.entries, {}) == {} && c.live - {} == c.live;
  }

  lemma EmptySound<B>(c: Cache<B>)
    requires c.entries == map[] && c.queues == map[] && c.live == map[] && c.mainOf == map[]
    ensures Sound(c)
  {
  }

  function MainOf<B>(c: Cache<B>, u: Url): Url {
    if u in c.mainOf then c.mainOf[u] else u
  }
}
