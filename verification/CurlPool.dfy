/** CurlStore on values: a per-host pool of curl handles with user counts, age expiry and eviction of the
    least recently used idle host. */
module CurlPool {
  import opened Common

  type Host = string

  /** A CURL pointer; NULL stands for NULL. */
  type Handle = nat
  const NULL: Handle := 0

  const MAX_AGE_TIME: int := 300 * 1000

  /** CurlHandleStruct. */
  datatype Free = Free(curl: Handle, curlId: int, ts: int)

  /** CurlSocketStoreStruct. */
  datatype Sock = Sock(freeQ: seq<Free>, users: nat, timestamp: int)

  // ---------------------------------------------------------------------------------------------
  // The free queue

  datatype Lookup = Lookup(handle: Handle, rest: seq<Free>, cleaned: seq<Handle>)

  predicate YoungMatch(f: Free, maxAge: int, id: int) {
    maxAge < f.ts && f.curlId == id
  }

  /** Position of the first entry from `from` on that is young enough and has the id, or the length. */
  function FirstYoung(q: seq<Free>, maxAge: int, id: int, from: nat): (k: nat)
    requires from <= |q|
    ensures from <= k <= |q|
    ensures forall j :: from <= j < k ==> !YoungMatch(q[j], maxAge, id)
    ensures k < |q| ==> YoungMatch(q[k], maxAge, id)
    decreases |q| - from
  {
    if from == |q| || YoungMatch(q[from], maxAge, id) then from else FirstYoung(q, maxAge, id, from + 1)
  }

  /** GetCurlHandleFromFreeQ: expired entries at the front are cleaned up; then the front is taken if its
      id matches, else the first younger match behind it. */
  function GetFromFreeQ(q: seq<Free>, maxAge: int, id: int): Lookup {
    if q == [] then Lookup(NULL, [], [])
    else if maxAge > q[0].ts then
      var r := GetFromFreeQ(q[1..], maxAge, id);
      r.(cleaned := [q[0].curl] + r.cleaned)
    else if q[0].curlId == id then Lookup(q[0].curl, q[1..], [])
    else
      var k := FirstYoung(q, maxAge, id, 1);
      if k < |q| then Lookup(q[k].curl, q[..k] + q[k + 1..], []) else Lookup(NULL, q, [])
  }

  function Handles(q: seq<Free>): (hs: seq<Handle>)
    ensures |hs| == |q|
    ensures forall i :: 0 <= i < |q| ==> hs[i] == q[i].curl
  {
    seq(|q|, i requires 0 <= i < |q| => q[i].curl)
  }

  predicate Sorted(q: seq<Free>) {
    forall i, j :: 0 <= i < j < |q| ==> q[i].ts <= q[j].ts
  }

  /** The entry at k was taken from behind n expired ones: the first with the id that is strictly younger than
      the limit, or the first of all. */
  ghost predicate Takes(q: seq<Free>, maxAge: int, id: int, n: nat, k: nat, r: Lookup) {
    && n <= k < |q| && q[k].curlId == id && q[k].ts >= maxAge
    && (forall m :: n <= m < k && q[m].curlId == id ==> q[m].ts <= maxAge)
    && r.handle == q[k].curl && r.rest == q[n..k] + q[k + 1..]
  }

  /** Nothing was taken: no entry with the id is strictly younger than the limit. */
  ghost predicate Misses(q: seq<Free>, maxAge: int, id: int, n: nat, r: Lookup) {
    && n <= |q| && r.handle == NULL && r.rest == q[n..]
    && forall k :: n <= k < |q| && q[k].curlId == id ==> q[k].ts <= maxAge
  }

  function Expired(q: seq<Free>, maxAge: int): (n: nat)
    ensures n <= |q|
    ensures forall i :: 0 <= i < n ==> q[i].ts < maxAge
    ensures n < |q| ==> q[n].ts >= maxAge
  {
    if q == [] || q[0].ts >= maxAge then 0
    else
      var n := Expired(q[1..], maxAge);
      assert forall i :: 1 <= i < n + 1 ==> q[i] == q[1..][i - 1];
      n + 1
  }

  /** On a queue in timestamp order the lookup cleans up exactly the expired entries, then takes one entry
      of the right id and age, keeping the others in order, or none, and then no strictly younger one of
      that id was there. */
  lemma {:induction false} LookupExact(q: seq<Free>, maxAge: int, id: int)
    requires Sorted(q)
    ensures var r, n := GetFromFreeQ(q, maxAge, id), Expired(q, maxAge);
            && r.cleaned == Handles(q[..n])
            && ((exists k: nat :: Takes(q, maxAge, id, n, k, r)) || Misses(q, maxAge, id, n, r))
    ensures forall i :: 0 <= i < |q| ==> (i < Expired(q, maxAge) <==> q[i].ts < maxAge)
  {
    if q != [] && maxAge > q[0].ts {
      LookupExact(q[1..], maxAge, id);
      LookupExactExpired(q, maxAge, id);
    } else {
      LookupExactFront(q, maxAge, id);
    }
  }

  lemma LookupExactFront(q: seq<Free>, maxAge: int, id: int)
    requires Sorted(q) && (q == [] || maxAge <= q[0].ts)
    ensures var r, n := GetFromFreeQ(q, maxAge, id), Expired(q, maxAge);
            && n == 0 && r.cleaned == Handles(q[..n])
            && ((exists k: nat :: Takes(q, maxAge, id, n, k, r)) || Misses(q, maxAge, id, n, r))
  {
    var r := GetFromFreeQ(q, maxAge, id);
    assert q[..0] == [];
    if q != [] {
      if q[0].curlId == id {
        assert q[0..0] + q[1..] == q[1..];
        assert Takes(q, maxAge, id, 0, 0, r);
      } else {
        var k := FirstYoung(q, maxAge, id, 1);
        if k < |q| {
          assert Takes(q, maxAge, id, 0, k, r);
        }
      }
    }
  }

  lemma ExpiredFront(q: seq<Free>, maxAge: int, id: int)
    requires q != [] && maxAge > q[0].ts
    ensures Expired(q, maxAge) == Expired(q[1..], maxAge) + 1
    ensures var r, s := GetFromFreeQ(q, maxAge, id), GetFromFreeQ(q[1..], maxAge, id);
            r == s.(cleaned := [q[0].curl] + s.cleaned)
  {
  }

  lemma HandlesFront(q: seq<Free>, n: nat)
    requires n < |q|
    ensures Handles(q[..n + 1]) == [q[0].curl] + Handles(q[1..][..n])
  {
    assert q[..n + 1] == [q[0]] + q[1..][..n];
  }

  lemma LookupExactExpired(q: seq<Free>, maxAge: int, id: int)
    requires q != [] && maxAge > q[0].ts
    requires var t := q[1..]; var r, n := GetFromFreeQ(t, maxAge, id), Expired(t, maxAge);
             && r.cleaned == Handles(t[..n])
             && ((exists k: nat :: Takes(t, maxAge, id, n, k, r)) || Misses(t, maxAge, id, n, r))
    ensures var r, n := GetFromFreeQ(q, maxAge, id), Expired(q, maxAge);
            && r.cleaned == Handles(q[..n])
            && ((exists k: nat :: Takes(q, maxAge, id, n, k, r)) || Misses(q, maxAge, id, n, r))
  {
    var t := q[1..];
    var r, s, m := GetFromFreeQ(q, maxAge, id), GetFromFreeQ(t, maxAge, id), Expired(t, maxAge);
    ExpiredFront(q, maxAge, id);
    HandlesFront(q, m);
    if exists k: nat :: Takes(t, maxAge, id, m, k, s) {
      var k: nat :| Takes(t, maxAge, id, m, k, s);
      TakesBehind(q, maxAge, id, m, k, s, r);
    } else {
      MissesBehind(q, maxAge, id, m, s, r);
    }
  }

  lemma TakesBehind(q: seq<Free>, maxAge: int, id: int, m: nat, k: nat, s: Lookup, r: Lookup)
    requires q != [] && Takes(q[1..], maxAge, id, m, k, s) && r.handle == s.handle && r.rest == s.rest
    ensures Takes(q, maxAge, id, m + 1, k + 1, r)
  {
    var t := q[1..];
    assert t[m..k] == q[m + 1..k + 1];
    assert t[k + 1..] == q[k + 2..];
  }

  lemma MissesBehind(q: seq<Free>, maxAge: int, id: int, m: nat, s: Lookup, r: Lookup)
    requires q != [] && Misses(q[1..], maxAge, id, m, s) && r.handle == s.handle && r.rest == s.rest
    ensures Misses(q, maxAge, id, m + 1, r)
  {
    assert q[m + 1..] == q[1..][m..];
    assert forall k :: m + 1 <= k < |q| ==> q[k] == q[1..][k - 1];
  }

  /** The handles in a sequence, NULL not counted. */
  function Bag(hs: seq<Handle>): multiset<Handle> {
    multiset(hs)[NULL := 0]
  }

  lemma BagConcat(a: seq<Handle>, b: seq<Handle>)
    ensures Bag(a + b) == Bag(a) + Bag(b)
  {
    assert multiset(a + b) == multiset(a) + multiset(b);
  }

  lemma HandlesConcat(a: seq<Free>, b: seq<Free>)
    ensures Handles(a + b) == Handles(a) + Handles(b)
  {
  }

  lemma BagOfTaken(q: seq<Free>, k: nat)
    requires k < |q|
    ensures Bag(Handles(q)) == Bag(Handles(q[..k] + q[k + 1..])) + Bag([q[k].curl])
  {
    var a, b := q[..k], q[k + 1..];
    assert q == a + ([q[k]] + b);
    HandlesConcat(a, [q[k]] + b);
    HandlesConcat([q[k]], b);
    HandlesConcat(a, b);
    assert Handles([q[k]]) == [q[k].curl];
    BagConcat(Handles(a), Handles([q[k]] + b));
    BagConcat([q[k].curl], Handles(b));
    BagConcat(Handles(a), Handles(b));
  }

  lemma BagOfFront(q: seq<Free>)
    requires q != []
    ensures Bag(Handles(q)) == Bag([q[0].curl]) + Bag(Handles(q[1..]))
  {
    assert q == [q[0]] + q[1..];
    HandlesConcat([q[0]], q[1..]);
    assert Handles([q[0]]) == [q[0].curl];
    BagConcat([q[0].curl], Handles(q[1..]));
  }

  lemma RegroupBags(whole: multiset<Handle>, front: multiset<Handle>, tail: multiset<Handle>,
                    rest: multiset<Handle>, cleaned: multiset<Handle>, taken: multiset<Handle>)
    requires whole == front + tail && tail == rest + cleaned + taken
    ensures whole == rest + (front + cleaned) + taken
  {
  }

  /** No handle is lost or duplicated by a lookup. */
  lemma {:induction false} LookupConserves(q: seq<Free>, maxAge: int, id: int)
    ensures var r := GetFromFreeQ(q, maxAge, id);
            Bag(Handles(q)) == Bag(Handles(r.rest)) + Bag(r.cleaned) + Bag([r.handle])
  {
    if q == [] {
    } else if maxAge > q[0].ts {
      LookupConserves(q[1..], maxAge, id);
      BagOfFront(q);
      var r := GetFromFreeQ(q[1..], maxAge, id);
      BagConcat([q[0].curl], r.cleaned);
      RegroupBags(Bag(Handles(q)), Bag([q[0].curl]), Bag(Handles(q[1..])), Bag(Handles(r.rest)), Bag(r.cleaned), Bag([r.handle]));
    } else if q[0].curlId == id {
      BagOfFront(q);
    } else {
      var k := FirstYoung(q, maxAge, id, 1);
      if k < |q| {
        BagOfTaken(q, k);
      }
    }
  }

  /** What a lookup leaves is a subsequence, so still in timestamp order. */
  lemma {:induction false} LookupKeepsOrder(q: seq<Free>, maxAge: int, id: int)
    requires Sorted(q)
    ensures Sorted(GetFromFreeQ(q, maxAge, id).rest)
    ensures forall f :: f in GetFromFreeQ(q, maxAge, id).rest ==> f in q
  {
    if q != [] && maxAge > q[0].ts {
      LookupKeepsOrder(q[1..], maxAge, id);
    }
  }
}
