/** AampMemoryUtils: the growable byte buffer. */
module GrowableBuffers {
  import opened Common

  /** A GrowableBuffer on values: `data` are the first `len` bytes at ptr, when ptr is not NULL. */
  datatype Buf = Buf(live: bool, data: seq<byte>, len: nat, avail: nat)

  const ZEROED := Buf(false, [], 0, 0)

  predicate WellFormed(b: Buf) {
    && b.len <= b.avail
    && (b.live ==> |b.data| == b.len)
    && (!b.live ==> b.data == [])
  }

  /** A buffer that has its memory, or whose length is 0 as after a reset. */
  predicate Writable(b: Buf) {
    WellFormed(b) && (!b.live ==> b.len == 0)
  }

  function Grown(avail: nat, required: nat): nat {
    if avail * 2 > required then avail * 2 else required * 2
  }

  /** aamp_AppendBytes from b to r. A buffer that was released with its length left gets a block whose first
      bytes are arbitrary, or none. */
  predicate Appends(b: Buf, src: seq<byte>, r: Buf) {
    var required := b.len + |src|;
    && r.avail == (if required > b.avail then Grown(b.avail, required) else b.avail)
    && r.live == (b.live || required > b.avail)
    && r.len == (if r.live then required else b.len)
    && |r.data| == (if r.live then required else 0)
    && (r.live ==> r.data[b.len..] == src)
    && (b.live && |b.data| == b.len ==> r.data[..b.len] == b.data)
  }

  /** aamp_AppendBytes where it has one outcome. */
  function Append(b: Buf, src: seq<byte>): (r: Buf)
    requires Writable(b)
    ensures Writable(r)
  {
    var required := b.len + |src|;
    var b1 := if required > b.avail then b.(avail := Grown(b.avail, required), live := true) else b;
    if b1.live then b1.(data := b.data + src, len := required) else b1
  }

  lemma Joined(b: Buf, front: seq<byte>, src: seq<byte>)
    requires |front| == b.len && (b.live ==> front == b.data)
    ensures (front + src)[b.len..] == src && (b.live ==> (front + src)[..b.len] == b.data)
  {
  }

  /** Append is the outcome wherever there is only one. */
  lemma AppendsOnce(b: Buf, src: seq<byte>, r: Buf)
    requires Writable(b)
    ensures Appends(b, src, Append(b, src))
    ensures Appends(b, src, r) ==> r == Append(b, src)
  {
    if Appends(b, src, r) && r.live {
      assert r.data == r.data[..b.len] + r.data[b.len..];
      assert !b.live ==> r.data[..b.len] == [] == b.data;
    }
  }

  /** buffer->len = 0, as the callers write it. */
  function Reset(b: Buf): Buf {
    b.(data := [], len := 0)
  }

  /** aamp_Free: the length and the capacity stay. */
  function Freed(b: Buf): Buf {
    b.(live := false, data := [])
  }

  class GrowableBuffer {
    var ptr: array?<byte>
    var len: nat
    var avail: nat

    ghost predicate Valid()
      reads this, ptr
    {
      (ptr != null ==> ptr.Length == avail) && len <= avail
    }

    ghost function View(): Buf
      reads this, ptr
      requires Valid()
    {
      Buf(ptr != null, if ptr == null then [] else ptr[..len], len, avail)
    }

    /** new GrowableBuffer() followed by memset(0). */
    constructor ()
      ensures Valid() && View() == ZEROED && ptr == null
    {
      ptr, len, avail := null, 0, 0;
    }

    method AppendBytes(src: seq<byte>)
      requires Valid()
      modifies this, ptr
      ensures Valid() && Appends(old(View()), src, View())
      ensures Writable(old(View())) ==> View() == Append(old(View()), src)
      ensures ptr == old(ptr) || fresh(ptr)
    {
      ghost var was := View();
      var required := len + |src|;
      if required > avail {
        Grow(required);
      }
      if ptr != null {
        ghost var front := ptr[..len];
        assert was.live ==> front == was.data;
        CopyIn(src);
        len := required;
        Joined(was, front, src);
      }
      if Writable(was) {
        AppendsOnce(was, src, View());
      }
    }

    method Grow(required: nat)
      requires Valid() && required > avail
      modifies this`avail, this`ptr
      ensures Valid() && ptr != null && fresh(ptr) && avail == Grown(old(avail), required) && required <= avail
      ensures old(ptr) != null ==> ptr[..len] == old(ptr[..len])
    {
      var oldAvail := avail;
      ghost var front := if ptr == null then [] else ptr[..len];
      avail := if avail * 2 > required then avail * 2 else required * 2;
      Realloc(oldAvail, avail);
      if old(ptr) != null {
        assert ptr[..len] == ptr[..oldAvail][..len] == front;
      }
    }

    /** memcpy behind the contents. */
    method CopyIn(src: seq<byte>)
      requires ptr != null && len + |src| <= ptr.Length
      modifies ptr
      ensures ptr[..len + |src|] == old(ptr[..len]) + src
    {
      forall i | 0 <= i < |src| {
        ptr[len + i] := src[i];
      }
    }

    /** g_realloc: a block of the new size that starts with the bytes of the old one. */
    method Realloc(oldSize: nat, newSize: nat)
      requires oldSize <= newSize && (ptr != null ==> ptr.Length == oldSize)
      modifies this`ptr
      ensures ptr != null && fresh(ptr) && ptr.Length == newSize
      ensures old(ptr) != null ==> ptr[..oldSize] == old(ptr[..])
    {
      var block := new byte[newSize];
      if ptr != null {
        forall i | 0 <= i < oldSize {
          block[i] := ptr[i];
        }
        assert block[..oldSize] == ptr[..];
      }
      ptr := block;
    }

    method Free()
      requires Valid()
      modifies this`ptr
      ensures Valid() && View() == Freed(old(View())) && ptr == null
    {
      if ptr != null {
        ptr := null;
      }
    }

    method ResetLength()
      requires Valid()
      modifies this`len
      ensures Valid() && View() == Reset(old(View()))
    {
      len := 0;
    }
  }

  // ---------------------------------------------------------------------------------------------
  // Runs

  datatype Op = AppendOp(src: seq<byte>) | ResetOp

  /** A buffer with its history: bytes copied by reallocations (a reallocation copies at most the whole
      old block), the longest it has been, and all bytes ever appended. */
  datatype Tracked = Tracked(b: Buf, moved: nat, peak: nat, total: nat)

  function Max(a: nat, b: nat): nat {
    if a < b then b else a
  }

  function Do(t: Tracked, op: Op): Tracked
    requires Writable(t.b)
  {
    match op
    case AppendOp(src) =>
      Tracked(Append(t.b, src), t.moved + (if t.b.len + |src| > t.b.avail then t.b.avail else 0),
              Max(t.peak, t.b.len + |src|), t.total + |src|)
    case ResetOp => t.(b := Reset(t.b))
  }

  function After(ops: seq<Op>): (t: Tracked)
    ensures Writable(t.b)
  {
    if ops == [] then Tracked(ZEROED, 0, 0, 0) else Do(After(ops[..|ops| - 1]), ops[|ops| - 1])
  }

  /** What was appended since the last reset. */
  function SinceReset(ops: seq<Op>): seq<byte> {
    if ops == [] then []
    else match ops[|ops| - 1]
      case ResetOp => []
      case AppendOp(src) => SinceReset(ops[..|ops| - 1]) + src
  }

  /** From a zeroed buffer, after any appends and resets: the contents are what was appended since the
      last reset; capacity is at most twice the longest contents; and reallocations have copied no more
      bytes than the present capacity, hence at most twice all bytes ever appended. */
  lemma {:induction false} GrowthPolicy(ops: seq<Op>)
    ensures var t := After(ops);
            && t.b.data == SinceReset(ops) && t.b.len == |t.b.data|
            && (t.b.live || t.b.avail == 0)
            && t.b.len <= t.peak <= t.total
            && t.moved <= t.b.avail <= 2 * t.peak
            && t.moved <= 2 * t.total
  {
    if ops != [] {
      var before := ops[..|ops| - 1];
      GrowthPolicy(before);
      assert SinceReset(before) + [] == SinceReset(before);
    }
  }

  /** The runs that append n bytes one by one. */
  predicate OneByOne(ops: seq<Op>) {
    forall i :: 0 <= i < |ops| ==> ops[i].AppendOp? && |ops[i].src| == 1
  }

  predicate PowerOfTwo(n: nat) {
    n == 1 || (n > 0 && n % 2 == 0 && PowerOfTwo(n / 2))
  }

  /** A buffer that holds n bytes, of the least power of two from n and 2 on. */
  predicate Doubled(t: Tracked, n: nat) {
    && t.b.live && t.b.len == n && PowerOfTwo(t.b.avail) && t.b.avail >= 2 && t.moved == t.b.avail - 2
    && n <= t.b.avail && (t.b.avail < 2 * n || (n == 1 && t.b.avail == 2))
  }

  lemma DoublingStep(t: Tracked, src: seq<byte>, n: nat)
    requires Writable(t.b) && Doubled(t, n) && |src| == 1
    ensures Doubled(Do(t, AppendOp(src)), n + 1)
  {
    if t.b.avail == n {
      assert 2 * n / 2 == n;
      assert PowerOfTwo(2 * n);
    }
  }

  /** Appending byte by byte doubles the capacity: after n bytes it is the least power of two from n and 2 on, and the
      reallocations copied two bytes less than that. */
  lemma {:induction false} Doubling(ops: seq<Op>)
    requires OneByOne(ops) && ops != []
    ensures var t := After(ops);
            && t.b.live && t.b.len == |ops| && PowerOfTwo(t.b.avail) && t.b.avail >= 2 && t.moved == t.b.avail - 2
            && |ops| <= t.b.avail && (t.b.avail < 2 * |ops| || (|ops| == 1 && t.b.avail == 2))
  {
    var before := ops[..|ops| - 1];
    if before == [] {
      assert After(before) == Tracked(ZEROED, 0, 0, 0);
      assert PowerOfTwo(1);
    } else {
      Doubling(before);
      DoublingStep(After(before), ops[|ops| - 1].src, |before|);
    }
  }

  /** One append: a buffer with room keeps its capacity, another gets twice its capacity if that is more than the
      bytes it has to hold, and else twice those. */
  lemma CapacityRule(b: Buf, src: seq<byte>, r: Buf)
    requires Appends(b, src, r)
    ensures r.avail == if b.len + |src| <= b.avail then b.avail
                       else if 2 * b.avail > b.len + |src| then 2 * b.avail else 2 * (b.len + |src|)
  {
  }

  /** Refilling a buffer: what is appended to it is kept exactly when it still has its block, or there is
      nothing to keep, or it exceeds the capacity. aamp_Free leaves `avail`, so a smaller append to a
      released buffer allocates nothing and stores nothing. */
  lemma RefillIff(b: Buf, src: seq<byte>)
    requires WellFormed(b)
    ensures Append(Reset(b), src).data == src <==> b.live || src == [] || |src| > b.avail
    ensures Append(Reset(Freed(b)), src).data == src <==> src == [] || |src| > b.avail
  {
    assert [] + src == src;
  }
}
