/** What the codecs' loops have in common: each turns a prefix of its source into bytes of its output. */
module ByteLoops {
  import opened Common

  /** What is written so far, and what f makes of the source from s on, are `all`. */
  ghost predicate Pending(f: seq<byte> -> seq<byte>, written: seq<byte>, src: seq<byte>, s: nat, all: seq<byte>) {
    s <= |src| && (if s == |src| then written else written + f(src[s..])) == all
  }

  lemma PendingStart(f: seq<byte> -> seq<byte>, src: seq<byte>)
    requires f([]) == []
    ensures Pending(f, [], src, 0, f(src))
  {
    assert src[0..] == src && [] + f(src) == f(src);
  }

  /** A round that consumes n bytes and writes `put`. */
  lemma PendingStep(f: seq<byte> -> seq<byte>, written: seq<byte>, src: seq<byte>, s: nat, n: nat, all: seq<byte>,
                    put: seq<byte>)
    requires f([]) == [] && s < s + n <= |src| && f(src[s..]) == put + f(src[s..][n..])
    requires Pending(f, written, src, s, all)
    ensures Pending(f, written + put, src, s + n, all) && |written| + |put| <= |all|
  {
    assert src[s..][n..] == src[s + n..];
    assert written + (put + f(src[s + n..])) == (written + put) + f(src[s + n..]);
    assert (written + put) + [] == written + put;
  }

  /** A round after which nothing is left to do. */
  lemma PendingLast(f: seq<byte> -> seq<byte>, written: seq<byte>, src: seq<byte>, s: nat, all: seq<byte>,
                    put: seq<byte>)
    requires s < |src| && f(src[s..]) == put && Pending(f, written, src, s, all)
    ensures written + put == all
  {
  }

  /** Memory is as it was from position dst on. */
  ghost predicate Untouched(mem: seq<byte>, was: seq<byte>, dst: nat) {
    |mem| == |was| && dst <= |mem| && mem[dst..] == was[dst..]
  }

  lemma UntouchedStep(mem: seq<byte>, was: seq<byte>, dst: nat, mem': seq<byte>, n: nat)
    requires Untouched(mem, was, dst) && Untouched(mem', mem, dst + n)
    ensures Untouched(mem', was, dst + n)
  {
    assert mem[dst + n..] == mem[dst..][n..] && was[dst + n..] == was[dst..][n..];
  }
}
