/** _base64.cpp and the base64url routines of AampUtils.cpp: RFC 4648, sections 4 and 5. C chars are bytes. */
module Base64 {
  import opened Common
  import opened ByteLoops

  const PAD: byte := 0x3D   // '='
  const PLUS: byte := 0x2B
  const SLASH: byte := 0x2F
  const MINUS: byte := 0x2D
  const UNDERSCORE: byte := 0x5F

  /** mBase64IndexToChar. */
  function IndexToChar(i: byte): byte {
    if i < 26 then i + 65           // 'A'..'Z'
    else if i < 52 then i + 71      // 'a'..'z'
    else if i < 62 then i - 4       // '0'..'9'
    else if i == 62 then PLUS
    else SLASH
  }

  const INVALID: byte := 0xFF

  /** mBase64CharToIndex; -1 is 0xFF. '-' counts as '/'. */
  function CharToIndex(c: byte): byte {
    if 65 <= c <= 90 then c - 65
    else if 97 <= c <= 122 then c - 71
    else if 48 <= c <= 57 then c + 4
    else if c == PLUS then 62
    else if c == MINUS || c == SLASH then 63
    else INVALID
  }

  /** A signed char is negative. */
  predicate Negative(d: byte) {
    d & 0x80 != 0
  }

  /** Arithmetic right shift of a signed char. */
  function ShiftRight4(d: byte): byte {
    if Negative(d) then (d >> 4) | 0xF0 else d >> 4
  }

  function ShiftRight2(d: byte): byte {
    if Negative(d) then (d >> 2) | 0xC0 else d >> 2
  }

  lemma IndexRoundTrip(i: byte)
    requires i < 64
    ensures CharToIndex(IndexToChar(i)) == i && IndexToChar(i) != PAD && IndexToChar(i) != 0
  {
  }

  // ---------------------------------------------------------------------------------------------
  // Encoding

  // The indices of the four characters for bytes a, b, c.
  function In0(a: byte): byte { a >> 2 }
  function In1(a: byte, b: byte): byte { ((a & 0x3) << 4) | (b >> 4) }
  function In2(b: byte, c: byte): byte { ((b & 0xF) << 2) | (c >> 6) }
  function In3(c: byte): byte { c & 0x3F }

  /** The characters for the first one to three bytes. */
  function Group(src: seq<byte>): (q: seq<byte>)
    requires src != []
    ensures |q| == 4
  {
    var a := src[0];
    if |src| == 1 then [IndexToChar(In0(a)), IndexToChar(In1(a, 0)), PAD, PAD]
    else
      var b := src[1];
      if |src| == 2 then [IndexToChar(In0(a)), IndexToChar(In1(a, b)), IndexToChar(In2(b, 0)), PAD]
      else [IndexToChar(In0(a)), IndexToChar(In1(a, b)), IndexToChar(In2(b, src[2])), IndexToChar(In3(src[2]))]
  }

  function Behind(src: seq<byte>): (r: seq<byte>)
    requires src != []
    ensures |r| < |src|
  {
    if |src| <= 3 then [] else src[3..]
  }

  function Encode(src: seq<byte>): seq<byte>
    decreases |src|
  {
    if src == [] then [] else Group(src) + Encode(Behind(src))
  }

  /** How many groups n bytes begin. */
  function Groups(n: nat): nat {
    (n + 2) / 3
  }

  lemma GroupsStep(n: nat)
    ensures Groups(n + 3) == 1 + Groups(n) && Groups(0) == 0 && Groups(1) == Groups(2) == 1
  {
  }

  /** Four characters for every three bytes begun. */
  lemma {:induction false} EncodedLength(src: seq<byte>)
    ensures |Encode(src)| == 4 * Groups(|src|)
    decreases |src|
  {
    GroupsStep(|src|);
    if src != [] {
      EncodedLength(Behind(src));
      if |src| > 3 {
        GroupsStep(|src| - 3);
      }
    }
  }

  /** Group by byte. */
  lemma GroupAt(src: seq<byte>, s: nat, a: byte)
    requires s < |src| && a == src[s]
    ensures Group(src[s..]) ==
            (if |src| - s == 1 then [IndexToChar(In0(a)), IndexToChar(In1(a, 0)), PAD, PAD]
             else if |src| - s == 2 then
               [IndexToChar(In0(a)), IndexToChar(In1(a, src[s + 1])), IndexToChar(In2(src[s + 1], 0)), PAD]
             else [IndexToChar(In0(a)), IndexToChar(In1(a, src[s + 1])),
                   IndexToChar(In2(src[s + 1], src[s + 2])), IndexToChar(In3(src[s + 2]))])
  {
    var g := src[s..];
    assert g[0] == a && (|g| > 1 ==> g[1] == src[s + 1]) && (|g| > 2 ==> g[2] == src[s + 2]);
  }

  /** One round of the encoding loop: the four characters, and how many bytes they took. */
  method EncodeGroup(src: seq<byte>, s: nat) returns (d0: byte, d1: byte, d2: byte, d3: byte, used: nat)
    requires s < |src|
    ensures [d0, d1, d2, d3] == Group(src[s..])
    ensures used == if |src| - s < 3 then |src| - s else 3
  {
    GroupAt(src, s, src[s]);
    d0, d1 := IndexToChar(In0(src[s])), IndexToChar(In1(src[s], 0));
    if |src| - s == 1 {
      return d0, d1, PAD, PAD, 1;
    }
    d1, d2 := IndexToChar(In1(src[s], src[s + 1])), IndexToChar(In2(src[s + 1], 0));
    if |src| - s == 2 {
      return d0, d1, d2, PAD, 2;
    }
    return d0, d1, IndexToChar(In2(src[s + 1], src[s + 2])), IndexToChar(In3(src[s + 2])), 3;
  }

  lemma EncodeStep(src: seq<byte>, s: nat, used: nat, written: seq<byte>, all: seq<byte>, q: seq<byte>)
    requires s < |src| && q == Group(src[s..]) && used == (if |src| - s < 3 then |src| - s else 3)
    requires Pending(Encode, written, src, s, all)
    ensures Pending(Encode, written + q, src, s + used, all) && |written| + 4 <= |all|
  {
    assert Behind(src[s..]) == src[s..][used..];
    PendingStep(Encode, written, src, s, used, all, q);
  }

  /** Four characters at dst. */
  method Put4(outData: array<byte>, dst: nat, d0: byte, d1: byte, d2: byte, d3: byte)
    requires dst + 4 <= outData.Length
    modifies outData
    ensures outData[..dst + 4] == old(outData[..dst]) + [d0, d1, d2, d3]
  {
    outData[dst] := d0;
    outData[dst + 1] := d1;
    outData[dst + 2] := d2;
    outData[dst + 3] := d3;
  }

  /** A name for Encode under which the loop does not look into it. */
  ghost predicate IsEncode(f: seq<byte> -> seq<byte>) {
    forall x {:trigger Encode(x)} :: f(x) == Encode(x)
  }

  lemma PendingEncode(f: seq<byte> -> seq<byte>, written: seq<byte>, src: seq<byte>, s: nat, all: seq<byte>)
    requires IsEncode(f)
    ensures Pending(f, written, src, s, all) <==> Pending(Encode, written, src, s, all)
  {
    assert s <= |src| ==> f(src[s..]) == Encode(src[s..]);
  }

  method EncodeRound(src: seq<byte>, s: nat, outData: array<byte>, dst: nat, ghost all: seq<byte>,
                     ghost f: seq<byte> -> seq<byte>)
    returns (used: nat)
    requires IsEncode(f) && s < |src| && dst <= outData.Length == |all| && Pending(f, outData[..dst], src, s, all)
    modifies outData
    ensures 0 < used && dst + 4 <= outData.Length && Pending(f, outData[..dst + 4], src, s + used, all)
  {
    ghost var written := outData[..dst];
    var d0, d1, d2, d3;
    d0, d1, d2, d3, used := EncodeGroup(src, s);
    PendingEncode(f, written, src, s, all);
    EncodeStep(src, s, used, written, all, [d0, d1, d2, d3]);
    Put4(outData, dst, d0, d1, d2, d3);
    PendingEncode(f, outData[..dst + 4], src, s + used, all);
  }

  method EncodeLoop(src: seq<byte>, outData: array<byte>, ghost all: seq<byte>, ghost f: seq<byte> -> seq<byte>)
    requires IsEncode(f) && outData.Length == |all| && Pending(f, [], src, 0, all)
    modifies outData
    ensures outData[..] == all
  {
    var s, dst := 0, 0;
    while s < |src|
      invariant s <= |src| && dst <= outData.Length && Pending(f, outData[..dst], src, s, all)
    {
      var used := EncodeRound(src, s, outData, dst, all, f);
      s, dst := s + used, dst + 4;
    }
    assert outData[..dst] == outData[..];
  }

  /** base64_Encode: outData without its terminating NUL. */
  method Base64Encode(src: seq<byte>) returns (outData: array<byte>)
    ensures fresh(outData) && outData[..] == Encode(src)
  {
    EncodedLength(src);
    PendingStart(Encode, src);
    var outLen := (|src| + 2) / 3 * 4;
    outData := new byte[outLen];
    EncodeLoop(src, outData, Encode(src), Encode);
  }

  // ---------------------------------------------------------------------------------------------
  // Decoding

  // The bytes of four indices; each is truncated to eight bits.
  function Out0(d0: byte, d1: byte): byte { (d0 << 2) | ShiftRight4(d1) }
  function Out1(d1: byte, d2: byte): byte { (d1 << 4) | ShiftRight2(d2) }
  function Out2(d2: byte, d3: byte): byte { (d2 << 6) | d3 }

  /** The bytes of the first four characters: fewer than three at a character outside the alphabet. */
  function DecodeGroup(src: seq<byte>): (r: seq<byte>)
    requires |src| >= 4
    ensures 1 <= |r| <= 3
  {
    var d0, d1, d2, d3 := CharToIndex(src[0]), CharToIndex(src[1]), CharToIndex(src[2]), CharToIndex(src[3]);
    if Negative(d2) then [Out0(d0, d1)]
    else if Negative(d3) then [Out0(d0, d1), Out1(d1, d2)]
    else [Out0(d0, d1), Out1(d1, d2), Out2(d2, d3)]
  }

  predicate WholeGroups(src: seq<byte>) {
    |src| % 4 == 0
  }

  /** base64_Decode stops after the first short group. For a source of any length, src is what the loop can
      read: the source and as much of the memory behind it as fills its last group. */
  function Decode(src: seq<byte>): seq<byte>
    decreases |src|
  {
    if |src| < 4 then []
    else
      var g := DecodeGroup(src);
      if |g| < 3 then g else g + Decode(src[4..])
  }

  /** A name for Decode under which the loop does not look into it. */
  ghost predicate IsDecode(f: seq<byte> -> seq<byte>) {
    forall x {:trigger Decode(x)} :: f(x) == Decode(x)
  }

  lemma DecodeUnfold(src: seq<byte>, g: seq<byte>)
    requires |src| >= 4 && g == DecodeGroup(src)
    ensures Decode(src) == if |g| < 3 then g else g + Decode(src[4..])
  {
  }

  /** A round that writes the bytes of one group; nothing follows a short one. */
  lemma DecodeStep(f: seq<byte> -> seq<byte>, src: seq<byte>, s: nat, written: seq<byte>, g: seq<byte>, all: seq<byte>)
    requires IsDecode(f) && s + 4 <= |src| && g == DecodeGroup(src[s..]) && Pending(f, written, src, s, all)
    ensures if |g| < 3 then written + g == all else Pending(f, written + g, src, s + 4, all)
  {
    DecodeUnfold(src[s..], g);
    assert f(src[s..]) == Decode(src[s..]) && f(src[s..][4..]) == Decode(src[s..][4..]) && f([]) == Decode([]);
    if |g| < 3 {
      PendingLast(f, written, src, s, all, g);
    } else {
      PendingStep(f, written, src, s, 4, all, g);
    }
  }

  /** DecodeGroup by character. */
  lemma DecodeGroupAt(src: seq<byte>, s: nat, d0: byte, d1: byte, d2: byte, d3: byte)
    requires s + 4 <= |src|
    requires d0 == CharToIndex(src[s]) && d1 == CharToIndex(src[s + 1])
    requires d2 == CharToIndex(src[s + 2]) && d3 == CharToIndex(src[s + 3])
    ensures DecodeGroup(src[s..]) ==
            (if Negative(d2) then [Out0(d0, d1)]
             else if Negative(d3) then [Out0(d0, d1), Out1(d1, d2)]
             else [Out0(d0, d1), Out1(d1, d2), Out2(d2, d3)])
  {
    var g := src[s..];
    assert g[0] == src[s] && g[1] == src[s + 1] && g[2] == src[s + 2] && g[3] == src[s + 3];
  }

  /** One round of the decoding loop: the `n` bytes of the four characters. */
  method DecodeBytes(src: seq<byte>, s: nat) returns (b0: byte, b1: byte, b2: byte, n: nat)
    requires s + 4 <= |src|
    ensures 1 <= n <= 3 && [b0, b1, b2][..n] == DecodeGroup(src[s..])
  {
    var data0, data1 := CharToIndex(src[s]), CharToIndex(src[s + 1]);
    var data2, data3 := CharToIndex(src[s + 2]), CharToIndex(src[s + 3]);
    DecodeGroupAt(src, s, data0, data1, data2, data3);
    b0, b1, b2 := Out0(data0, data1), 0, 0;
    if Negative(data2) {
      return b0, b1, b2, 1;
    }
    b1 := Out1(data1, data2);
    if Negative(data3) {
      return b0, b1, b2, 2;
    }
    b2 := Out2(data2, data3);
    return b0, b1, b2, 3;
  }

  /** The first n of three bytes at dst. */
  method PutFirst(outData: array<byte>, dst: nat, b0: byte, b1: byte, b2: byte, n: nat)
    requires 1 <= n <= 3 && dst + n <= outData.Length
    modifies outData
    ensures outData[..dst + n] == old(outData[..dst]) + [b0, b1, b2][..n]
    ensures Untouched(outData[..], old(outData[..]), dst + n)
  {
    outData[dst] := b0;
    if n > 1 {
      outData[dst + 1] := b1;
    }
    if n > 2 {
      outData[dst + 2] := b2;
    }
  }

  /** One round of the decoding loop; the last one writes fewer than three bytes. */
  method DecodeRound(src: seq<byte>, s: nat, outData: array<byte>, dst: nat, ghost all: seq<byte>,
                     ghost f: seq<byte> -> seq<byte>, ghost was: seq<byte>)
    returns (n: nat)
    requires IsDecode(f) && s + 4 <= |src| && dst + 3 <= outData.Length && Pending(f, outData[..dst], src, s, all)
    requires Untouched(outData[..], was, dst)
    modifies outData
    ensures 1 <= n <= 3 && Untouched(outData[..], was, dst + n)
    ensures if n < 3 then outData[..dst + n] == all else Pending(f, outData[..dst + n], src, s + 4, all)
  {
    ghost var written, before := outData[..dst], outData[..];
    var b0, b1, b2;
    b0, b1, b2, n := DecodeBytes(src, s);
    PutFirst(outData, dst, b0, b1, b2, n);
    DecodeStep(f, src, s, written, [b0, b1, b2][..n], all);
    UntouchedStep(before, was, dst, outData[..], n);
  }

  /** The decoding loop. */
  method DecodeLoop(src: seq<byte>, outData: array<byte>, ghost m: nat, ghost all: seq<byte>,
                    ghost f: seq<byte> -> seq<byte>)
    returns (outSize: nat)
    requires IsDecode(f) && |src| == 4 * m && outData.Length >= 3 * m && Pending(f, [], src, 0, all)
    modifies outData
    ensures outSize <= outData.Length && outData[..outSize] == all
    ensures Untouched(outData[..], old(outData[..]), outSize)
  {
    outSize := 0;
    var s := 0;
    ghost var k, was := 0, outData[..];
    while s < |src|
      invariant k <= m && s == 4 * k && outSize == 3 * k && Pending(f, outData[..outSize], src, s, all)
      invariant Untouched(outData[..], was, outSize)
    {
      var n := DecodeRound(src, s, outData, outSize, all, f, was);
      outSize := outSize + n;
      if n < 3 {
        break;
      }
      s, k := s + 4, k + 1;
    }
  }

  lemma BlockBound(srcLen: nat, m: nat)
    requires 4 * m < srcLen + 4
    ensures 3 * m <= srcLen * 3 / 4 + 3
  {
  }

  /** base64_Decode. src is the source, srcLen characters, and the memory behind it up to a whole group;
      outData is the memory from malloc's block of (srcLen * 3) / 4 bytes on, of which just the first outSize
      bytes are written. */
  method Base64Decode(src: seq<byte>, srcLen: nat, outData: array<byte>) returns (outSize: nat)
    requires WholeGroups(src) && srcLen <= |src| < srcLen + 4 && outData.Length >= srcLen * 3 / 4 + 3
    modifies outData
    ensures outSize <= outData.Length && outData[..outSize] == Decode(src)
    ensures Untouched(outData[..], old(outData[..]), outSize)
  {
    BlockBound(srcLen, |src| / 4);
    PendingStart(Decode, src);
    outSize := DecodeLoop(src, outData, |src| / 4, Decode(src), Decode);
  }

  /** Not a character of the alphabet. */
  predicate Outside(c: byte) {
    Negative(CharToIndex(c))
  }

  /** Some whole group of the first n characters decodes to fewer than three bytes. */
  ghost predicate Short(src: seq<byte>, n: nat)
    requires n <= |src|
  {
    exists i: nat :: 4 * i + 4 <= n && ShortAt(src, i)
  }

  predicate ShortAt(src: seq<byte>, i: nat) {
    4 * i + 4 <= |src| && |DecodeGroup(src[4 * i..])| < 3
  }

  lemma ShortNext(src: seq<byte>, n: nat)
    requires 4 <= n <= |src|
    ensures Short(src, n) <==> |DecodeGroup(src)| < 3 || Short(src[4..], n - 4)
  {
    assert src[4 * 0..] == src;
    if |DecodeGroup(src)| < 3 {
      assert ShortAt(src, 0);
    }
    forall i: nat | 4 * i + 4 <= n - 4 ensures ShortAt(src[4..], i) == ShortAt(src, i + 1) {
      assert src[4..][4 * i..] == src[4 * (i + 1)..];
    }
    if Short(src, n) && |DecodeGroup(src)| == 3 {
      var i: nat :| 4 * i + 4 <= n && ShortAt(src, i);
      assert ShortAt(src[4..], i - 1);
    }
  }

  /** How the bytes of a last, partial group of n characters compare with the n * 3 / 4 bytes kept for it. */
  lemma LastGroupFits(src: seq<byte>, n: nat)
    requires 0 < n <= |src| == 4
    ensures |DecodeGroup(src)| <= n * 3 / 4 <==>
            n == 4 || (n == 2 && Outside(src[2])) || (n == 3 && (Outside(src[2]) || Outside(src[3])))
  {
  }

  lemma DecodedSize(src: seq<byte>)
    requires |src| >= 4
    ensures |Decode(src)| == |DecodeGroup(src)| + if |DecodeGroup(src)| < 3 then 0 else |Decode(src[4..])|
  {
  }

  lemma FitNext(n: nat, g: nat, rest: nat, all: nat)
    requires n >= 4 && g <= 3 && all == g + if g < 3 then 0 else rest
    ensures all <= n * 3 / 4 <==> g < 3 || rest <= (n - 4) * 3 / 4
    ensures (n - 4) % 4 == n % 4
  {
  }

  /** The partial group behind whole ones decodes short, on account of the character behind the source or the
      last one in it. */
  predicate PartialShort(src: seq<byte>, n: nat)
    requires WholeGroups(src) && n <= |src| < n + 4
  {
    (n % 4 == 2 && Outside(src[n])) || (n % 4 == 3 && (Outside(src[n - 1]) || Outside(src[n])))
  }

  lemma PartialNext(src: seq<byte>, n: nat)
    requires WholeGroups(src) && 4 <= n <= |src| < n + 4
    ensures PartialShort(src, n) <==> PartialShort(src[4..], n - 4)
  {
  }

  lemma FirstGroupFits(src: seq<byte>, n: nat)
    requires n < 4 && WholeGroups(src) && n <= |src| < n + 4
    ensures |Decode(src)| <= n * 3 / 4 <==> n == 0 || PartialShort(src, n)
    ensures !Short(src, n)
  {
    if n > 0 {
      LastGroupFits(src, n);
      assert Decode(src[4..]) == [];
    }
  }

  /** The writes stay within the block of (srcLen * 3) / 4 bytes exactly when the source is of whole groups, or
      one of them decodes short, or the partial group does. */
  lemma {:induction false} WritesFitIff(src: seq<byte>, n: nat)
    requires WholeGroups(src) && n <= |src| < n + 4
    ensures |Decode(src)| <= n * 3 / 4 <==> n % 4 == 0 || Short(src, n) || PartialShort(src, n)
    decreases n
  {
    if n >= 4 {
      ShortNext(src, n);
      WritesFitIff(src[4..], n - 4);
      PartialNext(src, n);
      DecodedSize(src);
      FitNext(n, |DecodeGroup(src)|, |Decode(src[4..])|, |Decode(src)|);
    } else {
      FirstGroupFits(src, n);
    }
  }

  /** For a C string: exactly when its length is not 1 modulo 4, or one of its whole groups decodes short. */
  lemma StringWritesFitIff(src: seq<byte>, n: nat)
    requires WholeGroups(src) && n <= |src| < n + 4 && (n < |src| ==> src[n] == 0)
    ensures |Decode(src)| <= n * 3 / 4 <==> n % 4 != 1 || Short(src, n)
  {
    WritesFitIff(src, n);
    assert Outside(0);
  }

  // ---------------------------------------------------------------------------------------------
  // Round trip

  lemma IndicesInRange(a: byte, b: byte, c: byte)
    ensures In0(a) < 64 && In1(a, b) < 64 && In2(b, c) < 64 && In3(c) < 64
  {
  }

  lemma BitsRoundTrip(a: byte, b: byte, c: byte)
    ensures Out0(In0(a), In1(a, b)) == a && Out1(In1(a, b), In2(b, c)) == b && Out2(In2(b, c), In3(c)) == c
  {
  }

  lemma GroupRoundTrip(src: seq<byte>)
    requires src != []
    ensures DecodeGroup(Group(src)) == if |src| <= 3 then src else src[..3]
  {
    var a := src[0];
    var b := if |src| > 1 then src[1] else 0;
    var c := if |src| > 2 then src[2] else 0;
    IndicesInRange(a, b, c);
    BitsRoundTrip(a, b, c);
    IndexRoundTrip(In0(a));
    IndexRoundTrip(In1(a, b));
    IndexRoundTrip(In2(b, c));
    IndexRoundTrip(In3(c));
  }

  lemma DecodeGroupThen(src: seq<byte>, tail: seq<byte>)
    requires |src| >= 3
    ensures Decode(Group(src) + tail) == src[..3] + Decode(tail)
  {
    var e := Group(src) + tail;
    GroupRoundTrip(src);
    assert e[..4] == Group(src) && e[4..] == tail;
    GroupPrefix(e, Group(src));
  }

  lemma EncodeFront(src: seq<byte>, rest: seq<byte>)
    requires |src| >= 3
    ensures Encode(src) + rest == Group(src) + (Encode(src[3..]) + rest)
  {
    assert Behind(src) == src[3..];
  }

  lemma Reassemble(src: seq<byte>, rest: seq<byte>)
    requires |src| >= 3
    ensures src[..3] + (src[3..] + rest) == src + rest
  {
  }

  /** Whole groups decode one by one, whatever follows. */
  lemma {:induction false} DecodeAfterEncode(src: seq<byte>, n: nat, rest: seq<byte>)
    requires |src| == 3 * n
    ensures Decode(Encode(src) + rest) == src + Decode(rest)
    decreases n
  {
    if n == 0 {
      assert Encode(src) + rest == rest;
    } else {
      DecodeAfterEncode(src[3..], n - 1, rest);
      EncodeFront(src, rest);
      DecodeGroupThen(src, Encode(src[3..]) + rest);
      Reassemble(src, Decode(rest));
    }
  }

  lemma GroupPrefix(e: seq<byte>, g: seq<byte>)
    requires |e| >= 4 && e[..4] == g
    ensures DecodeGroup(e) == DecodeGroup(g)
  {
    assert e[0] == e[..4][0] && e[1] == e[..4][1] && e[2] == e[..4][2] && e[3] == e[..4][3];
  }

  lemma EncodedParts(src: seq<byte>)
    requires src != []
    ensures var e := Encode(src); |e| >= 4 && e[..4] == Group(src) && e[4..] == Encode(Behind(src))
  {
  }

  lemma DecodedParts(e: seq<byte>, g: seq<byte>)
    requires |e| >= 4 && g == DecodeGroup(e[..4])
    ensures Decode(e) == if |g| < 3 then g else g + Decode(e[4..])
  {
    GroupPrefix(e, e[..4]);
  }

  /** Decoding undoes encoding, for every byte string. */
  lemma {:induction false} RoundTrip(src: seq<byte>)
    ensures Decode(Encode(src)) == src
    decreases |src|
  {
    if src != [] {
      EncodedParts(src);
      GroupRoundTrip(src);
      DecodedParts(Encode(src), if |src| <= 3 then src else src[..3]);
      RoundTrip(Behind(src));
      if |src| <= 3 {
        assert Decode([]) == [];
      }
    }
  }
}
