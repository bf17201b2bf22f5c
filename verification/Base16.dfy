/** base16.cpp and stream2hex of AampUtils.cpp: section 8 of RFC 4648. C chars are bytes. */
module Base16 {
  import opened Common
  import opened ByteLoops

  const ZERO: byte := 0x30   // '0'

  /** mBase16IndexToChar. */
  function IndexToChar(i: byte): byte {
    if i < 10 then i + ZERO else i + 87   // 'a'..'f'
  }

  const INVALID: byte := 0xFF

  /** mBase16CharToIndex; -1 is 0xFF. */
  function CharToIndex(c: byte): byte {
    if 48 <= c <= 57 then c - 48
    else if 65 <= c <= 70 then c - 55
    else if 97 <= c <= 102 then c - 87
    else INVALID
  }

  function HighDigit(c: byte): byte { IndexToChar(c >> 4) }
  function LowDigit(c: byte): byte { IndexToChar(c & 0xF) }

  function Encode(src: seq<byte>): seq<byte> {
    if src == [] then [] else [HighDigit(src[0]), LowDigit(src[0])] + Encode(src[1..])
  }

  /** The byte of two characters; indices are truncated to eight bits. */
  function Joined(high: byte, low: byte): byte {
    (CharToIndex(high) << 4) | CharToIndex(low)
  }

  function Decode(src: seq<byte>): seq<byte> {
    if |src| < 2 then [] else [Joined(src[0], src[1])] + Decode(src[2..])
  }

  // The digits stream2hex computes; `a` is one less than 'A' or 'a'.
  function StreamHigh(c: byte, a: byte): byte { if c > 0x9F then (c / 16 - 9) | a else (c / 16) | ZERO }
  function StreamLow(c: byte, a: byte): byte { if (c & 0xF) > 9 then (c % 16 - 9) | a else (c % 16) | ZERO }

  function Base(capital: bool): byte {
    if capital then 0x40 else 0x60
  }

  function Stream(str: seq<byte>, capital: bool): seq<byte> {
    if str == [] then []
    else [StreamHigh(str[0], Base(capital)), StreamLow(str[0], Base(capital))] + Stream(str[1..], capital)
  }

  // ---------------------------------------------------------------------------------------------
  // The loops

  method Put2(outData: array<byte>, dst: nat, d0: byte, d1: byte)
    requires dst + 2 <= outData.Length
    modifies outData
    ensures outData[..dst + 2] == old(outData[..dst]) + [d0, d1]
  {
    outData[dst] := d0;
    outData[dst + 1] := d1;
  }

  method EncodeByte(c: byte, outData: array<byte>, dst: nat)
    requires dst + 2 <= outData.Length
    modifies outData
    ensures outData[..dst + 2] == old(outData[..dst]) + [HighDigit(c), LowDigit(c)]
  {
    var d0, d1 := IndexToChar(c >> 4), IndexToChar(c & 0xF);
    Put2(outData, dst, d0, d1);
  }

  /** A name for f under which a loop does not look into it. */
  ghost predicate IsEncode(f: seq<byte> -> seq<byte>) {
    forall x {:trigger Encode(x)} :: f(x) == Encode(x)
  }

  ghost predicate IsDecode(f: seq<byte> -> seq<byte>) {
    forall x {:trigger Decode(x)} :: f(x) == Decode(x)
  }

  lemma EncodeStep(f: seq<byte> -> seq<byte>, written: seq<byte>, src: seq<byte>, s: nat, all: seq<byte>)
    requires IsEncode(f) && s < |src| && Pending(f, written, src, s, all)
    ensures Pending(f, written + [HighDigit(src[s]), LowDigit(src[s])], src, s + 1, all)
  {
    assert f([]) == Encode([]) && f(src[s..]) == Encode(src[s..]) && f(src[s..][1..]) == Encode(src[s..][1..]);
    PendingStep(f, written, src, s, 1, all, [HighDigit(src[s]), LowDigit(src[s])]);
  }

  /** One round of base16_Encode. */
  method EncodeRound(src: seq<byte>, s: nat, outData: array<byte>, ghost all: seq<byte>,
                     ghost f: seq<byte> -> seq<byte>)
    requires IsEncode(f) && s < |src| && outData.Length == 2 * |src| && Pending(f, outData[..2 * s], src, s, all)
    modifies outData
    ensures Pending(f, outData[..2 * (s + 1)], src, s + 1, all)
  {
    EncodeStep(f, outData[..2 * s], src, s, all);
    EncodeByte(src[s], outData, 2 * s);
  }

  method EncodeLoop(src: seq<byte>, outData: array<byte>, ghost all: seq<byte>, ghost f: seq<byte> -> seq<byte>)
    requires IsEncode(f) && outData.Length == 2 * |src| && Pending(f, [], src, 0, all)
    modifies outData
    ensures outData[..] == all
  {
    var s := 0;
    while s < |src|
      invariant s <= |src| && Pending(f, outData[..2 * s], src, s, all)
    {
      EncodeRound(src, s, outData, all, f);
      s := s + 1;
    }
    assert outData[..2 * s] == outData[..];
  }

  /** base16_Encode: outData without its terminating NUL. */
  method Base16Encode(src: seq<byte>) returns (outData: array<byte>)
    ensures fresh(outData) && outData.Length == 2 * |src| && outData[..] == Encode(src)
  {
    outData := new byte[2 * |src|];
    PendingStart(Encode, src);
    EncodeLoop(src, outData, Encode(src), Encode);
  }

  method DecodePair(high: byte, low: byte, outData: array<byte>, dst: nat)
    requires dst < outData.Length
    modifies outData
    ensures outData[..dst + 1] == old(outData[..dst]) + [Joined(high, low)]
    ensures Untouched(outData[..], old(outData[..]), dst + 1)
  {
    outData[dst] := CharToIndex(high) << 4;
    outData[dst] := outData[dst] | CharToIndex(low);
  }

  lemma DecodeStep(f: seq<byte> -> seq<byte>, written: seq<byte>, src: seq<byte>, s: nat, all: seq<byte>)
    requires IsDecode(f) && s + 2 <= |src| && Pending(f, written, src, s, all)
    ensures Pending(f, written + [Joined(src[s], src[s + 1])], src, s + 2, all)
  {
    assert f([]) == Decode([]) && f(src[s..]) == Decode(src[s..]) && f(src[s..][2..]) == Decode(src[s..][2..]);
    PendingStep(f, written, src, s, 2, all, [Joined(src[s], src[s + 1])]);
  }

  /** One round of base16_Decode. */
  method DecodeRound(src: seq<byte>, s: nat, outData: array<byte>, dst: nat, ghost all: seq<byte>,
                     ghost f: seq<byte> -> seq<byte>, ghost was: seq<byte>)
    requires IsDecode(f) && s + 2 <= |src| && dst < outData.Length && Pending(f, outData[..dst], src, s, all)
    requires Untouched(outData[..], was, dst)
    modifies outData
    ensures Pending(f, outData[..dst + 1], src, s + 2, all) && Untouched(outData[..], was, dst + 1)
  {
    ghost var before := outData[..];
    DecodeStep(f, outData[..dst], src, s, all);
    DecodePair(src[s], src[s + 1], outData, dst);
    UntouchedStep(before, was, dst, outData[..], 1);
  }

  method DecodeLoop(src: seq<byte>, outData: array<byte>, ghost m: nat, ghost all: seq<byte>,
                    ghost f: seq<byte> -> seq<byte>)
    requires IsDecode(f) && |src| == 2 * m && m <= outData.Length && Pending(f, [], src, 0, all)
    modifies outData
    ensures outData[..m] == all && Untouched(outData[..], old(outData[..]), m)
  {
    var s, dst := 0, 0;
    ghost var was := outData[..];
    while s < |src|
      invariant s == 2 * dst && s <= |src| && Pending(f, outData[..dst], src, s, all)
      invariant Untouched(outData[..], was, dst)
    {
      DecodeRound(src, s, outData, dst, all, f, was);
      s, dst := s + 2, dst + 1;
    }
  }

  lemma HalfBound(srcLen: nat, m: nat)
    requires srcLen <= 2 * m < srcLen + 2
    ensures m <= srcLen / 2 + 1
  {
  }

  /** base16_Decode. src is the source, srcLen characters, and when srcLen is odd the character behind it;
      outData is the memory from malloc's block of srcLen / 2 bytes on. */
  method Base16Decode(src: seq<byte>, srcLen: nat, outData: array<byte>) returns (len: nat)
    requires |src| % 2 == 0 && srcLen <= |src| < srcLen + 2 && outData.Length >= srcLen / 2 + 1
    modifies outData
    ensures len == srcLen / 2 && |src| / 2 <= outData.Length && outData[..|src| / 2] == Decode(src)
    ensures Untouched(outData[..], old(outData[..]), |src| / 2)
  {
    HalfBound(srcLen, |src| / 2);
    PendingStart(Decode, src);
    DecodeLoop(src, outData, |src| / 2, Decode(src), Decode);
    len := srcLen / 2;
  }

  lemma {:induction false} DecodedLength(src: seq<byte>)
    requires |src| % 2 == 0
    ensures |Decode(src)| == |src| / 2
  {
    if src != [] {
      DecodedLength(src[2..]);
    }
  }

  /** The writes stay within the block of srcLen / 2 bytes exactly when srcLen is even. */
  lemma WritesFitIff(src: seq<byte>, srcLen: nat)
    requires |src| % 2 == 0 && srcLen <= |src| < srcLen + 2
    ensures |Decode(src)| <= srcLen / 2 <==> srcLen % 2 == 0
  {
    DecodedLength(src);
  }

  /** A std::string reads as NUL at its end. */
  function At(str: seq<byte>, i: nat): byte
    requires i <= |str|
  {
    if i == |str| then 0 else str[i]
  }

  ghost function StreamIn(capital: bool): seq<byte> -> seq<byte> {
    s => Stream(s, capital)
  }

  method StreamByte(c: byte, a: byte, hexstr: array<byte>, i: nat)
    requires i + 2 <= hexstr.Length
    modifies hexstr
    ensures hexstr[..i + 2] == old(hexstr[..i]) + [StreamHigh(c, a), StreamLow(c, a)]
  {
    var high := if c > 0x9F then (c / 16 - 9) | a else (c / 16) | ZERO;
    var low := if (c & 0xF) > 9 then (c % 16 - 9) | a else (c % 16) | ZERO;
    Put2(hexstr, i, high, low);
  }

  lemma StreamStep(capital: bool, written: seq<byte>, str: seq<byte>, k: nat, all: seq<byte>)
    requires k < |str| && Pending(StreamIn(capital), written, str, k, all)
    ensures Pending(StreamIn(capital), written + [StreamHigh(str[k], Base(capital)), StreamLow(str[k], Base(capital))],
                    str, k + 1, all)
  {
    PendingStep(StreamIn(capital), written, str, k, 1, all,
                [StreamHigh(str[k], Base(capital)), StreamLow(str[k], Base(capital))]);
  }

  /** One round of stream2hex. */
  method StreamRound(ghost str: seq<byte>, k: nat, ghost capital: bool, c: byte, a: byte, hexstr: array<byte>,
                     ghost all: seq<byte>)
    requires k < |str| && c == str[k] && a == Base(capital)
    requires hexstr.Length == 2 * |str| && Pending(StreamIn(capital), hexstr[..2 * k], str, k, all)
    modifies hexstr
    ensures Pending(StreamIn(capital), hexstr[..2 * (k + 1)], str, k + 1, all)
  {
    StreamStep(capital, hexstr[..2 * k], str, k, all);
    StreamByte(c, a, hexstr, 2 * k);
  }

  /** stream2hex: c runs one byte ahead of the digits. */
  method Stream2Hex(str: seq<byte>, capital: bool) returns (hexstr: array<byte>)
    ensures fresh(hexstr) && hexstr.Length == 2 * |str| && hexstr[..] == Stream(str, capital)
  {
    hexstr := new byte[|str| * 2];
    var a := if capital then 0x41 - 1 else 0x61 - 1;
    var k, c := 0, At(str, 0);
    ghost var all := Stream(str, capital);
    PendingStart(StreamIn(capital), str);
    while 2 * k < hexstr.Length
      invariant k <= |str| && c == At(str, k) && Pending(StreamIn(capital), hexstr[..2 * k], str, k, all)
    {
      StreamRound(str, k, capital, c, a, hexstr, all);
      k := k + 1;
      c := At(str, k);
    }
  }

  // ---------------------------------------------------------------------------------------------
  // Round trips

  /** Over all byte values, the arithmetic of stream2hex picks the table's digits. */
  lemma StreamDigits(c: byte)
    ensures StreamHigh(c, 0x60) == HighDigit(c) && StreamLow(c, 0x60) == LowDigit(c)
  {
  }

  lemma JoinedStream(c: byte, capital: bool)
    ensures Joined(StreamHigh(c, Base(capital)), StreamLow(c, Base(capital))) == c
  {
  }

  /** stream2hex in lower case is base16_Encode. */
  lemma {:induction false} StreamIsEncode(str: seq<byte>)
    ensures Stream(str, false) == Encode(str)
  {
    if str != [] {
      StreamDigits(str[0]);
      StreamIsEncode(str[1..]);
    }
  }

  /** base16_Decode inverts stream2hex in both cases. */
  lemma {:induction false} DecodeStream(str: seq<byte>, capital: bool)
    ensures |Stream(str, capital)| == 2 * |str| && Decode(Stream(str, capital)) == str
  {
    if str != [] {
      var h := Stream(str, capital);
      JoinedStream(str[0], capital);
      DecodeStream(str[1..], capital);
      assert h[2..] == Stream(str[1..], capital);
    }
  }

  /** ... and so inverts base16_Encode. */
  lemma DecodeEncode(src: seq<byte>)
    ensures |Encode(src)| == 2 * |src| && Decode(Encode(src)) == src
  {
    StreamIsEncode(src);
    DecodeStream(src, false);
  }

  predicate HexDigit(c: byte) {
    CharToIndex(c) != INVALID
  }

  function Lower(c: byte): byte {
    if 65 <= c <= 90 then c + 32 else c
  }

  lemma JoinedDigits(high: byte, low: byte)
    ensures HexDigit(high) && HexDigit(low) <==>
            HighDigit(Joined(high, low)) == Lower(high) && LowDigit(Joined(high, low)) == Lower(low)
  {
  }

  predicate SameButCase(h: seq<byte>, e: seq<byte>) {
    |h| == |e| && forall i :: 0 <= i < |h| ==> e[i] == Lower(h[i])
  }

  lemma SameButCaseStep(h: seq<byte>, d0: byte, d1: byte, e: seq<byte>)
    requires |h| >= 2
    ensures SameButCase(h, [d0, d1] + e) <==> d0 == Lower(h[0]) && d1 == Lower(h[1]) && SameButCase(h[2..], e)
  {
    var all := [d0, d1] + e;
    assert e == all[2..];
    if d0 == Lower(h[0]) && d1 == Lower(h[1]) && SameButCase(h[2..], e) {
      forall i | 0 <= i < |h| ensures all[i] == Lower(h[i]) {
        if i >= 2 {
          assert h[2..][i - 2] == h[i] && e[i - 2] == all[i];
        }
      }
    }
  }

  predicate HexText(h: seq<byte>) {
    forall i :: 0 <= i < |h| ==> HexDigit(h[i])
  }

  lemma HexTextStep(h: seq<byte>)
    requires |h| >= 2
    ensures HexText(h) <==> HexDigit(h[0]) && HexDigit(h[1]) && HexText(h[2..])
  {
    assert h == h[..2] + h[2..];
  }

  lemma EncodeJoined(h: seq<byte>)
    requires |h| >= 2
    ensures Encode(Decode(h)) ==
            [HighDigit(Joined(h[0], h[1])), LowDigit(Joined(h[0], h[1]))] + Encode(Decode(h[2..]))
  {
    assert Decode(h)[1..] == Decode(h[2..]);
  }

  /** Encoding a decoded text gives it back, in lower case, exactly when it is all hexadecimal digits. */
  lemma {:induction false} EncodeDecodeIff(h: seq<byte>)
    requires |h| % 2 == 0
    ensures SameButCase(h, Encode(Decode(h))) <==> HexText(h)
  {
    if h != [] {
      EncodeDecodeIff(h[2..]);
      EncodeJoined(h);
      JoinedDigits(h[0], h[1]);
      SameButCaseStep(h, HighDigit(Joined(h[0], h[1])), LowDigit(Joined(h[0], h[1])), Encode(Decode(h[2..])));
      HexTextStep(h);
    }
  }
}
