/** The base64url routines of AampUtils.cpp: section 5 of RFC 4648, without padding. */
module Base64Url {
  import opened Common
  import opened ByteLoops
  import opened Base64

  /** A C string ends before its first NUL. */
  function CString(s: seq<byte>): (r: seq<byte>)
    ensures |r| <= |s|
  {
    if s == [] || s[0] == 0 then [] else [s[0]] + CString(s[1..])
  }

  predicate NoNul(s: seq<byte>) {
    forall i :: 0 <= i < |s| ==> s[i] != 0
  }

  lemma {:induction false} CStringWhole(s: seq<byte>, tail: seq<byte>)
    requires NoNul(s)
    ensures CString(s + tail) == s + CString(tail)
  {
    if s == [] {
      assert s + tail == tail;
    } else {
      assert (s + tail)[1..] == s[1..] + tail;
      CStringWhole(s[1..], tail);
    }
  }

  lemma CStringEnd(s: seq<byte>, n: nat)
    requires n < |s| && NoNul(s[..n]) && s[n] == 0
    ensures CString(s) == s[..n]
  {
    assert s == s[..n] + s[n..];
    CStringWhole(s[..n], s[n..]);
  }

  // ---------------------------------------------------------------------------------------------
  // Encoding

  function UrlChar(c: byte): byte {
    if c == PLUS then MINUS else if c == SLASH then UNDERSCORE else c
  }

  /** The characters before the padding, in the base64url alphabet. */
  function ToUrl(s: seq<byte>): seq<byte> {
    if s == [] || s[0] == PAD then [] else [UrlChar(s[0])] + ToUrl(s[1..])
  }

  function UrlEncode(src: seq<byte>): seq<byte> {
    ToUrl(Encode(src))
  }

  /** A character base64_Encode writes. */
  predicate Written(c: byte) {
    c != 0 && c != MINUS && c != UNDERSCORE
  }

  lemma UrlCharBack(c: byte)
    requires Written(c)
    ensures UrlChar(c) != 0 && PlainChar(UrlChar(c)) == c
  {
  }

  lemma AlphabetWritten(i: byte)
    requires i < 64
    ensures Written(IndexToChar(i)) && IndexToChar(i) != PAD
  {
  }

  lemma GroupWritten(src: seq<byte>)
    requires src != []
    ensures forall i :: 0 <= i < 4 ==> Written(Group(src)[i])
    ensures forall i :: 0 <= i < 4 ==> (Group(src)[i] == PAD <==> i > |src|)
  {
    var a := src[0];
    var b := if |src| > 1 then src[1] else 0;
    var c := if |src| > 2 then src[2] else 0;
    IndicesInRange(a, b, c);
    AlphabetWritten(In0(a));
    AlphabetWritten(In1(a, b));
    AlphabetWritten(In2(b, c));
    AlphabetWritten(In3(c));
  }

  lemma {:induction false} EncodedWritten(src: seq<byte>)
    ensures forall i :: 0 <= i < |Encode(src)| ==> Written(Encode(src)[i])
    decreases |src|
  {
    if src != [] {
      GroupWritten(src);
      EncodedWritten(Behind(src));
    }
  }

  /** The characters written and those ToUrl makes of s from i on are `all`. */
  ghost predicate Copying(written: seq<byte>, s: seq<byte>, i: nat, all: seq<byte>) {
    i <= |s| && NoNul(written) && (if i == |s| then written else written + ToUrl(s[i..])) == all
  }

  lemma CopyingStart(s: seq<byte>)
    ensures Copying([], s, 0, ToUrl(s))
  {
    assert s[0..] == s && [] + ToUrl(s) == ToUrl(s);
  }

  lemma CopyingStep(written: seq<byte>, s: seq<byte>, i: nat, all: seq<byte>)
    requires i < |s| && Written(s[i]) && Copying(written, s, i, all)
    ensures if s[i] == PAD then written == all else Copying(written + [UrlChar(s[i])], s, i + 1, all)
  {
    assert s[i..][1..] == s[i + 1..];
    if s[i] != PAD {
      UrlCharBack(s[i]);
      assert written + ([UrlChar(s[i])] + ToUrl(s[i + 1..])) == written + [UrlChar(s[i])] + ToUrl(s[i + 1..]);
    }
  }

  /** One round of the copying loop at a character that is not padding. */
  method PutUrlChar(urlEncodedSrc: array<byte>, iter: nat, c: byte)
    requires iter < urlEncodedSrc.Length
    modifies urlEncodedSrc
    ensures urlEncodedSrc[..iter + 1] == old(urlEncodedSrc[..iter]) + [UrlChar(c)]
  {
    if c == PLUS {
      urlEncodedSrc[iter] := MINUS;
    } else if c == SLASH {
      urlEncodedSrc[iter] := UNDERSCORE;
    } else {
      urlEncodedSrc[iter] := c;
    }
  }

  /** The copying loop; it leaves a NUL where it stops at padding. */
  method CopyUrl(s: seq<byte>, urlEncodedSrc: array<byte>, ghost all: seq<byte>) returns (iter: nat)
    requires forall i :: 0 <= i < |s| ==> Written(s[i])
    requires urlEncodedSrc.Length == |s| + 1 && Copying([], s, 0, all)
    modifies urlEncodedSrc
    ensures iter <= |s| && urlEncodedSrc[..iter] == all && NoNul(all)
    ensures iter < |s| ==> urlEncodedSrc[iter] == 0
  {
    iter := 0;
    while iter < |s|
      invariant iter <= |s| && Copying(urlEncodedSrc[..iter], s, iter, all)
    {
      CopyingStep(urlEncodedSrc[..iter], s, iter, all);
      if s[iter] == PAD {
        urlEncodedSrc[iter] := 0;
        break;
      }
      PutUrlChar(urlEncodedSrc, iter, s[iter]);
      iter := iter + 1;
    }
  }

  /** aamp_Base64_URL_Encode: a NUL-terminated copy that stops at the padding; what the block holds behind
      the NUL is arbitrary. */
  method Base64UrlEncode(src: seq<byte>) returns (urlEncodedSrc: array<byte>)
    ensures fresh(urlEncodedSrc) && CString(urlEncodedSrc[..]) == UrlEncode(src)
  {
    var b64Src := Base64Encode(src);
    EncodedWritten(src);
    CopyingStart(Encode(src));
    var encodedLen := b64Src.Length;
    urlEncodedSrc := new byte[encodedLen + 1];
    var iter := CopyUrl(b64Src[..], urlEncodedSrc, UrlEncode(src));
    ghost var shown := urlEncodedSrc[..iter];
    urlEncodedSrc[encodedLen] := 0;
    assert urlEncodedSrc[..iter] == shown;
    CStringEnd(urlEncodedSrc[..], iter);
  }

  // ---------------------------------------------------------------------------------------------
  // Decoding

  function PlainChar(c: byte): byte {
    if c == MINUS then PLUS else if c == UNDERSCORE then SLASH else c
  }

  function FromUrl(s: seq<byte>): (r: seq<byte>)
    ensures |r| == |s|
  {
    seq(|s|, i requires 0 <= i < |s| => PlainChar(s[i]))
  }

  /** The end of the block behind n copied characters, n % 4 == r: the two '=' written first, unless copied
      over; g0 and g1 are bytes malloc left there. */
  function Tail(r: nat, g0: byte, g1: byte): (t: seq<byte>)
    requires r < 4
    ensures |t| == 4 - r
  {
    if r == 0 then [g0, g1, PAD, PAD]
    else if r == 1 then [g0, PAD, PAD]
    else if r == 2 then [PAD, PAD]
    else [PAD]
  }

  /** The block handed to base64_Decode, without its terminating NUL. */
  function UrlBuffer(src: seq<byte>, g0: byte, g1: byte): (b: seq<byte>)
    ensures |b| == (|src| / 4 + 1) * 4
  {
    FromUrl(src) + Tail(|src| % 4, g0, g1)
  }

  /** What base64_Decode reads of a memory of whole groups that holds a string of n characters. */
  function WholeRead(mem: seq<byte>, n: nat): (r: seq<byte>)
    requires n <= |mem| && WholeGroups(mem)
    ensures WholeGroups(r) && n <= |r| < n + 4 && r <= mem
  {
    mem[..(n + 3) / 4 * 4]
  }

  /** aamp_Base64_URL_Decode. */
  function UrlDecode(src: seq<byte>, g0: byte, g1: byte): seq<byte> {
    var buffer := UrlBuffer(src, g0, g1);
    Decode(WholeRead(buffer, |CString(buffer)|))
  }

  lemma {:induction false} CStringOfTerminated(s: seq<byte>)
    ensures CString(s + [0]) == CString(s) && |CString(s)| <= |s|
  {
    if s == [] {
      assert s + [0] == [0];
    } else {
      assert (s + [0])[1..] == s[1..] + [0];
      CStringOfTerminated(s[1..]);
    }
  }

  /** strlen. */
  method StrLen(block: array<byte>) returns (n: nat)
    requires exists i: nat :: i < block.Length && block[i] == 0
    ensures n < block.Length && block[..n] == CString(block[..])
  {
    n := 0;
    ghost var i: nat :| i < block.Length && block[i] == 0;
    while block[n] != 0
      invariant n <= i && NoNul(block[..n])
      decreases i - n
    {
      n := n + 1;
    }
    CStringEnd(block[..], n);
  }

  /** One round of the copying loop. */
  method PutPlainChar(b64Src: array<byte>, iter: nat, c: byte)
    requires iter < b64Src.Length
    modifies b64Src
    ensures b64Src[..iter + 1] == old(b64Src[..iter]) + [PlainChar(c)]
    ensures b64Src[iter + 1..] == old(b64Src[iter + 1..])
  {
    if c == MINUS {
      b64Src[iter] := PLUS;
    } else if c == UNDERSCORE {
      b64Src[iter] := SLASH;
    } else {
      b64Src[iter] := c;
    }
  }

  lemma FromUrlStep(src: seq<byte>, i: nat)
    requires i < |src|
    ensures FromUrl(src[..i + 1]) == FromUrl(src[..i]) + [PlainChar(src[i])]
  {
  }

  method CopyPlain(src: seq<byte>, b64Src: array<byte>)
    requires |src| <= b64Src.Length
    modifies b64Src
    ensures b64Src[..] == FromUrl(src) + old(b64Src[|src|..])
  {
    var iter := 0;
    ghost var behind := b64Src[|src|..];
    while iter < |src|
      invariant iter <= |src| && b64Src[..iter] == FromUrl(src[..iter]) && b64Src[|src|..] == behind
    {
      FromUrlStep(src, iter);
      ghost var before := b64Src[iter + 1..];
      PutPlainChar(b64Src, iter, src[iter]);
      assert b64Src[|src|..] == b64Src[iter + 1..][|src| - iter - 1..] == before[|src| - iter - 1..] == behind;
      iter := iter + 1;
    }
    assert src[..iter] == src;
    assert b64Src[..] == b64Src[..|src|] + b64Src[|src|..];
  }

  /** The three writes before the loop. */
  method PutPadding(n: nat, b64Src: array<byte>)
    requires b64Src.Length == (n / 4 + 1) * 4 + 1
    modifies b64Src
    ensures b64Src[n..] == Tail(n % 4, old(b64Src[n]), old(b64Src[n + 1])) + [0]
  {
    var b64Len := b64Src.Length;
    b64Src[b64Len - 1] := 0;
    b64Src[b64Len - 2] := PAD;
    b64Src[b64Len - 3] := PAD;
  }

  /** The writes before base64_Decode: the block holds the buffer and its NUL. */
  method FillBlock(src: seq<byte>, b64Src: array<byte>)
    requires b64Src.Length == (|src| / 4 + 1) * 4 + 1
    modifies b64Src
    ensures b64Src[..] == UrlBuffer(src, old(b64Src[|src|]), old(b64Src[|src| + 1])) + [0]
  {
    PutPadding(|src|, b64Src);
    CopyPlain(src, b64Src);
  }

  /** base64_Decode of a C string in a block that ends with a NUL. */
  method DecodeString(b64Src: array<byte>, ghost buffer: seq<byte>, decodedStr: array<byte>) returns (len: nat)
    requires b64Src[..] == buffer + [0] && WholeGroups(buffer)
    requires decodedStr != b64Src && decodedStr.Length >= b64Src.Length + 3
    modifies decodedStr
    ensures len <= decodedStr.Length && decodedStr[..len] == Decode(WholeRead(buffer, |CString(buffer)|))
    ensures Untouched(decodedStr[..], old(decodedStr[..]), len)
  {
    CStringOfTerminated(buffer);
    assert b64Src[|buffer|] == 0;
    var n := StrLen(b64Src);
    var read := b64Src[..(n + 3) / 4 * 4];
    assert read == WholeRead(buffer, n);
    len := Base64Decode(read, n, decodedStr);
  }

  /** aamp_Base64_URL_Decode, on a C string. b64Src is the block malloc gave for it, decodedStr the memory from
      base64_Decode's block on, of which just the first len bytes are written. */
  method Base64UrlDecode(src: seq<byte>, b64Src: array<byte>, decodedStr: array<byte>) returns (len: nat)
    requires b64Src.Length == (|src| / 4 + 1) * 4 + 1
    requires decodedStr != b64Src && decodedStr.Length >= b64Src.Length + 3
    modifies b64Src, decodedStr
    ensures len <= decodedStr.Length
    ensures decodedStr[..len] == UrlDecode(src, old(b64Src[|src|]), old(b64Src[|src| + 1]))
    ensures Untouched(decodedStr[..], old(decodedStr[..]), len)
  {
    ghost var buffer := UrlBuffer(src, b64Src[|src|], b64Src[|src| + 1]);
    FillBlock(src, b64Src);
    len := DecodeString(b64Src, buffer, decodedStr);
  }

  // ---------------------------------------------------------------------------------------------
  // Round trip

  lemma {:induction false} ToUrlThen(a: seq<byte>, b: seq<byte>)
    requires forall i :: 0 <= i < |a| ==> a[i] != PAD
    ensures ToUrl(a + b) == ToUrl(a) + ToUrl(b) && |ToUrl(a)| == |a|
  {
    if a == [] {
      assert a + b == b;
    } else {
      assert (a + b)[1..] == a[1..] + b;
      ToUrlThen(a[1..], b);
    }
  }

  /** On what the encoder writes, the two alphabets are interchangeable. */
  lemma {:induction false} FromUrlToUrl(a: seq<byte>)
    requires forall i :: 0 <= i < |a| ==> a[i] != PAD && Written(a[i])
    ensures FromUrl(ToUrl(a)) == a
  {
    if a != [] {
      UrlCharBack(a[0]);
      FromUrlToUrl(a[1..]);
      FromUrlCons(UrlChar(a[0]), ToUrl(a[1..]));
    }
  }

  lemma FromUrlCons(c: byte, s: seq<byte>)
    ensures FromUrl([c] + s) == [PlainChar(c)] + FromUrl(s)
  {
  }

  lemma FromUrlThen(a: seq<byte>, b: seq<byte>)
    ensures FromUrl(a + b) == FromUrl(a) + FromUrl(b)
  {
  }

  lemma ToUrlStops(a: seq<byte>, b: seq<byte>)
    requires forall i :: 0 <= i < |a| ==> a[i] != PAD && Written(a[i])
    requires b != [] && b[0] == PAD
    ensures |ToUrl(a + b)| == |a| && FromUrl(ToUrl(a + b)) == a
  {
    ToUrlThen(a, b);
    FromUrlToUrl(a);
    assert ToUrl(a) + [] == ToUrl(a);
  }

  /** A group padded from its k-th character on. */
  lemma PaddedGroup(q: seq<byte>, k: nat, g0: byte, g1: byte)
    requires |q| == 4 && 2 <= k <= 3
    requires forall i :: 0 <= i < 4 ==> Written(q[i]) && (q[i] == PAD <==> i >= k)
    ensures UrlBuffer(ToUrl(q), g0, g1) == q
  {
    var a, b, u := q[..k], q[k..], ToUrl(q);
    assert q == a + b;
    ToUrlStops(a, b);
    assert |u| % 4 == k && b == Tail(k, g0, g1);
    assert UrlBuffer(u, g0, g1) == FromUrl(u) + Tail(k, g0, g1) == a + b;
  }

  lemma LastGroup(src: seq<byte>, g0: byte, g1: byte)
    requires 1 <= |src| <= 2
    ensures UrlBuffer(UrlEncode(src), g0, g1) == Encode(src)
  {
    GroupWritten(src);
    PaddedGroup(Group(src), |src| + 1, g0, g1);
    assert Encode(src) == Group(src) + [] == Group(src);
  }

  lemma BufferStep(u: seq<byte>, rest: seq<byte>, g0: byte, g1: byte)
    requires |u| == 4
    ensures UrlBuffer(u + rest, g0, g1) == FromUrl(u) + UrlBuffer(rest, g0, g1)
  {
    FromUrlThen(u, rest);
    assert (4 + |rest|) % 4 == |rest| % 4;
  }

  /** A group without padding in front. */
  lemma BufferGroup(q: seq<byte>, rest: seq<byte>, g0: byte, g1: byte)
    requires |q| == 4 && forall i :: 0 <= i < 4 ==> q[i] != PAD && Written(q[i])
    ensures UrlBuffer(ToUrl(q + rest), g0, g1) == q + UrlBuffer(ToUrl(rest), g0, g1)
  {
    ToUrlThen(q, rest);
    FromUrlToUrl(q);
    BufferStep(ToUrl(q), ToUrl(rest), g0, g1);
  }

  lemma BufferInduct(src: seq<byte>, g0: byte, g1: byte)
    requires |src| >= 3
    ensures Encode(src) == Group(src) + Encode(src[3..])
    ensures UrlBuffer(UrlEncode(src), g0, g1) == Group(src) + UrlBuffer(UrlEncode(src[3..]), g0, g1)
  {
    GroupWritten(src);
    assert Behind(src) == src[3..];
    BufferGroup(Group(src), Encode(src[3..]), g0, g1);
  }

  /** What the block holds behind the encoding. */
  function Stray(n: nat, g0: byte, g1: byte): seq<byte> {
    if n % 3 == 0 then [g0, g1, PAD, PAD] else []
  }

  lemma BufferNext(src: seq<byte>, g0: byte, g1: byte, t: seq<byte>)
    requires |src| >= 3 && UrlBuffer(UrlEncode(src[3..]), g0, g1) == Encode(src[3..]) + t
    ensures UrlBuffer(UrlEncode(src), g0, g1) == Encode(src) + t
  {
    BufferInduct(src, g0, g1);
    Regroup(Group(src), Encode(src[3..]), t);
  }

  lemma Regroup(a: seq<byte>, b: seq<byte>, c: seq<byte>)
    ensures a + (b + c) == a + b + c
  {
  }

  lemma BufferOfNone(src: seq<byte>, g0: byte, g1: byte)
    requires src == []
    ensures UrlBuffer(UrlEncode(src), g0, g1) == Encode(src) + [g0, g1, PAD, PAD]
  {
  }

  /** The decoder rebuilds the padded encoding, and behind whole groups a group of its own. */
  lemma {:induction false} BufferIsEncoding(src: seq<byte>, g0: byte, g1: byte)
    ensures UrlBuffer(UrlEncode(src), g0, g1) == Encode(src) + Stray(|src|, g0, g1)
    decreases |src|
  {
    if |src| >= 3 {
      BufferIsEncoding(src[3..], g0, g1);
      BufferNext(src, g0, g1, Stray(|src|, g0, g1));
    } else if src != [] {
      LastGroup(src, g0, g1);
      assert Encode(src) + [] == Encode(src);
    } else {
      BufferOfNone(src, g0, g1);
    }
  }

  lemma EncodedNoNul(src: seq<byte>)
    ensures NoNul(Encode(src))
  {
    EncodedWritten(src);
    forall i | 0 <= i < |Encode(src)| ensures Encode(src)[i] != 0 {
      assert Written(Encode(src)[i]);
    }
  }

  /** The whole encoding is read as it is. */
  lemma PlainString(e: seq<byte>)
    requires NoNul(e) && WholeGroups(e)
    ensures CString(e) == e && WholeRead(e, |e|) == e
  {
    CStringWhole(e, []);
    assert e + [] == e;
  }

  /** Behind a whole encoding two stray bytes follow: a NUL first ends the string, anything else makes the
      decoder read one more group. */
  lemma StrayString(e: seq<byte>, g0: byte, g1: byte)
    requires NoNul(e) && WholeGroups(e)
    ensures var b := e + [g0, g1, PAD, PAD];
            var n := |CString(b)|;
            && n == |e| + (if g0 == 0 then 0 else if g1 == 0 then 1 else 4)
            && WholeRead(b, n) == if g0 == 0 then e else b
  {
    var t := [g0, g1, PAD, PAD];
    CStringWhole(e, t);
    assert t[1..] == [g1, PAD, PAD] && t[1..][1..] == [PAD, PAD] && t[1..][1..][1..] == [PAD];
    assert |CString([PAD])| == 1;
    assert |CString([PAD, PAD])| == 2;
    assert |CString(t)| == if g0 == 0 then 0 else if g1 == 0 then 1 else 4;
    WholeReadOf(e, t, |CString(t)|);
  }

  lemma WholeReadOf(e: seq<byte>, t: seq<byte>, k: nat)
    requires WholeGroups(e) && |t| == 4 && k <= 4
    ensures WholeRead(e + t, |e| + k) == if k == 0 then e else e + t
  {
  }

  lemma StrayGroup(g0: byte, g1: byte)
    ensures |Decode([g0, g1, PAD, PAD])| == 1
  {
  }

  lemma EncodedWhole(src: seq<byte>, k: nat)
    requires |Encode(src)| == 4 * k
    ensures WholeGroups(Encode(src))
  {
  }

  /** What is decoded, and how many characters base64_Decode takes the string to have. */
  lemma UrlDecoded(src: seq<byte>, g0: byte, g1: byte)
    ensures var n := |CString(UrlBuffer(UrlEncode(src), g0, g1))|;
            if |src| % 3 != 0 || g0 == 0 then UrlDecode(UrlEncode(src), g0, g1) == src && n == |Encode(src)|
            else |UrlDecode(UrlEncode(src), g0, g1)| == |src| + 1 && n == |Encode(src)| + if g1 == 0 then 1 else 4
  {
    var e := Encode(src);
    EncodedLength(src);
    EncodedWhole(src, Groups(|src|));
    BufferIsEncoding(src, g0, g1);
    EncodedNoNul(src);
    RoundTrip(src);
    if |src| % 3 != 0 {
      PlainString(e);
      assert e + [] == e;
    } else {
      StrayString(e, g0, g1);
      if g0 != 0 {
        DecodeAfterEncode(src, |src| / 3, [g0, g1, PAD, PAD]);
        StrayGroup(g0, g1);
      }
    }
  }

  /** base64url round-trips exactly when the last group is short, or malloc happened to leave a NUL behind the
      whole groups. */
  lemma RoundTripIff(src: seq<byte>, g0: byte, g1: byte)
    ensures UrlDecode(UrlEncode(src), g0, g1) == src <==> |src| % 3 != 0 || g0 == 0
  {
    UrlDecoded(src, g0, g1);
  }

  lemma GroupsOf(n: nat)
    ensures n % 3 == 0 ==> 4 * Groups(n) * 3 / 4 == n && (4 * Groups(n) + 1) * 3 / 4 == n
    ensures n % 3 == 0 ==> (4 * Groups(n) + 4) * 3 / 4 == n + 3
    ensures n <= 4 * Groups(n) * 3 / 4
  {
  }

  /** Decoding an encoding writes within the block that base64_Decode takes for it exactly when the last group is
      short, or the first stray byte is a NUL, or the second one is not. */
  lemma UrlWritesFitIff(src: seq<byte>, g0: byte, g1: byte)
    ensures |UrlDecode(UrlEncode(src), g0, g1)| <= |CString(UrlBuffer(UrlEncode(src), g0, g1))| * 3 / 4
            <==> |src| % 3 != 0 || g0 == 0 || g1 != 0
  {
    UrlDecoded(src, g0, g1);
    EncodedLength(src);
    GroupsOf(|src|);
  }
}
