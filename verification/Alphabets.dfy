/** The codecs character by character: RFC 4648, tables 1, 2 and 5, and the arithmetic of section 4. */
module Alphabets {
  import opened Common
  import Base16
  import opened Base64
  import opened Base64Url

  // ---------------------------------------------------------------------------------------------
  // Bytes as numbers

  lemma ShiftedRight(a: byte)
    ensures (a >> 2) as int == a as int / 4 && (a >> 4) as int == a as int / 16
  {
  }

  lemma ShiftedRight6(a: byte)
    ensures (a >> 6) as int == a as int / 64
  {
  }

  lemma Masked(a: byte)
    ensures (a & 0x3) as int == a as int % 4
  {
  }

  lemma Masked4(a: byte)
    ensures (a & 0xF) as int == a as int % 16
  {
  }

  lemma Masked6(a: byte)
    ensures (a & 0x3F) as int == a as int % 64
  {
  }

  lemma Joined4(x: byte, y: byte)
    requires x < 16 && y < 16
    ensures ((x << 4) | y) as int == x as int * 16 + y as int
  {
  }

  lemma Joined2(x: byte, y: byte)
    requires x < 64 && y < 4
    ensures ((x << 2) | y) as int == x as int * 4 + y as int
  {
  }

  lemma Joined6(x: byte, y: byte)
    requires x < 4 && y < 64
    ensures ((x << 6) | y) as int == x as int * 64 + y as int
  {
  }

  // ---------------------------------------------------------------------------------------------
  // Base64

  /** The i-th byte, 0 where there is none. */
  function ByteAt(src: seq<byte>, i: nat): (n: int)
    ensures 0 <= n < 256
  {
    if i < |src| then src[i] as int else 0
  }

  /** The code of the n-th character of the alphabet. */
  function Code(n: int): int {
    if n < 26 then n + 65 else if n < 52 then n + 71 else if n < 62 then n - 4 else if n == 62 then 43 else 47
  }

  lemma Spelled(alphabet: string, n: int)
    requires alphabet == "ABCDEFGHIJKLMNOPQRSTUVWXYZ" + "abcdefghijklmnopqrstuvwxyz" + "0123456789" + "+/"
    requires 0 <= n < 64
    ensures |alphabet| == 64 && alphabet[n] as int == Code(n)
  {
    if n < 26 {
      assert alphabet[n] == "ABCDEFGHIJKLMNOPQRSTUVWXYZ"[n];
    } else if n < 52 {
      assert alphabet[n] == "abcdefghijklmnopqrstuvwxyz"[n - 26];
    } else if n < 62 {
      assert alphabet[n] == "0123456789"[n - 52];
    } else {
      assert alphabet[n] == "+/"[n - 62];
    }
  }

  lemma CharCode(i: byte, n: int)
    requires n == i as int < 64
    ensures IndexToChar(i) as int == Code(n)
  {
  }

  lemma Indices(a: byte, b: byte, c: byte)
    ensures In0(a) as int == a as int / 4
    ensures In1(a, b) as int == a as int % 4 * 16 + b as int / 16
    ensures In2(b, c) as int == b as int % 16 * 4 + c as int / 64
    ensures In3(c) as int == c as int % 64
  {
    ShiftedRight(a);
    ShiftedRight(b);
    ShiftedRight6(c);
    Masked(a);
    Masked4(b);
    Masked6(c);
    Joined4(a & 0x3, b >> 4);
    Joined2(b & 0xF, c >> 6);
  }

  // The four six-bit numbers in 24 bits.

  lemma Sextet0(a: int, b: int, c: int)
    requires 0 <= a < 256 && 0 <= b < 256 && 0 <= c < 256
    ensures (65536 * a + 256 * b + c) / 262144 % 64 == a / 4
  {
    var q, r := a / 4, a % 4;
    assert 65536 * a + 256 * b + c == 262144 * q + (65536 * r + 256 * b + c);
  }

  lemma Sextet1(a: int, b: int, c: int)
    requires 0 <= a < 256 && 0 <= b < 256 && 0 <= c < 256
    ensures (65536 * a + 256 * b + c) / 4096 % 64 == a % 4 * 16 + b / 16
  {
    Sextet1Of(a / 4, a % 4, b / 16, b % 16, c);
  }

  lemma Sextet1Of(q: nat, r: nat, x: nat, y: nat, c: nat)
    requires r < 4 && x < 16 && y < 16 && c < 256
    ensures (65536 * (4 * q + r) + 256 * (16 * x + y) + c) / 4096 % 64 == r * 16 + x
  {
    var m := 64 * q + (16 * r + x);
    assert 65536 * (4 * q + r) + 256 * (16 * x + y) + c == 4096 * m + (256 * y + c);
    assert (4096 * m + (256 * y + c)) / 4096 == m;
  }

  lemma Sextet2(a: int, b: int, c: int)
    requires 0 <= a < 256 && 0 <= b < 256 && 0 <= c < 256
    ensures (65536 * a + 256 * b + c) / 64 % 64 == b % 16 * 4 + c / 64
  {
    var x, y, z, w := b / 16, b % 16, c / 64, c % 64;
    assert 65536 * a + 256 * b + c == 64 * (1024 * a + 64 * x + 4 * y + z) + w;
    assert (65536 * a + 256 * b + c) / 64 == 64 * (16 * a + x) + (4 * y + z);
  }

  lemma Sextet3(a: int, b: int, c: int)
    requires 0 <= a < 256 && 0 <= b < 256 && 0 <= c < 256
    ensures (65536 * a + 256 * b + c) % 64 == c % 64
  {
    assert 65536 * a + 256 * b + c == 64 * (1024 * a + 4 * b) + c;
  }

  /** Six of the 24 bits of three bytes, k counting from the left. */
  function Sextet(a: int, b: int, c: int, k: nat): (n: int)
    requires 0 <= a < 256 && 0 <= b < 256 && 0 <= c < 256 && k < 4
    ensures 0 <= n < 64
  {
    var word := 65536 * a + 256 * b + c;
    [word / 262144, word / 4096, word / 64, word][k] % 64
  }

  lemma Sextets(a: int, b: int, c: int)
    requires 0 <= a < 256 && 0 <= b < 256 && 0 <= c < 256
    ensures Sextet(a, b, c, 0) == a / 4
    ensures Sextet(a, b, c, 1) == a % 4 * 16 + b / 16
    ensures Sextet(a, b, c, 2) == b % 16 * 4 + c / 64
    ensures Sextet(a, b, c, 3) == c % 64
  {
    Sextet0(a, b, c);
    Sextet1(a, b, c);
    Sextet2(a, b, c);
    Sextet3(a, b, c);
  }

  lemma IndexChars(i0: byte, i1: byte, i2: byte, i3: byte, x: int, y: int, z: int)
    requires 0 <= x < 256 && 0 <= y < 256 && 0 <= z < 256
    requires i0 as int == x / 4 && i1 as int == x % 4 * 16 + y / 16
    requires i2 as int == y % 16 * 4 + z / 64 && i3 as int == z % 64
    ensures IndexToChar(i0) as int == Code(Sextet(x, y, z, 0)) && IndexToChar(i1) as int == Code(Sextet(x, y, z, 1))
    ensures IndexToChar(i2) as int == Code(Sextet(x, y, z, 2)) && IndexToChar(i3) as int == Code(Sextet(x, y, z, 3))
  {
    Sextets(x, y, z);
    CharCode(i0, Sextet(x, y, z, 0));
    CharCode(i1, Sextet(x, y, z, 1));
    CharCode(i2, Sextet(x, y, z, 2));
    CharCode(i3, Sextet(x, y, z, 3));
  }

  /** The four characters of three bytes, whose numbers are x, y, z. */
  lemma Chars(a: byte, b: byte, c: byte, x: int, y: int, z: int)
    requires x == a as int && y == b as int && z == c as int
    ensures 0 <= x < 256 && 0 <= y < 256 && 0 <= z < 256
    ensures IndexToChar(In0(a)) as int == Code(Sextet(x, y, z, 0))
    ensures IndexToChar(In1(a, b)) as int == Code(Sextet(x, y, z, 1))
    ensures IndexToChar(In2(b, c)) as int == Code(Sextet(x, y, z, 2))
    ensures IndexToChar(In3(c)) as int == Code(Sextet(x, y, z, 3))
  {
    Indices(a, b, c);
    IndexChars(In0(a), In1(a, b), In2(b, c), In3(c), x, y, z);
  }

  /** The code of the r-th character for the three bytes from g on. */
  function CodeAt(src: seq<byte>, g: nat, r: nat): int
    requires r < 4
  {
    if g + r > |src| then 61 else Code(Sextet(ByteAt(src, g), ByteAt(src, g + 1), ByteAt(src, g + 2), r))
  }

  lemma GroupCodes(src: seq<byte>, r: nat)
    requires src != [] && r < 4
    ensures Group(src)[r] as int == CodeAt(src, 0, r)
  {
    var a := src[0];
    var b := if |src| > 1 then src[1] else 0;
    var c := if |src| > 2 then src[2] else 0;
    Chars(a, b, c, ByteAt(src, 0), ByteAt(src, 1), ByteAt(src, 2));
  }

  lemma CodeBehind(src: seq<byte>, g: nat, r: nat)
    requires |src| > 3 && r < 4
    ensures CodeAt(src[3..], g, r) == CodeAt(src, g + 3, r)
  {
    assert forall i: nat :: ByteAt(src[3..], i) == ByteAt(src, i + 3);
  }

  lemma EncodedBehind(src: seq<byte>, k: nat)
    requires 4 <= k < |Encode(src)|
    ensures |src| > 3 && k - 4 < |Encode(src[3..])| && Encode(src)[k] == Encode(src[3..])[k - 4]
  {
  }

  lemma FirstGroup(src: seq<byte>, k: nat)
    requires k < 4 && k < |Encode(src)|
    ensures src != [] && Encode(src)[k] == Group(src)[k]
  {
  }

  lemma FirstCodes(src: seq<byte>, r: nat)
    requires r < 4 && r < |Encode(src)|
    ensures Encode(src)[r] as int == CodeAt(src, 0, r)
  {
    FirstGroup(src, r);
    GroupCodes(src, r);
  }

  lemma {:induction false} EncodedCodes(src: seq<byte>, k: nat, q: nat, r: nat)
    requires k < |Encode(src)| && k == 4 * q + r && r < 4
    ensures Encode(src)[k] as int == CodeAt(src, 3 * q, r)
    decreases q
  {
    if q == 0 {
      FirstCodes(src, r);
    } else {
      EncodedBehind(src, k);
      EncodedCodes(src[3..], k - 4, q - 1, r);
      CodeBehind(src, 3 * (q - 1), r);
    }
  }

  /** Character r of group q of base64_Encode: '=' if it is behind the bytes of a short group, and else the
      character of the alphabet at the position its six bits of the group's three bytes spell, missing bytes being
      0. */
  lemma CharacterLaw(src: seq<byte>, q: nat, r: nat)
    requires r < 4 && 4 * q + r < |Encode(src)|
    ensures var alphabet := "ABCDEFGHIJKLMNOPQRSTUVWXYZ" + "abcdefghijklmnopqrstuvwxyz" + "0123456789" + "+/";
            var n := Sextet(ByteAt(src, 3 * q), ByteAt(src, 3 * q + 1), ByteAt(src, 3 * q + 2), r);
            Encode(src)[4 * q + r] as int == (if 3 * q + r > |src| then '=' as int else alphabet[n] as int)
  {
    EncodedCodes(src, 4 * q + r, q, r);
    Spelled("ABCDEFGHIJKLMNOPQRSTUVWXYZ" + "abcdefghijklmnopqrstuvwxyz" + "0123456789" + "+/",
            Sextet(ByteAt(src, 3 * q), ByteAt(src, 3 * q + 1), ByteAt(src, 3 * q + 2), r));
  }

  // ---------------------------------------------------------------------------------------------
  // Base64url

  /** Where the padding begins. */
  lemma PaddingAt(n: nat, q: nat, r: nat)
    requires 3 * q < n && r < 4
    ensures 3 * q + r > n <==> 4 * q + r >= (4 * n + 2) / 3
  {
  }

  lemma {:induction false} ToUrlTo(s: seq<byte>, m: nat)
    requires m <= |s| && (forall i :: 0 <= i < m ==> s[i] != 0x3D) && (m < |s| ==> s[m] == 0x3D)
    ensures |ToUrl(s)| == m && forall i :: 0 <= i < m ==> ToUrl(s)[i] == UrlChar(s[i])
    decreases m
  {
    if m > 0 {
      ToUrlTo(s[1..], m - 1);
    }
  }

  /** The code of the n-th character of the base64url alphabet. */
  function UrlCode(n: int): int {
    if n == 62 then 45 else if n == 63 then 95 else Code(n)
  }

  lemma UrlCharCode(c: byte, n: int)
    requires 0 <= n < 64 && c as int == Code(n)
    ensures UrlChar(c) as int == UrlCode(n) && c != 0x3D
  {
  }

  lemma UrlSpelled(alphabet: string, n: int)
    requires alphabet == "ABCDEFGHIJKLMNOPQRSTUVWXYZ" + "abcdefghijklmnopqrstuvwxyz" + "0123456789" + "-_"
    requires 0 <= n < 64
    ensures |alphabet| == 64 && alphabet[n] as int == UrlCode(n)
  {
    if n < 26 {
      assert alphabet[n] == "ABCDEFGHIJKLMNOPQRSTUVWXYZ"[n];
    } else if n < 52 {
      assert alphabet[n] == "abcdefghijklmnopqrstuvwxyz"[n - 26];
    } else if n < 62 {
      assert alphabet[n] == "0123456789"[n - 52];
    } else {
      assert alphabet[n] == "-_"[n - 62];
    }
  }

  /** The character at k = 4q + r of an encoding is padding from (4n + 2) / 3 on. */
  lemma PaddingIff(src: seq<byte>, k: nat)
    requires k < |Encode(src)|
    ensures Encode(src)[k] == 0x3D <==> k >= (4 * |src| + 2) / 3
  {
    var q, r := k / 4, k % 4;
    EncodedLength(src);
    EncodedCodes(src, k, q, r);
    GroupBegun(|src|, k, q);
    PaddingAt(|src|, q, r);
  }

  lemma GroupBegun(n: nat, k: nat, q: nat)
    requires k < 4 * Groups(n) && q == k / 4
    ensures 3 * q < n
  {
  }

  lemma UrlLength(src: seq<byte>)
    ensures (4 * |src| + 2) / 3 <= |Encode(src)|
  {
    EncodedLength(src);
  }

  lemma UrlAt(src: seq<byte>, k: nat)
    ensures |UrlEncode(src)| == (4 * |src| + 2) / 3 <= |Encode(src)|
    ensures k < |UrlEncode(src)| ==> UrlEncode(src)[k] == UrlChar(Encode(src)[k]) && Encode(src)[k] != 0x3D
  {
    var e, m := Encode(src), (4 * |src| + 2) / 3;
    UrlLength(src);
    forall i: nat | i < |e| ensures e[i] == 0x3D <==> i >= m {
      PaddingIff(src, i);
    }
    ToUrlTo(e, m);
  }

  /** aamp_Base64_URL_Encode writes four characters for three bytes, rounded up, and no padding; each is the one
      of its alphabet at the position its six bits spell. */
  lemma UrlCharacterLaw(src: seq<byte>, q: nat, r: nat)
    requires r < 4
    ensures |UrlEncode(src)| == (4 * |src| + 2) / 3
    ensures var alphabet := "ABCDEFGHIJKLMNOPQRSTUVWXYZ" + "abcdefghijklmnopqrstuvwxyz" + "0123456789" + "-_";
            var n := Sextet(ByteAt(src, 3 * q), ByteAt(src, 3 * q + 1), ByteAt(src, 3 * q + 2), r);
            4 * q + r < |UrlEncode(src)| ==> UrlEncode(src)[4 * q + r] as int == alphabet[n] as int
  {
    UrlAt(src, 4 * q + r);
    if 4 * q + r < |UrlEncode(src)| {
      UrlCodeAt(src, 4 * q + r, q, r);
      UrlSpelled("ABCDEFGHIJKLMNOPQRSTUVWXYZ" + "abcdefghijklmnopqrstuvwxyz" + "0123456789" + "-_",
                 Sextet(ByteAt(src, 3 * q), ByteAt(src, 3 * q + 1), ByteAt(src, 3 * q + 2), r));
    }
  }

  lemma UrlCodeAt(src: seq<byte>, k: nat, q: nat, r: nat)
    requires k < |Encode(src)| && k == 4 * q + r && r < 4 && Encode(src)[k] != 0x3D
    ensures UrlChar(Encode(src)[k]) as int
         == UrlCode(Sextet(ByteAt(src, 3 * q), ByteAt(src, 3 * q + 1), ByteAt(src, 3 * q + 2), r))
  {
    EncodedCodes(src, k, q, r);
    if 3 * q + r <= |src| {
      UrlCharCode(Encode(src)[k], Sextet(ByteAt(src, 3 * q), ByteAt(src, 3 * q + 1), ByteAt(src, 3 * q + 2), r));
    }
  }

  // ---------------------------------------------------------------------------------------------
  // Decoding base64

  /** A letter, a digit, '+', '-' or '/'. */
  predicate Letter(c: byte) {
    65 <= c <= 90 || 97 <= c <= 122 || 48 <= c <= 57 || c == 43 || c == 45 || c == 47
  }

  lemma OutsideIff(c: byte)
    ensures Outside(c) <==> !Letter(c)
  {
  }

  lemma GroupLength(src: seq<byte>)
    requires |src| >= 4
    ensures |DecodeGroup(src)| == if !Letter(src[2]) then 1 else if !Letter(src[3]) then 2 else 3
  {
    OutsideIff(src[2]);
    OutsideIff(src[3]);
  }

  lemma DecodeNext(src: seq<byte>, k: nat)
    requires |src| >= 4 && k >= 3
    ensures k < |Decode(src)| <==> |DecodeGroup(src)| == 3 && k - 3 < |Decode(src[4..])|
    ensures k < |Decode(src)| ==> Decode(src)[k] == Decode(src[4..])[k - 3]
  {
  }

  lemma DecodeFirst(src: seq<byte>, k: nat)
    requires k < 3
    ensures k < |Decode(src)| <==> |src| >= 4 && k < |DecodeGroup(src)|
    ensures k < |Decode(src)| ==> Decode(src)[k] == DecodeGroup(src)[k]
  {
  }

  /** base64_Decode goes on to its byte k = 3q + r while the last two characters of every group before are
      letters, and those of this group that the byte needs. */
  predicate Reaches(src: seq<byte>, q: nat, r: nat) {
    && 4 * q + 4 <= |src|
    && (forall g :: 0 <= g < q ==> Letter(src[4 * g + 2]) && Letter(src[4 * g + 3]))
    && (r >= 1 ==> Letter(src[4 * q + 2])) && (r == 2 ==> Letter(src[4 * q + 3]))
  }

  lemma ReachesNext(src: seq<byte>, q: nat, r: nat)
    requires |src| >= 4 && q >= 1
    ensures Reaches(src, q, r) <==> Letter(src[2]) && Letter(src[3]) && Reaches(src[4..], q - 1, r)
  {
    var t := src[4..];
    if Reaches(src, q, r) {
      forall g | 0 <= g < q - 1 ensures Letter(t[4 * g + 2]) && Letter(t[4 * g + 3]) {
        assert t[4 * g + 2] == src[4 * (g + 1) + 2] && t[4 * g + 3] == src[4 * (g + 1) + 3];
      }
      assert Letter(src[4 * 0 + 2]);
    }
    if Letter(src[2]) && Letter(src[3]) && Reaches(t, q - 1, r) {
      forall g | 0 <= g < q ensures Letter(src[4 * g + 2]) && Letter(src[4 * g + 3]) {
        if g > 0 {
          assert Letter(t[4 * (g - 1) + 2]) && Letter(t[4 * (g - 1) + 3]);
        }
      }
    }
  }

  lemma {:induction false} DecodeReachesAt(src: seq<byte>, q: nat, r: nat)
    requires r < 3
    ensures 3 * q + r < |Decode(src)| <==> Reaches(src, q, r)
    decreases q
  {
    if |src| >= 4 {
      GroupLength(src);
      if q == 0 {
        DecodeFirst(src, r);
      } else {
        DecodeNext(src, 3 * q + r);
        DecodeReachesAt(src[4..], q - 1, r);
        ReachesNext(src, q, r);
      }
    }
  }

  /** Exactly how far base64_Decode gets: it writes byte k when there are that many whole groups, the third and
      fourth characters of each group before are in the alphabet ('-' counts as '/'), and so are those of the
      group that the byte comes from. */
  lemma DecodeReaches(src: seq<byte>, k: nat)
    ensures k < |Decode(src)| <==>
            && 4 * (k / 3) + 4 <= |src|
            && (forall g :: 0 <= g < k / 3 ==> Letter(src[4 * g + 2]) && Letter(src[4 * g + 3]))
            && (k % 3 >= 1 ==> Letter(src[4 * (k / 3) + 2])) && (k % 3 == 2 ==> Letter(src[4 * (k / 3) + 3]))
  {
    DecodeReachesAt(src, k / 3, k % 3);
  }

  /** The position of a character in the alphabet; '-' stands at that of '/'. */
  predicate Stands(c: byte, n: int) {
    0 <= n < 64 && (c as int == Code(n) || (c == 45 && n == 63))
  }

  lemma StandsIndex(c: byte, n: int)
    requires Stands(c, n)
    ensures CharToIndex(c) as int == n && CharToIndex(c) < 64
  {
  }

  lemma OutBytes(d0: byte, d1: byte, d2: byte, d3: byte)
    requires d1 < 64 && d2 < 64
    ensures d0 < 64 ==> Out0(d0, d1) as int == d0 as int * 4 + d1 as int / 16
    ensures Out1(d1, d2) as int == d1 as int % 16 * 16 + d2 as int / 4
    ensures d3 < 64 ==> Out2(d2, d3) as int == d2 as int % 4 * 64 + d3 as int
  {
    OutShifts(d0, d1, d2, d3);
    ShiftedRight(d1);
    ShiftedRight(d2);
    Masked4(d1);
    Masked(d2);
    Joined4(d1 & 0xF, d2 >> 2);
    if d0 < 64 {
      Joined2(d0, d1 >> 4);
    }
    if d3 < 64 {
      Joined6(d2 & 0x3, d3);
    }
  }

  lemma OutShifts(d0: byte, d1: byte, d2: byte, d3: byte)
    requires d1 < 64 && d2 < 64
    ensures Out0(d0, d1) == (d0 << 2) | (d1 >> 4)
    ensures Out1(d1, d2) == ((d1 & 0xF) << 4) | (d2 >> 2)
    ensures Out2(d2, d3) == ((d2 & 0x3) << 6) | d3
  {
  }

  /** The bytes of characters that stand at known positions. */
  lemma OutAt(c: byte, d: byte, m: int, n: int)
    requires Stands(c, m) && Stands(d, n)
    ensures Out0(CharToIndex(c), CharToIndex(d)) as int == m * 4 + n / 16
    ensures Out1(CharToIndex(c), CharToIndex(d)) as int == m % 16 * 16 + n / 4
    ensures Out2(CharToIndex(c), CharToIndex(d)) as int == m % 4 * 64 + n
  {
    StandsIndex(c, m);
    StandsIndex(d, n);
    OutBytes(CharToIndex(c), CharToIndex(d), 0, 0);
    OutBytes(0, CharToIndex(c), CharToIndex(d), 0);
    OutBytes(0, 0, CharToIndex(c), CharToIndex(d));
  }

  /** Byte r of the three that four six-bit numbers make, from the r-th and the next of them. */
  function Octet(m: int, n: int, r: nat): int
    requires r < 3
  {
    if r == 0 then m * 4 + n / 16 else if r == 1 then m % 16 * 16 + n / 4 else m % 4 * 64 + n
  }

  lemma OutIs(g: byte, c: byte, d: byte, m: int, n: int, r: nat)
    requires r < 3 && Stands(c, m) && Stands(d, n)
    requires r == 0 ==> g == Out0(CharToIndex(c), CharToIndex(d))
    requires r == 1 ==> g == Out1(CharToIndex(c), CharToIndex(d))
    requires r == 2 ==> g == Out2(CharToIndex(c), CharToIndex(d))
    ensures g as int == Octet(m, n, r)
  {
    OutAt(c, d, m, n);
  }

  /** Byte r of the first group. */
  lemma GroupByte(src: seq<byte>, r: nat, m: int, n: int)
    requires |src| >= 4 && r < |DecodeGroup(src)| && Stands(src[r], m) && Stands(src[r + 1], n)
    ensures DecodeGroup(src)[r] as int == Octet(m, n, r)
  {
    OutIs(DecodeGroup(src)[r], src[r], src[r + 1], m, n, r);
  }

  lemma FirstByte(src: seq<byte>, r: nat, m: int, n: int)
    requires r < 3 && r < |Decode(src)| && |src| >= 4 && Stands(src[r], m) && Stands(src[r + 1], n)
    ensures Decode(src)[r] as int == Octet(m, n, r)
  {
    DecodeFirst(src, r);
    GroupByte(src, r, m, n);
  }

  lemma {:induction false} DecodedByteAt(src: seq<byte>, q: nat, r: nat, m: int, n: int)
    requires r < 3 && 3 * q + r < |Decode(src)| && 4 * q + 4 <= |src|
    requires Stands(src[4 * q + r], m) && Stands(src[4 * q + r + 1], n)
    ensures Decode(src)[3 * q + r] as int == Octet(m, n, r)
    decreases q
  {
    if q == 0 {
      FirstByte(src, r, m, n);
    } else {
      DecodeNext(src, 3 * q + r);
      DecodedByteAt(src[4..], q - 1, r, m, n);
    }
  }

  lemma StandsSpelled(alphabet: string, c: byte, n: int)
    requires alphabet == "ABCDEFGHIJKLMNOPQRSTUVWXYZ" + "abcdefghijklmnopqrstuvwxyz" + "0123456789" + "+/"
    requires 0 <= n < 64 && (c as int == alphabet[n] as int || (c as int == '-' as int && n == 63))
    ensures Stands(c, n)
  {
    Spelled(alphabet, n);
  }

  /** Every byte of base64_Decode: its bits are those that the positions of its two characters spell, '-' standing
      where '/' does. */
  lemma DecodedByteLaw(src: seq<byte>, q: nat, r: nat, m: int, n: int)
    requires r < 3 && 3 * q + r < |Decode(src)| && 4 * q + 4 <= |src| && 0 <= m < 64 && 0 <= n < 64
    requires var alphabet := "ABCDEFGHIJKLMNOPQRSTUVWXYZ" + "abcdefghijklmnopqrstuvwxyz" + "0123456789" + "+/";
             var c, d := src[4 * q + r], src[4 * q + r + 1];
             && (c as int == alphabet[m] as int || (c as int == '-' as int && m == 63))
             && (d as int == alphabet[n] as int || (d as int == '-' as int && n == 63))
    ensures Decode(src)[3 * q + r] as int
         == if r == 0 then m * 4 + n / 16 else if r == 1 then m % 16 * 16 + n / 4 else m % 4 * 64 + n
  {
    var alphabet := "ABCDEFGHIJKLMNOPQRSTUVWXYZ" + "abcdefghijklmnopqrstuvwxyz" + "0123456789" + "+/";
    StandsSpelled(alphabet, src[4 * q + r], m);
    StandsSpelled(alphabet, src[4 * q + r + 1], n);
    DecodedByteAt(src, q, r, m, n);
  }

  lemma StrayBytes(c: byte, d: byte, e: byte, n: int)
    ensures !Letter(d) ==> Out0(CharToIndex(c), CharToIndex(d)) as int == 255
    ensures !Letter(c) && Stands(d, n) ==> Out0(CharToIndex(c), CharToIndex(d)) as int == 252 + n / 16
    ensures !Letter(d) && Stands(e, n) ==> Out1(CharToIndex(d), CharToIndex(e)) as int == 240 + n / 4
  {
    StrayBits(CharToIndex(c), CharToIndex(e));
    if !Letter(c) && Stands(d, n) {
      StandsIndex(d, n);
      StrayBits(CharToIndex(d), 0);
      ShiftedRight(CharToIndex(d));
    }
    if !Letter(d) && Stands(e, n) {
      StandsIndex(e, n);
      ShiftedRight(CharToIndex(e));
    }
  }

  lemma StrayBits(x: byte, y: byte)
    ensures Out0(x, 0xFF) == 0xFF
    ensures x < 64 ==> Out0(0xFF, x) as int == 252 + (x >> 4) as int
    ensures y < 64 ==> Out1(0xFF, y) as int == 240 + (y >> 2) as int
  {
  }

  lemma {:induction false} StrayFirstAt(src: seq<byte>, q: nat, n: int)
    requires 3 * q < |Decode(src)| && 4 * q + 4 <= |src|
    ensures !Letter(src[4 * q + 1]) ==> Decode(src)[3 * q] as int == 255
    ensures !Letter(src[4 * q]) && Stands(src[4 * q + 1], n) ==> Decode(src)[3 * q] as int == 252 + n / 16
    decreases q
  {
    if q == 0 {
      FirstStray(src, n);
    } else {
      DecodeNext(src, 3 * q);
      StrayFirstAt(src[4..], q - 1, n);
    }
  }

  lemma {:induction false} StraySecondAt(src: seq<byte>, q: nat, n: int)
    requires 3 * q + 1 < |Decode(src)| && 4 * q + 4 <= |src| && !Letter(src[4 * q + 1]) && Stands(src[4 * q + 2], n)
    ensures Decode(src)[3 * q + 1] as int == 240 + n / 4
    decreases q
  {
    if q == 0 {
      FirstStray(src, n);
    } else {
      DecodeNext(src, 3 * q + 1);
      StraySecondAt(src[4..], q - 1, n);
    }
  }

  lemma FirstStray(src: seq<byte>, n: int)
    requires 0 < |Decode(src)| && 4 <= |src|
    ensures !Letter(src[1]) ==> Decode(src)[0] as int == 255
    ensures !Letter(src[0]) && Stands(src[1], n) ==> Decode(src)[0] as int == 252 + n / 16
    ensures !Letter(src[1]) && 1 < |Decode(src)| && Stands(src[2], n) ==> Decode(src)[1] as int == 240 + n / 4
  {
    DecodeFirst(src, 0);
    DecodeFirst(src, 1);
    StrayBytes(src[0], src[1], src[2], n);
  }

  /** A character outside the alphabet among the first two of a group does not stop base64_Decode: its index is -1, so
      it sets its bits, and as the second of its group all eight of the byte it completes. */
  lemma StrayByteLaw(src: seq<byte>, q: nat, n: int)
    requires 3 * q < |Decode(src)| && 4 * q + 4 <= |src| && 0 <= n < 64
    ensures var alphabet := "ABCDEFGHIJKLMNOPQRSTUVWXYZ" + "abcdefghijklmnopqrstuvwxyz" + "0123456789" + "+/";
            && (!Letter(src[4 * q + 1]) ==> Decode(src)[3 * q] as int == 255)
            && (!Letter(src[4 * q]) && src[4 * q + 1] as int == alphabet[n] as int ==>
                  Decode(src)[3 * q] as int == 252 + n / 16)
            && (!Letter(src[4 * q + 1]) && 3 * q + 1 < |Decode(src)| && src[4 * q + 2] as int == alphabet[n] as int ==>
                  Decode(src)[3 * q + 1] as int == 240 + n / 4)
  {
    Spelled("ABCDEFGHIJKLMNOPQRSTUVWXYZ" + "abcdefghijklmnopqrstuvwxyz" + "0123456789" + "+/", n);
    StrayFirstAt(src, q, n);
    if !Letter(src[4 * q + 1]) && 3 * q + 1 < |Decode(src)| && Stands(src[4 * q + 2], n) {
      StraySecondAt(src, q, n);
    }
  }

  // ---------------------------------------------------------------------------------------------
  // Base16

  /** The code of a hexadecimal digit, given that of the letter for ten less ten. */
  function HexCode(n: int, ten: int): int {
    if n < 10 then n + 48 else n + ten
  }

  lemma HexSpelled(n: int)
    requires 0 <= n < 16
    ensures "0123456789abcdef"[n] as int == HexCode(n, 87)
    ensures "0123456789ABCDEF"[n] as int == HexCode(n, 55)
  {
  }

  /** The digit of a half byte in either case. */
  function Digit(i: byte, capital: bool): byte {
    if i < 10 then i + 48 else if capital then i + 55 else i + 87
  }

  lemma DigitOf(i: byte, n: int, capital: bool)
    requires i as int == n < 16
    ensures Digit(i, capital) as int == HexCode(n, if capital then 55 else 87)
  {
  }

  lemma StreamDigit(c: byte, capital: bool)
    ensures Base16.StreamHigh(c, Base16.Base(capital)) == Digit(c >> 4, capital)
    ensures Base16.StreamLow(c, Base16.Base(capital)) == Digit(c & 0xF, capital)
  {
  }

  lemma StreamCodes(c: byte, capital: bool, n: int)
    requires n == c as int
    ensures var ten := if capital then 55 else 87;
            && Base16.StreamHigh(c, Base16.Base(capital)) as int == HexCode(n / 16, ten)
            && Base16.StreamLow(c, Base16.Base(capital)) as int == HexCode(n % 16, ten)
  {
    ShiftedRight(c);
    Masked4(c);
    StreamDigit(c, capital);
    DigitOf(c >> 4, n / 16, capital);
    DigitOf(c & 0xF, n % 16, capital);
  }

  lemma StreamNext(str: seq<byte>, capital: bool, k: nat)
    requires str != [] && k < 2 * |str|
    ensures var h := Base16.Stream(str, capital);
            && |h| == 2 * |str| && |Base16.Stream(str[1..], capital)| == 2 * |str| - 2
            && h[k] == if k == 0 then Base16.StreamHigh(str[0], Base16.Base(capital))
                       else if k == 1 then Base16.StreamLow(str[0], Base16.Base(capital))
                       else Base16.Stream(str[1..], capital)[k - 2]
  {
    Base16.DecodeStream(str, capital);
    Base16.DecodeStream(str[1..], capital);
  }

  lemma FirstStreamCode(str: seq<byte>, capital: bool, r: nat)
    requires str != [] && r < 2
    ensures r < |Base16.Stream(str, capital)|
    ensures Base16.Stream(str, capital)[r] as int
         == HexCode(if r == 0 then ByteAt(str, 0) / 16 else ByteAt(str, 0) % 16, if capital then 55 else 87)
  {
    StreamNext(str, capital, r);
    StreamCodes(str[0], capital, ByteAt(str, 0));
  }

  lemma StreamBehind(str: seq<byte>, capital: bool, k: nat, c: byte)
    requires 2 <= k < 2 * |str|
    requires k - 2 < |Base16.Stream(str[1..], capital)| && c == Base16.Stream(str[1..], capital)[k - 2]
    ensures |Base16.Stream(str, capital)| == 2 * |str| && Base16.Stream(str, capital)[k] == c
  {
    StreamNext(str, capital, k);
  }

  lemma {:induction false} StreamCodeAt(str: seq<byte>, capital: bool, q: nat, r: nat) returns (c: byte)
    requires q < |str| && r < 2
    ensures |Base16.Stream(str, capital)| == 2 * |str| && c == Base16.Stream(str, capital)[2 * q + r]
    ensures c as int == HexCode(if r == 0 then ByteAt(str, q) / 16 else ByteAt(str, q) % 16, if capital then 55 else 87)
    decreases q
  {
    if q == 0 {
      StreamNext(str, capital, r);
      FirstStreamCode(str, capital, r);
      c := Base16.Stream(str, capital)[r];
    } else {
      c := StreamCodeAt(str[1..], capital, q - 1, r);
      assert ByteAt(str[1..], q - 1) == ByteAt(str, q);
      StreamBehind(str, capital, 2 * q + r, c);
    }
  }

  /** Every character of stream2hex, and so of base16_Encode: the digit of one half of its byte. */
  lemma DigitLaw(str: seq<byte>, capital: bool, q: nat, r: nat)
    requires q < |str| && r < 2
    ensures |Base16.Stream(str, capital)| == |Base16.Encode(str)| == 2 * |str|
    ensures var n := if r == 0 then ByteAt(str, q) / 16 else ByteAt(str, q) % 16;
            && Base16.Encode(str)[2 * q + r] as int == "0123456789abcdef"[n] as int
            && Base16.Stream(str, capital)[2 * q + r] as int
               == (if capital then "0123456789ABCDEF"[n] else "0123456789abcdef"[n]) as int
  {
    Base16.StreamIsEncode(str);
    var c := StreamCodeAt(str, false, q, r);
    var d := StreamCodeAt(str, capital, q, r);
    HexSpelled(if r == 0 then ByteAt(str, q) / 16 else ByteAt(str, q) % 16);
  }

  predicate Hexadecimal(c: byte) {
    48 <= c <= 57 || 65 <= c <= 70 || 97 <= c <= 102
  }

  /** A hexadecimal digit in either case and what it stands for. */
  predicate HexStands(c: byte, n: int) {
    0 <= n < 16 && (c as int == HexCode(n, 87) || c as int == HexCode(n, 55))
  }

  lemma HexIndex(c: byte, n: int)
    requires HexStands(c, n)
    ensures Base16.CharToIndex(c) as int == n && Base16.CharToIndex(c) < 16
  {
  }

  lemma Halves(x: byte, y: byte)
    requires y < 16
    ensures x < 16 ==> ((x << 4) | y) as int == 16 * x as int + y as int
    ensures x == 0xFF ==> ((x << 4) | y) as int == 240 + y as int
    ensures (x << 4) | 0xFF == 0xFF
  {
  }

  lemma {:induction false} PairAt(src: seq<byte>, q: nat)
    requires 2 * q + 2 <= |src|
    ensures q < |Base16.Decode(src)| && Base16.Decode(src)[q] == Base16.Joined(src[2 * q], src[2 * q + 1])
    decreases q
  {
    if q > 0 {
      PairAt(src[2..], q - 1);
    }
  }

  /** Every byte of base16_Decode: of two digits, in either case, the number they spell; a first character that is no
      digit counts as 15, and a second one sets all bits. */
  lemma HexByteLaw(src: seq<byte>, q: nat, m: int, n: int)
    requires 2 * q + 2 <= |src| && 0 <= m < 16 && 0 <= n < 16
    ensures var c, d := src[2 * q], src[2 * q + 1];
            var upper, lower := "0123456789ABCDEF", "0123456789abcdef";
            && q < |Base16.Decode(src)|
            && (!Hexadecimal(d) ==> Base16.Decode(src)[q] == 255)
            && (d as int == upper[n] as int || d as int == lower[n] as int ==>
                  && (!Hexadecimal(c) ==> Base16.Decode(src)[q] as int == 240 + n)
                  && (c as int == upper[m] as int || c as int == lower[m] as int ==>
                        Base16.Decode(src)[q] as int == 16 * m + n))
  {
    var c, d := src[2 * q], src[2 * q + 1];
    PairAt(src, q);
    HexSpelled(m);
    HexSpelled(n);
    HexPair(c, d, m, n);
  }

  lemma HexPair(c: byte, d: byte, m: int, n: int)
    ensures !Hexadecimal(d) ==> Base16.Joined(c, d) == 255
    ensures HexStands(d, n) && !Hexadecimal(c) ==>
              Base16.Joined(c, d) as int == 240 + n
    ensures HexStands(d, n) && HexStands(c, m) ==> Base16.Joined(c, d) as int == 16 * m + n
  {
    if HexStands(d, n) {
      HexIndex(d, n);
      Halves(Base16.CharToIndex(c), Base16.CharToIndex(d));
      if HexStands(c, m) {
        HexIndex(c, m);
      }
    } else {
      Halves(Base16.CharToIndex(c), 0);
    }
  }
}
