/**
 PersistentVolume names: "local-pv-" and the FNV-1a 32-bit hash, in hexadecimal, of the link's
 file name, the node name and the storage class name, fed to the hash one after the other.
 */
module PvName {

  const WORD := 0x1_0000_0000
  const FNV_OFFSET: nat := 2166136261
  const FNV_PRIME: nat := 16777619
  // FNV_PRIME * FNV_INVERSE == 1 + FNV_CARRY * WORD
  const FNV_INVERSE: nat := 899433627
  const FNV_CARRY: nat := 3513497

  type Byte = b: int | 0 <= b < 256
  type Word = w: int | 0 <= w < WORD

  // Exclusive or of the lowest `bits` bits.
  function Xor(a: nat, b: nat, bits: nat): nat {
    if bits == 0 then 0 else (a % 2 + b % 2) % 2 + 2 * Xor(a / 2, b / 2, bits - 1)
  }

  function Pow2(n: nat): (p: nat)
    ensures p > 0
  {
    if n == 0 then 1 else 2 * Pow2(n - 1)
  }

  lemma {:induction false} XorBound(a: nat, b: nat, bits: nat)
    ensures Xor(a, b, bits) < Pow2(bits)
  {
    if bits > 0 {
      XorBound(a / 2, b / 2, bits - 1);
    }
  }

  lemma XorParts(a: nat, b: nat, bits: nat)
    requires bits > 0
    ensures Xor(a, b, bits) % 2 == (a % 2 + b % 2) % 2
    ensures Xor(a, b, bits) / 2 == Xor(a / 2, b / 2, bits - 1)
  {
  }

  lemma {:induction false} XorCancels(a: nat, b: nat, c: nat, bits: nat)
    requires a < Pow2(bits) && b < Pow2(bits) && Xor(a, c, bits) == Xor(b, c, bits)
    ensures a == b
  {
    if bits > 0 {
      XorParts(a, c, bits);
      XorParts(b, c, bits);
      assert a % 2 == b % 2;
      XorCancels(a / 2, b / 2, c / 2, bits - 1);
    }
  }

  lemma {:induction false} XorCommutes(a: nat, b: nat, bits: nat)
    ensures Xor(a, b, bits) == Xor(b, a, bits)
  {
    if bits > 0 {
      XorCommutes(a / 2, b / 2, bits - 1);
    }
  }

  lemma WordIsPow2()
    ensures Pow2(32) == WORD
  {
    assert Pow2(8) == 256;
    assert Pow2(16) == 256 * Pow2(8);
    assert Pow2(24) == 256 * Pow2(16);
    assert Pow2(32) == 256 * Pow2(24);
  }

  // One FNV-1a step: xor the byte in, then multiply by the prime, modulo 2^32.
  function Mix(h: Word, b: Byte): Word {
    Xor(h, b, 32) * FNV_PRIME % WORD
  }

  function Feed(h: Word, bytes: seq<Byte>): Word
    decreases bytes
  {
    if bytes == [] then h else Feed(Mix(h, bytes[0]), bytes[1..])
  }

  // Writing bytes to the hash state, one after the other.
  method Write(h: Word, bytes: seq<Byte>) returns (r: Word)
    ensures r == Feed(h, bytes)
  {
    r := h;
    for i := 0 to |bytes|
      invariant Feed(h, bytes) == Feed(r, bytes[i..])
    {
      assert bytes[i..][1..] == bytes[i + 1..];
      r := Mix(r, bytes[i]);
    }
  }

  // The prime is odd, so multiplying by it loses nothing modulo 2^32.
  lemma PrimeCancels(x: Word, y: Word)
    requires x * FNV_PRIME % WORD == y * FNV_PRIME % WORD
    ensures x == y
  {
    var k, l := x * FNV_PRIME / WORD, y * FNV_PRIME / WORD;
    assert (x - y) * FNV_PRIME == (k - l) * WORD;
    var e := (k - l) * FNV_INVERSE - FNV_CARRY * (x - y);
    assert x - y == WORD * e;
  }

  // Each step can be undone, from either side.
  lemma MixInvertible(h: Word, g: Word, b: Byte, c: Byte)
    ensures Mix(h, b) == Mix(g, b) ==> h == g
    ensures Mix(h, b) == Mix(h, c) ==> b == c
  {
    WordIsPow2();
    XorBound(h, b, 32);
    XorBound(g, b, 32);
    XorBound(h, c, 32);
    if Mix(h, b) == Mix(g, b) {
      PrimeCancels(Xor(h, b, 32), Xor(g, b, 32));
      XorCancels(h, g, b, 32);
    }
    if Mix(h, b) == Mix(h, c) {
      PrimeCancels(Xor(h, b, 32), Xor(h, c, 32));
      XorCommutes(h, b, 32);
      XorCommutes(h, c, 32);
      XorCancels(b, c, h, 32);
    }
  }

  lemma {:induction false} FeedConcat(h: Word, a: seq<Byte>, b: seq<Byte>)
    ensures Feed(h, a + b) == Feed(Feed(h, a), b)
    decreases a
  {
    if a == [] {
      assert a + b == b;
    } else {
      assert (a + b)[0] == a[0] && (a + b)[1..] == a[1..] + b;
      FeedConcat(Mix(h, a[0]), a[1..], b);
    }
  }

  lemma {:induction false} FeedInjective(h: Word, g: Word, bytes: seq<Byte>)
    requires Feed(h, bytes) == Feed(g, bytes)
    ensures h == g
    decreases bytes
  {
    if bytes != [] {
      FeedInjective(Mix(h, bytes[0]), Mix(g, bytes[0]), bytes[1..]);
      MixInvertible(h, g, bytes[0], bytes[0]);
    }
  }

  // ----- The printed name -----

  function HexDigit(d: nat): char
    requires d < 16
  {
    if d < 10 then '0' + d as char else 'a' + (d - 10) as char
  }

  // %x: lower-case digits, no leading zeros.
  function Hex(n: nat): (s: string)
    ensures s != []
  {
    if n < 16 then [HexDigit(n)] else Hex(n / 16) + [HexDigit(n % 16)]
  }

  lemma HexParts(n: nat)
    ensures Hex(n)[|Hex(n)| - 1] == HexDigit(n % 16)
    ensures Hex(n)[..|Hex(n)| - 1] == if n < 16 then [] else Hex(n / 16)
  {
  }

  lemma HexDigitInjective(d: nat, e: nat)
    requires d < 16 && e < 16 && HexDigit(d) == HexDigit(e)
    ensures d == e
  {
  }

  lemma {:induction false} HexInjective(n: nat, m: nat)
    requires Hex(n) == Hex(m)
    ensures n == m
  {
    HexParts(n);
    HexParts(m);
    HexDigitInjective(n % 16, m % 16);
    if n >= 16 && m >= 16 {
      HexInjective(n / 16, m / 16);
    }
  }

  // Names are byte strings.
  function GeneratePVName(file: seq<Byte>, node: seq<Byte>, sc: seq<Byte>): string {
    "local-pv-" + Hex(Feed(Feed(Feed(FNV_OFFSET, file), node), sc))
  }

  function EncodeChar(c: char): seq<Byte> {
    var n := c as int;
    if n < 0x80 then [n]
    else if n < 0x800 then [0xC0 + n / 64, 0x80 + n % 64]
    else if n < 0x10000 then [0xE0 + n / 4096, 0x80 + n / 64 % 64, 0x80 + n % 64]
    else [0xF0 + n / 262144, 0x80 + n / 4096 % 64, 0x80 + n / 64 % 64, 0x80 + n % 64]
  }

  function Utf8(s: string): seq<Byte> {
    if s == [] then [] else EncodeChar(s[0]) + Utf8(s[1..])
  }

  lemma NameEqualIffHashEqual(f: seq<Byte>, n: seq<Byte>, c: seq<Byte>, f': seq<Byte>, n': seq<Byte>, c': seq<Byte>)
    ensures GeneratePVName(f, n, c) == GeneratePVName(f', n', c')
            <==> Feed(FNV_OFFSET, f + n + c) == Feed(FNV_OFFSET, f' + n' + c')
  {
    FeedConcat(FNV_OFFSET, f + n, c);
    FeedConcat(FNV_OFFSET, f, n);
    FeedConcat(FNV_OFFSET, f' + n', c');
    FeedConcat(FNV_OFFSET, f', n');
    var a, b := GeneratePVName(f, n, c), GeneratePVName(f', n', c');
    var x, y := Feed(FNV_OFFSET, f + n + c), Feed(FNV_OFFSET, f' + n' + c');
    assert a[9..] == Hex(x) && b[9..] == Hex(y);
    if a == b {
      HexInjective(x, y);
    }
  }

  // The name depends only on the three parts run together.
  lemma NameDependsOnConcatenation(
    f: seq<Byte>, n: seq<Byte>, c: seq<Byte>, f': seq<Byte>, n': seq<Byte>, c': seq<Byte>)
    requires f + n + c == f' + n' + c'
    ensures GeneratePVName(f, n, c) == GeneratePVName(f', n', c')
  {
    NameEqualIffHashEqual(f, n, c, f', n', c');
  }

  // File names of the same length that differ in one byte get different names.
  lemma OneByteApart(pre: seq<Byte>, x: Byte, y: Byte, post: seq<Byte>, n: seq<Byte>, c: seq<Byte>)
    requires x != y
    ensures GeneratePVName(pre + [x] + post, n, c) != GeneratePVName(pre + [y] + post, n, c)
  {
    NameEqualIffHashEqual(pre + [x] + post, n, c, pre + [y] + post, n, c);
    var rest := post + n + c;
    assert pre + [x] + post + n + c == pre + ([x] + rest);
    assert pre + [y] + post + n + c == pre + ([y] + rest);
    FeedConcat(FNV_OFFSET, pre, [x] + rest);
    FeedConcat(FNV_OFFSET, pre, [y] + rest);
    var h := Feed(FNV_OFFSET, pre);
    FeedConcat(h, [x], rest);
    FeedConcat(h, [y], rest);
    assert Feed(h, [x]) == Mix(h, x) && Feed(h, [y]) == Mix(h, y);
    if Feed(Mix(h, x), rest) == Feed(Mix(h, y), rest) {
      FeedInjective(Mix(h, x), Mix(h, y), rest);
      MixInvertible(h, h, x, y);
    }
  }

  // Distinct (file, class) pairs on one node can share a name: nothing separates the parts.
  // On node "n", file "a" of class "nb" and file "an" of class "b" both hash "annb".
  lemma NamesCanCollide()
    ensures exists f: seq<Byte>, c: seq<Byte>, f': seq<Byte>, c': seq<Byte>, n: seq<Byte> ::
              (f, c) != (f', c') && f != [] && c != [] && f' != [] && c' != [] && n != []
              && GeneratePVName(f, n, c) == GeneratePVName(f', n, c')
  {
    var n: seq<Byte>, f: seq<Byte>, c: seq<Byte> := [110], [97], [110, 98];
    var f': seq<Byte>, c': seq<Byte> := [97, 110], [98];
    NameDependsOnConcatenation(f, n, c, f', n, c');
  }

  lemma {:induction false} XorZero(a: nat, bits: nat)
    requires a < Pow2(bits)
    ensures Xor(a, 0, bits) == a
  {
    if bits > 0 {
      XorZero(a / 2, bits - 1);
    }
  }

  // One more bit of a known result.
  lemma XorStep(a: nat, b: nat, bits: nat, r: nat)
    requires bits > 0 && Xor(a / 2, b / 2, bits - 1) == r / 2 && (a % 2 + b % 2) % 2 == r % 2
    ensures Xor(a, b, bits) == r
  {
  }

  lemma HexStep(n: nat, s: string)
    requires s != [] && s[|s| - 1] == HexDigit(n % 16)
    requires if n < 16 then |s| == 1 else Hex(n / 16) == s[..|s| - 1]
    ensures Hex(n) == s
  {
  }

  lemma TopBits()
    ensures Pow2(25) == 0x200_0000
  {
    assert Pow2(8) == 256;
    assert Pow2(16) == 256 * Pow2(8);
    assert Pow2(24) == 256 * Pow2(16);
  }

  lemma MixLetterA()
    ensures Mix(FNV_OFFSET, 97) == 3826002220
  {
    TopBits();
    hide Xor, Pow2;
    XorZero(16922939, 25);
    XorStep(33845879, 1, 26, 33845878);
    XorStep(67691758, 3, 27, 67691757);
    XorStep(135383516, 6, 28, 135383514);
    XorStep(270767032, 12, 29, 270767028);
    XorStep(541534065, 24, 30, 541534057);
    XorStep(1083068130, 48, 31, 1083068114);
    XorStep(2166136261, 97, 32, 2166136228);
  }

  // Two of the published FNV-1a test vectors: nothing, and the letter a.
  lemma KnownNames()
    ensures GeneratePVName([], [], []) == "local-pv-811c9dc5"
    ensures GeneratePVName([97], [], []) == "local-pv-e40c292c"
  {
    MixLetterA();
    hide Mix;
    assert Feed(FNV_OFFSET, [97]) == Mix(FNV_OFFSET, 97);
    HexOffset();
    HexLetterA();
    hide Hex;
  }

  lemma HexOffset()
    ensures Hex(2166136261) == "811c9dc5"
  {
    hide Hex;
    HexStep(8, "8");
    HexStep(129, "81");
    HexStep(2065, "811");
    HexStep(33052, "811c");
    HexStep(528841, "811c9");
    HexStep(8461469, "811c9d");
    HexStep(135383516, "811c9dc");
    HexStep(2166136261, "811c9dc5");
  }

  lemma HexLetterA()
    ensures Hex(3826002220) == "e40c292c"
  {
    hide Hex;
    HexStep(14, "e");
    HexStep(228, "e4");
    HexStep(3648, "e40");
    HexStep(58380, "e40c");
    HexStep(934082, "e40c2");
    HexStep(14945321, "e40c29");
    HexStep(239125138, "e40c292");
    HexStep(3826002220, "e40c292c");
  }
}
