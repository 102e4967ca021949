/** Signed 32-bit numbers with the sign moved to the lowest bit. */
module Zigzags {
  import opened Common
  import opened Varints

  type Int32 = v: int | -0x8000_0000 <= v < 0x8000_0000

  /** The unsigned 32-bit number with the same bits. */
  function Unsigned(v: int): (u: nat)
    ensures u < MAX32
  {
    v % MAX32
  }

  /** The signed 32-bit number with the same bits, in two's complement. */
  function Signed(u: nat): Int32
    requires u < MAX32
  {
    if u < 0x8000_0000 then u else u - MAX32
  }

  function PowerOf2(n: nat): nat {
    if n == 0 then 1 else 2 * PowerOf2(n - 1)
  }

  /** Bitwise exclusive or of the lowest `n` bits. */
  function Xor(a: nat, b: nat, n: nat): nat {
    if n == 0 then 0 else (if a % 2 == b % 2 then 0 else 1) + 2 * Xor(a / 2, b / 2, n - 1)
  }

  /** Negating the smallest number wraps around. */
  function EncodeZigzag32(v: Int32): (u: nat)
    ensures u < MAX32
  {
    if v < 0 then Unsigned(Unsigned(-(v as int)) * 2 - 1) else Unsigned(v * 2)
  }

  function DecodeZigzag32(u: nat): Int32
    requires u < MAX32
  {
    Xor32Fits(u / 2, Unsigned(-(u % 2)));
    Signed(Xor(u / 2, Unsigned(-(u % 2)), 32))
  }

  // ------------------------------------------------------------------ what they do

  lemma {:induction false} XorFits(a: nat, b: nat, n: nat)
    ensures Xor(a, b, n) < PowerOf2(n)
    decreases n
  {
    if n > 0 {
      XorFits(a / 2, b / 2, n - 1);
    }
  }

  lemma Bits32()
    ensures PowerOf2(32) == MAX32
  {
    assert PowerOf2(4) == 0x10 && PowerOf2(8) == 0x100 && PowerOf2(12) == 0x1000;
    assert PowerOf2(16) == 0x1_0000 && PowerOf2(20) == 0x10_0000 && PowerOf2(24) == 0x100_0000;
    assert PowerOf2(28) == 0x1000_0000;
  }

  lemma Xor32Fits(a: nat, b: nat)
    ensures Xor(a, b, 32) < MAX32
  {
    XorFits(a, b, 32);
    Bits32();
  }

  lemma {:induction false} XorZero(a: nat, n: nat)
    requires a < PowerOf2(n)
    ensures Xor(a, 0, n) == a
    decreases n
  {
    if n > 0 {
      XorZero(a / 2, n - 1);
    }
  }

  lemma {:induction false} XorOnes(a: nat, n: nat)
    requires a < PowerOf2(n)
    ensures Xor(a, PowerOf2(n) - 1, n) == PowerOf2(n) - 1 - a
    decreases n
  {
    if n > 0 {
      XorOnes(a / 2, n - 1);
      assert (PowerOf2(n) - 1) / 2 == PowerOf2(n - 1) - 1;
    }
  }

  /** The encoding interleaves: 0, -1, 1, -2, 2 and so on become 0, 1, 2, 3, 4. */
  lemma EncodeInterleaves(v: Int32)
    ensures EncodeZigzag32(v) == if v < 0 then -2 * v - 1 else 2 * v
  {
    var n: int := v;
    if n < 0 {
      NoWrap(-n);
      NoWrap(-n * 2 - 1);
    } else {
      NoWrap(n * 2);
    }
  }

  lemma NoWrap(v: int)
    requires 0 <= v < MAX32
    ensures Unsigned(v) == v
  {
  }

  lemma DecodeInterleaves(u: nat)
    requires u < MAX32
    ensures DecodeZigzag32(u) == if u % 2 == 0 then u / 2 else -(u / 2) - 1
  {
    Bits32();
    if u % 2 == 0 {
      XorZero(u / 2, 32);
    } else {
      XorOnes(u / 2, 32);
    }
  }

  /** The two undo each other on all 32-bit numbers, the smallest included. */
  lemma DecodeUndoesEncode(v: Int32)
    ensures DecodeZigzag32(EncodeZigzag32(v)) == v
  {
    EncodeInterleaves(v);
    DecodeInterleaves(EncodeZigzag32(v));
  }

  lemma EncodeUndoesDecode(u: nat)
    requires u < MAX32
    ensures EncodeZigzag32(DecodeZigzag32(u)) == u
  {
    DecodeInterleaves(u);
    EncodeInterleaves(DecodeZigzag32(u));
  }

  /** The bytes of a signed number: at most five, and they give it back. */
  lemma SignedComesBack(v: Int32)
    ensures |Encoded(EncodeZigzag32(v))| <= 5 && IsMinimal(Encoded(EncodeZigzag32(v)))
    ensures Value(Encoded(EncodeZigzag32(v))) == EncodeZigzag32(v)
    ensures DecodeZigzag32(EncodeZigzag32(v)) == v
  {
    EncodedMeans(EncodeZigzag32(v));
    AtMost(EncodeZigzag32(v));
    DecodeUndoesEncode(v);
  }

  /** Numbers of small magnitude take few bytes, whatever their sign. */
  lemma SmallIsShort(v: Int32, n: nat)
    requires n > 0
    ensures |Encoded(EncodeZigzag32(v))| <= n <==> -(Power128(n) as int) <= 2 * v < Power128(n)
  {
    EncodeInterleaves(v);
    EncodedLength(EncodeZigzag32(v), n);
    assert Power128(n) % 2 == 0;
  }

  /** The bytes of numbers written one after the other. */
  function EncodedAll(vs: seq<Int32>): seq<Byte> {
    if vs == [] then [] else Encoded(EncodeZigzag32(vs[0])) + EncodedAll(vs[1..])
  }

  /** A stream of numbers determines the numbers: different numbers give different bytes. */
  lemma {:induction false} StreamDetermines(vs: seq<Int32>, ws: seq<Int32>)
    requires EncodedAll(vs) == EncodedAll(ws)
    ensures vs == ws
    decreases |vs|
  {
    if vs != [] && ws != [] {
      Unambiguous(EncodeZigzag32(vs[0]), EncodedAll(vs[1..]), EncodeZigzag32(ws[0]), EncodedAll(ws[1..]));
      DecodeUndoesEncode(vs[0]);
      DecodeUndoesEncode(ws[0]);
      StreamDetermines(vs[1..], ws[1..]);
      assert vs == [vs[0]] + vs[1..] && ws == [ws[0]] + ws[1..];
    }
  }
}
