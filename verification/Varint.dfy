/** Unsigned numbers in base 128, least significant digit first; every byte but the last has
    its top bit set. Masks and shifts of unsigned numbers are written as % and /. */
module Varints {
  import opened Common

  const MAX32: nat := 0x1_0000_0000
  const MAX64: nat := 0x1_0000_0000_0000_0000

  function Encoded(v: nat): (bs: seq<Byte>)
    ensures bs != []
  {
    if v < 0x80 then [v] else [v % 0x80 + 0x80] + Encoded(v / 0x80)
  }

  // ------------------------------------------------------------------ what the bytes mean

  function Value(bs: seq<Byte>): nat {
    if bs == [] then 0 else bs[0] % 0x80 + 0x80 * Value(bs[1..])
  }

  /** The top bit says whether more bytes follow. */
  predicate IsNumber(bs: seq<Byte>) {
    bs != [] && bs[|bs| - 1] < 0x80 && forall i | 0 <= i < |bs| - 1 :: bs[i] >= 0x80
  }

  /** No number has a superfluous last byte. */
  predicate IsMinimal(bs: seq<Byte>) {
    IsNumber(bs) && (|bs| > 1 ==> bs[|bs| - 1] != 0)
  }

  lemma {:induction false} EncodedMeans(v: nat)
    ensures Value(Encoded(v)) == v && IsMinimal(Encoded(v))
    decreases v
  {
    if v >= 0x80 {
      var tail := Encoded(v / 0x80);
      EncodedMeans(v / 0x80);
      assert Encoded(v)[1..] == tail;
      assert forall i | 0 < i < |Encoded(v)| :: Encoded(v)[i] == tail[i - 1];
      assert |tail| == 1 ==> tail[0] == v / 0x80;
    }
  }

  /** The low digit comes first. */
  lemma EncodedExample()
    ensures Encoded(300) == [0xAC, 0x02] && Encoded(1) == [0x01] && Encoded(0) == [0]
  {
    assert Encoded(2) == [0x02];
  }

  function Power128(n: nat): nat {
    if n == 0 then 1 else 0x80 * Power128(n - 1)
  }

  /** Numbers of `n` base-128 digits take `n` bytes and no others do. */
  lemma {:induction false} EncodedLength(v: nat, n: nat)
    requires n > 0
    ensures |Encoded(v)| <= n <==> v < Power128(n)
    decreases n
  {
    assert Power128(1) == 0x80 * Power128(0);
    if v >= 0x80 && n > 1 {
      EncodedLength(v / 0x80, n - 1);
      Scaled(v, Power128(n - 1));
    } else if n > 1 {
      Grows(n);
    }
  }

  lemma Scaled(v: nat, p: nat)
    ensures v / 0x80 < p <==> v < 0x80 * p
  {
  }

  lemma {:induction false} Grows(n: nat)
    requires n > 0
    ensures Power128(n) >= 0x80
    decreases n
  {
    if n > 1 {
      Grows(n - 1);
    } else {
      assert Power128(0) == 1;
    }
  }

  lemma WidthsFit()
    ensures MAX32 <= Power128(5) && MAX64 <= Power128(10)
  {
    assert Power128(2) == 0x4000 && Power128(4) == 0x1000_0000;
    assert Power128(6) == 0x400_0000_0000;
    assert Power128(8) == 0x100_0000_0000_0000;
  }

  /** 32 bits take at most five bytes, 64 bits at most ten. */
  lemma AtMost(v: nat)
    ensures v < MAX32 ==> |Encoded(v)| <= 5
    ensures v < MAX64 ==> |Encoded(v)| <= 10
  {
    WidthsFit();
    EncodedLength(v, 5);
    EncodedLength(v, 10);
  }

  /** The bytes of a number cannot be told otherwise, whatever follows them: numbers written
      one after the other can be told apart. */
  lemma {:induction false} Unambiguous(v: nat, x: seq<Byte>, w: nat, y: seq<Byte>)
    requires Encoded(v) + x == Encoded(w) + y
    ensures v == w && x == y
    decreases v
  {
    var s := Encoded(v) + x;
    assert s[0] == Encoded(v)[0] == Encoded(w)[0];
    if v < 0x80 {
      assert w < 0x80;
      assert s[1..] == x && s[1..] == y;
    } else {
      assert w >= 0x80;
      assert s[1..] == Encoded(v / 0x80) + x && s[1..] == Encoded(w / 0x80) + y;
      Unambiguous(v / 0x80, x, w / 0x80, y);
    }
  }

  /** There is only one minimal way to write a number. */
  lemma {:induction false} MinimalIsEncoded(bs: seq<Byte>)
    requires IsMinimal(bs)
    ensures bs == Encoded(Value(bs))
    decreases |bs|
  {
    var tail := bs[1..];
    if |bs| > 1 {
      assert IsMinimal(tail) by {
        assert forall i | 0 <= i < |tail| :: tail[i] == bs[i + 1];
      }
      MinimalIsEncoded(tail);
      Positive(tail);
      assert Value(bs) / 0x80 == Value(tail);
    } else {
      assert tail == [] && Value(tail) == 0;
    }
  }

  lemma {:induction false} Positive(bs: seq<Byte>)
    requires IsNumber(bs) && bs[|bs| - 1] != 0
    ensures Value(bs) > 0
    decreases |bs|
  {
    if |bs| > 1 {
      assert forall i | 0 <= i < |bs[1..]| :: bs[1..][i] == bs[i + 1];
      Positive(bs[1..]);
    }
  }
}
