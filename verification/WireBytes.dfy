/** Bytes, and integers spelled in them in either order. */
module WireBytes {

  type Byte = x: nat | x < 256
  type U32 = x: nat | x < 0x1_0000_0000
  type Bytes = seq<Byte>

  /** Mask to the lowest byte, shift it out, shift one in. */
  function Low(v: nat): Byte {
    v % 0x100
  }

  function High(v: nat): nat {
    v / 0x100
  }

  function Push(low: Byte, rest: nat): nat {
    0x100 * rest + low
  }

  lemma PushSplit(v: nat)
    ensures Push(Low(v), High(v)) == v
  {
  }

  lemma SplitPush(low: Byte, rest: nat)
    ensures Low(Push(low, rest)) == low && High(Push(low, rest)) == rest
  {
  }

  function Pow256(k: nat): (p: nat)
    ensures p > 0
  {
    if k == 0 then 1 else 0x100 * Pow256(k - 1)
  }

  lemma HighBelow(v: nat, p: nat)
    ensures v < 0x100 * p <==> High(v) < p
  {
  }

  lemma PushBelow(low: Byte, rest: nat, p: nat)
    requires rest < p
    ensures Push(low, rest) < 0x100 * p
  {
  }

  lemma Powers()
    ensures Pow256(4) == 0x1_0000_0000 && Pow256(8) == 0x1_0000_0000_0000_0000
  {
    assert Pow256(1) == 0x100 && Pow256(2) == 0x1_0000;
    assert Pow256(3) == 0x100_0000 && Pow256(4) == 0x1_0000_0000;
    assert Pow256(5) == 0x100_0000_0000 && Pow256(6) == 0x1_0000_0000_0000;
    assert Pow256(7) == 0x100_0000_0000_0000;
  }

  // ----- least significant byte first -----

  /** The low `k` bytes of `v`. */
  function LeBytes(v: nat, k: nat): (b: Bytes)
    ensures |b| == k
  {
    if k == 0 then [] else [Low(v)] + LeBytes(High(v), k - 1)
  }

  function LeValue(b: Bytes): nat {
    if b == [] then 0 else Push(b[0], LeValue(b[1..]))
  }

  lemma {:induction false} LeRoundTrip(v: nat, k: nat)
    requires v < Pow256(k)
    ensures LeValue(LeBytes(v, k)) == v
    decreases k
  {
    hide Low, High, Push;
    if k != 0 {
      HighBelow(v, Pow256(k - 1));
      LeRoundTrip(High(v), k - 1);
      PushSplit(v);
      assert LeBytes(v, k)[1..] == LeBytes(High(v), k - 1);
    }
  }

  lemma {:induction false} LeCanonical(b: Bytes)
    ensures LeValue(b) < Pow256(|b|) && LeBytes(LeValue(b), |b|) == b
  {
    hide Low, High, Push;
    if b != [] {
      LeCanonical(b[1..]);
      PushBelow(b[0], LeValue(b[1..]), Pow256(|b| - 1));
      SplitPush(b[0], LeValue(b[1..]));
      assert b == [b[0]] + b[1..];
    }
  }

  lemma LeStep(v: nat, k: nat)
    ensures LeBytes(v, 0) == []
    ensures k > 0 ==> LeBytes(v, k) == [Low(v)] + LeBytes(High(v), k - 1)
  {
  }

  lemma {:induction false} LeAppend(b: Bytes, x: Byte)
    ensures LeValue(b + [x]) == LeValue(b) + Pow256(|b|) * x
  {
    hide Push;
    if b == [] {
      assert b + [x] == [x];
      LeOne(x);
    } else {
      assert (b + [x])[1..] == b[1..] + [x];
      LeAppend(b[1..], x);
      Distribute(b[0], LeValue(b[1..]), Pow256(|b| - 1), x);
    }
  }

  lemma LeOne(x: Byte)
    ensures LeValue([x]) == x
  {
    assert [x][1..] == [];
  }

  lemma Distribute(low: Byte, rest: nat, p: nat, y: nat)
    ensures Push(low, rest + p * y) == Push(low, rest) + 0x100 * p * y
  {
  }

  // ----- most significant byte first, four bytes -----

  function Be32(v: U32): (b: Bytes)
    ensures |b| == 4
  {
    [Low(High(High(High(v)))), Low(High(High(v))), Low(High(v)), Low(v)]
  }

  function BeValue(b0: Byte, b1: Byte, b2: Byte, b3: Byte): (v: U32)
    ensures Be32(v) == [b0, b1, b2, b3]
  {
    SplitPush(b1, b0);
    SplitPush(b2, Push(b1, b0));
    SplitPush(b3, Push(b2, Push(b1, b0)));
    Push(b3, Push(b2, Push(b1, b0)))
  }

  lemma BeRoundTrip(v: U32)
    ensures var b := Be32(v); BeValue(b[0], b[1], b[2], b[3]) == v
  {
    HighBelow(v, 0x100_0000);
    HighBelow(High(v), 0x1_0000);
    HighBelow(High(High(v)), 0x100);
    TopByte(v);
    BePushed(v);
  }

  /** The bytes are the digits of the value to base 256, the highest first. */
  lemma BeDigits(v: U32)
    ensures Be32(v) == [v / 0x100_0000, v / 0x1_0000 % 0x100, v / 0x100 % 0x100, v % 0x100]
  {
  }

  /** Or the lowest first. */
  lemma LeDigits(v: U32)
    ensures LeBytes(v, 4) == [v % 0x100, v / 0x100 % 0x100, v / 0x1_0000 % 0x100, v / 0x100_0000]
  {
    LeStep(v, 4);
    LeStep(High(v), 3);
    LeStep(High(High(v)), 2);
    LeStep(High(High(High(v))), 1);
    LeStep(High(High(High(High(v)))), 0);
  }

  /** Above the third byte of a 32-bit value there is only one more. */
  lemma TopByte(v: U32)
    ensures Low(High(High(High(v)))) == High(High(High(v)))
  {
    hide High;
    HighBelow(v, 0x100_0000);
    HighBelow(High(v), 0x1_0000);
    HighBelow(High(High(v)), 0x100);
  }

  lemma BePushed(v: U32)
    ensures Push(Low(v), Push(Low(High(v)), Push(Low(High(High(v))), High(High(High(v)))))) == v
  {
    hide Low, High, Push;
    PushSplit(v);
    PushSplit(High(v));
    PushSplit(High(High(v)));
  }

  /** A 64-bit value as its two halves. */
  function Join(hi: U32, lo: U32): (v: nat)
    ensures v <= 0xFFFF_FFFF_FFFF_FFFF
  {
    hi * 0x1_0000_0000 + lo
  }

  function Upper(v: nat): (hi: U32)
    requires v <= 0xFFFF_FFFF_FFFF_FFFF
  {
    v / 0x1_0000_0000
  }

  function Lower(v: nat): (lo: U32) {
    v % 0x1_0000_0000
  }

  lemma JoinHalves(v: nat)
    requires v <= 0xFFFF_FFFF_FFFF_FFFF
    ensures Join(Upper(v), Lower(v)) == v
  {
  }

  lemma HalvesOfJoin(hi: U32, lo: U32)
    ensures Upper(Join(hi, lo)) == hi && Lower(Join(hi, lo)) == lo
  {
  }

  /** static_cast of a container size to 32 bits. */
  function Size32(b: Bytes): U32 {
    Lower(|b|)
  }

  lemma SmallSize(b: Bytes)
    ensures |b| < 0x1_0000_0000 ==> Size32(b) == |b|
  {
  }
}
