/** 32-bit words as integers: wrap-around arithmetic, two's complement reading,
    bitwise operators, and the two byte orders a host may have. */
module Words {

  const WORD_LIMIT: int := 0x1_0000_0000

  type Word = x: int | 0 <= x < 0x1_0000_0000
  type Byte = x: int | 0 <= x < 0x100
  /** A signed 32-bit value, as C's int32_t. */
  type SWord = x: int | -0x8000_0000 <= x < 0x8000_0000

  datatype Option<+T> = None | Some(value: T)

  /** Reduction modulo 2^32, what every unsigned 32-bit operation of the VM ends with. */
  function Wrap(x: int): Word {
    x % 0x1_0000_0000
  }

  /** The value of a word read through a cast to a signed type. */
  function Signed(w: Word): SWord {
    if w < 0x8000_0000 then w else w - 0x1_0000_0000
  }

  // ---------------------------------------------------------------- bits

  function Pow2(n: nat): (r: nat)
    ensures r > 0
  {
    if n == 0 then 1 else 2 * Pow2(n - 1)
  }

  predicate Bit(w: nat, i: nat) {
    if i == 0 then w % 2 == 1 else Bit(w / 2, i - 1)
  }

  /** The bitwise operators the VM uses; AndNot is `a & ~b`. */
  datatype BitOp = And | Or | Xor | AndNot

  predicate BitTable(op: BitOp, a: bool, b: bool) {
    match op
    case And => a && b
    case Or => a || b
    case Xor => a != b
    case AndNot => a && !b
  }

  /** The n low bits of `a op b`. */
  function Bits(op: BitOp, a: nat, b: nat, n: nat): (r: nat)
    ensures r < Pow2(n)
  {
    if n == 0 then 0
    else 2 * Bits(op, a / 2, b / 2, n - 1) + (if BitTable(op, a % 2 == 1, b % 2 == 1) then 1 else 0)
  }

  lemma WordPow()
    ensures Pow2(32) == 0x1_0000_0000
  {
    assert Pow2(2) == 4;
    PowSplit(2, 2);
    PowSplit(4, 4);
    PowSplit(8, 8);
    PowSplit(16, 16);
  }

  lemma {:induction false} PowSplit(a: nat, b: nat)
    ensures Pow2(a + b) == Pow2(a) * Pow2(b)
  {
    if b > 0 {
      PowSplit(a, b - 1);
      Doubled(Pow2(a), Pow2(b - 1));
      assert Pow2(a + b) == 2 * Pow2(a + (b - 1));
    }
  }

  lemma Doubled(x: nat, y: nat)
    ensures x * (2 * y) == 2 * (x * y)
  {
  }

  function Bitwise(op: BitOp, a: Word, b: Word): Word {
    WordPow();
    Bits(op, a, b, 32)
  }

  lemma {:induction false} BitsSpec(op: BitOp, a: nat, b: nat, n: nat, i: nat)
    requires i < n
    ensures Bit(Bits(op, a, b, n), i) == BitTable(op, Bit(a, i), Bit(b, i))
  {
    if i > 0 {
      BitsSpec(op, a / 2, b / 2, n - 1, i - 1);
      assert Bits(op, a, b, n) / 2 == Bits(op, a / 2, b / 2, n - 1);
    }
  }

  /** Every bit of a bitwise operation is the operation on the bits. */
  lemma BitwiseBit(op: BitOp, a: Word, b: Word, i: nat)
    requires i < 32
    ensures Bit(Bitwise(op, a, b), i) == BitTable(op, Bit(a, i), Bit(b, i))
  {
    BitsSpec(op, a, b, 32, i);
  }

  lemma {:induction false} PowBit(k: nat, i: nat)
    ensures Bit(Pow2(k), i) == (i == k)
  {
    if k > 0 && i > 0 {
      assert Pow2(k) / 2 == Pow2(k - 1);
      PowBit(k - 1, i - 1);
    } else if k == 0 && i > 0 {
      ZeroBit(i - 1);
    }
  }

  lemma {:induction false} ZeroBit(i: nat)
    ensures !Bit(0, i)
  {
    if i > 0 {
      ZeroBit(i - 1);
    }
  }

  lemma {:induction false} PowMonotone(a: nat, b: nat)
    requires a <= b
    ensures Pow2(a) <= Pow2(b)
  {
    if a < b {
      PowMonotone(a, b - 1);
    }
  }

  /** A number below 2^n is positive exactly when one of its n bits is set. */
  lemma {:induction false} PositiveHasBit(w: nat, n: nat) returns (i: nat)
    requires 0 < w < Pow2(n)
    ensures i < n && Bit(w, i)
  {
    if w % 2 == 1 {
      i := 0;
    } else {
      var j := PositiveHasBit(w / 2, n - 1);
      i := j + 1;
    }
  }

  lemma {:induction false} BitPositive(w: nat, i: nat)
    requires Bit(w, i)
    ensures w > 0
  {
    if w == 0 {
      ZeroBit(i);
    }
  }

  /** `(w & (1 << k)) > 0` reads bit k. */
  lemma TestBit(w: Word, k: nat)
    requires k < 32
    ensures Pow2(k) < 0x1_0000_0000
    ensures Bitwise(And, w, Pow2(k)) > 0 <==> Bit(w, k)
  {
    WordPow();
    PowMonotone(k, 31);
    var t := Bitwise(And, w, Pow2(k));
    BitwiseBit(And, w, Pow2(k), k);
    PowBit(k, k);
    if Bit(w, k) {
      BitPositive(t, k);
    } else if t > 0 {
      var i := PositiveHasBit(t, 32);
      BitwiseBit(And, w, Pow2(k), i);
      PowBit(k, i);
    }
  }

  // ---------------------------------------------------------------- bytes

  /** The order in which the host stores the four bytes of a word. */
  datatype ByteOrder = LittleEndian | BigEndian

  /** Big-endian bytes, the order of image files. */
  function ToBe(w: Word): (bs: seq<Byte>)
    ensures |bs| == 4
  {
    [w / 0x100_0000, w / 0x1_0000 % 0x100, w / 0x100 % 0x100, w % 0x100]
  }

  function FromBe(bs: seq<Byte>): Word
    requires |bs| == 4
  {
    bs[0] as int * 0x100_0000 + bs[1] as int * 0x1_0000 + bs[2] as int * 0x100 + bs[3] as int
  }

  /** The bytes of a host word in memory order. */
  function HostBytes(order: ByteOrder, w: Word): (bs: seq<Byte>)
    ensures |bs| == 4
  {
    var be := ToBe(w);
    if order.BigEndian? then be else [be[3], be[2], be[1], be[0]]
  }

  /** The host word whose bytes in memory order are bs. */
  function HostWord(order: ByteOrder, bs: seq<Byte>): Word
    requires |bs| == 4
  {
    if order.BigEndian? then FromBe(bs) else FromBe([bs[3], bs[2], bs[1], bs[0]])
  }

  /** htonl and ntohl: the identity on a big-endian host, a byte swap otherwise. */
  function Swap(order: ByteOrder, w: Word): Word {
    if order.BigEndian? then w
    else var be := ToBe(w); FromBe([be[3], be[2], be[1], be[0]])
  }

  lemma BeInverse(bs: seq<Byte>)
    requires |bs| == 4
    ensures ToBe(FromBe(bs)) == bs
  {
    var w := FromBe(bs);
    assert w / 0x100_0000 == bs[0];
    assert w / 0x1_0000 == bs[0] as int * 0x100 + bs[1] as int;
    assert w / 0x100 == bs[0] as int * 0x1_0000 + bs[1] as int * 0x100 + bs[2] as int;
  }

  lemma BeInverseWord(w: Word)
    ensures FromBe(ToBe(w)) == w
  {
    assert w / 0x1_0000 == w / 0x100_0000 * 0x100 + w / 0x1_0000 % 0x100;
    assert w / 0x100 == w / 0x1_0000 * 0x100 + w / 0x100 % 0x100;
  }

  /** Reading a file word and swapping it gives the big-endian value on every host. */
  lemma LoadedWord(order: ByteOrder, bs: seq<Byte>)
    requires |bs| == 4
    ensures Swap(order, HostWord(order, bs)) == FromBe(bs)
  {
    if order.LittleEndian? {
      BeInverse([bs[3], bs[2], bs[1], bs[0]]);
    }
  }

  /** Swapping a fetched word and indexing its bytes gives the file bytes on every host. */
  lemma FetchedBytes(order: ByteOrder, w: Word)
    ensures HostBytes(order, Swap(order, w)) == ToBe(w)
  {
    if order.LittleEndian? {
      var be := ToBe(w);
      BeInverse([be[3], be[2], be[1], be[0]]);
    }
  }
}
