/**
 * The two CRC-32 checksums (wirelog/crc32.c): a table of 256 remainders and one lookup per
 * byte, against division one bit at a time with the reflected polynomial (the frame check
 * sequence of section 3.2.9 of IEEE 802.3, and CRC32C of section 12.1 of RFC 3720).
 *
 * A 32-bit word is its bits, lowest first, so shifting right drops the head.
 */
module Crc32 {
  import opened Bytes

  type Word = w: seq<bool> | |w| == 32 witness seq(32, _ => false)

  function Zeros(n: nat): seq<bool> { seq(n, _ => false) }

  function Zero(): Word { Zeros(32) }
  function Ones(): Word { seq(32, _ => true) }

  function Xor(a: Word, b: Word): Word { seq(32, i requires 0 <= i < 32 => a[i] != b[i]) }

  /** The low n bits of k. */
  function BitsOf(k: nat, n: nat): (bs: seq<bool>)
    ensures |bs| == n
    decreases n
  {
    if n == 0 then [] else [k % 2 == 1] + BitsOf(k / 2, n - 1)
  }

  function ValueOf(bs: seq<bool>): nat {
    if bs == [] then 0 else (if bs[0] then 1 else 0) + 2 * ValueOf(bs[1..])
  }

  function WordOf(k: nat): Word { BitsOf(k, 32) }

  const ETHERNET: Word := WordOf(0xEDB8_8320)
  const CASTAGNOLI: Word := WordOf(0x82F6_3B78)

  // ---- division, one bit at a time ---------------------------------------------------------------

  /** Shift out the lowest bit; if it was one, subtract the polynomial. */
  function Shifted(x: Word): Word { x[1..] + [false] }

  function Step(p: Word, x: Word): Word { if x[0] then Xor(Shifted(x), p) else Shifted(x) }

  function Steps(p: Word, x: Word, n: nat): Word {
    if n == 0 then x else Step(p, Steps(p, x, n - 1))
  }

  /** Take in one message bit. */
  function BitStep(p: Word, crc: Word, bit: bool): Word { Step(p, crc[0 := crc[0] != bit]) }

  /** The remainder register after a run of message bits. */
  function Serial(p: Word, crc: Word, bits: seq<bool>): Word
    decreases |bits|
  {
    if bits == [] then crc else BitStep(p, Serial(p, crc, bits[..|bits| - 1]), bits[|bits| - 1])
  }

  /** The bits of a message, lowest bit of each byte first. */
  function MessageBits(data: Text): seq<bool>
    decreases |data|
  {
    if data == [] then [] else MessageBits(data[..|data| - 1]) + BitsOf(data[|data| - 1], 8)
  }

  /** The checksum: start from all ones, complement at the end. */
  function Checksum(p: Word, data: Text): Word { Xor(Serial(p, Ones(), MessageBits(data)), Ones()) }

  // ---- steps are linear ------------------------------------------------------------------------------

  lemma StepAt(p: Word, x: Word, i: nat)
    requires i < 32
    ensures Step(p, x)[i] == ((i < 31 && x[i + 1]) != (x[0] && p[i]))
  {}

  lemma StepXor(p: Word, x: Word, y: Word)
    ensures Step(p, Xor(x, y)) == Xor(Step(p, x), Step(p, y))
  {
    hide Step;
    var z := Xor(x, y);
    forall i | 0 <= i < 32
      ensures Step(p, z)[i] == Xor(Step(p, x), Step(p, y))[i]
    {
      StepAt(p, z, i);
      StepAt(p, x, i);
      StepAt(p, y, i);
    }
  }

  lemma {:induction false} StepsXor(p: Word, x: Word, y: Word, n: nat)
    ensures Steps(p, Xor(x, y), n) == Xor(Steps(p, x, n), Steps(p, y, n))
    decreases n
  {
    hide Step, Xor;
    if n > 0 {
      StepsXor(p, x, y, n - 1);
      StepXor(p, Steps(p, x, n - 1), Steps(p, y, n - 1));
    }
  }

  lemma {:induction false} StepFirst(p: Word, x: Word, n: nat)
    ensures Steps(p, Step(p, x), n) == Steps(p, x, n + 1)
  {
    hide Step;
    if n > 0 {
      StepFirst(p, x, n - 1);
    }
  }

  lemma {:induction false} StepsAdd(p: Word, x: Word, a: nat, b: nat)
    ensures Steps(p, Steps(p, x, a), b) == Steps(p, x, a + b)
    decreases b
  {
    hide Step;
    if b > 0 {
      StepsAdd(p, x, a, b - 1);
    }
  }

  /** Zero bits are only shifted out. */
  lemma {:induction false} ShiftOnly(p: Word, h: seq<bool>, n: nat)
    requires n + |h| == 32
    ensures Steps(p, Zeros(n) + h, n) == h + Zeros(n)
    decreases n
  {
    var x: Word := Zeros(n) + h;
    if n == 0 {
      assert x == h && h + Zeros(0) == h;
    } else {
      var g := h + [false];
      assert x[1..] == Zeros(n - 1) + h;
      assert Step(p, x) == Zeros(n - 1) + g;
      StepFirst(p, x, n - 1);
      ShiftOnly(p, g, n - 1);
      assert g + Zeros(n - 1) == h + Zeros(n);
    }
  }

  // ---- a run of bits is xor and steps -------------------------------------------------------------------

  /** At most 32 bits, padded to a word. */
  function Pad(bits: seq<bool>): Word
    requires |bits| <= 32
  {
    bits + Zeros(32 - |bits|)
  }

  lemma XorZero(x: Word)
    ensures Xor(x, Zero()) == x && Xor(Zero(), x) == x
  {}

  lemma PadSnoc(bits: seq<bool>, bit: bool)
    requires |bits| < 32
    ensures Pad(bits + [bit]) == Xor(Pad(bits), Zeros(|bits|) + ([bit] + Zeros(31 - |bits|)))
  {}

  lemma FlipIsXor(x: Word, bit: bool)
    ensures x[0 := x[0] != bit] == Xor(x, [bit] + Zeros(31))
  {}

  lemma XorAssoc(a: Word, b: Word, c: Word)
    ensures Xor(Xor(a, b), c) == Xor(a, Xor(b, c))
  {}

  /** Feeding up to 32 bits one by one is adding them all first and then taking that many steps. */
  lemma {:induction false} SerialIsSteps(p: Word, crc: Word, bits: seq<bool>)
    requires |bits| <= 32
    ensures Serial(p, crc, bits) == Steps(p, Xor(crc, Pad(bits)), |bits|)
    decreases |bits|
  {
    hide Step, Xor, Pad, Zeros;
    if bits == [] {
      PadNothing();
      XorZero(crc);
    } else {
      var n := |bits| - 1;
      var init, bit := bits[..n], bits[n];
      assert bits == init + [bit];
      SerialIsSteps(p, crc, init);
      LateBit(p, crc, init, bit);
    }
  }

  lemma PadNothing()
    ensures Pad([]) == Zero()
  {}

  /** The n-th bit reaches the low end just when it is fed. */
  lemma LateBit(p: Word, crc: Word, init: seq<bool>, bit: bool)
    requires |init| < 32
    ensures BitStep(p, Steps(p, Xor(crc, Pad(init)), |init|), bit) == Steps(p, Xor(crc, Pad(init + [bit])), |init| + 1)
  {
    var n := |init|;
    var h := [bit] + Zeros(31 - n);
    var e: Word := Zeros(n) + h;
    assert h + Zeros(n) == [bit] + Zeros(31);
    hide Step, Xor, Zeros;
    var a := Xor(crc, Pad(init));
    PadSnoc(init, bit);
    XorAssoc(crc, Pad(init), e);
    StepsXor(p, a, e, n);
    ShiftOnly(p, h, n);
    FlipIsXor(Steps(p, a, n), bit);
  }

  lemma {:induction false} SerialConcat(p: Word, crc: Word, a: seq<bool>, b: seq<bool>)
    ensures Serial(p, crc, a + b) == Serial(p, Serial(p, crc, a), b)
    decreases |b|
  {
    hide BitStep;
    if b == [] {
      assert a + b == a;
    } else {
      var init := b[..|b| - 1];
      assert (a + b)[..|a + b| - 1] == a + init;
      SerialConcat(p, crc, a, init);
    }
  }

  // ---- the table ------------------------------------------------------------------------------------------

  lemma {:induction false} BitsRoundTrip(bs: seq<bool>)
    ensures BitsOf(ValueOf(bs), |bs|) == bs
  {
    if bs != [] {
      BitsRoundTrip(bs[1..]);
      var v := ValueOf(bs[1..]);
      assert ValueOf(bs) / 2 == v;
      assert bs == [bs[0]] + bs[1..];
    }
  }

  function Two(n: nat): nat { if n == 0 then 1 else 2 * Two(n - 1) }

  lemma {:induction false} ValueBound(bs: seq<bool>)
    ensures ValueOf(bs) < Two(|bs|)
  {
    if bs != [] {
      ValueBound(bs[1..]);
    }
  }

  /** A small number's upper bits are zero. */
  lemma {:induction false} BitsPadded(k: nat, n: nat, m: nat)
    requires k < Two(n) && n <= m
    ensures BitsOf(k, m) == BitsOf(k, n) + Zeros(m - n)
    decreases m
  {
    if n == 0 {
      ZeroBits(m);
    } else {
      BitsPadded(k / 2, n - 1, m - 1);
    }
  }

  lemma {:induction false} ZeroBits(m: nat)
    ensures BitsOf(0, m) == Zeros(m)
  {
    if m > 0 {
      ZeroBits(m - 1);
      assert Zeros(m) == [false] + Zeros(m - 1);
    }
  }

  lemma ByteWord(b: nat)
    requires b < 256
    ensures WordOf(b) == Pad(BitsOf(b, 8)) && WordOf(b)[8..] == Zeros(24)
  {
    assert Two(8) == 256;
    BitsPadded(b, 8, 32);
  }

  /** Eight steps on a word: the table entry of its low byte, added to its upper bytes shifted down. */
  lemma LowByteOnly(p: Word, x: Word)
    ensures ValueOf(x[..8]) < 256
    ensures Steps(p, x, 8) == Xor(x[8..] + Zeros(8), Steps(p, WordOf(ValueOf(x[..8])), 8))
  {
    assert Two(8) == 256;
    ValueBound(x[..8]);
    BitsRoundTrip(x[..8]);
    ByteWord(ValueOf(x[..8]));
    var low: Word, high: Word := x[..8] + Zeros(24), Zeros(8) + x[8..];
    assert WordOf(ValueOf(x[..8])) == low;
    assert x == Xor(high, low);
    hide Steps, Step, Xor, BitsOf, ValueOf;
    StepsXor(p, high, low, 8);
    ShiftOnly(p, x[8..], 8);
  }

  /** The table's entry for a byte value: its remainder after eight steps. */
  function Entry(p: Word, i: nat): Word { Steps(p, WordOf(i), 8) }

  predicate IsTable(p: Word, table: seq<Word>) { |table| == 256 && forall i | 0 <= i < 256 :: table[i] == Entry(p, i) }

  method EightSteps(p: Word, start: Word) returns (crc: Word)
    ensures crc == Steps(p, start, 8)
  {
    hide Xor, Shifted;
    crc := start;
    var j := 0;
    while j < 8
      invariant j <= 8 && crc == Steps(p, start, j)
    {
      ghost var before := crc;
      if crc[0] {
        crc := Xor(Shifted(crc), p);
      } else {
        crc := Shifted(crc);
      }
      assert crc == Step(p, before);
      j := j + 1;
    }
  }

  /** Filling the table. */
  method InitTable(p: Word) returns (table: array<Word>)
    ensures fresh(table) && IsTable(p, table[..])
  {
    hide Steps, WordOf;
    table := new Word[256](_ => Zero());
    var i := 0;
    while i < 256
      invariant i <= 256 && table.Length == 256 && forall k | 0 <= k < i :: table[k] == Entry(p, k)
    {
      table[i] := EightSteps(p, WordOf(i));
      i := i + 1;
    }
  }

  /** One byte through the table. */
  lemma ByteThroughTable(p: Word, crc: Word, b: Byte)
    ensures var x := Xor(crc, WordOf(b));
            ValueOf(x[..8]) < 256 &&
            Serial(p, crc, BitsOf(b, 8)) == Xor(crc[8..] + Zeros(8), Entry(p, ValueOf(x[..8])))
  {
    var x := Xor(crc, WordOf(b));
    ByteWord(b);
    assert x[8..] == crc[8..];
    hide Xor, BitsOf, ValueOf, Steps, Serial;
    LowByteOnly(p, x);
    SerialIsSteps(p, crc, BitsOf(b, 8));
  }

  method UpdateByte(p: Word, table: array<Word>, crc: Word, b: Byte) returns (r: Word)
    requires IsTable(p, table[..])
    ensures r == Serial(p, crc, BitsOf(b, 8))
  {
    hide Xor, BitsOf, ValueOf, Entry, Serial, WordOf;
    ByteThroughTable(p, crc, b);
    var x := Xor(crc, WordOf(b));
    var low := ValueOf(x[..8]);
    assert table[..][low] == Entry(p, low);
    r := Xor(crc[8..] + Zeros(8), table[low]);
  }

  /** The table-driven checksum is the bit-serial one. */
  method Crc(p: Word, data: Text) returns (crc: Word)
    ensures crc == Checksum(p, data)
  {
    hide Xor, BitsOf, Serial, IsTable, Ones;
    var table := InitTable(p);
    crc := Ones();
    var i := 0;
    assert data[..0] == [];
    SerialNothing(p);
    while i < |data|
      invariant i <= |data| && IsTable(p, table[..]) && crc == Serial(p, Ones(), MessageBits(data[..i]))
    {
      assert data[..i + 1][..i] == data[..i];
      SerialConcat(p, Ones(), MessageBits(data[..i]), BitsOf(data[i], 8));
      crc := UpdateByte(p, table, crc, data[i]);
      i := i + 1;
    }
    assert data[..i] == data;
    crc := Xor(crc, Ones());
  }

  lemma SerialNothing(p: Word)
    ensures Serial(p, Ones(), []) == Ones()
  {}

  method EthernetCrc32(data: Text) returns (crc: Word)
    ensures crc == Checksum(ETHERNET, data)
  {
    crc := Crc(ETHERNET, data);
  }

  method CastagnoliCrc32(data: Text) returns (crc: Word)
    ensures crc == Checksum(CASTAGNOLI, data)
  {
    crc := Crc(CASTAGNOLI, data);
  }

  // ---- errors in four consecutive bytes are always seen --------------------------------------------------------

  /** The polynomial reaches the top bit, so a step can be undone. */
  lemma {:induction false} StepsInjective(p: Word, x: Word, n: nat)
    requires p[31] && Steps(p, x, n) == Zero()
    ensures x == Zero()
    decreases n
  {
    hide Step;
    if n > 0 {
      StepInjective(p, Steps(p, x, n - 1));
      StepsInjective(p, x, n - 1);
    }
  }

  lemma StepInjective(p: Word, x: Word)
    requires p[31] && Step(p, x) == Zero()
    ensures x == Zero()
  {
    hide Step;
    StepAt(p, x, 31);
    forall k | 0 <= k < 32
      ensures x[k] == Zero()[k]
    {
      if k > 0 {
        StepAt(p, x, k - 1);
      }
    }
  }

  /** Different bits from the same start: at most 32 of them cannot cancel. */
  lemma DifferentBits(p: Word, crc: Word, a: seq<bool>, b: seq<bool>)
    requires p[31] && |a| == |b| <= 32 && a != b
    ensures Serial(p, crc, a) != Serial(p, crc, b)
  {
    hide Step, Xor, Pad, Serial, Steps;
    SerialIsSteps(p, crc, a);
    SerialIsSteps(p, crc, b);
    SameSteps(p, Xor(crc, Pad(a)), Xor(crc, Pad(b)), |a|);
    if Serial(p, crc, a) == Serial(p, crc, b) {
      PadsDiffer(crc, a, b);
    }
  }

  lemma PadsDiffer(crc: Word, a: seq<bool>, b: seq<bool>)
    requires |a| == |b| <= 32 && a != b
    ensures Xor(crc, Pad(a)) != Xor(crc, Pad(b))
  {
    var i :| 0 <= i < |a| && a[i] != b[i];
    assert Xor(crc, Pad(a))[i] != Xor(crc, Pad(b))[i];
  }

  /** Equal after n steps means equal before. */
  lemma SameSteps(p: Word, x: Word, y: Word, n: nat)
    requires p[31]
    ensures Steps(p, x, n) == Steps(p, y, n) ==> x == y
  {
    hide Steps;
    if Steps(p, x, n) == Steps(p, y, n) {
      StepsXor(p, x, y, n);
      SelfXor(Steps(p, x, n));
      StepsInjective(p, Xor(x, y), n);
      ZeroXor(x, y);
    }
  }

  lemma SelfXor(x: Word)
    ensures Xor(x, x) == Zero()
  {}

  lemma ZeroXor(x: Word, y: Word)
    requires Xor(x, y) == Zero()
    ensures x == y
  {
    forall i | 0 <= i < 32
      ensures x[i] == y[i]
    {
      assert Xor(x, y)[i] == Zero()[i];
    }
  }

  /** From different registers, the same bits lead to different registers. */
  lemma {:induction false} SameBits(p: Word, x: Word, y: Word, bits: seq<bool>)
    requires p[31] && x != y
    ensures Serial(p, x, bits) != Serial(p, y, bits)
    decreases |bits|
  {
    hide Xor, Pad;
    if bits != [] {
      var init, bit := bits[..|bits| - 1], bits[|bits| - 1];
      SameBits(p, x, y, init);
      OneBit(p, Serial(p, x, init), Serial(p, y, init), bit);
    }
  }

  lemma OneBit(p: Word, x: Word, y: Word, bit: bool)
    requires p[31] && x != y
    ensures BitStep(p, x, bit) != BitStep(p, y, bit)
  {
    var u, v := x[0 := x[0] != bit], y[0 := y[0] != bit];
    assert u != v by {
      var i :| 0 <= i < 32 && x[i] != y[i];
      assert u[i] != v[i];
    }
    hide Step;
    SameSteps(p, u, v, 1);
    assert Steps(p, u, 1) == Step(p, u) && Steps(p, v, 1) == Step(p, v);
  }

  lemma {:induction false} BitsConcat(a: Text, b: Text)
    ensures MessageBits(a + b) == MessageBits(a) + MessageBits(b)
    decreases |b|
  {
    hide BitsOf;
    if b == [] {
      assert a + b == a;
    } else {
      var init := b[..|b| - 1];
      assert (a + b)[..|a + b| - 1] == a + init;
      BitsConcat(a, init);
    }
  }

  lemma {:induction false} BitsLength(a: Text)
    ensures |MessageBits(a)| == 8 * |a|
  {
    if a != [] {
      BitsLength(a[..|a| - 1]);
    }
  }

  lemma SplitEqual(x: seq<bool>, u: seq<bool>, y: seq<bool>, v: seq<bool>)
    requires |x| == |y| && x + u == y + v
    ensures x == y && u == v
  {
    assert (x + u)[..|x|] == x && (y + v)[..|y|] == y;
    assert (x + u)[|x|..] == u && (y + v)[|y|..] == v;
  }

  lemma BitsSnoc(a: Text, c: Byte)
    ensures MessageBits(a + [c]) == MessageBits(a) + BitsOf(c, 8)
  {
    hide BitsOf;
    assert (a + [c])[..|a|] == a;
  }

  /** The bits determine the bytes. */
  lemma {:induction false} BitsTellBytes(a: Text, b: Text)
    requires |a| == |b| && MessageBits(a) == MessageBits(b)
    ensures a == b
    decreases |a|
  {
    hide BitsOf, MessageBits, ValueOf;
    if a != [] {
      var n := |a| - 1;
      var u, c, v, d := a[..n], a[n], b[..n], b[n];
      assert a == u + [c] && b == v + [d];
      BitsSnoc(u, c);
      BitsSnoc(v, d);
      BitsLength(u);
      BitsLength(v);
      SplitEqual(MessageBits(u), BitsOf(c, 8), MessageBits(v), BitsOf(d, 8));
      BitsTellBytes(u, v);
      ByteFromBits(c);
      ByteFromBits(d);
    }
  }

  lemma {:induction false} ValueFromBits(k: nat, n: nat)
    requires k < Two(n)
    ensures ValueOf(BitsOf(k, n)) == k
    decreases n
  {
    if n > 0 {
      ValueFromBits(k / 2, n - 1);
      assert BitsOf(k, n)[1..] == BitsOf(k / 2, n - 1);
    }
  }

  lemma ByteFromBits(b: Byte)
    ensures ValueOf(BitsOf(b, 8)) == b
  {
    assert Two(8) == 256;
    ValueFromBits(b, 8);
  }

  /** Messages that differ only within four consecutive bytes have different checksums. */
  lemma BurstDetected(p: Word, pre: Text, a: Text, b: Text, post: Text)
    requires p[31] && |a| == |b| <= 4 && a != b
    ensures Checksum(p, pre + a + post) != Checksum(p, pre + b + post)
  {
    hide MessageBits, Serial, Ones;
    BitsConcat(pre + a, post);
    BitsConcat(pre, a);
    BitsConcat(pre + b, post);
    BitsConcat(pre, b);
    BitsLength(a);
    BitsLength(b);
    var x, y, z, end := MessageBits(pre), MessageBits(a), MessageBits(b), MessageBits(post);
    if y == z {
      BitsTellBytes(a, b);
    }
    SerialConcat(p, Ones(), x + y, end);
    SerialConcat(p, Ones(), x, y);
    SerialConcat(p, Ones(), x + z, end);
    SerialConcat(p, Ones(), x, z);
    var start := Serial(p, Ones(), x);
    DifferentBits(p, start, y, z);
    SameBits(p, Serial(p, start, y), Serial(p, start, z), end);
    XorDiffers(Serial(p, Ones(), x + y + end), Serial(p, Ones(), x + z + end));
  }

  lemma XorDiffers(x: Word, y: Word)
    requires x != y
    ensures Xor(x, Ones()) != Xor(y, Ones())
  {
    var i :| 0 <= i < 32 && x[i] != y[i];
    assert Xor(x, Ones())[i] != Xor(y, Ones())[i];
  }

  /** Both polynomials reach the top bit. */
  lemma {:induction false} TopBit(k: nat, n: nat)
    requires n >= 1 && k < Two(n)
    ensures BitsOf(k, n)[n - 1] <==> k >= Two(n - 1)
    decreases n
  {
    if n > 1 {
      TopBit(k / 2, n - 1);
    }
  }

  lemma PolynomialsReachTop()
    ensures ETHERNET[31] && CASTAGNOLI[31]
  {
    TwoValues();
    TopBit(0xEDB8_8320, 32);
    TopBit(0x82F6_3B78, 32);
  }

  lemma TwoValues()
    ensures Two(31) == 0x8000_0000 && Two(32) == 0x1_0000_0000
  {
    assert Two(8) == 256;
    assert Two(16) == 0x1_0000;
    assert Two(24) == 0x100_0000;
  }
}
