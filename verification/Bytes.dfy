/** Slicing facts about sequences, kept apart so that proofs about contents stay small. */
module Seqs {
  lemma DropDrop<T>(s: seq<T>, a: nat, b: nat)
    requires a + b <= |s|
    ensures s[a..][b..] == s[a + b..]
  {}

  lemma TakeDrop<T>(s: seq<T>, q: nat, k: nat)
    requires k <= q <= |s|
    ensures s[..q][k..] == s[k..][..q - k]
    ensures s[..q][k..] == s[k..q]
  {}

  lemma TakeTake<T>(s: seq<T>, q: nat, k: nat)
    requires k <= q <= |s|
    ensures s[..q][..k] == s[..k]
  {}

  lemma Split<T>(s: seq<T>, k: nat)
    requires k <= |s|
    ensures s == s[..k] + s[k..]
  {}

  lemma TakeAll<T>(s: seq<T>)
    ensures s[..|s|] == s && s[0..] == s
  {}

  lemma ConcatAssoc<T>(a: seq<T>, b: seq<T>, c: seq<T>)
    ensures (a + b) + c == a + (b + c)
  {}

  lemma TakeConcat<T>(a: seq<T>, b: seq<T>)
    ensures (a + b)[..|a|] == a && (a + b)[|a|..] == b
  {}
}

/** Bytes, byte strings and the little-endian fields of the plan's wire format. */
module Bytes {
  type Byte = b: int | 0 <= b < 256

  /** A byte string. Variable names, string literals and file bytes are all Text. */
  type Text = seq<Byte>

  datatype Option<+T> = None | Some(value: T)

  const TWO32: int := 0x1_0000_0000
  const TWO63: int := 0x8000_0000_0000_0000
  const TWO64: int := 0x1_0000_0000_0000_0000

  predicate IsInt64(v: int) { -TWO63 <= v < TWO63 }

  function Pow256(n: nat): (r: nat)
    ensures r >= 1
  {
    if n == 0 then 1 else 256 * Pow256(n - 1)
  }

  /** The n low-order bytes of u, least significant first. */
  function LeBytes(u: nat, n: nat): (bs: Text)
    ensures |bs| == n
    decreases n
  {
    if n == 0 then [] else [u % 256] + LeBytes(u / 256, n - 1)
  }

  function LeValue(bs: Text): nat {
    if bs == [] then 0 else bs[0] + 256 * LeValue(bs[1..])
  }

  /** Reading back the n bytes written for u gives u, as long as u fits in them. */
  lemma {:induction false} LeRoundTrip(u: nat, n: nat)
    requires u < Pow256(n)
    ensures LeValue(LeBytes(u, n)) == u
    decreases n
  {
    if n > 0 {
      LeRoundTrip(u / 256, n - 1);
      assert LeBytes(u, n)[1..] == LeBytes(u / 256, n - 1);
    }
  }

  /** Writing back what was read gives the same bytes. */
  lemma {:induction false} LeBytesOfValue(bs: Text)
    ensures LeBytes(LeValue(bs), |bs|) == bs
  {
    if bs != [] {
      LeBytesOfValue(bs[1..]);
      var v := LeValue(bs);
      assert v % 256 == bs[0] && v / 256 == LeValue(bs[1..]);
      assert bs == [bs[0]] + bs[1..];
    }
  }

  /** The unsigned 64-bit lane that carries the signed value v. */
  function ToLane(v: int): (u: nat)
    ensures u < TWO64
  {
    v % TWO64
  }

  function FromLane(u: nat): (v: int)
    requires u < TWO64
    ensures IsInt64(v) && ToLane(v) == u
  {
    if u >= TWO63 then u - TWO64 else u
  }

  lemma Pow256Values()
    ensures Pow256(2) == 65536 && Pow256(4) == TWO32 && Pow256(8) == TWO64
  {
    assert Pow256(1) == 256;
    assert Pow256(3) == 256 * Pow256(2);
    assert Pow256(5) == 256 * Pow256(4);
    assert Pow256(6) == 256 * Pow256(5);
    assert Pow256(7) == 256 * Pow256(6);
    assert Pow256(8) == 256 * Pow256(7);
  }

  /** Eight bytes hold every signed 64-bit value and give it back. */
  lemma Int64RoundTrip(v: int)
    requires IsInt64(v)
    ensures LeValue(LeBytes(ToLane(v), 8)) == ToLane(v)
    ensures FromLane(ToLane(v)) == v
  {
    Pow256Values();
    LeRoundTrip(ToLane(v), 8);
  }

  /** Eight bytes never hold more than a 64-bit lane. */
  lemma {:induction false} LeValueBound(bs: Text)
    ensures LeValue(bs) < Pow256(|bs|)
  {
    if bs != [] {
      LeValueBound(bs[1..]);
    }
  }

  // Decimal digits, as printed by "%u" and read back by strtoul.

  predicate IsDigit(b: Byte) { 48 <= b <= 57 }

  predicate AllDigits(d: Text) { forall i :: 0 <= i < |d| ==> IsDigit(d[i]) }

  function Decimal(n: nat): (d: Text)
    ensures d != [] && AllDigits(d)
  {
    if n < 10 then [48 + n] else Decimal(n / 10) + [48 + n % 10]
  }

  /** The value of a run of decimal digits. */
  function DigitsValue(d: Text): nat
    requires AllDigits(d)
  {
    if d == [] then 0 else 10 * DigitsValue(d[..|d| - 1]) + d[|d| - 1] - 48
  }

  lemma {:induction false} DecimalRoundTrip(n: nat)
    ensures DigitsValue(Decimal(n)) == n
  {
    var d := Decimal(n);
    if n < 10 {
      assert d[..|d| - 1] == [];
    } else {
      DecimalRoundTrip(n / 10);
      assert d[..|d| - 1] == Decimal(n / 10);
    }
  }

  function Pow10(k: nat): (r: nat)
    ensures r >= 1
  {
    if k == 0 then 1 else 10 * Pow10(k - 1)
  }

  lemma {:induction false} DecimalLength(n: nat, k: nat)
    requires k >= 1 && n < Pow10(k)
    ensures |Decimal(n)| <= k
    decreases k
  {
    if n >= 10 {
      assert Pow10(k) == 10 * Pow10(k - 1);
      assert k >= 2 by { assert Pow10(1) == 10 * Pow10(0); }
      DecimalLength(n / 10, k - 1);
    }
  }

  /** A 32-bit column index prints in at most ten digits. */
  lemma ColumnDigits(n: nat)
    requires n < TWO32
    ensures |Decimal(n)| <= 10
  {
    assert Pow10(2) == 100;
    assert Pow10(4) == 10000;
    assert Pow10(6) == 1000000;
    assert Pow10(8) == 100000000;
    assert Pow10(10) == 10000000000;
    DecimalLength(n, 10);
  }
}
