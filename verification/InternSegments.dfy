/**
 * Where an id's string lives (wirelog/intern.c): segments that double in size, so that
 * growth never moves an entry. Ids below 2^32 - 64 and places in the 26 segments are in
 * one-to-one correspondence.
 */
module InternSegments {
  const SEG0: nat := 64
  const SEGMENTS: nat := 26
  const MAX_STRINGS: nat := 0xFFFF_FFC0

  function Pow2(k: nat): (r: nat)
    ensures r >= 1
  {
    if k == 0 then 1 else 2 * Pow2(k - 1)
  }

  /** The position of the highest one bit of v. */
  function Log2(v: nat): (r: nat)
    requires v >= 1
    ensures Pow2(r) <= v < 2 * Pow2(r)
  {
    if v == 1 then 0 else 1 + Log2(v / 2)
  }

  method ILog2(v: nat) returns (r: nat)
    requires v >= 1
    ensures r == Log2(v)
  {
    r := 0;
    var w := v;
    while w > 1
      invariant w >= 1 && r + Log2(w) == Log2(v)
    {
      w := w / 2;
      r := r + 1;
    }
  }

  function SegOf(id: nat): nat { Log2(id / SEG0 + 1) }

  function Base(seg: nat): nat { SEG0 * Pow2(seg) - SEG0 }

  function Size(seg: nat): nat { SEG0 * Pow2(seg) }

  function OffsetOf(id: nat): int { id - Base(SegOf(id)) }

  lemma {:induction false} PowMonotone(a: nat, b: nat)
    requires a < b
    ensures 2 * Pow2(a) <= Pow2(b)
    decreases b
  {
    if a < b - 1 {
      PowMonotone(a, b - 1);
    }
  }

  /** The exponent is determined by the interval. */
  lemma LogUnique(v: nat, k: nat)
    requires v >= 1 && Pow2(k) <= v < 2 * Pow2(k)
    ensures Log2(v) == k
  {
    var r := Log2(v);
    if r < k {
      PowMonotone(r, k);
    } else if k < r {
      PowMonotone(k, r);
    }
  }

  lemma PowValues()
    ensures Pow2(25) == 0x200_0000 && Pow2(26) == 0x400_0000
  {
    assert Pow2(5) == 32;
    assert Pow2(10) == 0x400;
    assert Pow2(15) == 0x8000;
    assert Pow2(20) == 0x10_0000;
    assert Pow2(25) == 0x200_0000;
  }

  /** Every id lies in its segment. */
  lemma InSegment(id: nat)
    ensures 0 <= OffsetOf(id) < Size(SegOf(id))
  {
    var seg, q := SegOf(id), id / SEG0;
    assert Pow2(seg) <= q + 1 < 2 * Pow2(seg);
  }

  /** One of the 26, for every id the table can hand out. */
  lemma WithinDirectory(id: nat)
    requires id < MAX_STRINGS
    ensures SegOf(id) < SEGMENTS
  {
    PowValues();
    var seg := SegOf(id);
    assert id / SEG0 + 1 < Pow2(26);
    if seg > 26 {
      PowMonotone(26, seg);
    }
  }

  /** Every place belongs to exactly one id: the two maps are inverse. */
  lemma PlaceOfId(seg: nat, off: nat)
    requires off < Size(seg)
    ensures SegOf(Base(seg) + off) == seg && OffsetOf(Base(seg) + off) == off
  {
    var id := Base(seg) + off;
    var q := id / SEG0;
    assert SEG0 * Pow2(seg) <= id + SEG0 < 2 * (SEG0 * Pow2(seg));
    LogUnique(q + 1, seg);
  }

  /** The directory spans exactly the ids. */
  lemma DirectorySpans(seg: nat, off: nat)
    requires seg < SEGMENTS && off < Size(seg)
    ensures Base(seg) + off < MAX_STRINGS
    ensures Base(SEGMENTS - 1) + Size(SEGMENTS - 1) == MAX_STRINGS
  {
    PowValues();
    if seg < 25 {
      PowMonotone(seg, 25);
    }
  }
}
