/**
 * The ring of pending work items (wirelog/workqueue.c): its size, and that enqueueing and
 * dequeueing over wrapping indices is a first-in first-out queue.
 */
module WorkRing {
  const UINT32_MAX: nat := 0xFFFF_FFFF
  const MAX_WORKERS: nat := 0x4000_0000
  const MIN_CAPACITY: nat := 256

  function Pow2(k: nat): (r: nat)
    ensures r >= 1
  {
    if k == 0 then 1 else 2 * Pow2(k - 1)
  }

  ghost predicate IsPowerOfTwo(n: nat) { exists k: nat :: k <= n && n == Pow2(k) }

  /** Room for two items per worker, and for 256 at least. */
  function Needed(workers: nat): nat {
    if 2 * workers < MIN_CAPACITY then MIN_CAPACITY else 2 * workers
  }

  lemma PowerBeyond(k: nat)
    ensures k < Pow2(k)
  {
    if k > 0 {
      PowerBeyond(k - 1);
    }
  }

  /** The least power of two that holds what is needed; only the worker count can fail. */
  method RingCapacity(workers: nat) returns (ok: bool, cap: nat)
    ensures ok <==> 1 <= workers <= MAX_WORKERS
    ensures ok ==> IsPowerOfTwo(cap) && Needed(workers) <= cap < 2 * Needed(workers) && cap <= UINT32_MAX
  {
    if workers == 0 || workers > MAX_WORKERS {
      return false, 0;
    }
    var least := 2 * workers;
    if least < 256 {
      least := 256;
    }
    cap := 1;
    ghost var k := 0;
    while cap < least
      invariant cap == Pow2(k) && cap < 2 * least
      decreases least - cap
    {
      if cap > UINT32_MAX / 2 {
        assert false;
        return false, cap;
      }
      cap := 2 * cap;
      k := k + 1;
    }
    PowerBeyond(k);
    ok := true;
  }

  /** The i-th place after h in a ring of n, wrapping. */
  function Place(h: nat, i: nat, n: nat): (p: nat)
    requires n > 0
    ensures p < n
  {
    (h + i) % n
  }

  /** The ring. Its contents, oldest first, are a queue. */
  class Ring<T(0)> {
    const ring: array<T>
    var head: nat
    var tail: nat
    var count: nat

    ghost predicate Valid()
      reads this
    {
      && 0 < ring.Length && count <= ring.Length && head < ring.Length
      && tail == Place(head, count, ring.Length)
    }

    /** The i-th oldest item sits i places after head. */
    ghost function Contents(): (s: seq<T>)
      requires Valid()
      reads this, ring
      ensures |s| == count
    {
      seq(count, i requires 0 <= i < count reads this, ring => ring[Place(head, i, ring.Length)])
    }

    constructor (capacity: nat)
      requires capacity > 0
      ensures Valid() && ring.Length == capacity && Contents() == [] && fresh(ring)
    {
      ring := new T[capacity];
      head, tail, count := 0, 0, 0;
    }

    /** A full ring refuses the item and is left as it was. */
    method Enqueue(item: T) returns (ok: bool)
      requires Valid()
      modifies this, ring
      ensures Valid()
      ensures ok == (|old(Contents())| < ring.Length)
      ensures Contents() == if ok then old(Contents()) + [item] else old(Contents())
    {
      hide Place;
      if count >= ring.Length {
        return false;
      }
      ghost var was := Contents();
      ring[tail] := item;
      Distinct(head, count, ring.Length);
      tail := Place(tail, 1, ring.Length);
      count := count + 1;
      Wraps(head, count - 1, ring.Length);
      assert Contents()[..count - 1] == was;
      assert Contents() == was + [item];
      ok := true;
    }

    /** The oldest item leaves first. */
    method Dequeue() returns (item: T)
      requires Valid() && |Contents()| > 0
      modifies this
      ensures Valid()
      ensures item == old(Contents())[0] && Contents() == old(Contents())[1..]
    {
      hide Place;
      ghost var was := Contents();
      PlaceIs(head, 0, ring.Length);
      item := ring[head];
      ghost var h := head;
      head := Place(head, 1, ring.Length);
      count := count - 1;
      forall i | 0 <= i < count
        ensures Place(head, i, ring.Length) == Place(h, i + 1, ring.Length)
      {
        Shifted(h, i, ring.Length);
      }
      Shifted(h, count, ring.Length);
      assert forall i | 0 <= i < count :: Contents()[i] == was[i + 1];
    }
  }

  /** One wrap at most. */
  lemma PlaceIs(h: nat, i: nat, n: nat)
    requires h < n && i <= n
    ensures Place(h, i, n) == if h + i < n then h + i else h + i - n
  {
    var x := h + i;
    var q, r := x / n, x % n;
    assert x == n * q + r;
    assert q >= 2 ==> n * q >= n * 2;
    assert q <= -1 ==> n * q <= n * -1;
  }

  lemma Shifted(h: nat, i: nat, n: nat)
    requires h < n && i < n
    ensures Place(Place(h, 1, n), i, n) == Place(h, i + 1, n)
  {
    hide Place;
    PlaceIs(h, 1, n);
    PlaceIs(Place(h, 1, n), i, n);
    PlaceIs(h, i + 1, n);
  }

  lemma Wraps(h: nat, c: nat, n: nat)
    requires h < n && c < n
    ensures Place(Place(h, c, n), 1, n) == Place(h, c + 1, n)
  {
    hide Place;
    PlaceIs(h, c, n);
    PlaceIs(Place(h, c, n), 1, n);
    PlaceIs(h, c + 1, n);
  }

  /** No queued item sits where the next one goes. */
  lemma Distinct(h: nat, c: nat, n: nat)
    requires h < n && c < n
    ensures forall i | 0 <= i < c :: Place(h, i, n) != Place(h, c, n)
  {
    hide Place;
    PlaceIs(h, c, n);
    forall i | 0 <= i < c
      ensures Place(h, i, n) != Place(h, c, n)
    {
      PlaceIs(h, i, n);
    }
  }
}
