/**
 * The hash index of the intern table (wirelog/intern.c): open addressing with linear
 * probing over a power-of-two array of ids, at most three quarters full.
 *
 * The index is a sequence of slots; the strings are the sequence of everything interned so
 * far, an id being a position in it. Probing goes by places after the hash, wrapping.
 */
module InternTable {
  import opened Bytes
  import opened InternSegments
  import WorkRing

  const EMPTY: nat := 0xFFFF_FFFF

  /** FNV-1a on 32 bits. */
  function Fnv1a(s: Text): bv32 {
    if s == [] then 2166136261 else (Fnv1a(s[..|s| - 1]) ^ (s[|s| - 1] as bv32)) * 16777619
  }

  function Hash(s: Text): nat { Fnv1a(s) as nat }

  /** The k-th place probed for a string in a table of n slots. */
  function Probe(s: Text, k: nat, n: nat): (p: nat)
    requires n > 0
    ensures p < n
  {
    WorkRing.Place(Hash(s) % n, k, n)
  }

  /** The id is found at its k-th probe, past no empty slot. */
  predicate FoundAt(slots: seq<nat>, s: Text, id: nat, k: nat)
    requires |slots| > 0
  {
    slots[Probe(s, k, |slots|)] == id && forall j | 0 <= j < k :: slots[Probe(s, j, |slots|)] != EMPTY
  }

  ghost predicate IsFound(slots: seq<nat>, s: Text, id: nat)
    requires |slots| > 0
  {
    exists k: nat :: k < |slots| && FoundAt(slots, s, id, k)
  }

  predicate Distinct(strings: seq<Text>) { forall i, j | 0 <= i < j < |strings| :: strings[i] != strings[j] }

  /** Slots hold ids, each at most once. */
  predicate SlotsHoldIds(slots: seq<nat>, n: nat) {
    && (forall p | 0 <= p < |slots| :: slots[p] == EMPTY || slots[p] < n)
    && (forall p, q | 0 <= p < q < |slots| && slots[p] == slots[q] :: slots[p] == EMPTY)
  }

  /** The index finds every interned string. */
  ghost predicate Indexes(slots: seq<nat>, strings: seq<Text>) {
    && 0 < |slots| && |strings| < |slots| && |strings| <= EMPTY && Distinct(strings)
    && SlotsHoldIds(slots, |strings|)
    && forall id | 0 <= id < |strings| :: IsFound(slots, strings[id], id)
  }

  // ---- the strings -------------------------------------------------------------------------

  /** The segments; one that is not allocated yet is None, and so is an entry not yet written. */
  type Directory = seq<Option<seq<Option<Text>>>>

  predicate HasEntry(dir: Directory, id: nat) {
    && |dir| == SEGMENTS && SegOf(id) < SEGMENTS && dir[SegOf(id)].Some?
    && 0 <= OffsetOf(id) < |dir[SegOf(id)].value| && dir[SegOf(id)].value[OffsetOf(id)].Some?
  }

  function StringAt(dir: Directory, id: nat): Text
    requires HasEntry(dir, id)
  {
    dir[SegOf(id)].value[OffsetOf(id)].value
  }

  /** Each id's place holds its string; exactly the segments in use are allocated. */
  predicate Stores(dir: Directory, strings: seq<Text>) {
    && |dir| == SEGMENTS && |strings| <= MAX_STRINGS
    && (forall seg | 0 <= seg < SEGMENTS :: dir[seg].Some? <==> Base(seg) < |strings|)
    && (forall seg | 0 <= seg < SEGMENTS && dir[seg].Some? :: |dir[seg].value| == Size(seg))
    && (forall id | 0 <= id < |strings| :: HasEntry(dir, id) && StringAt(dir, id) == strings[id])
  }

  // ---- probing -----------------------------------------------------------------------------

  /** Different numbers below n are at most n. */
  lemma {:induction false} Pigeonhole(s: seq<nat>, n: nat)
    requires forall i, j | 0 <= i < j < |s| :: s[i] != s[j]
    requires forall i | 0 <= i < |s| :: s[i] < n
    ensures |s| <= n
    decreases n
  {
    if s != [] {
      assert s[0] < n;
      if i :| 0 <= i < |s| && s[i] == n - 1 {
        Pigeonhole(s[..i] + s[i + 1..], n - 1);
      } else {
        Pigeonhole(s, n - 1);
      }
    }
  }

  /** More slots than ids leaves a slot empty. */
  lemma SomeEmpty(slots: seq<nat>, n: nat)
    requires SlotsHoldIds(slots, n) && n < |slots|
    ensures exists p :: 0 <= p < |slots| && slots[p] == EMPTY
  {
    if forall p | 0 <= p < |slots| :: slots[p] != EMPTY {
      Pigeonhole(slots, n);
    }
  }

  /** Every slot is probed, from wherever probing starts. */
  lemma ProbesReach(s: Text, n: nat, p: nat)
    requires p < n
    ensures exists k: nat :: k < n && Probe(s, k, n) == p
  {
    hide Hash;
    var h := Hash(s) % n;
    var k := if h <= p then p - h else p + n - h;
    WorkRing.PlaceIs(h, k, n);
    assert Probe(s, k, n) == p;
  }

  /** Probing meets an empty slot. */
  lemma ProbeEnds(slots: seq<nat>, n: nat, s: Text) returns (k: nat)
    requires SlotsHoldIds(slots, n) && n < |slots|
    ensures k < |slots| && slots[Probe(s, k, |slots|)] == EMPTY
  {
    hide Probe;
    SomeEmpty(slots, n);
    var p :| 0 <= p < |slots| && slots[p] == EMPTY;
    ProbesReach(s, |slots|, p);
    k :| k < |slots| && Probe(s, k, |slots|) == p;
  }

  /** The probe up to k saw only other strings. */
  predicate Passed(slots: seq<nat>, strings: seq<Text>, s: Text, k: nat)
    requires |slots| > 0
  {
    forall j | 0 <= j < k :: slots[Probe(s, j, |slots|)] < |strings| && strings[slots[Probe(s, j, |slots|)]] != s
  }

  /** Stopping at an empty slot means the string was never interned. */
  lemma MissMeansAbsent(slots: seq<nat>, strings: seq<Text>, s: Text, k: nat)
    requires Indexes(slots, strings) && Passed(slots, strings, s, k) && k < |slots| && slots[Probe(s, k, |slots|)] == EMPTY
    ensures s !in strings
  {
    hide Probe;
    forall id | 0 <= id < |strings|
      ensures strings[id] != s
    {
      if strings[id] == s {
        assert IsFound(slots, s, id);
        var i: nat :| i < |slots| && FoundAt(slots, s, id, i);
      }
    }
  }

  lemma StoredStrings(dir: Directory, strings: seq<Text>)
    requires Stores(dir, strings)
    ensures forall id | 0 <= id < |strings| :: HasEntry(dir, id) && StringAt(dir, id) == strings[id]
  {
    hide HasEntry, StringAt;
  }

  /** Look a string up: its id, or the empty slot where it belongs. */
  method Lookup(slots: array<nat>, dir: Directory, ghost strings: seq<Text>, s: Text)
    returns (id: Option<nat>, slot: nat, ghost k: nat)
    requires Indexes(slots[..], strings) && Stores(dir, strings)
    ensures id.Some? ==> id.value < |strings| && strings[id.value] == s
    ensures id.None? ==> s !in strings && k < slots.Length && slot == Probe(s, k, slots.Length) && slots[slot] == EMPTY
    ensures id.None? ==> Passed(slots[..], strings, s, k)
  {
    hide Hash, HasEntry, StringAt, Stores;
    StoredStrings(dir, strings);
    var n := slots.Length;
    var h0 := Hash(s) % n;
    var h := h0;
    k := 0;
    ghost var end := ProbeEnds(slots[..], |strings|, s);
    WorkRing.PlaceIs(h0, 0, n);
    while slots[h] != EMPTY
      invariant h < n && k <= end && h == Probe(s, k, n) && Passed(slots[..], strings, s, k)
      decreases end - k
    {
      var sid := slots[h];
      assert slots[..][h] == sid;
      if StringAt(dir, sid) == s {
        return Some(sid), h, k;
      }
      WorkRing.Wraps(h0, k, n);
      h := WorkRing.Place(h, 1, n);
      k := k + 1;
    }
    assert slots[..][h] == EMPTY;
    MissMeansAbsent(slots[..], strings, s, k);
    return None, h, k;
  }

  // ---- inserting --------------------------------------------------------------------------------

  lemma StillFound(slots: seq<nat>, s: Text, id: nat, p: nat, new_: nat)
    requires 0 < |slots| && IsFound(slots, s, id) && p < |slots| && slots[p] == EMPTY && new_ != EMPTY && id != EMPTY
    ensures IsFound(slots[p := new_], s, id)
  {
    hide Probe;
    var k: nat :| k < |slots| && FoundAt(slots, s, id, k);
    assert FoundAt(slots[p := new_], s, id, k);
  }

  /** Writing the next id where its probe stopped indexes one string more. */
  lemma InsertIndexes(slots: seq<nat>, strings: seq<Text>, s: Text, k: nat)
    requires Indexes(slots, strings) && s !in strings && |strings| + 1 < |slots| && |strings| < EMPTY
    requires k < |slots| && slots[Probe(s, k, |slots|)] == EMPTY
    requires forall j | 0 <= j < k :: slots[Probe(s, j, |slots|)] != EMPTY
    ensures Indexes(slots[Probe(s, k, |slots|) := |strings|], strings + [s])
  {
    hide Probe, FoundAt;
    var p, id := Probe(s, k, |slots|), |strings|;
    var t, all := slots[p := id], strings + [s];
    assert SlotsHoldIds(t, |all|);
    forall i | 0 <= i < |all|
      ensures IsFound(t, all[i], i)
    {
      if i < |strings| {
        StillFound(slots, strings[i], i, p, id);
      } else {
        InsertedFound(slots, s, k, id);
      }
    }
    forall i, j | 0 <= i < j < |all|
      ensures all[i] != all[j]
    {
      if j == |strings| {
        assert strings[i] in strings;
      }
    }
  }

  lemma InsertedFound(slots: seq<nat>, s: Text, k: nat, id: nat)
    requires k < |slots| && slots[Probe(s, k, |slots|)] == EMPTY && id != EMPTY
    requires forall j | 0 <= j < k :: slots[Probe(s, j, |slots|)] != EMPTY
    ensures IsFound(slots[Probe(s, k, |slots|) := id], s, id)
  {
    hide Probe;
    var t := slots[Probe(s, k, |slots|) := id];
    assert FoundAt(t, s, id, k);
  }

  /** The first empty slot of a string's probe. */
  method FindEmpty(slots: array<nat>, ghost n: nat, s: Text) returns (slot: nat, ghost k: nat)
    requires SlotsHoldIds(slots[..], n) && n < slots.Length
    ensures k < slots.Length && slot == Probe(s, k, slots.Length) && slots[slot] == EMPTY
    ensures forall j | 0 <= j < k :: slots[Probe(s, j, slots.Length)] != EMPTY
  {
    hide Hash;
    var len := slots.Length;
    var h0 := Hash(s) % len;
    slot, k := h0, 0;
    ghost var end := ProbeEnds(slots[..], n, s);
    WorkRing.PlaceIs(h0, 0, len);
    while slots[slot] != EMPTY
      invariant slot < len && k <= end && slot == Probe(s, k, len)
      invariant forall j | 0 <= j < k :: slots[Probe(s, j, len)] != EMPTY
      decreases end - k
    {
      assert slots[..][slot] != EMPTY;
      WorkRing.Wraps(h0, k, len);
      slot := WorkRing.Place(slot, 1, len);
      k := k + 1;
    }
  }

  /** A table twice the size that indexes the same strings. */
  method ResizePrepare(capacity: nat, dir: Directory, count: nat, ghost strings: seq<Text>) returns (slots: array<nat>)
    requires capacity > 0 && count == |strings| < capacity && count < EMPTY && Distinct(strings) && Stores(dir, strings)
    ensures fresh(slots) && slots.Length == 2 * capacity && Indexes(slots[..], strings)
  {
    slots := new nat[2 * capacity](_ => EMPTY);
    StoredStrings(dir, strings);
    var i := 0;
    assert strings[..0] == [];
    while i < count
      invariant i <= count && slots.Length == 2 * capacity && Indexes(slots[..], strings[..i])
    {
      hide Probe, FoundAt, Stores, HasEntry, StringAt;
      ghost var before := slots[..];
      var slot, k := FindEmpty(slots, i, StringAt(dir, i));
      assert strings[i] !in strings[..i] && strings[..i + 1] == strings[..i] + [strings[i]];
      assert forall j | 0 <= j < k :: before[Probe(strings[i], j, |before|)] != EMPTY;
      InsertIndexes(before, strings[..i], strings[i], k);
      slots[slot] := i;
      assert slots[..] == before[slot := i];
      i := i + 1;
    }
    assert strings[..i] == strings;
  }
}
