/**
 * The intern table (wirelog/intern.c): strings to dense ids and back.
 *
 * The abstract table is the sequence of interned strings, without repetition; an id is a
 * position. Allocation and the memory governor answer through parameters.
 */
module Intern {
  import opened Bytes
  import opened InternSegments
  import opened InternTable

  const INITIAL_CAP: nat := 64
  const UINT32_MAX: nat := 0xFFFF_FFFF
  const SLOT_BYTES: nat := 4
  const POINTER_BYTES: nat := 8

  // ---- byte accounting ------------------------------------------------------------------------

  /** Bytes of the segments that hold n strings. */
  function SegmentBytes(n: nat, upto: nat): nat {
    if upto == 0 then 0
    else SegmentBytes(n, upto - 1) + if Base(upto - 1) < n then Size(upto - 1) * POINTER_BYTES else 0
  }

  function StringBytes(strings: seq<Text>): nat
    decreases |strings|
  {
    if strings == [] then 0 else StringBytes(strings[..|strings| - 1]) + |strings[|strings| - 1]| + 1
  }

  /** Everything the table keeps allocated. */
  function Retained(capacity: nat, strings: seq<Text>): nat {
    capacity * SLOT_BYTES + SegmentBytes(|strings|, SEGMENTS) + StringBytes(strings)
  }

  lemma {:induction false} SegmentBytesNext(n: nat, upto: nat)
    requires n < MAX_STRINGS
    ensures SegmentBytes(n + 1, upto) ==
            SegmentBytes(n, upto) + if SegOf(n) < upto && Base(SegOf(n)) == n then Size(SegOf(n)) * POINTER_BYTES else 0
    decreases upto
  {
    if upto > 0 {
      SegmentBytesNext(n, upto - 1);
      OpensIff(n, upto - 1);
    }
  }

  /** Segment s starts at n exactly when n is the first id of its segment, and that is s. */
  lemma OpensIff(n: nat, seg: nat)
    ensures Base(seg) == n <==> SegOf(n) == seg && Base(SegOf(n)) == n
  {
    if Base(seg) == n {
      PlaceOfId(seg, 0);
    }
  }

  /** What one more string adds. */
  lemma RetainedNext(capacity: nat, strings: seq<Text>, s: Text, cap: nat)
    requires |strings| < MAX_STRINGS
    ensures Retained(cap, strings + [s]) + capacity * SLOT_BYTES
         == Retained(capacity, strings) + cap * SLOT_BYTES + |s| + 1
            + if Base(SegOf(|strings|)) == |strings| then Size(SegOf(|strings|)) * POINTER_BYTES else 0
  {
    SegmentBytesNext(|strings|, SEGMENTS);
    WithinDirectory(|strings|);
    assert (strings + [s])[..|strings|] == strings;
  }

  // ---- the table ------------------------------------------------------------------------------------

  ghost predicate IsPowerOfTwo(n: nat) { exists k: nat :: k <= n && n == Pow2(k) }

  lemma DoubledIsPower(n: nat)
    requires IsPowerOfTwo(n)
    ensures IsPowerOfTwo(2 * n)
  {
    var k: nat :| k <= n && n == Pow2(k);
    assert 2 * n == Pow2(k + 1);
  }

  class Table {
    var slots: array<nat>
    var segments: Directory
    var count: nat
    var governed: bool
    var reserved: nat
    ghost var strings: seq<Text>

    ghost predicate Valid()
      reads this, slots
    {
      && count == |strings| && Stores(segments, strings)
      && Indexes(slots[..], strings) && 4 * count <= 3 * slots.Length
      && INITIAL_CAP <= slots.Length && IsPowerOfTwo(slots.Length)
      && (governed ==> reserved == Retained(slots.Length, strings))
    }

    constructor ()
      ensures Valid() && strings == [] && !governed && fresh(slots)
    {
      slots := new nat[INITIAL_CAP](_ => EMPTY);
      segments := seq(SEGMENTS, _ => None);
      count, governed, reserved, strings := 0, false, 0, [];
      new;
      assert Pow2(6) == 64;
      assert forall seg | 0 <= seg < SEGMENTS :: Base(seg) >= 0;
    }

    /** Look a string up: its id exactly when it was interned. */
    method Get(s: Text) returns (id: Option<nat>)
      requires Valid()
      ensures id.Some? <==> s in strings
      ensures id.Some? ==> id.value < |strings| && strings[id.value] == s
    {
      hide Indexes, Stores;
      var found, _, _ := Lookup(slots, segments, strings, s);
      id := found;
      if found.Some? {
        assert strings[found.value] in strings;
      }
    }

    /** The string of an id, for ids below the count and no others. */
    method Reverse(id: int) returns (s: Option<Text>)
      requires Valid()
      ensures s == if 0 <= id < |strings| then Some(strings[id]) else None
    {
      hide Indexes, StringAt, HasEntry;
      if id < 0 || id > UINT32_MAX || id >= count {
        return None;
      }
      return Some(StringAt(segments, id));
    }

    method SegmentScan() returns (total: nat)
      requires Valid()
      ensures total == SegmentBytes(|strings|, SEGMENTS)
    {
      hide Indexes, Base, Size, HasEntry, StringAt, Retained, IsPowerOfTwo;
      total := 0;
      var seg := 0;
      while seg < SEGMENTS
        invariant seg <= SEGMENTS && total == SegmentBytes(count, seg)
      {
        if segments[seg].Some? {
          total := total + Size(seg) * POINTER_BYTES;
        }
        seg := seg + 1;
      }
    }

    method StringScan() returns (total: nat)
      requires Valid()
      ensures total == StringBytes(strings)
    {
      hide Indexes, Stores, HasEntry, StringAt, Retained, IsPowerOfTwo;
      StoredStrings(segments, strings);
      total := 0;
      var i := 0;
      assert strings[..0] == [];
      while i < count
        invariant i <= count && total == StringBytes(strings[..i])
      {
        assert strings[..i + 1][..i] == strings[..i];
        total := total + |StringAt(segments, i)| + 1;
        i := i + 1;
      }
      assert strings[..i] == strings;
    }

    /** A full rescan of what is retained. */
    method RetainedBytes() returns (total: nat)
      requires Valid()
      ensures total == Retained(slots.Length, strings)
    {
      hide Indexes, Stores, SegmentBytes, StringBytes, IsPowerOfTwo;
      var segs := SegmentScan();
      var text := StringScan();
      total := slots.Length * SLOT_BYTES + segs + text;
    }

    /** Attach a governor: admitted with the full footprint, or left as it was. */
    method Attach(admitted: bool) returns (ok: bool)
      requires Valid()
      modifies this`governed, this`reserved
      ensures Valid() && strings == old(strings)
      ensures ok <==> !old(governed) && admitted && Retained(slots.Length, strings) < TWO64 - 1
      ensures governed == (old(governed) || ok) && (!ok ==> reserved == old(reserved))
    {
      hide Indexes, Stores;
      if governed {
        return false;
      }
      var bytes := RetainedBytes();
      if bytes >= TWO64 - 1 || !admitted {
        return false;
      }
      governed, reserved, ok := true, bytes, true;
    }

    method Detach()
      requires Valid()
      modifies this`governed, this`reserved
      ensures Valid() && strings == old(strings) && !governed && reserved == 0
    {
      hide Indexes, Stores;
      governed, reserved := false, 0;
    }

    /** The footprint after one more string, from the footprint now. None: it does not fit 64 bits. */
    method GrownBytes(s: Text, needsSegment: bool, cap: nat) returns (bytes: Option<nat>)
      requires Valid() && governed && count < MAX_STRINGS
      requires cap == slots.Length || cap == 2 * slots.Length
      requires needsSegment == (Base(SegOf(count)) == count)
      ensures bytes == if Retained(cap, strings + [s]) < TWO64 then Some(Retained(cap, strings + [s])) else None
    {
      hide Indexes, Stores;
      RetainedNext(slots.Length, strings, s, cap);
      var resize := cap != slots.Length;
      var freed := if resize then slots.Length * SLOT_BYTES else 0;
      if freed > reserved {
        assert false;
        return None;
      }
      var after := reserved - freed + (|s| + 1);
      if needsSegment {
        after := after + Size(SegOf(count)) * POINTER_BYTES;
      }
      if resize {
        after := after + cap * SLOT_BYTES;
      }
      return if after >= TWO64 then None else Some(after);
    }

    /** The capacity that keeps the index at most three quarters full. */
    function CapacityFor(): nat
      reads this, slots
    {
      if 4 * (count + 1) > 3 * slots.Length then 2 * slots.Length else slots.Length
    }

    /** What can stop a string that is not there yet from being interned. */
    ghost predicate Refused(s: Text, roomOk: bool, admitted: bool)
      reads this, slots
    {
      || count >= MAX_STRINGS || (CapacityFor() != slots.Length && slots.Length > UINT32_MAX / 2)
      || (governed && (Retained(CapacityFor(), strings + [s]) >= TWO64 || !admitted)) || !roomOk
    }

    /** Swap in an index of twice the size, and find the string's slot in it. */
    method Grow(s: Text) returns (slot: nat, ghost k: nat)
      requires count == |strings| && Stores(segments, strings) && Indexes(slots[..], strings)
      modifies this`slots
      ensures fresh(slots) && slots.Length == 2 * old(slots.Length) && Indexes(slots[..], strings)
      ensures k < slots.Length && slot == Probe(s, k, slots.Length) && slots[slot] == EMPTY
      ensures forall j | 0 <= j < k :: slots[..][Probe(s, j, slots.Length)] != EMPTY
    {
      hide Stores, Probe;
      RoomLeft(segments, strings);
      slots := ResizePrepare(slots.Length, segments, count, strings);
      slot, k := FindEmpty(slots, count, s);
    }

    /** Write the entry and its slot, then publish the new count. */
    method Publish(s: Text, slot: nat, ghost k: nat)
      requires count == |strings| < MAX_STRINGS && Stores(segments, strings) && Indexes(slots[..], strings)
      requires s !in strings && count + 1 < slots.Length
      requires k < slots.Length && slot == Probe(s, k, slots.Length) && slots[slot] == EMPTY
      requires forall j | 0 <= j < k :: slots[..][Probe(s, j, slots.Length)] != EMPTY
      modifies this`segments, this`count, this`strings, slots
      ensures strings == old(strings) + [s] && count == |strings|
      ensures Stores(segments, strings) && Indexes(slots[..], strings)
    {
      hide Stores, Indexes, Probe, SegOf, Base, Size, Written;
      NextPlace(segments, strings);
      WrittenStores(segments, strings, s);
      InsertIndexes(slots[..], strings, s, k);
      InstallEntry(s);
      ghost var before := slots[..];
      slots[slot] := count;
      assert slots[..] == before[slot := count];
      strings := strings + [s];
      count := count + 1;
    }

    /** A fresh segment if the id opens one, then the entry. */
    method InstallEntry(s: Text)
      requires |segments| == SEGMENTS && SegOf(count) < SEGMENTS && 0 <= OffsetOf(count) < Size(SegOf(count))
      requires segments[SegOf(count)].Some? ==> OffsetOf(count) < |segments[SegOf(count)].value|
      modifies this`segments
      ensures segments == Written(old(segments), count, s)
    {
      hide SegOf, Size;
      var seg := SegOf(count);
      if segments[seg].None? {
        segments := segments[seg := Some(seq(Size(seg), _ => None))];
      }
      segments := segments[seg := Some(segments[seg].value[OffsetOf(count) := Some(s)])];
    }

    /** What put does once nothing can fail any more. */
    method Install(s: Text, slot: nat, ghost k: nat, after: nat)
      requires Valid() && s !in strings && count < MAX_STRINGS
      requires governed ==> after == Retained(CapacityFor(), strings + [s])
      requires k < slots.Length && slot == Probe(s, k, slots.Length) && slots[slot] == EMPTY && Passed(slots[..], strings, s, k)
      modifies this, slots
      ensures Valid() && strings == old(strings) + [s] && governed == old(governed)
      ensures slots == old(slots) || fresh(slots)
    {
      hide Indexes, Stores, Retained, IsPowerOfTwo, Probe;
      var at, cap := slot, CapacityFor();
      ghost var i := k;
      if governed {
        reserved := after;
      }
      if cap != slots.Length {
        DoubledIsPower(slots.Length);
        at, i := Grow(s);
      } else {
        RoomLeft(segments, strings);
        NoneEmpty(slots[..], strings, s, k);
      }
      Publish(s, at, i);
    }

    /**
     * Intern a string: its id if it has one, else the next id. A refusal, whether for lack
     * of memory, of ids or of the governor's consent, leaves the table as it was.
     */
    method Put(s: Text, copyOk: bool, roomOk: bool, admitted: bool) returns (id: Option<nat>)
      requires Valid()
      modifies this, slots
      ensures Valid() && (governed == old(governed))
      ensures id.Some? ==> id.value < |strings| && strings[id.value] == s
      ensures strings == if id.Some? && s !in old(strings) then old(strings) + [s] else old(strings)
      ensures id.None? <==> !copyOk || (s !in old(strings) && old(Refused(s, roomOk, admitted)))
      ensures id.None? || s in old(strings) ==> slots == old(slots) && slots[..] == old(slots[..])
      ensures id.None? || s in old(strings) ==> segments == old(segments) && reserved == old(reserved) && count == old(count)
      ensures slots == old(slots) || fresh(slots)
    {
      hide Indexes, Stores, Retained, SegOf, Base, IsPowerOfTwo, Probe, Passed;
      if !copyOk {
        return None;
      }
      var found, slot, k := Lookup(slots, segments, strings, s);
      if found.Some? {
        assert strings[found.value] in strings;
        return found;
      }
      if count >= MAX_STRINGS {
        return None;
      }
      WithinDirectory(count);
      OpensExactly(segments, strings);
      var seg := SegOf(count);
      var needsSegment := segments[seg].None?;
      var after := 0;
      if CapacityFor() != slots.Length && slots.Length > UINT32_MAX / 2 {
        return None;
      }
      if governed {
        var grown := GrownBytes(s, needsSegment, CapacityFor());
        if grown.None? || !admitted {
          return None;
        }
        after := grown.value;
      }
      if !roomOk {
        return None;
      }
      Install(s, slot, k, after);
      return Some(count - 1);
    }
  }

  lemma NoneEmpty(slots: seq<nat>, strings: seq<Text>, s: Text, k: nat)
    requires |slots| > 0 && Passed(slots, strings, s, k) && |strings| < EMPTY
    ensures forall j | 0 <= j < k :: slots[Probe(s, j, |slots|)] != EMPTY
  {
    hide Probe;
  }

  /** There are fewer ids than the empty marker. */
  lemma RoomLeft(dir: Directory, strings: seq<Text>)
    requires Stores(dir, strings)
    ensures |strings| < EMPTY
  {}

  /** The segment of the next id is missing exactly when the id is its first. */
  lemma OpensExactly(dir: Directory, strings: seq<Text>)
    requires Stores(dir, strings) && |strings| < MAX_STRINGS
    ensures SegOf(|strings|) < |dir| && (dir[SegOf(|strings|)].None? <==> Base(SegOf(|strings|)) == |strings|)
  {
    WithinDirectory(|strings|);
    InSegment(|strings|);
  }

  /** The directory with one more string written at its place. */
  function Written(dir: Directory, id: nat, s: Text): Directory
    requires |dir| == SEGMENTS && SegOf(id) < SEGMENTS
    requires dir[SegOf(id)].Some? ==> 0 <= OffsetOf(id) < |dir[SegOf(id)].value|
  {
    InSegment(id);
    var seg := SegOf(id);
    var entries := if dir[seg].Some? then dir[seg].value else seq(Size(seg), _ => None);
    dir[seg := Some(entries[OffsetOf(id) := Some(s)])]
  }

  lemma NextPlace(dir: Directory, strings: seq<Text>)
    requires Stores(dir, strings) && |strings| < MAX_STRINGS
    ensures |dir| == SEGMENTS && SegOf(|strings|) < SEGMENTS && 0 <= OffsetOf(|strings|) < Size(SegOf(|strings|))
    ensures dir[SegOf(|strings|)].Some? ==> 0 <= OffsetOf(|strings|) < |dir[SegOf(|strings|)].value|
  {
    WithinDirectory(|strings|);
    InSegment(|strings|);
  }

  /** Two ids never share a place. */
  lemma PlacesDiffer(a: nat, b: nat)
    requires a != b && SegOf(a) == SegOf(b)
    ensures OffsetOf(a) != OffsetOf(b)
  {}

  lemma WrittenStores(dir: Directory, strings: seq<Text>, s: Text)
    requires Stores(dir, strings) && |strings| < MAX_STRINGS
    requires SegOf(|strings|) < SEGMENTS && (dir[SegOf(|strings|)].Some? ==> 0 <= OffsetOf(|strings|) < |dir[SegOf(|strings|)].value|)
    ensures Stores(Written(dir, |strings|, s), strings + [s])
  {
    hide SegOf, Base, Size;
    var n, all := |strings|, strings + [s];
    NextPlace(dir, strings);
    var out := Written(dir, n, s);
    forall seg | 0 <= seg < SEGMENTS
      ensures (out[seg].Some? <==> Base(seg) < n + 1) && (out[seg].Some? ==> |out[seg].value| == Size(seg))
    {
      OpensIff(n, seg);
      if seg == SegOf(n) {
        InSegment(n);
      }
    }
    forall id | 0 <= id < |all|
      ensures HasEntry(out, id) && StringAt(out, id) == all[id]
    {
      if id < n && SegOf(id) == SegOf(n) {
        PlacesDiffer(id, n);
      }
      if id < n {
        assert HasEntry(dir, id) && StringAt(dir, id) == strings[id];
      }
    }
  }

  // ---- runs of puts --------------------------------------------------------------------------------------

  /** What a run of successful puts leaves interned. */
  function AfterPuts(puts: seq<Text>): seq<Text>
    decreases |puts|
  {
    if puts == [] then []
    else
      var before, s := AfterPuts(puts[..|puts| - 1]), puts[|puts| - 1];
      if s in before then before else before + [s]
  }

  /** Ids are dense and one to one with the strings that were put. */
  lemma {:induction false} PutsAreInjective(puts: seq<Text>)
    ensures Distinct(AfterPuts(puts)) && forall s :: s in puts <==> s in AfterPuts(puts)
    decreases |puts|
  {
    if puts != [] {
      var init, s := puts[..|puts| - 1], puts[|puts| - 1];
      PutsAreInjective(init);
      assert puts == init + [s];
      var before := AfterPuts(init);
      if s !in before {
        assert forall i | 0 <= i < |before| :: before[i] in before;
      }
    }
  }

  /** An id names the same string ever after. */
  lemma {:induction false} IdsAreStable(puts: seq<Text>, more: seq<Text>)
    ensures AfterPuts(puts) <= AfterPuts(puts + more)
    decreases |more|
  {
    if more == [] {
      assert puts + more == puts;
    } else {
      var init := more[..|more| - 1];
      IdsAreStable(puts, init);
      assert (puts + more)[..|puts + more| - 1] == puts + init;
    }
  }
}
