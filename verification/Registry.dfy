/**
 * The extension registry as a lifetime state machine (wirelog/extension_registry.c).
 *
 * An entry is held by its registration, by every live snapshot that contains it and by
 * every live callback lease on it. Its reference count is the number of holders, and its
 * destroy callback becomes due at the step that brings the count to zero. Entries and
 * snapshots are numbered in the order they were made; callers release each lease once and
 * use a snapshot only while they hold a reference to it.
 */
module Registry {
  import opened Bytes

  datatype Entry = Entry(name: Text, references: nat, pins: nat, registered: bool)

  /** References held by callers, the entries at the time of acquisition, and this snapshot's pins on each. */
  datatype Snapshot = Snapshot(references: nat, entries: seq<nat>, pins: seq<nat>)

  /**
   * heap: every entry ever accepted; a count of zero means destroyed. entries: the
   * registered ones. destroyed: destroy callbacks that became due, in order.
   */
  datatype State = State(
    heap: seq<Entry>,
    entries: seq<nat>,
    snapshots: seq<Snapshot>,
    leases: multiset<nat>,
    activeSnapshots: nat,
    activeLeases: nat,
    destroyed: seq<nat>)

  const EMPTY := State([], [], [], multiset{}, 0, 0, [])

  // ---- names ------------------------------------------------------------------------------

  predicate IsBlank(b: Byte) { b == 32 || b == 9 || b == 10 || b == 13 }

  function SkipBlanks(s: Text): Text { if s != [] && IsBlank(s[0]) then SkipBlanks(s[1..]) else s }

  function DropBlanks(s: Text): Text
    decreases |s|
  {
    if s != [] && IsBlank(s[|s| - 1]) then DropBlanks(s[..|s| - 1]) else s
  }

  /** The name without surrounding blanks; None when that leaves nothing, or more than 255 bytes. */
  function Normalized(name: Text): Option<Text> {
    var s := DropBlanks(SkipBlanks(name));
    if 1 <= |s| <= 255 then Some(s) else None
  }

  // ---- holders ----------------------------------------------------------------------------------

  predicate InRange(ids: seq<nat>, n: nat) { forall i | 0 <= i < |ids| :: ids[i] < n }

  predicate WellFormed(s: State) {
    && InRange(s.entries, |s.heap|)
    && (forall i | 0 <= i < |s.snapshots| :: |s.snapshots[i].pins| == |s.snapshots[i].entries|)
    && (forall i | 0 <= i < |s.snapshots| :: InRange(s.snapshots[i].entries, |s.heap|))
    && (forall e | e in s.leases :: e < |s.heap|)
  }

  predicate IsLive(s: State, k: nat) { k < |s.snapshots| && s.snapshots[k].references > 0 }

  /** This snapshot's pins on e. */
  function PinsOn(sn: Snapshot, e: nat): nat {
    if sn.references > 0 && e in sn.entries && |sn.pins| == |sn.entries| then sn.pins[PositionOf(sn.entries, e)] else 0
  }

  function PositionOf(ids: seq<nat>, e: nat): (i: nat)
    requires e in ids
    ensures i < |ids| && ids[i] == e
  {
    if ids[0] == e then 0 else 1 + PositionOf(ids[1..], e)
  }

  function Holds(sn: Snapshot, e: nat): nat { if sn.references > 0 && e in sn.entries then 1 else 0 }

  function HeldBy(sns: seq<Snapshot>, e: nat): nat
    decreases |sns|
  {
    if sns == [] then 0 else HeldBy(sns[..|sns| - 1], e) + Holds(sns[|sns| - 1], e)
  }

  function PinnedBy(sns: seq<Snapshot>, e: nat): nat
    decreases |sns|
  {
    if sns == [] then 0 else PinnedBy(sns[..|sns| - 1], e) + PinsOn(sns[|sns| - 1], e)
  }

  function LiveCount(sns: seq<Snapshot>): nat
    decreases |sns|
  {
    if sns == [] then 0 else LiveCount(sns[..|sns| - 1]) + if sns[|sns| - 1].references > 0 then 1 else 0
  }

  /** Registration, live snapshots and live leases. */
  function Holders(s: State, e: nat): nat {
    (if e in s.entries then 1 else 0) + HeldBy(s.snapshots, e) + s.leases[e]
  }

  predicate IsDistinct(ids: seq<nat>) { forall i, j | 0 <= i < j < |ids| :: ids[i] != ids[j] }

  /** Counts say who holds what. */
  predicate CountsRight(s: State, e: nat)
    requires e < |s.heap|
  {
    && s.heap[e].references == Holders(s, e)
    && s.heap[e].pins == PinnedBy(s.snapshots, e)
    && (s.heap[e].registered <==> e in s.entries)
    && multiset(s.destroyed)[e] == if s.heap[e].references == 0 then 1 else 0
  }

  predicate NamesDistinct(s: State)
    requires WellFormed(s)
  {
    forall i, j | 0 <= i < j < |s.entries| :: s.heap[s.entries[i]].name != s.heap[s.entries[j]].name
  }

  predicate Inv(s: State) {
    && WellFormed(s) && IsDistinct(s.entries) && NamesDistinct(s)
    && (forall i | 0 <= i < |s.snapshots| :: IsDistinct(s.snapshots[i].entries))
    && s.activeSnapshots == LiveCount(s.snapshots) && s.activeLeases == |s.leases|
    && (forall e | 0 <= e < |s.heap| :: CountsRight(s, e))
    && InRange(s.destroyed, |s.heap|)
  }

  // ---- facts of the invariant ---------------------------------------------------------------------

  lemma {:induction false} HoldsOne(sns: seq<Snapshot>, k: nat, e: nat)
    requires k < |sns|
    ensures Holds(sns[k], e) <= HeldBy(sns, e) && PinsOn(sns[k], e) <= PinnedBy(sns, e)
    ensures sns[k].references > 0 ==> LiveCount(sns) > 0
    decreases |sns|
  {
    if k < |sns| - 1 {
      HoldsOne(sns[..|sns| - 1], k, e);
    }
  }

  /** Whoever is registered, in a live snapshot or leased has a positive count. */
  lemma HeldIsCounted(s: State, e: nat)
    requires Inv(s) && e < |s.heap|
    ensures e in s.entries || e in s.leases ==> s.heap[e].references > 0
    ensures forall k | 0 <= k < |s.snapshots| && IsLive(s, k) && e in s.snapshots[k].entries :: s.heap[e].references > 0
    ensures forall k | 0 <= k < |s.snapshots| :: PinsOn(s.snapshots[k], e) <= s.heap[e].pins
  {
    assert CountsRight(s, e);
    forall k | 0 <= k < |s.snapshots|
      ensures Holds(s.snapshots[k], e) <= HeldBy(s.snapshots, e) && PinsOn(s.snapshots[k], e) <= PinnedBy(s.snapshots, e)
    {
      HoldsOne(s.snapshots, k, e);
    }
  }

  // ---- steps ----------------------------------------------------------------------------------

  /** The position of a name in a list of entries; the list's length when it is not there. */
  function IndexOf(heap: seq<Entry>, ids: seq<nat>, name: Text): (i: nat)
    requires InRange(ids, |heap|)
    ensures i <= |ids| && (i < |ids| ==> heap[ids[i]].name == name)
    ensures forall k | 0 <= k < i :: heap[ids[k]].name != name
  {
    if ids == [] then 0
    else if heap[ids[0]].name == name then 0
    else 1 + IndexOf(heap, ids[1..], name)
  }

  /** Registration; a bad descriptor, a bad name or a name already there changes nothing. */
  function Registered(s: State, name: Text, valid: bool): (State, bool)
    requires WellFormed(s)
  {
    match Normalized(name)
    case None => (s, false)
    case Some(n) =>
      if !valid || IndexOf(s.heap, s.entries, n) < |s.entries| then (s, false)
      else (s.(heap := s.heap + [Entry(n, 1, 0, true)], entries := s.entries + [|s.heap|]), true)
  }

  /** One holder of e lets go. */
  function Dropped(s: State, e: nat): State
    requires e < |s.heap| && s.heap[e].references > 0
  {
    var left := s.heap[e].references - 1;
    s.(heap := s.heap[e := s.heap[e].(references := left)],
       destroyed := if left == 0 then s.destroyed + [e] else s.destroyed)
  }

  /** Removal of the entry at position i, unless it is pinned. */
  function Removed(s: State, i: nat): (State, bool)
    requires Inv(s) && i < |s.entries|
  {
    var e := s.entries[i];
    assert e in s.entries;
    HeldIsCounted(s, e);
    if s.heap[e].pins != 0 then (s, false)
    else
      (Dropped(s.(entries := s.entries[..i] + s.entries[i + 1..],
                  heap := s.heap[e := s.heap[e].(registered := false)]), e), true)
  }

  function Unregistered(s: State, name: Text): (State, bool)
    requires Inv(s)
  {
    match Normalized(name)
    case None => (s, false)
    case Some(n) =>
      var i := IndexOf(s.heap, s.entries, n);
      if i == |s.entries| then (s, false) else Removed(s, i)
  }

  function Bumped(heap: seq<Entry>, ids: seq<nat>): (r: seq<Entry>)
    ensures |r| == |heap|
  {
    seq(|heap|, e requires 0 <= e < |heap| =>
      if e in ids then heap[e].(references := heap[e].references + 1) else heap[e])
  }

  function Acquired(s: State): State {
    s.(snapshots := s.snapshots + [Snapshot(1, s.entries, seq(|s.entries|, _ => 0))],
       heap := Bumped(s.heap, s.entries),
       activeSnapshots := s.activeSnapshots + 1)
  }

  function Retained(s: State, k: nat): State
    requires IsLive(s, k)
  {
    s.(snapshots := s.snapshots[k := s.snapshots[k].(references := s.snapshots[k].references + 1)])
  }

  /** The snapshot's pins go first. */
  function Unpinned(heap: seq<Entry>, sn: Snapshot): (r: seq<Entry>)
    requires forall e | 0 <= e < |heap| :: PinsOn(sn, e) <= heap[e].pins
    ensures |r| == |heap|
  {
    seq(|heap|, e requires 0 <= e < |heap| => heap[e].(pins := heap[e].pins - PinsOn(sn, e)))
  }

  predicate AllHeld(heap: seq<Entry>, ids: seq<nat>) {
    InRange(ids, |heap|) && IsDistinct(ids) && forall i | 0 <= i < |ids| :: heap[ids[i]].references > 0
  }

  /** Then its holds, entry by entry, noting the ones that reach zero. */
  function DroppedAll(s: State, ids: seq<nat>): (t: State)
    requires AllHeld(s.heap, ids)
    ensures |t.heap| == |s.heap| && forall e | 0 <= e < |s.heap| && e !in ids :: t.heap[e] == s.heap[e]
    decreases |ids|
  {
    if ids == [] then s
    else
      var e := ids[|ids| - 1];
      var t := DroppedAll(s, ids[..|ids| - 1]);
      assert t.heap[e] == s.heap[e];
      Dropped(t, e)
  }

  lemma SnapshotHeld(s: State, k: nat)
    requires Inv(s) && IsLive(s, k)
    ensures s.activeSnapshots > 0 && forall e | 0 <= e < |s.heap| :: PinsOn(s.snapshots[k], e) <= s.heap[e].pins
    ensures AllHeld(Unpinned(s.heap, s.snapshots[k]), s.snapshots[k].entries)
  {
    HoldsOne(s.snapshots, k, 0);
    forall e | 0 <= e < |s.heap|
      ensures PinsOn(s.snapshots[k], e) <= s.heap[e].pins
      ensures e in s.snapshots[k].entries ==> s.heap[e].references > 0
    {
      HeldIsCounted(s, e);
    }
    var ids := s.snapshots[k].entries;
    assert InRange(ids, |s.heap|) && forall i | 0 <= i < |ids| :: ids[i] in ids;
  }

  function Released(s: State, k: nat): State
    requires Inv(s) && IsLive(s, k)
  {
    var sn := s.snapshots[k];
    if sn.references > 1 then s.(snapshots := s.snapshots[k := sn.(references := sn.references - 1)])
    else
      SnapshotHeld(s, k);
      DroppedAll(s.(heap := Unpinned(s.heap, sn),
                    snapshots := s.snapshots[k := sn.(references := 0)],
                    activeSnapshots := s.activeSnapshots - 1), sn.entries)
  }

  /** A lease is granted on an entry of a live snapshot. */
  function Leased(s: State, k: nat, e: nat): (State, bool)
    requires WellFormed(s) && IsLive(s, k)
  {
    if e !in s.snapshots[k].entries then (s, false)
    else
      (s.(heap := s.heap[e := s.heap[e].(references := s.heap[e].references + 1)],
          leases := s.leases + multiset{e}, activeLeases := s.activeLeases + 1), true)
  }

  function LeaseReturned(s: State, e: nat): State
    requires Inv(s) && e in s.leases
  {
    HeldIsCounted(s, e);
    Dropped(s.(leases := s.leases - multiset{e},
               activeLeases := s.activeLeases - 1), e)
  }

  function SetPins(s: State, k: nat, i: nat, mine: nat, all: nat): State
    requires WellFormed(s) && k < |s.snapshots| && i < |s.snapshots[k].entries|
  {
    var sn := s.snapshots[k];
    var e := sn.entries[i];
    assert e in sn.entries;
    s.(snapshots := s.snapshots[k := sn.(pins := sn.pins[i := mine])], heap := s.heap[e := s.heap[e].(pins := all)])
  }

  function Pinned(s: State, k: nat, name: Text): (State, bool)
    requires WellFormed(s) && IsLive(s, k)
  {
    match Normalized(name)
    case None => (s, false)
    case Some(n) =>
      var sn := s.snapshots[k];
      var i := IndexOf(s.heap, sn.entries, n);
      if i == |sn.entries| then (s, false)
      else
        assert sn.entries[i] in sn.entries;
        (SetPins(s, k, i, sn.pins[i] + 1, s.heap[sn.entries[i]].pins + 1), true)
  }

  function PinReturned(s: State, k: nat, e: nat): (State, bool)
    requires Inv(s) && IsLive(s, k)
  {
    var sn := s.snapshots[k];
    if e !in sn.entries || sn.pins[PositionOf(sn.entries, e)] == 0 then (s, false)
    else
      var i := PositionOf(sn.entries, e);
      HeldIsCounted(s, e);
      (SetPins(s, k, i, sn.pins[i] - 1, s.heap[e].pins - 1), true)
  }

  /** The registry may be destroyed when nothing uses it any more. */
  predicate MayDestroy(s: State) { s.entries == [] && s.activeSnapshots == 0 && s.activeLeases == 0 }


  // ---- every step keeps the counts right ----------------------------------------------------------------

  lemma {:induction false} SumsUpdate(sns: seq<Snapshot>, k: nat, sn: Snapshot, e: nat)
    requires k < |sns|
    ensures HeldBy(sns[k := sn], e) + Holds(sns[k], e) == HeldBy(sns, e) + Holds(sn, e)
    ensures PinnedBy(sns[k := sn], e) + PinsOn(sns[k], e) == PinnedBy(sns, e) + PinsOn(sn, e)
    ensures LiveCount(sns[k := sn]) + (if sns[k].references > 0 then 1 else 0) == LiveCount(sns) + (if sn.references > 0 then 1 else 0)
    decreases |sns|
  {
    hide Holds, PinsOn;
    var n := |sns| - 1;
    if k == n {
      assert sns[k := sn][..n] == sns[..n];
    } else {
      SumsUpdate(sns[..n], k, sn, e);
      assert sns[k := sn][..n] == sns[..n][k := sn];
    }
  }

  lemma SumsSnoc(sns: seq<Snapshot>, sn: Snapshot, e: nat)
    ensures HeldBy(sns + [sn], e) == HeldBy(sns, e) + Holds(sn, e)
    ensures PinnedBy(sns + [sn], e) == PinnedBy(sns, e) + PinsOn(sn, e)
    ensures LiveCount(sns + [sn]) == LiveCount(sns) + if sn.references > 0 then 1 else 0
  {
    assert (sns + [sn])[..|sns|] == sns;
  }

  /** Nobody holds an entry that does not exist yet. */
  lemma {:induction false} NotHeldYet(sns: seq<Snapshot>, n: nat, e: nat)
    requires e >= n && forall i | 0 <= i < |sns| :: InRange(sns[i].entries, n)
    ensures HeldBy(sns, e) == 0 && PinnedBy(sns, e) == 0
    decreases |sns|
  {
    if sns != [] {
      NotHeldYet(sns[..|sns| - 1], n, e);
      assert InRange(sns[|sns| - 1].entries, n);
    }
  }

  lemma RegisterCounts(s: State, name: Text, e: nat)
    requires Inv(s) && Registered(s, name, true).1 && e <= |s.heap|
    ensures CountsRight(Registered(s, name, true).0, e)
  {
    var t := Registered(s, name, true).0;
    assert e in t.entries <==> e in s.entries || e == |s.heap|;
    if e == |s.heap| {
      NotHeldYet(s.snapshots, |s.heap|, e);
      assert e !in s.entries && e !in s.leases && e !in s.destroyed;
    } else {
      assert CountsRight(s, e);
    }
  }

  lemma RegisterKeeps(s: State, name: Text, valid: bool)
    requires Inv(s)
    ensures Inv(Registered(s, name, valid).0)
  {
    var (t, ok) := Registered(s, name, valid);
    if ok {
      hide CountsRight;
      forall e | 0 <= e < |t.heap|
        ensures CountsRight(t, e)
      {
        RegisterCounts(s, name, e);
      }
      assert forall i | 0 <= i < |s.entries| :: t.heap[t.entries[i]] == s.heap[s.entries[i]] && t.entries[i] == s.entries[i];
    }
  }

  lemma DropCounts(s: State, d: nat, e: nat)
    requires d < |s.heap| && s.heap[d].references > 0 && e < |s.heap|
    ensures var t := Dropped(s, d);
            && t.heap[e] == (if e == d then s.heap[e].(references := s.heap[e].references - 1) else s.heap[e])
            && multiset(t.destroyed)[e] == multiset(s.destroyed)[e] + (if e == d && s.heap[d].references == 1 then 1 else 0)
  {}

  lemma DropShape(s: State, d: nat)
    requires d < |s.heap| && s.heap[d].references > 0 && InRange(s.destroyed, |s.heap|)
    ensures var t := Dropped(s, d);
            t.entries == s.entries && t.snapshots == s.snapshots && t.leases == s.leases && |t.heap| == |s.heap|
            && t.activeSnapshots == s.activeSnapshots && t.activeLeases == s.activeLeases && InRange(t.destroyed, |t.heap|)
            && forall e | 0 <= e < |s.heap| :: t.heap[e].name == s.heap[e].name
  {}

  lemma RemovedEntries(s: State, i: nat)
    requires i < |s.entries| && IsDistinct(s.entries)
    ensures var rest := s.entries[..i] + s.entries[i + 1..];
            IsDistinct(rest) && forall e :: e in rest <==> e in s.entries && e != s.entries[i]
  {
    var rest := s.entries[..i] + s.entries[i + 1..];
    assert forall k | 0 <= k < |rest| :: rest[k] == s.entries[if k < i then k else k + 1];
    forall e | e in s.entries && e != s.entries[i]
      ensures e in rest
    {
      var k :| 0 <= k < |s.entries| && s.entries[k] == e;
      assert rest[if k < i then k else k - 1] == e;
    }
  }

  lemma RemoveCounts(s: State, i: nat, e: nat)
    requires Inv(s) && i < |s.entries| && Removed(s, i).1 && e < |s.heap|
    ensures e < |Removed(s, i).0.heap| && CountsRight(Removed(s, i).0, e)
  {
    var d, rest := s.entries[i], s.entries[..i] + s.entries[i + 1..];
    assert d in s.entries;
    HeldIsCounted(s, d);
    RemovedEntries(s, i);
    var u := s.(entries := rest, heap := s.heap[d := s.heap[d].(registered := false)]);
    DropShape(u, d);
    assert CountsRight(s, e);
    DropCounts(u, d, e);
  }

  lemma RemoveKeeps(s: State, i: nat)
    requires Inv(s) && i < |s.entries|
    ensures Inv(Removed(s, i).0)
  {
    var (t, ok) := Removed(s, i);
    if ok {
      hide CountsRight;
      var d, rest := s.entries[i], s.entries[..i] + s.entries[i + 1..];
      assert d in s.entries;
      HeldIsCounted(s, d);
      RemovedEntries(s, i);
      DropShape(s.(entries := rest, heap := s.heap[d := s.heap[d].(registered := false)]), d);
      forall e | 0 <= e < |t.heap|
        ensures CountsRight(t, e)
      {
        RemoveCounts(s, i, e);
      }
      assert forall k | 0 <= k < |rest| :: rest[k] == s.entries[if k < i then k else k + 1];
    }
  }

  lemma AcquireKeeps(s: State)
    requires Inv(s)
    ensures Inv(Acquired(s))
  {
    var t := Acquired(s);
    var sn := Snapshot(1, s.entries, seq(|s.entries|, _ => 0));
    SumsSnoc(s.snapshots, sn, 0);
    forall e | 0 <= e < |t.heap|
      ensures CountsRight(t, e)
    {
      assert CountsRight(s, e);
      SumsSnoc(s.snapshots, sn, e);
    }
    assert forall k | 0 <= k < |t.snapshots| :: t.snapshots[k] == if k < |s.snapshots| then s.snapshots[k] else sn;
  }

  lemma RetainKeeps(s: State, k: nat, more: nat)
    requires Inv(s) && IsLive(s, k) && more > 0
    ensures Inv(s.(snapshots := s.snapshots[k := s.snapshots[k].(references := more)]))
  {
    var sn := s.snapshots[k].(references := more);
    var t := s.(snapshots := s.snapshots[k := sn]);
    SumsUpdate(s.snapshots, k, sn, 0);
    forall e | 0 <= e < |t.heap|
      ensures CountsRight(t, e)
    {
      assert CountsRight(s, e);
      SumsUpdate(s.snapshots, k, sn, e);
    }
  }

  /** Dropping a list of holds: one less each, due when it was the last. */
  lemma {:induction false} DropAllCounts(s: State, ids: seq<nat>, e: nat)
    requires AllHeld(s.heap, ids) && e < |s.heap|
    ensures var t := DroppedAll(s, ids);
            && t.heap[e] == (if e in ids then s.heap[e].(references := s.heap[e].references - 1) else s.heap[e])
            && multiset(t.destroyed)[e] == multiset(s.destroyed)[e] + (if e in ids && s.heap[e].references == 1 then 1 else 0)
    decreases |ids|
  {
    if ids != [] {
      var init, d := ids[..|ids| - 1], ids[|ids| - 1];
      assert ids == init + [d] && d !in init;
      DropAllCounts(s, init, e);
      var t := DroppedAll(s, init);
      assert t.heap[d] == s.heap[d];
      DropCounts(t, d, e);
    }
  }

  lemma {:induction false} DropAllShape(s: State, ids: seq<nat>)
    requires AllHeld(s.heap, ids) && InRange(s.destroyed, |s.heap|)
    ensures var t := DroppedAll(s, ids);
            t.entries == s.entries && t.snapshots == s.snapshots && t.leases == s.leases && |t.heap| == |s.heap|
            && t.activeSnapshots == s.activeSnapshots && t.activeLeases == s.activeLeases && InRange(t.destroyed, |t.heap|)
            && forall e | 0 <= e < |s.heap| :: t.heap[e].name == s.heap[e].name
    decreases |ids|
  {
    if ids != [] {
      var init, d := ids[..|ids| - 1], ids[|ids| - 1];
      assert d !in init;
      DropAllShape(s, init);
      DropShape(DroppedAll(s, init), d);
    }
  }

  lemma ReleaseKeeps(s: State, k: nat)
    requires Inv(s) && IsLive(s, k)
    ensures Inv(Released(s, k))
  {
    var sn := s.snapshots[k];
    if sn.references > 1 {
      RetainKeeps(s, k, sn.references - 1);
    } else {
      LastReleaseKeeps(s, k);
    }
  }

  lemma LastReleaseCounts(s: State, k: nat, e: nat)
    requires Inv(s) && IsLive(s, k) && s.snapshots[k].references == 1 && e < |s.heap|
    ensures e < |Released(s, k).heap| && CountsRight(Released(s, k), e)
  {
    var sn := s.snapshots[k];
    SnapshotHeld(s, k);
    var dead := sn.(references := 0);
    var u := s.(heap := Unpinned(s.heap, sn), snapshots := s.snapshots[k := dead], activeSnapshots := s.activeSnapshots - 1);
    DropAllShape(u, sn.entries);
    assert CountsRight(s, e);
    SumsUpdate(s.snapshots, k, dead, e);
    DropAllCounts(u, sn.entries, e);
  }

  lemma LastReleaseShape(s: State, k: nat)
    requires Inv(s) && IsLive(s, k) && s.snapshots[k].references == 1
    ensures var t := Released(s, k);
            t.entries == s.entries && t.snapshots == s.snapshots[k := s.snapshots[k].(references := 0)]
            && t.leases == s.leases && |t.heap| == |s.heap| && t.activeSnapshots == s.activeSnapshots - 1
            && t.activeLeases == s.activeLeases && InRange(t.destroyed, |t.heap|)
            && forall e | 0 <= e < |s.heap| :: t.heap[e].name == s.heap[e].name
  {
    hide CountsRight, NamesDistinct;
    var sn := s.snapshots[k];
    SnapshotHeld(s, k);
    DropAllShape(s.(heap := Unpinned(s.heap, sn), snapshots := s.snapshots[k := sn.(references := 0)],
                    activeSnapshots := s.activeSnapshots - 1), sn.entries);
  }

  lemma LastReleaseKeeps(s: State, k: nat)
    requires Inv(s) && IsLive(s, k) && s.snapshots[k].references == 1
    ensures Inv(Released(s, k))
  {
    hide CountsRight, Released;
    var t, dead := Released(s, k), s.snapshots[k].(references := 0);
    LastReleaseShape(s, k);
    SumsUpdate(s.snapshots, k, dead, 0);
    forall e | 0 <= e < |t.heap|
      ensures CountsRight(t, e)
    {
      LastReleaseCounts(s, k, e);
    }
    assert forall i | 0 <= i < |t.snapshots| :: t.snapshots[i].entries == s.snapshots[i].entries && t.snapshots[i].pins == s.snapshots[i].pins;
  }

  lemma LeaseKeeps(s: State, k: nat, e: nat)
    requires Inv(s) && IsLive(s, k)
    ensures Inv(Leased(s, k, e).0)
  {
    var (t, ok) := Leased(s, k, e);
    if ok {
      HeldIsCounted(s, e);
      forall d | 0 <= d < |t.heap|
        ensures CountsRight(t, d)
      {
        assert CountsRight(s, d);
      }
    }
  }

  lemma LeaseReturnKeeps(s: State, d: nat)
    requires Inv(s) && d in s.leases
    ensures Inv(LeaseReturned(s, d))
  {
    HeldIsCounted(s, d);
    var t := LeaseReturned(s, d);
    var u := s.(leases := s.leases - multiset{d}, activeLeases := s.activeLeases - 1);
    DropShape(u, d);
    forall e | 0 <= e < |t.heap|
      ensures CountsRight(t, e)
    {
      assert CountsRight(s, e);
      DropCounts(u, d, e);
    }
  }

  lemma OnlyPosition(ids: seq<nat>, i: nat)
    requires IsDistinct(ids) && i < |ids|
    ensures ids[i] in ids && PositionOf(ids, ids[i]) == i
  {}

  lemma SetPinsKeeps(s: State, k: nat, i: nat, mine: nat, all: nat)
    requires Inv(s) && IsLive(s, k) && i < |s.snapshots[k].entries|
    requires s.snapshots[k].entries[i] < |s.heap| && s.heap[s.snapshots[k].entries[i]].pins + mine == all + s.snapshots[k].pins[i]
    ensures Inv(SetPins(s, k, i, mine, all))
  {
    var sn, t := s.snapshots[k], SetPins(s, k, i, mine, all);
    var new_ := sn.(pins := sn.pins[i := mine]);
    SumsUpdate(s.snapshots, k, new_, 0);
    OnlyPosition(sn.entries, i);
    forall e | 0 <= e < |t.heap|
      ensures CountsRight(t, e)
    {
      assert CountsRight(s, e);
      SumsUpdate(s.snapshots, k, new_, e);
      if e != sn.entries[i] && e in sn.entries {
        assert PositionOf(sn.entries, e) != i;
      }
    }
    assert forall j | 0 <= j < |s.entries| :: t.heap[t.entries[j]].name == s.heap[s.entries[j]].name;
  }

  lemma PinKeeps(s: State, k: nat, name: Text)
    requires Inv(s) && IsLive(s, k)
    ensures Inv(Pinned(s, k, name).0)
  {
    hide Inv, SetPins;
    KnownSnapshot(s, k);
    var (t, ok) := Pinned(s, k, name);
    if ok {
      var sn := s.snapshots[k];
      var i := IndexOf(s.heap, sn.entries, Normalized(name).value);
      SetPinsKeeps(s, k, i, sn.pins[i] + 1, s.heap[sn.entries[i]].pins + 1);
    }
  }

  lemma KnownSnapshot(s: State, k: nat)
    requires Inv(s) && IsLive(s, k)
    ensures WellFormed(s) && InRange(s.snapshots[k].entries, |s.heap|) && |s.snapshots[k].pins| == |s.snapshots[k].entries|
    ensures IsDistinct(s.snapshots[k].entries)
  {}

  lemma PinReturnKeeps(s: State, k: nat, e: nat)
    requires Inv(s) && IsLive(s, k)
    ensures Inv(PinReturned(s, k, e).0)
  {
    hide Inv, SetPins;
    KnownSnapshot(s, k);
    var (t, ok) := PinReturned(s, k, e);
    if ok {
      var sn := s.snapshots[k];
      var i := PositionOf(sn.entries, e);
      HeldIsCounted(s, e);
      OnlyPosition(sn.entries, i);
      assert PinsOn(sn, e) == sn.pins[i];
      SetPinsKeeps(s, k, i, sn.pins[i] - 1, s.heap[e].pins - 1);
    }
  }

  // ---- runs -------------------------------------------------------------------------------------------------

  datatype Event =
    | Register(name: Text, valid: bool)
    | Unregister(name: Text)
    | Acquire
    | Retain(snapshot: nat)
    | Release(snapshot: nat)
    | Lease(snapshot: nat, entry: nat)
    | ReturnLease(entry: nat)
    | Pin(snapshot: nat, name: Text)
    | Unpin(snapshot: nat, entry: nat)

  /** Callers use snapshots and leases they hold. */
  predicate Allowed(s: State, e: Event) {
    match e
    case Register(_, _) => true
    case Unregister(_) => true
    case Acquire => true
    case ReturnLease(x) => x in s.leases
    case _ => IsLive(s, e.snapshot)
  }

  function Next(s: State, e: Event): State
    requires Inv(s) && Allowed(s, e)
  {
    match e
    case Register(name, valid) => Registered(s, name, valid).0
    case Unregister(name) => Unregistered(s, name).0
    case Acquire => Acquired(s)
    case Retain(k) => Retained(s, k)
    case Release(k) => Released(s, k)
    case Lease(k, x) => Leased(s, k, x).0
    case ReturnLease(x) => LeaseReturned(s, x)
    case Pin(k, name) => Pinned(s, k, name).0
    case Unpin(k, x) => PinReturned(s, k, x).0
  }

  /** Every step keeps reference and pin counts equal to their holders. */
  lemma StepKeeps(s: State, e: Event)
    requires Inv(s) && Allowed(s, e)
    ensures Inv(Next(s, e))
  {
    hide Inv, Registered, Removed, Acquired, Released, Leased, LeaseReturned, Pinned, PinReturned;
    match e
    case Register(name, valid) => RegisterKeeps(s, name, valid);
    case Unregister(name) => UnregisterKeeps(s, name);
    case Acquire => AcquireKeeps(s);
    case Retain(k) => RetainKeeps(s, k, s.snapshots[k].references + 1);
    case Release(k) => ReleaseKeeps(s, k);
    case Lease(k, x) => LeaseKeeps(s, k, x);
    case ReturnLease(x) => LeaseReturnKeeps(s, x);
    case Pin(k, name) => PinKeeps(s, k, name);
    case Unpin(k, x) => PinReturnKeeps(s, k, x);
  }

  lemma UnregisterKeeps(s: State, name: Text)
    requires Inv(s)
    ensures Inv(Unregistered(s, name).0)
  {
    hide Inv, Removed;
    var n := Normalized(name);
    if n.Some? {
      assert WellFormed(s) by { IsWellFormed(s); }
      var i := IndexOf(s.heap, s.entries, n.value);
      if i < |s.entries| {
        RemoveKeeps(s, i);
      }
    }
  }

  lemma IsWellFormed(s: State)
    requires Inv(s)
    ensures WellFormed(s)
  {}

  lemma EmptyHolds()
    ensures Inv(EMPTY)
  {}

  /** A run: every event allowed where it happens. None when it is not a run. */
  function Run(events: seq<Event>): (r: Option<State>)
    ensures r.Some? ==> Inv(r.value)
    decreases |events|
  {
    if events == [] then
      EmptyHolds();
      Some(EMPTY)
    else
      match Run(events[..|events| - 1])
      case None => None
      case Some(s) =>
        var e := events[|events| - 1];
        if !Allowed(s, e) then None
        else
          StepKeeps(s, e);
          Some(Next(s, e))
  }

  // ---- what the counts give -----------------------------------------------------------------------------------

  /** In every run: the count is the number of holders, the pins are the snapshots' pins. */
  lemma CountsHoldInRuns(events: seq<Event>, e: nat)
    requires Run(events).Some? && e < |Run(events).value.heap|
    ensures var s := Run(events).value;
            s.heap[e].references == Holders(s, e) && s.heap[e].pins == PinnedBy(s.snapshots, e)
  {
    hide Run;
    assert CountsRight(Run(events).value, e);
  }

  /** The destroy callback is due once, and only when nobody holds the entry. */
  lemma DestroyedOnce(events: seq<Event>, e: nat)
    requires Run(events).Some? && e < |Run(events).value.heap|
    ensures var s := Run(events).value;
            multiset(s.destroyed)[e] <= 1 && (e in s.destroyed <==> Holders(s, e) == 0)
  {
    hide Run;
    var s := Run(events).value;
    assert CountsRight(s, e);
    assert e in s.destroyed <==> multiset(s.destroyed)[e] > 0;
  }

  /** Once due, it stays due, and the entry is never held again. */
  lemma StaysDestroyed(s: State, e: Event, x: nat)
    requires Inv(s) && Allowed(s, e) && x in s.destroyed
    ensures x in Next(s, e).destroyed
  {
    hide Inv;
    match e
    case Release(k) =>
      if s.snapshots[k].references == 1 {
        SnapshotHeld(s, k);
        var sn := s.snapshots[k];
        DueLater(s.(heap := Unpinned(s.heap, sn), snapshots := s.snapshots[k := sn.(references := 0)],
                    activeSnapshots := s.activeSnapshots - 1), sn.entries, x);
      }
    case _ =>
  }

  lemma {:induction false} DueLater(s: State, ids: seq<nat>, x: nat)
    requires AllHeld(s.heap, ids) && x in s.destroyed
    ensures x in DroppedAll(s, ids).destroyed
    decreases |ids|
  {
    if ids != [] {
      DueLater(s, ids[..|ids| - 1], x);
    }
  }

  /** A refused registration leaves everything as it was: no entry, and no callback due. */
  lemma RefusedRegistration(s: State, name: Text, valid: bool)
    requires Inv(s)
    ensures !Registered(s, name, valid).1 ==> Registered(s, name, valid).0 == s
    ensures Registered(s, name, valid).1 <==>
            valid && Normalized(name).Some? && forall e | e in s.entries :: e < |s.heap| && s.heap[e].name != Normalized(name).value
  {
    var n := Normalized(name);
    if n.Some? {
      var i := IndexOf(s.heap, s.entries, n.value);
      if i == |s.entries| {
        forall e | e in s.entries
          ensures e < |s.heap| && s.heap[e].name != n.value
        {
          var k :| 0 <= k < |s.entries| && s.entries[k] == e;
          assert s.heap[s.entries[k]].name != n.value;
        }
      } else {
        assert s.entries[i] in s.entries;
      }
    }
  }

  /** A pinned entry cannot be unregistered, and a pin implies a live snapshot that holds the entry. */
  lemma PinnedIsHeld(s: State, e: nat)
    requires Inv(s) && e < |s.heap| && s.heap[e].pins > 0
    ensures HeldBy(s.snapshots, e) > 0 && s.heap[e].references > 0 && e !in s.destroyed
  {
    assert CountsRight(s, e);
    PinsNeedHolds(s.snapshots, e);
    assert e in s.destroyed <==> multiset(s.destroyed)[e] > 0;
  }

  lemma {:induction false} PinsNeedHolds(sns: seq<Snapshot>, e: nat)
    ensures PinnedBy(sns, e) > 0 ==> HeldBy(sns, e) > 0
    decreases |sns|
  {
    if sns != [] {
      PinsNeedHolds(sns[..|sns| - 1], e);
    }
  }

  lemma {:induction false} NoneLive(sns: seq<Snapshot>, e: nat)
    requires LiveCount(sns) == 0
    ensures HeldBy(sns, e) == 0
    decreases |sns|
  {
    if sns != [] {
      NoneLive(sns[..|sns| - 1], e);
    }
  }

  /** When the registry may be destroyed, every entry ever accepted has reached zero and been destroyed once. */
  lemma DestroyMeansAllGone(events: seq<Event>, e: nat)
    requires Run(events).Some? && MayDestroy(Run(events).value) && e < |Run(events).value.heap|
    ensures var s := Run(events).value; s.heap[e].references == 0 && multiset(s.destroyed)[e] == 1
  {
    hide Run;
    var s := Run(events).value;
    assert CountsRight(s, e);
    NoneLive(s.snapshots, e);
    assert s.leases == multiset{};
  }
}
