/** The registry's operations as they update their arrays, each against its step. */
module RegistryImpl {
  import opened Bytes
  import opened Registry

  method SkipLeading(name: Text) returns (begin: nat)
    ensures begin <= |name| && name[begin..] == SkipBlanks(name)
  {
    begin := 0;
    assert name[0..] == name;
    while begin < |name| && IsBlank(name[begin])
      invariant begin <= |name| && SkipBlanks(name[begin..]) == SkipBlanks(name)
    {
      assert name[begin..][1..] == name[begin + 1..];
      begin := begin + 1;
    }
  }

  method DropTrailing(s: Text) returns (end: nat)
    ensures end <= |s| && s[..end] == DropBlanks(s)
  {
    end := |s|;
    assert s[..end] == s;
    while end > 0 && IsBlank(s[end - 1])
      invariant end <= |s| && DropBlanks(s[..end]) == DropBlanks(s)
    {
      assert s[..end][..end - 1] == s[..end - 1];
      end := end - 1;
    }
  }

  /** Copy of a name without surrounding blanks. */
  method NameCopy(name: Text) returns (copy: Option<Text>)
    ensures copy == Normalized(name)
  {
    var begin := SkipLeading(name);
    var rest := name[begin..];
    var end := DropTrailing(rest);
    var s := rest[..end];
    return if |s| == 0 || |s| > 255 then None else Some(s);
  }

  lemma LeaseKnown(s: State, e: nat)
    requires Inv(s) && e in s.leases
    ensures e < |s.heap| && s.activeLeases > 0
  {
    hide CountsRight, NamesDistinct;
    assert s.leases[e] <= |s.leases|;
  }

  lemma OwnPins(sn: Snapshot, i: nat)
    requires |sn.pins| == |sn.entries| && IsDistinct(sn.entries) && i < |sn.entries| && sn.references > 0
    ensures PinsOn(sn, sn.entries[i]) == sn.pins[i]
  {
    OnlyPosition(sn.entries, i);
  }

  /** Dropping one more of the list. */
  lemma DropNext(s: State, ids: seq<nat>, i: nat)
    requires AllHeld(s.heap, ids) && i < |ids| && AllHeld(s.heap, ids[..i])
    ensures AllHeld(s.heap, ids[..i + 1])
    ensures var t := DroppedAll(s, ids[..i]);
            ids[i] < |t.heap| && t.heap[ids[i]].references > 0 && DroppedAll(s, ids[..i + 1]) == Dropped(t, ids[i])
  {
    hide Dropped;
    var part := ids[..i + 1];
    assert part[..i] == ids[..i] && part[i] == ids[i];
    assert ids[i] !in ids[..i];
  }

  lemma FirstIsUnique(heap: seq<Entry>, ids: seq<nat>, name: Text, i: nat)
    requires InRange(ids, |heap|) && i <= |ids| && (i < |ids| ==> heap[ids[i]].name == name)
    requires forall k | 0 <= k < i :: heap[ids[k]].name != name
    ensures i == IndexOf(heap, ids, name)
  {}

  /** The first position that carries the name. */
  method FindName(heap: seq<Entry>, ids: seq<nat>, name: Text) returns (i: nat)
    requires InRange(ids, |heap|)
    ensures i == IndexOf(heap, ids, name)
  {
    i := 0;
    while i < |ids|
      invariant i <= |ids| && forall k | 0 <= k < i :: heap[ids[k]].name != name
    {
      if heap[ids[i]].name == name {
        break;
      }
      i := i + 1;
    }
    FirstIsUnique(heap, ids, name, i);
  }

  class ExtensionRegistry {
    var heap: seq<Entry>
    var entries: seq<nat>
    var snapshots: seq<Snapshot>
    var activeSnapshots: nat
    var activeLeases: nat
    ghost var leases: multiset<nat>
    ghost var destroyed: seq<nat>

    ghost function Now(): State
      reads this
    {
      State(heap, entries, snapshots, leases, activeSnapshots, activeLeases, destroyed)
    }

    ghost predicate Valid()
      reads this
    {
      Inv(Now())
    }

    constructor ()
      ensures Valid() && Now() == EMPTY
    {
      heap, entries, snapshots, activeSnapshots, activeLeases := [], [], [], 0, 0;
      leases, destroyed := multiset{}, [];
      new;
      EmptyHolds();
    }

    method Register(name: Text, valid: bool) returns (ok: bool)
      requires Valid()
      modifies this
      ensures Valid() && (Now(), ok) == Registered(old(Now()), name, valid)
    {
      hide Inv;
      ghost var was := Now();
      RegisterKeeps(was, name, valid);
      IsWellFormed(was);
      if !valid {
        return false;
      }
      var n := NameCopy(name);
      if n.None? {
        return false;
      }
      var i := FindName(heap, entries, n.value);
      if i < |entries| {
        return false;
      }
      entries := entries + [|heap|];
      heap := heap + [Entry(n.value, 1, 0, true)];
      ok := true;
    }

    /** One holder lets go; true when it was the last, and the destroy callback is due. */
    method ReleaseEntry(e: nat) returns (destroy: bool)
      requires e < |heap| && heap[e].references > 0
      modifies this`heap, this`destroyed
      ensures Now() == Dropped(old(Now()), e)
      ensures destroy == (heap[e].references == 0)
    {
      heap := heap[e := heap[e].(references := heap[e].references - 1)];
      destroy := heap[e].references == 0;
      if destroy {
        destroyed := destroyed + [e];
      }
    }

    method Unregister(name: Text) returns (ok: bool)
      requires Valid()
      modifies this
      ensures Valid() && (Now(), ok) == Unregistered(old(Now()), name)
    {
      hide Inv;
      ghost var was := Now();
      UnregisterKeeps(was, name);
      IsWellFormed(was);
      var n := NameCopy(name);
      if n.None? {
        return false;
      }
      var i := FindName(heap, entries, n.value);
      if i == |entries| {
        return false;
      }
      var e := entries[i];
      if heap[e].pins != 0 {
        return false;
      }
      assert e in entries;
      HeldIsCounted(was, e);
      entries := entries[..i] + entries[i + 1..];
      heap := heap[e := heap[e].(registered := false)];
      var _ := ReleaseEntry(e);
      ok := true;
    }

    /** One more holder for each. */
    method RetainAll(ids: seq<nat>)
      requires InRange(ids, |heap|) && IsDistinct(ids)
      modifies this`heap
      ensures heap == Bumped(old(heap), ids)
    {
      ghost var was := heap;
      var i := 0;
      while i < |ids|
        invariant i <= |ids| && |heap| == |was| && heap == Bumped(was, ids[..i])
      {
        var e := ids[i];
        assert e !in ids[..i];
        assert ids[..i + 1] == ids[..i] + [e];
        heap := heap[e := heap[e].(references := heap[e].references + 1)];
        i := i + 1;
      }
      assert ids[..i] == ids;
    }

    method Acquire() returns (k: nat)
      requires Valid()
      modifies this
      ensures Valid() && Now() == Acquired(old(Now())) && k == |old(Now()).snapshots|
    {
      assert IsDistinct(entries);
      hide Inv;
      ghost var was := Now();
      AcquireKeeps(was);
      IsWellFormed(was);
      k := |snapshots|;
      RetainAll(entries);
      snapshots := snapshots + [Snapshot(1, entries, seq(|entries|, _ => 0))];
      activeSnapshots := activeSnapshots + 1;
    }

    method RetainSnapshot(k: nat)
      requires Valid() && IsLive(Now(), k)
      modifies this`snapshots
      ensures Valid() && Now() == Retained(old(Now()), k)
    {
      RetainKeeps(Now(), k, snapshots[k].references + 1);
      snapshots := snapshots[k := snapshots[k].(references := snapshots[k].references + 1)];
    }

    /** Take a snapshot's pins off its entries. */
    method TakePins(sn: Snapshot)
      requires |sn.pins| == |sn.entries| && IsDistinct(sn.entries) && InRange(sn.entries, |heap|) && sn.references > 0
      requires forall e | 0 <= e < |heap| :: PinsOn(sn, e) <= heap[e].pins
      modifies this`heap
      ensures heap == Unpinned(old(heap), sn)
    {
      ghost var was := heap;
      var i := 0;
      while i < |sn.entries|
        invariant i <= |sn.entries| && |heap| == |was|
        invariant forall e | 0 <= e < |heap| :: heap[e] == if e in sn.entries[..i] then was[e].(pins := was[e].pins - PinsOn(sn, e)) else was[e]
      {
        hide PinsOn;
        var e := sn.entries[i];
        OwnPins(sn, i);
        assert e !in sn.entries[..i];
        assert sn.entries[..i + 1] == sn.entries[..i] + [e];
        heap := heap[e := heap[e].(pins := heap[e].pins - sn.pins[i])];
        i := i + 1;
      }
      assert sn.entries[..i] == sn.entries;
    }

    method ReleaseAll(ids: seq<nat>)
      requires AllHeld(heap, ids)
      modifies this`heap, this`destroyed
      ensures Now() == DroppedAll(old(Now()), ids)
    {
      ghost var was := Now();
      var i := 0;
      assert ids[..0] == [];
      while i < |ids|
        invariant i <= |ids| && AllHeld(was.heap, ids[..i]) && Now() == DroppedAll(was, ids[..i])
      {
        hide Dropped;
        DropNext(was, ids, i);
        var _ := ReleaseEntry(ids[i]);
        i := i + 1;
      }
      assert ids[..i] == ids;
    }

    method ReleaseSnapshot(k: nat)
      requires Valid() && k < |snapshots|
      modifies this
      ensures Valid() && Now() == if IsLive(old(Now()), k) then Released(old(Now()), k) else old(Now())
    {
      hide Inv, DroppedAll, Unpinned, AllHeld;
      ghost var was := Now();
      if snapshots[k].references == 0 {
        return;
      }
      ReleaseKeeps(was, k);
      KnownSnapshot(was, k);
      SnapshotHeld(was, k);
      var sn := snapshots[k];
      snapshots := snapshots[k := sn.(references := sn.references - 1)];
      if sn.references > 1 {
        return;
      }
      TakePins(sn);
      activeSnapshots := activeSnapshots - 1;
      ReleaseAll(sn.entries);
    }

    method FindInSnapshot(k: nat, name: Text) returns (e: Option<nat>)
      requires Valid() && IsLive(Now(), k)
      ensures e.Some? ==> e.value in snapshots[k].entries && e.value < |heap| && Normalized(name) == Some(heap[e.value].name)
      ensures e.None? ==> Normalized(name).None? || forall x | x in snapshots[k].entries :: x < |heap| && heap[x].name != Normalized(name).value
    {
      KnownSnapshot(Now(), k);
      var n := NameCopy(name);
      if n.None? {
        return None;
      }
      var ids := snapshots[k].entries;
      var i := FindName(heap, ids, n.value);
      if i == |ids| {
        forall x | x in ids
          ensures x < |heap| && heap[x].name != n.value
        {
          var j :| 0 <= j < |ids| && ids[j] == x;
          assert heap[ids[j]].name != n.value;
        }
        return None;
      }
      return Some(ids[i]);
    }

    method AcquireLease(k: nat, e: nat) returns (ok: bool)
      requires Valid() && IsLive(Now(), k)
      modifies this
      ensures Valid() && (Now(), ok) == Leased(old(Now()), k, e)
    {
      hide Inv;
      LeaseKeeps(Now(), k, e);
      KnownSnapshot(Now(), k);
      var ids := snapshots[k].entries;
      var i := 0;
      while i < |ids|
        invariant i <= |ids| && e !in ids[..i] && Now() == old(Now())
      {
        if ids[i] == e {
          heap := heap[e := heap[e].(references := heap[e].references + 1)];
          leases := leases + multiset{e};
          activeLeases := activeLeases + 1;
          return true;
        }
        assert ids[..i + 1] == ids[..i] + [ids[i]];
        i := i + 1;
      }
      assert ids[..i] == ids;
      return false;
    }

    method ReleaseLease(e: nat)
      requires Valid() && e in leases
      modifies this
      ensures Valid() && Now() == LeaseReturned(old(Now()), e)
    {
      ghost var was := Now();
      LeaseKnown(was, e);
      hide Inv, Dropped;
      LeaseReturnKeeps(was, e);
      HeldIsCounted(was, e);
      if activeLeases != 0 {
        activeLeases := activeLeases - 1;
      }
      leases := leases - multiset{e};
      ghost var u := was.(leases := was.leases - multiset{e}, activeLeases := was.activeLeases - 1);
      assert Now() == u && LeaseReturned(was, e) == Dropped(u, e);
      var _ := ReleaseEntry(e);
    }

    method PinByName(k: nat, name: Text) returns (ok: bool)
      requires Valid() && IsLive(Now(), k)
      modifies this`heap, this`snapshots
      ensures Valid() && (Now(), ok) == Pinned(old(Now()), k, name)
    {
      hide Inv;
      ghost var was := Now();
      PinKeeps(was, k, name);
      KnownSnapshot(was, k);
      var n := NameCopy(name);
      if n.None? {
        return false;
      }
      var sn := snapshots[k];
      var i := FindName(heap, sn.entries, n.value);
      if i == |sn.entries| {
        return false;
      }
      var e := sn.entries[i];
      heap := heap[e := heap[e].(pins := heap[e].pins + 1)];
      snapshots := snapshots[k := sn.(pins := sn.pins[i := sn.pins[i] + 1])];
      ok := true;
    }

    method UnpinEntry(k: nat, e: nat) returns (ok: bool)
      requires Valid() && IsLive(Now(), k)
      modifies this`heap, this`snapshots
      ensures Valid() && (Now(), ok) == PinReturned(old(Now()), k, e)
    {
      hide Inv;
      ghost var was := Now();
      PinReturnKeeps(was, k, e);
      KnownSnapshot(was, k);
      var sn := snapshots[k];
      var i := 0;
      while i < |sn.entries| && sn.entries[i] != e
        invariant i <= |sn.entries| && e !in sn.entries[..i]
      {
        assert sn.entries[..i + 1] == sn.entries[..i] + [sn.entries[i]];
        i := i + 1;
      }
      if i == |sn.entries| {
        assert sn.entries[..i] == sn.entries;
        return false;
      }
      OnlyPosition(sn.entries, i);
      if sn.pins[i] == 0 {
        return false;
      }
      HeldIsCounted(was, e);
      assert PinsOn(sn, e) == sn.pins[i];
      snapshots := snapshots[k := sn.(pins := sn.pins[i := sn.pins[i] - 1])];
      heap := heap[e := heap[e].(pins := heap[e].pins - 1)];
      ok := true;
    }

    /** Only an unused registry goes away; by then every entry it ever accepted is gone. */
    method Destroy() returns (ok: bool)
      requires Valid()
      ensures ok == MayDestroy(Now())
      ensures ok ==> forall e | 0 <= e < |heap| :: heap[e].references == 0 && multiset(destroyed)[e] == 1
    {
      ok := |entries| == 0 && activeSnapshots == 0 && activeLeases == 0;
      if ok {
        ghost var s := Now();
        forall e | 0 <= e < |heap|
          ensures heap[e].references == 0 && multiset(destroyed)[e] == 1
        {
          assert CountsRight(s, e);
          NoneLive(snapshots, e);
          assert leases == multiset{};
        }
      }
    }
  }
}
