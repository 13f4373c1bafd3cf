/**
 * The loops that find the delta positions of a plan and write the K sequences.
 */
module Expansion {
  import opened Bytes
  import opened Plan
  import opened DeltaStep
  import opened KFusion
  import Seqs

  ghost function NameSet(names: seq<string>): set<string> { set n | n in names }

  method IsNamed(names: seq<string>, x: string) returns (found: bool)
    ensures found <==> x in names
  {
    found := false;
    var r := 0;
    while r < |names|
      invariant 0 <= r <= |names|
      invariant !found && x !in names[..r]
    {
      if names[r] == x {
        return true;
      }
      r := r + 1;
    }
    Seqs.TakeAll(names);
  }

  /** Indices of exactly the delta positions, in increasing order. */
  ghost predicate ArePositions(pos: seq<nat>, ops: seq<Op>, n: nat, idb: set<string>)
    requires n <= |ops|
  {
    && (forall j, k | 0 <= j < k < |pos| :: pos[j] < pos[k])
    && (forall j | 0 <= j < |pos| :: pos[j] < n && IsDeltaPos(ops[pos[j]], idb))
    && (forall i | 0 <= i < n && IsDeltaPos(ops[i], idb) :: i in pos)
  }

  method CountDeltaPositions(ops: seq<Op>, names: seq<string>) returns (pos: seq<nat>)
    ensures ArePositions(pos, ops, |ops|, NameSet(names))
  {
    pos := [];
    var i := 0;
    while i < |ops|
      invariant 0 <= i <= |ops|
      invariant ArePositions(pos, ops, i, NameSet(names))
    {
      var isIdb := false;
      if ops[i].Variable? {
        isIdb := IsNamed(names, ops[i].rel);
      } else if ops[i].Join? {
        isIdb := IsNamed(names, ops[i].right);
      }
      assert isIdb <==> IsDeltaPos(ops[i], NameSet(names));
      if isIdb {
        ghost var before := pos;
        pos := pos + [i];
        assert forall j | 0 <= j < |before| :: pos[j] == before[j];
        assert pos[|before|] == i;
        assert forall x | x in before :: x in pos;
      }
      i := i + 1;
    }
  }

  function ModeOf(op: Op): DeltaMode { if op.Variable? || op.Join? then op.mode else Auto }

  /** One copy of the plan: position pos[d] reads its delta, the other positions everything. */
  method TagSequence(ops: seq<Op>, pos: seq<nat>, d: nat, ghost idb: set<string>) returns (a: array<Op>)
    requires ArePositions(pos, ops, |ops|, idb) && d < |pos|
    ensures fresh(a) && a.Length == |ops| + 1 && a[|ops|] == Consolidate
    ensures a[..|ops|] == Remode(ops, TagModes(ops, idb, pos[d]))
  {
    a := new Op[|ops| + 1](_ => Consolidate);
    var i := 0;
    while i < |ops|
      invariant 0 <= i <= |ops| && a[|ops|] == Consolidate
      invariant forall j | 0 <= j < i :: a[j] == SetMode(ops[j], TagMode(ops[j], idb, j == pos[d]))
    {
      var mode := Auto;
      var p := 0;
      while p < |pos|
        invariant 0 <= p <= |pos|
        invariant mode == Auto && forall j | 0 <= j < p :: pos[j] != i
      {
        if pos[p] == i {
          mode := if p == d then ForceDelta else ForceFull;
          assert p == d <==> i == pos[d];
          break;
        }
        p := p + 1;
      }
      assert mode == TagMode(ops[i], idb, i == pos[d]);
      a[i] := SetMode(ops[i], mode);
      i := i + 1;
    }
  }

  /** What the scan has established after i operators. */
  ghost predicate Scanned(ops: seq<Op>, tags: seq<DeltaMode>, modes: seq<DeltaMode>, done: seq<Segment>, i: nat, depth: nat, lead: Option<nat>, from: nat)
  {
    && |tags| == |ops| && i <= |ops| && from <= i
    && (lead.Some? ==> from <= lead.value < i && ops[lead.value].Variable?)
    && Segments(ops) == done + Scan(ops, i, depth, lead, from)
    && modes == Neutered(tags, done)
    && (forall j | from <= j < |ops| :: modes[j] == tags[j])
  }

  lemma CloseStep(tags: seq<DeltaMode>, done: seq<Segment>, s: Segment)
    ensures Neutered(tags, done + [s]) == CloseSegment(tags, Neutered(tags, done), s)
  {
    Seqs.TakeConcat(done, [s]);
  }

  /** Finishing a segment writes its lead only, before the next segment starts. */
  lemma ScanBoundary(ops: seq<Op>, tags: seq<DeltaMode>, modes: seq<DeltaMode>, done: seq<Segment>, i: nat, depth: nat, lead: nat, from: nat)
    requires Scanned(ops, tags, modes, done, i, depth, Some(lead), from)
    ensures |modes| == |tags|
    ensures var s := Segment(lead, from, i);
            Neutered(tags, done + [s]) == CloseSegment(tags, modes, s)
            && forall j | i <= j < |ops| :: CloseSegment(tags, modes, s)[j] == tags[j]
  {
    hide Scan, Neutered, HasMode;
    CloseStep(tags, done, Segment(lead, from, i));
  }

  lemma HasModeSnoc(modes: seq<DeltaMode>, from: nat, i: nat, mode: DeltaMode)
    requires from <= i < |modes|
    ensures HasMode(modes, from, i + 1, mode) <==> HasMode(modes, from, i, mode) || modes[i] == mode
  {}

  /** Write the off mode of a finished segment into its leading VARIABLE. */
  method SwitchOff(a: array<Op>, lead: nat, hasDelta: bool, hasFull: bool, ghost ops: seq<Op>, ghost tags: seq<DeltaMode>, ghost modes: seq<DeltaMode>, ghost s: Segment)
    requires |modes| == |ops| == |tags| && |ops| <= a.Length && a[..|ops|] == Remode(ops, modes)
    requires s.lead == lead < |ops| && ops[lead].Variable?
    requires hasDelta == HasMode(tags, s.from, s.to, ForceDelta) && hasFull == HasMode(tags, s.from, s.to, ForceFull)
    modifies a
    ensures a[..|ops|] == Remode(ops, CloseSegment(tags, modes, s))
    ensures a[|ops|..] == old(a[|ops|..])
  {
    hide HasMode;
    if !hasDelta {
      assert a[..|ops|][lead] == a[lead];
      a[lead] := SetMode(a[lead], if hasFull then ForceEmpty else ForceEmptyAfterSeed);
      assert a[..|ops|] == old(a[..|ops|])[lead := a[lead]];
    }
  }

  /** An operator inside a segment. */
  lemma ScanInside(ops: seq<Op>, tags: seq<DeltaMode>, modes: seq<DeltaMode>, done: seq<Segment>, i: nat, depth: nat, lead: Option<nat>, from: nat)
    requires Scanned(ops, tags, modes, done, i, depth, lead, from) && i < |ops| && !(ops[i].Variable? && depth >= 1)
    ensures var lead' := if ops[i].Variable? && lead.None? then Some(i) else lead;
            var depth' := if ops[i].Variable? then Deeper(depth) else if ops[i].Concat? then Shallower(depth) else depth;
            Scanned(ops, tags, modes, done, i + 1, depth', lead', from)
  {
    hide Neutered, Deeper, Shallower;
  }

  /** An operator that starts a segment. */
  lemma ScanStarts(ops: seq<Op>, tags: seq<DeltaMode>, modes: seq<DeltaMode>, done: seq<Segment>, i: nat, depth: nat, lead: Option<nat>, from: nat)
    requires Scanned(ops, tags, modes, done, i, depth, lead, from) && i < |ops| && ops[i].Variable? && depth >= 1
    ensures var more := done + Closed(lead, from, i);
            Scanned(ops, tags, Neutered(tags, more), more, i + 1, Deeper(depth), Some(i), i)
  {
    hide Neutered, Deeper, HasMode;
    var more, rest := done + Closed(lead, from, i), Scan(ops, i + 1, Deeper(depth), Some(i), i);
    Seqs.ConcatAssoc(done, Closed(lead, from, i), rest);
    if lead.Some? {
      ScanBoundary(ops, tags, modes, done, i, depth, lead.value, from);
    } else {
      assert more == done;
    }
  }

  lemma ScanEnds(ops: seq<Op>, tags: seq<DeltaMode>, modes: seq<DeltaMode>, done: seq<Segment>, depth: nat, lead: Option<nat>, from: nat)
    requires Scanned(ops, tags, modes, done, |ops|, depth, lead, from)
    ensures Segments(ops) == done + Closed(lead, from, |ops|)
    ensures lead.None? ==> Segments(ops) == done
  {
    hide Neutered;
  }

  /** Close the segment in progress, if there is one. */
  method FinishSegment(a: array<Op>, lead: Option<nat>, hasDelta: bool, hasFull: bool, ghost ops: seq<Op>, ghost tags: seq<DeltaMode>, ghost modes: seq<DeltaMode>, ghost done: seq<Segment>, ghost i: nat, ghost depth: nat, ghost from: nat)
    requires Scanned(ops, tags, modes, done, i, depth, lead, from)
    requires |modes| == |ops| && |ops| <= a.Length && a[..|ops|] == Remode(ops, modes)
    requires hasDelta == HasMode(tags, from, i, ForceDelta) && hasFull == HasMode(tags, from, i, ForceFull)
    modifies a
    ensures a[..|ops|] == Remode(ops, Neutered(tags, done + Closed(lead, from, i)))
    ensures a[|ops|..] == old(a[|ops|..])
  {
    hide HasMode, Remode, Neutered, Scan;
    if lead.Some? {
      ScanBoundary(ops, tags, modes, done, i, depth, lead.value, from);
      SwitchOff(a, lead.value, hasDelta, hasFull, ops, tags, modes, Segment(lead.value, from, i));
    } else {
      assert done + [] == done;
    }
  }

  method NeuterSegments(a: array<Op>, ghost ops: seq<Op>, ghost tags: seq<DeltaMode>)
    requires |tags| == |ops| && a.Length == |ops| + 1 && a[..|ops|] == Remode(ops, tags)
    requires forall i | 0 <= i < |ops| :: tags[i] == ModeOf(SetMode(ops[i], tags[i]))
    modifies a
    ensures a[..|ops|] == Remode(ops, Neutered(tags, Segments(ops)))
    ensures a[|ops|..] == old(a[|ops|..])
  {
    hide Neutered, HasMode, Remode, Scan, Segments, Deeper, Shallower;
    var n := a.Length - 1;
    var i, depth := 0, 0;
    var lead: Option<nat> := None;
    ghost var from: nat := 0;
    ghost var done: seq<Segment> := [];
    ghost var modes := tags;
    var hasDelta, hasFull := false, false;
    NeuterStart(ops, tags);
    while i < n
      invariant 0 <= i <= n && 0 <= depth && Scanned(ops, tags, modes, done, i, depth, lead, from)
      invariant |modes| == |ops| && a[..n] == Remode(ops, modes) && a[n..] == old(a[n..])
      invariant hasDelta == HasMode(tags, from, i, ForceDelta) && hasFull == HasMode(tags, from, i, ForceFull)
    {
      CurrentOp(a[..n], ops, modes, tags, i, from);
      var op := a[i];
      if op.Variable? && depth >= 1 {
        ScanStarts(ops, tags, modes, done, i, depth, lead, from);
        FinishSegment(a, lead, hasDelta, hasFull, ops, tags, modes, done, i, depth, from);
        done := done + Closed(lead, from, i);
        modes := Neutered(tags, done);
        NothingYet(tags, i);
        lead, from, hasDelta, hasFull := Some(i), i, false, false;
      } else {
        ScanInside(ops, tags, modes, done, i, depth, lead, from);
      }
      HasModeSnoc(tags, from, i, ForceDelta);
      HasModeSnoc(tags, from, i, ForceFull);
      if ModeOf(op) == ForceDelta { hasDelta := true; }
      if ModeOf(op) == ForceFull { hasFull := true; }
      if op.Variable? {
        if lead.None? { lead := Some(i); }
        depth := Deeper(depth);
      } else if op.Concat? {
        depth := Shallower(depth);
      }
      i := i + 1;
    }
    ScanEnds(ops, tags, modes, done, depth, lead, from);
    FinishSegment(a, lead, hasDelta, hasFull, ops, tags, modes, done, n, depth, from);
  }

  lemma NeuterStart(ops: seq<Op>, tags: seq<DeltaMode>)
    requires |tags| == |ops|
    ensures Scanned(ops, tags, tags, [], 0, 0, None, 0)
    ensures !HasMode(tags, 0, 0, ForceDelta) && !HasMode(tags, 0, 0, ForceFull)
  {}

  lemma NothingYet(tags: seq<DeltaMode>, i: nat)
    ensures !HasMode(tags, i, i, ForceDelta) && !HasMode(tags, i, i, ForceFull)
  {}

  lemma CurrentOp(now: seq<Op>, ops: seq<Op>, modes: seq<DeltaMode>, tags: seq<DeltaMode>, i: nat, from: nat)
    requires |modes| == |ops| == |tags| && from <= i < |ops| && now == Remode(ops, modes) && modes[i] == tags[i]
    requires tags[i] == ModeOf(SetMode(ops[i], tags[i]))
    ensures now[i].Variable? == ops[i].Variable? && now[i].Concat? == ops[i].Concat? && ModeOf(now[i]) == tags[i]
  {}

  /** expand_multiway_k_fusion: the stored sequences are exactly the specified ones. */
  method ExpandKFusion(ops: seq<Op>, pos: seq<nat>, ghost idb: set<string>) returns (seqs: seq<seq<Op>>)
    requires ArePositions(pos, ops, |ops|, idb)
    ensures |seqs| == |pos| && forall d | 0 <= d < |pos| :: seqs[d] == Sequence(ops, idb, pos[d])
  {
    hide Neutered, Segments, Remode;
    seqs := [];
    var d := 0;
    while d < |pos|
      invariant 0 <= d <= |pos| && |seqs| == d
      invariant forall j | 0 <= j < d :: seqs[j] == Sequence(ops, idb, pos[j])
    {
      var a := TagSequence(ops, pos, d, idb);
      assert a[|ops|..] == [Consolidate];
      NeuterSegments(a, ops, TagModes(ops, idb, pos[d]));
      assert a[..] == a[..|ops|] + a[|ops|..];
      seqs := seqs + [a[..]];
      d := d + 1;
    }
  }
}
