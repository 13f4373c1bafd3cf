/**
 * K-fusion: a relation plan with K delta positions becomes K operator sequences, one per
 * position, in which that position reads its delta and the others read everything.
 * Segments of a sequence that hold no delta are switched off at their leading VARIABLE.
 */
module KFusion {
  import opened Bytes
  import opened Machine
  import opened Postfix
  import opened Plan
  import opened RuleBodies
  import opened DeltaStep
  import Seqs

  // ---- segments ------------------------------------------------------------------

  /** Operators from..to, led by the VARIABLE at lead. */
  datatype Segment = Segment(lead: nat, from: nat, to: nat)

  // The depth counter is an unsigned 32-bit value and wraps.
  function Deeper(depth: nat): nat { (depth + 1) % TWO32 }
  function Shallower(depth: nat): nat { (depth + TWO32 - 1) % TWO32 }

  function Closed(lead: Option<nat>, from: nat, to: nat): seq<Segment> {
    if lead.Some? then [Segment(lead.value, from, to)] else []
  }

  /** The left-to-right scan: a VARIABLE met at depth one or more starts a new segment. */
  function Scan(ops: seq<Op>, i: nat, depth: nat, lead: Option<nat>, from: nat): seq<Segment>
    requires i <= |ops|
    decreases |ops| - i
  {
    if i == |ops| then Closed(lead, from, i)
    else if ops[i].Variable? && depth >= 1 then
      Closed(lead, from, i) + Scan(ops, i + 1, Deeper(depth), Some(i), i)
    else if ops[i].Variable? then
      Scan(ops, i + 1, Deeper(depth), if lead.None? then Some(i) else lead, from)
    else if ops[i].Concat? then Scan(ops, i + 1, Shallower(depth), lead, from)
    else Scan(ops, i + 1, depth, lead, from)
  }

  function Segments(ops: seq<Op>): seq<Segment> { Scan(ops, 0, 0, None, 0) }

  predicate Sane(ops: seq<Op>, s: Segment) {
    s.from <= s.lead < s.to <= |ops| && ops[s.lead].Variable? && (s.to == |ops| || ops[s.to].Variable?)
  }

  /** Segments lie in order and do not overlap; each ends at a VARIABLE or at the end. */
  predicate Ordered(ops: seq<Op>, segs: seq<Segment>, from: nat) {
    && (forall k | 0 <= k < |segs| :: Sane(ops, segs[k]) && from <= segs[k].from)
    && (forall j, k | 0 <= j < k < |segs| :: segs[j].to <= segs[k].from)
  }

  lemma {:induction false} ScanOrdered(ops: seq<Op>, i: nat, depth: nat, lead: Option<nat>, from: nat)
    requires from <= i <= |ops|
    requires lead.Some? ==> from <= lead.value < i && ops[lead.value].Variable?
    ensures Ordered(ops, Scan(ops, i, depth, lead, from), from)
    decreases |ops| - i
  {
    hide Deeper, Shallower;
    if i < |ops| {
      if ops[i].Variable? && depth >= 1 {
        ScanOrdered(ops, i + 1, Deeper(depth), Some(i), i);
      } else if ops[i].Variable? {
        ScanOrdered(ops, i + 1, Deeper(depth), if lead.None? then Some(i) else lead, from);
      } else if ops[i].Concat? {
        ScanOrdered(ops, i + 1, Shallower(depth), lead, from);
      } else {
        ScanOrdered(ops, i + 1, depth, lead, from);
      }
    }
  }

  // ---- switching segments off -------------------------------------------------------

  predicate HasMode(modes: seq<DeltaMode>, from: nat, to: nat, mode: DeltaMode) {
    exists i :: from <= i < to && i < |modes| && modes[i] == mode
  }

  /** The mode a segment without a delta gives its leading VARIABLE. */
  function OffMode(tags: seq<DeltaMode>, s: Segment): DeltaMode {
    if HasMode(tags, s.from, s.to, ForceFull) then ForceEmpty else ForceEmptyAfterSeed
  }

  function CloseSegment(tags: seq<DeltaMode>, modes: seq<DeltaMode>, s: Segment): (r: seq<DeltaMode>)
    ensures |r| == |modes|
  {
    if s.lead >= |modes| || HasMode(tags, s.from, s.to, ForceDelta) then modes
    else modes[s.lead := OffMode(tags, s)]
  }

  function Neutered(tags: seq<DeltaMode>, segs: seq<Segment>): (r: seq<DeltaMode>)
    ensures |r| == |tags|
    decreases |segs|
  {
    if segs == [] then tags
    else CloseSegment(tags, Neutered(tags, segs[..|segs| - 1]), segs[|segs| - 1])
  }

  lemma DistinctLeads(ops: seq<Op>, segs: seq<Segment>, j: nat, k: nat)
    requires Ordered(ops, segs, 0) && j < k < |segs|
    ensures segs[j].lead < segs[k].lead < |ops|
  {
    assert Sane(ops, segs[j]) && Sane(ops, segs[k]);
  }

  /** What segment s leaves at index i when i is its lead. */
  function LeadMode(tags: seq<DeltaMode>, s: Segment, i: nat): DeltaMode
    requires i < |tags|
  {
    if HasMode(tags, s.from, s.to, ForceDelta) then tags[i] else OffMode(tags, s)
  }

  /** Only the leads of segments without a delta change. */
  lemma {:induction false} NeuteredAt(ops: seq<Op>, tags: seq<DeltaMode>, segs: seq<Segment>, i: nat)
    requires |tags| == |ops| && i < |ops| && Ordered(ops, segs, 0)
    ensures (forall k | 0 <= k < |segs| :: segs[k].lead != i) ==> Neutered(tags, segs)[i] == tags[i]
    ensures forall k | 0 <= k < |segs| && segs[k].lead == i :: Neutered(tags, segs)[i] == LeadMode(tags, segs[k], i)
    decreases |segs|
  {
    hide HasMode, OffMode;
    if segs != [] {
      var n := |segs| - 1;
      var init := segs[..n];
      assert Ordered(ops, init, 0);
      NeuteredAt(ops, tags, init, i);
      hide Ordered, Neutered;
      NeuteredUnfold(tags, segs);
      assert segs[n].lead < |ops| by { LastLead(ops, segs); }
      forall k | 0 <= k < n
        ensures init[k] == segs[k] && segs[k].lead != segs[n].lead
      {
        DistinctLeads(ops, segs, k, n);
      }
    }
  }

  lemma LastLead(ops: seq<Op>, segs: seq<Segment>)
    requires Ordered(ops, segs, 0) && segs != []
    ensures segs[|segs| - 1].lead < |ops|
  {
    assert Sane(ops, segs[|segs| - 1]);
  }

  lemma NeuteredUnfold(tags: seq<DeltaMode>, segs: seq<Segment>)
    requires segs != []
    ensures Neutered(tags, segs) == CloseSegment(tags, Neutered(tags, segs[..|segs| - 1]), segs[|segs| - 1])
  {}

  function FinalModes(ops: seq<Op>, idb: set<string>, p: int): (r: seq<DeltaMode>)
    ensures |r| == |ops|
  {
    Neutered(TagModes(ops, idb, p), Segments(ops))
  }

  /** The operator sequence for delta position p, as it is stored in the plan. */
  function Sequence(ops: seq<Op>, idb: set<string>, p: int): seq<Op> {
    Remode(ops, FinalModes(ops, idb, p)) + [Consolidate]
  }

  // ---- bodies inside the flat list ------------------------------------------------------

  /** Index of the first operator of body i. */
  function Start(bodies: seq<seq<Op>>, i: nat): nat
    requires i < |bodies|
  {
    if i == 0 then 0 else |Flat(bodies[..i])|
  }

  lemma {:induction false} BodyAt(bodies: seq<seq<Op>>, i: nat)
    requires i < |bodies|
    ensures Start(bodies, i) + |bodies[i]| <= |Flat(bodies)|
    ensures Flat(bodies)[Start(bodies, i)..Start(bodies, i) + |bodies[i]|] == bodies[i]
    decreases |bodies|
  {
    var n := |bodies|;
    if n == 1 {
      Seqs.TakeAll(bodies[0]);
    } else {
      var init, last := bodies[..n - 1], bodies[n - 1];
      var flat := Flat(init);
      if i < n - 1 {
        BodyAt(init, i);
        assert bodies[..i] == init[..i];
        var a, b := Start(bodies, i), Start(bodies, i) + |bodies[i]|;
        assert (flat + last + [Concat])[a..b] == flat[a..b];
      } else {
        assert (flat + last + [Concat])[|flat|..|flat| + |last|] == last;
      }
    }
  }

  /** The bodies with their slices of the modes. */
  function Pieces(bodies: seq<seq<Op>>, modes: seq<DeltaMode>): (r: seq<seq<Op>>)
    requires |bodies| >= 1 && |modes| >= |Flat(bodies)|
    ensures |r| == |bodies|
  {
    seq(|bodies|, i requires 0 <= i < |bodies| => Piece(bodies, modes, i))
  }

  function BodyModes(bodies: seq<seq<Op>>, modes: seq<DeltaMode>, i: nat): (r: seq<DeltaMode>)
    requires i < |bodies| && |modes| >= |Flat(bodies)|
    ensures |r| == |bodies[i]|
  {
    BodyAt(bodies, i);
    modes[Start(bodies, i)..Start(bodies, i) + |bodies[i]|]
  }

  function Piece(bodies: seq<seq<Op>>, modes: seq<DeltaMode>, i: nat): seq<Op>
    requires i < |bodies| && |modes| >= |Flat(bodies)|
  {
    Remode(bodies[i], BodyModes(bodies, modes, i))
  }

  lemma RemodeConcat(a: seq<Op>, b: seq<Op>, modes: seq<DeltaMode>)
    requires |modes| == |a + b|
    ensures Remode(a + b, modes) == Remode(a, modes[..|a|]) + Remode(b, modes[|a|..])
  {}

  /** Setting modes on the flat list is setting them body by body. */
  lemma {:induction false} RemodeFlat(bodies: seq<seq<Op>>, modes: seq<DeltaMode>)
    requires AllBodies(bodies) && |modes| == |Flat(bodies)|
    ensures Remode(Flat(bodies), modes) == Flat(Pieces(bodies, modes))
    decreases |bodies|
  {
    hide Remode, IsBody;
    var n := |bodies|;
    var pieces := Pieces(bodies, modes);
    if n == 1 {
      Seqs.TakeAll(modes);
      assert pieces[0] == Remode(bodies[0], modes);
    } else {
      var init, last := bodies[..n - 1], bodies[n - 1];
      var flat := Flat(init);
      var k := |flat| + |last|;
      RemodeConcat(flat + last, [Concat], modes);
      RemodeConcat(flat, last, modes[..k]);
      Seqs.TakeTake(modes, k, |flat|);
      Seqs.TakeDrop(modes, k, |flat|);
      RemodeFlat(init, modes[..|flat|]);
      PiecesInit(bodies, modes);
      assert pieces[n - 1] == Remode(last, modes[|flat|..k]);
      RemodeConcatOp(modes[k..]);
    }
  }

  lemma RemodeConcatOp(modes: seq<DeltaMode>)
    requires |modes| == 1
    ensures Remode([Concat], modes) == [Concat]
  {}

  lemma PiecesInit(bodies: seq<seq<Op>>, modes: seq<DeltaMode>)
    requires |bodies| >= 2 && |modes| >= |Flat(bodies)|
    ensures |Flat(bodies)| == |Flat(bodies[..|bodies| - 1])| + |bodies[|bodies| - 1]| + 1
    ensures Pieces(bodies, modes)[..|bodies| - 1]
         == Pieces(bodies[..|bodies| - 1], modes[..|Flat(bodies[..|bodies| - 1])|])
  {
    hide Remode;
    var init := bodies[..|bodies| - 1];
    var front := modes[..|Flat(init)|];
    forall i | 0 <= i < |init|
      ensures BodyModes(bodies, modes, i) == BodyModes(init, front, i)
    {
      assert bodies[..i] == init[..i];
      BodyAt(init, i);
      BodyAt(bodies, i);
    }
  }

  /** A plan with modes set is a plan of the bodies with their modes set. */
  lemma RemodePlan(ops: seq<Op>, bodies: seq<seq<Op>>, modes: seq<DeltaMode>)
    requires IsRulePlan(ops, bodies) && |modes| == |ops|
    ensures IsRulePlan(Remode(ops, modes), Pieces(bodies, modes))
  {
    var flat := Flat(bodies);
    var front := modes[..|flat|];
    RemodeFlat(bodies, front);
    hide Flat;
    forall i | 0 <= i < |bodies|
      ensures Piece(bodies, modes, i) == Piece(bodies, front, i) && IsBody(Piece(bodies, modes, i))
    {
      BodyAt(bodies, i);
      Seqs.TakeAll(modes);
      assert BodyModes(bodies, modes, i) == BodyModes(bodies, front, i);
      assert IsBody(bodies[i]);
    }
    assert Pieces(bodies, modes) == Pieces(bodies, front);
    if ops == flat {
      Seqs.TakeAll(modes);
    } else {
      RemodeConcat(flat, [Consolidate], modes);
      assert Remode([Consolidate], modes[|flat|..]) == [Consolidate];
    }
  }

  // ---- what a plan answers -----------------------------------------------------------

  /** The relation a list leaves on top of an empty stack. */
  function Answer(ops: seq<Op>, w: World): Option<Rel> {
    match RunOps(ops, w, [])
    case None => None
    case Some(st) => if st == [] then None else Some(st[|st| - 1])
  }

  lemma AnswerIsUnion(ops: seq<Op>, bodies: seq<seq<Op>>, w: World)
    requires IsRulePlan(ops, bodies)
    ensures Answer(ops, w) == RunUnion(bodies, w) && Answer(ops + [Consolidate], w) == RunUnion(bodies, w)
  {
    hide RunOps, RunUnion, Flat;
    PlanRuns(ops, bodies, w);
  }

  lemma SequenceAnswer(ops: seq<Op>, bodies: seq<seq<Op>>, idb: set<string>, p: int, w: World)
    requires IsRulePlan(ops, bodies)
    ensures AllBodies(Pieces(bodies, FinalModes(ops, idb, p)))
    ensures Answer(Sequence(ops, idb, p), w) == RunUnion(Pieces(bodies, FinalModes(ops, idb, p)), w)
  {
    hide RunUnion, Flat, Remode, FinalModes, Answer;
    RemodePlan(ops, bodies, FinalModes(ops, idb, p));
    AnswerIsUnion(Remode(ops, FinalModes(ops, idb, p)), Pieces(bodies, FinalModes(ops, idb, p)), w);
  }

  // ---- the body that holds the delta position keeps all its modes ---------------------

  lemma BodyOpAt(ops: seq<Op>, bodies: seq<seq<Op>>, i: nat, j: nat)
    requires IsRulePlan(ops, bodies) && i < |bodies| && j < |bodies[i]|
    ensures Start(bodies, i) + |bodies[i]| <= |ops| && ops[Start(bodies, i) + j] == bodies[i][j]
  {
    BodyAt(bodies, i);
    hide Start;
    var a, b, flat := Start(bodies, i), Start(bodies, i) + |bodies[i]|, Flat(bodies);
    hide Flat, IsBody;
    assert flat[a..b][j] == flat[a + j];
  }

  /** A segment led by a body's VARIABLE reaches at least to the end of that body. */
  lemma LeadCoversBody(ops: seq<Op>, bodies: seq<seq<Op>>, i: nat, s: Segment)
    requires IsRulePlan(ops, bodies) && i < |bodies| && Sane(ops, s)
    requires Start(bodies, i) <= s.lead < Start(bodies, i) + |bodies[i]|
    ensures s.lead == Start(bodies, i) && s.to >= Start(bodies, i) + |bodies[i]|
  {
    hide Flat, Start, IsRulePlan;
    var a := Start(bodies, i);
    assert IsBody(bodies[i]) by { BodyOfPlan(ops, bodies, i); }
    BodyOpAt(ops, bodies, i, s.lead - a);
    if s.to < a + |bodies[i]| {
      BodyOpAt(ops, bodies, i, s.to - a);
      assert false;
    }
  }

  lemma BodyOfPlan(ops: seq<Op>, bodies: seq<seq<Op>>, i: nat)
    requires IsRulePlan(ops, bodies) && i < |bodies|
    ensures IsBody(bodies[i])
  {}

  lemma TagSlice(ops: seq<Op>, bodies: seq<seq<Op>>, idb: set<string>, p: int, i: nat)
    requires IsRulePlan(ops, bodies) && i < |bodies|
    ensures Start(bodies, i) + |bodies[i]| <= |ops|
    ensures BodyModes(bodies, TagModes(ops, idb, p), i) == TagModes(bodies[i], idb, p - Start(bodies, i))
  {
    BodyAt(bodies, i);
    hide Flat, Start, TagMode;
    var a, b := Start(bodies, i), Start(bodies, i) + |bodies[i]|;
    assert ops[a..b] == bodies[i];
    assert forall j | 0 <= j < |bodies[i]| :: ops[a + j] == bodies[i][j];
  }

  lemma ActiveIndex(ops: seq<Op>, bodies: seq<seq<Op>>, idb: set<string>, i: nat, q: nat, j: nat)
    requires IsRulePlan(ops, bodies) && i < |bodies| && q < |bodies[i]| && IsDeltaPos(bodies[i][q], idb)
    requires Start(bodies, i) <= j < Start(bodies, i) + |bodies[i]|
    ensures j < |ops| && Start(bodies, i) + q < |ops| && IsDeltaPos(ops[Start(bodies, i) + q], idb)
    ensures FinalModes(ops, idb, Start(bodies, i) + q)[j] == TagModes(ops, idb, Start(bodies, i) + q)[j]
  {
    hide Flat, Start, IsRulePlan;
    var p := Start(bodies, i) + q;
    BodyOpAt(ops, bodies, i, q);
    var tags, segs := TagModes(ops, idb, p), Segments(ops);
    assert tags[p] == ForceDelta;
    ScanOrdered(ops, 0, 0, None, 0);
    hide Segments, Neutered, TagModes;
    NeuteredAt(ops, tags, segs, j);
    if k :| 0 <= k < |segs| && segs[k].lead == j {
      LeadCoversBody(ops, bodies, i, segs[k]);
      assert HasMode(tags, segs[k].from, segs[k].to, ForceDelta);
    }
  }

  /** In the sequence of a position, the body of that position is tagged and not switched off. */
  lemma ActiveBody(ops: seq<Op>, bodies: seq<seq<Op>>, idb: set<string>, i: nat, q: nat)
    requires IsRulePlan(ops, bodies) && i < |bodies| && q < |bodies[i]| && IsDeltaPos(bodies[i][q], idb)
    ensures Start(bodies, i) + q < |ops| && IsDeltaPos(ops[Start(bodies, i) + q], idb)
    ensures Piece(bodies, FinalModes(ops, idb, Start(bodies, i) + q), i) == Tagged(bodies[i], idb, q)
  {
    hide Flat, Start, FinalModes, TagModes, Remode, IsDeltaPos;
    var a, b := Start(bodies, i), Start(bodies, i) + |bodies[i]|;
    var p := a + q;
    TagSlice(ops, bodies, idb, p, i);
    forall j | a <= j < b
      ensures FinalModes(ops, idb, p)[j] == TagModes(ops, idb, p)[j]
    {
      ActiveIndex(ops, bodies, idb, i, q, j);
    }
    ActiveIndex(ops, bodies, idb, i, q, a);
    assert FinalModes(ops, idb, p)[a..b] == TagModes(ops, idb, p)[a..b];
  }

  // ---- the two directions ----------------------------------------------------------------

  lemma PlainBodies(ops: seq<Op>, bodies: seq<seq<Op>>, i: nat)
    requires IsRulePlan(ops, bodies) && Plain(ops) && i < |bodies|
    ensures Plain(bodies[i])
  {
    BodyAt(bodies, i);
    var a, b := Start(bodies, i), Start(bodies, i) + |bodies[i]|;
    hide Flat, Start;
    assert ops[a..b] == bodies[i];
    assert forall j | 0 <= j < |bodies[i]| :: bodies[i][j] == ops[a + j];
  }

  /** Whatever modes a plan is given, it answers no row the plain plan does not. */
  lemma ModesSound(ops: seq<Op>, bodies: seq<seq<Op>>, modes: seq<DeltaMode>, w: World)
    requires IsRulePlan(ops, bodies) && Plain(ops) && |modes| == |ops| && DeltaFits(w.delta, w.full)
    requires RunUnion(bodies, PlainWorld(w.full, w.m, w.reduce)).Some?
    ensures AllBodies(Pieces(bodies, modes))
    ensures BelowOpt(RunUnion(Pieces(bodies, modes), w), RunUnion(bodies, PlainWorld(w.full, w.m, w.reduce)))
  {
    RemodePlan(ops, bodies, modes);
    hide RunUnion, RunBody, Flat, Remode, ReadsLess, BodyModes;
    var u := PlainWorld(w.full, w.m, w.reduce);
    var all := RunUnion(bodies, u).value;
    var pieces := Pieces(bodies, modes);
    UnionMembers(bodies, u);
    forall i | 0 <= i < |pieces|
      ensures BelowOpt(RunBody(pieces[i], w), RunBody(bodies[i], u)) && RunBody(pieces[i], w).Some?
    {
      PlainBodies(ops, bodies, i);
      ModesReadLess(bodies[i], BodyModes(bodies, modes, i), w);
      BodyBelow(pieces[i], w, bodies[i], u);
    }
    UnionRuns(pieces, w, all.width);
    UnionMembers(pieces, w);
  }

  /** No sequence derives a row outside the original list on the full relations. */
  lemma SequenceSound(ops: seq<Op>, bodies: seq<seq<Op>>, idb: set<string>, p: int, w: World)
    requires IsRulePlan(ops, bodies) && Plain(ops) && DeltaFits(w.delta, w.full)
    requires Answer(ops, PlainWorld(w.full, w.m, w.reduce)).Some?
    ensures BelowOpt(Answer(Sequence(ops, idb, p), w), Answer(ops, PlainWorld(w.full, w.m, w.reduce)))
  {
    hide RunUnion, Answer, FinalModes, Sequence, Flat;
    AnswerIsUnion(ops, bodies, PlainWorld(w.full, w.m, w.reduce));
    SequenceAnswer(ops, bodies, idb, p, w);
    ModesSound(ops, bodies, FinalModes(ops, idb, p), w);
  }

  predicate AllStratified(bodies: seq<seq<Op>>, idb: set<string>) {
    forall i | 0 <= i < |bodies| :: Stratified(bodies[i], idb)
  }

  predicate AllNegateEarlier(bodies: seq<seq<Op>>, idb: set<string>) {
    forall i | 0 <= i < |bodies| :: NegatesEarlier(bodies[i], idb)
  }

  lemma StratifiedNegates(bodies: seq<seq<Op>>, idb: set<string>)
    requires AllStratified(bodies, idb)
    ensures AllNegateEarlier(bodies, idb)
  {
    hide NegatesEarlier;
    assert forall i | 0 <= i < |bodies| :: Stratified(bodies[i], idb);
  }

  ghost predicate SequenceDerives(ops: seq<Op>, idb: set<string>, w: World, p: int, t: Row) {
    && 0 <= p < |ops| && IsDeltaPos(ops[p], idb)
    && Answer(Sequence(ops, idb, p), w).Some? && t in Answer(Sequence(ops, idb, p), w).value.rows
  }

  /** A body's delta derivation is found again in the sequence of that position. */
  lemma BodyRowInSequence(ops: seq<Op>, bodies: seq<seq<Op>>, idb: set<string>, w: World, i: nat, q: nat, t: Row)
    requires IsRulePlan(ops, bodies) && Plain(ops) && DeltaFits(w.delta, w.full) && i < |bodies|
    requires Answer(ops, PlainWorld(w.full, w.m, w.reduce)).Some?
    requires DerivedByDelta(bodies[i], idb, w, q, t)
    ensures SequenceDerives(ops, idb, w, Start(bodies, i) + q, t)
  {
    hide RunUnion, RunBody, Answer, FinalModes, Sequence, Flat, Start, Piece, IsRulePlan, Tagged;
    ActiveBody(ops, bodies, idb, i, q);
    BodyOfPlan(ops, bodies, i);
    var p := Start(bodies, i) + q;
    SequenceSound(ops, bodies, idb, p, w);
    PieceInSequence(ops, bodies, idb, p, w, i, t);
  }

  /** Rows of a piece are rows of its sequence. */
  lemma PieceInSequence(ops: seq<Op>, bodies: seq<seq<Op>>, idb: set<string>, p: int, w: World, i: nat, t: Row)
    requires IsRulePlan(ops, bodies) && i < |bodies| && Answer(Sequence(ops, idb, p), w).Some?
    requires IsBody(Piece(bodies, FinalModes(ops, idb, p), i))
    requires RunBody(Piece(bodies, FinalModes(ops, idb, p), i), w).Some?
    requires t in RunBody(Piece(bodies, FinalModes(ops, idb, p), i), w).value.rows
    ensures t in Answer(Sequence(ops, idb, p), w).value.rows
  {
    hide RunUnion, RunBody, Answer, FinalModes, Sequence, Flat, Piece;
    SequenceAnswer(ops, bodies, idb, p, w);
    var pieces := Pieces(bodies, FinalModes(ops, idb, p));
    UnionMembers(pieces, w);
    assert pieces[i] == Piece(bodies, FinalModes(ops, idb, p), i);
  }

  /**
   * Completeness: with o the rows known before, w.delta the rows new since and g their
   * union, every row the original list derives from g it derives from o already, or one
   * of the K sequences derives it.
   */
  lemma FusionComplete(ops: seq<Op>, bodies: seq<seq<Op>>, idb: set<string>, o: Db, g: Db, w: World, t: Row)
    requires IsRulePlan(ops, bodies) && Plain(ops) && AllStratified(bodies, idb) && NewRows(idb, o, g, w)
    requires Answer(ops, PlainWorld(w.full, w.m, w.reduce)).Some?
    requires Answer(ops, PlainWorld(g, w.m, w.reduce)).Some? && t in Answer(ops, PlainWorld(g, w.m, w.reduce)).value.rows
    requires Answer(ops, PlainWorld(o, w.m, w.reduce)).Some?
    ensures t in Answer(ops, PlainWorld(o, w.m, w.reduce)).value.rows || exists p :: SequenceDerives(ops, idb, w, p, t)
  {
    hide RunUnion, RunBody, Answer, Sequence, Flat, Start, SequenceDerives, Stratified;
    var wo, wg, wf := PlainWorld(o, w.m, w.reduce), PlainWorld(g, w.m, w.reduce), PlainWorld(w.full, w.m, w.reduce);
    AnswerIsUnion(ops, bodies, wo);
    AnswerIsUnion(ops, bodies, wg);
    AnswerIsUnion(ops, bodies, wf);
    UnionMembers(bodies, wo);
    UnionMembers(bodies, wg);
    UnionMembers(bodies, wf);
    var i :| 0 <= i < |bodies| && t in RunBody(bodies[i], wg).value.rows;
    PlainBodies(ops, bodies, i);
    StepRow(bodies[i], idb, o, g, w, t);
    if t !in RunBody(bodies[i], wo).value.rows {
      var q :| DerivedByDelta(bodies[i], idb, w, q, t);
      BodyRowInSequence(ops, bodies, idb, w, i, q, t);
    }
  }

  /** The original list on fewer rows of the stratum: it still runs, and answers fewer rows. */
  lemma AnswerMonotone(ops: seq<Op>, bodies: seq<seq<Op>>, idb: set<string>, small: Db, big: Db, m: Machine, reduce: (Reduction, Rel) -> Option<Rel>)
    requires IsRulePlan(ops, bodies) && Plain(ops) && AllNegateEarlier(bodies, idb) && Grows(small, big, idb)
    requires Answer(ops, PlainWorld(big, m, reduce)).Some?
    ensures BelowOpt(Answer(ops, PlainWorld(small, m, reduce)), Answer(ops, PlainWorld(big, m, reduce)))
  {
    hide RunUnion, RunBody, Answer, Flat, NegatesEarlier, ReadsLess;
    var u, w := PlainWorld(small, m, reduce), PlainWorld(big, m, reduce);
    AnswerIsUnion(ops, bodies, u);
    AnswerIsUnion(ops, bodies, w);
    UnionMembers(bodies, w);
    forall i | 0 <= i < |bodies|
      ensures BelowOpt(RunBody(bodies[i], u), RunBody(bodies[i], w)) && RunBody(bodies[i], u).Some?
    {
      PlainBodies(ops, bodies, i);
      PlainReadsLess(bodies[i], small, big, idb, m, reduce);
      BodyBelow(bodies[i], u, bodies[i], w);
    }
    UnionRuns(bodies, u, RunUnion(bodies, w).value.width);
    UnionMembers(bodies, u);
  }

  // ---- the seed pass ----------------------------------------------------------------

  predicate NoDelta(w: World) { forall n | n in w.delta :: w.delta[n].rows == {} }

  /** Every segment led by a holds position p, or holds no position at all. */
  predicate SeedsAt(ops: seq<Op>, idb: set<string>, a: nat, p: nat) {
    forall k | 0 <= k < |Segments(ops)| && Segments(ops)[k].lead == a ::
      Segments(ops)[k].from <= p < Segments(ops)[k].to
      || forall q | Segments(ops)[k].from <= q < Segments(ops)[k].to && q < |ops| :: !IsDeltaPos(ops[q], idb)
  }

  lemma SeedChoice(ops: seq<Op>, idb: set<string>, a: nat, p0: nat) returns (p: nat)
    requires p0 < |ops| && IsDeltaPos(ops[p0], idb)
    ensures p < |ops| && IsDeltaPos(ops[p], idb) && SeedsAt(ops, idb, a, p)
  {
    hide IsDeltaPos;
    var segs := Segments(ops);
    ScanOrdered(ops, 0, 0, None, 0);
    hide Segments;
    p := p0;
    if k, q :| 0 <= k < |segs| && segs[k].lead == a && segs[k].from <= q < segs[k].to && q < |ops| && IsDeltaPos(ops[q], idb) {
      p := q;
      forall l | 0 <= l < |segs| && segs[l].lead == a
        ensures l == k
      {
        assert Sane(ops, segs[l]) && Sane(ops, segs[k]);
      }
    }
  }

  /** A segment that holds the chosen position is on; one that holds none is only on in the seed pass. */
  lemma SeedSegment(ops: seq<Op>, idb: set<string>, p: nat, s: Segment)
    requires p < |ops| && IsDeltaPos(ops[p], idb)
    requires s.from <= p < s.to || forall q | s.from <= q < s.to && q < |ops| :: !IsDeltaPos(ops[q], idb)
    ensures HasMode(TagModes(ops, idb, p), s.from, s.to, ForceDelta) || OffMode(TagModes(ops, idb, p), s) == ForceEmptyAfterSeed
  {
    var tags := TagModes(ops, idb, p);
    if s.from <= p < s.to {
      assert tags[p] == ForceDelta;
    }
  }

  predicate SeedMode(mode: DeltaMode, lead: bool) { mode == Auto || (lead && mode == ForceEmptyAfterSeed) }

  lemma SeedIndex(ops: seq<Op>, bodies: seq<seq<Op>>, idb: set<string>, i: nat, p: nat, j: nat)
    requires IsRulePlan(ops, bodies) && i < |bodies| && j < |bodies[i]| && p < |ops| && IsDeltaPos(ops[p], idb)
    requires !IsDeltaPos(bodies[i][j], idb) && SeedsAt(ops, idb, Start(bodies, i), p)
    ensures Start(bodies, i) + j < |ops| && SeedMode(FinalModes(ops, idb, p)[Start(bodies, i) + j], j == 0)
  {
    hide Flat, Start, IsRulePlan, IsDeltaPos;
    var a, segs, tags := Start(bodies, i), Segments(ops), TagModes(ops, idb, p);
    BodyOpAt(ops, bodies, i, j);
    assert tags[a + j] == Auto;
    ScanOrdered(ops, 0, 0, None, 0);
    hide Neutered, HasMode, OffMode, Segments, TagModes;
    NeuteredAt(ops, tags, segs, a + j);
    if k :| 0 <= k < |segs| && segs[k].lead == a + j {
      LeadCoversBody(ops, bodies, i, segs[k]);
      SeedSegment(ops, idb, p, segs[k]);
    }
  }

  /** A body without delta positions is switched on in some sequence of the seed pass. */
  lemma SeedModes(ops: seq<Op>, bodies: seq<seq<Op>>, idb: set<string>, i: nat, p0: nat) returns (p: nat)
    requires IsRulePlan(ops, bodies) && i < |bodies| && p0 < |ops| && IsDeltaPos(ops[p0], idb)
    requires forall q | 0 <= q < |bodies[i]| :: !IsDeltaPos(bodies[i][q], idb)
    ensures p < |ops| && IsDeltaPos(ops[p], idb) && |ops| >= |Flat(bodies)|
    ensures forall j | 0 <= j < |bodies[i]| :: SeedMode(BodyModes(bodies, FinalModes(ops, idb, p), i)[j], j == 0)
  {
    p := SeedChoice(ops, idb, Start(bodies, i), p0);
    BodyAt(bodies, i);
    hide Flat, Start, IsDeltaPos, FinalModes, SeedMode, SeedsAt, IsBody;
    var modes := FinalModes(ops, idb, p);
    var mine := BodyModes(bodies, modes, i);
    forall j | 0 <= j < |bodies[i]|
      ensures SeedMode(mine[j], j == 0)
    {
      SeedIndex(ops, bodies, idb, i, p, j);
    }
  }

  /** With no deltas yet, the K sequences together answer what the original list answers. */
  lemma FusionSeeds(ops: seq<Op>, bodies: seq<seq<Op>>, idb: set<string>, w: World, p0: nat, t: Row)
    requires IsRulePlan(ops, bodies) && Plain(ops) && DeltaFits(w.delta, w.full)
    requires w.seed && NoDelta(w) && p0 < |ops| && IsDeltaPos(ops[p0], idb)
    requires Answer(ops, PlainWorld(w.full, w.m, w.reduce)).Some?
    requires t in Answer(ops, PlainWorld(w.full, w.m, w.reduce)).value.rows
    ensures exists p :: SequenceDerives(ops, idb, w, p, t)
  {
    hide RunUnion, RunBody, Answer, FinalModes, Sequence, Flat, Start, Remode, TagModes, IsRulePlan, Tagged, BodyModes;
    var u := PlainWorld(w.full, w.m, w.reduce);
    AnswerIsUnion(ops, bodies, u);
    assert AllBodies(bodies) by { PlanBodies(ops, bodies); }
    UnionMembers(bodies, u);
    var i :| 0 <= i < |bodies| && t in RunBody(bodies[i], u).value.rows;
    PlainBodies(ops, bodies, i);
    if q :| 0 <= q < |bodies[i]| && IsDeltaPos(bodies[i][q], idb) {
      SeedTagged(bodies[i], idb, q, w);
      BodyRowInSequence(ops, bodies, idb, w, i, q, t);
    } else {
      var p := SeedModes(ops, bodies, idb, i, p0);
      var modes := BodyModes(bodies, FinalModes(ops, idb, p), i);
      FullModesRun(bodies[i], modes, w);
      SequenceSound(ops, bodies, idb, p, w);
      PieceInSequence(ops, bodies, idb, p, w, i, t);
      assert SequenceDerives(ops, idb, w, p, t);
    }
  }

  lemma PlanBodies(ops: seq<Op>, bodies: seq<seq<Op>>)
    requires IsRulePlan(ops, bodies)
    ensures AllBodies(bodies)
  {}

  lemma SeedTagged(ops: seq<Op>, idb: set<string>, q: int, w: World)
    requires IsBody(ops) && Plain(ops) && DeltaFits(w.delta, w.full) && w.seed && NoDelta(w)
    ensures RunBody(Tagged(ops, idb, q), w) == RunBody(ops, PlainWorld(w.full, w.m, w.reduce))
  {
    hide RunBody, Remode;
    FullModesRun(ops, TagModes(ops, idb, q), w);
  }

  /** All rows the K sequences derive. */
  function FusedRows(ops: seq<Op>, idb: set<string>, w: World): set<Row> {
    set p, t | 0 <= p < |ops| && IsDeltaPos(ops[p], idb) && Answer(Sequence(ops, idb, p), w).Some?
               && t in Answer(Sequence(ops, idb, p), w).value.rows :: t
  }
}
