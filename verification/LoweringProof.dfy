/**
 * Lowering is correct: running the operators emitted for a tree pushes exactly one
 * relation, the one the tree denotes, and in body trees the layout computed from the tree
 * is the header of that relation, so every resolved name reads its own column.
 */
module LoweringProof {
  import opened Bytes
  import opened Expr
  import opened Machine
  import opened Postfix
  import opened Serializer
  import opened Naming
  import opened Plan
  import opened Ir
  import opened Lowering
  import opened RightFilters
  import RuleBodies
  import Seqs

  // ---- where layouts may be consulted ------------------------------------------------------

  /** Trees whose layout describes their rows: no computed columns at the top. */
  predicate IsBodyTree(n: Ir) {
    match n
    case ScanNode(_, _) => true
    case FilterNode(c, _) => IsBodyTree(c)
    case ProjectNode(c, p) => IsBodyTree(c) && IsIntermediate(p) && |p.names| == p.count
    case JoinNode(l, _, _) => IsBodyTree(l)
    case SemiJoinNode(l, _, _, _) => IsBodyTree(l)
    case AntiJoinNode(l, _, _) => IsBodyTree(l)
    case UnionNode(f, _) => IsBodyTree(f)
    case FlatmapNode(c, _, p) => IsBodyTree(c) && p.count == 0
  }

  /** A right side the plan can represent: at most 32 filters, all serializable, foldable. */
  ghost predicate IsRightSide(n: Ir, m: Machine)
    requires SoundNode(n)
  {
    SoundConditions(n);
    && |Conditions(n)| <= MAX_RIGHT_FILTERS
    && (AllSound(Conditions(n)) ==>
          Base(n).ScanNode? ==>
          Combined(Conditions(n), Base(n).cols).Some? && Foldable(Conditions(n), Base(n).cols, m))
  }

  /** Every node that resolves names sits on a body tree; column counts are 32-bit. */
  ghost predicate IsLowerable(n: Ir, m: Machine)
    requires SoundNode(n)
  {
    if n.ScanNode? then |n.cols| <= TWO32
    else if n.UnionNode? then IsLowerable(n.first, m) && forall c | c in n.rest :: IsLowerable(c, m)
    else if IsPairing(n) then
      IsBodyTree(n.left) && IsLowerable(n.left, m) && IsLowerable(n.right, m) && IsRightSide(n.right, m)
    else IsBodyTree(n.child) && IsLowerable(n.child, m) && |Collect(n.child)| <= TWO32
  }

  // ---- the layout is the header ------------------------------------------------------------------

  predicate Fits(n: Ir, t: Option<Table>)
    requires SoundNode(n)
  {
    t.Some? ==> ValidTable(t.value) && (IsBodyTree(n) ==> t.value.header == Collect(n))
  }

  lemma DerivingFits(n: Ir, t: Option<Table>, exts: Extensions, m: Machine)
    requires IsDeriving(n) && SoundNode(n) && Fits(n.child, t)
    ensures Fits(n, Deriving(n, t, exts, m))
  {
    hide Holds, ProjectedCell, SoundNode, Sound, ProjectsRow;
    SoundChild(n);
  }

  lemma SoundChild(n: Ir)
    requires IsDeriving(n) && SoundNode(n)
    ensures SoundNode(n.child) && (n.FilterNode? ==> Sound(n.cond)) && (!n.FilterNode? ==> SoundProjection(n.proj))
    ensures n.FlatmapNode? && n.guard.Some? ==> Sound(n.guard.value)
  {}

  lemma PairingFits(n: Ir, l: Option<Table>, r: Option<Table>)
    requires IsPairing(n) && SoundNode(n) && Fits(n.left, l) && Fits(n.right, r) && IsBodyTree(n.right)
    ensures Fits(n, Pairing(n, l, r))
  {
    hide Agree, HasMatch, SoundNode, KeysKnown;
    SoundSides(n);
  }

  lemma SoundSides(n: Ir)
    requires IsPairing(n) && SoundNode(n)
    ensures SoundNode(n.left) && SoundNode(n.right) && IsFiltersOverScan(n.right)
  {}

  lemma {:induction false} FiltersAreBody(n: Ir)
    requires IsFiltersOverScan(n)
    ensures IsBodyTree(n)
  {
    if n.FilterNode? {
      FiltersAreBody(n.child);
    }
  }

  /** Rows have the header's width, and in body trees the header is the collected layout. */
  lemma {:induction false} TreeFits(n: Ir, exts: Extensions, w: World)
    requires SoundNode(n) && ValidDb(w.full) && Present(n, w)
    ensures Fits(n, Denote(n, exts, w))
    decreases n, 1
  {
    hide Deriving, Pairing, Fits, SoundNode, DenoteUnion, ValidDb;
    if n.ScanNode? {
      ScanFits(n, exts, w);
    } else if n.UnionNode? {
      UnionParts(n);
      PresentParts(n, w);
      UnionFits(n, n.rest, exts, w);
    } else if IsPairing(n) {
      SoundSides(n);
      FiltersAreBody(n.right);
      TreeFits(n.left, exts, w);
      TreeFits(n.right, exts, w);
      PairingFits(n, Denote(n.left, exts, w), Denote(n.right, exts, w));
    } else {
      SoundChild(n);
      TreeFits(n.child, exts, w);
      DerivingFits(n, Denote(n.child, exts, w), exts, w.m);
    }
  }

  lemma ScanFits(n: Ir, exts: Extensions, w: World)
    requires n.ScanNode? && SoundNode(n) && ValidDb(w.full) && Present(n, w)
    ensures Fits(n, Denote(n, exts, w))
  {
    assert ValidRel(w.full[n.rel]);
  }

  lemma PresentParts(n: Ir, w: World)
    requires n.UnionNode? && Present(n, w)
    ensures Present(n.first, w) && forall c | c in n.rest :: Present(c, w)
  {}

  lemma {:induction false} UnionFits(n: Ir, rest: seq<Ir>, exts: Extensions, w: World)
    requires n.UnionNode? && SoundNode(n) && ValidDb(w.full) && Present(n, w)
    requires SoundNode(n.first) && forall c | c in rest :: c in n.rest && SoundNode(c) && c < n
    ensures Fits(n, DenoteUnion(n.first, rest, n, exts, w))
    decreases n, 0, |rest|
  {
    hide SoundNode, Denote, ValidDb;
    PresentParts(n, w);
    if rest == [] {
      TreeFits(n.first, exts, w);
    } else {
      var last := rest[|rest| - 1];
      assert last in rest;
      UnionFits(n, rest[..|rest| - 1], exts, w);
      TreeFits(last, exts, w);
    }
  }

  // ---- one operator at a time ----------------------------------------------------------------------

  function AsRel(t: Table): Rel { Rel(|t.header|, t.rows) }

  function AsRels(stack: seq<Rel>, t: Option<Table>): Option<seq<Rel>> {
    match t
    case None => None
    case Some(x) => Some(stack + [AsRel(x)])
  }

  lemma ConditionPasses(e: Expr, h: Layout, exts: Extensions, m: Machine, row: Row)
    requires Sound(e) && Sized(e) && SoundExtensions(exts) && |h| <= TWO32 && Serialized(e, h, exts, false).Some?
    ensures Eval(Serialized(e, h, exts, false).value, m, row) == Meaning(e, h, exts, m, RowEnv(h, row), false)
  {
    hide Serialized, Eval, Meaning;
    assert Reads(h, row, RowEnv(h, row));
    BytesMean(e, h, exts, m, row, RowEnv(h, row));
  }

  lemma FilterRuns(e: Expr, t: Table, exts: Extensions, m: Machine)
    requires Sound(e) && Sized(e) && SoundExtensions(exts) && |t.header| <= TWO32
    requires Serialized(e, t.header, exts, false).Some?
    ensures FilterRel(Serialized(e, t.header, exts, false).value, m, AsRel(t)) == AsRel(FilterTable(e, t, exts, m))
  {
    hide Serialized, Eval, Meaning, Sound, Sized;
    var bs := Serialized(e, t.header, exts, false).value;
    forall r | r in t.rows
      ensures Passes(bs, m, r) <==> Holds(e, t.header, exts, m, r)
    {
      ConditionPasses(e, t.header, exts, m, r);
    }
  }

  lemma CellRuns(p: Projection, h: Layout, exts: Extensions, m: Machine, row: Row, resolve: bool, i: nat)
    requires SoundProjection(p) && SoundExtensions(exts) && |h| <= TWO32 && i < p.count
    requires MapOp(p, h, exts, resolve).Some?
    ensures MapCell(MapOp(p, h, exts, resolve).value, m, row, i) == ProjectedCell(p, h, exts, m, row, i)
  {
    hide Serialized, Eval, Meaning;
    if p.exprs.Some? {
      var e := p.exprs.value[i];
      assert ExprBytes(e, h, exts).Some?;
      if e.Some? {
        ConditionPasses(e.value, h, exts, m, row);
        SerializedNonempty(e.value, h, exts);
      }
    }
  }

  lemma SerializedNonempty(e: Expr, h: Layout, exts: Extensions)
    requires Sound(e) && SoundExtensions(exts) && Serialized(e, h, exts, false).Some?
    ensures Serialized(e, h, exts, false).value != []
  {}

  lemma MapRowRuns(p: Projection, h: Layout, exts: Extensions, m: Machine, row: Row, resolve: bool)
    requires SoundProjection(p) && SoundExtensions(exts) && |h| <= TWO32 && MapOp(p, h, exts, resolve).Some?
    ensures var op := MapOp(p, h, exts, resolve).value;
            (MapDefined(op, m, row) <==> ProjectsRow(p, h, exts, m, row)) && MapRow(op, m, row) == ProjectedRow(p, h, exts, m, row)
  {
    var op := MapOp(p, h, exts, resolve).value;
    assert |op.indices| == p.count;
    hide MapCell, ProjectedCell, MapOp;
    forall i | 0 <= i < p.count
      ensures MapCell(op, m, row, i) == ProjectedCell(p, h, exts, m, row, i)
    {
      CellRuns(p, h, exts, m, row, resolve, i);
    }
  }

  lemma MapRuns(p: Projection, t: Table, exts: Extensions, m: Machine, resolve: bool)
    requires SoundProjection(p) && SoundExtensions(exts) && |t.header| <= TWO32 && MapOp(p, t.header, exts, resolve).Some?
    ensures MapRel(MapOp(p, t.header, exts, resolve).value, m, AsRel(t))
         == match ProjectTable(p, t, exts, m) case None => None case Some(u) => Some(AsRel(u))
  {
    var op := MapOp(p, t.header, exts, resolve).value;
    assert |op.indices| == p.count;
    hide MapDefined, MapRow, ProjectsRow, ProjectedRow, MapOp;
    forall r | r in t.rows
      ensures (MapDefined(op, m, r) <==> ProjectsRow(p, t.header, exts, m, r))
              && MapRow(op, m, r) == ProjectedRow(p, t.header, exts, m, r)
    {
      MapRowRuns(p, t.header, exts, m, r, resolve);
    }
    assert (set r | r in t.rows :: MapRow(op, m, r)) == (set r | r in t.rows :: ProjectedRow(p, t.header, exts, m, r));
  }

  // ---- right sides -------------------------------------------------------------------------------------

  predicate AllConditionsHold(n: Ir, cols: Layout, exts: Extensions, m: Machine, row: Row)
    requires SoundNode(n)
  {
    SoundConditions(n);
    forall e | e in Conditions(n) :: Holds(e, cols, exts, m, row)
  }

  lemma {:induction false} BaseScan(n: Ir, w: World)
    requires IsFiltersOverScan(n) && Present(n, w)
    ensures Base(n).ScanNode? && Base(n).rel in w.full && w.full[Base(n).rel].width == |Base(n).cols|
  {
    if n.FilterNode? {
      BaseScan(n.child, w);
    }
  }

  /** Filters over a scan denote the scanned rows on which every condition holds. */
  lemma {:induction false} RightDenotes(n: Ir, exts: Extensions, w: World)
    requires IsFiltersOverScan(n) && SoundNode(n) && Present(n, w)
    ensures Base(n).ScanNode? && Base(n).rel in w.full && w.full[Base(n).rel].width == |Base(n).cols|
    ensures Denote(n, exts, w) ==
            Some(Table(Base(n).cols, set r | r in w.full[Base(n).rel].rows && AllConditionsHold(n, Base(n).cols, exts, w.m, r)))
    decreases n
  {
    BaseScan(n, w);
    hide Holds, Sound, Sized;
    var cols, base := Base(n).cols, w.full[Base(n).rel].rows;
    if n.FilterNode? {
      RightDenotes(n.child, exts, w);
      forall r | r in base
        ensures AllConditionsHold(n, cols, exts, w.m, r) <==>
                Holds(n.cond, cols, exts, w.m, r) && AllConditionsHold(n.child, cols, exts, w.m, r)
      {
        assert Conditions(n) == [n.cond] + Conditions(n.child);
      }
      var inner := Denote(n.child, exts, w).value;
      assert Denote(n, exts, w) == Some(FilterTable(n.cond, inner, exts, w.m));
      hide AllConditionsHold;
      assert FilterTable(n.cond, inner, exts, w.m).rows == (set r | r in base && AllConditionsHold(n, cols, exts, w.m, r));
    } else {
      assert base == (set r | r in base && AllConditionsHold(n, cols, exts, w.m, r));
    }
  }

  lemma SameHolds(e: Expr, cols: Layout, exts: Extensions, m: Machine, row: Row)
    requires Sound(e) && !HasCall(e)
    ensures IsTrue(ValueOf(e, cols, m, row)) <==> Holds(e, cols, exts, m, row)
  {
    hide Meaning, HasCall, Sound;
    NoCallMeaning(e, cols, exts, m, RowEnv(cols, row), false);
  }

  lemma RightPasses(n: Ir, exts: Extensions, m: Machine, row: Row)
    requires SoundNode(n) && Base(n).ScanNode? && |Base(n).cols| <= TWO32 && IsRightSide(n, m)
    requires Conditions(n) != [] && AllSound(Conditions(n))
    ensures Combined(Conditions(n), Base(n).cols).Some?
    ensures Combined(Conditions(n), Base(n).cols).value != []
    ensures Passes(Combined(Conditions(n), Base(n).cols).value, m, row) <==>
            AllConditionsHold(n, Base(n).cols, exts, m, row)
  {
    hide Combined, Passes, ValueOf, Holds, Sound, Sized, HasCall, Foldable, SoundNode, IsTrue;
    var conds, cols := Conditions(n), Base(n).cols;
    FilterIsConjunction(conds, cols, m, row);
    CombinedEval(conds, cols, m, row);
    forall e | e in conds
      ensures IsTrue(ValueOf(e, cols, m, row)) <==> Holds(e, cols, exts, m, row)
    {
      SameHolds(e, cols, exts, m, row);
    }
  }

  /** The right relation under its folded filter is what the right child denotes. */
  lemma RightRuns(n: Ir, exts: Extensions, w: World)
    requires IsFiltersOverScan(n) && SoundNode(n) && Present(n, w) && IsRightSide(n, w.m) && RightSide(n).Some?
    requires |Base(n).cols| <= TWO32
    ensures RightSide(n).value.0 in w.full && Denote(n, exts, w).Some?
    ensures RightFiltered(RightSide(n).value.1, w.m, w.full[RightSide(n).value.0]) == AsRel(Denote(n, exts, w).value)
  {
    RightDenotes(n, exts, w);
    SoundConditions(n);
    var conds, cols, base := Conditions(n), Base(n).cols, w.full[Base(n).rel];
    RightIs(n, w.m);
    hide Combined, Passes, Denote, Foldable, IsRightSide, RightSide, AllSound, SoundNode;
    if conds == [] {
      assert base.rows == (set r | r in base.rows && AllConditionsHold(n, cols, exts, w.m, r));
    } else {
      var bs := Combined(conds, cols).value;
      forall r | r in base.rows
        ensures bs != [] && (Passes(bs, w.m, r) <==> AllConditionsHold(n, cols, exts, w.m, r))
      {
        RightPasses(n, exts, w.m, r);
      }
      if base.rows == {} {
        assert FilterRel(bs, w.m, base).rows == {};
      }
      hide AllConditionsHold;
      assert (set r | r in base.rows && Passes(bs, w.m, r))
          == (set r | r in base.rows && AllConditionsHold(n, cols, exts, w.m, r));
    }
  }

  lemma RightIs(n: Ir, m: Machine)
    requires IsFiltersOverScan(n) && SoundNode(n) && Base(n).ScanNode? && IsRightSide(n, m) && RightSide(n).Some?
    ensures (forall e | e in Conditions(n) :: Sound(e)) && AllSound(Conditions(n))
    ensures Combined(Conditions(n), Base(n).cols).Some?
    ensures RightSide(n).value == (Base(n).rel, Combined(Conditions(n), Base(n).cols).value)
    ensures Conditions(n) == [] ==> RightSide(n).value.1 == []
  {
    hide Sound, Sized, HasCall, Foldable, Serialized;
    SoundConditions(n);
  }

  // ---- keys --------------------------------------------------------------------------------------------

  /** Resolved keys compare the columns the names stand for. */
  lemma KeysRead(keys: seq<(Text, Text)>, lh: Layout, rh: Layout, a: Row, b: Row)
    requires KeysKnown(keys, lh, rh) && |a| == |lh| && |b| == |rh|
    ensures KeysMatch(ResolvedKeys(keys, lh, rh).value, a, b) <==> Agree(keys, lh, a, rh, b)
  {
    hide KeyColumn;
    var ks := ResolvedKeys(keys, lh, rh).value;
    forall k | 0 <= k < |keys|
      ensures KeyCell(a, ks[k].0) == Cell(a, KeyColumn(lh, keys[k].0).value)
      ensures KeyCell(b, ks[k].1) == Cell(b, KeyColumn(rh, keys[k].1).value)
    {
    }
  }

  lemma PairsRead(keys: seq<(Text, Text)>, l: Table, r: Table)
    requires KeysKnown(keys, l.header, r.header) && ValidTable(l) && ValidTable(r)
    ensures forall a, b | a in l.rows && b in r.rows ::
      KeysMatch(ResolvedKeys(keys, l.header, r.header).value, a, b) <==> Agree(keys, l.header, a, r.header, b)
  {
    hide KeysMatch, Agree, ResolvedKeys, KeysKnown;
    forall a, b | a in l.rows && b in r.rows
      ensures KeysMatch(ResolvedKeys(keys, l.header, r.header).value, a, b) <==> Agree(keys, l.header, a, r.header, b)
    {
      KeysRead(keys, l.header, r.header, a, b);
    }
  }

  lemma JoinReads(l: Table, r: Table, keys: seq<(Text, Text)>)
    requires KeysKnown(keys, l.header, r.header) && ValidTable(l) && ValidTable(r)
    ensures JoinRel(AsRel(l), AsRel(r), ResolvedKeys(keys, l.header, r.header).value, []) == AsRel(JoinTable(l, r, keys))
  {
    hide KeysMatch, Agree, ResolvedKeys, KeysKnown;
    PairsRead(keys, l, r);
    var ks := ResolvedKeys(keys, l.header, r.header).value;
    var x, y := JoinRel(AsRel(l), AsRel(r), ks, []), JoinTable(l, r, keys);
    forall t | t in x.rows
      ensures t in y.rows
    {
      var a, b :| a in l.rows && b in r.rows && KeysMatch(ks, a, b) && t == Pick([], a + b);
      assert Agree(keys, l.header, a, r.header, b);
    }
    forall t | t in y.rows
      ensures t in x.rows
    {
      var a, b :| a in l.rows && b in r.rows && Agree(keys, l.header, a, r.header, b) && t == a + b;
      assert KeysMatch(ks, a, b) && t == Pick([], a + b);
    }
  }

  lemma PartnerReads(l: Table, r: Table, keys: seq<(Text, Text)>, a: Row)
    requires KeysKnown(keys, l.header, r.header) && ValidTable(l) && ValidTable(r) && a in l.rows
    ensures HasPartner(a, AsRel(r), ResolvedKeys(keys, l.header, r.header).value) <==> HasMatch(keys, l.header, a, r)
  {
    hide KeysMatch, Agree, ResolvedKeys, KeysKnown;
    PairsRead(keys, l, r);
    var ks := ResolvedKeys(keys, l.header, r.header).value;
    if HasPartner(a, AsRel(r), ks) {
      var b :| b in r.rows && KeysMatch(ks, a, b);
      assert Agree(keys, l.header, a, r.header, b);
    }
    if HasMatch(keys, l.header, a, r) {
      var b :| b in r.rows && Agree(keys, l.header, a, r.header, b);
      assert KeysMatch(ks, a, b);
    }
  }

  lemma SemiJoinReads(l: Table, r: Table, keys: seq<(Text, Text)>, project: seq<nat>)
    requires KeysKnown(keys, l.header, r.header) && ValidTable(l) && ValidTable(r)
    ensures SemiRel(AsRel(l), AsRel(r), ResolvedKeys(keys, l.header, r.header).value, project)
         == AsRel(SemiJoinTable(l, r, keys, project))
  {
    hide HasPartner, HasMatch, ResolvedKeys, KeysKnown, Pick;
    var ks := ResolvedKeys(keys, l.header, r.header).value;
    forall a | a in l.rows
      ensures HasPartner(a, AsRel(r), ks) <==> HasMatch(keys, l.header, a, r)
    {
      PartnerReads(l, r, keys, a);
    }
    var x, y := SemiRel(AsRel(l), AsRel(r), ks, project), SemiJoinTable(l, r, keys, project);
    assert x.rows == y.rows;
    assert x.width == |y.header| by { assert |NarrowedHeader(l.header, project)| == OutWidth(project, |l.header|); }
  }

  lemma AntiJoinReads(l: Table, r: Table, keys: seq<(Text, Text)>)
    requires KeysKnown(keys, l.header, r.header) && ValidTable(l) && ValidTable(r)
    ensures AntiRel(AsRel(l), AsRel(r), ResolvedKeys(keys, l.header, r.header).value) == AsRel(AntiJoinTable(l, r, keys))
  {
    hide HasPartner, HasMatch, ResolvedKeys, KeysKnown;
    var ks := ResolvedKeys(keys, l.header, r.header).value;
    forall a | a in l.rows
      ensures HasPartner(a, AsRel(r), ks) <==> HasMatch(keys, l.header, a, r)
    {
      PartnerReads(l, r, keys, a);
    }
  }

  // ---- nodes ---------------------------------------------------------------------------------------------

  lemma PairingRuns(n: Ir, l: Table, exts: Extensions, w: World)
    requires IsPairing(n) && SoundNode(n) && PairingOp(n).Some? && ValidTable(l) && l.header == Collect(n.left)
    requires ValidDb(w.full) && Present(n.right, w) && IsRightSide(n.right, w.m) && |Collect(n.right)| <= TWO32
    ensures IsUnary(PairingOp(n).value)
    ensures Denote(n.right, exts, w).Some? && Pairing(n, Some(l), Denote(n.right, exts, w)).Some?
    ensures Unary(PairingOp(n).value, w, AsRel(l)) == Some(AsRel(Pairing(n, Some(l), Denote(n.right, exts, w)).value))
  {
    hide Denote, RightSide, RightFiltered, SoundNode, IsRightSide, Collect, KeysKnown, Unary, Pairing, ValidDb, Present,
      OpAgainst, ValidTable, ResolvedKeys;
    SoundSides(n);
    RightCollect(n.right);
    RightRuns(n.right, exts, w);
    RightFits(n.right, exts, w);
    var r := Denote(n.right, exts, w).value;
    PairedUnary(n, RightSide(n.right).value.0, RightSide(n.right).value.1, l, r, w);
  }

  lemma RightFits(n: Ir, exts: Extensions, w: World)
    requires IsFiltersOverScan(n) && SoundNode(n) && ValidDb(w.full) && Present(n, w) && Denote(n, exts, w).Some?
    ensures ValidTable(Denote(n, exts, w).value) && Denote(n, exts, w).value.header == Collect(n)
  {
    hide Denote, SoundNode, Collect, ValidDb, Present, ValidTable;
    TreeFits(n, exts, w);
    FiltersAreBody(n);
  }

  lemma PairedUnary(n: Ir, rel: string, rf: Text, l: Table, r: Table, w: World)
    requires IsPairing(n) && KeysKnown(n.keys, l.header, r.header) && ValidTable(l) && ValidTable(r)
    requires rel in w.full && RightFiltered(rf, w.m, w.full[rel]) == AsRel(r)
    ensures var op := OpAgainst(n, rel, ResolvedKeys(n.keys, l.header, r.header).value, rf);
            IsUnary(op) && Pairing(n, Some(l), Some(r)).Some?
            && Unary(op, w, AsRel(l)) == Some(AsRel(Pairing(n, Some(l), Some(r)).value))
  {
    hide RightFiltered, KeysKnown, JoinRel, SemiRel, AntiRel, JoinTable, SemiJoinTable, AntiJoinTable, ResolvedKeys, ValidTable;
    match n
    case JoinNode(_, _, keys) =>
      JoinReads(l, r, keys);
    case SemiJoinNode(_, _, keys, project) =>
      SemiJoinReads(l, r, keys, project);
    case AntiJoinNode(_, _, keys) =>
      AntiJoinReads(l, r, keys);
  }

  lemma {:induction false} RightCollect(n: Ir)
    requires IsFiltersOverScan(n) && SoundNode(n)
    ensures Base(n).ScanNode? && Collect(n) == Base(n).cols
  {
    if n.FilterNode? {
      RightCollect(n.child);
    }
  }

  lemma RunAfter(ops: seq<Op>, op: Op, w: World, stack: seq<Rel>, r: Rel)
    requires RunOps(ops, w, stack) == Some(stack + [r]) && IsUnary(op)
    ensures RunOps(ops + [op], w, stack) == match Unary(op, w, r) case None => None case Some(x) => Some(stack + [x])
  {
    hide Unary;
    RunConcat(ops, [op], w, stack);
    RunOne(op, w, stack + [r]);
    Seqs.TakeConcat(stack, [r]);
  }

  lemma RunAfterFailure(ops: seq<Op>, op: Op, w: World, stack: seq<Rel>)
    requires RunOps(ops, w, stack).None?
    ensures RunOps(ops + [op], w, stack).None?
  {
    RunConcat(ops, [op], w, stack);
  }

  /** Operators already emitted, run, give a table. */
  ghost predicate Gives(ops: Option<seq<Op>>, w: World, stack: seq<Rel>, t: Option<Table>) {
    ops.Some? ==> RunOps(ops.value, w, stack) == AsRels(stack, t)
  }

  lemma FilterGives(ops: Option<seq<Op>>, e: Expr, exts: Extensions, w: World, stack: seq<Rel>, t: Option<Table>, cols: Layout)
    requires Gives(ops, w, stack, t) && Sound(e) && Sized(e) && SoundExtensions(exts) && |cols| <= TWO32
    requires t.Some? ==> t.value.header == cols
    ensures Gives(Append(ops, FilterOp(e, cols, exts)), w, stack,
                  if t.Some? then Some(FilterTable(e, t.value, exts, w.m)) else None)
  {
    hide RunOps, Serialized, FilterRel, FilterTable, Sound, Sized;
    var op := FilterOp(e, cols, exts);
    if ops.Some? && op.Some? {
      if t.None? {
        RunAfterFailure(ops.value, op.value, w, stack);
      } else {
        RunAfter(ops.value, op.value, w, stack, AsRel(t.value));
        FilterRuns(e, t.value, exts, w.m);
      }
    }
  }

  lemma MapGives(ops: Option<seq<Op>>, p: Projection, exts: Extensions, resolve: bool, w: World, stack: seq<Rel>, t: Option<Table>, cols: Layout)
    requires Gives(ops, w, stack, t) && SoundProjection(p) && SoundExtensions(exts) && |cols| <= TWO32
    requires t.Some? ==> t.value.header == cols
    ensures Gives(Append(ops, MapOp(p, cols, exts, resolve)), w, stack,
                  if t.Some? then ProjectTable(p, t.value, exts, w.m) else None)
  {
    hide RunOps, MapRel, ProjectTable, SoundProjection;
    var op := MapOp(p, cols, exts, resolve);
    if ops.Some? && op.Some? {
      if t.None? {
        RunAfterFailure(ops.value, op.value, w, stack);
      } else {
        RunAfter(ops.value, op.value, w, stack, AsRel(t.value));
        MapRuns(p, t.value, exts, w.m, resolve);
      }
    }
  }

  lemma DerivingGives(n: Ir, ops: Option<seq<Op>>, exts: Extensions, w: World, stack: seq<Rel>, t: Option<Table>)
    requires IsDeriving(n) && SoundNode(n) && SoundExtensions(exts) && Gives(ops, w, stack, t)
    requires |Collect(n.child)| <= TWO32 && (t.Some? ==> t.value.header == Collect(n.child))
    ensures Gives(DerivingOps(n, ops, exts), w, stack, Deriving(n, t, exts, w.m))
  {
    hide Gives, FilterOp, MapOp, FilterTable, ProjectTable, SoundProjection, Collect, HasCall, Sound, Sized, ProjectionCalls;
    var cols := Collect(n.child);
    match n
    case FilterNode(_, e) =>
      FilterGives(ops, e, exts, w, stack, t, cols);
      NoneGives(w, stack, Deriving(n, t, exts, w.m));
    case ProjectNode(_, p) =>
      MapGives(ops, p, exts, true, w, stack, t, cols);
    case FlatmapNode(_, g, p) =>
      FlatmapGives(n, ops, exts, w, stack, t);
  }

  lemma NoneGives(w: World, stack: seq<Rel>, t: Option<Table>)
    ensures Gives(None, w, stack, t)
  {}

  lemma FlatmapGives(n: Ir, ops: Option<seq<Op>>, exts: Extensions, w: World, stack: seq<Rel>, t: Option<Table>)
    requires n.FlatmapNode? && SoundNode(n) && SoundExtensions(exts) && Gives(ops, w, stack, t)
    requires |Collect(n.child)| <= TWO32 && (t.Some? ==> t.value.header == Collect(n.child))
    ensures Gives(DerivingOps(n, ops, exts), w, stack, Deriving(n, t, exts, w.m))
  {
    hide Gives, FilterOp, MapOp, ProjectTable, SoundProjection, Collect, HasCall, Sound, Sized, ProjectionCalls, Holds;
    var cols, g, p := Collect(n.child), n.guard, n.proj;
    NoneGives(w, stack, Deriving(n, t, exts, w.m));
    var kept, u := ops, t;
    if g.Some? && !HasCall(g.value) {
      FilterGives(ops, g.value, exts, w, stack, t, cols);
      kept := Append(ops, FilterOp(g.value, cols, exts));
      u := if t.Some? then Some(FilterTable(g.value, t.value, exts, w.m)) else None;
    }
    if p.count > 0 {
      MapGives(kept, p, exts, false, w, stack, u, cols);
    }
  }

  lemma PairingGives(n: Ir, exts: Extensions, w: World, stack: seq<Rel>, ops: Option<seq<Op>>, l: Option<Table>)
    requires IsPairing(n) && SoundNode(n) && Gives(ops, w, stack, l)
    requires ValidDb(w.full) && Present(n.right, w) && IsRightSide(n.right, w.m) && |Collect(n.right)| <= TWO32
    requires l.Some? ==> ValidTable(l.value) && l.value.header == Collect(n.left)
    ensures Gives(Append(ops, PairingOp(n)), w, stack, Pairing(n, l, Denote(n.right, exts, w)))
  {
    hide RunOps, PairingOp, SoundNode, ValidDb, Present, IsRightSide, Collect, Denote, ValidTable, Unary;
    var op := PairingOp(n);
    if ops.Some? && op.Some? {
      if l.None? {
        RunAfterFailure(ops.value, op.value, w, stack);
      } else {
        PairingRuns(n, l.value, exts, w);
        RunAfter(ops.value, op.value, w, stack, AsRel(l.value));
      }
    }
  }

  lemma ScanGives(n: Ir, exts: Extensions, w: World, stack: seq<Rel>)
    requires n.ScanNode? && SoundNode(n) && SoundExtensions(exts) && Present(n, w)
    ensures Gives(Translated(n, exts), w, stack, Denote(n, exts, w))
  {
    RunOne(Variable(n.rel, Auto), w, stack);
  }

  lemma ConcatGives(a: Option<seq<Op>>, b: Option<seq<Op>>, w: World, stack: seq<Rel>, t: Option<Table>, u: Option<Table>)
    requires Gives(a, w, stack, t) && (t.Some? ==> Gives(b, w, stack + [AsRel(t.value)], u))
    ensures Gives(if a.Some? && b.Some? then Some(a.value + b.value + [Concat]) else None, w, stack, UnionTable(t, u))
  {
    hide RunOps, Exec;
    if a.Some? && b.Some? {
      RunConcat(a.value + b.value, [Concat], w, stack);
      RunConcat(a.value, b.value, w, stack);
      if t.Some? && u.Some? {
        var st := stack + [AsRel(t.value)] + [AsRel(u.value)];
        RunOne(Concat, w, st);
        RuleBodies.ConcatJoins(stack, AsRel(t.value), AsRel(u.value), w);
      }
    }
  }

  lemma ConsolidateGives(ops: Option<seq<Op>>, w: World, stack: seq<Rel>, t: Option<Table>)
    requires Gives(ops, w, stack, t)
    ensures Gives(Append(ops, Some(Consolidate)), w, stack, t)
  {
    hide RunOps;
    if ops.Some? {
      if t.None? {
        RunAfterFailure(ops.value, Consolidate, w, stack);
      } else {
        RunAfter(ops.value, Consolidate, w, stack, AsRel(t.value));
      }
    }
  }

  ghost predicate Ready(n: Ir, exts: Extensions, w: World) {
    SoundNode(n) && SoundExtensions(exts) && ValidDb(w.full) && Present(n, w) && IsLowerable(n, w.m)
  }

  lemma ReadySides(n: Ir, exts: Extensions, w: World)
    requires IsPairing(n) && Ready(n, exts, w)
    ensures Ready(n.left, exts, w) && Ready(n.right, exts, w) && IsRightSide(n.right, w.m)
    ensures IsBodyTree(n.left) && |Collect(n.right)| <= TWO32
  {
    SoundSides(n);
    RightNarrow(n.right, w.m);
    hide IsRightSide;
  }

  lemma {:induction false} RightNarrow(n: Ir, m: Machine)
    requires IsFiltersOverScan(n) && SoundNode(n) && IsLowerable(n, m)
    ensures |Collect(n)| <= TWO32
  {
    if n.FilterNode? {
      RightNarrow(n.child, m);
    }
  }

  lemma ReadyChild(n: Ir, exts: Extensions, w: World)
    requires IsDeriving(n) && Ready(n, exts, w)
    ensures Ready(n.child, exts, w) && IsBodyTree(n.child) && |Collect(n.child)| <= TWO32
  {
    SoundChild(n);
  }

  lemma ReadyParts(n: Ir, exts: Extensions, w: World)
    requires n.UnionNode? && Ready(n, exts, w)
    ensures Ready(n.first, exts, w) && forall c | c in n.rest :: Ready(c, exts, w) && c < n
  {}

  /** Running the operators of a tree pushes the relation it denotes, and fails when it has none. */
  lemma {:induction false} LoweringCorrect(n: Ir, exts: Extensions, w: World, stack: seq<Rel>)
    requires Ready(n, exts, w)
    ensures Gives(Translated(n, exts), w, stack, Denote(n, exts, w))
    decreases n, 1
  {
    hide Gives, DerivingOps, Deriving, PairingOp, Pairing, TranslatedUnion, DenoteUnion, Collect;
    if n.ScanNode? {
      ScanGives(n, exts, w, stack);
    } else if n.UnionNode? {
      hide Ready;
      ReadyParts(n, exts, w);
      UnionGives(n, n.rest, exts, w, stack);
      SoundUnion(n, exts, w);
      ConsolidateGives(TranslatedUnion(n.first, n.rest, n, exts), w, stack, DenoteUnion(n.first, n.rest, n, exts, w));
    } else if IsPairing(n) {
      ReadySides(n, exts, w);
      LoweringCorrect(n.left, exts, w, stack);
      TreeFits(n.left, exts, w);
      PairingGives(n, exts, w, stack, Translated(n.left, exts), Denote(n.left, exts, w));
    } else {
      ReadyChild(n, exts, w);
      LoweringCorrect(n.child, exts, w, stack);
      TreeFits(n.child, exts, w);
      DerivingGives(n, Translated(n.child, exts), exts, w, stack, Denote(n.child, exts, w));
    }
  }

  lemma SoundUnion(n: Ir, exts: Extensions, w: World)
    requires n.UnionNode? && Ready(n, exts, w)
    ensures SoundNode(n) && SoundExtensions(exts) && SoundNode(n.first) && n.first < n
    ensures forall c | c in n.rest :: SoundNode(c) && c < n
  {}

  lemma {:induction false} UnionGives(n: Ir, rest: seq<Ir>, exts: Extensions, w: World, stack: seq<Rel>)
    requires n.UnionNode? && Ready(n.first, exts, w) && n.first < n
    requires forall c | c in rest :: Ready(c, exts, w) && c < n
    ensures SoundNode(n.first) && SoundExtensions(exts) && forall c | c in rest :: SoundNode(c)
    ensures Gives(TranslatedUnion(n.first, rest, n, exts), w, stack, DenoteUnion(n.first, rest, n, exts, w))
    decreases n, 0, |rest|
  {
    hide Gives, Translated, Denote, UnionTable, SoundNode, IsLowerable, Present, ValidDb;
    if rest == [] {
      LoweringCorrect(n.first, exts, w, stack);
    } else {
      var init, last := rest[..|rest| - 1], rest[|rest| - 1];
      assert last in rest && forall c | c in init :: c in rest;
      UnionGives(n, init, exts, w, stack);
      var a, t := TranslatedUnion(n.first, init, n, exts), DenoteUnion(n.first, init, n, exts, w);
      if t.Some? {
        LoweringCorrect(last, exts, w, stack + [AsRel(t.value)]);
      }
      ConcatGives(a, Translated(last, exts), w, stack, t, Denote(last, exts, w));
    }
  }
}
