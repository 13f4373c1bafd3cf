/**
 * One rule body under delta modes.
 *
 * The relations of the stratum being evaluated are idb. A body reads them at its delta
 * positions: its leading VARIABLE and its JOINs. The central fact is the semi-naive
 * step: a row derivable from O together with the new rows D is derivable from O alone, or
 * by the body with one of its delta positions reading D and the others reading everything.
 */
module DeltaStep {
  import opened Bytes
  import opened Machine
  import opened Postfix
  import opened Plan
  import opened RuleBodies

  predicate IsDeltaPos(op: Op, idb: set<string>) {
    (op.Variable? && op.rel in idb) || (op.Join? && op.right in idb)
  }

  function SetMode(op: Op, mode: DeltaMode): Op {
    if op.Variable? || op.Join? then op.(mode := mode) else op
  }

  /** The same operators with the given modes. */
  function Remode(ops: seq<Op>, modes: seq<DeltaMode>): (r: seq<Op>)
    requires |modes| == |ops|
    ensures |r| == |ops|
    ensures IsBody(ops) ==> IsBody(r)
  {
    seq(|ops|, i requires 0 <= i < |ops| => SetMode(ops[i], modes[i]))
  }

  /** Position p reads its delta, the other delta positions everything; the rest is AUTO. */
  function TagMode(op: Op, idb: set<string>, here: bool): DeltaMode {
    if IsDeltaPos(op, idb) then (if here then ForceDelta else ForceFull) else Auto
  }

  function TagModes(ops: seq<Op>, idb: set<string>, p: int): (r: seq<DeltaMode>)
    ensures |r| == |ops|
  {
    seq(|ops|, i requires 0 <= i < |ops| => TagMode(ops[i], idb, i == p))
  }

  function Tagged(ops: seq<Op>, idb: set<string>, p: int): (r: seq<Op>)
    ensures |r| == |ops| && (IsBody(ops) ==> IsBody(r))
  {
    Remode(ops, TagModes(ops, idb, p))
  }

  predicate PlainOp(op: Op) { (op.Variable? || op.Join?) ==> op.mode == Auto }

  predicate Plain(ops: seq<Op>) { forall i | 0 <= i < |ops| :: PlainOp(ops[i]) }

  /** A semijoin that only anticipates the JOIN right after it (sideways information passing). */
  predicate IsPrefilter(semi: Op, next: Op) {
    semi.SemiJoin? && next.Join? && semi.project == [] && semi.right == next.right
    && semi.keys == next.keys && semi.rightFilter == next.rightFilter
  }

  /** Negated relations come from earlier strata. */
  predicate NegatesEarlier(ops: seq<Op>, idb: set<string>) {
    forall i | 0 <= i < |ops| && ops[i].AntiJoin? :: ops[i].right !in idb
  }

  /**
   * Where a body may read the stratum outside its delta positions: nowhere, except in a
   * semijoin that anticipates the next JOIN.
   */
  predicate Stratified(ops: seq<Op>, idb: set<string>) {
    && (forall i | 0 <= i < |ops| && ops[i].Lftj? :: forall n | n in ops[i].rels :: n !in idb)
    && NegatesEarlier(ops, idb)
    && (forall i | 0 <= i < |ops| && ops[i].SemiJoin? && ops[i].right in idb ::
          i + 1 < |ops| && IsPrefilter(ops[i], ops[i + 1]))
  }

  // ---- databases ---------------------------------------------------------------

  /** Same relations and widths; inside the stratum more rows, outside exactly the same. */
  predicate Grows(small: Db, big: Db, idb: set<string>) {
    && small.Keys == big.Keys
    && forall n | n in small ::
         small[n].width == big[n].width
         && (if n in idb then small[n].rows <= big[n].rows else small[n].rows == big[n].rows)
  }

  function DeltaRows(delta: Db, n: string): set<Row> { if n in delta then delta[n].rows else {} }

  /** g is o together with the new rows. */
  predicate Adds(o: Db, delta: Db, g: Db, idb: set<string>) {
    && Grows(o, g, idb)
    && forall n | n in g && n in idb :: g[n].rows == o[n].rows + DeltaRows(delta, n)
  }

  predicate DeltaFits(delta: Db, full: Db) {
    forall n | n in delta :: n in full && delta[n].width == full[n].width && delta[n].rows <= full[n].rows
  }

  /** The world that evaluates a list as written: no deltas, everything read in full. */
  function PlainWorld(db: Db, m: Machine, reduce: (Reduction, Rel) -> Option<Rel>): World {
    World(db, map[], true, false, m, reduce)
  }

  // ---- more rows in, more rows out ------------------------------------------------

  predicate Below(a: Rel, b: Rel) { a.width == b.width && a.rows <= b.rows }

  predicate BelowOpt(a: Option<Rel>, b: Option<Rel>) {
    b.Some? ==> a.Some? && Below(a.value, b.value)
  }

  /** b reads at least what a reads, operator for operator. */
  ghost predicate ReadsLess(a: Op, u: World, b: Op, w: World) {
    && u.m == w.m
    && SetMode(a, Auto) == SetMode(b, Auto)
    && (match a
        case Variable(n, mode) => n in w.full ==> n in u.full && Below(Source(u, n, mode), Source(w, n, b.mode))
        case Lftj(rels, cols) =>
          LftjRuns(w, rels, cols) ==> LftjRuns(u, rels, cols) && Below(LftjRel(u, rels, cols), LftjRel(w, rels, cols))
        case Join(n, _, _, _, mode) =>
          (n in u.full <==> n in w.full) && (n in u.full ==> Below(RightOf(u, n, mode), RightOf(w, n, b.mode)))
        case SemiJoin(n, _, _, _) =>
          (n in u.full <==> n in w.full) && (n in u.full ==> Below(u.full[n], w.full[n]))
        case AntiJoin(n, _, _) =>
          (n in u.full <==> n in w.full) && (n in u.full ==> u.full[n] == w.full[n])
        case _ => true)
  }

  ghost predicate BodyReadsLess(a: seq<Op>, u: World, b: seq<Op>, w: World) {
    |a| == |b| && forall i | 0 <= i < |a| :: ReadsLess(a[i], u, b[i], w)
  }

  lemma FilterBelow(e: Text, m: Machine, r: Rel, s: Rel)
    requires Below(r, s)
    ensures Below(RightFiltered(e, m, r), RightFiltered(e, m, s))
  {
    hide Passes;
  }

  lemma JoinBelow(l: Rel, r: Rel, l2: Rel, r2: Rel, keys: Keys, project: seq<nat>)
    requires Below(l, l2) && Below(r, r2)
    ensures Below(JoinRel(l, r, keys, project), JoinRel(l2, r2, keys, project))
  {
    hide KeysMatch, Pick;
  }

  lemma SemiBelow(l: Rel, r: Rel, l2: Rel, r2: Rel, keys: Keys, project: seq<nat>)
    requires Below(l, l2) && Below(r, r2)
    ensures Below(SemiRel(l, r, keys, project), SemiRel(l2, r2, keys, project))
  {
    hide KeysMatch, Pick;
  }

  lemma MapBelow(op: Op, m: Machine, r: Rel, s: Rel)
    requires op.Map? && Below(r, s)
    ensures BelowOpt(MapRel(op, m, r), MapRel(op, m, s))
  {
    hide MapDefined, MapRow;
  }

  lemma UnaryBelow(a: Op, u: World, b: Op, w: World, r: Rel, s: Rel)
    requires IsChainOp(a) && ReadsLess(a, u, b, w) && Below(r, s)
    ensures IsChainOp(b) && BelowOpt(Unary(a, u, r), Unary(b, w, s))
  {
    hide JoinRel, SemiRel, RightFiltered, MapRel, HasPartner;
    match a
    case Map(_, _) => MapBelow(a, u.m, r, s);
    case Filter(e) =>
    case Join(n, keys, rf, project, mode) =>
      if n in u.full {
        FilterBelow(rf, u.m, RightOf(u, n, mode), RightOf(w, n, b.mode));
        JoinBelow(r, RightFiltered(rf, u.m, RightOf(u, n, mode)), s, RightFiltered(rf, w.m, RightOf(w, n, b.mode)), keys, project);
      }
    case SemiJoin(n, keys, rf, project) =>
      if n in u.full {
        FilterBelow(rf, u.m, u.full[n], w.full[n]);
        SemiBelow(r, RightFiltered(rf, u.m, u.full[n]), s, RightFiltered(rf, w.m, w.full[n]), keys, project);
      }
    case AntiJoin(n, keys, rf) =>
  }

  lemma SourceBelow(a: Op, u: World, b: Op, w: World)
    requires IsSource(a) && ReadsLess(a, u, b, w)
    ensures IsSource(b) && BelowOpt(SourceRel(a, u), SourceRel(b, w))
  {
    hide LftjRel, LftjRuns, Source;
  }

  /** A body that reads less computes no more, and fails only where the other fails. */
  lemma {:induction false} BodyBelow(a: seq<Op>, u: World, b: seq<Op>, w: World)
    requires IsBody(a) && IsBody(b) && BodyReadsLess(a, u, b, w)
    ensures BelowOpt(RunBody(a, u), RunBody(b, w))
    decreases |a|
  {
    hide Unary, ReadsLess, LftjRel, LftjRuns, Source;
    var n := |a| - 1;
    assert ReadsLess(a[n], u, b[n], w);
    if n == 0 {
      SourceBelow(a[0], u, b[0], w);
    } else {
      BodyBelow(a[..n], u, b[..n], w);
      var r, s := RunBody(a[..n], u), RunBody(b[..n], w);
      if s.Some? {
        UnaryBelow(a[n], u, b[n], w, r.value, s.value);
      }
    }
  }

  // ---- who reads less than whom -----------------------------------------------------

  lemma {:induction false} ProductsSame(u: World, w: World, rels: seq<string>, cols: seq<nat>, v: int, n: nat)
    requires n <= |rels| == |cols|
    requires forall i | 0 <= i < n :: rels[i] in u.full && rels[i] in w.full && u.full[rels[i]] == w.full[rels[i]]
    ensures Products(u, rels, cols, v, n) == Products(w, rels, cols, v, n)
    ensures TotalWidth(u, rels, n) == TotalWidth(w, rels, n)
    decreases n
  {
    if n > 0 {
      ProductsSame(u, w, rels, cols, v, n - 1);
    }
  }

  lemma LftjSame(u: World, w: World, rels: seq<string>, cols: seq<nat>)
    requires forall n | n in rels :: (n in u.full <==> n in w.full) && (n in u.full ==> u.full[n] == w.full[n])
    ensures LftjRuns(u, rels, cols) == LftjRuns(w, rels, cols)
    ensures LftjRuns(w, rels, cols) ==> LftjRel(u, rels, cols) == LftjRel(w, rels, cols)
  {
    hide Products, TotalWidth, Cell;
    assert forall i | 0 <= i < |rels| :: rels[i] in rels;
    if LftjRuns(w, rels, cols) {
      forall v: int
        ensures Products(u, rels, cols, v, |rels|) == Products(w, rels, cols, v, |rels|)
      {
        ProductsSame(u, w, rels, cols, v, |rels|);
      }
      ProductsSame(u, w, rels, cols, 0, |rels|);
    }
  }

  lemma {:induction false} ProductsBelow(u: World, w: World, rels: seq<string>, cols: seq<nat>, v: int, n: nat)
    requires n <= |rels| == |cols|
    requires forall i | 0 <= i < n :: rels[i] in u.full && rels[i] in w.full && Below(u.full[rels[i]], w.full[rels[i]])
    ensures Products(u, rels, cols, v, n) <= Products(w, rels, cols, v, n)
    ensures TotalWidth(u, rels, n) == TotalWidth(w, rels, n)
    decreases n
  {
    if n > 0 {
      ProductsBelow(u, w, rels, cols, v, n - 1);
    }
  }

  /** A leapfrog join of larger relations gives at least as much. */
  lemma LftjBelow(u: World, w: World, rels: seq<string>, cols: seq<nat>)
    requires forall n | n in rels :: (n in u.full <==> n in w.full) && (n in u.full ==> Below(u.full[n], w.full[n]))
    ensures LftjRuns(u, rels, cols) == LftjRuns(w, rels, cols)
    ensures LftjRuns(w, rels, cols) ==> Below(LftjRel(u, rels, cols), LftjRel(w, rels, cols))
  {
    hide Products, TotalWidth, Cell;
    assert forall i | 0 <= i < |rels| :: rels[i] in rels;
    if LftjRuns(w, rels, cols) {
      forall v: int
        ensures Products(u, rels, cols, v, |rels|) <= Products(w, rels, cols, v, |rels|)
      {
        ProductsBelow(u, w, rels, cols, v, |rels|);
      }
      ProductsBelow(u, w, rels, cols, 0, |rels|);
    }
  }

  /** As written, a body reads less of a smaller database. */
  lemma PlainReadsLess(ops: seq<Op>, small: Db, big: Db, idb: set<string>, m: Machine, reduce: (Reduction, Rel) -> Option<Rel>)
    requires Plain(ops) && NegatesEarlier(ops, idb) && Grows(small, big, idb)
    ensures BodyReadsLess(ops, PlainWorld(small, m, reduce), ops, PlainWorld(big, m, reduce))
  {
    hide LftjRuns, LftjRel;
    var u, w := PlainWorld(small, m, reduce), PlainWorld(big, m, reduce);
    forall i | 0 <= i < |ops|
      ensures ReadsLess(ops[i], u, ops[i], w)
    {
      assert PlainOp(ops[i]);
      if ops[i].Lftj? {
        LftjBelow(u, w, ops[i].rels, ops[i].cols);
      }
    }
  }

  /** Whatever the modes, a body reads no more than the full relations. */
  lemma ModesReadLess(ops: seq<Op>, modes: seq<DeltaMode>, w: World)
    requires Plain(ops) && |modes| == |ops| && DeltaFits(w.delta, w.full)
    ensures BodyReadsLess(Remode(ops, modes), w, ops, PlainWorld(w.full, w.m, w.reduce))
  {
    hide LftjRuns, LftjRel;
    var u := PlainWorld(w.full, w.m, w.reduce);
    forall i | 0 <= i < |ops|
      ensures ReadsLess(Remode(ops, modes)[i], w, ops[i], u)
    {
      assert PlainOp(ops[i]);
      if ops[i].Lftj? {
        LftjSame(w, u, ops[i].rels, ops[i].cols);
      }
    }
  }

  /** Modes under which an operator reads the whole relation. */
  predicate ReadsAll(op: Op, mode: DeltaMode, w: World) {
    match op
    case Variable(n, _) =>
      mode == Auto || mode == ForceFull || (mode == ForceEmptyAfterSeed && (w.seed || !w.outbound))
      || (mode == ForceDelta && w.seed && DeltaRows(w.delta, n) == {})
    case Join(n, _, _, _, _) => mode != ForceDelta || (w.seed && DeltaRows(w.delta, n) == {})
    case _ => true
  }

  /** When every operator reads everything, the modes do not change the result. */
  lemma FullModesRun(ops: seq<Op>, modes: seq<DeltaMode>, w: World)
    requires IsBody(ops) && Plain(ops) && |modes| == |ops| && DeltaFits(w.delta, w.full)
    requires forall i | 0 <= i < |ops| :: ReadsAll(ops[i], modes[i], w)
    ensures RunBody(Remode(ops, modes), w) == RunBody(ops, PlainWorld(w.full, w.m, w.reduce))
  {
    hide LftjRuns, LftjRel, RunBody;
    var u, r := PlainWorld(w.full, w.m, w.reduce), Remode(ops, modes);
    ModesReadLess(ops, modes, w);
    forall i | 0 <= i < |ops|
      ensures ReadsLess(ops[i], u, r[i], w)
    {
      assert PlainOp(ops[i]) && ReadsAll(ops[i], modes[i], w);
      if ops[i].Lftj? {
        LftjSame(u, w, ops[i].rels, ops[i].cols);
      }
    }
    BodyBelow(r, w, ops, u);
    BodyBelow(ops, u, r, w);
    var x, y := RunBody(r, w), RunBody(ops, u);
    if x.Some? || y.Some? {
      assert x.value.rows == y.value.rows;
    }
  }

  // ---- the step --------------------------------------------------------------------

  /** One input row of a filter-like operator becomes one output row. */
  ghost predicate Carries(op: Op, w: World, from: Row, to: Row) {
    match op
    case Map(_, _) => to == MapRow(op, w.m, from)
    case Filter(e) => to == from && Passes(e, w.m, from)
    case SemiJoin(n, keys, rf, project) =>
      n in w.full && to == Pick(project, from) && HasPartner(from, RightFiltered(rf, w.m, w.full[n]), keys)
    case AntiJoin(n, keys, rf) =>
      to == from && (n in w.full ==> !HasPartner(from, RightFiltered(rf, w.m, w.full[n]), keys))
    case _ => false
  }

  lemma RowOrigin(op: Op, w: World, r: Rel, t: Row) returns (from: Row)
    requires IsChainOp(op) && !op.Join? && Unary(op, w, r).Some? && t in Unary(op, w, r).value.rows
    ensures from in r.rows && Carries(op, w, from, t)
  {
    hide MapRow, MapDefined, Passes, HasPartner, RightFiltered, Pick;
    match op
    case Map(_, _) =>
      from :| from in r.rows && t == MapRow(op, w.m, from);
    case SemiJoin(n, keys, rf, project) =>
      from :| from in r.rows && HasPartner(from, RightFiltered(rf, w.m, w.full[n]), keys) && t == Pick(project, from);
    case Filter(_) => from := t;
    case AntiJoin(_, _, _) => from := t;
  }

  lemma RowCarried(op: Op, w: World, r: Rel, from: Row, t: Row)
    requires IsChainOp(op) && Carries(op, w, from, t) && from in r.rows && Unary(op, w, r).Some?
    ensures t in Unary(op, w, r).value.rows
  {
    hide MapRow, MapDefined, Passes, HasPartner, RightFiltered, Pick;
  }

  /** A JOIN row comes from one left row and one row of the right side it read. */
  ghost predicate Pairs(op: Op, right: Rel, m: Machine, a: Row, b: Row, t: Row)
    requires op.Join?
  {
    b in RightFiltered(op.rightFilter, m, right).rows && KeysMatch(op.keys, a, b) && t == Pick(op.project, a + b)
  }

  lemma JoinOrigin(op: Op, w: World, r: Rel, t: Row) returns (a: Row, b: Row)
    requires op.Join? && t in Unary(op, w, r).value.rows
    ensures op.right in w.full && a in r.rows && Pairs(op, RightOf(w, op.right, op.mode), w.m, a, b, t)
  {
    hide KeysMatch, Pick, RightFiltered, RightOf;
    var right := RightFiltered(op.rightFilter, w.m, RightOf(w, op.right, op.mode));
    a, b :| a in r.rows && b in right.rows && KeysMatch(op.keys, a, b) && t == Pick(op.project, a + b);
  }

  lemma JoinPaired(op: Op, w: World, r: Rel, a: Row, b: Row, t: Row)
    requires op.Join? && op.right in w.full && a in r.rows && Pairs(op, RightOf(w, op.right, op.mode), w.m, a, b, t)
    ensures t in Unary(op, w, r).value.rows
  {
    hide KeysMatch, Pick, RightFiltered, RightOf;
  }

  /** The anticipating semijoin changes nothing, in whatever mode the JOIN reads its right side. */
  lemma PrefilterIsNeutral(semi: Op, join: Op, w: World, r: Rel)
    requires IsPrefilter(semi, join) && DeltaFits(w.delta, w.full)
    ensures Then(join, w, Unary(semi, w, r)) == Unary(join, w, r)
  {
    hide KeysMatch, Pick, Passes;
    var n := join.right;
    if n in w.full {
      assert RightOf(w, n, join.mode).rows <= w.full[n].rows;
      var all := RightFiltered(semi.rightFilter, w.m, w.full[n]);
      var some := RightFiltered(join.rightFilter, w.m, RightOf(w, n, join.mode));
      assert some.rows <= all.rows;
      assert SemiRel(r, all, semi.keys, []).rows == set a | a in r.rows && HasPartner(a, all, semi.keys) by {
        assert forall a: Row :: Pick([], a) == a by { PickNothing(); }
      }
      SemiThenJoin(r, all, some, join.keys, join.project);
    }
  }

  lemma PickNothing()
    ensures forall a: Row :: Pick([], a) == a
  {}

  lemma SemiThenJoin(l: Rel, all: Rel, some: Rel, keys: Keys, project: seq<nat>)
    requires some.rows <= all.rows
    ensures JoinRel(SemiRel(l, all, keys, []), some, keys, project) == JoinRel(l, some, keys, project)
  {
    hide KeysMatch;
    PickNothing();
    var s := SemiRel(l, all, keys, []);
    hide Pick;
    assert forall a :: a in s.rows <==> a in l.rows && HasPartner(a, all, keys);
    var x, y := JoinRel(s, some, keys, project), JoinRel(l, some, keys, project);
    forall t | t in y.rows
      ensures t in x.rows
    {
      var a, b :| a in l.rows && b in some.rows && KeysMatch(keys, a, b) && t == Pick(project, a + b);
      assert HasPartner(a, all, keys);
    }
    assert x.rows == y.rows;
  }

  /** The setting of one step: old rows o, new rows in w.delta, and w.full at least their union g. */
  ghost predicate NewRows(idb: set<string>, o: Db, g: Db, w: World) {
    && Adds(o, w.delta, g, idb) && Grows(g, w.full, idb) && DeltaFits(w.delta, w.full) && !w.seed
    && forall n | n in w.delta :: n in idb
  }

  ghost predicate DerivedByDelta(ops: seq<Op>, idb: set<string>, w: World, p: int, t: Row)
    requires IsBody(ops)
  {
    && 0 <= p < |ops| && IsDeltaPos(ops[p], idb)
    && RunBody(Tagged(ops, idb, p), w).Some? && t in RunBody(Tagged(ops, idb, p), w).value.rows
  }

  /** The row is old, or some delta position derives it. */
  ghost predicate Covered(ops: seq<Op>, idb: set<string>, o: Db, w: World, t: Row)
    requires IsBody(ops)
  {
    var old_ := RunBody(ops, PlainWorld(o, w.m, w.reduce));
    (old_.Some? && t in old_.value.rows) || exists p :: DerivedByDelta(ops, idb, w, p, t)
  }

  /** Everything the induction needs about one body, all of it monotonicity. */
  lemma StepRuns(ops: seq<Op>, idb: set<string>, o: Db, g: Db, w: World)
    requires IsBody(ops) && Plain(ops) && Stratified(ops, idb) && NewRows(idb, o, g, w)
    requires RunBody(ops, PlainWorld(w.full, w.m, w.reduce)).Some?
    ensures BelowOpt(RunBody(ops, PlainWorld(g, w.m, w.reduce)), RunBody(ops, PlainWorld(w.full, w.m, w.reduce)))
    ensures BelowOpt(RunBody(ops, PlainWorld(o, w.m, w.reduce)), RunBody(ops, PlainWorld(g, w.m, w.reduce)))
    ensures forall p: int :: BelowOpt(RunBody(Tagged(ops, idb, p), w), RunBody(ops, PlainWorld(w.full, w.m, w.reduce)))
  {
    assert NegatesEarlier(ops, idb);
    hide RunBody, ReadsLess, Stratified;
    PlainReadsLess(ops, g, w.full, idb, w.m, w.reduce);
    PlainReadsLess(ops, o, g, idb, w.m, w.reduce);
    BodyBelow(ops, PlainWorld(g, w.m, w.reduce), ops, PlainWorld(w.full, w.m, w.reduce));
    BodyBelow(ops, PlainWorld(o, w.m, w.reduce), ops, PlainWorld(g, w.m, w.reduce));
    forall p: int
      ensures BelowOpt(RunBody(Tagged(ops, idb, p), w), RunBody(ops, PlainWorld(w.full, w.m, w.reduce)))
    {
      ModesReadLess(ops, TagModes(ops, idb, p), w);
      BodyBelow(Tagged(ops, idb, p), w, ops, PlainWorld(w.full, w.m, w.reduce));
    }
  }

  /** With its delta position beyond the end, a tagged body reads everything. */
  lemma TagBeyond(ops: seq<Op>, idb: set<string>, p: int, w: World)
    requires IsBody(ops) && Plain(ops) && DeltaFits(w.delta, w.full) && (p < 0 || p >= |ops|)
    ensures RunBody(Tagged(ops, idb, p), w) == RunBody(ops, PlainWorld(w.full, w.m, w.reduce))
  {
    hide RunBody;
    FullModesRun(ops, TagModes(ops, idb, p), w);
  }

  /** Where the last operator's input ends: a JOIN skips the semijoin that anticipates it. */
  function BaseLength(ops: seq<Op>, idb: set<string>): (k: nat)
    requires IsBody(ops) && |ops| >= 2
    ensures 1 <= k < |ops|
  {
    var n := |ops|;
    if n >= 3 && ops[n - 1].Join? && ops[n - 2].SemiJoin? && ops[n - 2].right in idb then n - 2 else n - 1
  }

  lemma BaseIsBody(ops: seq<Op>, idb: set<string>)
    requires IsBody(ops) && |ops| >= 2 && Plain(ops) && Stratified(ops, idb)
    ensures var base := ops[..BaseLength(ops, idb)];
            IsBody(base) && Plain(base) && Stratified(base, idb)
    ensures ops[|ops| - 1].SemiJoin? || ops[|ops| - 1].AntiJoin? ==> ops[|ops| - 1].right !in idb
  {
    var k := BaseLength(ops, idb);
    var base := ops[..k];
    forall i | 0 <= i < k && base[i].SemiJoin? && base[i].right in idb
      ensures i + 1 < k && IsPrefilter(base[i], base[i + 1])
    {
      assert IsPrefilter(ops[i], ops[i + 1]);
    }
  }

  /** The last operator, applied to its input, gives the body's relation, in every mode. */
  lemma RunFromBase(ops: seq<Op>, idb: set<string>, modes: seq<DeltaMode>, w: World)
    requires IsBody(ops) && |ops| >= 2 && |modes| == |ops| && Stratified(ops, idb) && DeltaFits(w.delta, w.full)
    ensures var k, n := BaseLength(ops, idb), |ops|;
            RunBody(Remode(ops, modes), w)
            == Then(SetMode(ops[n - 1], modes[n - 1]), w, RunBody(Remode(ops[..k], modes[..k]), w))
  {
    hide Unary, IsPrefilter;
    var k, n := BaseLength(ops, idb), |ops|;
    var r := Remode(ops, modes);
    assert r[..n - 1][..k] == Remode(ops[..k], modes[..k]) && r[..k] == Remode(ops[..k], modes[..k]);
    if k == n - 2 {
      assert IsPrefilter(ops[n - 2], ops[n - 1]);
      assert r[n - 2] == ops[n - 2];
      var base := RunBody(r[..k], w);
      assert RunBody(r[..n - 1], w) == Then(r[n - 2], w, base);
      if base.Some? {
        PrefilterModes(ops[n - 2], ops[n - 1], modes[n - 1]);
        PrefilterIsNeutral(r[n - 2], r[n - 1], w, base.value);
      }
    }
  }

  lemma PrefilterModes(semi: Op, join: Op, mode: DeltaMode)
    requires IsPrefilter(semi, join)
    ensures IsPrefilter(semi, SetMode(join, mode))
  {}

  lemma PlainFromBase(ops: seq<Op>, idb: set<string>, db: Db, m: Machine, reduce: (Reduction, Rel) -> Option<Rel>)
    requires IsBody(ops) && |ops| >= 2 && Plain(ops) && Stratified(ops, idb)
    ensures var w := PlainWorld(db, m, reduce);
            IsBody(ops[..BaseLength(ops, idb)])
            && RunBody(ops, w) == Then(ops[|ops| - 1], w, RunBody(ops[..BaseLength(ops, idb)], w))
  {
    hide RunBody, Unary, Stratified;
    var w, k, n := PlainWorld(db, m, reduce), BaseLength(ops, idb), |ops|;
    var autos := seq(n, _ => Auto);
    assert forall i | 0 <= i < n :: PlainOp(ops[i]) && SetMode(ops[i], Auto) == ops[i];
    assert Remode(ops, autos) == ops;
    assert Remode(ops[..k], autos[..k]) == ops[..k];
    RunFromBase(ops, idb, autos, w);
  }

  lemma TaggedFromBase(ops: seq<Op>, idb: set<string>, p: int, w: World)
    requires IsBody(ops) && |ops| >= 2 && Stratified(ops, idb) && DeltaFits(w.delta, w.full)
    ensures var k, n := BaseLength(ops, idb), |ops|;
            IsBody(ops[..k])
            && RunBody(Tagged(ops, idb, p), w)
               == Then(SetMode(ops[n - 1], TagMode(ops[n - 1], idb, p == n - 1)), w, RunBody(Tagged(ops[..k], idb, p), w))
  {
    hide RunBody, Unary, Stratified, Remode;
    var k, n := BaseLength(ops, idb), |ops|;
    assert TagModes(ops, idb, p)[..k] == TagModes(ops[..k], idb, p);
    RunFromBase(ops, idb, TagModes(ops, idb, p), w);
  }

  /** The step for a body that is only its source. */
  lemma StepSource(ops: seq<Op>, idb: set<string>, o: Db, g: Db, w: World, t: Row)
    requires IsBody(ops) && |ops| == 1 && Plain(ops) && Stratified(ops, idb) && NewRows(idb, o, g, w)
    requires RunBody(ops, PlainWorld(g, w.m, w.reduce)).Some? && t in RunBody(ops, PlainWorld(g, w.m, w.reduce)).value.rows
    ensures Covered(ops, idb, o, w, t)
  {
    hide LftjRuns, LftjRel;
    var op := ops[0];
    assert PlainOp(op);
    if op.Lftj? {
      LftjSame(PlainWorld(g, w.m, w.reduce), PlainWorld(o, w.m, w.reduce), op.rels, op.cols);
    } else if op.rel in idb && t !in o[op.rel].rows {
      assert t in DeltaRows(w.delta, op.rel);
      assert Tagged(ops, idb, 0)[0] == SetMode(op, ForceDelta);
      assert DerivedByDelta(ops, idb, w, 0, t);
    }
  }

  /** The last operator is not a JOIN: it carries one covered input row over. */
  lemma StepCarry(ops: seq<Op>, idb: set<string>, o: Db, g: Db, w: World, from: Row, t: Row)
    requires IsBody(ops) && |ops| >= 2 && Plain(ops) && Stratified(ops, idb) && NewRows(idb, o, g, w)
    requires RunBody(ops, PlainWorld(w.full, w.m, w.reduce)).Some?
    requires !ops[|ops| - 1].Join? && Carries(ops[|ops| - 1], PlainWorld(g, w.m, w.reduce), from, t)
    requires IsBody(ops[..|ops| - 1]) && Covered(ops[..|ops| - 1], idb, o, w, from)
    ensures Covered(ops, idb, o, w, t)
  {
    hide RunBody, Unary, Stratified, ReadsLess, Tagged, BaseLength, Carries;
    var n := |ops|;
    var op, base := ops[n - 1], ops[..n - 1];
    NotJoinBase(ops, idb);
    StepRuns(ops, idb, o, g, w);
    BaseIsBody(ops, idb);
    var wo := PlainWorld(o, w.m, w.reduce);
    PlainFromBase(ops, idb, o, w.m, w.reduce);
    var ro := RunBody(base, wo);
    if ro.Some? && from in ro.value.rows {
      CarriesSame(op, idb, o, g, PlainWorld(g, w.m, w.reduce), wo, from, t);
      RowCarried(op, wo, ro.value, from, t);
    } else {
      var p :| DerivedByDelta(base, idb, w, p, from);
      TaggedFromBase(ops, idb, p, w);
      var rp := RunBody(Tagged(base, idb, p), w);
      CarriesSame(op, idb, g, w.full, PlainWorld(g, w.m, w.reduce), w, from, t);
      RowCarried(op, w, rp.value, from, t);
      assert DerivedByDelta(ops, idb, w, p, t);
    }
  }

  /** Operators that read outside the stratum carry the same rows over in every step. */
  lemma CarriesSame(op: Op, idb: set<string>, small: Db, big: Db, u: World, w: World, from: Row, t: Row)
    requires IsChainOp(op) && (op.SemiJoin? || op.AntiJoin? ==> op.right !in idb)
    requires Grows(small, big, idb) && u.m == w.m
    requires (u.full == small && w.full == big) || (u.full == big && w.full == small)
    requires Carries(op, u, from, t)
    ensures Carries(op, w, from, t)
  {
    hide MapRow, RightFiltered, HasPartner, Pick, Passes;
    if op.SemiJoin? || op.AntiJoin? {
      var n := op.right;
      assert n in small ==> small[n] == Rel(small[n].width, small[n].rows) && small[n] == big[n];
    }
  }

  lemma NotJoinBase(ops: seq<Op>, idb: set<string>)
    requires IsBody(ops) && |ops| >= 2 && !ops[|ops| - 1].Join?
    ensures BaseLength(ops, idb) == |ops| - 1
    ensures !IsDeltaPos(ops[|ops| - 1], idb) && SetMode(ops[|ops| - 1], Auto) == ops[|ops| - 1]
  {}

  /** The last operator is a JOIN of a covered row a with a right row b. */
  lemma StepJoin(ops: seq<Op>, idb: set<string>, o: Db, g: Db, w: World, a: Row, b: Row, t: Row)
    requires IsBody(ops) && |ops| >= 2 && Plain(ops) && Stratified(ops, idb) && NewRows(idb, o, g, w)
    requires RunBody(ops, PlainWorld(w.full, w.m, w.reduce)).Some?
    requires ops[|ops| - 1].Join? && ops[|ops| - 1].right in g
    requires Pairs(ops[|ops| - 1], g[ops[|ops| - 1].right], w.m, a, b, t)
    requires IsBody(ops[..BaseLength(ops, idb)]) && Covered(ops[..BaseLength(ops, idb)], idb, o, w, a)
    requires RunBody(ops[..BaseLength(ops, idb)], PlainWorld(g, w.m, w.reduce)).Some?
    requires a in RunBody(ops[..BaseLength(ops, idb)], PlainWorld(g, w.m, w.reduce)).value.rows
    ensures Covered(ops, idb, o, w, t)
  {
    hide RunBody, Unary, Stratified, ReadsLess, Tagged, BaseLength, KeysMatch, Pick, RightFiltered;
    var n, k := |ops|, BaseLength(ops, idb);
    var op, base := ops[n - 1], ops[..k];
    assert PlainOp(op);
    StepRuns(ops, idb, o, g, w);
    BaseIsBody(ops, idb);
    var wo, wf := PlainWorld(o, w.m, w.reduce), PlainWorld(w.full, w.m, w.reduce);
    PlainFromBase(ops, idb, o, w.m, w.reduce);
    PlainFromBase(ops, idb, w.full, w.m, w.reduce);
    var ro := RunBody(base, wo);
    if exists p :: DerivedByDelta(base, idb, w, p, a) {
      var p :| DerivedByDelta(base, idb, w, p, a);
      TaggedFromBase(ops, idb, p, w);
      var modal := SetMode(op, TagMode(op, idb, false));
      RightRowGrows(op, g[op.right], w.full[op.right], w.m, a, b, t);
      JoinPaired(modal, w, RunBody(Tagged(base, idb, p), w).value, a, b, t);
      assert DerivedByDelta(ops, idb, w, p, t);
    } else if op.right !in idb || Pairs(op, o[op.right], w.m, a, b, t) {
      assert o[op.right].rows == g[op.right].rows || Pairs(op, o[op.right], w.m, a, b, t);
      JoinPaired(op, wo, ro.value, a, b, t);
    } else {
      // The right row is new: this JOIN is the delta position, and everything before it reads in full.
      RightRowNew(op, o[op.right], w.delta, g[op.right], w.m, a, b, t);
      TaggedFromBase(ops, idb, n - 1, w);
      TagBeyond(base, idb, n - 1, w);
      StepRuns(base, idb, o, g, w);
      var modal := SetMode(op, ForceDelta);
      JoinPaired(modal, w, RunBody(Tagged(base, idb, n - 1), w).value, a, b, t);
      assert DerivedByDelta(ops, idb, w, n - 1, t);
    }
  }

  lemma RightRowGrows(op: Op, r: Rel, s: Rel, m: Machine, a: Row, b: Row, t: Row)
    requires op.Join? && Below(r, s) && Pairs(op, r, m, a, b, t)
    ensures Pairs(op, s, m, a, b, t)
  {
    hide KeysMatch, Pick;
    FilterBelow(op.rightFilter, m, r, s);
  }

  lemma RightRowNew(op: Op, o: Rel, delta: Db, g: Rel, m: Machine, a: Row, b: Row, t: Row)
    requires op.Join? && g.rows == o.rows + DeltaRows(delta, op.right)
    requires Pairs(op, g, m, a, b, t) && !Pairs(op, o, m, a, b, t)
    ensures op.right in delta && delta[op.right].rows != {} && Pairs(op, delta[op.right], m, a, b, t)
  {
    hide KeysMatch, Pick, Passes;
  }

  /** The semi-naive step for one body. */
  lemma {:induction false} StepRow(ops: seq<Op>, idb: set<string>, o: Db, g: Db, w: World, t: Row)
    requires IsBody(ops) && Plain(ops) && Stratified(ops, idb) && NewRows(idb, o, g, w)
    requires RunBody(ops, PlainWorld(w.full, w.m, w.reduce)).Some?
    requires RunBody(ops, PlainWorld(g, w.m, w.reduce)).Some? && t in RunBody(ops, PlainWorld(g, w.m, w.reduce)).value.rows
    ensures Covered(ops, idb, o, w, t)
    decreases |ops|
  {
    hide RunBody, Unary, Stratified, ReadsLess, Tagged, BaseLength, Covered, NewRows, Carries, Pairs;
    if |ops| == 1 {
      StepSource(ops, idb, o, g, w, t);
    } else {
      var n, k := |ops|, BaseLength(ops, idb);
      var op, base := ops[n - 1], ops[..k];
      var wg := PlainWorld(g, w.m, w.reduce);
      BaseIsBody(ops, idb);
      PlainFromBase(ops, idb, g, w.m, w.reduce);
      PlainFromBase(ops, idb, w.full, w.m, w.reduce);
      var rg := RunBody(base, wg).value;
      if op.Join? {
        var a, b := JoinOrigin(op, wg, rg, t);
        StepRow(base, idb, o, g, w, a);
        assert PlainOp(op);
        StepJoin(ops, idb, o, g, w, a, b, t);
      } else {
        NotJoinBase(ops, idb);
        var from := RowOrigin(op, wg, rg, t);
        StepRow(base, idb, o, g, w, from);
        StepCarry(ops, idb, o, g, w, from, t);
      }
    }
  }
}
