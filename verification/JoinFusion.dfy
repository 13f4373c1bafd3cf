/**
 * Folding a projection into the JOIN before it (wirelog/exec_plan_gen.c).
 *
 * A MAP that only picks columns is merged into a directly preceding JOIN by composing
 * the two index lists, in place, over the whole operator list. The rewriter recognises
 * such a MAP from the bytes of its column expressions, reading the digits of "colN" in
 * 32-bit arithmetic; the evaluator reads at most fifteen of them and does not wrap.
 */
module JoinFusion {
  import opened Bytes
  import opened Expr
  import opened Machine
  import opened Postfix
  import opened Naming
  import opened Plan
  import Seqs

  // ---- recognising a projection ----------------------------------------------------

  /** The digits of a name, accumulated in 32 bits. */
  function WrappedNumber(d: Text): nat
    requires AllDigits(d)
  {
    if d == [] then 0 else (10 * WrappedNumber(d[..|d| - 1]) + d[|d| - 1] - 48) % TWO32
  }

  /** The bytes of one instruction that reads "colN", with N (wrapped) the given index. */
  predicate ReadsColumn(e: Text, index: nat) {
    && |e| > 6 && e[0] == VAR && LeValue(e[1..3]) + 3 == |e| && e[3..6] == COL
    && AllDigits(e[6..]) && WrappedNumber(e[6..]) == index
  }

  predicate IsProjection(op: Op) {
    && op.Map? && op.indices != []
    && (op.exprs == [] ||
        (|op.exprs| == |op.indices|
         && forall i | 0 <= i < |op.exprs| :: op.exprs[i] == [] || ReadsColumn(op.exprs[i], op.indices[i])))
  }

  /** Every column expression names, to the evaluator, the index the rewriter uses. */
  predicate NamesAgree(op: Op)
    requires IsProjection(op)
  {
    forall i | 0 <= i < |op.exprs| && op.exprs[i] != [] :: VarColumn(op.exprs[i][3..]) == op.indices[i]
  }

  method ColumnRead(e: Text, index: nat) returns (yes: bool)
    ensures yes == ReadsColumn(e, index)
  {
    if |e| < 4 || e[0] != VAR {
      return false;
    }
    var len := LeValue(e[1..3]);
    if len + 3 != |e| || len <= 3 {
      return false;
    }
    assert e[3..6] == [e[3], e[4], e[5]];
    if e[3] != COL[0] || e[4] != COL[1] || e[5] != COL[2] {
      return false;
    }
    var col, p := 0, 6;
    while p < |e|
      invariant 6 <= p <= |e|
      invariant AllDigits(e[6..p]) && col == WrappedNumber(e[6..p])
    {
      if !IsDigit(e[p]) {
        assert e[6..][p - 6] == e[p];
        return false;
      }
      assert e[6..p + 1][..p - 6] == e[6..p];
      col := (10 * col + e[p] - 48) % TWO32;
      p := p + 1;
    }
    assert e[6..p] == e[6..];
    return col == index;
  }

  method PureProjection(op: Op) returns (yes: bool)
    ensures yes == IsProjection(op)
  {
    hide ReadsColumn;
    if !op.Map? || op.indices == [] {
      return false;
    }
    if op.exprs == [] {
      return true;
    }
    if |op.exprs| != |op.indices| {
      return false;
    }
    var i := 0;
    while i < |op.exprs|
      invariant i <= |op.exprs|
      invariant forall k | 0 <= k < i :: op.exprs[k] == [] || ReadsColumn(op.exprs[k], op.indices[k])
    {
      if op.exprs[i] != [] {
        var matches := ColumnRead(op.exprs[i], op.indices[i]);
        if !matches {
          return false;
        }
      }
      i := i + 1;
    }
    return true;
  }

  // ---- what a recognised projection computes -----------------------------------------

  lemma WrapOnce(x: nat, digit: int)
    ensures (10 * (x % TWO32) + digit) % TWO32 == (10 * x + digit) % TWO32
  {
    var q := x / TWO32;
    assert 10 * x + digit == 10 * (x % TWO32) + digit + TWO32 * (10 * q);
  }

  lemma {:induction false} WrappedIsModulo(d: Text)
    requires AllDigits(d)
    ensures WrappedNumber(d) == DigitsValue(d) % TWO32
  {
    if d != [] {
      var init := d[..|d| - 1];
      WrappedIsModulo(init);
      WrapOnce(DigitsValue(init), d[|d| - 1] - 48);
    }
  }

  /** The evaluator's reading of a recognised name: its first fifteen digits. */
  lemma NameReads(e: Text, index: nat)
    requires ReadsColumn(e, index)
    ensures VarColumn(e[3..]) == DigitsValue(e[6..if |e| > 21 then 21 else |e|])
  {
    var name := e[3..];
    var k := if |e| > 21 then 21 else |e|;
    assert name[..3] == e[3..6];
    assert name[3..if |name| > 18 then 18 else |name|] == e[6..k];
    assert forall i | 0 <= i < |e[6..k]| :: e[6..k][i] == e[6..][i];
    LeadingNumberOfDigits(e[6..k]);
  }

  /** The two readings agree exactly when the digits, fifteen of them, spell the wrapped value. */
  lemma AgreeWhen(e: Text, index: nat)
    requires ReadsColumn(e, index)
    ensures VarColumn(e[3..]) == index <==>
            DigitsValue(e[6..if |e| > 21 then 21 else |e|]) == DigitsValue(e[6..]) % TWO32
  {
    NameReads(e, index);
    WrappedIsModulo(e[6..]);
  }

  /** Column expressions as the planner emits them, "colN" with N a 32-bit index, always agree. */
  lemma EmittedAgrees(e: Text, n: nat, index: nat)
    requires n < TWO32 && ReadsColumn(e, index) && e[3..] == ColName(n)
    ensures index == n && VarColumn(e[3..]) == index
  {
    hide Decimal, DigitsValue, WrappedNumber, LeValue, VarColumn;
    ColNameReadsColumn(n);
    Seqs.DropDrop(e, 3, 3);
    assert e[6..] == Decimal(n);
    DecimalRoundTrip(n);
    WrappedIsModulo(e[6..]);
  }

  /** A recognised expression never fails, and reads the column its name spells. */
  lemma ColumnEval(e: Text, index: nat, m: Machine, row: Row)
    requires ReadsColumn(e, index)
    ensures Eval(e, m, row) == Some(Cell(row, VarColumn(e[3..])))
  {
    var tok := VarTok(VAR, e[3..]);
    Pow256Values();
    LeValueBound(e[1..3]);
    LeBytesOfValue(e[1..3]);
    assert e == EncodeToken(tok) by {
      assert e[1..3] == LeBytes(|e[3..]|, 2);
      assert e == [e[0]] + (e[1..3] + e[3..]);
    }
    RunToken(tok, [], m, row, []);
    assert EncodeToken(tok) + [] == e;
    assert [] + [Cell(row, VarColumn(e[3..]))] == [Cell(row, VarColumn(e[3..]))];
  }

  lemma ProjectionCell(op: Op, m: Machine, row: Row, c: nat)
    requires IsProjection(op) && NamesAgree(op) && c < |op.indices|
    ensures MapCell(op, m, row, c) == Some(Cell(row, op.indices[c]))
  {
    hide Eval, ReadsColumn, VarColumn;
    if c < |op.exprs| && op.exprs[c] != [] {
      ColumnEval(op.exprs[c], op.indices[c], m, row);
    }
  }

  lemma ProjectionRow(op: Op, m: Machine, row: Row)
    requires IsProjection(op) && NamesAgree(op)
    ensures MapDefined(op, m, row) && MapRow(op, m, row) == Project(op.indices, row)
  {
    hide MapCell, NamesAgree;
    forall c | 0 <= c < |op.indices|
      ensures MapCell(op, m, row, c) == Some(Cell(row, op.indices[c]))
    {
      ProjectionCell(op, m, row, c);
    }
  }

  // ---- composing ---------------------------------------------------------------------

  /** Indices into a JOIN's output, as indices into its row pair. None: beyond its own projection. */
  function Composed(project: seq<nat>, indices: seq<nat>): Option<seq<nat>> {
    if project == [] then Some(indices)
    else if forall i | 0 <= i < |indices| :: indices[i] < |project|
    then Some(seq(|indices|, i requires 0 <= i < |indices| => project[indices[i]]))
    else None
  }

  function Projecting(join: Op, project: seq<nat>): Op
    requires join.Join?
  {
    Join(join.right, join.keys, join.rightFilter, project, join.mode)
  }

  method ComposeProjection(project: seq<nat>, indices: seq<nat>) returns (r: Option<seq<nat>>)
    ensures r == Composed(project, indices)
  {
    var out: seq<nat>, i := [], 0;
    while i < |indices|
      invariant i <= |indices| && |out| == i
      invariant forall k | 0 <= k < i ::
        if project == [] then out[k] == indices[k]
        else indices[k] < |project| && out[k] == project[indices[k]]
    {
      if project != [] {
        if indices[i] >= |project| {
          return None;
        }
        out := out + [project[indices[i]]];
      } else {
        out := out + [indices[i]];
      }
      i := i + 1;
    }
    if project == [] {
      assert out == indices;
    } else {
      assert out == Composed(project, indices).value;
    }
    return Some(out);
  }

  lemma PickThenProject(project: seq<nat>, indices: seq<nat>, row: Row)
    requires indices != [] && Composed(project, indices).Some?
    ensures Project(indices, Pick(project, row)) == Pick(Composed(project, indices).value, row)
  {}

  /** Rows of a JOIN, mapped by an agreeing projection, are the rows of the composed JOIN. */
  lemma MappedRows(l: Rel, r: Rel, keys: Keys, project: seq<nat>, op: Op, m: Machine)
    requires IsProjection(op) && NamesAgree(op) && Composed(project, op.indices).Some?
    ensures (set t | t in JoinRel(l, r, keys, project).rows :: MapRow(op, m, t))
         == JoinRel(l, r, keys, Composed(project, op.indices).value).rows
  {
    var f := Composed(project, op.indices).value;
    var j, fused := JoinRel(l, r, keys, project), JoinRel(l, r, keys, f);
    hide MapRow, NamesAgree, Composed, Pick, Project, KeysMatch, ReadsColumn;
    forall a, b | a in l.rows && b in r.rows && KeysMatch(keys, a, b)
      ensures MapRow(op, m, Pick(project, a + b)) == Pick(f, a + b)
    {
      ProjectionRow(op, m, Pick(project, a + b));
      PickThenProject(project, op.indices, a + b);
    }
    forall t | t in j.rows
      ensures MapRow(op, m, t) in fused.rows
    {
      var a, b :| a in l.rows && b in r.rows && KeysMatch(keys, a, b) && t == Pick(project, a + b);
      assert Pick(f, a + b) in fused.rows;
    }
    forall t | t in fused.rows
      ensures t in (set u | u in j.rows :: MapRow(op, m, u))
    {
      var a, b :| a in l.rows && b in r.rows && KeysMatch(keys, a, b) && t == Pick(f, a + b);
      assert Pick(project, a + b) in j.rows;
    }
  }

  lemma MappedJoin(l: Rel, r: Rel, keys: Keys, project: seq<nat>, op: Op, m: Machine)
    requires IsProjection(op) && NamesAgree(op) && Composed(project, op.indices).Some?
    ensures MapRel(op, m, JoinRel(l, r, keys, project))
         == Some(JoinRel(l, r, keys, Composed(project, op.indices).value))
  {
    MappedRows(l, r, keys, project, op, m);
    var j := JoinRel(l, r, keys, project);
    assert |Composed(project, op.indices).value| == |op.indices|;
    hide MapRow, NamesAgree, Composed, MapDefined, ReadsColumn;
    forall t | t in j.rows
      ensures MapDefined(op, m, t)
    {
      ProjectionRow(op, m, t);
    }
  }

  lemma MappedEmpty(op: Op, m: Machine, width: nat)
    requires op.Map?
    ensures MapRel(op, m, Rel(width, {})) == Some(Rel(|op.indices|, {}))
  {
    hide MapRow, MapDefined;
    var r := MapRel(op, m, Rel(width, {}));
    assert r.Some? && forall t :: t !in r.value.rows;
    assert r.value.rows == {};
  }

  lemma UnaryFuses(join: Op, op: Op, w: World, l: Rel)
    requires join.Join? && IsProjection(op) && NamesAgree(op) && Composed(join.project, op.indices).Some?
    ensures Unary(join, w, l).Some?
    ensures Unary(op, w, Unary(join, w, l).value)
         == Unary(Projecting(join, Composed(join.project, op.indices).value), w, l)
  {
    if join.right in w.full {
      MappedJoin(l, RightFiltered(join.rightFilter, w.m, RightOf(w, join.right, join.mode)), join.keys, join.project, op, w.m);
      hide JoinRel, MapRel, Composed, NamesAgree, RightFiltered, RightOf, ReadsColumn;
    } else {
      MappedEmpty(op, w.m, OutWidth(join.project, l.width));
      assert |Composed(join.project, op.indices).value| == |op.indices|;
    }
  }

  /** A JOIN followed by an agreeing projection computes what the fused JOIN computes, anywhere. */
  lemma PairFuses(join: Op, op: Op, w: World, stack: seq<Rel>)
    requires join.Join? && IsProjection(op) && NamesAgree(op) && Composed(join.project, op.indices).Some?
    ensures RunOps([join, op], w, stack)
         == RunOps([Projecting(join, Composed(join.project, op.indices).value)], w, stack)
  {
    hide Unary, RunOps, Composed, NamesAgree, ReadsColumn;
    var f := Projecting(join, Composed(join.project, op.indices).value);
    RunPair(join, op, w, stack);
    RunOne(f, w, stack);
    if stack != [] {
      var top, under := stack[|stack| - 1], stack[..|stack| - 1];
      UnaryFuses(join, op, w, top);
      var mid := under + [Unary(join, w, top).value];
      assert mid[..|mid| - 1] == under;
    }
  }

  lemma RunPair(a: Op, b: Op, w: World, stack: seq<Rel>)
    ensures RunOps([a, b], w, stack) ==
            match Exec(a, w, stack)
            case None => None
            case Some(st) => Exec(b, w, st)
  {
    hide Exec;
    assert [a, b] == [a] + [b];
    RunConcat([a], [b], w, stack);
    RunOne(a, w, stack);
    match Exec(a, w, stack)
    case None =>
    case Some(st) => RunOne(b, w, st);
  }

  // ---- the pass over a list ------------------------------------------------------------

  predicate Fusible(ops: seq<Op>, i: nat) {
    i + 1 < |ops| && ops[i].Join? && IsProjection(ops[i + 1])
  }

  /** The list with the pair at i replaced by one JOIN. */
  function Shrunk(ops: seq<Op>, i: nat, project: seq<nat>): seq<Op>
    requires Fusible(ops, i)
  {
    ops[..i] + [Projecting(ops[i], project)] + ops[i + 2..]
  }

  /** The scan: fuse at i as long as possible, then move on. None: a composition failed. */
  function FuseFrom(ops: seq<Op>, i: nat): Option<seq<Op>>
    decreases |ops| - i
  {
    if i + 1 >= |ops| then Some(ops)
    else if !Fusible(ops, i) then FuseFrom(ops, i + 1)
    else match Composed(ops[i].project, ops[i + 1].indices)
         case None => None
         case Some(p) => FuseFrom(Shrunk(ops, i, p), i)
  }

  predicate AllAgree(ops: seq<Op>) {
    forall i | 0 <= i < |ops| :: IsProjection(ops[i]) ==> NamesAgree(ops[i])
  }

  lemma ShrunkRuns(ops: seq<Op>, i: nat, w: World, stack: seq<Rel>)
    requires Fusible(ops, i) && NamesAgree(ops[i + 1]) && Composed(ops[i].project, ops[i + 1].indices).Some?
    ensures RunOps(Shrunk(ops, i, Composed(ops[i].project, ops[i + 1].indices).value), w, stack) == RunOps(ops, w, stack)
  {
    hide RunOps, ReadsColumn, NamesAgree, Composed;
    var p := Composed(ops[i].project, ops[i + 1].indices).value;
    var pre, pair, one, post := ops[..i], [ops[i], ops[i + 1]], [Projecting(ops[i], p)], ops[i + 2..];
    assert ops == pre + (pair + post);
    assert Shrunk(ops, i, p) == pre + (one + post);
    RunConcat(pre, pair + post, w, stack);
    RunConcat(pre, one + post, w, stack);
    match RunOps(pre, w, stack)
    case None =>
    case Some(st) =>
      RunConcat(pair, post, w, st);
      RunConcat(one, post, w, st);
      PairFuses(ops[i], ops[i + 1], w, st);
  }

  lemma ShrunkAgrees(ops: seq<Op>, i: nat, project: seq<nat>)
    requires Fusible(ops, i) && AllAgree(ops)
    ensures AllAgree(Shrunk(ops, i, project))
  {
    hide NamesAgree, ReadsColumn;
    var s := Shrunk(ops, i, project);
    assert forall k | 0 <= k < |s| :: s[k] == (if k < i then ops[k] else if k == i then s[i] else ops[k + 1]);
    assert !IsProjection(s[i]);
  }

  /**
   * The pass preserves meaning: in every world and from every stack the rewritten list
   * computes what the original computed, and no JOIN is left in front of a projection.
   */
  lemma {:induction false} FusePreserves(ops: seq<Op>, i: nat, w: World, stack: seq<Rel>)
    requires AllAgree(ops) && FuseFrom(ops, i).Some?
    requires forall k | 0 <= k < i :: !Fusible(ops, k)
    ensures RunOps(FuseFrom(ops, i).value, w, stack) == RunOps(ops, w, stack)
    ensures forall k: nat :: !Fusible(FuseFrom(ops, i).value, k)
    ensures |FuseFrom(ops, i).value| <= |ops|
    decreases |ops| - i
  {
    hide RunOps, AllAgree, Composed, ReadsColumn;
    if i + 1 >= |ops| {
    } else if !Fusible(ops, i) {
      FusePreserves(ops, i + 1, w, stack);
    } else {
      FuseHere(ops, i);
      var p := Composed(ops[i].project, ops[i + 1].indices).value;
      ShrunkRuns(ops, i, w, stack);
      ShrunkAgrees(ops, i, p);
      ShrunkClean(ops, i, p);
      FusePreserves(Shrunk(ops, i, p), i, w, stack);
    }
  }

  lemma FuseHere(ops: seq<Op>, i: nat)
    requires AllAgree(ops) && FuseFrom(ops, i).Some? && Fusible(ops, i)
    ensures NamesAgree(ops[i + 1]) && Composed(ops[i].project, ops[i + 1].indices).Some?
  {}

  lemma ShrunkClean(ops: seq<Op>, i: nat, project: seq<nat>)
    requires Fusible(ops, i) && forall k | 0 <= k < i :: !Fusible(ops, k)
    ensures forall k | 0 <= k < i :: !Fusible(Shrunk(ops, i, project), k)
  {
    hide NamesAgree, ReadsColumn;
    var s := Shrunk(ops, i, project);
    assert s[i].Join? && !IsProjection(s[i]);
    forall k | 0 <= k < i
      ensures !Fusible(s, k)
    {
      assert s[k] == ops[k];
      if k + 1 < i {
        assert s[k + 1] == ops[k + 1] && !Fusible(ops, k);
      }
    }
  }

  /** A run of projections composes onto a JOIN's own. */
  predicate Composes(project: seq<nat>, rest: seq<Op>)
    decreases |rest|
  {
    rest != [] && IsProjection(rest[0]) ==>
      match Composed(project, rest[0].indices)
      case None => false
      case Some(p) => Composes(p, rest[1..])
  }

  predicate ComposesFrom(ops: seq<Op>, i: nat) {
    forall k | i <= k < |ops| && ops[k].Join? :: Composes(ops[k].project, ops[k + 1..])
  }

  lemma ShrunkComposes(ops: seq<Op>, i: nat, project: seq<nat>)
    requires Fusible(ops, i) && Composed(ops[i].project, ops[i + 1].indices) == Some(project)
    ensures ComposesFrom(Shrunk(ops, i, project), i) <==> ComposesFrom(ops, i)
  {
    hide ReadsColumn, Composed, NamesAgree;
    var s := Shrunk(ops, i, project);
    assert forall k | i < k < |s| :: s[k] == ops[k + 1] && s[k + 1..] == ops[k + 2..];
    assert s[i + 1..] == ops[i + 2..] == ops[i + 1..][1..];
    assert Composes(s[i].project, s[i + 1..]) <==> Composes(ops[i].project, ops[i + 1..]);
    forall k | i <= k < |ops| && ops[k].Join? && ComposesFrom(s, i)
      ensures Composes(ops[k].project, ops[k + 1..])
    {
      if k > i {
        assert s[k - 1] == ops[k] && s[k..] == ops[k + 1..];
      }
    }
    forall k | i <= k < |s| && s[k].Join? && ComposesFrom(ops, i)
      ensures Composes(s[k].project, s[k + 1..])
    {
    }
  }

  /** The pass succeeds exactly when every run of projections composes onto the JOIN before it. */
  lemma {:induction false} FuseSucceedsIff(ops: seq<Op>, i: nat)
    ensures FuseFrom(ops, i).Some? <==> ComposesFrom(ops, i)
    decreases |ops| - i
  {
    hide ReadsColumn, Composed, NamesAgree;
    if i >= |ops| {
    } else if i + 1 == |ops| {
    } else if !Fusible(ops, i) {
      FuseSucceedsIff(ops, i + 1);
      assert ops[i].Join? ==> Composes(ops[i].project, ops[i + 1..]);
    } else {
      assert ops[i + 1..][0] == ops[i + 1];
      match Composed(ops[i].project, ops[i + 1].indices)
      case None =>
        assert !Composes(ops[i].project, ops[i + 1..]);
      case Some(p) =>
        FuseSucceedsIff(Shrunk(ops, i, p), i);
        ShrunkComposes(ops, i, p);
    }
  }

  // ---- exactly when a projection is safe to fuse ---------------------------------------

  /** Fusing this projection into any JOIN leaves every run as it was. */
  ghost predicate SafeToFuse(op: Op)
    requires IsProjection(op)
  {
    forall join: Op, w: World, stack: seq<Rel> | join.Join? && Composed(join.project, op.indices).Some? ::
      FusesAt(join, op, w, stack)
  }

  ghost predicate FusesAt(join: Op, op: Op, w: World, stack: seq<Rel>)
    requires join.Join? && IsProjection(op) && Composed(join.project, op.indices).Some?
  {
    RunOps([join, op], w, stack) == RunOps([Projecting(join, Composed(join.project, op.indices).value)], w, stack)
  }

  /** A row whose cells all differ, and differ from the 0 read beyond it. */
  function Distinct(n: nat): Row { seq(n, i requires 0 <= i < n => i + 1) }

  lemma DistinctTells(op: Op, m: Machine, n: nat, c: nat)
    requires IsProjection(op) && c < |op.exprs| && op.exprs[c] != [] && VarColumn(op.exprs[c][3..]) != op.indices[c]
    requires op.indices[c] < n
    ensures MapRow(op, m, Distinct(n)) != Project(op.indices, Distinct(n))
  {
    hide Eval, VarColumn, ReadsColumn;
    ColumnEval(op.exprs[c], op.indices[c], m, Distinct(n));
    assert MapRow(op, m, Distinct(n))[c] != Project(op.indices, Distinct(n))[c];
  }

  lemma JoinOne(row: Row, p: seq<nat>)
    ensures JoinRel(Rel(|row|, {row}), Rel(0, {[]}), [], p) == Rel(OutWidth(p, |row|), {Pick(p, row)})
  {
    var empty: Row := [];
    assert row + empty == row;
    assert KeysMatch([], row, empty);
    hide Pick, KeysMatch;
    var l, r := Rel(|row|, {row}), Rel(0, {empty});
    var rows := set a, b | a in l.rows && b in r.rows && KeysMatch([], a, b) :: Pick(p, a + b);
    assert Pick(p, row + empty) in rows;
    assert rows == {Pick(p, row)};
    assert JoinRel(l, r, [], p).rows == rows;
  }

  lemma MapOne(op: Op, m: Machine, row: Row)
    requires op.Map?
    ensures MapRel(op, m, Rel(|row|, {row})).Some? ==>
            MapRel(op, m, Rel(|row|, {row})).value.rows == {MapRow(op, m, row)}
  {
    hide MapRow, MapDefined;
    var one := {row};
    assert (set t | t in one :: MapRow(op, m, t)) == {MapRow(op, m, row)};
  }

  function OpenJoin(project: seq<nat>): Op { Join("r", [], [], project, Auto) }

  lemma OpenJoinRuns(p: seq<nat>, w: World, row: Row)
    requires "r" in w.full && w.full["r"] == Rel(0, {[]})
    ensures Exec(OpenJoin(p), w, [Rel(|row|, {row})]) == Some([Rel(OutWidth(p, |row|), {Pick(p, row)})])
  {
    hide JoinRel, Pick;
    JoinOne(row, p);
    var l := Rel(|row|, {row});
    var under: seq<Rel> := [l][..0];
    assert Unary(OpenJoin(p), w, l) == Some(Rel(OutWidth(p, |row|), {Pick(p, row)}));
    assert under + [Rel(OutWidth(p, |row|), {Pick(p, row)})] == [Rel(OutWidth(p, |row|), {Pick(p, row)})];
  }

  lemma MapRuns(op: Op, w: World, l: Rel)
    requires op.Map?
    ensures Exec(op, w, [l]) == (match MapRel(op, w.m, l) case None => None case Some(r) => Some([r]))
  {
    hide MapRel;
    var under: seq<Rel> := [l][..0];
    assert Unary(op, w, l) == MapRel(op, w.m, l);
    match MapRel(op, w.m, l)
    case None =>
    case Some(r) => assert under + [r] == [r];
  }

  /** One row joined with the empty row, no keys, then the projection. */
  lemma OneRow(op: Op, c: nat, w: World, n: nat)
    requires IsProjection(op) && c < |op.exprs| && op.exprs[c] != [] && VarColumn(op.exprs[c][3..]) != op.indices[c]
    requires op.indices[c] < n && "r" in w.full && w.full["r"] == Rel(0, {[]})
    ensures !FusesAt(OpenJoin([]), op, w, [Rel(n, {Distinct(n)})])
  {
    hide RunOps, Exec, MapRow, Project, ReadsColumn, Distinct, Eval, VarColumn, MapRel;
    var row := Distinct(n);
    DistinctTells(op, w.m, n, c);
    LengthOf(n);
    var l := Rel(n, {row});
    RunPair(OpenJoin([]), op, w, [l]);
    RunOne(OpenJoin(op.indices), w, [l]);
    OpenJoinRuns([], w, row);
    OpenJoinRuns(op.indices, w, row);
    MapRuns(op, w, l);
    MapOne(op, w.m, row);
    var want := Rel(|op.indices|, {Project(op.indices, row)});
    assert Project(op.indices, row) in want.rows && Project(op.indices, row) !in {MapRow(op, w.m, row)};
    match MapRel(op, w.m, l)
    case None =>
    case Some(got) => assert [got][0] != [want][0];
  }

  lemma LengthOf(n: nat)
    ensures |Distinct(n)| == n
  {}

  /** Safe exactly when the evaluator and the rewriter read the same columns. */
  lemma SafeIffNamesAgree(op: Op, w: World)
    requires IsProjection(op)
    ensures SafeToFuse(op) <==> NamesAgree(op)
  {
    if NamesAgree(op) {
      forall join: Op, v: World, stack: seq<Rel> | join.Join? && Composed(join.project, op.indices).Some?
        ensures FusesAt(join, op, v, stack)
      {
        PairFuses(join, op, v, stack);
      }
    } else {
      var c :| 0 <= c < |op.exprs| && op.exprs[c] != [] && VarColumn(op.exprs[c][3..]) != op.indices[c];
      var v := w.(full := map["r" := Rel(0, {[]})]);
      OneRow(op, c, v, op.indices[c] + 1);
    }
  }

  /** The bytes of a variable instruction. */
  lemma NameBytes(name: Text)
    requires |name| < 65536
    ensures var e := EncodeToken(VarTok(VAR, name));
            |e| == 3 + |name| && e[0] == VAR && LeValue(e[1..3]) == |name| && e[3..] == name
  {
    Pow256Values();
    LeRoundTrip(|name|, 2);
    hide LeBytes, LeValue;
    var e := EncodeToken(VarTok(VAR, name));
    assert e[1..3] == LeBytes(|name|, 2);
  }

  lemma FifteenDigits(n: nat)
    requires n < 1_000_000_000_000_000
    ensures |Decimal(n)| <= 15
  {
    assert Pow10(3) == 1000;
    assert Pow10(6) == 1_000_000;
    assert Pow10(9) == 1_000_000_000;
    assert Pow10(12) == 1_000_000_000_000;
    assert Pow10(15) == 1_000_000_000_000_000;
    DecimalLength(n, 15);
  }

  /** A name that spells a column of 2^32 or more is taken for a smaller one: "col4294967296" for 0. */
  lemma WideNameMisread(n: nat)
    requires TWO32 <= n < 1_000_000_000_000_000
    ensures |ColName(n)| < 65536
    ensures var op := Map([n % TWO32], [EncodeToken(VarTok(VAR, ColName(n)))]);
            IsProjection(op) && !NamesAgree(op)
  {
    FifteenDigits(n);
    NameBytes(ColName(n));
    DecimalRoundTrip(n);
    hide Decimal, DigitsValue, LeValue, EncodeToken, VarColumn;
    var e := EncodeToken(VarTok(VAR, ColName(n)));
    Seqs.DropDrop(e, 3, 3);
    assert e[6..] == Decimal(n);
    assert e[3..6] == ColName(n)[..3] == COL;
    WrappedIsModulo(Decimal(n));
    assert ReadsColumn(e, n % TWO32);
    NameReads(e, n % TWO32);
    assert e[6..|e|] == Decimal(n);
    var op := Map([n % TWO32], [e]);
    assert op.exprs[0] == e && op.exprs[0] != [];
  }

  // ---- the pass in place ------------------------------------------------------------------

  /** Close the gap at i + 1 and drop the last slot. */
  method ShiftDown(ops: array<Op>, i: nat, count: nat)
    requires i + 1 < count <= ops.Length
    modifies ops
    ensures forall k | 0 <= k <= i :: ops[k] == old(ops[k])
    ensures forall k | i < k < count - 1 :: ops[k] == old(ops[k + 1])
    ensures forall k | count <= k < ops.Length :: ops[k] == old(ops[k])
  {
    var j := i + 1;
    while j + 1 < count
      invariant i + 1 <= j < count
      invariant forall k | 0 <= k <= i :: ops[k] == old(ops[k])
      invariant forall k | i < k < j :: ops[k] == old(ops[k + 1])
      invariant forall k | j <= k < ops.Length :: ops[k] == old(ops[k])
    {
      ops[j] := ops[j + 1];
      j := j + 1;
    }
  }

  method FuseAt(ops: array<Op>, i: nat, count: nat, project: seq<nat>)
    requires count <= ops.Length && Fusible(ops[..count], i)
    modifies ops
    ensures ops[..count - 1] == Shrunk(old(ops[..count]), i, project)
    ensures ops[count..] == old(ops[count..])
  {
    hide IsProjection;
    ghost var was := ops[..count];
    ghost var s := Shrunk(was, i, project);
    ops[i] := Projecting(ops[i], project);
    ShiftDown(ops, i, count);
    forall k | 0 <= k < count - 1
      ensures ops[k] == s[k]
    {
      if k > i {
        assert ops[k] == was[k + 1];
      }
    }
  }

  /** The pass over an operator array; returns the new count, or fails with the list half done. */
  method RewriteJoinProjectFusion(ops: array<Op>, count: nat) returns (ok: bool, n: nat)
    requires count <= ops.Length
    modifies ops
    ensures ok == FuseFrom(old(ops[..count]), 0).Some?
    ensures ok ==> n <= count && ops[..n] == FuseFrom(old(ops[..count]), 0).value
    ensures ops[count..] == old(ops[count..])
  {
    hide IsProjection, Composed;
    n := count;
    var i := 0;
    while i + 1 < n
      invariant i <= n <= count
      invariant FuseFrom(ops[..n], i) == FuseFrom(old(ops[..count]), 0)
      invariant ops[count..] == old(ops[count..])
      decreases n - i
    {
      ghost var was := ops[..n];
      var pure := false;
      if ops[i].Join? {
        pure := PureProjection(ops[i + 1]);
      }
      if !pure {
        assert !Fusible(was, i);
        i := i + 1;
      } else {
        assert Fusible(was, i);
        IsMap(ops[i + 1]);
        var p := ComposeProjection(ops[i].project, ops[i + 1].indices);
        if p.None? {
          return false, n;
        }
        FuseAt(ops, i, n, p.value);
        n := n - 1;
      }
    }
    ok := true;
  }

  lemma IsMap(op: Op)
    requires IsProjection(op)
    ensures op.Map?
  {}
}
