/**
 * What a leapfrog join may swallow.
 *
 * A leapfrog join is no delta position. When the chain it replaced names a relation of the
 * stratum being iterated, rows that need a new row there and old rows at the delta
 * positions are never derived. A leapfrog join is safe in front of every continuation
 * exactly when it names no relation of the stratum.
 */
module Swallowed {
  import opened Bytes
  import opened Machine
  import opened Postfix
  import opened Plan
  import opened RuleBodies
  import opened DeltaStep
  import opened KFusion
  import SN = SemiNaive
  import F = Lftj

  // ---- what one step may lose ---------------------------------------------------------------

  type Reducer = (Reduction, Rel) -> Option<Rel>

  /** A step of the iteration in which the list runs before, now and on everything known. */
  ghost predicate IsStep(ops: seq<Op>, idb: set<string>, o: Db, g: Db, w: World) {
    && NewRows(idb, o, g, w) && Answer(ops, PlainWorld(o, w.m, w.reduce)).Some?
    && Answer(ops, PlainWorld(g, w.m, w.reduce)).Some? && Answer(ops, PlainWorld(w.full, w.m, w.reduce)).Some?
  }

  /** What the list answers now it answered before, or one of its sequences answers it. */
  ghost predicate LosesNothing(ops: seq<Op>, idb: set<string>, o: Db, g: Db, w: World)
    requires IsStep(ops, idb, o, g, w)
  {
    forall t | t in Answer(ops, PlainWorld(g, w.m, w.reduce)).value.rows ::
      t in Answer(ops, PlainWorld(o, w.m, w.reduce)).value.rows || t in FusedRows(ops, idb, w)
  }

  ghost predicate IsSafe(ops: seq<Op>, idb: set<string>, m: Machine, reduce: Reducer) {
    forall o: Db, g: Db, w: World | w.m == m && w.reduce == reduce && IsStep(ops, idb, o, g, w) :: LosesNothing(ops, idb, o, g, w)
  }

  /** Operators that may follow the source of a rule body. */
  predicate Follows(rest: seq<Op>, idb: set<string>) {
    (forall i | 0 <= i < |rest| :: IsChainOp(rest[i])) && Plain(rest) && Stratified(rest, idb)
  }

  ghost predicate SafeInFront(lead: Op, idb: set<string>, m: Machine, reduce: Reducer) {
    forall rest | Follows(rest, idb) :: IsSafe([lead] + rest, idb, m, reduce)
  }

  // ---- a relation outside the stratum is no loss ------------------------------------------------

  lemma LeadIsBody(lead: Op, rest: seq<Op>, idb: set<string>)
    requires lead.Lftj? && (forall n | n in lead.rels :: n !in idb) && Follows(rest, idb)
    ensures IsBody([lead] + rest) && Plain([lead] + rest) && Stratified([lead] + rest, idb)
  {
    hide Stratified;
    var ops := [lead] + rest;
    assert forall i | 1 <= i < |ops| :: ops[i] == rest[i - 1];
    StratifiedCons(lead, rest, idb);
  }

  lemma OutsideIsSafe(lead: Op, rest: seq<Op>, idb: set<string>, m: Machine, reduce: Reducer)
    requires lead.Lftj? && (forall n | n in lead.rels :: n !in idb) && Follows(rest, idb)
    ensures IsSafe([lead] + rest, idb, m, reduce)
  {
    hide Answer, Stratified, NewRows, IsBody, Plain, FusedRows, SequenceDerives, Follows;
    var ops := [lead] + rest;
    LeadIsBody(lead, rest, idb);
    assert Flat([ops]) == ops;
    forall o: Db, g: Db, w: World, t: Row | w.m == m && w.reduce == reduce && IsStep(ops, idb, o, g, w)
        && t in Answer(ops, PlainWorld(g, w.m, w.reduce)).value.rows
      ensures t in Answer(ops, PlainWorld(o, w.m, w.reduce)).value.rows || t in FusedRows(ops, idb, w)
    {
      FusionComplete(ops, [ops], idb, o, g, w, t);
      if t !in Answer(ops, PlainWorld(o, w.m, w.reduce)).value.rows {
        var p :| SequenceDerives(ops, idb, w, p, t);
        SN.DerivedIsFused(ops, idb, w, p, t);
      }
    }
  }

  // ---- a relation of the stratum is: the data ------------------------------------------------------

  /** A width with room for every key column. */
  function Room(cols: seq<nat>): (n: nat)
    ensures n >= 1 && forall i | 0 <= i < |cols| :: cols[i] < n
  {
    if cols == [] then 1
    else
      var r, last := Room(cols[..|cols| - 1]), cols[|cols| - 1];
      if last < r then r else last + 1
  }

  function Row0(n: nat): Row { seq(n, _ => 0) }
  function Row1(n: nat): Row { seq(n, _ => 1) }

  /** n rows of zeros, one after the other. */
  function Zeros(n: nat, width: nat): Row {
    if n == 0 then [] else Zeros(n - 1, width) + Row0(width)
  }

  /** Every relation of the chain holds both rows; the relation p holds the given ones. */
  function Data(rels: seq<string>, p: string, width: nat, rows: set<Row>): Db {
    map n | n in rels :: Rel(width, if n == p then rows else {Row0(width), Row1(width)})
  }

  predicate Here(w: World, rels: seq<string>, cols: seq<nat>, p: string) {
    && 2 <= |rels| == |cols| <= LFTJ_MAX_K && p in rels
    && forall n | n in rels :: n in w.full && w.full[n].width == Room(cols)
         && (forall t | t in w.full[n].rows :: |t| == Room(cols))
         && (n != p ==> Row0(Room(cols)) in w.full[n].rows)
  }

  lemma ChainRuns(w: World, rels: seq<string>, cols: seq<nat>, p: string)
    requires Here(w, rels, cols, p)
    ensures LftjRuns(w, rels, cols)
  {
    assert forall i | 0 <= i < |rels| :: rels[i] in rels;
  }

  lemma {:induction false} ZerosThere(w: World, rels: seq<string>, cols: seq<nat>, p: string, n: nat)
    requires Here(w, rels, cols, p) && Row0(Room(cols)) in w.full[p].rows && n <= |rels|
    requires forall i | 0 <= i < n :: rels[i] in w.full
    ensures Zeros(n, Room(cols)) in Products(w, rels, cols, 0, n)
    decreases n
  {
    hide Products, Room;
    if n == 0 {
      F.ProductNone(w, rels, cols, 0, []);
    } else {
      ZerosThere(w, rels, cols, p, n - 1);
      assert rels[n - 1] in rels;
      F.ProductAdd(w, rels, cols, 0, n - 1, Zeros(n - 1, Room(cols)), Row0(Room(cols)));
    }
  }

  lemma {:induction false} ZerosCome(w: World, rels: seq<string>, cols: seq<nat>, p: string, v: int, n: nat, q: nat)
    requires Here(w, rels, cols, p) && q < n <= |rels| && forall i | 0 <= i < n :: rels[i] in w.full
    requires Zeros(n, Room(cols)) in Products(w, rels, cols, v, n)
    ensures Row0(Room(cols)) in w.full[rels[q]].rows
    decreases n
  {
    hide Products, Room;
    var x, b := F.ProductSplit(w, rels, cols, v, n - 1, Zeros(n, Room(cols)));
    assert rels[n - 1] in rels && |b| == Room(cols);
    LastPart(x, b, Zeros(n - 1, Room(cols)), Row0(Room(cols)));
    if q < n - 1 {
      ZerosCome(w, rels, cols, p, v, n - 1, q);
    }
  }

  lemma LastPart(a: Row, b: Row, c: Row, d: Row)
    requires a + b == c + d && |b| == |d|
    ensures a == c && b == d
  {
    assert a == (a + b)[..|a|] && b == (a + b)[|a|..];
    assert c == (c + d)[..|c|] && d == (c + d)[|c|..];
  }

  /** The chain gives the zeros exactly when p holds them. */
  lemma LeadRows(w: World, rels: seq<string>, cols: seq<nat>, p: string)
    requires Here(w, rels, cols, p) && LftjRuns(w, rels, cols)
    ensures Zeros(|rels|, Room(cols)) in LftjRel(w, rels, cols).rows <==> Row0(Room(cols)) in w.full[p].rows
  {
    hide Products, Zeros;
    var z := Zeros(|rels|, Room(cols));
    if z in LftjRel(w, rels, cols).rows {
      var t :| t in w.full[rels[0]].rows && z in Products(w, rels, cols, Cell(t, cols[0]), |rels|);
      var q :| 0 <= q < |rels| && rels[q] == p;
      ZerosCome(w, rels, cols, p, Cell(t, cols[0]), |rels|, q);
    }
    if Row0(Room(cols)) in w.full[p].rows {
      ZerosThere(w, rels, cols, p, |rels|);
      assert rels[0] in rels;
      assert Row0(Room(cols)) in w.full[rels[0]].rows && Cell(Row0(Room(cols)), cols[0]) == 0;
    }
  }

  // ---- the continuation ---------------------------------------------------------------------------

  function Cross(p: string, mode: DeltaMode): Op { Join(p, [], [], [], mode) }

  function Body(rels: seq<string>, cols: seq<nat>, p: string, first: DeltaMode, second: DeltaMode): seq<Op> {
    [Plan.Op.Lftj(rels, cols), Cross(p, first), Cross(p, second)]
  }

  /** Joining without keys: the row splits where the left rows end. */
  lemma CrossRows(l: Rel, r: Rel, a: Row, b: Row)
    requires forall t | t in r.rows :: |t| == |b|
    ensures a + b in JoinRel(l, r, [], []).rows <==> a in l.rows && b in r.rows
  {
    var j := JoinRel(l, r, [], []);
    if a + b in j.rows {
      var x, y :| x in l.rows && y in r.rows && KeysMatch([], x, y) && a + b == Pick([], x + y);
      LastPart(a, b, x, y);
    }
    if a in l.rows && b in r.rows {
      assert KeysMatch([], a, b) && a + b == Pick([], a + b);
    }
  }

  function Lost(rels: seq<string>, cols: seq<nat>): Row {
    Zeros(|rels|, Room(cols)) + Row1(Room(cols)) + Row1(Room(cols))
  }

  /** The row needs zeros in p where the chain reads it, and ones where the joins do. */
  lemma BodyRows(w: World, rels: seq<string>, cols: seq<nat>, p: string, first: DeltaMode, second: DeltaMode)
    requires Here(w, rels, cols, p)
    requires forall b | b in RightOf(w, p, first).rows + RightOf(w, p, second).rows :: |b| == Room(cols)
    ensures IsBody(Body(rels, cols, p, first, second)) && RunBody(Body(rels, cols, p, first, second), w).Some?
    ensures Lost(rels, cols) in RunBody(Body(rels, cols, p, first, second), w).value.rows <==>
            Row0(Room(cols)) in w.full[p].rows && Row1(Room(cols)) in RightOf(w, p, first).rows
            && Row1(Room(cols)) in RightOf(w, p, second).rows
  {
    ChainRuns(w, rels, cols, p);
    BodyIs(w, rels, cols, p, first, second);
    LeadRows(w, rels, cols, p);
    hide RunBody, LftjRel, JoinRel, RightOf, KeysMatch, Zeros, Room, Row0, Row1, LftjRuns;
    var l, z, one := LftjRel(w, rels, cols), Zeros(|rels|, Room(cols)), Row1(Room(cols));
    assert |one| == Room(cols) by { OnesWidth(Room(cols)); }
    CrossRows(l, RightOf(w, p, first), z, one);
    CrossRows(JoinRel(l, RightOf(w, p, first), [], []), RightOf(w, p, second), z + one, one);
  }

  lemma OnesWidth(n: nat)
    ensures |Row1(n)| == n
  {}

  lemma BodyIs(w: World, rels: seq<string>, cols: seq<nat>, p: string, first: DeltaMode, second: DeltaMode)
    requires p in w.full && LftjRuns(w, rels, cols)
    ensures IsBody(Body(rels, cols, p, first, second))
    ensures RunBody(Body(rels, cols, p, first, second), w) ==
            Some(JoinRel(JoinRel(LftjRel(w, rels, cols), RightOf(w, p, first), [], []), RightOf(w, p, second), [], []))
  {
    hide LftjRel, JoinRel, RightOf, LftjRuns;
    var ops := Body(rels, cols, p, first, second);
    assert ops[..2] == [ops[0], ops[1]] && ops[..2][..1] == [ops[0]];
    assert RunBody([ops[0]], w) == SourceRel(ops[0], w);
    assert RunBody(ops[..2], w) == Then(ops[1], w, RunBody([ops[0]], w));
    assert RunBody(ops, w) == Then(ops[2], w, RunBody(ops[..2], w));
  }

  lemma SequenceModes(rels: seq<string>, cols: seq<nat>, p: string, idb: set<string>, pos: int)
    requires p in idb && (pos == 1 || pos == 2)
    ensures var ops := Body(rels, cols, p, Auto, Auto);
            Remode(ops, FinalModes(ops, idb, pos))
            == if pos == 1 then Body(rels, cols, p, ForceDelta, ForceFull) else Body(rels, cols, p, ForceFull, ForceDelta)
  {
    var ops := Body(rels, cols, p, Auto, Auto);
    assert Scan(ops, 3, 0, None, 0) == [] && Scan(ops, 2, 0, None, 0) == [] && Scan(ops, 1, 0, None, 0) == [];
    assert Segments(ops) == [];
    var tags := TagModes(ops, idb, pos);
    assert FinalModes(ops, idb, pos) == tags;
    var got := Remode(ops, tags);
    var want := if pos == 1 then Body(rels, cols, p, ForceDelta, ForceFull) else Body(rels, cols, p, ForceFull, ForceDelta);
    assert forall i | 0 <= i < 3 :: got[i] == want[i];
  }

  /** The answer of a body, with or without CONSOLIDATE at its end. */
  lemma BodyAnswer(ops: seq<Op>, w: World)
    requires IsBody(ops)
    ensures Answer(ops, w) == RunBody(ops, w) && Answer(ops + [Consolidate], w) == RunBody(ops, w)
  {
    hide RunBody;
    assert Flat([ops]) == ops;
    AnswerIsUnion(ops, [ops], w);
    assert RunUnion([ops], w) == RunBody(ops, w);
  }

  // ---- the step that loses it ---------------------------------------------------------------------------

  function Before(rels: seq<string>, cols: seq<nat>, p: string): Db { Data(rels, p, Room(cols), {Row1(Room(cols))}) }

  function After(rels: seq<string>, cols: seq<nat>, p: string): Db {
    Data(rels, p, Room(cols), {Row0(Room(cols)), Row1(Room(cols))})
  }

  function Step(rels: seq<string>, cols: seq<nat>, p: string, m: Machine, reduce: Reducer): World {
    World(After(rels, cols, p), map[p := Rel(Room(cols), {Row0(Room(cols))})], false, false, m, reduce)
  }

  lemma RowsDiffer(n: nat)
    requires n >= 1
    ensures Row0(n) != Row1(n)
  {
    assert Row0(n)[0] != Row1(n)[0];
  }

  lemma DataHere(rels: seq<string>, cols: seq<nat>, p: string, rows: set<Row>, w: World)
    requires 2 <= |rels| == |cols| <= LFTJ_MAX_K && p in rels && rows <= {Row0(Room(cols)), Row1(Room(cols))}
    requires w.full == Data(rels, p, Room(cols), rows)
    ensures Here(w, rels, cols, p) && w.full[p].rows == rows
  {}

  lemma StepAdds(rels: seq<string>, cols: seq<nat>, p: string, idb: set<string>, m: Machine, reduce: Reducer)
    requires p in rels && p in idb
    ensures NewRows(idb, Before(rels, cols, p), After(rels, cols, p), Step(rels, cols, p, m, reduce))
  {
    hide Room;
    var o, g := Before(rels, cols, p), After(rels, cols, p);
    assert g[p].rows == o[p].rows + {Row0(Room(cols))};
  }

  lemma PlainRows(rels: seq<string>, cols: seq<nat>, p: string, rows: set<Row>, w: World)
    requires 2 <= |rels| == |cols| <= LFTJ_MAX_K && p in rels && rows <= {Row0(Room(cols)), Row1(Room(cols))}
    requires w.full == Data(rels, p, Room(cols), rows)
    ensures Answer(Body(rels, cols, p, Auto, Auto), w).Some?
    ensures Lost(rels, cols) in Answer(Body(rels, cols, p, Auto, Auto), w).value.rows <==>
            Row0(Room(cols)) in rows && Row1(Room(cols)) in rows
  {
    hide RunBody, Answer, Body, Lost;
    DataHere(rels, cols, p, rows, w);
    BodyRows(w, rels, cols, p, Auto, Auto);
    BodyAnswer(Body(rels, cols, p, Auto, Auto), w);
  }

  lemma SequenceMisses(rels: seq<string>, cols: seq<nat>, p: string, idb: set<string>, w: World, pos: int)
    requires Here(w, rels, cols, p) && p in idb && (pos == 1 || pos == 2)
    requires p in w.delta && w.delta[p] == Rel(Room(cols), {Row0(Room(cols))})
    ensures var a := Answer(Sequence(Body(rels, cols, p, Auto, Auto), idb, pos), w); a.Some? && Lost(rels, cols) !in a.value.rows
  {
    hide RunBody, Answer, FinalModes, Lost, Body;
    SequenceModes(rels, cols, p, idb, pos);
    RowsDiffer(Room(cols));
    var z := Row0(Room(cols));
    assert z in {z} && RightOf(w, p, ForceDelta) == Rel(Room(cols), {z});
    if pos == 1 {
      BodyRows(w, rels, cols, p, ForceDelta, ForceFull);
      BodyAnswer(Body(rels, cols, p, ForceDelta, ForceFull), w);
    } else {
      BodyRows(w, rels, cols, p, ForceFull, ForceDelta);
      BodyAnswer(Body(rels, cols, p, ForceFull, ForceDelta), w);
    }
  }

  /** A leapfrog join over a relation of the stratum, two more reads of it, and a row that is lost. */
  lemma RowIsLost(rels: seq<string>, cols: seq<nat>, p: string, idb: set<string>, m: Machine, reduce: Reducer)
    requires 2 <= |rels| == |cols| <= LFTJ_MAX_K && p in rels && p in idb
    ensures var ops := Body(rels, cols, p, Auto, Auto);
            var o, g, w := Before(rels, cols, p), After(rels, cols, p), Step(rels, cols, p, m, reduce);
            IsStep(ops, idb, o, g, w) && !LosesNothing(ops, idb, o, g, w)
  {
    var ops := Body(rels, cols, p, Auto, Auto);
    var o, g, w := Before(rels, cols, p), After(rels, cols, p), Step(rels, cols, p, m, reduce);
    assert forall i | 0 <= i < 3 && IsDeltaPos(ops[i], idb) :: i == 1 || i == 2;
    RowsDiffer(Room(cols));
    hide Answer, NewRows, Sequence, Here, Body, Data, Lost, Room, Row0, Row1;
    StepAdds(rels, cols, p, idb, m, reduce);
    var zero, one := Row0(Room(cols)), Row1(Room(cols));
    PlainRows(rels, cols, p, {one}, PlainWorld(o, m, reduce));
    PlainRows(rels, cols, p, {zero, one}, PlainWorld(g, m, reduce));
    DataHere(rels, cols, p, {zero, one}, w);
    forall pos | 0 <= pos < |ops| && IsDeltaPos(ops[pos], idb)
      ensures Answer(Sequence(ops, idb, pos), w).Some? && Lost(rels, cols) !in Answer(Sequence(ops, idb, pos), w).value.rows
    {
      SequenceMisses(rels, cols, p, idb, w, pos);
    }
    assert Lost(rels, cols) !in FusedRows(ops, idb, w);
  }

  /** A leapfrog join is safe in front of every continuation exactly when it names no relation of the stratum. */
  lemma SafeIffOutside(rels: seq<string>, cols: seq<nat>, idb: set<string>, m: Machine, reduce: Reducer)
    requires 2 <= |rels| == |cols| <= LFTJ_MAX_K
    ensures SafeInFront(Plan.Op.Lftj(rels, cols), idb, m, reduce) <==> forall n | n in rels :: n !in idb
  {
    hide IsSafe, LosesNothing, IsStep;
    var lead := Plan.Op.Lftj(rels, cols);
    if forall n | n in rels :: n !in idb {
      forall rest | Follows(rest, idb)
        ensures IsSafe([lead] + rest, idb, m, reduce)
      {
        OutsideIsSafe(lead, rest, idb, m, reduce);
      }
    } else {
      var p :| p in rels && p in idb;
      var rest := [Cross(p, Auto), Cross(p, Auto)];
      assert Follows(rest, idb);
      assert [lead] + rest == Body(rels, cols, p, Auto, Auto);
      RowIsLost(rels, cols, p, idb, m, reduce);
      NotSafe([lead] + rest, idb, Before(rels, cols, p), After(rels, cols, p), Step(rels, cols, p, m, reduce));
    }
  }

  lemma NotSafe(ops: seq<Op>, idb: set<string>, o: Db, g: Db, w: World)
    requires IsStep(ops, idb, o, g, w) && !LosesNothing(ops, idb, o, g, w)
    ensures !IsSafe(ops, idb, w.m, w.reduce)
  {}

  /** So a chain of at most 64 members may be replaced, whatever follows it, exactly when it avoids the stratum. */
  lemma ReplacementSafeIff(ops: seq<Op>, start: nat, len: nat, edb: set<string>, idb: set<string>, m: Machine, reduce: Reducer)
    requires 3 <= len <= LFTJ_MAX_K && F.IsChain(ops, start, start + len, edb)
    ensures SafeInFront(F.Leapfrog(ops, start, len, edb), idb, m, reduce) <==> F.Avoids(ops, start, len, idb)
  {
    hide SafeInFront;
    var rels, cols := F.ChainRels(ops, start, len, edb), F.ChainCols(ops, start, len, edb);
    SafeIffOutside(rels, cols, idb, m, reduce);
    var part := ops[start..start + len];
    assert forall q | 0 <= q < len :: rels[q] == F.RelAt(part[q]) && part[q] == ops[start + q];
    if F.Avoids(ops, start, len, idb) {
      forall n | n in rels
        ensures n !in idb
      {
        var q :| 0 <= q < len && rels[q] == n;
        assert F.RelAt(ops[start + q]) !in idb;
      }
    }
    if forall n | n in rels :: n !in idb {
      forall q | start <= q < start + len
        ensures F.RelAt(ops[q]) !in idb
      {
        assert rels[q - start] in rels;
      }
    }
  }

  // ---- not every continuation shows it ------------------------------------------------------------------

  function Never(): Text { EncodeToken(BoolTok(false)) }

  lemma NeverPasses(m: Machine, row: Row)
    ensures !Passes(Never(), m, row)
  {
    var t := Leaf(BoolTok(false));
    assert Encode(t) == [] + EncodeToken(BoolTok(false)) == Never();
    EvalTree(t, m, row);
  }

  function Barren(rels: seq<string>, cols: seq<nat>, p: string): seq<Op> {
    [Plan.Op.Lftj(rels, cols), Filter(Never()), Cross(p, Auto), Cross(p, Auto)]
  }

  lemma BarrenIsEmpty(rels: seq<string>, cols: seq<nat>, p: string, w: World)
    requires Answer(Barren(rels, cols, p), w).Some?
    ensures Answer(Barren(rels, cols, p), w).value.rows == {}
  {
    var ops := Barren(rels, cols, p);
    assert IsBody(ops);
    BodyAnswer(ops, w);
    assert IsBody(ops[..3]) && IsBody(ops[..3][..2]) && ops[..3][..2][..1] == [ops[0]];
    forall row: Row
      ensures !Passes(Never(), w.m, row)
    {
      NeverPasses(w.m, row);
    }
    hide Answer, LftjRel, RightOf, Never, Passes;
    assert RunBody(ops[..3][..2], w) == Then(ops[1], w, RunBody([ops[0]], w));
    assert RunBody(ops[..3], w) == Then(ops[2], w, RunBody(ops[..3][..2], w));
    assert RunBody(ops, w) == Then(ops[3], w, RunBody(ops[..3], w));
    assert RunBody(ops[..3][..2], w).value.rows == {};
    assert RunBody(ops[..3], w).value.rows == {};
  }

  /** A rule whose condition never holds loses nothing, whatever its leapfrog join swallowed. */
  lemma HarmlessSwallow(rels: seq<string>, cols: seq<nat>, p: string, idb: set<string>, m: Machine, reduce: Reducer)
    requires p in rels && p in idb
    ensures Follows(Barren(rels, cols, p)[1..], idb) && IsSafe(Barren(rels, cols, p), idb, m, reduce)
  {
    var ops := Barren(rels, cols, p);
    assert Follows(ops[1..], idb);
    hide Answer, Barren, NewRows, FusedRows;
    forall o: Db, g: Db, w: World | w.m == m && w.reduce == reduce && IsStep(ops, idb, o, g, w)
      ensures LosesNothing(ops, idb, o, g, w)
    {
      BarrenIsEmpty(rels, cols, p, PlainWorld(g, w.m, w.reduce));
    }
  }

  // ---- when nothing is swallowed ------------------------------------------------------------------------------

  lemma {:induction false} ChainIsOutside(ops: seq<Op>, start: nat, len: nat, edb: set<string>, q: nat)
    requires len >= 3 && F.IsChain(ops, start, start + len, edb) && q < len
    ensures F.ChainRels(ops, start, len, edb)[q] in edb
  {
    var part := ops[start..start + len];
    assert part[q] == ops[start + q];
    if q > 0 {
      assert F.IsLink(ops[start + q], edb);
    }
  }

  lemma EmittedIs(ops: seq<Op>, i: nat, edb: set<string>, idb: set<string>)
    requires i < |ops| && edb !! idb
    ensures (F.Emitted(ops, i, edb) == ops[i] && F.Taken(ops, i, edb) == 1) ||
            (F.Emitted(ops, i, edb).Lftj? && ops[i].Variable? && forall n | n in F.Emitted(ops, i, edb).rels :: n !in idb)
  {
    hide F.ChainCols;
    F.ChainAtSize(ops, i, edb);
    var len := F.ChainAt(ops, i, edb);
    if len > 0 {
      var rels := F.ChainRels(ops, i, len, edb);
      forall q | 0 <= q < |rels|
        ensures rels[q] in edb
      {
        ChainIsOutside(ops, i, len, edb, q);
      }
    }
  }

  /** When no extensional relation is in the stratum, replacing chains keeps the list stratified. */
  lemma {:induction false} DisjointKeepsStratified(ops: seq<Op>, i: nat, edb: set<string>, idb: set<string>)
    requires edb !! idb && Stratified(ops, idb)
    ensures Stratified(F.Rewritten(ops, i, edb), idb)
    decreases |ops| - i
  {
    hide F.Emitted, F.Taken, IsPrefilter;
    if i < |ops| {
      var op, n := F.Emitted(ops, i, edb), F.Taken(ops, i, edb);
      var rest := F.Rewritten(ops, i + n, edb);
      DisjointKeepsStratified(ops, i + n, edb, idb);
      EmittedIs(ops, i, edb, idb);
      if op.SemiJoin? && op.right in idb {
        assert i + 1 < |ops| && IsPrefilter(op, ops[i + 1]);
        EmittedIs(ops, i + 1, edb, idb);
        NextIsJoin(op, ops[i + 1]);
      }
      StratifiedCons(op, rest, idb);
    }
  }

  lemma NextIsJoin(op: Op, next: Op)
    requires IsPrefilter(op, next)
    ensures next.Join?
  {}

  lemma StratifiedCons(op: Op, rest: seq<Op>, idb: set<string>)
    requires Stratified(rest, idb)
    requires op.Lftj? ==> forall n | n in op.rels :: n !in idb
    requires op.AntiJoin? ==> op.right !in idb
    requires op.SemiJoin? && op.right in idb ==> rest != [] && IsPrefilter(op, rest[0])
    ensures Stratified([op] + rest, idb)
  {
    hide IsPrefilter;
    var all := [op] + rest;
    assert forall k | 1 <= k < |all| :: all[k] == rest[k - 1];
  }
}
