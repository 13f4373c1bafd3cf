/**
 * Operator lists and what they compute.
 *
 * A relation plan is a list of operators run left to right over a stack of relations.
 * Relations are sets of integer rows of one width. The meanings follow the operator
 * descriptions of wirelog/exec_plan.h, with the evaluator's own answers where that
 * text is silent: an out-of-range projection reads 0, an unresolvable key falls back to
 * column 0, a JOIN against a relation that does not exist is empty, CONCAT on a single
 * relation passes it through.
 */
module Plan {
  import opened Bytes
  import opened Machine
  import opened Postfix

  datatype Rel = Rel(width: nat, rows: set<Row>)

  type Db = map<string, Rel>

  predicate ValidRel(r: Rel) { forall t | t in r.rows :: |t| == r.width }

  predicate ValidDb(db: Db) { forall n | n in db :: ValidRel(db[n]) }

  datatype DeltaMode = Auto | ForceDelta | ForceFull | ForceEmpty | ForceEmptyAfterSeed

  /** The fields of a REDUCE. Its evaluation is a parameter of the world. */
  datatype Reduction = Reduction(fn: Agg, operand: Domain, groupBy: seq<nat>, aggregateIndex: nat, expr: Text)
  datatype Agg = Count | Sum | Min | Max | Avg
  datatype Domain = UnknownDomain | ScalarDomain | StringDomain | FloatDomain

  /** Join keys pair a left column with a right column ("colN" stands for N). */
  type Keys = seq<(nat, nat)>

  datatype Op =
    | Variable(rel: string, mode: DeltaMode)
    | Map(indices: seq<nat>, exprs: seq<Text>)
    | Filter(expr: Text)
    | Join(right: string, keys: Keys, rightFilter: Text, project: seq<nat>, mode: DeltaMode)
    | SemiJoin(right: string, keys: Keys, rightFilter: Text, project: seq<nat>)
    | AntiJoin(right: string, keys: Keys, rightFilter: Text)
    | Reduce(reduction: Reduction)
    | Concat
    | Consolidate
    | Lftj(rels: seq<string>, cols: seq<nat>)

  /**
   * What an operator list runs against: the full relations, the rows that were new in the
   * last round, whether this is the seed pass, and whether later passes skip seed-only
   * segments (outbound sub-passes).
   */
  datatype World = World(
    full: Db,
    delta: Db,
    seed: bool,
    outbound: bool,
    m: Machine,
    reduce: (Reduction, Rel) -> Option<Rel>)

  // ---- rows ------------------------------------------------------------------

  function Cell(row: Row, i: nat): int { if i < |row| then row[i] else 0 }

  /** Key columns that do not resolve fall back to column 0. */
  function KeyCell(row: Row, i: nat): int { if i < |row| then row[i] else Cell(row, 0) }

  predicate KeysMatch(keys: Keys, a: Row, b: Row) {
    forall k | 0 <= k < |keys| :: KeyCell(a, keys[k].0) == KeyCell(b, keys[k].1)
  }

  function Project(indices: seq<nat>, row: Row): Row {
    seq(|indices|, i requires 0 <= i < |indices| => Cell(row, indices[i]))
  }

  /** A fused projection; no indices means no projection. */
  function Pick(project: seq<nat>, row: Row): Row {
    if project == [] then row else Project(project, row)
  }

  predicate Passes(expr: Text, m: Machine, row: Row) {
    match Eval(expr, m, row)
    case None => false
    case Some(v) => v != 0
  }

  /** One output column of a MAP: its expression if it has one, else its source column. */
  function MapCell(op: Op, m: Machine, row: Row, c: nat): Option<int>
    requires op.Map? && c < |op.indices|
  {
    if c < |op.exprs| && op.exprs[c] != [] then Eval(op.exprs[c], m, row)
    else Some(Cell(row, op.indices[c]))
  }

  predicate MapDefined(op: Op, m: Machine, row: Row)
    requires op.Map?
  {
    forall c | 0 <= c < |op.indices| :: MapCell(op, m, row, c).Some?
  }

  function MapRow(op: Op, m: Machine, row: Row): Row
    requires op.Map?
  {
    seq(|op.indices|, c requires 0 <= c < |op.indices| =>
      match MapCell(op, m, row, c) case Some(v) => v case None => 0)
  }

  // ---- relations -----------------------------------------------------------------

  function Empty(r: Rel): Rel { Rel(r.width, {}) }

  function FilterRel(expr: Text, m: Machine, r: Rel): Rel {
    Rel(r.width, set t | t in r.rows && Passes(expr, m, t))
  }

  function RightFiltered(expr: Text, m: Machine, r: Rel): Rel {
    if expr == [] then r else FilterRel(expr, m, r)
  }

  function MapRel(op: Op, m: Machine, r: Rel): Option<Rel>
    requires op.Map?
  {
    if forall t | t in r.rows :: MapDefined(op, m, t)
    then Some(Rel(|op.indices|, set t | t in r.rows :: MapRow(op, m, t)))
    else None
  }

  function OutWidth(project: seq<nat>, width: nat): nat {
    if project == [] then width else |project|
  }

  function JoinRel(l: Rel, r: Rel, keys: Keys, project: seq<nat>): Rel {
    Rel(OutWidth(project, l.width + r.width),
        set a, b | a in l.rows && b in r.rows && KeysMatch(keys, a, b) :: Pick(project, a + b))
  }

  predicate HasPartner(a: Row, r: Rel, keys: Keys) {
    exists b :: b in r.rows && KeysMatch(keys, a, b)
  }

  function SemiRel(l: Rel, r: Rel, keys: Keys, project: seq<nat>): Rel {
    Rel(OutWidth(project, l.width), set a | a in l.rows && HasPartner(a, r, keys) :: Pick(project, a))
  }

  function AntiRel(l: Rel, r: Rel, keys: Keys): Rel {
    Rel(l.width, set a | a in l.rows && !HasPartner(a, r, keys))
  }

  // ---- leapfrog join -----------------------------------------------------------

  const LFTJ_MAX_K: nat := 64

  /** Concatenations of one row from each of the first n relations, all with key value v. */
  function Products(w: World, rels: seq<string>, cols: seq<nat>, v: int, n: nat): set<Row>
    requires n <= |rels| == |cols| && forall i | 0 <= i < n :: rels[i] in w.full
  {
    if n == 0 then {[]}
    else set p, b | p in Products(w, rels, cols, v, n - 1) && b in w.full[rels[n - 1]].rows
                    && Cell(b, cols[n - 1]) == v :: p + b
  }

  function TotalWidth(w: World, rels: seq<string>, n: nat): nat
    requires n <= |rels| && forall i | 0 <= i < n :: rels[i] in w.full
  {
    if n == 0 then 0 else TotalWidth(w, rels, n - 1) + w.full[rels[n - 1]].width
  }

  /** Every relation present, every key column in range, and no more inputs than supported. */
  predicate LftjRuns(w: World, rels: seq<string>, cols: seq<nat>) {
    2 <= |rels| <= LFTJ_MAX_K && |cols| == |rels|
    && forall i | 0 <= i < |rels| :: rels[i] in w.full && cols[i] < w.full[rels[i]].width
  }

  /** For each key value, the Cartesian product of the rows that carry it. */
  function LftjRel(w: World, rels: seq<string>, cols: seq<nat>): Rel
    requires LftjRuns(w, rels, cols)
  {
    Rel(TotalWidth(w, rels, |rels|),
        set t, p | t in w.full[rels[0]].rows && p in Products(w, rels, cols, Cell(t, cols[0]), |rels|) :: p)
  }

  // ---- operators ------------------------------------------------------------------

  /** The relation a VARIABLE pushes. */
  function Source(w: World, name: string, mode: DeltaMode): Rel
    requires name in w.full
  {
    var full := w.full[name];
    match mode
    case ForceEmpty => Empty(full)
    case ForceEmptyAfterSeed => if w.outbound && !w.seed then Empty(full) else full
    case ForceDelta => DeltaOf(w, name)
    case _ => full
  }

  /** A forced delta: the new rows; in the seed pass, with none recorded, everything. */
  function DeltaOf(w: World, name: string): Rel
    requires name in w.full
  {
    if name in w.delta && w.delta[name].rows != {} then w.delta[name]
    else if w.seed then w.full[name]
    else Empty(w.full[name])
  }

  /** The right side of a JOIN. */
  function RightOf(w: World, name: string, mode: DeltaMode): Rel
    requires name in w.full
  {
    if mode == ForceDelta then DeltaOf(w, name) else w.full[name]
  }

  predicate IsUnary(op: Op) {
    op.Map? || op.Filter? || op.Join? || op.SemiJoin? || op.AntiJoin? || op.Reduce? || op.Consolidate?
  }

  /** An operator that replaces the top relation. None is an evaluation error. */
  function Unary(op: Op, w: World, r: Rel): Option<Rel>
    requires IsUnary(op)
  {
    match op
    case Map(_, _) => MapRel(op, w.m, r)
    case Filter(e) => Some(FilterRel(e, w.m, r))
    case Join(right, keys, rf, project, mode) =>
      Some(if right in w.full then JoinRel(r, RightFiltered(rf, w.m, RightOf(w, right, mode)), keys, project)
           else Rel(OutWidth(project, r.width), {}))
    case SemiJoin(right, keys, rf, project) =>
      Some(if right in w.full then SemiRel(r, RightFiltered(rf, w.m, w.full[right]), keys, project)
           else Rel(OutWidth(project, r.width), {}))
    case AntiJoin(right, keys, rf) =>
      Some(if right in w.full then AntiRel(r, RightFiltered(rf, w.m, w.full[right]), keys) else r)
    case Reduce(red) => w.reduce(red, r)
    case Consolidate => Some(r)
  }

  function Union(a: Rel, b: Rel): Rel { Rel(a.width, a.rows + b.rows) }

  /** One operator over the stack of relations. */
  function Exec(op: Op, w: World, stack: seq<Rel>): Option<seq<Rel>> {
    match op
    case Variable(name, mode) => if name in w.full then Some(stack + [Source(w, name, mode)]) else None
    case Lftj(rels, cols) => if LftjRuns(w, rels, cols) then Some(stack + [LftjRel(w, rels, cols)]) else None
    case Concat =>
      if |stack| < 2 then Some(stack)
      else
        var a, b := stack[|stack| - 2], stack[|stack| - 1];
        if a.width == b.width then Some(stack[..|stack| - 2] + [Union(a, b)]) else None
    case _ =>
      if stack == [] then None
      else match Unary(op, w, stack[|stack| - 1])
           case None => None
           case Some(r) => Some(stack[..|stack| - 1] + [r])
  }

  /** Run a list of operators from a given stack. */
  function RunOps(ops: seq<Op>, w: World, stack: seq<Rel>): Option<seq<Rel>>
    decreases |ops|
  {
    if ops == [] then Some(stack)
    else match RunOps(ops[..|ops| - 1], w, stack)
         case None => None
         case Some(st) => Exec(ops[|ops| - 1], w, st)
  }

  /** Running a list is running its front and then its back. */
  lemma {:induction false} RunConcat(a: seq<Op>, b: seq<Op>, w: World, stack: seq<Rel>)
    ensures RunOps(a + b, w, stack) ==
            match RunOps(a, w, stack)
            case None => None
            case Some(st) => RunOps(b, w, st)
    decreases |b|
  {
    hide Exec;
    if b == [] {
      assert a + b == a;
    } else {
      var init, last := b[..|b| - 1], b[|b| - 1];
      assert (a + b)[..|a + b| - 1] == a + init;
      RunConcat(a, init, w, stack);
    }
  }

  lemma RunOne(op: Op, w: World, stack: seq<Rel>)
    ensures RunOps([op], w, stack) == Exec(op, w, stack)
  {
    assert [op][..0] == [];
  }
}
