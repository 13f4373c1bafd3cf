/**
 * The trees the plan compiler starts from, and what they mean.
 *
 * A node denotes a relation whose columns carry names and types: a header and rows under
 * it. Conditions, keys and projections are read through the header, by name; a name that
 * no column carries is read positionally when it has the form "colN".
 */
module Ir {
  import opened Bytes
  import opened Expr
  import opened Machine
  import opened Postfix
  import opened Serializer
  import opened Naming
  import opened Plan

  /**
   * A projection of count columns: given positions, or expressions (one may be missing),
   * or neither. Intermediate projections carry output names and no expressions.
   */
  datatype Projection = Projection(
    count: nat,
    indices: Option<seq<nat>>,
    exprs: Option<seq<Option<Expr>>>,
    names: seq<Option<Text>>)

  datatype Ir =
    | ScanNode(rel: string, cols: Layout)
    | FilterNode(child: Ir, cond: Expr)
    | ProjectNode(child: Ir, proj: Projection)
    | JoinNode(left: Ir, right: Ir, keys: seq<(Text, Text)>)
    | SemiJoinNode(left: Ir, right: Ir, keys: seq<(Text, Text)>, project: seq<nat>)
    | AntiJoinNode(left: Ir, right: Ir, keys: seq<(Text, Text)>)
    | UnionNode(first: Ir, rest: seq<Ir>)
    | FlatmapNode(child: Ir, guard: Option<Expr>, proj: Projection)

  predicate Shaped(p: Projection) {
    && (p.indices.Some? ==> |p.indices.value| == p.count)
    && (p.exprs.Some? ==> |p.exprs.value| == p.count)
  }

  /** Intermediate projections name their columns. */
  predicate IsIntermediate(p: Projection) { p.exprs.None? && p.names != [] }

  // ---- headers ------------------------------------------------------------------------

  function ColumnAt(h: Layout, i: nat): Column {
    if i < |h| then h[i] else Column(None, Unknown)
  }

  /** The header of an intermediate projection: its own names, the types of the columns it picks. */
  function PickedColumn(h: Layout, p: Projection, i: nat): Column
    requires i < |p.names| && Shaped(p)
  {
    var t := if p.indices.Some? && i < p.count then ColumnAt(h, p.indices.value[i]).ctype
             else match p.names[i] case Some(x) => LookupType(h, x) case None => Unknown;
    Column(p.names[i], t)
  }

  function PickedHeader(h: Layout, p: Projection): Layout
    requires Shaped(p)
  {
    seq(|p.names|, i requires 0 <= i < |p.names| => PickedColumn(h, p, i))
  }

  function NarrowedHeader(h: Layout, project: seq<nat>): Layout {
    if project == [] then h else seq(|project|, i requires 0 <= i < |project| => ColumnAt(h, project[i]))
  }

  // ---- rows under a header --------------------------------------------------------------

  /** A relation with named, typed columns. */
  datatype Table = Table(header: Layout, rows: set<Row>)

  predicate ValidTable(t: Table) { forall r | r in t.rows :: |r| == |t.header| }

  function RowEnv(h: Layout, row: Row): Env {
    x => CellAt(row, ColumnOf(h, x))
  }

  predicate IsTrue(v: Option<int>) { v.Some? && v.value != 0 }

  function Holds(e: Expr, h: Layout, exts: Extensions, m: Machine, row: Row): bool
    requires Sound(e)
  {
    IsTrue(Meaning(e, h, exts, m, RowEnv(h, row), false))
  }

  /** The column a key names: by name first, then by an in-range position. */
  function KeyColumn(h: Layout, x: Text): (r: Option<nat>)
    ensures r.Some? ==> r.value < |h|
  {
    match FindColumn(h, x)
    case Some(c) => Some(c)
    case None => match ColIndex(x)
                 case Some(n) => if n < |h| then Some(n) else None
                 case None => None
  }

  predicate KeysKnown(keys: seq<(Text, Text)>, lh: Layout, rh: Layout) {
    forall k | 0 <= k < |keys| :: KeyColumn(lh, keys[k].0).Some? && KeyColumn(rh, keys[k].1).Some?
  }

  /** The rows agree on every pair of keys. */
  predicate Agree(keys: seq<(Text, Text)>, lh: Layout, a: Row, rh: Layout, b: Row)
    requires KeysKnown(keys, lh, rh)
  {
    forall k | 0 <= k < |keys| :: Cell(a, KeyColumn(lh, keys[k].0).value) == Cell(b, KeyColumn(rh, keys[k].1).value)
  }

  predicate HasMatch(keys: seq<(Text, Text)>, lh: Layout, a: Row, r: Table)
    requires KeysKnown(keys, lh, r.header)
  {
    exists b :: b in r.rows && Agree(keys, lh, a, r.header, b)
  }

  /** Position i of a projection: its expression by name, else the column it picks, else column i. */
  function ProjectedCell(p: Projection, h: Layout, exts: Extensions, m: Machine, row: Row, i: nat): Option<int>
    requires i < p.count && SoundProjection(p)
  {
    if p.exprs.Some? && p.exprs.value[i].Some? then Meaning(p.exprs.value[i].value, h, exts, m, RowEnv(h, row), false)
    else Some(Cell(row, if p.indices.Some? then p.indices.value[i] else i))
  }

  predicate SoundProjection(p: Projection) {
    Shaped(p) && (p.exprs.Some? ==>
      forall i | 0 <= i < p.count && p.exprs.value[i].Some? ::
        Sound(p.exprs.value[i].value) && Sized(p.exprs.value[i].value))
  }

  predicate ProjectsRow(p: Projection, h: Layout, exts: Extensions, m: Machine, row: Row)
    requires SoundProjection(p)
  {
    forall i | 0 <= i < p.count :: ProjectedCell(p, h, exts, m, row, i).Some?
  }

  function ProjectedRow(p: Projection, h: Layout, exts: Extensions, m: Machine, row: Row): Row
    requires SoundProjection(p)
  {
    seq(p.count, i requires 0 <= i < p.count =>
      match ProjectedCell(p, h, exts, m, row, i) case Some(v) => v case None => 0)
  }

  // ---- well-formed trees ----------------------------------------------------------------------

  predicate IsFiltersOverScan(n: Ir) {
    n.ScanNode? || (n.FilterNode? && IsFiltersOverScan(n.child))
  }

  /** Expressions have their operands and fit their length fields. */
  predicate SoundNode(n: Ir) {
    match n
    case ScanNode(_, _) => true
    case FilterNode(c, e) => SoundNode(c) && Sound(e) && Sized(e)
    case ProjectNode(c, p) => SoundNode(c) && SoundProjection(p)
    case JoinNode(l, r, _) => SoundNode(l) && SoundNode(r) && IsFiltersOverScan(r)
    case SemiJoinNode(l, r, _, _) => SoundNode(l) && SoundNode(r) && IsFiltersOverScan(r)
    case AntiJoinNode(l, r, _) => SoundNode(l) && SoundNode(r) && IsFiltersOverScan(r)
    case UnionNode(f, rest) => SoundNode(f) && forall c | c in rest :: SoundNode(c)
    case FlatmapNode(c, g, p) => SoundNode(c) && (g.Some? ==> Sound(g.value) && Sized(g.value)) && SoundProjection(p)
  }

  // ---- denotation ------------------------------------------------------------------------------

  function FilterTable(e: Expr, t: Table, exts: Extensions, m: Machine): Table
    requires Sound(e)
  {
    Table(t.header, set r | r in t.rows && Holds(e, t.header, exts, m, r))
  }

  /** None: some expression fails on some row. */
  function ProjectTable(p: Projection, t: Table, exts: Extensions, m: Machine): Option<Table>
    requires SoundProjection(p)
  {
    if forall r | r in t.rows :: ProjectsRow(p, t.header, exts, m, r)
    then Some(Table(OutHeader(p, t.header), set r | r in t.rows :: ProjectedRow(p, t.header, exts, m, r)))
    else None
  }

  /** Columns computed by expressions have no names. */
  function OutHeader(p: Projection, h: Layout): (r: Layout)
    requires Shaped(p)
    ensures |r| == p.count
  {
    if IsIntermediate(p) && |p.names| == p.count then PickedHeader(h, p)
    else seq(p.count, _ => Column(None, Unknown))
  }

  function JoinTable(l: Table, r: Table, keys: seq<(Text, Text)>): Table
    requires KeysKnown(keys, l.header, r.header)
  {
    Table(l.header + r.header,
          set a, b | a in l.rows && b in r.rows && Agree(keys, l.header, a, r.header, b) :: a + b)
  }

  function SemiJoinTable(l: Table, r: Table, keys: seq<(Text, Text)>, project: seq<nat>): Table
    requires KeysKnown(keys, l.header, r.header)
  {
    Table(NarrowedHeader(l.header, project),
          set a | a in l.rows && HasMatch(keys, l.header, a, r) :: Pick(project, a))
  }

  function AntiJoinTable(l: Table, r: Table, keys: seq<(Text, Text)>): Table
    requires KeysKnown(keys, l.header, r.header)
  {
    Table(l.header, set a | a in l.rows && !HasMatch(keys, l.header, a, r))
  }

  /** Tables of the same width, under the first one's header. */
  function UnionTable(a: Option<Table>, b: Option<Table>): Option<Table> {
    if a.Some? && b.Some? && |a.value.header| == |b.value.header|
    then Some(Table(a.value.header, a.value.rows + b.value.rows)) else None
  }

  /** The relation a node denotes; None when it has none: a failing expression or unequal widths. */
  function Denote(n: Ir, exts: Extensions, w: World): Option<Table>
    requires SoundNode(n)
    decreases n, 1
  {
    if n.ScanNode? then (if n.rel in w.full then Some(Table(n.cols, w.full[n.rel].rows)) else None)
    else if n.UnionNode? then DenoteUnion(n.first, n.rest, n, exts, w)
    else if IsPairing(n) then Pairing(n, Denote(n.left, exts, w), Denote(n.right, exts, w))
    else Deriving(n, Denote(n.child, exts, w), exts, w.m)
  }

  predicate IsDeriving(n: Ir) { n.FilterNode? || n.ProjectNode? || n.FlatmapNode? }

  /** A node that works on its one child row by row. */
  function Deriving(n: Ir, t: Option<Table>, exts: Extensions, m: Machine): Option<Table>
    requires IsDeriving(n) && SoundNode(n)
  {
    if t.None? then None
    else match n
         case FilterNode(_, e) => Some(FilterTable(e, t.value, exts, m))
         case ProjectNode(_, p) => ProjectTable(p, t.value, exts, m)
         case FlatmapNode(_, g, p) => FlatmapTable(g, p, t.value, exts, m)
  }

  predicate IsPairing(n: Ir) { n.JoinNode? || n.SemiJoinNode? || n.AntiJoinNode? }

  /** A node that pairs its left rows with right rows. None: unknown keys. */
  function Pairing(n: Ir, l: Option<Table>, r: Option<Table>): Option<Table>
    requires IsPairing(n)
  {
    if l.None? || r.None? || !KeysKnown(n.keys, l.value.header, r.value.header) then None
    else match n
         case JoinNode(_, _, keys) => Some(JoinTable(l.value, r.value, keys))
         case SemiJoinNode(_, _, keys, project) => Some(SemiJoinTable(l.value, r.value, keys, project))
         case AntiJoinNode(_, _, keys) => Some(AntiJoinTable(l.value, r.value, keys))
  }

  function FlatmapTable(g: Option<Expr>, p: Projection, t: Table, exts: Extensions, m: Machine): Option<Table>
    requires (g.Some? ==> Sound(g.value)) && SoundProjection(p)
  {
    var kept := if g.Some? then FilterTable(g.value, t, exts, m) else t;
    if p.count > 0 then ProjectTable(p, kept, exts, m) else Some(kept)
  }

  function DenoteUnion(f: Ir, rest: seq<Ir>, ghost parent: Ir, exts: Extensions, w: World): Option<Table>
    requires SoundNode(f) && f < parent && forall c | c in rest :: SoundNode(c) && c < parent
    decreases parent, 0, |rest|
  {
    if rest == [] then Denote(f, exts, w)
    else UnionTable(DenoteUnion(f, rest[..|rest| - 1], parent, exts, w), Denote(rest[|rest| - 1], exts, w))
  }

  /** Every relation the tree names is there, with the columns the tree gives it. */
  predicate Present(n: Ir, w: World) {
    match n
    case ScanNode(rel, cols) => rel in w.full && w.full[rel].width == |cols|
    case FilterNode(c, _) => Present(c, w)
    case ProjectNode(c, _) => Present(c, w)
    case JoinNode(l, r, _) => Present(l, w) && Present(r, w)
    case SemiJoinNode(l, r, _, _) => Present(l, w) && Present(r, w)
    case AntiJoinNode(l, r, _) => Present(l, w) && Present(r, w)
    case UnionNode(f, rest) => Present(f, w) && forall c | c in rest :: Present(c, w)
    case FlatmapNode(c, _, _) => Present(c, w)
  }
}
