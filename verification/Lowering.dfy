/**
 * Lowering a tree to operators (wirelog/exec_plan_gen.c).
 *
 * translate_ir_node appends operators children first, so that the list runs on a stack.
 * It resolves every name to a column position through a layout that
 * collect_output_columns computes for each node from the tree alone.
 */
module Lowering {
  import opened Bytes
  import opened Expr
  import opened Serializer
  import opened Naming
  import opened Plan
  import opened Ir

  /** collect_output_columns. */
  function Collect(n: Ir): Layout
    requires SoundNode(n)
  {
    match n
    case ScanNode(_, cols) => cols
    case JoinNode(l, r, _) => Collect(l) + Collect(r)
    case SemiJoinNode(l, _, _, project) => NarrowedHeader(Collect(l), project)
    case AntiJoinNode(l, _, _) => Collect(l)
    case ProjectNode(c, p) => if IsIntermediate(p) then PickedHeader(Collect(c), p) else Collect(c)
    case FilterNode(c, _) => Collect(c)
    case FlatmapNode(c, _, _) => Collect(c)
    case UnionNode(f, _) => Collect(f)
  }

  // ---- extension calls --------------------------------------------------------------

  predicate HasCall(e: Expr) { e.ExtCall? || exists a | a in Args(e) :: HasCall(a) }

  predicate IsDirectCall(e: Expr) { e.ExtCall? && forall a | a in e.args :: !HasCall(a) }

  // ---- right sides ------------------------------------------------------------------------

  const MAX_RIGHT_FILTERS: nat := 32

  /** The conditions of a chain of filters, outermost first. */
  function Conditions(n: Ir): seq<Expr> {
    if n.FilterNode? then [n.cond] + Conditions(n.child) else []
  }

  function Base(n: Ir): Ir {
    if n.FilterNode? then Base(n.child) else n
  }

  function Kept(conds: seq<Expr>): seq<Expr> {
    if |conds| <= MAX_RIGHT_FILTERS then conds else conds[..MAX_RIGHT_FILTERS]
  }

  /** The conditions' bytes, each after the first followed by BAND. None: one does not serialize. */
  function Combined(conds: seq<Expr>, cols: Layout): Option<Text>
    requires forall e | e in conds :: Sound(e)
    decreases |conds|
  {
    if conds == [] then Some([])
    else
      match (Combined(conds[..|conds| - 1], cols), Serialized(conds[|conds| - 1], cols, None, false))
      case (Some(bs), Some(b)) => Some(if |conds| == 1 then b else bs + b + [BAND])
      case _ => None
  }

  lemma {:induction false} SoundConditions(n: Ir)
    requires SoundNode(n)
    ensures forall e | e in Conditions(n) :: Sound(e) && Sized(e)
    ensures forall e | e in Kept(Conditions(n)) :: Sound(e) && Sized(e)
  {
    hide Sound, Sized;
    if n.FilterNode? {
      SoundConditions(n.child);
    }
  }

  /** The relation on the right and its filter. A filter that does not serialize is dropped. */
  function RightSide(n: Ir): Option<(string, Text)>
    requires SoundNode(n)
  {
    SoundConditions(n);
    var conds := Kept(Conditions(n));
    if (exists e | e in conds :: HasCall(e)) || !Base(n).ScanNode? then None
    else Some((Base(n).rel, match Combined(conds, Base(n).cols) case Some(bs) => bs case None => []))
  }

  // ---- keys ---------------------------------------------------------------------------------

  function ResolvedKeys(keys: seq<(Text, Text)>, lh: Layout, rh: Layout): (r: Option<Keys>)
    ensures r.Some? <==> KeysKnown(keys, lh, rh)
  {
    if KeysKnown(keys, lh, rh)
    then Some(seq(|keys|, k requires 0 <= k < |keys| => (KeyColumn(lh, keys[k].0).value, KeyColumn(rh, keys[k].1).value)))
    else None
  }

  // ---- projections -----------------------------------------------------------------------------

  /** The position for an expression that is a known variable; position i otherwise. */
  function ResolvedIndex(e: Option<Expr>, cols: Layout, i: nat): nat {
    if e.Some? && e.value.Var? then match FindColumn(cols, e.value.name) case Some(c) => c case None => i else i
  }

  function Indices(p: Projection, cols: Layout, resolve: bool): seq<nat>
    requires Shaped(p)
  {
    match p.indices
    case Some(ids) => ids
    case None => seq(p.count, i requires 0 <= i < p.count =>
                     if resolve && p.exprs.Some? then ResolvedIndex(p.exprs.value[i], cols, i) else i)
  }

  function ExprBytes(e: Option<Expr>, cols: Layout, exts: Extensions): Option<Text>
    requires SoundExtensions(exts) && (e.Some? ==> Sound(e.value))
  {
    match e
    case None => Some([])
    case Some(x) => Serialized(x, cols, exts, false)
  }

  predicate Serializes(p: Projection, cols: Layout, exts: Extensions)
    requires SoundProjection(p) && SoundExtensions(exts)
  {
    p.exprs.Some? ==> forall i | 0 <= i < p.count :: ExprBytes(p.exprs.value[i], cols, exts).Some?
  }

  function MapOp(p: Projection, cols: Layout, exts: Extensions, resolve: bool): Option<Op>
    requires SoundProjection(p) && SoundExtensions(exts)
  {
    if !Serializes(p, cols, exts) then None
    else Some(Map(Indices(p, cols, resolve),
                  if p.exprs.None? then []
                  else seq(p.count, i requires 0 <= i < p.count => ExprBytes(p.exprs.value[i], cols, exts).value)))
  }

  predicate ProjectionCalls(p: Projection)
    requires Shaped(p)
  {
    p.exprs.Some? && exists i | 0 <= i < p.count :: p.exprs.value[i].Some? && HasCall(p.exprs.value[i].value)
  }

  // ---- the operators of a node ------------------------------------------------------------------

  function Append(ops: Option<seq<Op>>, op: Option<Op>): Option<seq<Op>> {
    if ops.Some? && op.Some? then Some(ops.value + [op.value]) else None
  }

  function FilterOp(e: Expr, cols: Layout, exts: Extensions): Option<Op>
    requires Sound(e) && SoundExtensions(exts)
  {
    match Serialized(e, cols, exts, false)
    case None => None
    case Some(bs) => Some(Filter(bs))
  }

  /** JOIN, SEMIJOIN or ANTIJOIN against a named relation. */
  function OpAgainst(n: Ir, rel: string, keys: Keys, rf: Text): Op
    requires IsPairing(n)
  {
    match n
    case JoinNode(_, _, _) => Join(rel, keys, rf, [], Auto)
    case SemiJoinNode(_, _, _, project) => SemiJoin(rel, keys, rf, project)
    case AntiJoinNode(_, _, _) => AntiJoin(rel, keys, rf)
  }

  function PairingOp(n: Ir): Option<Op>
    requires IsPairing(n) && SoundNode(n)
  {
    match (RightSide(n.right), ResolvedKeys(n.keys, Collect(n.left), Collect(n.right)))
    case (Some((rel, rf)), Some(keys)) => Some(OpAgainst(n, rel, keys, rf))
    case _ => None
  }

  /** The operators a one-child node adds to its child's. */
  function DerivingOps(n: Ir, ops: Option<seq<Op>>, exts: Extensions): Option<seq<Op>>
    requires IsDeriving(n) && SoundNode(n) && SoundExtensions(exts)
  {
    match n
    case FilterNode(c, e) => if HasCall(e) && !IsDirectCall(e) then None else Append(ops, FilterOp(e, Collect(c), exts))
    case ProjectNode(c, p) => Append(ops, MapOp(p, Collect(c), exts, true))
    case FlatmapNode(c, g, p) =>
      var kept := if g.None? then ops
                  else if HasCall(g.value) then None else Append(ops, FilterOp(g.value, Collect(c), exts));
      if p.count == 0 then kept
      else if ProjectionCalls(p) then None else Append(kept, MapOp(p, Collect(c), exts, false))
  }

  /** The operators appended for a node; None: the plan is refused. */
  function Translated(n: Ir, exts: Extensions): Option<seq<Op>>
    requires SoundNode(n) && SoundExtensions(exts)
    decreases n, 1
  {
    if n.ScanNode? then Some([Variable(n.rel, Auto)])
    else if n.UnionNode? then Append(TranslatedUnion(n.first, n.rest, n, exts), Some(Consolidate))
    else if IsPairing(n) then Append(Translated(n.left, exts), PairingOp(n))
    else DerivingOps(n, Translated(n.child, exts), exts)
  }

  /** The first child; every further child is followed by CONCAT. */
  function TranslatedUnion(f: Ir, rest: seq<Ir>, ghost parent: Ir, exts: Extensions): Option<seq<Op>>
    requires SoundNode(f) && f < parent && (forall c | c in rest :: SoundNode(c) && c < parent) && SoundExtensions(exts)
    decreases parent, 0, |rest|
  {
    if rest == [] then Translated(f, exts)
    else
      match (TranslatedUnion(f, rest[..|rest| - 1], parent, exts), Translated(rest[|rest| - 1], exts))
      case (Some(a), Some(b)) => Some(a + b + [Concat])
      case _ => None
  }

  // ---- appending to the list ---------------------------------------------------------------------

  /** The operators emitted so far. */
  class OpList {
    var ops: seq<Op>

    constructor ()
      ensures ops == []
    {
      ops := [];
    }

    method Push(op: Op)
      modifies this
      ensures ops == old(ops) + [op]
    {
      ops := ops + [op];
    }

    /** Appends the operators of a node; a refused node leaves what was emitted before it in front. */
    method TranslateNode(n: Ir, exts: Extensions) returns (ok: bool)
      requires SoundNode(n) && SoundExtensions(exts)
      modifies this
      ensures old(ops) <= ops
      ensures ok == Translated(n, exts).Some?
      ensures ok ==> ops == old(ops) + Translated(n, exts).value
      decreases n, 2
    {
      hide Serialized, RightSide, ResolvedKeys, Collect, Sound, HasCall, SoundProjection, Serializes;
      match n
      case ScanNode(rel, _) =>
        Push(Variable(rel, Auto));
        ok := true;
      case FilterNode(c, e) =>
        if HasCall(e) && !IsDirectCall(e) {
          return false;
        }
        ok := TranslateNode(c, exts);
        if ok {
          ok := TryPush(FilterOp(e, Collect(c), exts));
        }
      case ProjectNode(c, p) =>
        ok := TranslateNode(c, exts);
        if ok {
          ok := TryPush(MapOp(p, Collect(c), exts, true));
        }
      case UnionNode(f, rest) =>
        ok := TranslateUnion(n, exts);
        if ok {
          Push(Consolidate);
        }
      case FlatmapNode(c, g, p) =>
        ok := TranslateFlatmap(n, exts);
      case _ =>
        ok := TranslateNode(n.left, exts);
        if ok {
          ok := TryPush(PairingOp(n));
        }
    }

    method TryPush(op: Option<Op>) returns (ok: bool)
      modifies this
      ensures ok == op.Some?
      ensures ops == if ok then old(ops) + [op.value] else old(ops)
    {
      ok := op.Some?;
      if ok {
        Push(op.value);
      }
    }

    method TranslateFlatmap(n: Ir, exts: Extensions) returns (ok: bool)
      requires n.FlatmapNode? && SoundNode(n) && SoundExtensions(exts)
      modifies this
      ensures old(ops) <= ops
      ensures ok == Translated(n, exts).Some?
      ensures ok ==> ops == old(ops) + Translated(n, exts).value
      decreases n, 1
    {
      hide Serialized, Collect, Sound, HasCall, Serializes, ProjectionCalls;
      if n.guard.Some? && HasCall(n.guard.value) {
        return false;
      }
      ok := TranslateNode(n.child, exts);
      if ok && n.guard.Some? {
        ok := TryPush(FilterOp(n.guard.value, Collect(n.child), exts));
      }
      if ok && n.proj.count > 0 {
        if ProjectionCalls(n.proj) {
          return false;
        }
        ok := TryPush(MapOp(n.proj, Collect(n.child), exts, false));
      }
    }

    method TranslateUnion(n: Ir, exts: Extensions) returns (ok: bool)
      requires n.UnionNode? && SoundNode(n) && SoundExtensions(exts)
      modifies this
      ensures old(ops) <= ops
      ensures ok == TranslatedUnion(n.first, n.rest, n, exts).Some?
      ensures ok ==> ops == old(ops) + TranslatedUnion(n.first, n.rest, n, exts).value
      decreases n, 1
    {
      hide Translated, SoundNode;
      ghost var start := ops;
      UnionParts(n);
      ok := TranslateNode(n.first, exts);
      assert n.rest[..0] == [];
      var i := 0;
      while i < |n.rest| && ok
        invariant i <= |n.rest| && start <= ops
        invariant forall c | c in n.rest[..i] :: SoundNode(c) && c < n
        invariant ok ==> TranslatedUnion(n.first, n.rest[..i], n, exts).Some?
                         && ops == start + TranslatedUnion(n.first, n.rest[..i], n, exts).value
        invariant !ok ==> TranslatedUnion(n.first, n.rest[..i], n, exts).None?
      {
        var c := n.rest[i];
        UnionStep(n, i, exts);
        ok := TranslateNode(c, exts);
        if ok {
          Push(Concat);
        }
        i := i + 1;
      }
      assert ok ==> n.rest[..i] == n.rest;
      if !ok {
        UnionRefused(n, i, exts);
      }
    }
  }

  lemma UnionParts(n: Ir)
    requires n.UnionNode? && SoundNode(n)
    ensures SoundNode(n.first) && n.first < n && forall c | c in n.rest :: SoundNode(c) && c < n
  {}

  lemma UnionStep(n: Ir, i: nat, exts: Extensions)
    requires n.UnionNode? && SoundNode(n) && SoundExtensions(exts) && i < |n.rest|
    ensures SoundNode(n.first) && SoundNode(n.rest[i]) && n.rest[i] < n
    ensures forall c | c in n.rest[..i + 1] :: SoundNode(c) && c < n
    ensures TranslatedUnion(n.first, n.rest[..i + 1], n, exts) ==
            match (TranslatedUnion(n.first, n.rest[..i], n, exts), Translated(n.rest[i], exts))
            case (Some(a), Some(b)) => Some(a + b + [Concat])
            case _ => None
  {
    hide Translated;
    var part := n.rest[..i + 1];
    assert part[..i] == n.rest[..i] && part[i] == n.rest[i];
  }

  lemma {:induction false} UnionRefused(n: Ir, i: nat, exts: Extensions)
    requires n.UnionNode? && SoundNode(n) && SoundExtensions(exts) && i <= |n.rest|
    requires forall c | c in n.rest[..i] :: SoundNode(c) && c < n
    requires TranslatedUnion(n.first, n.rest[..i], n, exts).None?
    ensures TranslatedUnion(n.first, n.rest, n, exts).None?
    decreases |n.rest| - i
  {
    hide Translated, SoundNode;
    if i == |n.rest| {
      assert n.rest[..i] == n.rest;
    } else {
      UnionStep(n, i, exts);
      UnionRefused(n, i + 1, exts);
    }
  }
}
