/**
 * The rewrites on what lowering emits.
 *
 * Lowered lists are exactly what the later passes assume: nothing is forced to a delta yet
 * and no JOIN carries a projection, and a column expression whose variable is bound is one
 * both the rewriter and the evaluator read alike. So chain replacement and projection
 * fusion, run one after the other, leave the compiled list's meaning as lowering made it.
 */
module Pipeline {
  import opened Bytes
  import opened Expr
  import opened Postfix
  import opened Serializer
  import opened Naming
  import opened Plan
  import opened Ir
  import L = Lowering
  import LP = LoweringProof
  import J = JoinFusion
  import F = Lftj

  // ---- bound variables are read alike ------------------------------------------------------------------

  /** Bytes the rewriter takes for a column read came from a variable. */
  lemma ReadsComeFromVariables(e: Expr, cols: Layout, exts: Extensions, index: nat)
    requires Sound(e) && SoundExtensions(exts) && Serialized(e, cols, exts, false).Some?
    requires J.ReadsColumn(Serialized(e, cols, exts, false).value, index)
    ensures e.Var? && Serialized(e, cols, exts, false).value[3..] == Clip(EmittedName(cols, e.name))
  {
    var bs := Serialized(e, cols, exts, false).value;
    var tok := VarTok(VAR, bs[3..]);
    ColumnBytes(bs, index);
    hide J.ReadsColumn, Encode, EncodeToken, Serialized, OpTag, CallAbi, VarTag;
    SerializedIsEncoded(e, cols, exts, false);
    LeafBytes(tok);
    var t := Resolve(e, cols, exts, false).value;
    EncodeInjective(t, Leaf(tok));
    OwnTokenIsLast(e, cols, exts, false);
  }

  lemma ColumnBytes(bs: Text, index: nat)
    requires J.ReadsColumn(bs, index)
    ensures |bs| > 6 && |bs[3..]| < 65536 && bs == EncodeToken(VarTok(VAR, bs[3..]))
  {
    Pow256Values();
    LeValueBound(bs[1..3]);
    LeBytesOfValue(bs[1..3]);
    hide LeBytes, LeValue;
    assert bs[1..3] == LeBytes(|bs[3..]|, 2);
    assert bs == [bs[0]] + (bs[1..3] + bs[3..]);
  }

  lemma LeafBytes(tok: Token)
    requires tok.VarTok? && Encodable(tok)
    ensures WellFormed(Leaf(tok)) && Encode(Leaf(tok)) == EncodeToken(tok)
  {
    assert [] + EncodeToken(tok) == EncodeToken(tok);
  }

  /** Column expressions are variables the layout binds. */
  predicate BindsVariables(p: Projection, cols: Layout)
    requires Shaped(p)
  {
    p.exprs.Some? ==> forall i | 0 <= i < p.count && p.exprs.value[i].Some? && p.exprs.value[i].value.Var? ::
      FindColumn(cols, p.exprs.value[i].value.name).Some?
  }

  lemma MapAgrees(p: Projection, cols: Layout, exts: Extensions, resolve: bool)
    requires SoundProjection(p) && SoundExtensions(exts) && |cols| <= TWO32 && BindsVariables(p, cols)
    requires L.MapOp(p, cols, exts, resolve).Some? && J.IsProjection(L.MapOp(p, cols, exts, resolve).value)
    ensures J.NamesAgree(L.MapOp(p, cols, exts, resolve).value)
  {
    var op := L.MapOp(p, cols, exts, resolve).value;
    hide J.ReadsColumn, Serialized, Sound, Sized, VarColumn;
    forall i | 0 <= i < |op.exprs| && op.exprs[i] != []
      ensures VarColumn(op.exprs[i][3..]) == op.indices[i]
    {
      var e := p.exprs.value[i];
      assert L.ExprBytes(e, cols, exts).Some? && op.exprs[i] == L.ExprBytes(e, cols, exts).value;
      BoundReadAgrees(e.value, cols, exts, op.indices[i]);
    }
  }

  lemma BoundReadAgrees(e: Expr, cols: Layout, exts: Extensions, index: nat)
    requires Sound(e) && SoundExtensions(exts) && |cols| <= TWO32 && Serialized(e, cols, exts, false).Some?
    requires e.Var? ==> FindColumn(cols, e.name).Some?
    requires J.ReadsColumn(Serialized(e, cols, exts, false).value, index)
    ensures VarColumn(Serialized(e, cols, exts, false).value[3..]) == index
  {
    hide J.ReadsColumn, Serialized, VarColumn, Sound;
    ReadsComeFromVariables(e, cols, exts, index);
    var c := FindColumn(cols, e.name).value;
    ColNameReadsColumn(c);
    LongEnough(Serialized(e, cols, exts, false).value, index);
    J.EmittedAgrees(Serialized(e, cols, exts, false).value, c, index);
  }

  lemma LongEnough(bs: Text, index: nat)
    requires J.ReadsColumn(bs, index)
    ensures |bs| > 6
  {}

  // ---- what lowering emits -------------------------------------------------------------------

  /** No delta mode yet, no projecting JOIN, and column reads that agree. */
  predicate IsRaw(op: Op) {
    && (op.Variable? ==> op.mode == Auto) && (op.Join? ==> op.mode == Auto && op.project == [])
    && (J.IsProjection(op) ==> J.NamesAgree(op))
  }

  predicate AllRaw(ops: seq<Op>) { forall i | 0 <= i < |ops| :: IsRaw(ops[i]) }

  /** Every projection of the tree names bound variables; column counts are 32-bit. */
  predicate BindsTree(n: Ir)
    requires SoundNode(n)
  {
    if n.ScanNode? then true
    else if n.UnionNode? then BindsTree(n.first) && forall c | c in n.rest :: BindsTree(c)
    else if IsPairing(n) then BindsTree(n.left)
    else
      BindsTree(n.child) && |L.Collect(n.child)| <= TWO32
      && (n.FilterNode? || (Shaped(n.proj) && BindsVariables(n.proj, L.Collect(n.child))))
  }

  lemma RawAppend(a: seq<Op>, b: seq<Op>)
    requires AllRaw(a) && AllRaw(b)
    ensures AllRaw(a + b)
  {
    hide IsRaw;
    assert forall i | |a| <= i < |a + b| :: (a + b)[i] == b[i - |a|];
  }

  lemma RawOne(op: Op)
    requires IsRaw(op)
    ensures AllRaw([op])
  {}

  lemma DerivingRaw(n: Ir, ops: seq<Op>, exts: Extensions)
    requires IsDeriving(n) && SoundNode(n) && SoundExtensions(exts) && AllRaw(ops) && BindsTree(n)
    requires L.DerivingOps(n, Some(ops), exts).Some?
    ensures AllRaw(L.DerivingOps(n, Some(ops), exts).value)
  {
    hide Serialized, L.Collect, L.HasCall, L.ProjectionCalls, L.Serializes, AllRaw, Sound, Sized, SoundProjection, BindsVariables;
    LP.SoundChild(n);
    var cols := L.Collect(n.child);
    match n
    case FilterNode(_, e) =>
      FilterRaw(ops, e, cols, exts);
    case ProjectNode(_, p) =>
      MapRaw(ops, p, cols, exts, true);
    case FlatmapNode(_, g, p) =>
      var kept := ops;
      if g.Some? {
        FilterRaw(ops, g.value, cols, exts);
        kept := L.Append(Some(ops), L.FilterOp(g.value, cols, exts)).value;
      }
      if p.count > 0 {
        MapRaw(kept, p, cols, exts, false);
      }
  }

  lemma FilterRaw(ops: seq<Op>, e: Expr, cols: Layout, exts: Extensions)
    requires Sound(e) && SoundExtensions(exts) && AllRaw(ops)
    ensures var r := L.Append(Some(ops), L.FilterOp(e, cols, exts)); r.Some? ==> AllRaw(r.value)
  {
    var op := L.FilterOp(e, cols, exts);
    if op.Some? {
      RawOne(op.value);
      RawAppend(ops, [op.value]);
    }
  }

  lemma MapRaw(ops: seq<Op>, p: Projection, cols: Layout, exts: Extensions, resolve: bool)
    requires SoundProjection(p) && SoundExtensions(exts) && AllRaw(ops) && |cols| <= TWO32 && BindsVariables(p, cols)
    ensures var r := L.Append(Some(ops), L.MapOp(p, cols, exts, resolve)); r.Some? ==> AllRaw(r.value)
  {
    hide J.ReadsColumn, J.NamesAgree, BindsVariables;
    var op := L.MapOp(p, cols, exts, resolve);
    if op.Some? {
      if J.IsProjection(op.value) {
        MapAgrees(p, cols, exts, resolve);
      }
      RawOne(op.value);
      RawAppend(ops, [op.value]);
    }
  }

  lemma PairingRaw(n: Ir)
    requires IsPairing(n) && SoundNode(n) && L.PairingOp(n).Some?
    ensures IsRaw(L.PairingOp(n).value)
  {
    hide L.RightSide, L.Collect, L.ResolvedKeys;
  }

  /** Such a tree lowers to a raw list. */
  lemma {:induction false} LoweredIsRaw(n: Ir, exts: Extensions)
    requires SoundNode(n) && SoundExtensions(exts) && BindsTree(n) && L.Translated(n, exts).Some?
    ensures AllRaw(L.Translated(n, exts).value)
    decreases n, 1
  {
    hide AllRaw, L.DerivingOps, L.PairingOp, L.TranslatedUnion, SoundNode, BindsVariables;
    if n.ScanNode? {
      RawOne(Variable(n.rel, Auto));
    } else if n.UnionNode? {
      L.UnionParts(n);
      UnionIsRaw(n, n.rest, exts);
      RawOne(Consolidate);
      RawAppend(L.TranslatedUnion(n.first, n.rest, n, exts).value, [Consolidate]);
    } else if IsPairing(n) {
      LP.SoundSides(n);
      LoweredIsRaw(n.left, exts);
      PairingRaw(n);
      RawOne(L.PairingOp(n).value);
      RawAppend(L.Translated(n.left, exts).value, [L.PairingOp(n).value]);
    } else {
      LP.SoundChild(n);
      ChildLowers(n, exts);
      LoweredIsRaw(n.child, exts);
      DerivingRaw(n, L.Translated(n.child, exts).value, exts);
    }
  }

  lemma ChildLowers(n: Ir, exts: Extensions)
    requires IsDeriving(n) && SoundNode(n) && SoundNode(n.child) && SoundExtensions(exts) && L.Translated(n, exts).Some?
    ensures L.Translated(n.child, exts).Some? && L.Translated(n, exts) == L.DerivingOps(n, L.Translated(n.child, exts), exts)
  {
    hide L.FilterOp, L.MapOp, L.HasCall, L.ProjectionCalls, L.Collect;
  }

  lemma {:induction false} UnionIsRaw(n: Ir, rest: seq<Ir>, exts: Extensions)
    requires n.UnionNode? && SoundNode(n.first) && n.first < n && (forall c | c in rest :: SoundNode(c) && c < n && BindsTree(c)) && SoundExtensions(exts)
    requires BindsTree(n.first) && L.TranslatedUnion(n.first, rest, n, exts).Some?
    ensures AllRaw(L.TranslatedUnion(n.first, rest, n, exts).value)
    decreases n, 0, |rest|
  {
    hide AllRaw, L.Translated, SoundNode, BindsTree;
    if rest == [] {
      LoweredIsRaw(n.first, exts);
    } else {
      var init, last := rest[..|rest| - 1], rest[|rest| - 1];
      assert last in rest && forall c | c in init :: c in rest;
      UnionIsRaw(n, init, exts);
      LoweredIsRaw(last, exts);
      RawOne(Concat);
      var a, b := L.TranslatedUnion(n.first, init, n, exts).value, L.Translated(last, exts).value;
      RawAppend(a, b);
      RawAppend(a + b, [Concat]);
    }
  }

  // ---- both passes ----------------------------------------------------------------------------------------

  lemma RawChain(ops: seq<Op>, i: nat, len: nat)
    requires AllRaw(ops) && i + len <= |ops|
    ensures F.AsEmitted(ops, i, len)
  {
    assert forall j | i <= j < i + len :: IsRaw(ops[j]);
  }

  /** Every chain of the list can run as a leapfrog join where it is replaced. */
  predicate ChainsRun(ops: seq<Op>, edb: set<string>, w: World) {
    forall i | 0 <= i < |ops| && F.ChainAt(ops, i, edb) > 0 ::
      LftjRuns(w, F.ChainRels(ops, i, F.ChainAt(ops, i, edb), edb), F.ChainCols(ops, i, F.ChainAt(ops, i, edb), edb))
  }

  lemma {:induction false} RawIsReady(ops: seq<Op>, i: nat, edb: set<string>, w: World)
    requires AllRaw(ops) && ChainsRun(ops, edb, w)
    ensures F.Ready(ops, i, edb, w)
    decreases |ops| - i
  {
    hide AllRaw, F.AsEmitted, F.ChainAt, F.ChainRels, F.ChainCols, LftjRuns;
    if i < |ops| {
      F.ChainAtSize(ops, i, edb);
      var len := F.ChainAt(ops, i, edb);
      if len > 0 {
        RawChain(ops, i, len);
      }
      RawIsReady(ops, i + F.Taken(ops, i, edb), edb, w);
    }
  }

  /** Replacing chains keeps every projection, so they still agree. */
  lemma {:induction false} RewrittenAgrees(ops: seq<Op>, i: nat, edb: set<string>)
    requires J.AllAgree(ops)
    ensures J.AllAgree(F.Rewritten(ops, i, edb))
    decreases |ops| - i
  {
    hide F.ChainAt, F.Leapfrog, J.NamesAgree, J.ReadsColumn;
    if i < |ops| {
      RewrittenAgrees(ops, i + F.Taken(ops, i, edb), edb);
      var op, rest := F.Emitted(ops, i, edb), F.Rewritten(ops, i + F.Taken(ops, i, edb), edb);
      LeapfrogIsNoMap(ops, i, edb);
      forall k | 0 <= k < |[op] + rest| && J.IsProjection(([op] + rest)[k])
        ensures J.NamesAgree(([op] + rest)[k])
      {
        if k > 0 {
          assert ([op] + rest)[k] == rest[k - 1];
        }
      }
    }
  }

  lemma LeapfrogIsNoMap(ops: seq<Op>, i: nat, edb: set<string>)
    requires i < |ops|
    ensures F.Emitted(ops, i, edb) == ops[i] || F.Emitted(ops, i, edb).Lftj?
  {
    hide F.ChainAt, F.ChainRels, F.ChainCols;
    F.ChainAtSize(ops, i, edb);
  }

  lemma RawAgrees(ops: seq<Op>)
    requires AllRaw(ops)
    ensures J.AllAgree(ops)
  {
    hide J.NamesAgree, J.ReadsColumn;
    assert forall i | 0 <= i < |ops| :: IsRaw(ops[i]);
  }

  /** Chain replacement, then projection fusion: what runs at the end is what lowering emitted. */
  lemma RewritesKeepMeaning(n: Ir, exts: Extensions, edb: set<string>, w: World, stack: seq<Rel>)
    requires SoundNode(n) && SoundExtensions(exts) && BindsTree(n) && L.Translated(n, exts).Some? && ValidDb(w.full)
    requires var ops := L.Translated(n, exts).value;
             ChainsRun(ops, edb, w) && J.FuseFrom(F.Rewritten(ops, 0, edb), 0).Some?
    ensures var ops := L.Translated(n, exts).value;
            RunOps(J.FuseFrom(F.Rewritten(ops, 0, edb), 0).value, w, stack) == RunOps(ops, w, stack)
  {
    hide RunOps, L.Translated, J.AllAgree, AllRaw, BindsTree, ChainsRun, F.Rewritten, J.FuseFrom, ValidDb, F.Ready;
    var ops := L.Translated(n, exts).value;
    LoweredIsRaw(n, exts);
    RawIsReady(ops, 0, edb, w);
    F.RewriteRuns(ops, 0, edb, w, stack);
    assert ops[0..] == ops;
    RawAgrees(ops);
    RewrittenAgrees(ops, 0, edb);
    J.FusePreserves(F.Rewritten(ops, 0, edb), 0, w, stack);
  }
}
