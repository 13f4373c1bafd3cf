/**
 * A program whose run stops too early.
 *
 * r has the fact (a) and the rule r(w) :- r(x), e(x, y, z), g(x, w), r(y), r(z). Because r
 * has a fact it counts as extensional, so the first three atoms become a leapfrog join and
 * r(x) is no delta position any more. The seed pass derives (u). The next pass looks for new
 * rows at y and z, finds none, and the run stops, although r(u) at x derives (v). Every
 * condition of the least-model theorem holds but the one on replaced chains.
 */
module LostRow {
  import opened Bytes
  import opened Expr
  import opened Machine
  import opened Postfix
  import opened Serializer
  import opened Naming
  import opened Plan
  import opened RuleBodies
  import opened DeltaStep
  import opened KFusion
  import opened SemiNaive
  import opened Program
  import I = Ir
  import L = Lowering
  import LP = LoweringProof
  import V = Valuations
  import P = Pipeline
  import F = Lftj
  import O = Optimized

  // ---- lowering one more atom ------------------------------------------------------------------

  function Col(x: Text): Column { Column(Some(x), Scalar) }

  /** The body so far, joined with an atom on one shared variable. */
  function With(l: I.Ir, rel: string, cols: Layout, key: Text): I.Ir { I.JoinNode(l, I.ScanNode(rel, cols), [(key, key)]) }

  lemma FindIs(cols: Layout, x: Text, i: nat)
    requires i < |cols| && cols[i].name == Some(x) && forall j | 0 <= j < i :: cols[j].name != Some(x)
    ensures FindColumn(cols, x) == Some(i)
  {}

  lemma AtomLowers(l: I.Ir, rel: string, cols: Layout, key: Text, i: nat, j: nat)
    requires I.SoundNode(l) && L.Translated(l, None).Some?
    requires FindColumn(L.Collect(l), key) == Some(i) && FindColumn(cols, key) == Some(j)
    ensures I.SoundNode(With(l, rel, cols, key)) && L.Collect(With(l, rel, cols, key)) == L.Collect(l) + cols
    ensures L.Translated(With(l, rel, cols, key), None) == Some(L.Translated(l, None).value + [Join(rel, [(i, j)], [], [], Auto)])
  {
    var n := With(l, rel, cols, key);
    var s := n.right;
    assert L.Conditions(s) == [] && L.Base(s) == s && L.RightSide(s) == Some((rel, []));
    assert n.keys[0] == (key, key);
    assert I.KeyColumn(L.Collect(l), key) == Some(i) && I.KeyColumn(cols, key) == Some(j);
    var keys := L.ResolvedKeys(n.keys, L.Collect(l), cols);
    assert keys.Some? && |keys.value| == 1 && keys.value[0] == (i, j);
    assert keys.value == [(i, j)];
    assert L.PairingOp(n) == Some(Join(rel, [(i, j)], [], [], Auto));
  }

  /** The only name both layouts carry. */
  predicate Shares(h: Layout, cols: Layout, key: Text) {
    FindColumn(h, key).Some? && FindColumn(cols, key).Some? &&
    forall i, j | 0 <= i < |h| && 0 <= j < |cols| && h[i].name == cols[j].name :: h[i].name == Some(key)
  }

  lemma AtomIsFormula(l: I.Ir, rel: string, cols: Layout, key: Text)
    requires I.SoundNode(l) && V.IsFormula(l) && V.DistinctNames(cols) && Shares(L.Collect(l), cols, key)
    ensures I.SoundNode(With(l, rel, cols, key)) && V.IsFormula(With(l, rel, cols, key))
  {
    var keys := [(key, key)];
    assert keys[0] in keys;
  }

  lemma AtomIsLowerable(l: I.Ir, rel: string, cols: Layout, key: Text, m: Machine)
    requires I.SoundNode(l) && LP.IsBodyTree(l) && LP.IsLowerable(l, m) && |cols| <= TWO32
    ensures I.SoundNode(With(l, rel, cols, key)) && LP.IsBodyTree(With(l, rel, cols, key)) && LP.IsLowerable(With(l, rel, cols, key), m)
  {
    var s := I.ScanNode(rel, cols);
    assert L.Conditions(s) == [] && LP.IsRightSide(s, m);
  }

  // ---- the rule ---------------------------------------------------------------------------------

  function X(): Text { [120] }
  function Y(): Text { [121] }
  function Z(): Text { [122] }
  function W(): Text { [119] }

  function Atom1(): I.Ir { I.ScanNode("r", [Col(X())]) }
  function Atom2(): I.Ir { With(Atom1(), "e", [Col(X()), Col(Y()), Col(Z())], X()) }
  function Atom3(): I.Ir { With(Atom2(), "g", [Col(X()), Col(W())], X()) }
  function Atom4(): I.Ir { With(Atom3(), "r", [Col(Y())], Y()) }
  function Atoms(): I.Ir { With(Atom4(), "r", [Col(Z())], Z()) }

  function Head(): I.Projection { I.Projection(1, None, Some([Some(Var(W()))]), []) }

  function TheRule(): Rule { Rule(Atoms(), Head()) }

  function TheRules(): Rules { map["r" := [TheRule()]] }

  /** The columns of the body, in order. */
  function Columns(): Layout { [Col(X()), Col(X()), Col(Y()), Col(Z()), Col(X()), Col(W()), Col(Y()), Col(Z())] }

  function Link(rel: string, key: nat): Op { Join(rel, [(key, 0)], [], [], Auto) }

  function BodyOps(): seq<Op> { [Variable("r", Auto), Link("e", 0), Link("g", 0), Link("r", 2), Link("r", 3)] }

  lemma NamesDiffer()
    ensures X() != Y() && X() != Z() && X() != W() && Y() != Z() && Y() != W() && Z() != W()
  {
    assert X()[0] == 120 && Y()[0] == 121 && Z()[0] == 122 && W()[0] == 119;
  }

  lemma ThreeLower()
    ensures I.SoundNode(Atom3()) && L.Translated(Atom3(), None) == Some([Variable("r", Auto), Link("e", 0), Link("g", 0)])
    ensures L.Collect(Atom3()) == Columns()[..6]
  {
    hide L.Translated, L.Collect, FindColumn;
    NamesDiffer();
    FirstLowers();
    FindIs([Col(X())], X(), 0);
    FindIs([Col(X()), Col(Y()), Col(Z())], X(), 0);
    AtomLowers(Atom1(), "e", [Col(X()), Col(Y()), Col(Z())], X(), 0, 0);
    var two := [Col(X()), Col(X()), Col(Y()), Col(Z())];
    assert L.Collect(Atom2()) == two;
    FindIs(two, X(), 0);
    FindIs([Col(X()), Col(W())], X(), 0);
    AtomLowers(Atom2(), "g", [Col(X()), Col(W())], X(), 0, 0);
    assert two + [Col(X()), Col(W())] == Columns()[..6];
    assert [Variable("r", Auto)] + [Link("e", 0)] + [Link("g", 0)] == [Variable("r", Auto), Link("e", 0), Link("g", 0)];
  }

  lemma FirstLowers()
    ensures I.SoundNode(Atom1()) && L.Translated(Atom1(), None) == Some([Variable("r", Auto)]) && L.Collect(Atom1()) == [Col(X())]
  {}

  lemma BodyLowers()
    ensures I.SoundNode(Atom4()) && I.SoundNode(Atoms()) && L.Translated(Atoms(), None) == Some(BodyOps())
    ensures L.Collect(Atom4()) == Columns()[..7] && L.Collect(Atoms()) == Columns()
  {
    hide L.Translated, L.Collect, FindColumn;
    NamesDiffer();
    ThreeLower();
    FindIs(Columns()[..6], Y(), 2);
    FindIs([Col(Y())], Y(), 0);
    AtomLowers(Atom3(), "r", [Col(Y())], Y(), 2, 0);
    assert Columns()[..6] + [Col(Y())] == Columns()[..7];
    FindIs(Columns()[..7], Z(), 3);
    FindIs([Col(Z())], Z(), 0);
    AtomLowers(Atom4(), "r", [Col(Z())], Z(), 3, 0);
    assert Columns()[..7] + [Col(Z())] == Columns();
    assert [Variable("r", Auto), Link("e", 0), Link("g", 0)] + [Link("r", 2)] + [Link("r", 3)] == BodyOps();
  }

  /** Each atom shares one variable with what comes before it. */
  lemma AtomsShare()
    ensures Shares([Col(X())], [Col(X()), Col(Y()), Col(Z())], X()) && Shares(Columns()[..4], [Col(X()), Col(W())], X())
    ensures Shares(Columns()[..6], [Col(Y())], Y()) && Shares(Columns()[..7], [Col(Z())], Z())
    ensures V.DistinctNames([Col(X()), Col(Y()), Col(Z())]) && V.DistinctNames([Col(X()), Col(W())])
  {
    NamesDiffer();
    hide X, Y, Z, W, FindColumn;
    FindIs([Col(X())], X(), 0);
    FindIs([Col(X()), Col(Y()), Col(Z())], X(), 0);
    FindIs(Columns()[..4], X(), 0);
    FindIs([Col(X()), Col(W())], X(), 0);
    FindIs(Columns()[..6], Y(), 2);
    FindIs([Col(Y())], Y(), 0);
    FindIs(Columns()[..7], Z(), 3);
    FindIs([Col(Z())], Z(), 0);
  }

  lemma BodyIsFormula()
    ensures I.SoundNode(Atoms()) && V.IsFormula(Atoms())
  {
    FirstLowers();
    ThreeLower();
    BodyLowers();
    SecondCollects();
    AtomsShare();
    assert V.IsFormula(Atom1());
    hide V.IsFormula, I.SoundNode, L.Translated, Shares, V.DistinctNames, Columns;
    AtomIsFormula(Atom1(), "e", [Col(X()), Col(Y()), Col(Z())], X());
    AtomIsFormula(Atom2(), "g", [Col(X()), Col(W())], X());
    AtomIsFormula(Atom3(), "r", [Col(Y())], Y());
    AtomIsFormula(Atom4(), "r", [Col(Z())], Z());
  }

  lemma SecondCollects()
    ensures I.SoundNode(Atom2()) && L.Collect(Atom2()) == Columns()[..4]
  {
    assert [Col(X())] + [Col(X()), Col(Y()), Col(Z())] == Columns()[..4];
  }

  lemma BodyIsLowerable(m: Machine)
    ensures I.SoundNode(Atoms()) && LP.IsBodyTree(Atoms()) && LP.IsLowerable(Atoms(), m)
  {
    assert I.SoundNode(Atom1()) && LP.IsBodyTree(Atom1()) && LP.IsLowerable(Atom1(), m);
    hide LP.IsLowerable, LP.IsBodyTree, I.SoundNode;
    AtomIsLowerable(Atom1(), "e", [Col(X()), Col(Y()), Col(Z())], X(), m);
    AtomIsLowerable(Atom2(), "g", [Col(X()), Col(W())], X(), m);
    AtomIsLowerable(Atom3(), "r", [Col(Y())], Y(), m);
    AtomIsLowerable(Atom4(), "r", [Col(Z())], Z(), m);
  }

  lemma HeadColumn()
    ensures FindColumn(Columns(), W()) == Some(5) && LookupType(Columns(), W()) == Scalar
  {
    NamesDiffer();
    hide X, Y, Z, W;
    FindIs(Columns(), W(), 5);
  }

  lemma HeadSerializes(cols: Layout)
    ensures I.SoundProjection(Head()) && L.Serializes(Head(), cols, None)
  {
    hide Columns, EncodeToken;
    var e := Var(W());
    assert Head().exprs.value[0] == Some(e);
    assert Args(e) == [] && SerializedAll([], e, cols, None, false) == Some([]);
    assert Serialized(e, cols, None, false).Some?;
  }

  lemma HeadIs()
    ensures I.SoundProjection(Head()) && V.IsHead(Head(), Columns()) && LookupType(Columns(), W()) == Scalar
    ensures L.MapOp(Head(), Columns(), None, true).Some? && L.MapOp(Head(), Columns(), None, true).value.Map?
  {
    HeadColumn();
    HeadSerializes(Columns());
    hide Columns, FindColumn, LookupType, L.Serializes, W, Serialized;
    assert Head().exprs.value[0] == Some(Var(W()));
  }

  function HeadOp(): (op: Op)
    ensures op.Map?
  {
    HeadIs();
    L.MapOp(Head(), Columns(), None, true).value
  }

  function ListOps(): seq<Op> { BodyOps() + [HeadOp()] }

  lemma TreeIsLowerable(m: Machine)
    ensures I.SoundNode(Atoms()) && I.SoundNode(TreeOf(TheRule())) && LP.IsLowerable(TreeOf(TheRule()), m)
  {
    BodyLowers();
    BodyIsLowerable(m);
    HeadIs();
    hide L.Collect, LP.IsBodyTree, I.SoundProjection, L.Translated;
    assert LP.IsLowerable(Atoms(), m) && |L.Collect(Atoms())| <= TWO32;
  }

  lemma RuleIs(m: Machine)
    ensures IsRule(TheRule(), None, m) && OpsOf(TheRule(), None, m) == ListOps()
  {
    hide L.Collect, L.MapOp, LP.IsLowerable, V.IsHead, V.IsFormula, I.SoundProjection, Columns, BodyOps;
    BodyLowers();
    BodyIsFormula();
    TreeIsLowerable(m);
    HeadIs();
    var n := TreeOf(TheRule());
    assert L.Translated(n, None) == L.Append(L.Translated(Atoms(), None), L.MapOp(Head(), L.Collect(Atoms()), None, true));
  }

  lemma AreTheRules(m: Machine)
    ensures IsRule(TheRule(), None, m) && AreRules([TheRule()], None, m) && TheRules().Keys == {"r"} && NegatesOutside(Atoms(), {"r"})
  {
    RuleIs(m);
    hide IsRule;
  }

  lemma ProgramIs(m: Machine)
    ensures IsProgram(TheRules(), None, m) && AreRules([TheRule()], None, m) && NegatesOutside(Atoms(), TheRules().Keys)
    ensures PlanFor([TheRule()], None, m, TheRules().Keys) == ListOps()
  {
    AreTheRules(m);
    RuleIs(m);
    hide IsRule, ListOps, L.Translated, NegatesOutside;
    assert TheRules()["r"] == [TheRule()];
    assert RelationTree([TheRule()]) == TreeOf(TheRule());
  }

  // ---- the leapfrog join -----------------------------------------------------------------------------

  function Extensional(): set<string> { {"r", "e", "g"} }

  /** The relations as declared: all three have facts, r has the rule. */
  function Relations(): seq<F.Declared> { [F.Declared("r", true), F.Declared("e", true), F.Declared("g", true)] }

  lemma ExtensionalIs(n: string)
    ensures n in Extensional() <==> F.IsExtensional(Relations(), ["r"], n)
  {
    var rels := Relations();
    assert rels[0].name == "r" && rels[1].name == "e" && rels[2].name == "g";
  }

  function Lead(): Op { Plan.Op.Lftj(["r", "e", "g"], [0, 0, 0]) }

  function Rest(): seq<Op> { [Lead(), Link("r", 2), Link("r", 3), HeadOp()] }

  lemma ChainsAre()
    ensures F.IsChain(ListOps(), 0, 3, Extensional()) && F.ChainAt(ListOps(), 0, Extensional()) == 3
    ensures forall k | 1 <= k < |ListOps()| :: F.ChainAt(ListOps(), k, Extensional()) == 0
    ensures F.Leapfrog(ListOps(), 0, 3, Extensional()) == Lead()
  {
    hide HeadOp;
    var ops, edb := ListOps(), Extensional();
    assert ops[1] == Link("e", 0) && ops[2] == Link("g", 0) && ops[3] == Link("r", 2);
    assert F.IsLink(ops[1], edb) && F.IsLink(ops[2], edb) && F.SameKeys(ops[1], ops[1]) && F.SameKeys(ops[2], ops[1]);
    assert F.IsChain(ops, 0, 3, edb);
    assert !F.IsChain(ops, 0, 4, edb) by { assert ops[3].keys[0] != ops[1].keys[0]; }
    F.ChainAtIs(ops, 0, 3, edb);
    LeadBuilt(ops, edb);
    forall k | 1 <= k < |ops|
      ensures F.ChainAt(ops, k, edb) == 0
    {
      assert !ops[k].Variable?;
    }
  }

  lemma LeadBuilt(ops: seq<Op>, edb: set<string>)
    requires |ops| >= 3 && ops[..3] == [Variable("r", Auto), Link("e", 0), Link("g", 0)] && F.IsChain(ops, 0, 3, edb)
    ensures F.Leapfrog(ops, 0, 3, edb) == Lead()
  {
    assert ops[0..3] == ops[..3];
    assert ops[1] == ops[..3][1] == Link("e", 0) && Link("e", 0).keys[0] == (0, 0);
    assert F.ChainRels(ops, 0, 3, edb) == ["r", "e", "g"];
    assert F.ChainCols(ops, 0, 3, edb) == [0, 0, 0];
  }

  lemma FirstStep()
    ensures F.Taken(ListOps(), 0, Extensional()) == 3 && F.Emitted(ListOps(), 0, Extensional()) == Lead() && |ListOps()| == 6
    ensures F.Rewritten(ListOps(), 3, Extensional()) == ListOps()[3..]
  {
    ChainsAre();
    hide F.ChainAt, F.Leapfrog, HeadOp;
    F.NothingToRewrite(ListOps(), 3, Extensional());
  }

  lemma RewrittenIs()
    ensures F.Rewritten(ListOps(), 0, Extensional()) == Rest()
  {
    FirstStep();
    hide F.Emitted, F.Taken, HeadOp;
    assert ListOps()[3..] == [Link("r", 2), Link("r", 3), HeadOp()];
  }

  lemma OptimizedIs(m: Machine)
    ensures IsProgram(TheRules(), None, m)
    ensures var s := O.Optimized(TheRules(), None, m, Extensional()); s.plans == map["r" := Rest()] && s.plans.Keys == {"r"}
  {
    ProgramIs(m);
    RewrittenIs();
    hide IsProgram, F.Rewritten, ListOps, Rest, PlanFor, BodiesOf, O.BodiesAfter;
    var s := Compiled(TheRules(), None, m);
    CompiledList(m);
    assert O.Optimized(TheRules(), None, m, Extensional()).plans == map["r" := Rest()];
  }

  lemma CompiledList(m: Machine)
    requires IsProgram(TheRules(), None, m) && AreRules([TheRule()], None, m) && NegatesOutside(Atoms(), TheRules().Keys)
    requires PlanFor([TheRule()], None, m, TheRules().Keys) == ListOps()
    ensures Compiled(TheRules(), None, m).plans == map["r" := ListOps()] && Compiled(TheRules(), None, m).bodies.Keys == {"r"}
  {
    hide ListOps, PlanFor, BodiesOf;
    assert TheRules()["r"] == [TheRule()] && TheRules().Keys == {"r"};
  }

  // ---- the facts and what the rule derives from them -------------------------------------------------------

  /** e holds (a, a, a) and (u, a, a), g holds (a, u) and (u, v), r the given rows. */
  function Facts(a: int, u: int, v: int, r: set<Row>): Db {
    map["r" := Rel(1, r), "e" := Rel(3, {[a, a, a], [u, a, a]}), "g" := Rel(2, {[a, u], [u, v]})]
  }

  /** A scan whose columns are all named is satisfied when the row its names spell is there. */
  lemma ScanSatisfied(rel: string, cols: Layout, row: Row, w: World, val: V.Valuation)
    requires V.DistinctNames(cols) && |row| == |cols| && rel in w.full
    requires forall i | 0 <= i < |cols| :: cols[i].name.Some? && row[i] == val(cols[i].name.value)
    ensures V.Satisfies(I.ScanNode(rel, cols), None, w, val) <==> row in w.full[rel].rows
  {
    if V.Satisfies(I.ScanNode(rel, cols), None, w, val) {
      var t :| t in w.full[rel].rows && V.Matches(cols, t, val);
      assert t == row;
    }
    if row in w.full[rel].rows {
      assert V.Matches(cols, row, val);
    }
  }

  lemma AtomSatisfied(l: I.Ir, rel: string, cols: Layout, key: Text, row: Row, w: World, val: V.Valuation)
    requires I.SoundNode(l) && I.SoundNode(With(l, rel, cols, key)) && V.IsFormula(With(l, rel, cols, key)) && V.IsFormula(l)
    requires V.DistinctNames(cols) && |row| == |cols| && rel in w.full
    requires forall i | 0 <= i < |cols| :: cols[i].name.Some? && row[i] == val(cols[i].name.value)
    ensures V.Satisfies(With(l, rel, cols, key), None, w, val) <==> V.Satisfies(l, None, w, val) && row in w.full[rel].rows
  {
    hide V.DistinctNames;
    ScanSatisfied(rel, cols, row, w, val);
    assert V.Satisfies(With(l, rel, cols, key), None, w, val)
       <==> V.Satisfies(l, None, w, val) && V.Satisfies(I.ScanNode(rel, cols), None, w, val);
  }

  predicate Holds(w: World, x: int, y: int, z: int, o: int)
    requires "r" in w.full && "e" in w.full && "g" in w.full
  {
    [x] in w.full["r"].rows && [x, y, z] in w.full["e"].rows && [x, o] in w.full["g"].rows
    && [y] in w.full["r"].rows && [z] in w.full["r"].rows
  }

  lemma PartsAre()
    ensures I.SoundNode(Atom1()) && I.SoundNode(Atom2()) && I.SoundNode(Atom3()) && I.SoundNode(Atom4()) && I.SoundNode(Atoms())
    ensures V.IsFormula(Atom1()) && V.IsFormula(Atom2()) && V.IsFormula(Atom3()) && V.IsFormula(Atom4()) && V.IsFormula(Atoms())
  {
    hide I.SoundNode, V.IsFormula, L.Translated, L.Collect, Columns;
    FirstLowers();
    SecondCollects();
    ThreeLower();
    BodyLowers();
    BodyIsFormula();
    PartsAreFormulas();
  }

  lemma BodySatisfied(w: World, val: V.Valuation)
    requires "r" in w.full && "e" in w.full && "g" in w.full
    ensures I.SoundNode(Atoms()) && V.IsFormula(Atoms())
    ensures V.Satisfies(Atoms(), None, w, val) <==> Holds(w, val(X()), val(Y()), val(Z()), val(W()))
  {
    hide V.Satisfies, I.SoundNode, V.IsFormula, V.DistinctNames, X, Y, Z, W, Columns, Shares;
    PartsAre();
    AtomsShare();
    SingleNames();
    ScanSatisfied("r", [Col(X())], [val(X())], w, val);
    AtomSatisfied(Atom1(), "e", [Col(X()), Col(Y()), Col(Z())], X(), [val(X()), val(Y()), val(Z())], w, val);
    AtomSatisfied(Atom2(), "g", [Col(X()), Col(W())], X(), [val(X()), val(W())], w, val);
    AtomSatisfied(Atom3(), "r", [Col(Y())], Y(), [val(Y())], w, val);
    AtomSatisfied(Atom4(), "r", [Col(Z())], Z(), [val(Z())], w, val);
  }

  lemma SingleNames()
    ensures V.DistinctNames([Col(X())]) && V.DistinctNames([Col(Y())]) && V.DistinctNames([Col(Z())])
  {}

  lemma PartsAreFormulas()
    requires I.SoundNode(Atoms()) && V.IsFormula(Atoms())
    requires I.SoundNode(Atom4()) && I.SoundNode(Atom3()) && I.SoundNode(Atom2()) && I.SoundNode(Atom1())
    ensures V.IsFormula(Atom4()) && V.IsFormula(Atom3()) && V.IsFormula(Atom2()) && V.IsFormula(Atom1())
  {
    hide V.Natural, L.Collect, V.DistinctNames;
    assert V.IsFormula(Atom4());
    assert V.IsFormula(Atom3());
    assert V.IsFormula(Atom2());
  }

  lemma AnswerIs(m: Machine, val: V.Valuation, t: Row)
    ensures I.SoundProjection(Head()) && V.IsHead(Head(), Columns())
    ensures V.IsAnswer(Head(), Columns(), None, m, val, t) <==> t == [val(W())]
    ensures !V.HeadFails(Head(), Columns(), None, m, val)
  {
    HeadIs();
    hide Columns, V.IsHead, LookupType;
    var e := Var(W());
    assert Head().exprs.value[0] == Some(e);
    assert V.HeadValue(Head(), Columns(), None, m, val, 0) == Some(val(W()));
  }

  ghost predicate SomeRow(w: World, t: Row)
    requires "r" in w.full && "e" in w.full && "g" in w.full
  {
    exists x, y, z, o :: Holds(w, x, y, z, o) && t == [o]
  }

  lemma TheBodyIs(m: Machine)
    ensures IsRule(TheRule(), None, m) && I.SoundNode(Atoms()) && V.IsFormula(Atoms()) && L.Collect(Atoms()) == Columns()
    ensures I.SoundProjection(Head()) && V.IsHead(Head(), Columns())
  {
    hide IsRule, I.SoundNode, V.IsFormula, L.Collect, I.SoundProjection, V.IsHead, L.Translated;
    RuleIs(m);
    BodyIsFormula();
    BodyLowers();
    HeadIs();
  }

  /** The rule read off its operators' meaning: nothing but the five atoms matters. */
  lemma RuleReads(w: World, t: Row)
    requires "r" in w.full && "e" in w.full && "g" in w.full
    ensures IsRule(TheRule(), None, w.m) && !RuleFails(TheRule(), None, w)
    ensures RuleDerives(TheRule(), None, w, t) <==> SomeRow(w, t)
  {
    TheBodyIs(w.m);
    hide IsRule, V.Satisfies, V.IsAnswer, V.HeadFails, Columns, Atoms, Head, L.Collect, I.SoundNode, V.IsFormula, V.IsHead, I.SoundProjection, Holds;
    if RuleFails(TheRule(), None, w) {
      var val: V.Valuation :| V.Satisfies(Atoms(), None, w, val) && V.HeadFails(Head(), Columns(), None, w.m, val);
      AnswerIs(w.m, val, t);
    }
    if RuleDerives(TheRule(), None, w, t) {
      var val: V.Valuation :| V.Satisfies(Atoms(), None, w, val) && V.IsAnswer(Head(), Columns(), None, w.m, val, t);
      BodySatisfied(w, val);
      AnswerIs(w.m, val, t);
    }
    if SomeRow(w, t) {
      var x, y, z, o :| Holds(w, x, y, z, o) && t == [o];
      NamesDiffer();
      var val: V.Valuation := n => if n == X() then x else if n == Y() then y else if n == Z() then z else o;
      hide X, Y, Z, W;
      BodySatisfied(w, val);
      AnswerIs(w.m, val, t);
    }
  }

  /** What the rule derives from the facts. */
  predicate Gives(a: int, u: int, v: int, r: set<Row>, t: Row) {
    (t == [u] && [a] in r) || (t == [v] && [a] in r && [u] in r)
  }

  lemma RuleGives(a: int, u: int, v: int, r: set<Row>, w: World, t: Row)
    requires a != u && w.full == Facts(a, u, v, r)
    ensures IsRule(TheRule(), None, w.m) && !RuleFails(TheRule(), None, w)
    ensures RuleDerives(TheRule(), None, w, t) <==> Gives(a, u, v, r, t)
  {
    hide IsRule, RuleFails, RuleDerives, TheRule;
    RuleReads(w, t);
    if SomeRow(w, t) {
      var x, y, z, o :| Holds(w, x, y, z, o) && t == [o];
      OnlyThese(a, u, v, r, w, x, y, z, o);
    }
    if Gives(a, u, v, r, t) {
      var x := if t == [u] && [a] in r then a else u;
      assert Holds(w, x, a, a, t[0]) && t == [t[0]];
    }
  }

  lemma OnlyThese(a: int, u: int, v: int, r: set<Row>, w: World, x: int, y: int, z: int, o: int)
    requires a != u && w.full == Facts(a, u, v, r) && Holds(w, x, y, z, o)
    ensures Gives(a, u, v, r, [o])
  {
    var e, g: Row := [x, y, z], [x, o];
    assert e == [a, a, a] || e == [u, a, a];
    assert e[0] == x && e[1] == y && e[2] == z && g[0] == x && g[1] == o;
  }

  // ---- the setting --------------------------------------------------------------------------------------

  lemma RulePresent(w: World)
    requires "r" in w.full && "e" in w.full && "g" in w.full
    requires w.full["r"].width == 1 && w.full["e"].width == 3 && w.full["g"].width == 2
    ensures I.Present(TreeOf(TheRule()), w)
  {
    hide X, Y, Z, W, Head;
    assert I.Present(Atom2(), w);
    assert I.Present(Atom3(), w);
    assert I.Present(Atom4(), w);
    assert I.Present(Atoms(), w);
  }

  lemma ChainsRunHere(w: World)
    requires "r" in w.full && "e" in w.full && "g" in w.full
    requires w.full["r"].width == 1 && w.full["e"].width == 3 && w.full["g"].width == 2
    ensures P.ChainsRun(ListOps(), Extensional(), w)
  {
    ChainsAre();
    LeadRuns(w);
    hide F.ChainAt, F.ChainRels, F.ChainCols, LftjRuns, ListOps;
  }

  lemma FactsAre(a: int, u: int, v: int, r: set<Row>)
    requires forall t | t in r :: |t| == 1
    ensures var db := Facts(a, u, v, r);
            && ValidDb(db) && "r" in db && "e" in db && "g" in db
            && db["r"].width == 1 && db["e"].width == 3 && db["g"].width == 2
  {}

  lemma OnlyRule()
    ensures TheRules().Keys == {"r"} && TheRules()["r"] == [TheRule()]
  {}

  lemma FactsHost(a: int, u: int, v: int, r: set<Row>, c: Context)
    requires forall t | t in r :: |t| == 1
    ensures IsProgram(TheRules(), None, c.m) && Hosts(Facts(a, u, v, r), TheRules(), None, c)
    ensures O.LeapfrogsRun(TheRules(), None, Extensional(), Facts(a, u, v, r), c)
  {
    hide IsProgram, PlanFor, P.ChainsRun, I.Present, ListOps, TheRule, TheRules, AreRules, NegatesOutside, Atoms, Facts, ValidDb, TreeOf, Extensional;
    ProgramIs(c.m);
    OnlyRule();
    FactsAre(a, u, v, r);
    var w := PlainIn(Facts(a, u, v, r), c);
    RulePresent(w);
    ChainsRunHere(w);
  }

  lemma LeadRuns(w: World)
    requires "r" in w.full && "e" in w.full && "g" in w.full
    requires w.full["r"].width == 1 && w.full["e"].width == 3 && w.full["g"].width == 2
    requires F.IsChain(ListOps(), 0, 3, Extensional()) && F.Leapfrog(ListOps(), 0, 3, Extensional()) == Lead()
    ensures LftjRuns(w, F.ChainRels(ListOps(), 0, 3, Extensional()), F.ChainCols(ListOps(), 0, 3, Extensional()))
  {
    hide F.ChainRels, F.ChainCols;
  }

  /** The rule's list gives what the rule derives. */
  lemma ListReads(w: World)
    requires "r" in w.full && "e" in w.full && "g" in w.full && ValidDb(w.full)
    requires w.full["r"].width == 1 && w.full["e"].width == 3 && w.full["g"].width == 2
    ensures Answer(ListOps(), w).Some? && forall t: Row :: t in Answer(ListOps(), w).value.rows <==> SomeRow(w, t)
  {
    hide IsProgram, IsRule, PlanFor, Answer, I.Present, ListOps, TheRule, TheRules, NegatesOutside, Atoms, ValidDb, TreeOf, RuleDerives, RuleFails, SomeRow;
    var rules := [TheRule()];
    ProgramIs(w.m);
    OnlyRule();
    RulePresent(w);
    assert rules[0] == TheRule() && TheRule().body == Atoms() by { BodyOfRule(); }
    RelationAnswers(rules, None, w, TheRules().Keys);
    forall t: Row
      ensures RuleDerives(TheRule(), None, w, t) <==> SomeRow(w, t)
      ensures !RuleFails(TheRule(), None, w)
    {
      RuleReads(w, t);
    }
    RuleReads(w, []);
    assert !SomeFails(rules, None, w);
    forall t: Row
      ensures SomeDerives(rules, None, w, t) <==> SomeRow(w, t)
    {
      assert RuleDerives(rules[0], None, w, t) <==> SomeRow(w, t);
    }
  }

  lemma BodyOfRule()
    ensures TheRule().body == Atoms()
  {}

  lemma GivesSome(a: int, u: int, v: int, r: set<Row>, w: World, t: Row)
    requires a != u && w.full == Facts(a, u, v, r)
    ensures SomeRow(w, t) <==> Gives(a, u, v, r, t)
  {
    if SomeRow(w, t) {
      var x, y, z, o :| Holds(w, x, y, z, o) && t == [o];
      OnlyThese(a, u, v, r, w, x, y, z, o);
    }
    if Gives(a, u, v, r, t) {
      var x := if t == [u] && [a] in r then a else u;
      assert Holds(w, x, a, a, t[0]) && t == [t[0]];
    }
  }

  /** And so does its rewritten form. */
  lemma ListGives(a: int, u: int, v: int, r: set<Row>, c: Context)
    requires a != u && forall t | t in r :: |t| == 1
    ensures var ans := Answer(Rest(), PlainIn(Facts(a, u, v, r), c));
            ans.Some? && forall t: Row :: t in ans.value.rows <==> Gives(a, u, v, r, t)
  {
    hide Answer, ListOps, Rest, F.Rewritten, P.AllRaw, P.ChainsRun, SomeRow, Gives, ValidDb, Facts, Extensional;
    var w := PlainIn(Facts(a, u, v, r), c);
    FactsAre(a, u, v, r);
    ListReads(w);
    RewrittenIs();
    ChainsRunHere(w);
    ListIsRaw(c.m);
    O.SameAnswer(ListOps(), Extensional(), w);
    forall t: Row
      ensures SomeRow(w, t) <==> Gives(a, u, v, r, t)
    {
      GivesSome(a, u, v, r, w, t);
    }
  }

  lemma ListIsRaw(m: Machine)
    ensures P.AllRaw(ListOps())
  {
    hide IsProgram, IsRule, PlanFor, ListOps, TheRule, TheRules, NegatesOutside, Atoms, P.AllRaw;
    ProgramIs(m);
    BodyOfRule();
    assert [TheRule()][0] == TheRule();
    O.PlanIsRaw([TheRule()], None, m, TheRules().Keys);
  }

  lemma RuleSatisfied(a: int, u: int, v: int, r: set<Row>, w: World)
    requires a != u && w.full == Facts(a, u, v, r)
    ensures AreRules([TheRule()], None, w.m)
    ensures Satisfied([TheRule()], None, w, r) <==> forall t: Row :: Gives(a, u, v, r, t) ==> t in r
  {
    hide RuleDerives, RuleFails, IsRule, Gives, TheRule, Facts;
    var rules := [TheRule()];
    AreTheRules(w.m);
    forall t: Row
      ensures RuleDerives(TheRule(), None, w, t) <==> Gives(a, u, v, r, t)
    {
      RuleGives(a, u, v, r, w, t);
    }
    RuleGives(a, u, v, r, w, []);
    assert rules[0] == TheRule();
    if Satisfied(rules, None, w, r) {
      assert forall t: Row :: RuleDerives(rules[0], None, w, t) ==> t in r;
    }
  }

  lemma FactsModel(a: int, u: int, v: int, r: set<Row>, c: Context)
    requires a != u
    ensures IsProgram(TheRules(), None, c.m)
    ensures IsModel(TheRules(), None, Facts(a, u, v, r), c) <==> forall t: Row :: Gives(a, u, v, r, t) ==> t in r
  {
    hide IsProgram, IsRule, Gives, PlanFor, ListOps, TheRule, TheRules, NegatesOutside, Atoms, Facts, AreRules, Satisfied;
    var db := Facts(a, u, v, r);
    FactsGrow(a, u, v, r, {});
    ProgramIs(c.m);
    OnlyRule();
    RuleSatisfied(a, u, v, r, PlainIn(db, c));
  }

  // ---- the run -------------------------------------------------------------------------------------------

  lemma PlanOfRest()
    ensures IsBody(Rest()) && Plain(Rest()) && Flat([Rest()]) == Rest() && IsRulePlan(Rest(), [Rest()])
    ensures |Rest()| == 4 && Expanded(Rest(), {"r"}) && IsDeltaPos(Rest()[1], {"r"})
    ensures forall p | 0 <= p < |Rest()| && IsDeltaPos(Rest()[p], {"r"}) :: p == 1 || p == 2
  {
    hide HeadOp;
    var ops := Rest();
    assert ops[1] == Link("r", 2) && ops[2] == Link("r", 3) && ops[3] == HeadOp();
    assert IsDeltaPos(ops[1], {"r"}) && IsDeltaPos(ops[2], {"r"});
  }

  /** The seed pass derives exactly what the rule derives. */
  lemma SeedRows(a: int, u: int, v: int, c: Context)
    requires a != u
    ensures FusedRows(Rest(), {"r"}, RoundWorld(Facts(a, u, v, {[a]}), map[], true, c)) == {[u]}
  {
    hide Answer, Rest, IsBody, Plain, Flat, Sequence, SequenceDerives, Facts, IsDeltaPos, Expanded;
    var db := Facts(a, u, v, {[a]});
    var w := RoundWorld(db, map[], true, c);
    PlanOfRest();
    ListGives(a, u, v, {[a]}, c);
    var ans := Answer(Rest(), PlainIn(db, c)).value;
    var one, two: Row := [a], [u];
    assert one[0] != two[0] && one in {one};
    assert ans.rows == {two};
    forall t | t in FusedRows(Rest(), {"r"}, w)
      ensures t in ans.rows
    {
      var p :| 0 <= p < |Rest()| && IsDeltaPos(Rest()[p], {"r"}) && Answer(Sequence(Rest(), {"r"}, p), w).Some?
        && t in Answer(Sequence(Rest(), {"r"}, p), w).value.rows;
      SequenceSound(Rest(), [Rest()], {"r"}, p, w);
    }
    FusionSeeds(Rest(), [Rest()], {"r"}, w, 1, two);
    var p :| SequenceDerives(Rest(), {"r"}, w, p, two);
    DerivedIsFused(Rest(), {"r"}, w, p, two);
  }

  /** Rows of the leapfrog join hold a at y and z. */
  lemma LeadRows(a: int, u: int, v: int, r: set<Row>, w: World, t: Row)
    requires w.full == Facts(a, u, v, r) && (forall b | b in r :: |b| == 1) && LftjRuns(w, ["r", "e", "g"], [0, 0, 0])
    requires t in LftjRel(w, ["r", "e", "g"], [0, 0, 0]).rows
    ensures |t| == 6 && t[2] == a && t[3] == a
  {
    var rels: seq<string>, cols: seq<nat> := ["r", "e", "g"], [0, 0, 0];
    hide Products;
    var f :| f in w.full["r"].rows && t in Products(w, rels, cols, Cell(f, 0), 3);
    var q, b := F.ProductSplit(w, rels, cols, Cell(f, 0), 2, t);
    var p, e := F.ProductSplit(w, rels, cols, Cell(f, 0), 1, q);
    var none, x := F.ProductSplit(w, rels, cols, Cell(f, 0), 0, p);
    F.ProductNone(w, rels, cols, Cell(f, 0), none);
    assert rels[0] == "r" && rels[1] == "e" && rels[2] == "g";
    assert |x| == 1 && |b| == 2 && |e| == 3 && e[1] == a && e[2] == a;
    assert t == none + x + e + b;
  }

  function Modal(first: DeltaMode, second: DeltaMode): seq<Op> {
    [Lead(), Join("r", [(2, 0)], [], [], first), Join("r", [(3, 0)], [], [], second), HeadOp()]
  }

  lemma SequenceModes(p: int)
    requires p == 1 || p == 2
    ensures Remode(Rest(), FinalModes(Rest(), {"r"}, p)) == if p == 1 then Modal(ForceDelta, ForceFull) else Modal(ForceFull, ForceDelta)
  {
    hide HeadOp;
    var ops := Rest();
    assert ops[3] == HeadOp();
    assert Scan(ops, 4, 0, None, 0) == [] && Scan(ops, 3, 0, None, 0) == [] && Scan(ops, 2, 0, None, 0) == [] && Scan(ops, 1, 0, None, 0) == [];
    assert Segments(ops) == [];
    var tags := TagModes(ops, {"r"}, p);
    assert FinalModes(ops, {"r"}, p) == tags;
    var got, want := Remode(ops, tags), if p == 1 then Modal(ForceDelta, ForceFull) else Modal(ForceFull, ForceDelta);
    assert forall i | 0 <= i < 4 :: got[i] == want[i];
  }

  lemma ModalRuns(w: World, first: DeltaMode, second: DeltaMode)
    requires "r" in w.full && LftjRuns(w, ["r", "e", "g"], [0, 0, 0])
    ensures IsBody(Modal(first, second))
    ensures var l := JoinRel(JoinRel(LftjRel(w, ["r", "e", "g"], [0, 0, 0]), RightOf(w, "r", first), [(2, 0)], []), RightOf(w, "r", second), [(3, 0)], []);
            HeadOp().Map? && RunBody(Modal(first, second), w) == MapRel(HeadOp(), w.m, l)
  {
    hide LftjRel, JoinRel, RightOf, LftjRuns, MapRel, HeadOp;
    var ops := Modal(first, second);
    assert ops[..3] == [ops[0], ops[1], ops[2]] && ops[..3][..2] == [ops[0], ops[1]] && ops[..3][..2][..1] == [ops[0]];
    assert IsBody(ops) && IsBody(ops[..3]) && IsBody(ops[..3][..2]);
    assert RunBody([ops[0]], w) == SourceRel(ops[0], w);
    assert RunBody(ops[..3][..2], w) == Then(ops[1], w, RunBody([ops[0]], w));
    assert RunBody(ops[..3], w) == Then(ops[2], w, RunBody(ops[..3][..2], w));
    assert RunBody(ops, w) == Then(ops[3], w, RunBody(ops[..3], w));
  }

  /** A join on a column that always holds a, against a relation without (a), is empty. */
  lemma NoPartner(l: Rel, r: Rel, i: nat, a: int)
    requires (forall t | t in l.rows :: |t| > i && t[i] == a) && forall b | b in r.rows :: |b| == 1 && b != [a]
    ensures JoinRel(l, r, [(i, 0)], []).rows == {}
  {
    var keys: Keys := [(i, 0)];
    assert keys[0] == (i, 0);
    forall x, b | x in l.rows && b in r.rows
      ensures !KeysMatch(keys, x, b)
    {
      assert b == [b[0]] && KeyCell(x, i) == a && KeyCell(b, 0) == b[0];
    }
  }

  lemma JoinKeeps(l: Rel, r: Rel, keys: Keys, i: nat, a: int)
    requires forall t | t in l.rows :: |t| > i && t[i] == a
    ensures forall t | t in JoinRel(l, r, keys, []).rows :: |t| > i && t[i] == a
  {
    var j := JoinRel(l, r, keys, []);
    forall t | t in j.rows
      ensures |t| > i && t[i] == a
    {
      var x, b :| x in l.rows && b in r.rows && KeysMatch(keys, x, b) && t == Pick([], x + b);
      assert t == x + b;
    }
  }

  lemma EmptyJoin(l: Rel, r: Rel, keys: Keys)
    requires l.rows == {}
    ensures JoinRel(l, r, keys, []).rows == {}
  {}

  /** With (u) new, no sequence yields anything. */
  lemma NothingMore(a: int, u: int, v: int, c: Context)
    requires a != u
    ensures FusedRows(Rest(), {"r"}, RoundWorld(Facts(a, u, v, {[a], [u]}), map["r" := Rel(1, {[u]})], false, c)) == {}
  {
    var w := RoundWorld(Facts(a, u, v, {[a], [u]}), map["r" := Rel(1, {[u]})], false, c);
    PlanOfRest();
    hide Answer, Sequence;
    forall p | 0 <= p < |Rest()| && IsDeltaPos(Rest()[p], {"r"}) && Answer(Sequence(Rest(), {"r"}, p), w).Some?
      ensures Answer(Sequence(Rest(), {"r"}, p), w).value.rows == {}
    {
      SequenceEmpty(a, u, v, w, p);
    }
  }

  lemma ThreeRun(w: World)
    requires "r" in w.full && "e" in w.full && "g" in w.full
    requires w.full["r"].width == 1 && w.full["e"].width == 3 && w.full["g"].width == 2
    ensures LftjRuns(w, ["r", "e", "g"], [0, 0, 0])
  {}

  lemma DeltaRight(a: int, u: int, v: int, w: World)
    requires !w.seed && w.full == Facts(a, u, v, {[a], [u]}) && w.delta == map["r" := Rel(1, {[u]})]
    ensures RightOf(w, "r", ForceDelta) == Rel(1, {[u]})
  {
    var new_: Row := [u];
    assert new_ in {new_};
  }

  /** Either way the delta has no row (a), and the left rows ask for it. */
  lemma JoinsEmpty(l: Rel, x: Rel, y: Rel, a: int, u: int, atFirst: bool)
    requires a != u && (forall t | t in l.rows :: |t| == 6 && t[2] == a && t[3] == a)
    requires (if atFirst then x else y) == Rel(1, {[u]})
    ensures JoinRel(JoinRel(l, x, [(2, 0)], []), y, [(3, 0)], []).rows == {}
  {
    var old_, new_: Row := [a], [u];
    assert new_[0] != old_[0];
    hide JoinRel;
    if atFirst {
      NoPartner(l, x, 2, a);
      EmptyJoin(JoinRel(l, x, [(2, 0)], []), y, [(3, 0)]);
    } else {
      JoinKeeps(l, x, [(2, 0)], 3, a);
      NoPartner(JoinRel(l, x, [(2, 0)], []), y, 3, a);
    }
  }

  lemma SequenceEmpty(a: int, u: int, v: int, w: World, p: int)
    requires a != u && (p == 1 || p == 2) && !w.seed
    requires w.full == Facts(a, u, v, {[a], [u]}) && w.delta == map["r" := Rel(1, {[u]})]
    ensures Answer(Sequence(Rest(), {"r"}, p), w).Some? ==> Answer(Sequence(Rest(), {"r"}, p), w).value.rows == {}
  {
    hide Answer, RunBody, LftjRel, LftjRuns, RightOf, JoinRel, Rest, FinalModes, Modal, MapDefined, MapRow, HeadOp, Facts;
    var rels: seq<string>, cols: seq<nat> := ["r", "e", "g"], [0, 0, 0];
    var first, second := if p == 1 then ForceDelta else ForceFull, if p == 1 then ForceFull else ForceDelta;
    FactsAre(a, u, v, {[a], [u]});
    ThreeRun(w);
    DeltaRight(a, u, v, w);
    SequenceModes(p);
    var l := LftjRel(w, rels, cols);
    forall t | t in l.rows
      ensures |t| == 6 && t[2] == a && t[3] == a
    {
      LeadRows(a, u, v, {[a], [u]}, w, t);
    }
    JoinsEmpty(l, RightOf(w, "r", first), RightOf(w, "r", second), a, u, p == 1);
    ModalRuns(w, first, second);
    ModalAnswer(Modal(first, second), w);
  }

  lemma ModalAnswer(ops: seq<Op>, w: World)
    requires IsBody(ops)
    ensures Answer(ops + [Consolidate], w) == RunBody(ops, w)
  {
    hide RunBody;
    assert Flat([ops]) == ops;
    AnswerIsUnion(ops, [ops], w);
    assert RunUnion([ops], w) == RunBody(ops, w);
  }

  /** One round of a stratum whose one list is this one. */
  lemma RoundIs(s: Stratum, db: Db, delta: Db, seed: bool, c: Context, rows: set<Row>)
    requires s.plans == map["r" := Rest()] && s.plans.Keys == {"r"} && "r" in db
    requires FusedRows(Rest(), {"r"}, RoundWorld(db, delta, seed, c)) == rows
    ensures SemiRound(s, State(db, delta), seed, c)
         == State(db["r" := Extended(db["r"], rows)], map["r" := Rel(db["r"].width, (db["r"].rows + rows) - db["r"].rows)])
  {
    PlanOfRest();
    hide FusedRows, Rest, Expanded;
    var st := SemiRound(s, State(db, delta), seed, c);
    assert DeltaAnswers(s, "r", db, delta, seed, c) == rows;
    assert st.db == db["r" := Extended(db["r"], rows)];
  }

  lemma FactsGrow(a: int, u: int, v: int, r: set<Row>, rows: set<Row>)
    ensures var db := Facts(a, u, v, r);
            "r" in db && db["r"] == Rel(1, r) && db["r" := Extended(db["r"], rows)] == Facts(a, u, v, r + rows)
  {}

  lemma TwoRounds(s: Stratum, a: int, u: int, v: int, c: Context)
    requires a != u && s.plans == map["r" := Rest()] && s.plans.Keys == {"r"}
    ensures Semi(s, Facts(a, u, v, {[a]}), 1, c) == State(Facts(a, u, v, {[a], [u]}), map["r" := Rel(1, {[u]})])
    ensures NoRows(Semi(s, Facts(a, u, v, {[a]}), 2, c).delta)
  {
    var one, two: Row := [a], [u];
    assert one[0] != two[0];
    assert {one} + {two} == {one, two} && {one, two} - {one} == {two};
    hide FusedRows, Rest, SemiRound, Facts;
    var base, db := Facts(a, u, v, {one}), Facts(a, u, v, {one, two});
    SeedRows(a, u, v, c);
    FactsGrow(a, u, v, {one}, {two});
    RoundIs(s, base, map[], true, c, {two});
    assert Semi(s, base, 0, c) == State(base, map[]);
    assert Semi(s, base, 1, c) == SemiRound(s, State(base, map[]), true, c);
    NothingMore(a, u, v, c);
    FactsGrow(a, u, v, {one, two}, {});
    RoundIs(s, db, map["r" := Rel(1, {two})], false, c, {});
    assert Semi(s, base, 2, c) == SemiRound(s, Semi(s, base, 1, c), false, c);
  }

  /** With one relation, a pass of the serial evaluator is a round. */
  lemma SerialIsRound(s: Stratum, st: State, seed: bool, c: Context)
    requires s.plans.Keys == {"r"} && "r" in st.db
    ensures Enumerates(["r"], s) && SerialRound(s, ["r"], st, seed, c) == SemiRound(s, st, seed, c)
  {
    hide DeltaAnswers;
    var order := ["r"];
    assert order[0] == "r" && Enumerates(order, s);
    assert SerialPass(s, order, 0, st.db, st.delta, seed, c) == st.db;
    var rows := DeltaAnswers(s, "r", st.db, st.delta, seed, c);
    assert SerialPass(s, order, 1, st.db, st.delta, seed, c) == st.db["r" := Extended(st.db["r"], rows)];
    assert SemiRound(s, st, seed, c).db == st.db["r" := Extended(st.db["r"], rows)];
  }

  lemma SerialSame(s: Stratum, base: Db, c: Context)
    requires s.plans.Keys == {"r"} && "r" in base && "r" in Semi(s, base, 1, c).db
    ensures Enumerates(["r"], s)
    ensures Serial(s, ["r"], base, 1, c) == Semi(s, base, 1, c) && Serial(s, ["r"], base, 2, c) == Semi(s, base, 2, c)
  {
    hide SerialRound, SemiRound, Enumerates;
    SerialIsRound(s, State(base, map[]), true, c);
    SerialIsRound(s, Semi(s, base, 1, c), false, c);
    assert Serial(s, ["r"], base, 0, c) == Semi(s, base, 0, c) == State(base, map[]);
    assert Serial(s, ["r"], base, 1, c) == SerialRound(s, ["r"], Serial(s, ["r"], base, 0, c), true, c);
    assert Semi(s, base, 1, c) == SemiRound(s, Semi(s, base, 0, c), true, c);
    assert Serial(s, ["r"], base, 2, c) == SerialRound(s, ["r"], Serial(s, ["r"], base, 1, c), false, c);
    assert Semi(s, base, 2, c) == SemiRound(s, Semi(s, base, 1, c), false, c);
  }

  /** A stratum relation is among the replaced ones, and the list is still expanded. */
  lemma ChainIsSwallowed(m: Machine)
    ensures IsProgram(TheRules(), None, m) && !O.NothingSwallowed(TheRules(), None, m, Extensional())
  {
    ProgramIs(m);
    OnlyRule();
    ChainsAre();
    RewrittenIs();
    PlanOfRest();
    assert F.RelAt(ListOps()[0]) == "r" && !F.Avoids(ListOps(), 0, 3, {"r"});
    hide IsProgram, PlanFor, ListOps, F.ChainAt, F.Rewritten, Rest, Expanded, F.Avoids, TheRule, TheRules, AreRules, NegatesOutside;
    assert !F.NoneSwallowed(ListOps(), Extensional(), {"r"});
    assert !O.KeepsDeltas(ListOps(), Extensional(), {"r"});
  }

  /**
   * For any three values: the run of the rewritten program stops, below a model of the
   * rules, at a database that is no model.
   */
  lemma RunStopsTooEarly(a: int, u: int, v: int, c: Context)
    requires a != u && a != v && u != v
    ensures IsProgram(TheRules(), None, c.m)
    ensures var base, x := Facts(a, u, v, {[a]}), Facts(a, u, v, {[a], [u], [v]});
            && Hosts(x, TheRules(), None, c) && O.LeapfrogsRun(TheRules(), None, Extensional(), x, c)
            && IsModel(TheRules(), None, x, c) && Grows(base, x, TheRules().Keys)
    ensures var s, base := O.Optimized(TheRules(), None, c.m, Extensional()), Facts(a, u, v, {[a]});
            NoRows(Semi(s, base, 2, c).delta) && !IsModel(TheRules(), None, Semi(s, base, 1, c).db, c)
    ensures var s, base := O.Optimized(TheRules(), None, c.m, Extensional()), Facts(a, u, v, {[a]});
            && Enumerates(["r"], s) && NoRows(Serial(s, ["r"], base, 2, c).delta)
            && !IsModel(TheRules(), None, Serial(s, ["r"], base, 1, c).db, c)
  {
    hide IsProgram, Hosts, IsModel, Semi, Serial, Enumerates, O.LeapfrogsRun, Rest, O.Optimized, Facts, TheRules, NoRows, Grows, Extensional;
    OnlyRule();
    OptimizedIs(c.m);
    SettingHolds(a, u, v, c);
    var s := O.Optimized(TheRules(), None, c.m, Extensional());
    TwoRounds(s, a, u, v, c);
    FactsGrow(a, u, v, {[a]}, {});
    FactsGrow(a, u, v, {[a], [u]}, {});
    SerialSame(s, Facts(a, u, v, {[a]}), c);
  }

  /** {a, u, v} is a model above the fact, {a, u} is none. */
  lemma SettingHolds(a: int, u: int, v: int, c: Context)
    requires a != u && a != v && u != v
    ensures IsProgram(TheRules(), None, c.m)
    ensures var base, x := Facts(a, u, v, {[a]}), Facts(a, u, v, {[a], [u], [v]});
            && Hosts(x, TheRules(), None, c) && O.LeapfrogsRun(TheRules(), None, Extensional(), x, c)
            && IsModel(TheRules(), None, x, c) && Grows(base, x, TheRules().Keys)
    ensures !IsModel(TheRules(), None, Facts(a, u, v, {[a], [u]}), c)
  {
    hide IsProgram, Hosts, IsModel, O.LeapfrogsRun, Facts, TheRules, Grows, Gives, Extensional;
    OnlyRule();
    var one, two, three: Row := [a], [u], [v];
    GivesHere(a, u, v);
    FactsBelow(a, u, v, {one}, {one, two, three});
    FactsHost(a, u, v, {one, two, three}, c);
    FactsModel(a, u, v, {one, two, three}, c);
    FactsModel(a, u, v, {one, two}, c);
  }

  lemma GivesHere(a: int, u: int, v: int)
    requires a != v && u != v
    ensures Gives(a, u, v, {[a], [u]}, [v]) && [v] !in {[a], [u]}
    ensures forall t: Row :: Gives(a, u, v, {[a], [u], [v]}, t) ==> t in {[a], [u], [v]}
  {
    var one, two, three: Row := [a], [u], [v];
    assert one[0] == a && two[0] == u && three[0] == v;
  }

  lemma FactsBelow(a: int, u: int, v: int, r: set<Row>, s: set<Row>)
    requires r <= s
    ensures Grows(Facts(a, u, v, r), Facts(a, u, v, s), {"r"})
  {}
}
