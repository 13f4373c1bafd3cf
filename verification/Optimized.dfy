/**
 * From rules to their least model, through every rewrite.
 *
 * Chain replacement runs on a relation's whole list, before the list is expanded into delta
 * sequences. Chains never cross from one rule to the next, so a rewritten plan is again a
 * plan of bodies, each of them rewritten. A list that is still expanded afterwards must not
 * have lost a relation of its stratum to a leapfrog join; then the rewritten stratum,
 * iterated, still stops at the least model of the rules. Projection fusion comes last and leaves the
 * answer of every list of such a round as it is.
 */
module Optimized {
  import opened Bytes
  import opened Expr
  import opened Machine
  import opened Serializer
  import opened Plan
  import opened RuleBodies
  import opened DeltaStep
  import opened KFusion
  import opened SemiNaive
  import opened Program
  import I = Ir
  import L = Lowering
  import LP = LoweringProof
  import V = Valuations
  import P = Pipeline
  import S = Swallowed
  import F = Lftj
  import J = JoinFusion
  import Seqs

  // ---- chains stay inside one rule ---------------------------------------------------------------------

  predicate StartsFresh(b: seq<Op>) { b == [] || !b[0].Join? }

  lemma ChainInFront(a: seq<Op>, b: seq<Op>, i: nat, edb: set<string>)
    requires i < |a| && StartsFresh(b)
    ensures F.ChainAt(a + b, i, edb) == F.ChainAt(a, i, edb)
  {
    forall end: nat
      ensures F.IsChain(a + b, i, end, edb) <==> F.IsChain(a, i, end, edb)
    {
      ChainSame(a, b, i, end, edb);
    }
    if F.IsChain(a, i, i + 1, edb) {
      var e := F.ChainEnd(a, i, i + 1, edb);
      F.ChainAtIs(a, i, e, edb);
      F.ChainAtIs(a + b, i, e, edb);
    }
  }

  lemma ChainSame(a: seq<Op>, b: seq<Op>, i: nat, end: nat, edb: set<string>)
    requires i < |a| && StartsFresh(b)
    ensures F.IsChain(a + b, i, end, edb) <==> F.IsChain(a, i, end, edb)
  {
    assert forall j | 0 <= j < |a| :: (a + b)[j] == a[j];
    assert b != [] ==> (a + b)[|a|] == b[0];
  }

  lemma ChainBehind(a: seq<Op>, b: seq<Op>, j: nat, edb: set<string>)
    requires j < |b|
    ensures F.ChainAt(a + b, |a| + j, edb) == F.ChainAt(b, j, edb)
  {
    forall end: nat
      ensures F.IsChain(a + b, |a| + j, |a| + end, edb) <==> F.IsChain(b, j, end, edb)
    {
      ChainShifts(a, b, j, end, edb);
    }
    assert F.IsChain(a + b, |a| + j, |a| + (j + 1), edb) <==> F.IsChain(b, j, j + 1, edb);
    if F.IsChain(b, j, j + 1, edb) {
      var e := F.ChainEnd(b, j, j + 1, edb);
      F.ChainAtIs(b, j, e, edb);
      assert F.IsChain(a + b, |a| + j, |a| + (e + 1), edb) <==> F.IsChain(b, j, e + 1, edb);
      F.ChainAtIs(a + b, |a| + j, |a| + e, edb);
    }
  }

  lemma ChainShifts(a: seq<Op>, b: seq<Op>, j: nat, end: nat, edb: set<string>)
    requires j < |b|
    ensures F.IsChain(a + b, |a| + j, |a| + end, edb) <==> F.IsChain(b, j, end, edb)
  {
    var ab := a + b;
    assert forall k | |a| <= k < |ab| :: ab[k] == b[k - |a|];
    if F.IsChain(ab, |a| + j, |a| + end, edb) {
      forall k | j < k < end
        ensures F.IsLink(b[k], edb) && F.SameKeys(b[k], b[j + 1])
      {
        assert F.IsLink(ab[|a| + k], edb) && F.SameKeys(ab[|a| + k], ab[|a| + j + 1]);
      }
    }
  }

  /** Equal stretches are replaced by equal operators. */
  lemma SameEmitted(x: seq<Op>, i: nat, y: seq<Op>, j: nat, edb: set<string>)
    requires i < |x| && j < |y| && F.ChainAt(x, i, edb) == F.ChainAt(y, j, edb)
    requires x[i] == y[j] && i + F.ChainAt(x, i, edb) <= |x| && j + F.ChainAt(x, i, edb) <= |y|
    requires x[i..i + F.ChainAt(x, i, edb)] == y[j..j + F.ChainAt(x, i, edb)]
    ensures F.Emitted(x, i, edb) == F.Emitted(y, j, edb)
  {
    F.ChainAtSize(x, i, edb);
    F.ChainAtSize(y, j, edb);
    hide F.ChainAt;
    var len := F.ChainAt(x, i, edb);
    if len > 0 {
      assert x[i + 1] == x[i..i + len][1] == y[j..j + len][1] == y[j + 1];
    }
  }

  lemma StepBehind(a: seq<Op>, b: seq<Op>, j: nat, edb: set<string>)
    requires j < |b|
    ensures F.Taken(a + b, |a| + j, edb) == F.Taken(b, j, edb)
    ensures F.Emitted(a + b, |a| + j, edb) == F.Emitted(b, j, edb)
  {
    ChainBehind(a, b, j, edb);
    F.ChainAtSize(b, j, edb);
    hide F.ChainAt, F.Emitted;
    var len := F.ChainAt(b, j, edb);
    assert (a + b)[|a| + j..|a| + j + len] == b[j..j + len];
    SameEmitted(a + b, |a| + j, b, j, edb);
  }

  lemma StepInFront(a: seq<Op>, b: seq<Op>, i: nat, edb: set<string>)
    requires i < |a| && StartsFresh(b)
    ensures F.Taken(a + b, i, edb) == F.Taken(a, i, edb)
    ensures F.Emitted(a + b, i, edb) == F.Emitted(a, i, edb)
  {
    ChainInFront(a, b, i, edb);
    F.ChainAtSize(a, i, edb);
    hide F.ChainAt, F.Emitted;
    var len := F.ChainAt(a, i, edb);
    assert (a + b)[i..i + len] == a[i..i + len];
    SameEmitted(a + b, i, a, i, edb);
  }

  lemma {:induction false} RewriteBehind(a: seq<Op>, b: seq<Op>, j: nat, edb: set<string>)
    requires j <= |b|
    ensures F.Rewritten(a + b, |a| + j, edb) == F.Rewritten(b, j, edb)
    decreases |b| - j
  {
    hide F.Emitted, F.Taken;
    if j < |b| {
      StepBehind(a, b, j, edb);
      RewriteBehind(a, b, j + F.Taken(b, j, edb), edb);
    }
  }

  lemma {:induction false} RewriteSplits(a: seq<Op>, b: seq<Op>, i: nat, edb: set<string>)
    requires i <= |a| && StartsFresh(b)
    ensures F.Rewritten(a + b, i, edb) == F.Rewritten(a, i, edb) + F.Rewritten(b, 0, edb)
    decreases |a| - i
  {
    hide F.Emitted, F.Taken;
    if i == |a| {
      RewriteBehind(a, b, 0, edb);
    } else {
      StepInFront(a, b, i, edb);
      RewriteSplits(a, b, i + F.Taken(a, i, edb), edb);
      Seqs.ConcatAssoc([F.Emitted(a, i, edb)], F.Rewritten(a, i + F.Taken(a, i, edb), edb), F.Rewritten(b, 0, edb));
    }
  }

  // ---- bodies stay bodies --------------------------------------------------------------------------------

  /** Only the front of a body can be replaced. */
  lemma BodyRewritten(ops: seq<Op>, edb: set<string>)
    requires IsBody(ops)
    ensures var n := F.Taken(ops, 0, edb); n <= |ops| && F.Rewritten(ops, 0, edb) == [F.Emitted(ops, 0, edb)] + ops[n..]
  {
    var n := F.Taken(ops, 0, edb);
    forall k | 1 <= k < |ops|
      ensures F.ChainAt(ops, k, edb) == 0
    {
      assert IsChainOp(ops[k]);
    }
    F.NothingToRewrite(ops, n, edb);
  }

  lemma BodyStaysBody(ops: seq<Op>, edb: set<string>)
    requires IsBody(ops) && Plain(ops)
    ensures IsBody(F.Rewritten(ops, 0, edb)) && Plain(F.Rewritten(ops, 0, edb))
  {
    BodyRewritten(ops, edb);
    P.LeapfrogIsNoMap(ops, 0, edb);
    hide F.Emitted, F.Taken, F.Rewritten;
    var n, r := F.Taken(ops, 0, edb), F.Rewritten(ops, 0, edb);
    assert IsSource(ops[0]) && PlainOp(ops[0]);
    forall k | 1 <= k < |r|
      ensures IsChainOp(r[k]) && PlainOp(r[k])
    {
      assert r[k] == ops[n + k - 1] && IsChainOp(ops[n + k - 1]) && PlainOp(ops[n + k - 1]);
    }
  }

  function Each(bodies: seq<seq<Op>>, edb: set<string>): (r: seq<seq<Op>>)
    ensures |r| == |bodies|
  {
    seq(|bodies|, i requires 0 <= i < |bodies| => F.Rewritten(bodies[i], 0, edb))
  }

  lemma OneKept(op: Op, edb: set<string>)
    requires op == Concat || op == Consolidate
    ensures F.Rewritten([op], 0, edb) == [op]
  {
    assert F.Rewritten([op], 1, edb) == [];
  }

  /** Rewriting the list is rewriting each body in it. */
  lemma {:induction false} FlatRewritten(bodies: seq<seq<Op>>, edb: set<string>)
    requires AllBodies(bodies)
    ensures F.Rewritten(Flat(bodies), 0, edb) == Flat(Each(bodies, edb))
    decreases |bodies|
  {
    hide F.Rewritten;
    if |bodies| > 1 {
      var init, last := bodies[..|bodies| - 1], bodies[|bodies| - 1];
      assert Each(bodies, edb)[..|bodies| - 1] == Each(init, edb);
      FlatRewritten(init, edb);
      RewriteSplits(Flat(init), last, 0, edb);
      RewriteSplits(Flat(init) + last, [Concat], 0, edb);
      OneKept(Concat, edb);
    }
  }

  lemma PlanRewritten(ops: seq<Op>, bodies: seq<seq<Op>>, edb: set<string>)
    requires IsRulePlan(ops, bodies) && Plain(ops)
    ensures IsRulePlan(F.Rewritten(ops, 0, edb), Each(bodies, edb)) && Plain(F.Rewritten(ops, 0, edb))
  {
    hide F.Rewritten, Flat, IsBody, PlainOp;
    FlatRewritten(bodies, edb);
    RewriteSplits(Flat(bodies), [Consolidate], 0, edb);
    OneKept(Consolidate, edb);
    forall i | 0 <= i < |bodies|
      ensures IsBody(F.Rewritten(bodies[i], 0, edb)) && Plain(F.Rewritten(bodies[i], 0, edb))
    {
      BodyIsPlain(ops, bodies, i);
      BodyStaysBody(bodies[i], edb);
    }
    FlatIsPlain(Each(bodies, edb));
  }

  lemma {:induction false} RewrittenNegates(ops: seq<Op>, i: nat, edb: set<string>, idb: set<string>)
    requires NegatesEarlier(ops, idb)
    ensures NegatesEarlier(F.Rewritten(ops, i, edb), idb)
    decreases |ops| - i
  {
    if i < |ops| {
      P.LeapfrogIsNoMap(ops, i, edb);
      hide F.Emitted, F.Taken;
      RewrittenNegates(ops, i + F.Taken(ops, i, edb), edb, idb);
      var op, rest := F.Emitted(ops, i, edb), F.Rewritten(ops, i + F.Taken(ops, i, edb), edb);
      assert forall k | 1 <= k < |[op] + rest| :: ([op] + rest)[k] == rest[k - 1];
    }
  }

  lemma EachNegates(bodies: seq<seq<Op>>, edb: set<string>, idb: set<string>)
    requires AllNegateEarlier(bodies, idb)
    ensures AllNegateEarlier(Each(bodies, edb), idb)
  {
    hide F.Rewritten, NegatesEarlier;
    forall i | 0 <= i < |bodies|
      ensures NegatesEarlier(F.Rewritten(bodies[i], 0, edb), idb)
    {
      RewrittenNegates(bodies[i], 0, edb, idb);
    }
  }

  lemma EachStratified(bodies: seq<seq<Op>>, edb: set<string>, idb: set<string>)
    requires AllStratified(bodies, idb) && edb !! idb
    ensures AllStratified(Each(bodies, edb), idb)
  {
    hide F.Rewritten, Stratified;
    forall i | 0 <= i < |bodies|
      ensures Stratified(F.Rewritten(bodies[i], 0, edb), idb)
    {
      S.DisjointKeepsStratified(bodies[i], 0, edb, idb);
    }
  }

  lemma BodyIsPlain(ops: seq<Op>, bodies: seq<seq<Op>>, i: nat)
    requires IsRulePlan(ops, bodies) && Plain(ops) && i < |bodies|
    ensures Plain(bodies[i])
  {
    hide PlainOp, IsBody;
    FrontIsPlain(ops, Flat(bodies));
    PartIsPlain(bodies, i);
  }

  lemma FrontIsPlain(ops: seq<Op>, front: seq<Op>)
    requires Plain(ops) && (ops == front || ops == front + [Consolidate])
    ensures Plain(front)
  {
    hide PlainOp;
    assert forall k | 0 <= k < |front| :: front[k] == ops[k];
  }

  lemma {:induction false} PartIsPlain(bodies: seq<seq<Op>>, i: nat)
    requires |bodies| >= 1 && Plain(Flat(bodies)) && i < |bodies|
    ensures Plain(bodies[i])
    decreases |bodies|
  {
    hide PlainOp;
    if |bodies| > 1 {
      var init, last := bodies[..|bodies| - 1], bodies[|bodies| - 1];
      var all := Flat(bodies);
      assert all == Flat(init) + last + [Concat];
      assert forall k | 0 <= k < |Flat(init)| :: Flat(init)[k] == all[k];
      assert forall k | 0 <= k < |last| :: last[k] == all[|Flat(init)| + k];
      if i < |bodies| - 1 {
        PartIsPlain(init, i);
      }
    }
  }

  // ---- the rewritten stratum ---------------------------------------------------------------------------------

  /**
   * What has to hold of a list for its deltas to stay complete: if it is still expanded after
   * the replacement, no chain that was replaced names a relation of the stratum.
   */
  predicate KeepsDeltas(ops: seq<Op>, edb: set<string>, idb: set<string>) {
    Expanded(F.Rewritten(ops, 0, edb), idb) ==> F.NoneSwallowed(ops, edb, idb)
  }

  /** The bodies of the rewritten list; replaced relations outside the stratum where that makes no difference. */
  function BodiesAfter(ops: seq<Op>, bodies: seq<seq<Op>>, edb: set<string>, idb: set<string>): seq<seq<Op>> {
    Each(bodies, if F.NoneSwallowed(ops, edb, idb) then edb - idb else edb)
  }

  lemma PlanStaysValid(ops: seq<Op>, bodies: seq<seq<Op>>, edb: set<string>, idb: set<string>)
    requires IsValidPlan(ops, bodies, idb) && AllStratified(bodies, idb) && KeepsDeltas(ops, edb, idb)
    ensures IsValidPlan(F.Rewritten(ops, 0, edb), BodiesAfter(ops, bodies, edb, idb), idb)
  {
    hide F.Rewritten, IsRulePlan, Plain, AllStratified, AllNegateEarlier, Each, Expanded, F.NoneSwallowed;
    var less := if F.NoneSwallowed(ops, edb, idb) then edb - idb else edb;
    if F.NoneSwallowed(ops, edb, idb) {
      F.SameRewrite(ops, 0, edb, idb);
      EachStratified(bodies, less, idb);
    }
    PlanRewritten(ops, bodies, less);
    EachNegates(bodies, less, idb);
  }

  function Replaced(s: Stratum, edb: set<string>): Stratum
    requires s.plans.Keys == s.bodies.Keys
  {
    Stratum(map n | n in s.plans :: F.Rewritten(s.plans[n], 0, edb),
            map n | n in s.bodies :: BodiesAfter(s.plans[n], s.bodies[n], edb, s.plans.Keys))
  }

  /** Where every list keeps its deltas, the result is as semi-naive evaluation asks. */
  lemma ReplacedIsValid(s: Stratum, edb: set<string>)
    requires Valid(s) && AllPlansStratified(s) && forall n | n in s.plans :: KeepsDeltas(s.plans[n], edb, s.plans.Keys)
    ensures Valid(Replaced(s, edb)) && Replaced(s, edb).plans.Keys == s.plans.Keys
  {
    hide F.Rewritten, IsValidPlan, AllStratified, BodiesAfter, KeepsDeltas;
    var r := Replaced(s, edb);
    assert r.plans.Keys == s.plans.Keys && r.bodies.Keys == s.bodies.Keys;
    forall n | n in r.plans
      ensures IsValidPlan(r.plans[n], r.bodies[n], r.plans.Keys)
    {
      PlanStaysValid(s.plans[n], s.bodies[n], edb, s.plans.Keys);
    }
  }

  /** Lists as lowering emits them, whose chains can run in this database. */
  ghost predicate CanReplace(s: Stratum, edb: set<string>, db: Db, c: Context) {
    ValidDb(db) && forall n | n in s.plans :: P.AllRaw(s.plans[n]) && P.ChainsRun(s.plans[n], edb, PlainIn(db, c))
  }

  lemma SameAnswer(ops: seq<Op>, edb: set<string>, w: World)
    requires P.AllRaw(ops) && P.ChainsRun(ops, edb, w) && ValidDb(w.full)
    ensures Answer(F.Rewritten(ops, 0, edb), w) == Answer(ops, w)
  {
    hide P.AllRaw, P.ChainsRun, RunOps, F.Rewritten, F.Ready, ValidDb;
    P.RawIsReady(ops, 0, edb, w);
    F.RewriteRuns(ops, 0, edb, w, []);
    assert ops[0..] == ops;
  }

  lemma ClosedSame(s: Stratum, edb: set<string>, db: Db, c: Context)
    requires s.plans.Keys == s.bodies.Keys && CanReplace(s, edb, db, c)
    ensures IsClosed(Replaced(s, edb), db, c) <==> IsClosed(s, db, c)
  {
    hide P.AllRaw, P.ChainsRun, Answer, F.Rewritten, ValidDb, BodiesAfter;
    var r := Replaced(s, edb);
    assert r.plans.Keys == s.plans.Keys;
    forall n | n in s.plans
      ensures Answer(r.plans[n], PlainIn(db, c)) == Answer(s.plans[n], PlainIn(db, c))
    {
      SameAnswer(s.plans[n], edb, PlainIn(db, c));
    }
  }

  /** Whether a chain can run depends on widths alone. */
  lemma SmallerReplaces(s: Stratum, edb: set<string>, db: Db, x: Db, c: Context)
    requires CanReplace(s, edb, x, c) && Grows(db, x, s.plans.Keys)
    ensures CanReplace(s, edb, db, c)
  {
    hide P.AllRaw, P.ChainsRun;
    forall n | n in db
      ensures ValidRel(db[n])
    {
      assert ValidRel(x[n]);
    }
    forall n | n in s.plans
      ensures P.ChainsRun(s.plans[n], edb, PlainIn(db, c))
    {
      SmallerRuns(s.plans[n], edb, PlainIn(x, c), PlainIn(db, c));
    }
  }

  lemma SmallerRuns(ops: seq<Op>, edb: set<string>, w: World, u: World)
    requires P.ChainsRun(ops, edb, w) && u.full.Keys == w.full.Keys && forall r | r in w.full :: u.full[r].width == w.full[r].width
    ensures P.ChainsRun(ops, edb, u)
  {
    hide F.ChainAt, F.ChainRels, F.ChainCols;
  }

  // ---- what lowering emits for rules ------------------------------------------------------------------------

  lemma {:induction false} FormulaBinds(n: I.Ir, m: Machine)
    requires I.SoundNode(n) && V.IsFormula(n) && LP.IsLowerable(n, m)
    ensures P.BindsTree(n)
    decreases n
  {
    hide L.Collect, LP.IsRightSide, Sound, V.VarsNamed;
    if n.FilterNode? {
      FormulaBinds(n.child, m);
    } else if !n.ScanNode? {
      FormulaBinds(n.left, m);
    }
  }

  lemma HeadBinds(p: I.Projection, h: Layout)
    requires V.IsHead(p, h)
    ensures I.Shaped(p) && P.BindsVariables(p, h)
  {
    forall i | 0 <= i < p.count && p.exprs.value[i].Some? && p.exprs.value[i].value.Var?
      ensures FindColumn(h, p.exprs.value[i].value.name).Some?
    {
      assert V.VarsNamed(p.exprs.value[i].value, h);
    }
  }

  lemma RuleBinds(r: Rule, exts: Extensions, m: Machine)
    requires IsRule(r, exts, m)
    ensures P.BindsTree(TreeOf(r))
  {
    hide V.IsFormula, V.IsHead, L.Translated, L.Collect, P.BindsVariables, I.SoundProjection;
    FormulaBinds(r.body, m);
    HeadBinds(r.head, L.Collect(r.body));
  }

  lemma PlanIsRaw(rules: seq<Rule>, exts: Extensions, m: Machine, idb: set<string>)
    requires AreRules(rules, exts, m) && forall i | 0 <= i < |rules| :: NegatesOutside(rules[i].body, idb)
    ensures P.AllRaw(PlanFor(rules, exts, m, idb))
  {
    hide IsRule, P.AllRaw, L.Translated, NegatesOutside;
    RelationEmits(rules, exts, m, idb);
    RelationBinds(rules, exts, m);
    P.LoweredIsRaw(RelationTree(rules), exts);
  }

  lemma RelationBinds(rules: seq<Rule>, exts: Extensions, m: Machine)
    requires AreRules(rules, exts, m) && I.SoundNode(RelationTree(rules))
    ensures P.BindsTree(RelationTree(rules))
  {
    hide IsRule, P.BindsVariables, L.Collect;
    forall i | 0 <= i < |rules|
      ensures I.SoundNode(TreeOf(rules[i])) && P.BindsTree(TreeOf(rules[i]))
    {
      RuleSound(rules[i], exts, m);
      RuleBinds(rules[i], exts, m);
    }
  }

  lemma RuleSound(r: Rule, exts: Extensions, m: Machine)
    requires IsRule(r, exts, m)
    ensures I.SoundNode(TreeOf(r))
  {}

  // ---- the least model, through chain replacement -------------------------------------------------------------

  /** Every chain of the program can run in this database. */
  ghost predicate LeapfrogsRun(rules: Rules, exts: Extensions, edb: set<string>, db: Db, c: Context)
    requires IsProgram(rules, exts, c.m)
  {
    forall n | n in rules :: P.ChainsRun(PlanFor(rules[n], exts, c.m, rules.Keys), edb, PlainIn(db, c))
  }

  /** Every list of the program keeps its deltas. */
  ghost predicate NothingSwallowed(rules: Rules, exts: Extensions, m: Machine, edb: set<string>)
    requires IsProgram(rules, exts, m)
  {
    forall n | n in rules :: KeepsDeltas(PlanFor(rules[n], exts, m, rules.Keys), edb, rules.Keys)
  }

  lemma OptimizedIsValid(rules: Rules, exts: Extensions, m: Machine, edb: set<string>)
    requires IsProgram(rules, exts, m) && NothingSwallowed(rules, exts, m, edb)
    ensures Valid(Optimized(rules, exts, m, edb)) && Optimized(rules, exts, m, edb).plans.Keys == rules.Keys
  {
    hide AreRules, NegatesOutside, Valid, AllPlansStratified, KeepsDeltas, PlanFor, BodiesOf, F.Rewritten, BodiesAfter;
    var s := Compiled(rules, exts, m);
    CompiledIsValid(rules, exts, m);
    assert forall n | n in s.plans :: s.plans[n] == PlanFor(rules[n], exts, m, rules.Keys);
    ReplacedIsValid(s, edb);
  }

  lemma CompiledReplaces(rules: Rules, exts: Extensions, edb: set<string>, db: Db, c: Context)
    requires IsProgram(rules, exts, c.m) && ValidDb(db) && LeapfrogsRun(rules, exts, edb, db, c)
    ensures CanReplace(Compiled(rules, exts, c.m), edb, db, c)
  {
    hide AreRules, NegatesOutside, P.AllRaw, P.ChainsRun, PlanFor, BodiesOf, ValidDb;
    var s := Compiled(rules, exts, c.m);
    forall n | n in s.plans
      ensures P.AllRaw(s.plans[n]) && P.ChainsRun(s.plans[n], edb, PlainIn(db, c))
    {
      PlanIsRaw(rules[n], exts, c.m, rules.Keys);
    }
  }

  ghost function Optimized(rules: Rules, exts: Extensions, m: Machine, edb: set<string>): Stratum
    requires IsProgram(rules, exts, m)
  {
    Replaced(Compiled(rules, exts, m), edb)
  }

  /** A database below a model: closed under the rewritten plans means being a model. */
  lemma OptimizedClosed(rules: Rules, exts: Extensions, edb: set<string>, db: Db, x: Db, c: Context)
    requires IsProgram(rules, exts, c.m) && Hosts(x, rules, exts, c) && LeapfrogsRun(rules, exts, edb, x, c)
    requires Grows(db, x, rules.Keys)
    ensures IsClosed(Optimized(rules, exts, c.m, edb), db, c) <==> IsModel(rules, exts, db, c)
  {
    hide IsProgram, IsModel, IsClosed, Valid, LeapfrogsRun, CanReplace, Grows, Compiled, AllPlansStratified;
    var s := Compiled(rules, exts, c.m);
    CompiledIsValid(rules, exts, c.m);
    ValidKeys(s);
    CompiledReplaces(rules, exts, edb, x, c);
    SmallerReplaces(s, edb, db, x, c);
    ClosedSame(s, edb, db, c);
    SmallerHosts(rules, exts, db, x, c);
    ClosedIffModel(rules, exts, db, c);
  }

  lemma ValidKeys(s: Stratum)
    requires Valid(s)
    ensures s.plans.Keys == s.bodies.Keys
  {}

  lemma GrowsSelf(x: Db, idb: set<string>)
    ensures Grows(x, x, idb)
  {}

  /**
   * Compile, replace chains, expand, iterate: when a round adds nothing, the relations are
   * a model of the rules that holds the facts, and every such model contains them.
   */
  lemma OptimizedIsLeastModel(rules: Rules, exts: Extensions, edb: set<string>, base: Db, x: Db, k: nat, c: Context)
    requires IsProgram(rules, exts, c.m) && NothingSwallowed(rules, exts, c.m, edb)
    requires Hosts(x, rules, exts, c) && LeapfrogsRun(rules, exts, edb, x, c) && IsModel(rules, exts, x, c)
    requires Grows(base, x, rules.Keys) && NoRows(Semi(Optimized(rules, exts, c.m, edb), base, k + 1, c).delta)
    ensures var db := Semi(Optimized(rules, exts, c.m, edb), base, k, c).db;
            IsModel(rules, exts, db, c) && Grows(base, db, rules.Keys) && Grows(db, x, rules.Keys)
  {
    hide IsProgram, Hosts, IsModel, Grows, Valid, IsClosed, Semi, Compiled, LeapfrogsRun, Replaced, NothingSwallowed;
    var s := Optimized(rules, exts, c.m, edb);
    OptimizedIsValid(rules, exts, c.m, edb);
    GrowsSelf(x, rules.Keys);
    OptimizedClosed(rules, exts, edb, x, x, c);
    SemiNaiveIsLeastFixpoint(s, base, x, k, c);
    OptimizedClosed(rules, exts, edb, Semi(s, base, k, c).db, x, c);
  }

  /** The same for the serial evaluator. */
  lemma OptimizedSerialIsLeastModel(rules: Rules, exts: Extensions, edb: set<string>, order: seq<string>, base: Db, x: Db, k: nat, c: Context)
    requires IsProgram(rules, exts, c.m) && NothingSwallowed(rules, exts, c.m, edb)
    requires Hosts(x, rules, exts, c) && LeapfrogsRun(rules, exts, edb, x, c) && IsModel(rules, exts, x, c)
    requires Enumerates(order, Optimized(rules, exts, c.m, edb)) && Grows(base, x, rules.Keys)
    requires NoRows(Serial(Optimized(rules, exts, c.m, edb), order, base, k + 1, c).delta)
    ensures var db := Serial(Optimized(rules, exts, c.m, edb), order, base, k, c).db;
            IsModel(rules, exts, db, c) && Grows(base, db, rules.Keys) && Grows(db, x, rules.Keys)
  {
    hide IsProgram, Hosts, IsModel, Grows, Valid, IsClosed, Serial, Compiled, LeapfrogsRun, Replaced, Enumerates, NothingSwallowed;
    var s := Optimized(rules, exts, c.m, edb);
    OptimizedIsValid(rules, exts, c.m, edb);
    GrowsSelf(x, rules.Keys);
    OptimizedClosed(rules, exts, edb, x, x, c);
    SerialIsLeastFixpoint(s, order, base, x, k, c);
    OptimizedClosed(rules, exts, edb, Serial(s, order, base, k, c).db, x, c);
  }

  /** Such a round comes, after at most as many rounds as the model has rows to add. */
  lemma OptimizedReachesLeastModel(rules: Rules, exts: Extensions, edb: set<string>, base: Db, x: Db, c: Context) returns (k: nat)
    requires IsProgram(rules, exts, c.m) && NothingSwallowed(rules, exts, c.m, edb)
    requires Hosts(x, rules, exts, c) && LeapfrogsRun(rules, exts, edb, x, c) && IsModel(rules, exts, x, c)
    requires Grows(base, x, rules.Keys)
    ensures k <= |Missing(base, x, rules.Keys)| && NoRows(Semi(Optimized(rules, exts, c.m, edb), base, k + 1, c).delta)
    ensures var db := Semi(Optimized(rules, exts, c.m, edb), base, k, c).db;
            IsModel(rules, exts, db, c) && Grows(base, db, rules.Keys) && Grows(db, x, rules.Keys)
  {
    hide IsProgram, Hosts, IsModel, Grows, Valid, IsClosed, Semi, Compiled, LeapfrogsRun, Replaced, NothingSwallowed, Missing, NoRows;
    OptimizedIsValid(rules, exts, c.m, edb);
    GrowsSelf(x, rules.Keys);
    OptimizedClosed(rules, exts, edb, x, x, c);
    k := SemiNaiveStops(Optimized(rules, exts, c.m, edb), base, x, c);
    OptimizedIsLeastModel(rules, exts, edb, base, x, k, c);
  }

  lemma OptimizedSerialReachesLeastModel(rules: Rules, exts: Extensions, edb: set<string>, order: seq<string>, base: Db, x: Db, c: Context) returns (k: nat)
    requires IsProgram(rules, exts, c.m) && NothingSwallowed(rules, exts, c.m, edb)
    requires Hosts(x, rules, exts, c) && LeapfrogsRun(rules, exts, edb, x, c) && IsModel(rules, exts, x, c)
    requires Enumerates(order, Optimized(rules, exts, c.m, edb)) && Grows(base, x, rules.Keys)
    ensures k <= |Missing(base, x, rules.Keys)| && NoRows(Serial(Optimized(rules, exts, c.m, edb), order, base, k + 1, c).delta)
    ensures var db := Serial(Optimized(rules, exts, c.m, edb), order, base, k, c).db;
            IsModel(rules, exts, db, c) && Grows(base, db, rules.Keys) && Grows(db, x, rules.Keys)
  {
    hide IsProgram, Hosts, IsModel, Grows, Valid, IsClosed, Serial, Compiled, LeapfrogsRun, Replaced, NothingSwallowed, Enumerates, Missing, NoRows;
    OptimizedIsValid(rules, exts, c.m, edb);
    GrowsSelf(x, rules.Keys);
    OptimizedClosed(rules, exts, edb, x, x, c);
    k := SerialStops(Optimized(rules, exts, c.m, edb), order, base, x, c);
    OptimizedSerialIsLeastModel(rules, exts, edb, order, base, x, k, c);
  }

  // ---- fusing projections in the sequences ---------------------------------------------------------------------

  /** Modes do not touch projections. */
  lemma SequenceAgrees(ops: seq<Op>, idb: set<string>, p: int)
    requires J.AllAgree(ops)
    ensures J.AllAgree(Sequence(ops, idb, p))
  {
    hide FinalModes, J.NamesAgree, J.ReadsColumn;
    var r := Sequence(ops, idb, p);
    forall i | 0 <= i < |r| && J.IsProjection(r[i])
      ensures J.NamesAgree(r[i])
    {
      assert r[i] == ops[i];
    }
  }

  /** No MAP right after a MAP, and no JOIN that projects already. */
  predicate IsTidy(ops: seq<Op>) {
    forall i | 0 <= i < |ops| ::
      (ops[i].Join? ==> ops[i].project == []) && (ops[i].Map? && i + 1 < |ops| ==> !ops[i + 1].Map?)
  }

  lemma TidyAppend(a: seq<Op>, b: seq<Op>)
    requires IsTidy(a) && IsTidy(b) && (a == [] || b == [] || !a[|a| - 1].Map? || !b[0].Map?)
    ensures IsTidy(a + b)
  {
    var ab := a + b;
    assert forall k | |a| <= k < |ab| :: ab[k] == b[k - |a|];
  }

  /** On a tidy list every composition succeeds. */
  lemma TidyFuses(ops: seq<Op>)
    requires IsTidy(ops)
    ensures J.FuseFrom(ops, 0).Some?
  {
    hide J.IsProjection, J.FuseFrom;
    forall k | 0 <= k < |ops| && ops[k].Join?
      ensures J.Composes(ops[k].project, ops[k + 1..])
    {
      TidyComposes(ops, k);
    }
    J.FuseSucceedsIff(ops, 0);
  }

  lemma TidyComposes(ops: seq<Op>, k: nat)
    requires IsTidy(ops) && k < |ops| && ops[k].Join?
    ensures J.Composes(ops[k].project, ops[k + 1..])
  {
    hide J.ReadsColumn;
    var rest := ops[k + 1..];
    if rest != [] && J.IsProjection(rest[0]) {
      assert ops[k + 1].Map? && (k + 2 < |ops| ==> !ops[k + 2].Map?);
      assert rest[1..] == [] || rest[1..][0] == ops[k + 2];
    }
  }

  lemma {:induction false} TidyRewritten(ops: seq<Op>, i: nat, edb: set<string>)
    requires IsTidy(ops)
    ensures IsTidy(F.Rewritten(ops, i, edb))
    ensures var r := F.Rewritten(ops, i, edb); r != [] && r[0].Map? ==> i < |ops| && ops[i].Map?
    decreases |ops| - i
  {
    if i < |ops| {
      P.LeapfrogIsNoMap(ops, i, edb);
      EmittedTaken(ops, i, edb);
      hide F.Emitted, F.Taken;
      TidyRewritten(ops, i + F.Taken(ops, i, edb), edb);
      assert IsTidy([F.Emitted(ops, i, edb)]);
      TidyAppend([F.Emitted(ops, i, edb)], F.Rewritten(ops, i + F.Taken(ops, i, edb), edb));
    }
  }

  lemma EmittedTaken(ops: seq<Op>, i: nat, edb: set<string>)
    requires i < |ops|
    ensures !F.Emitted(ops, i, edb).Lftj? ==> F.Taken(ops, i, edb) == 1 || ops[i].Variable?
  {
    hide F.Leapfrog;
    F.ChainAtSize(ops, i, edb);
  }

  lemma TidySequence(ops: seq<Op>, idb: set<string>, p: int)
    requires IsTidy(ops)
    ensures IsTidy(Sequence(ops, idb, p))
  {
    hide FinalModes;
    var r := Remode(ops, FinalModes(ops, idb, p));
    assert IsTidy(r);
    TidyAppend(r, [Consolidate]);
  }

  predicate HasNoMap(ops: seq<Op>) { forall i | 0 <= i < |ops| :: !ops[i].Map? }

  lemma {:induction false} FormulaHasNoMap(n: I.Ir, exts: Extensions)
    requires I.SoundNode(n) && SoundExtensions(exts) && V.IsFormula(n) && L.Translated(n, exts).Some?
    ensures HasNoMap(L.Translated(n, exts).value)
    decreases n
  {
    hide L.FilterOp, L.PairingOp, L.Collect, Sound;
    if n.FilterNode? {
      FormulaHasNoMap(n.child, exts);
      FilterIsChain(n.cond, L.Collect(n.child), exts);
    } else if !n.ScanNode? {
      FormulaHasNoMap(n.left, exts);
      PairingIsNoMap(n);
    }
  }

  lemma PairingIsNoMap(n: I.Ir)
    requires I.IsPairing(n) && I.SoundNode(n) && L.PairingOp(n).Some?
    ensures !L.PairingOp(n).value.Map?
  {
    hide L.RightSide, L.Collect, L.ResolvedKeys;
  }

  /** A compiled rule has one MAP, at its end. */
  lemma RuleIsTidy(r: Rule, exts: Extensions, m: Machine)
    requires IsRule(r, exts, m) && P.AllRaw(OpsOf(r, exts, m))
    ensures IsTidy(OpsOf(r, exts, m))
  {
    hide L.MapOp, LP.IsLowerable, V.IsFormula, V.IsHead, I.SoundProjection;
    var ops := OpsOf(r, exts, m);
    assert L.Translated(TreeOf(r), exts) == L.Append(L.Translated(r.body, exts), L.MapOp(r.head, L.Collect(r.body), exts, true));
    FormulaHasNoMap(r.body, exts);
    assert forall i | 0 <= i < |ops| :: P.IsRaw(ops[i]);
  }

  lemma RuleIsRaw(r: Rule, exts: Extensions, m: Machine)
    requires IsRule(r, exts, m)
    ensures P.AllRaw(OpsOf(r, exts, m))
  {
    RuleBinds(r, exts, m);
    hide V.IsFormula, V.IsHead, LP.IsLowerable, I.SoundProjection, P.AllRaw, L.Translated;
    P.LoweredIsRaw(TreeOf(r), exts);
  }

  lemma {:induction false} FlatIsTidy(bodies: seq<seq<Op>>)
    requires AllBodies(bodies) && forall i | 0 <= i < |bodies| :: IsTidy(bodies[i])
    ensures IsTidy(Flat(bodies)) && IsTidy(Flat(bodies) + [Consolidate])
    decreases |bodies|
  {
    assert IsTidy([Concat]) && IsTidy([Consolidate]);
    hide IsTidy;
    if |bodies| > 1 {
      var init, last := bodies[..|bodies| - 1], bodies[|bodies| - 1];
      FlatIsTidy(init);
      TidyAppend(Flat(init), last);
      TidyAppend(Flat(init) + last, [Concat]);
    }
    TidyAppend(Flat(bodies), [Consolidate]);
  }

  lemma PlanIsTidy(rules: seq<Rule>, exts: Extensions, m: Machine, idb: set<string>)
    requires AreRules(rules, exts, m) && forall i | 0 <= i < |rules| :: NegatesOutside(rules[i].body, idb)
    ensures IsTidy(PlanFor(rules, exts, m, idb))
  {
    hide IsRule, NegatesOutside, IsTidy, Flat, P.AllRaw, OpsOf;
    RelationValid(rules, exts, m, idb);
    var bodies := BodiesOf(rules, exts, m);
    forall i | 0 <= i < |bodies|
      ensures IsTidy(bodies[i])
    {
      RuleIsRaw(rules[i], exts, m);
      RuleIsTidy(rules[i], exts, m);
    }
    FlatIsTidy(bodies);
  }

  /** Fusion succeeds on every delta sequence of a rewritten program and leaves its answer alone. */
  lemma SequencesFused(rules: Rules, exts: Extensions, edb: set<string>, m: Machine, n: string, p: int, w: World)
    requires IsProgram(rules, exts, m) && n in rules
    ensures n in Optimized(rules, exts, m, edb).plans
    ensures var q := Sequence(Optimized(rules, exts, m, edb).plans[n], rules.Keys, p);
            J.FuseFrom(q, 0).Some? && Answer(J.FuseFrom(q, 0).value, w) == Answer(q, w)
  {
    hide AreRules, NegatesOutside, PlanFor, BodiesOf, P.AllRaw, J.AllAgree, Sequence, RunOps, F.Rewritten, J.FuseFrom, IsTidy;
    var ops := Compiled(rules, exts, m).plans[n];
    var all := F.Rewritten(ops, 0, edb);
    PlanIsRaw(rules[n], exts, m, rules.Keys);
    PlanIsTidy(rules[n], exts, m, rules.Keys);
    TidyRewritten(ops, 0, edb);
    TidySequence(all, rules.Keys, p);
    TidyFuses(Sequence(all, rules.Keys, p));
    P.RawAgrees(ops);
    P.RewrittenAgrees(ops, 0, edb);
    SequenceAgrees(all, rules.Keys, p);
    J.FusePreserves(Sequence(all, rules.Keys, p), 0, w, []);
  }

  /** And on the unexpanded list of a relation. */
  lemma PlansFused(rules: Rules, exts: Extensions, edb: set<string>, m: Machine, n: string, w: World)
    requires IsProgram(rules, exts, m) && n in rules
    ensures n in Optimized(rules, exts, m, edb).plans
    ensures var q := Optimized(rules, exts, m, edb).plans[n];
            J.FuseFrom(q, 0).Some? && Answer(J.FuseFrom(q, 0).value, w) == Answer(q, w)
  {
    hide AreRules, NegatesOutside, PlanFor, BodiesOf, P.AllRaw, J.AllAgree, RunOps, F.Rewritten, J.FuseFrom, IsTidy;
    var ops := Compiled(rules, exts, m).plans[n];
    PlanIsRaw(rules[n], exts, m, rules.Keys);
    PlanIsTidy(rules[n], exts, m, rules.Keys);
    TidyRewritten(ops, 0, edb);
    TidyFuses(F.Rewritten(ops, 0, edb));
    P.RawAgrees(ops);
    P.RewrittenAgrees(ops, 0, edb);
    J.FusePreserves(F.Rewritten(ops, 0, edb), 0, w, []);
  }
}
