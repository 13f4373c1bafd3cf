/**
 * From rules to their least model.
 *
 * A recursive stratum given as rules is lowered to operator lists, expanded into delta
 * sequences and iterated. When a round adds nothing, the relations are the least model of
 * the rules: every tuple a rule derives under some valuation is there, and nothing is
 * there that some model above the facts could do without.
 */
module Program {
  import opened Bytes
  import opened Expr
  import opened Machine
  import opened Postfix
  import opened Serializer
  import opened Naming
  import opened Plan
  import opened RuleBodies
  import opened DeltaStep
  import opened KFusion
  import opened SemiNaive
  import I = Ir
  import L = Lowering
  import LP = LoweringProof
  import V = Valuations

  datatype Rule = Rule(body: I.Ir, head: I.Projection)

  function TreeOf(r: Rule): I.Ir { I.ProjectNode(r.body, r.head) }

  /** One rule alone, or a UNION of several. */
  function RelationTree(rules: seq<Rule>): I.Ir
    requires rules != []
  {
    if |rules| == 1 then TreeOf(rules[0])
    else I.UnionNode(TreeOf(rules[0]), seq(|rules| - 1, i requires 0 <= i < |rules| - 1 => TreeOf(rules[i + 1])))
  }

  /** A rule the compiler accepts: a formula for a body, expressions over its variables for a head. */
  ghost predicate IsRule(r: Rule, exts: Extensions, m: Machine) {
    && SoundExtensions(exts) && I.SoundNode(TreeOf(r)) && LP.IsLowerable(TreeOf(r), m)
    && I.SoundNode(r.body) && I.SoundProjection(r.head)
    && V.IsFormula(r.body) && V.IsHead(r.head, L.Collect(r.body))
    && L.Translated(TreeOf(r), exts).Some?
  }

  ghost function OpsOf(r: Rule, exts: Extensions, m: Machine): seq<Op>
    requires IsRule(r, exts, m)
  {
    L.Translated(TreeOf(r), exts).value
  }

  /** Negated relations come from earlier strata. */
  predicate NegatesOutside(n: I.Ir, idb: set<string>) {
    match n
    case FilterNode(c, _) => NegatesOutside(c, idb)
    case JoinNode(l, _, _) => NegatesOutside(l, idb)
    case AntiJoinNode(l, r, _) => NegatesOutside(l, idb) && (L.Base(r).ScanNode? ==> L.Base(r).rel !in idb)
    case _ => true
  }

  // ---- a rule compiles to a body -----------------------------------------------------------------

  /** What a formula emits: a VARIABLE, then operators that keep it a stratified body. */
  predicate IsEmitted(ops: seq<Op>, idb: set<string>) {
    && IsBody(ops) && Plain(ops) && ops[0].Variable?
    && forall i | 1 <= i < |ops| :: !ops[i].SemiJoin? && (ops[i].AntiJoin? ==> ops[i].right !in idb)
  }

  lemma EmittedIsStratified(ops: seq<Op>, idb: set<string>)
    requires IsEmitted(ops, idb)
    ensures Stratified(ops, idb)
  {
    assert forall i | 1 <= i < |ops| :: IsChainOp(ops[i]);
  }

  lemma EmittedAppend(ops: seq<Op>, op: Op, idb: set<string>)
    requires IsEmitted(ops, idb) && IsChainOp(op) && PlainOp(op) && !op.SemiJoin? && (op.AntiJoin? ==> op.right !in idb)
    ensures IsEmitted(ops + [op], idb)
  {
    var all := ops + [op];
    assert forall i | 0 <= i < |ops| :: all[i] == ops[i];
    forall i | 0 <= i < |all|
      ensures PlainOp(all[i])
    {
      if i < |ops| {
        assert PlainOp(ops[i]);
      }
    }
  }

  lemma PairingIsChain(n: I.Ir, idb: set<string>)
    requires (n.JoinNode? || n.AntiJoinNode?) && I.SoundNode(n) && L.PairingOp(n).Some? && NegatesOutside(n, idb)
    ensures var op := L.PairingOp(n).value;
            IsChainOp(op) && PlainOp(op) && !op.SemiJoin? && (op.AntiJoin? ==> op.right !in idb)
  {
    hide L.Combined, L.Collect, L.ResolvedKeys, I.SoundNode, L.HasCall;
    LP.SoundSides(n);
    RightIsBase(n.right);
  }

  lemma RightIsBase(n: I.Ir)
    requires I.SoundNode(n)
    ensures L.RightSide(n).Some? ==> L.Base(n).ScanNode? && L.RightSide(n).value.0 == L.Base(n).rel
  {
    hide L.Combined, L.HasCall;
  }

  lemma {:induction false} FormulaEmits(n: I.Ir, exts: Extensions, idb: set<string>)
    requires I.SoundNode(n) && SoundExtensions(exts) && V.IsFormula(n) && NegatesOutside(n, idb)
    requires L.Translated(n, exts).Some?
    ensures IsEmitted(L.Translated(n, exts).value, idb)
    decreases n
  {
    hide IsEmitted, L.FilterOp, L.PairingOp, L.Collect, Sound, Sized;
    if n.ScanNode? {
      ScanEmits(n.rel, idb);
    } else if n.FilterNode? {
      FormulaEmits(n.child, exts, idb);
      FilterIsChain(n.cond, L.Collect(n.child), exts);
      EmittedAppend(L.Translated(n.child, exts).value, L.FilterOp(n.cond, L.Collect(n.child), exts).value, idb);
    } else {
      FormulaEmits(n.left, exts, idb);
      PairingIsChain(n, idb);
      EmittedAppend(L.Translated(n.left, exts).value, L.PairingOp(n).value, idb);
    }
  }

  lemma ScanEmits(rel: string, idb: set<string>)
    ensures IsEmitted([Variable(rel, Auto)], idb)
  {}

  lemma FilterIsChain(e: Expr, cols: Layout, exts: Extensions)
    requires Sound(e) && SoundExtensions(exts)
    ensures L.FilterOp(e, cols, exts).Some? ==> L.FilterOp(e, cols, exts).value.Filter?
  {}

  lemma RuleEmits(r: Rule, exts: Extensions, m: Machine, idb: set<string>)
    requires IsRule(r, exts, m) && NegatesOutside(r.body, idb)
    ensures IsEmitted(OpsOf(r, exts, m), idb)
  {
    hide IsEmitted, L.MapOp, LP.IsLowerable, V.IsFormula, V.IsHead, I.SoundProjection;
    var n := TreeOf(r);
    assert L.Translated(n, exts) == L.Append(L.Translated(r.body, exts), L.MapOp(r.head, L.Collect(r.body), exts, true));
    FormulaEmits(r.body, exts, idb);
    MapIsChain(r.head, L.Collect(r.body), exts);
    EmittedAppend(L.Translated(r.body, exts).value, L.MapOp(r.head, L.Collect(r.body), exts, true).value, idb);
  }

  lemma MapIsChain(p: I.Projection, cols: Layout, exts: Extensions)
    requires I.SoundProjection(p) && SoundExtensions(exts)
    ensures L.MapOp(p, cols, exts, true).Some? ==> L.MapOp(p, cols, exts, true).value.Map?
  {}

  // ---- a relation compiles to a rule plan -----------------------------------------------------------

  ghost predicate AreRules(rules: seq<Rule>, exts: Extensions, m: Machine) {
    rules != [] && forall i | 0 <= i < |rules| :: IsRule(rules[i], exts, m)
  }

  ghost function BodiesOf(rules: seq<Rule>, exts: Extensions, m: Machine): (bodies: seq<seq<Op>>)
    requires AreRules(rules, exts, m)
    ensures |bodies| == |rules| && forall i | 0 <= i < |rules| :: bodies[i] == OpsOf(rules[i], exts, m)
  {
    seq(|rules|, i requires 0 <= i < |rules| => OpsOf(rules[i], exts, m))
  }

  lemma RelationSound(rules: seq<Rule>, exts: Extensions, m: Machine)
    requires AreRules(rules, exts, m)
    ensures I.SoundNode(RelationTree(rules)) && SoundExtensions(exts)
  {
    hide LP.IsLowerable, V.IsFormula, V.IsHead, L.Translated, I.SoundProjection;
    forall i | 0 <= i < |rules|
      ensures I.SoundNode(TreeOf(rules[i]))
    {
      assert IsRule(rules[i], exts, m);
    }
    assert IsRule(rules[0], exts, m);
  }

  /** The emitted union is the bodies one after the other, each after the first followed by CONCAT. */
  lemma {:induction false} UnionEmits(rules: seq<Rule>, exts: Extensions, m: Machine, k: nat, u: I.Ir)
    requires AreRules(rules, exts, m) && k < |rules| && u.UnionNode? && u == RelationTree(rules)
    requires I.SoundNode(u.first) && u.first < u && SoundExtensions(exts)
    requires k <= |u.rest| && forall c | c in u.rest[..k] :: I.SoundNode(c) && c < u
    ensures L.TranslatedUnion(u.first, u.rest[..k], u, exts) == Some(Flat(BodiesOf(rules, exts, m)[..k + 1]))
    decreases k
  {
    hide L.Translated, I.SoundNode, LP.IsLowerable, V.IsFormula, V.IsHead, I.SoundProjection, Flat, L.TranslatedUnion;
    var bodies := BodiesOf(rules, exts, m);
    assert IsRule(rules[k], exts, m) && bodies[k] == OpsOf(rules[k], exts, m);
    if k == 0 {
      assert u.rest[..0] == [] && bodies[..1] == [bodies[0]];
      FlatOne(bodies[..1]);
      UnionOfOne(u, exts);
    } else {
      RelationSound(rules, exts, m);
      UnionEmits(rules, exts, m, k - 1, u);
      L.UnionStep(u, k - 1, exts);
      assert u.rest[k - 1] == TreeOf(rules[k]);
      FlatNext(bodies, k);
    }
  }

  lemma UnionOfOne(u: I.Ir, exts: Extensions)
    requires u.UnionNode? && I.SoundNode(u.first) && u.first < u && SoundExtensions(exts)
    ensures L.TranslatedUnion(u.first, [], u, exts) == L.Translated(u.first, exts)
  {
    hide L.Translated;
  }

  lemma FlatNext(bodies: seq<seq<Op>>, k: nat)
    requires 1 <= k < |bodies|
    ensures Flat(bodies[..k + 1]) == Flat(bodies[..k]) + bodies[k] + [Concat]
  {
    var more := bodies[..k + 1];
    assert more[..k] == bodies[..k] && more[k] == bodies[k];
  }

  lemma RelationEmits(rules: seq<Rule>, exts: Extensions, m: Machine, idb: set<string>)
    requires AreRules(rules, exts, m) && forall i | 0 <= i < |rules| :: NegatesOutside(rules[i].body, idb)
    ensures I.SoundNode(RelationTree(rules)) && SoundExtensions(exts)
    ensures L.Translated(RelationTree(rules), exts).Some?
    ensures var ops, bodies := L.Translated(RelationTree(rules), exts).value, BodiesOf(rules, exts, m);
            IsRulePlan(ops, bodies) && forall i | 0 <= i < |bodies| :: IsEmitted(bodies[i], idb)
  {
    hide LP.IsLowerable, V.IsFormula, V.IsHead, I.SoundProjection, IsEmitted, Flat, I.SoundNode, NegatesOutside;
    RelationSound(rules, exts, m);
    var tree, bodies := RelationTree(rules), BodiesOf(rules, exts, m);
    forall i | 0 <= i < |bodies|
      ensures IsEmitted(bodies[i], idb) && IsBody(bodies[i])
    {
      RuleEmits(rules[i], exts, m, idb);
      EmittedBody(bodies[i], idb);
    }
    assert IsRule(rules[0], exts, m);
    if |rules| == 1 {
      FlatOne(bodies);
    } else {
      UnionTranslated(rules, exts, m);
    }
  }

  lemma EmittedBody(ops: seq<Op>, idb: set<string>)
    requires IsEmitted(ops, idb)
    ensures IsBody(ops) && Plain(ops)
  {}

  lemma FlatOne(bodies: seq<seq<Op>>)
    requires |bodies| == 1
    ensures Flat(bodies) == bodies[0]
  {}

  lemma UnionTranslated(rules: seq<Rule>, exts: Extensions, m: Machine)
    requires AreRules(rules, exts, m) && |rules| >= 2
    ensures I.SoundNode(RelationTree(rules)) && SoundExtensions(exts)
    ensures L.Translated(RelationTree(rules), exts) == Some(Flat(BodiesOf(rules, exts, m)) + [Consolidate])
  {
    hide LP.IsLowerable, V.IsFormula, V.IsHead, I.SoundProjection, Flat, I.SoundNode, L.TranslatedUnion;
    RelationSound(rules, exts, m);
    var u, bodies := RelationTree(rules), BodiesOf(rules, exts, m);
    L.UnionParts(u);
    var k := |rules| - 1;
    assert u.rest[..k] == u.rest && bodies[..k + 1] == bodies;
    UnionEmits(rules, exts, m, k, u);
  }

  /** A flat list of plain bodies is plain. */
  lemma {:induction false} FlatIsPlain(bodies: seq<seq<Op>>)
    requires AllBodies(bodies) && forall i | 0 <= i < |bodies| :: Plain(bodies[i])
    ensures Plain(Flat(bodies)) && Plain(Flat(bodies) + [Consolidate])
    decreases |bodies|
  {
    hide PlainOp;
    if |bodies| == 1 {
      PlainAppend(bodies[0], [Consolidate]);
    } else {
      var init, last := bodies[..|bodies| - 1], bodies[|bodies| - 1];
      FlatIsPlain(init);
      PlainAppend(Flat(init), last);
      PlainAppend(Flat(init) + last, [Concat]);
      PlainAppend(Flat(bodies), [Consolidate]);
    }
  }

  lemma PlainAppend(a: seq<Op>, b: seq<Op>)
    requires Plain(a) && (Plain(b) || b == [Concat] || b == [Consolidate])
    ensures Plain(a + b)
  {
    forall i | 0 <= i < |a + b|
      ensures PlainOp((a + b)[i])
    {
      if i < |a| {
        assert PlainOp(a[i]);
      } else if Plain(b) {
        assert PlainOp(b[i - |a|]);
      }
    }
  }

  // ---- a program compiles to a stratum -----------------------------------------------------------------

  type Rules = map<string, seq<Rule>>

  /** The rules of one stratum: rules of one relation have one width, negation is of earlier strata. */
  ghost predicate IsProgram(rules: Rules, exts: Extensions, m: Machine) {
    forall n | n in rules ::
      && AreRules(rules[n], exts, m)
      && (forall i | 0 <= i < |rules[n]| :: NegatesOutside(rules[n][i].body, rules.Keys))
      && (forall i | 0 <= i < |rules[n]| :: rules[n][i].head.count == rules[n][0].head.count)
  }

  ghost function PlanFor(rules: seq<Rule>, exts: Extensions, m: Machine, idb: set<string>): seq<Op>
    requires AreRules(rules, exts, m) && forall i | 0 <= i < |rules| :: NegatesOutside(rules[i].body, idb)
  {
    RelationEmits(rules, exts, m, idb);
    L.Translated(RelationTree(rules), exts).value
  }

  ghost function Compiled(rules: Rules, exts: Extensions, m: Machine): Stratum
    requires IsProgram(rules, exts, m)
  {
    Stratum(map n | n in rules :: PlanFor(rules[n], exts, m, rules.Keys),
            map n | n in rules :: BodiesOf(rules[n], exts, m))
  }

  lemma RelationValid(rules: seq<Rule>, exts: Extensions, m: Machine, idb: set<string>)
    requires AreRules(rules, exts, m) && forall i | 0 <= i < |rules| :: NegatesOutside(rules[i].body, idb)
    ensures var ops, bodies := PlanFor(rules, exts, m, idb), BodiesOf(rules, exts, m);
            IsRulePlan(ops, bodies) && Plain(ops) && AllStratified(bodies, idb)
  {
    hide AreRules, NegatesOutside, IsEmitted, Flat, Stratified, Plain, IsBody, L.Translated;
    RelationEmits(rules, exts, m, idb);
    var bodies := BodiesOf(rules, exts, m);
    forall i | 0 <= i < |bodies|
      ensures Stratified(bodies[i], idb) && Plain(bodies[i])
    {
      EmittedIsStratified(bodies[i], idb);
      EmittedBody(bodies[i], idb);
    }
    FlatIsPlain(bodies);
  }

  /** What the compiler emits for a program is what the semi-naive evaluator relies on. */
  lemma CompiledIsValid(rules: Rules, exts: Extensions, m: Machine)
    requires IsProgram(rules, exts, m)
    ensures Valid(Compiled(rules, exts, m)) && AllPlansStratified(Compiled(rules, exts, m))
    ensures Compiled(rules, exts, m).plans.Keys == rules.Keys
  {
    hide AreRules, NegatesOutside, IsRulePlan, Plain, AllStratified, AllNegateEarlier, Expanded, PlanFor, BodiesOf;
    var s := Compiled(rules, exts, m);
    assert s.plans.Keys == rules.Keys && s.bodies.Keys == rules.Keys;
    forall n | n in s.plans
      ensures IsValidPlan(s.plans[n], s.bodies[n], s.plans.Keys) && AllStratified(s.bodies[n], s.plans.Keys)
    {
      RelationValid(rules[n], exts, m, rules.Keys);
      StratifiedNegates(s.bodies[n], s.plans.Keys);
    }
  }

  /** Every list, expanded or not, reads the stratum at its delta positions only. */
  predicate AllPlansStratified(s: Stratum) {
    s.plans.Keys == s.bodies.Keys && forall n | n in s.plans :: AllStratified(s.bodies[n], s.plans.Keys)
  }

  // ---- models ------------------------------------------------------------------------------------------------

  /** The database has the relations the rules name, with the widths they give them. */
  ghost predicate Hosts(db: Db, rules: Rules, exts: Extensions, c: Context) {
    && ValidDb(db) && rules.Keys <= db.Keys
    && forall n | n in rules :: forall i | 0 <= i < |rules[n]| :: I.Present(TreeOf(rules[n][i]), PlainIn(db, c))
  }

  ghost predicate RuleFails(r: Rule, exts: Extensions, w: World)
    requires IsRule(r, exts, w.m)
  {
    V.Fails(r.body, r.head, exts, w)
  }

  /** Some valuation satisfies the body and gives this head tuple. */
  ghost predicate RuleDerives(r: Rule, exts: Extensions, w: World, t: Row)
    requires IsRule(r, exts, w.m)
  {
    V.Derives(r.body, r.head, exts, w, t)
  }

  /** Closed under one relation's rules. */
  ghost predicate Satisfied(rules: seq<Rule>, exts: Extensions, w: World, rows: set<Row>)
    requires AreRules(rules, exts, w.m)
  {
    forall i | 0 <= i < |rules| ::
      !RuleFails(rules[i], exts, w) && forall t: Row :: RuleDerives(rules[i], exts, w, t) ==> t in rows
  }

  /** Every tuple a rule derives is there, and no head fails. */
  ghost predicate IsModel(rules: Rules, exts: Extensions, db: Db, c: Context)
    requires IsProgram(rules, exts, c.m)
  {
    rules.Keys <= db.Keys && forall n | n in rules :: Satisfied(rules[n], exts, PlainIn(db, c), db[n].rows)
  }

  /** A relation that holds what the rule derives; none when the rule fails. */
  ghost predicate IsResultOf(out: Option<Rel>, r: Rule, exts: Extensions, w: World)
    requires IsRule(r, exts, w.m)
  {
    && (out.None? <==> RuleFails(r, exts, w))
    && (out.Some? ==> out.value.width == r.head.count)
    && (out.Some? ==> forall t: Row :: t in out.value.rows <==> RuleDerives(r, exts, w, t))
  }

  ghost predicate SomeDerives(rules: seq<Rule>, exts: Extensions, w: World, t: Row)
    requires AreRules(rules, exts, w.m)
  {
    exists i :: 0 <= i < |rules| && RuleDerives(rules[i], exts, w, t)
  }

  ghost predicate SomeFails(rules: seq<Rule>, exts: Extensions, w: World)
    requires AreRules(rules, exts, w.m)
  {
    exists i :: 0 <= i < |rules| && RuleFails(rules[i], exts, w)
  }

  /** Running a compiled rule derives what the rule derives. */
  lemma RuleRuns(r: Rule, exts: Extensions, w: World, idb: set<string>)
    requires IsRule(r, exts, w.m) && NegatesOutside(r.body, idb) && ValidDb(w.full) && I.Present(TreeOf(r), w)
    ensures IsBody(OpsOf(r, exts, w.m))
    ensures IsResultOf(RunBody(OpsOf(r, exts, w.m), w), r, exts, w)
  {
    hide V.Fails, V.Derives, V.IsFormula, V.IsHead, LP.IsLowerable, I.SoundNode, I.SoundProjection, RunBody, IsEmitted, L.Translated, RunOps;
    RuleEmits(r, exts, w.m, idb);
    var ops := OpsOf(r, exts, w.m);
    EmittedBody(ops, idb);
    BodyPushes(ops, w, []);
    V.RuleAnswers(r.body, r.head, exts, w, []);
    var out := RunBody(ops, w);
    if out.Some? {
      var rows: set<Row> :|
        RunOps(ops, w, []) == Some([] + [Rel(r.head.count, rows)]) && V.IsAnswerSet(rows, r.body, r.head, exts, w);
      assert ([] + [out.value])[0] == ([] + [Rel(r.head.count, rows)])[0];
    }
  }

  /** A compiled relation answers exactly what its rules derive, and fails exactly when one of them does. */
  lemma RelationAnswers(rules: seq<Rule>, exts: Extensions, w: World, idb: set<string>)
    requires AreRules(rules, exts, w.m) && ValidDb(w.full)
    requires forall i | 0 <= i < |rules| ::
      NegatesOutside(rules[i].body, idb) && I.Present(TreeOf(rules[i]), w) && rules[i].head.count == rules[0].head.count
    ensures var a := Answer(PlanFor(rules, exts, w.m, idb), w);
            && (a.None? <==> SomeFails(rules, exts, w))
            && (a.Some? ==> forall t: Row :: t in a.value.rows <==> SomeDerives(rules, exts, w, t))
  {
    hide RuleFails, RuleDerives, IsRule, NegatesOutside, I.Present, RunBody, RunUnion, Answer, PlanFor, OpsOf, Stratified, IsBody, Plain, Flat;
    RelationValid(rules, exts, w.m, idb);
    var bodies := BodiesOf(rules, exts, w.m);
    AnswerIsUnion(PlanFor(rules, exts, w.m, idb), bodies, w);
    forall i | 0 <= i < |rules|
      ensures IsResultOf(RunBody(bodies[i], w), rules[i], exts, w)
    {
      RuleRuns(rules[i], exts, w, idb);
    }
    if forall i | 0 <= i < |rules| :: !RuleFails(rules[i], exts, w) {
      UnionRuns(bodies, w, rules[0].head.count);
    }
    if RunUnion(bodies, w).Some? {
      UnionMembers(bodies, w);
    }
  }

  /** Closed under the compiled plans is closed under the rules. */
  lemma ClosedIffModel(rules: Rules, exts: Extensions, db: Db, c: Context)
    requires IsProgram(rules, exts, c.m) && Hosts(db, rules, exts, c)
    ensures IsClosed(Compiled(rules, exts, c.m), db, c) <==> IsModel(rules, exts, db, c)
  {
    hide AreRules, RuleFails, RuleDerives, NegatesOutside, I.Present, Answer, PlanFor, ValidDb;
    var s, w := Compiled(rules, exts, c.m), PlainIn(db, c);
    forall n | n in rules
      ensures Answer(s.plans[n], w).Some? && NaiveRows(s, n, db, c) <= db[n].rows <==> Satisfied(rules[n], exts, w, db[n].rows)
    {
      RelationClosed(rules[n], exts, w, rules.Keys, db[n].rows);
      assert s.plans[n] == PlanFor(rules[n], exts, c.m, rules.Keys);
    }
    hide Satisfied;
    assert s.plans.Keys == rules.Keys;
  }

  lemma RelationClosed(rules: seq<Rule>, exts: Extensions, w: World, idb: set<string>, rows: set<Row>)
    requires AreRules(rules, exts, w.m) && ValidDb(w.full)
    requires forall i | 0 <= i < |rules| :: NegatesOutside(rules[i].body, idb)
    requires forall i | 0 <= i < |rules| :: I.Present(TreeOf(rules[i]), w) && rules[i].head.count == rules[0].head.count
    ensures var a := Answer(PlanFor(rules, exts, w.m, idb), w);
            a.Some? && a.value.rows <= rows <==> Satisfied(rules, exts, w, rows)
  {
    hide AreRules, RuleFails, RuleDerives, NegatesOutside, I.Present, Answer, PlanFor, ValidDb;
    RelationAnswers(rules, exts, w, idb);
  }

  lemma SmallerHosts(rules: Rules, exts: Extensions, db: Db, x: Db, c: Context)
    requires IsProgram(rules, exts, c.m) && Hosts(x, rules, exts, c) && Grows(db, x, rules.Keys)
    ensures Hosts(db, rules, exts, c)
  {
    hide AreRules, NegatesOutside, I.Present;
    forall n | n in db
      ensures ValidRel(db[n])
    {
      assert ValidRel(x[n]);
    }
    forall n, i | n in rules && 0 <= i < |rules[n]|
      ensures I.Present(TreeOf(rules[n][i]), PlainIn(db, c))
    {
      SmallerPresent(TreeOf(rules[n][i]), PlainIn(x, c), PlainIn(db, c));
    }
  }

  lemma {:induction false} SmallerPresent(n: I.Ir, w: World, u: World)
    requires I.Present(n, w) && u.full.Keys == w.full.Keys && forall r | r in w.full :: u.full[r].width == w.full[r].width
    ensures I.Present(n, u)
    decreases n
  {
    match n
    case ScanNode(_, _) =>
    case FilterNode(c, _) => SmallerPresent(c, w, u);
    case ProjectNode(c, _) => SmallerPresent(c, w, u);
    case FlatmapNode(c, _, _) => SmallerPresent(c, w, u);
    case UnionNode(f, rest) =>
      SmallerPresent(f, w, u);
      forall c | c in rest
        ensures I.Present(c, u)
      {
        SmallerPresent(c, w, u);
      }
    case JoinNode(l, r, _) =>
      SmallerPresent(l, w, u);
      SmallerPresent(r, w, u);
    case SemiJoinNode(l, r, _, _) =>
      SmallerPresent(l, w, u);
      SmallerPresent(r, w, u);
    case AntiJoinNode(l, r, _) =>
      SmallerPresent(l, w, u);
      SmallerPresent(r, w, u);
  }

  /**
   * Compile the rules, expand them and iterate: when a round adds nothing, the relations
   * are a model of the rules that holds the facts, and every such model contains them.
   */
  lemma SemiNaiveIsLeastModel(rules: Rules, exts: Extensions, base: Db, x: Db, k: nat, c: Context)
    requires IsProgram(rules, exts, c.m) && Hosts(x, rules, exts, c) && IsModel(rules, exts, x, c)
    requires Grows(base, x, rules.Keys) && NoRows(Semi(Compiled(rules, exts, c.m), base, k + 1, c).delta)
    ensures var db := Semi(Compiled(rules, exts, c.m), base, k, c).db;
            IsModel(rules, exts, db, c) && Grows(base, db, rules.Keys) && Grows(db, x, rules.Keys)
  {
    hide IsProgram, Hosts, IsModel, Grows, Valid, IsClosed, Semi, Compiled, AllPlansStratified;
    var s := Compiled(rules, exts, c.m);
    CompiledIsValid(rules, exts, c.m);
    ClosedIffModel(rules, exts, x, c);
    SemiNaiveIsLeastFixpoint(s, base, x, k, c);
    var db := Semi(s, base, k, c).db;
    SmallerHosts(rules, exts, db, x, c);
    ClosedIffModel(rules, exts, db, c);
  }

  /** And such a round comes: a program with a finite model stops at its least one. */
  lemma SemiNaiveReachesLeastModel(rules: Rules, exts: Extensions, base: Db, x: Db, c: Context) returns (k: nat)
    requires IsProgram(rules, exts, c.m) && Hosts(x, rules, exts, c) && IsModel(rules, exts, x, c) && Grows(base, x, rules.Keys)
    ensures k <= |Missing(base, x, rules.Keys)| && NoRows(Semi(Compiled(rules, exts, c.m), base, k + 1, c).delta)
    ensures var db := Semi(Compiled(rules, exts, c.m), base, k, c).db;
            IsModel(rules, exts, db, c) && Grows(base, db, rules.Keys) && Grows(db, x, rules.Keys)
  {
    hide IsProgram, Hosts, IsModel, Grows, Valid, IsClosed, Semi, Compiled, AllPlansStratified, Missing, NoRows;
    CompiledIsValid(rules, exts, c.m);
    ClosedIffModel(rules, exts, x, c);
    k := SemiNaiveStops(Compiled(rules, exts, c.m), base, x, c);
    SemiNaiveIsLeastModel(rules, exts, base, x, k, c);
  }

  /** The serial evaluator, which appends in place, stops at the same least model. */
  lemma SerialIsLeastModel(rules: Rules, exts: Extensions, order: seq<string>, base: Db, x: Db, k: nat, c: Context)
    requires IsProgram(rules, exts, c.m) && Hosts(x, rules, exts, c) && IsModel(rules, exts, x, c)
    requires Enumerates(order, Compiled(rules, exts, c.m))
    requires Grows(base, x, rules.Keys) && NoRows(Serial(Compiled(rules, exts, c.m), order, base, k + 1, c).delta)
    ensures var db := Serial(Compiled(rules, exts, c.m), order, base, k, c).db;
            IsModel(rules, exts, db, c) && Grows(base, db, rules.Keys) && Grows(db, x, rules.Keys)
  {
    hide IsProgram, Hosts, IsModel, Grows, Valid, IsClosed, Serial, Compiled, Enumerates, AllPlansStratified;
    var s := Compiled(rules, exts, c.m);
    CompiledIsValid(rules, exts, c.m);
    ClosedIffModel(rules, exts, x, c);
    SerialIsLeastFixpoint(s, order, base, x, k, c);
    var db := Serial(s, order, base, k, c).db;
    SmallerHosts(rules, exts, db, x, c);
    ClosedIffModel(rules, exts, db, c);
  }

  lemma SerialReachesLeastModel(rules: Rules, exts: Extensions, order: seq<string>, base: Db, x: Db, c: Context) returns (k: nat)
    requires IsProgram(rules, exts, c.m) && Hosts(x, rules, exts, c) && IsModel(rules, exts, x, c) && Grows(base, x, rules.Keys)
    requires Enumerates(order, Compiled(rules, exts, c.m))
    ensures k <= |Missing(base, x, rules.Keys)| && NoRows(Serial(Compiled(rules, exts, c.m), order, base, k + 1, c).delta)
    ensures var db := Serial(Compiled(rules, exts, c.m), order, base, k, c).db;
            IsModel(rules, exts, db, c) && Grows(base, db, rules.Keys) && Grows(db, x, rules.Keys)
  {
    hide IsProgram, Hosts, IsModel, Grows, Valid, IsClosed, Serial, Compiled, Enumerates, AllPlansStratified, Missing, NoRows;
    CompiledIsValid(rules, exts, c.m);
    ClosedIffModel(rules, exts, x, c);
    k := SerialStops(Compiled(rules, exts, c.m), order, base, x, c);
    SerialIsLeastModel(rules, exts, order, base, x, k, c);
  }
}
