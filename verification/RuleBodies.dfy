/**
 * The shape of a relation's operator list: rule bodies joined by CONCAT.
 *
 * A body pushes one relation and then only replaces it, so a body computes one relation
 * and a relation plan computes the union of its bodies.
 */
module RuleBodies {
  import opened Bytes
  import opened Plan
  import Seqs

  predicate IsSource(op: Op) { op.Variable? || op.Lftj? }

  /** Operators a rule body may apply after its source. */
  predicate IsChainOp(op: Op) {
    op.Map? || op.Filter? || op.Join? || op.SemiJoin? || op.AntiJoin?
  }

  predicate IsBody(ops: seq<Op>) {
    |ops| >= 1 && IsSource(ops[0]) && forall i | 1 <= i < |ops| :: IsChainOp(ops[i])
  }

  /** The relation a source operator pushes; None when it cannot run. */
  function SourceRel(op: Op, w: World): Option<Rel>
    requires IsSource(op)
  {
    match op
    case Variable(name, mode) => if name in w.full then Some(Source(w, name, mode)) else None
    case Lftj(rels, cols) => if LftjRuns(w, rels, cols) then Some(LftjRel(w, rels, cols)) else None
  }

  function Then(op: Op, w: World, r: Option<Rel>): Option<Rel>
    requires IsUnary(op)
  {
    match r
    case None => None
    case Some(x) => Unary(op, w, x)
  }

  /** The relation a body computes. */
  function RunBody(ops: seq<Op>, w: World): Option<Rel>
    requires IsBody(ops)
    decreases |ops|
  {
    if |ops| == 1 then SourceRel(ops[0], w)
    else Then(ops[|ops| - 1], w, RunBody(ops[..|ops| - 1], w))
  }

  function Push(stack: seq<Rel>, r: Option<Rel>): Option<seq<Rel>> {
    match r
    case None => None
    case Some(x) => Some(stack + [x])
  }

  /** A body pushes exactly its relation and leaves the rest of the stack alone. */
  lemma {:induction false} BodyPushes(ops: seq<Op>, w: World, stack: seq<Rel>)
    requires IsBody(ops)
    ensures RunOps(ops, w, stack) == Push(stack, RunBody(ops, w))
    decreases |ops|
  {
    hide Unary;
    var init, last := ops[..|ops| - 1], ops[|ops| - 1];
    if |ops| == 1 {
      assert init == [];
    } else {
      BodyPushes(init, w, stack);
      var r := RunBody(init, w);
      if r.Some? {
        Seqs.TakeConcat(stack, [r.value]);
      }
    }
  }

  /** One body, or the bodies of several rules each but the first followed by CONCAT. */
  function Flat(bodies: seq<seq<Op>>): seq<Op>
    requires |bodies| >= 1
    decreases |bodies|
  {
    if |bodies| == 1 then bodies[0]
    else Flat(bodies[..|bodies| - 1]) + bodies[|bodies| - 1] + [Concat]
  }

  predicate AllBodies(bodies: seq<seq<Op>>) {
    |bodies| >= 1 && forall i | 0 <= i < |bodies| :: IsBody(bodies[i])
  }

  /** The operator list of a relation, before any rewrite. */
  predicate IsRulePlan(ops: seq<Op>, bodies: seq<seq<Op>>) {
    AllBodies(bodies) && (ops == Flat(bodies) || ops == Flat(bodies) + [Consolidate])
  }

  function Joined(a: Option<Rel>, b: Option<Rel>): Option<Rel> {
    if a.Some? && b.Some? && a.value.width == b.value.width then Some(Union(a.value, b.value)) else None
  }

  /** The union of what the bodies compute; None when one fails or their widths differ. */
  function RunUnion(bodies: seq<seq<Op>>, w: World): Option<Rel>
    requires AllBodies(bodies)
    decreases |bodies|
  {
    if |bodies| == 1 then RunBody(bodies[0], w)
    else Joined(RunUnion(bodies[..|bodies| - 1], w), RunBody(bodies[|bodies| - 1], w))
  }

  lemma ConcatJoins(stack: seq<Rel>, a: Rel, b: Rel, w: World)
    ensures Exec(Concat, w, stack + [a] + [b]) == Push(stack, Joined(Some(a), Some(b)))
  {
    var st := stack + [a] + [b];
    assert st[|st| - 2] == a && st[|st| - 1] == b && st[..|st| - 2] == stack;
  }

  /** The flat list computes the union of its bodies. */
  lemma {:induction false} FlatRuns(bodies: seq<seq<Op>>, w: World, stack: seq<Rel>)
    requires AllBodies(bodies)
    ensures RunOps(Flat(bodies), w, stack) == Push(stack, RunUnion(bodies, w))
    decreases |bodies|
  {
    hide Exec, RunOps, RunBody;
    if |bodies| == 1 {
      BodyPushes(bodies[0], w, stack);
    } else {
      var init, last := bodies[..|bodies| - 1], bodies[|bodies| - 1];
      FlatRuns(init, w, stack);
      RunConcat(Flat(init) + last, [Concat], w, stack);
      RunConcat(Flat(init), last, w, stack);
      var a := RunUnion(init, w);
      if a.Some? {
        BodyPushes(last, w, stack + [a.value]);
        var b := RunBody(last, w);
        if b.Some? {
          RunOne(Concat, w, stack + [a.value] + [b.value]);
          ConcatJoins(stack, a.value, b.value, w);
        }
      }
    }
  }

  /** A relation plan, run from an empty stack, leaves one relation: the union of its bodies. */
  lemma PlanRuns(ops: seq<Op>, bodies: seq<seq<Op>>, w: World)
    requires IsRulePlan(ops, bodies)
    ensures RunOps(ops, w, []) == Push([], RunUnion(bodies, w))
    ensures RunOps(ops + [Consolidate], w, []) == Push([], RunUnion(bodies, w))
  {
    hide RunOps, RunUnion, Flat;
    var flat := Flat(bodies);
    FlatRuns(bodies, w, []);
    ConsolidateKeeps(flat, w);
    ConsolidateKeeps(ops, w);
  }

  lemma ConsolidateKeeps(ops: seq<Op>, w: World)
    requires RunOps(ops, w, []).Some? ==> RunOps(ops, w, []).value != []
    ensures RunOps(ops + [Consolidate], w, []) == RunOps(ops, w, [])
  {
    RunConcat(ops, [Consolidate], w, []);
    var r := RunOps(ops, w, []);
    hide RunOps;
    if r.Some? {
      RunOne(Consolidate, w, r.value);
      var st := r.value;
      assert st[..|st| - 1] + [st[|st| - 1]] == st;
    }
  }

  /** A row of the union is a row of some body, and every body contributes all its rows. */
  lemma {:induction false} UnionMembers(bodies: seq<seq<Op>>, w: World)
    requires AllBodies(bodies) && RunUnion(bodies, w).Some?
    ensures forall i | 0 <= i < |bodies| ::
              RunBody(bodies[i], w).Some? && RunBody(bodies[i], w).value.width == RunUnion(bodies, w).value.width
              && RunBody(bodies[i], w).value.rows <= RunUnion(bodies, w).value.rows
    ensures forall t | t in RunUnion(bodies, w).value.rows ::
              exists i :: 0 <= i < |bodies| && t in RunBody(bodies[i], w).value.rows
    decreases |bodies|
  {
    hide RunBody;
    if |bodies| > 1 {
      var init, last := bodies[..|bodies| - 1], bodies[|bodies| - 1];
      UnionMembers(init, w);
      forall t | t in RunUnion(bodies, w).value.rows
        ensures exists i :: 0 <= i < |bodies| && t in RunBody(bodies[i], w).value.rows
      {
        if t in RunUnion(init, w).value.rows {
          var i :| 0 <= i < |init| && t in RunBody(init[i], w).value.rows;
          assert bodies[i] == init[i];
        } else {
          assert t in RunBody(bodies[|bodies| - 1], w).value.rows;
        }
      }
      forall i | 0 <= i < |bodies|
        ensures RunBody(bodies[i], w).Some? && RunBody(bodies[i], w).value.width == RunUnion(bodies, w).value.width
          && RunBody(bodies[i], w).value.rows <= RunUnion(bodies, w).value.rows
      {
        if i < |init| {
          assert init[i] == bodies[i];
        }
      }
    } else {
      forall t | t in RunUnion(bodies, w).value.rows
        ensures exists i :: 0 <= i < |bodies| && t in RunBody(bodies[i], w).value.rows
      {
        assert t in RunBody(bodies[0], w).value.rows;
      }
    }
  }

  /** If every body runs and all have one width, the union runs. */
  lemma {:induction false} UnionRuns(bodies: seq<seq<Op>>, w: World, width: nat)
    requires AllBodies(bodies)
    requires forall i | 0 <= i < |bodies| ::
               RunBody(bodies[i], w).Some? && RunBody(bodies[i], w).value.width == width
    ensures RunUnion(bodies, w).Some? && RunUnion(bodies, w).value.width == width
    decreases |bodies|
  {
    hide RunBody;
    if |bodies| > 1 {
      var init := bodies[..|bodies| - 1];
      forall i | 0 <= i < |init|
        ensures RunBody(init[i], w).Some? && RunBody(init[i], w).value.width == width
      {
        assert init[i] == bodies[i];
      }
      UnionRuns(init, w, width);
    }
  }
}
