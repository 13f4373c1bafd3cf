/**
 * Aggregates of recursive relations (wirelog/exec_plan_gen.c).
 *
 * Each REDUCE a relation's rules emit is observed once; what is recorded for the whole
 * relation must not depend on the order of the rules. Recursive strata are then checked
 * for aggregates that a fixpoint iteration cannot support.
 */
module Aggregates {
  import opened Bytes
  import opened Plan

  // ---- the specification recorded for a relation --------------------------------------------

  datatype Spec = Spec(fn: Agg, groups: nat, index: nat, operand: Domain)

  /** The fields of the operator list: a sticky veto, and the specification while there is one. */
  datatype State = State(vetoed: bool, spec: Option<Spec>)

  const VETOED := State(true, None)

  predicate IsOrder(fn: Agg) { fn.Min? || fn.Max? }

  /** Two domains that are both known and differ. */
  predicate Clash(a: Domain, b: Domain) { a != b && !a.UnknownDomain? && !b.UnknownDomain? }

  class AggregateSpec {
    var vetoed: bool
    var spec: Option<Spec>

    function Now(): State
      reads this
    {
      State(vetoed, spec)
    }

    constructor ()
      ensures Now() == State(false, None)
    {
      vetoed, spec := false, None;
    }

    method Veto()
      modifies this
      ensures Now() == VETOED
    {
      vetoed, spec := true, None;
    }

    method Observe(r: Reduction)
      modifies this
      ensures Now() == Observed(old(Now()), r)
    {
      if vetoed {
        return;
      }
      if !IsOrder(r.fn) {
        Veto();
        return;
      }
      if spec.Some? && (spec.value.fn != r.fn || spec.value.groups != |r.groupBy| || spec.value.index != r.aggregateIndex) {
        Veto();
        return;
      }
      if spec.Some? && Clash(spec.value.operand, r.operand) {
        Veto();
        return;
      }
      var domain := r.operand;
      if domain.UnknownDomain? && spec.Some? {
        domain := spec.value.operand;
      }
      spec := Some(Spec(r.fn, |r.groupBy|, r.aggregateIndex, domain));
    }
  }

  predicate Fits(s: Spec, r: Reduction) {
    s.fn == r.fn && s.groups == |r.groupBy| && s.index == r.aggregateIndex && !Clash(s.operand, r.operand)
  }

  function Observed(s: State, r: Reduction): State {
    if s.vetoed then s
    else if !IsOrder(r.fn) || (s.spec.Some? && !Fits(s.spec.value, r)) then VETOED
    else State(false, Some(Spec(r.fn, |r.groupBy|, r.aggregateIndex,
                                if r.operand.UnknownDomain? && s.spec.Some? then s.spec.value.operand else r.operand)))
  }

  function Fold(rs: seq<Reduction>): State
    decreases |rs|
  {
    if rs == [] then State(false, None) else Observed(Fold(rs[..|rs| - 1]), rs[|rs| - 1])
  }

  /** A veto stands: no later rule brings the record back. */
  lemma {:induction false} VetoStands(rs: seq<Reduction>, qs: seq<Reduction>)
    requires Fold(rs).vetoed
    ensures Fold(rs + qs) == VETOED
    decreases |qs|
  {
    if qs == [] {
      assert rs + qs == rs;
      FoldRecords(rs);
    } else {
      var init := qs[..|qs| - 1];
      VetoStands(rs, init);
      assert (rs + qs)[..|rs + qs| - 1] == rs + init;
    }
  }

  // ---- what the fold records ------------------------------------------------------------------

  predicate Agree(a: Reduction, b: Reduction) {
    a.fn == b.fn && |a.groupBy| == |b.groupBy| && a.aggregateIndex == b.aggregateIndex && !Clash(a.operand, b.operand)
  }

  /** All MIN or all MAX, one shape, at most one known domain. */
  predicate Admitted(rs: seq<Reduction>) {
    (forall r | r in rs :: IsOrder(r.fn)) && forall a, b | a in rs && b in rs :: Agree(a, b)
  }

  /** The specification speaks for every reduction, and its domain is the known one if there is one. */
  predicate Records(s: Spec, rs: seq<Reduction>) {
    && (forall r | r in rs :: s.fn == r.fn && s.groups == |r.groupBy| && s.index == r.aggregateIndex)
    && (forall r | r in rs && !r.operand.UnknownDomain? :: r.operand == s.operand)
    && (s.operand.UnknownDomain? || exists r :: r in rs && r.operand == s.operand)
  }

  /** Admitted exactly when the rules agree, and then the record speaks for all of them. */
  lemma {:induction false} FoldRecords(rs: seq<Reduction>)
    ensures Fold(rs).vetoed <==> !Admitted(rs)
    ensures Fold(rs).vetoed ==> Fold(rs) == VETOED
    ensures !Fold(rs).vetoed ==> (Fold(rs).spec.Some? <==> rs != [])
    ensures Fold(rs).spec.Some? ==> Records(Fold(rs).spec.value, rs)
    decreases |rs|
  {
    if rs != [] {
      var init, r := rs[..|rs| - 1], rs[|rs| - 1];
      FoldRecords(init);
      assert rs == init + [r] && r in rs;
      AdmitOne(init, r);
      if !Fold(init).vetoed && init != [] {
        FitsAll(Fold(init).spec.value, init, r);
      }
    }
  }

  lemma AdmitOne(init: seq<Reduction>, r: Reduction)
    ensures Admitted(init + [r]) <==> Admitted(init) && IsOrder(r.fn) && forall a | a in init :: Agree(a, r)
  {
    var rs := init + [r];
    assert r in rs && forall a | a in init :: a in rs;
    if Admitted(init) && IsOrder(r.fn) && forall a | a in init :: Agree(a, r) {
      forall a, b | a in rs && b in rs
        ensures Agree(a, b)
      {
        if a in init && b !in init {
          assert b == r;
        } else if a !in init && b in init {
          assert a == r && Agree(b, r);
        }
      }
    }
  }

  lemma FitsAll(s: Spec, init: seq<Reduction>, r: Reduction)
    requires init != [] && Records(s, init)
    ensures Fits(s, r) <==> forall a | a in init :: Agree(a, r)
  {
    assert init[0] in init;
    if Fits(s, r) {
      forall a | a in init
        ensures Agree(a, r)
      {
        assert !a.operand.UnknownDomain? ==> a.operand == s.operand;
      }
    }
    if forall a | a in init :: Agree(a, r) {
      assert Agree(init[0], r);
      if !s.operand.UnknownDomain? {
        var b :| b in init && b.operand == s.operand;
        assert Agree(b, r);
      }
    }
  }

  lemma RecordsUnique(s: Spec, u: Spec, rs: seq<Reduction>, qs: seq<Reduction>)
    requires rs != [] && Records(s, rs) && Records(u, qs) && forall r :: r in rs <==> r in qs
    ensures s == u
  {
    assert rs[0] in rs && rs[0] in qs;
  }

  /** Rule order, and repetition, do not matter. */
  lemma OrderIndependent(rs: seq<Reduction>, qs: seq<Reduction>)
    requires forall r :: r in rs <==> r in qs
    ensures Fold(rs) == Fold(qs)
  {
    FoldRecords(rs);
    FoldRecords(qs);
    assert Admitted(rs) <==> Admitted(qs);
    assert rs == [] <==> qs == [] by {
      if rs != [] { assert rs[0] in qs; }
      if qs != [] { assert qs[0] in rs; }
    }
    if rs != [] && Admitted(rs) {
      RecordsUnique(Fold(rs).spec.value, Fold(qs).spec.value, rs, qs);
    }
  }

  lemma PermutationIndependent(rs: seq<Reduction>, qs: seq<Reduction>)
    requires multiset(rs) == multiset(qs)
    ensures Fold(rs) == Fold(qs)
  {
    forall r
      ensures r in rs <==> r in qs
    {
      assert r in rs <==> r in multiset(rs);
      assert r in qs <==> r in multiset(qs);
    }
    OrderIndependent(rs, qs);
  }

  // ---- checking recursive strata -----------------------------------------------------------------

  datatype RelationPlan = RelationPlan(name: string, ops: seq<Op>)
  datatype StratumPlan = StratumPlan(recursive: bool, relations: seq<RelationPlan>)

  /** The relation an operator reads by name. */
  function Referenced(op: Op): Option<string> {
    match op
    case Variable(rel, _) => Some(rel)
    case Join(right, _, _, _, _) => Some(right)
    case SemiJoin(right, _, _, _) => Some(right)
    case AntiJoin(right, _, _) => Some(right)
    case _ => None
  }

  predicate HasReduce(r: RelationPlan) { exists o :: 0 <= o < |r.ops| && r.ops[o].Reduce? }

  predicate ReadsName(r: RelationPlan, name: string) {
    exists o :: 0 <= o < |r.ops| && Referenced(r.ops[o]) == Some(name)
  }

  /** COUNT, SUM and AVG do not settle under iteration. */
  predicate IsNonMonotone(op: Op) { op.Reduce? && !IsOrder(op.reduction.fn) }

  predicate AllMonotone(r: RelationPlan) { forall o | 0 <= o < |r.ops| :: !IsNonMonotone(r.ops[o]) }

  /** Relation c reads the aggregate relation r of its own stratum. */
  predicate Consumes(st: StratumPlan, c: nat, r: nat) {
    c < |st.relations| && r < |st.relations| && c != r
    && HasReduce(st.relations[r]) && ReadsName(st.relations[c], st.relations[r].name)
  }

  predicate Accepted(st: StratumPlan) {
    st.recursive ==>
      && (forall r | 0 <= r < |st.relations| :: AllMonotone(st.relations[r]))
      && (|st.relations| >= 2 ==> forall c, r | 0 <= c < |st.relations| && 0 <= r < |st.relations| :: !Consumes(st, c, r))
  }

  method FindReduce(r: RelationPlan) returns (found: bool)
    ensures found == HasReduce(r)
  {
    var o := 0;
    while o < |r.ops|
      invariant o <= |r.ops| && forall k | 0 <= k < o :: !r.ops[k].Reduce?
    {
      if r.ops[o].Reduce? {
        return true;
      }
      o := o + 1;
    }
    return false;
  }

  method FindRead(r: RelationPlan, name: string) returns (found: bool)
    ensures found == ReadsName(r, name)
  {
    var o := 0;
    while o < |r.ops|
      invariant o <= |r.ops| && forall k | 0 <= k < o :: Referenced(r.ops[k]) != Some(name)
    {
      if Referenced(r.ops[o]) == Some(name) {
        return true;
      }
      o := o + 1;
    }
    return false;
  }

  method FindConsumer(st: StratumPlan, r: nat) returns (found: bool)
    requires r < |st.relations|
    ensures found == exists c :: 0 <= c < |st.relations| && Consumes(st, c, r)
  {
    hide HasReduce, ReadsName;
    var agg := FindReduce(st.relations[r]);
    if !agg {
      return false;
    }
    var c := 0;
    while c < |st.relations|
      invariant c <= |st.relations| && forall k | 0 <= k < c :: !Consumes(st, k, r)
    {
      if c != r {
        var read := FindRead(st.relations[c], st.relations[r].name);
        if read {
          assert Consumes(st, c, r);
          return true;
        }
      }
      c := c + 1;
    }
    return false;
  }

  method ConsumersOk(plan: seq<StratumPlan>) returns (ok: bool)
    ensures ok == forall s | 0 <= s < |plan| && plan[s].recursive && |plan[s].relations| >= 2 :: NoConsumers(plan[s])
  {
    hide Consumes;
    var s := 0;
    while s < |plan|
      invariant s <= |plan|
      invariant forall k | 0 <= k < s && plan[k].recursive && |plan[k].relations| >= 2 :: NoConsumers(plan[k])
    {
      var st := plan[s];
      if st.recursive && |st.relations| >= 2 {
        var r := 0;
        while r < |st.relations|
          invariant r <= |st.relations|
          invariant forall c, k | 0 <= c < |st.relations| && 0 <= k < r :: !Consumes(st, c, k)
        {
          var found := FindConsumer(st, r);
          if found {
            return false;
          }
          r := r + 1;
        }
      }
      s := s + 1;
    }
    return true;
  }

  predicate NoConsumers(st: StratumPlan) {
    forall c, r | 0 <= c < |st.relations| && 0 <= r < |st.relations| :: !Consumes(st, c, r)
  }

  method FindNonMonotone(r: RelationPlan) returns (found: bool)
    ensures found == !AllMonotone(r)
  {
    var o := 0;
    while o < |r.ops|
      invariant o <= |r.ops| && forall k | 0 <= k < o :: !IsNonMonotone(r.ops[k])
    {
      var op := r.ops[o];
      if op.Reduce? && (op.reduction.fn.Count? || op.reduction.fn.Sum? || op.reduction.fn.Avg?) {
        return true;
      }
      o := o + 1;
    }
    return false;
  }

  method MonotoneOk(plan: seq<StratumPlan>) returns (ok: bool)
    ensures ok == forall s | 0 <= s < |plan| && plan[s].recursive :: IsMonotone(plan[s])
  {
    hide AllMonotone;
    var s := 0;
    while s < |plan|
      invariant s <= |plan| && forall k | 0 <= k < s && plan[k].recursive :: IsMonotone(plan[k])
    {
      var st := plan[s];
      if st.recursive {
        var r := 0;
        while r < |st.relations|
          invariant r <= |st.relations| && forall k | 0 <= k < r :: AllMonotone(st.relations[k])
        {
          var found := FindNonMonotone(st.relations[r]);
          if found {
            assert !IsMonotone(st);
            return false;
          }
          r := r + 1;
        }
      }
      s := s + 1;
    }
    return true;
  }

  predicate IsMonotone(st: StratumPlan) { forall r | 0 <= r < |st.relations| :: AllMonotone(st.relations[r]) }

  /** The whole check: accepted when every stratum is. */
  method ValidateRecursiveAggregates(plan: seq<StratumPlan>) returns (ok: bool)
    ensures ok == forall s | 0 <= s < |plan| :: Accepted(plan[s])
  {
    hide Consumes, AllMonotone;
    ok := MonotoneOk(plan);
    if ok {
      ok := ConsumersOk(plan);
    }
  }

  // ---- what acceptance amounts to ---------------------------------------------------------------------

  predicate Edge(st: StratumPlan, a: nat, b: nat) {
    a < |st.relations| && b < |st.relations| && ReadsName(st.relations[a], st.relations[b].name)
  }

  predicate IsPath(st: StratumPlan, p: seq<nat>) {
    |p| >= 1 && forall i | 0 <= i < |p| - 1 :: Edge(st, p[i], p[i + 1])
  }

  ghost predicate Reaches(st: StratumPlan, a: nat, b: nat) {
    exists p: seq<nat> :: IsPath(st, p) && p[0] == a && p[|p| - 1] == b
  }

  ghost predicate StronglyConnected(st: StratumPlan) {
    forall a: nat, b: nat | a < |st.relations| && b < |st.relations| :: Reaches(st, a, b)
  }

  /** A path that ends elsewhere than it starts enters its end from another relation. */
  lemma {:induction false} EntersFromElsewhere(st: StratumPlan, p: seq<nat>) returns (c: nat)
    requires IsPath(st, p) && p[0] != p[|p| - 1]
    ensures c != p[|p| - 1] && Edge(st, c, p[|p| - 1])
    decreases |p|
  {
    var last, before := p[|p| - 1], p[|p| - 2];
    assert Edge(st, p[|p| - 2], p[|p| - 1]);
    if before != last {
      c := before;
    } else {
      var init := p[..|p| - 1];
      forall i | 0 <= i < |init| - 1
        ensures Edge(st, init[i], init[i + 1])
      {
        assert Edge(st, p[i], p[i + 1]);
      }
      c := EntersFromElsewhere(st, init);
    }
  }

  /** In a strongly connected recursive stratum of several relations, no REDUCE at all is accepted. */
  lemma SharedStratumExact(st: StratumPlan)
    requires st.recursive && |st.relations| >= 2 && StronglyConnected(st)
    ensures Accepted(st) <==> forall r | 0 <= r < |st.relations| :: !HasReduce(st.relations[r])
  {
    hide HasReduce, ReadsName;
    forall r | 0 <= r < |st.relations| && HasReduce(st.relations[r])
      ensures !Accepted(st)
    {
      var other := if r == 0 then 1 else 0;
      assert Reaches(st, other, r);
      var p: seq<nat> :| IsPath(st, p) && p[0] == other && p[|p| - 1] == r;
      var c := EntersFromElsewhere(st, p);
      assert Consumes(st, c, r);
    }
    if forall r | 0 <= r < |st.relations| :: !HasReduce(st.relations[r]) {
      forall r | 0 <= r < |st.relations|
        ensures AllMonotone(st.relations[r])
      {
        NoReduceIsMonotone(st.relations[r]);
      }
    }
  }

  lemma NoReduceIsMonotone(r: RelationPlan)
    requires !HasReduce(r)
    ensures AllMonotone(r)
  {}

  /** Alone in its recursive stratum, a relation may carry MIN and MAX and nothing else. */
  lemma SingleRelationExact(st: StratumPlan)
    requires st.recursive && |st.relations| == 1
    ensures Accepted(st) <==> forall o | 0 <= o < |st.relations[0].ops| && st.relations[0].ops[o].Reduce? :: IsOrder(st.relations[0].ops[o].reduction.fn)
  {
    assert Accepted(st) <==> AllMonotone(st.relations[0]);
  }
}
