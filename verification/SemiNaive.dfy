/**
 * Whole runs of a recursive stratum.
 *
 * Naive iteration evaluates every plan on everything known so far and adds the answers.
 * Semi-naive iteration evaluates the K sequences of an expanded plan against the rows that
 * were new in the last round. Both reach the same sets after every round, so they reach
 * the same least fixpoint; and so does the serial evaluator, which appends each relation's
 * answers while the round is still going on.
 */
module SemiNaive {
  import opened Bytes
  import opened Machine
  import opened Postfix
  import opened Plan
  import opened RuleBodies
  import opened DeltaStep
  import opened KFusion

  /** One operator list per relation of the stratum, and the rule bodies it is made of. */
  datatype Stratum = Stratum(plans: map<string, seq<Op>>, bodies: map<string, seq<seq<Op>>>)

  /**
   * What the iteration relies on: negation is of earlier strata, and a list that is expanded
   * reads its stratum at its delta positions only. Other lists are evaluated in full.
   */
  predicate Valid(s: Stratum) {
    s.plans.Keys == s.bodies.Keys && forall n | n in s.plans :: IsValidPlan(s.plans[n], s.bodies[n], s.plans.Keys)
  }

  predicate IsValidPlan(ops: seq<Op>, bodies: seq<seq<Op>>, idb: set<string>) {
    && IsRulePlan(ops, bodies) && Plain(ops) && AllNegateEarlier(bodies, idb)
    && (Expanded(ops, idb) ==> AllStratified(bodies, idb))
  }

  /** The rest of the evaluation context. */
  datatype Context = Context(m: Machine, reduce: (Reduction, Rel) -> Option<Rel>, outbound: bool)

  function PlainIn(db: Db, c: Context): World { PlainWorld(db, c.m, c.reduce) }

  /** K >= 2 delta positions: such plans are expanded, the others evaluated in full. */
  predicate Expanded(ops: seq<Op>, idb: set<string>) {
    exists p, q :: 0 <= p < q < |ops| && IsDeltaPos(ops[p], idb) && IsDeltaPos(ops[q], idb)
  }

  // ---- one round ---------------------------------------------------------------

  /** Every plan evaluates without an error. */
  predicate Runs(s: Stratum, db: Db, c: Context) {
    s.plans.Keys <= db.Keys && forall n | n in s.plans :: Answer(s.plans[n], PlainIn(db, c)).Some?
  }

  function NaiveRows(s: Stratum, n: string, db: Db, c: Context): set<Row>
    requires n in s.plans
  {
    match Answer(s.plans[n], PlainIn(db, c))
    case None => {}
    case Some(r) => r.rows
  }

  function Extended(r: Rel, rows: set<Row>): Rel { Rel(r.width, r.rows + rows) }

  function NaiveRound(s: Stratum, db: Db, c: Context): Db {
    map n | n in db :: if n in s.plans then Extended(db[n], NaiveRows(s, n, db, c)) else db[n]
  }

  function RoundWorld(full: Db, delta: Db, seed: bool, c: Context): World {
    World(full, delta, seed, c.outbound, c.m, c.reduce)
  }

  /** What a relation contributes in a semi-naive round. */
  function DeltaAnswers(s: Stratum, n: string, full: Db, delta: Db, seed: bool, c: Context): set<Row>
    requires n in s.plans
  {
    if Expanded(s.plans[n], s.plans.Keys)
    then FusedRows(s.plans[n], s.plans.Keys, RoundWorld(full, delta, seed, c))
    else NaiveRows(s, n, full, c)
  }

  /** The sets after a round and the rows that were new in it. */
  datatype State = State(db: Db, delta: Db)

  function NewIn(s: Stratum, before: Db, after: Db): Db
    requires before.Keys == after.Keys
  {
    map n | n in after && n in s.plans :: Rel(after[n].width, after[n].rows - before[n].rows)
  }

  function SemiRound(s: Stratum, st: State, seed: bool, c: Context): State {
    var next := map n | n in st.db ::
      if n in s.plans then Extended(st.db[n], DeltaAnswers(s, n, st.db, st.delta, seed, c)) else st.db[n];
    State(next, NewIn(s, st.db, next))
  }

  function Naive(s: Stratum, base: Db, k: nat, c: Context): Db {
    if k == 0 then base else NaiveRound(s, Naive(s, base, k - 1, c), c)
  }

  function Semi(s: Stratum, base: Db, k: nat, c: Context): State {
    if k == 0 then State(base, map[]) else SemiRound(s, Semi(s, base, k - 1, c), k == 1, c)
  }

  // ---- one round derives the right rows -------------------------------------------

  /** What semi-naive evaluation relies on from one round to the next. */
  ghost predicate Advances(s: Stratum, o: Db, g: Db, delta: Db, full: Db) {
    var idb := s.plans.Keys;
    Adds(o, delta, g, idb) && Grows(g, full, idb) && DeltaFits(delta, full) && forall n | n in delta :: n in idb
  }

  /** Nothing outside what the plain plans answer. */
  lemma RoundSound(s: Stratum, n: string, full: Db, delta: Db, seed: bool, c: Context)
    requires Valid(s) && n in s.plans && DeltaFits(delta, full) && Runs(s, full, c)
    ensures DeltaAnswers(s, n, full, delta, seed, c) <= NaiveRows(s, n, full, c)
  {
    hide Answer, Sequence, IsRulePlan, Plain, AllStratified, AllNegateEarlier, Expanded;
    var ops, idb, w := s.plans[n], s.plans.Keys, RoundWorld(full, delta, seed, c);
    assert IsValidPlan(ops, s.bodies[n], idb);
    if Expanded(ops, idb) {
      forall t | t in FusedRows(ops, idb, w)
        ensures t in NaiveRows(s, n, full, c)
      {
        var p :| 0 <= p < |ops| && IsDeltaPos(ops[p], idb) && Answer(Sequence(ops, idb, p), w).Some?
          && t in Answer(Sequence(ops, idb, p), w).value.rows;
        SequenceSound(ops, s.bodies[n], idb, p, w);
      }
    }
  }

  lemma DerivedIsFused(ops: seq<Op>, idb: set<string>, w: World, p: int, t: Row)
    requires SequenceDerives(ops, idb, w, p, t)
    ensures t in FusedRows(ops, idb, w)
  {
    hide Answer, Sequence, IsDeltaPos;
  }

  /** Everything the old rows and the new rows derive together, beyond what the old rows derived. */
  lemma RoundComplete(s: Stratum, n: string, o: Db, g: Db, delta: Db, full: Db, c: Context)
    requires Valid(s) && n in s.plans && Advances(s, o, g, delta, full)
    requires Runs(s, o, c) && Runs(s, g, c) && Runs(s, full, c)
    ensures NaiveRows(s, n, g, c) <= NaiveRows(s, n, o, c) + DeltaAnswers(s, n, full, delta, false, c)
  {
    hide Answer, Sequence, IsRulePlan, Plain, AllStratified, AllNegateEarlier, Expanded, FusedRows, SequenceDerives;
    var ops, bodies, idb, w := s.plans[n], s.bodies[n], s.plans.Keys, RoundWorld(full, delta, false, c);
    assert IsValidPlan(ops, bodies, idb);
    forall t | t in NaiveRows(s, n, g, c)
      ensures t in NaiveRows(s, n, o, c) || t in DeltaAnswers(s, n, full, delta, false, c)
    {
      if Expanded(ops, idb) {
        FusionComplete(ops, bodies, idb, o, g, w, t);
        if t !in NaiveRows(s, n, o, c) {
          var p :| SequenceDerives(ops, idb, w, p, t);
          DerivedIsFused(ops, idb, w, p, t);
        }
      } else {
        AnswerMonotone(ops, bodies, idb, g, full, c.m, c.reduce);
      }
    }
  }

  /** The seed round derives everything the plain plans do. */
  lemma RoundSeeds(s: Stratum, n: string, full: Db, delta: Db, c: Context)
    requires Valid(s) && n in s.plans && DeltaFits(delta, full) && Runs(s, full, c)
    requires NoRows(delta)
    ensures NaiveRows(s, n, full, c) <= DeltaAnswers(s, n, full, delta, true, c)
  {
    hide Answer, Sequence, IsRulePlan, Plain, AllStratified, AllNegateEarlier, FusedRows, SequenceDerives, IsDeltaPos;
    var ops, bodies, idb, w := s.plans[n], s.bodies[n], s.plans.Keys, RoundWorld(full, delta, true, c);
    assert IsValidPlan(ops, bodies, idb);
    if Expanded(ops, idb) {
      var p0, q0 :| 0 <= p0 < q0 < |ops| && IsDeltaPos(ops[p0], idb) && IsDeltaPos(ops[q0], idb);
      forall t | t in NaiveRows(s, n, full, c)
        ensures t in DeltaAnswers(s, n, full, delta, true, c)
      {
        FusionSeeds(ops, bodies, idb, w, p0, t);
        var p :| SequenceDerives(ops, idb, w, p, t);
        DerivedIsFused(ops, idb, w, p, t);
      }
    }
  }

  // ---- round by round -----------------------------------------------------------------

  lemma RoundGrows(s: Stratum, db: Db, c: Context)
    ensures Grows(db, NaiveRound(s, db, c), s.plans.Keys)
  {
    hide NaiveRows;
  }

  /** The rows new in a round, seen as the delta of the next. */
  lemma NewInAdvances(s: Stratum, before: Db, after: Db)
    requires Grows(before, after, s.plans.Keys)
    ensures Advances(s, before, after, NewIn(s, before, after), after)
  {}

  /** If each relation's contribution agrees, the rounds agree. */
  lemma RoundsAgree(s: Stratum, db: Db, delta: Db, seed: bool, c: Context)
    requires forall n | n in s.plans && n in db ::
               db[n].rows + DeltaAnswers(s, n, db, delta, seed, c) == db[n].rows + NaiveRows(s, n, db, c)
    ensures SemiRound(s, State(db, delta), seed, c).db == NaiveRound(s, db, c)
    ensures SemiRound(s, State(db, delta), seed, c).delta == NewIn(s, db, NaiveRound(s, db, c))
  {
    hide NaiveRows, DeltaAnswers;
    var next, naive := SemiRound(s, State(db, delta), seed, c).db, NaiveRound(s, db, c);
    assert next == naive;
  }

  lemma SeedAgrees(s: Stratum, db: Db, c: Context, n: string)
    requires Valid(s) && Runs(s, db, c) && n in s.plans && n in db
    ensures db[n].rows + DeltaAnswers(s, n, db, map[], true, c) == db[n].rows + NaiveRows(s, n, db, c)
  {
    hide NaiveRows, DeltaAnswers, Valid, Runs;
    RoundSound(s, n, db, map[], true, c);
    RoundSeeds(s, n, db, map[], c);
  }

  lemma LaterAgrees(s: Stratum, before: Db, c: Context, n: string)
    requires Valid(s) && Runs(s, before, c) && n in s.plans && n in before
    requires Runs(s, NaiveRound(s, before, c), c)
    ensures var now := NaiveRound(s, before, c);
            var delta := NewIn(s, before, now);
            now[n].rows + DeltaAnswers(s, n, now, delta, false, c) == now[n].rows + NaiveRows(s, n, now, c)
  {
    hide NaiveRows, DeltaAnswers, Valid, Runs;
    var now := NaiveRound(s, before, c);
    var delta := NewIn(s, before, now);
    assert NaiveRows(s, n, before, c) <= now[n].rows;
    RoundGrows(s, before, c);
    NewInAdvances(s, before, now);
    RoundSound(s, n, now, delta, false, c);
    RoundComplete(s, n, before, now, delta, now, c);
  }

  /**
   * After every round the semi-naive sets are exactly the naive sets, and the recorded delta
   * is exactly what the last round added.
   */
  lemma {:induction false} SameAfterEveryRound(s: Stratum, base: Db, k: nat, c: Context)
    requires Valid(s) && forall j | 0 <= j < k :: Runs(s, Naive(s, base, j, c), c)
    ensures Semi(s, base, k, c).db == Naive(s, base, k, c)
    ensures k > 0 ==> Naive(s, base, k - 1, c).Keys == Naive(s, base, k, c).Keys
    ensures k > 0 ==> Semi(s, base, k, c).delta == NewIn(s, Naive(s, base, k - 1, c), Naive(s, base, k, c))
    decreases k
  {
    hide NaiveRows, DeltaAnswers, Valid, Runs, SemiRound, NaiveRound, NewIn;
    if k > 0 {
      SameAfterEveryRound(s, base, k - 1, c);
      var now, delta := Naive(s, base, k - 1, c), Semi(s, base, k - 1, c).delta;
      assert Runs(s, now, c);
      RoundKeys(s, now, c);
      forall n | n in s.plans && n in now
        ensures now[n].rows + DeltaAnswers(s, n, now, delta, k == 1, c) == now[n].rows + NaiveRows(s, n, now, c)
      {
        if k == 1 {
          SeedAgrees(s, now, c, n);
        } else {
          assert Runs(s, Naive(s, base, k - 2, c), c);
          LaterAgrees(s, Naive(s, base, k - 2, c), c, n);
        }
      }
      RoundsAgree(s, now, delta, k == 1, c);
    }
  }

  lemma RoundKeys(s: Stratum, db: Db, c: Context)
    ensures NaiveRound(s, db, c).Keys == db.Keys
  {}

  // ---- the least fixpoint --------------------------------------------------------------

  predicate NoRows(db: Db) { forall n | n in db :: db[n].rows == {} }

  /** No plan answers a row its relation does not have. */
  predicate IsClosed(s: Stratum, db: Db, c: Context) {
    Runs(s, db, c) && forall n | n in s.plans :: NaiveRows(s, n, db, c) <= db[n].rows
  }

  /** A larger database answers at least as much, relation by relation. */
  lemma AnswersGrow(s: Stratum, db: Db, x: Db, c: Context)
    requires Valid(s) && Grows(db, x, s.plans.Keys) && Runs(s, x, c)
    ensures Runs(s, db, c) && forall n | n in s.plans :: NaiveRows(s, n, db, c) <= NaiveRows(s, n, x, c)
  {
    hide Answer, IsRulePlan, Plain, AllStratified, AllNegateEarlier, Expanded, Grows;
    forall i | i in s.plans
      ensures BelowOpt(Answer(s.plans[i], PlainIn(db, c)), Answer(s.plans[i], PlainIn(x, c)))
    {
      assert IsValidPlan(s.plans[i], s.bodies[i], s.plans.Keys);
      AnswerMonotone(s.plans[i], s.bodies[i], s.plans.Keys, db, x, c.m, c.reduce);
    }
    assert s.plans.Keys <= db.Keys by { GrowsKeys(db, x, s.plans.Keys); }
  }

  lemma GrowsKeys(a: Db, b: Db, idb: set<string>)
    requires Grows(a, b, idb)
    ensures a.Keys == b.Keys
  {}

  lemma NaiveStaysBelow(s: Stratum, db: Db, x: Db, c: Context)
    requires Valid(s) && Grows(db, x, s.plans.Keys) && IsClosed(s, x, c)
    ensures Runs(s, db, c) && Grows(NaiveRound(s, db, c), x, s.plans.Keys)
  {
    hide NaiveRows, Valid;
    AnswersGrow(s, db, x, c);
  }

  /** Any closed database above the facts bounds every round: the run never needs more. */
  lemma {:induction false} BoundedByClosed(s: Stratum, base: Db, x: Db, k: nat, c: Context)
    requires Valid(s) && Grows(base, x, s.plans.Keys) && IsClosed(s, x, c)
    ensures Runs(s, Naive(s, base, k, c), c) && Grows(Naive(s, base, k, c), x, s.plans.Keys)
    decreases k
  {
    hide Valid, Grows, IsClosed, NaiveRound, Runs;
    if k > 0 {
      BoundedByClosed(s, base, x, k - 1, c);
      NaiveStaysBelow(s, Naive(s, base, k - 1, c), x, c);
    }
    NaiveStaysBelow(s, Naive(s, base, k, c), x, c);
  }

  /**
   * When a semi-naive round adds nothing, the sets are the least fixpoint: closed under
   * every plan, and contained in every closed database that holds the facts.
   */
  lemma SemiNaiveIsLeastFixpoint(s: Stratum, base: Db, x: Db, k: nat, c: Context)
    requires Valid(s) && Grows(base, x, s.plans.Keys) && IsClosed(s, x, c)
    requires NoRows(Semi(s, base, k + 1, c).delta)
    ensures IsClosed(s, Semi(s, base, k, c).db, c)
    ensures Grows(base, Semi(s, base, k, c).db, s.plans.Keys) && Grows(Semi(s, base, k, c).db, x, s.plans.Keys)
  {
    hide Valid, Grows, IsClosed, NaiveRound, Runs, NewIn, SemiRound;
    forall j | 0 <= j <= k + 1
      ensures Runs(s, Naive(s, base, j, c), c)
    {
      BoundedByClosed(s, base, x, j, c);
    }
    SameAfterEveryRound(s, base, k, c);
    SameAfterEveryRound(s, base, k + 1, c);
    BoundedByClosed(s, base, x, k, c);
    FactsStay(s, base, k, c);
    var db := Naive(s, base, k, c);
    assert Naive(s, base, k + 1, c) == NaiveRound(s, db, c);
    RoundKeys(s, db, c);
    NothingNewIsClosed(s, db, c);
  }

  lemma NothingNewIsClosed(s: Stratum, db: Db, c: Context)
    requires Runs(s, db, c) && NaiveRound(s, db, c).Keys == db.Keys
    requires NoRows(NewIn(s, db, NaiveRound(s, db, c)))
    ensures IsClosed(s, db, c)
  {
    hide NaiveRows;
    var next := NaiveRound(s, db, c);
    forall n | n in s.plans
      ensures NaiveRows(s, n, db, c) <= db[n].rows
    {
      assert n in NewIn(s, db, next) && next[n].rows - db[n].rows == {};
      forall t | t in NaiveRows(s, n, db, c)
        ensures t in db[n].rows
      {
        assert t in next[n].rows - db[n].rows <==> t in next[n].rows && t !in db[n].rows;
      }
    }
  }

  lemma {:induction false} FactsStay(s: Stratum, base: Db, k: nat, c: Context)
    ensures Grows(base, Naive(s, base, k, c), s.plans.Keys)
    decreases k
  {
    hide NaiveRound;
    if k > 0 {
      FactsStay(s, base, k - 1, c);
      RoundGrows(s, Naive(s, base, k - 1, c), c);
    }
  }

  // ---- the serial evaluator, which appends in place ---------------------------------------

  function Appended(db: Db, n: string, rows: set<Row>): Db {
    if n in db then db[n := Extended(db[n], rows)] else db
  }

  /** The first i relations of the order, each reading what the earlier ones just appended. */
  function SerialPass(s: Stratum, order: seq<string>, i: nat, db: Db, delta: Db, seed: bool, c: Context): Db
    requires i <= |order| && forall n | n in order :: n in s.plans
  {
    if i == 0 then db
    else
      var f := SerialPass(s, order, i - 1, db, delta, seed, c);
      Appended(f, order[i - 1], DeltaAnswers(s, order[i - 1], f, delta, seed, c))
  }

  predicate Enumerates(order: seq<string>, s: Stratum) {
    (forall n | n in order :: n in s.plans) && (forall n | n in s.plans :: n in order)
  }

  lemma {:induction false} SerialKeys(s: Stratum, order: seq<string>, i: nat, db: Db, delta: Db, seed: bool, c: Context)
    requires i <= |order| && forall n | n in order :: n in s.plans
    ensures SerialPass(s, order, i, db, delta, seed, c).Keys == db.Keys
    decreases i
  {
    hide DeltaAnswers;
    if i > 0 {
      SerialKeys(s, order, i - 1, db, delta, seed, c);
    }
  }

  function SerialRound(s: Stratum, order: seq<string>, st: State, seed: bool, c: Context): State
    requires Enumerates(order, s)
  {
    SerialKeys(s, order, |order|, st.db, st.delta, seed, c);
    var next := SerialPass(s, order, |order|, st.db, st.delta, seed, c);
    State(next, NewIn(s, st.db, next))
  }

  function Serial(s: Stratum, order: seq<string>, base: Db, k: nat, c: Context): State
    requires Enumerates(order, s)
  {
    if k == 0 then State(base, map[]) else SerialRound(s, order, Serial(s, order, base, k - 1, c), k == 1, c)
  }

  lemma GrowsTrans(a: Db, b: Db, d: Db, idb: set<string>)
    requires Grows(a, b, idb) && Grows(b, d, idb)
    ensures Grows(a, d, idb)
  {}

  lemma DeltaStillFits(delta: Db, a: Db, b: Db, idb: set<string>)
    requires DeltaFits(delta, a) && Grows(a, b, idb)
    ensures DeltaFits(delta, b)
  {}

  lemma AppendGrows(s: Stratum, f: Db, n: string, rows: set<Row>, x: Db)
    requires n in s.plans && n in f && Grows(f, x, s.plans.Keys) && rows <= x[n].rows
    ensures Grows(f, Appended(f, n, rows), s.plans.Keys) && Grows(Appended(f, n, rows), x, s.plans.Keys)
  {}

  /** Within a pass the database only grows, and never beyond a closed one. */
  lemma {:induction false} PassBounded(s: Stratum, order: seq<string>, i: nat, db: Db, delta: Db, seed: bool, x: Db, c: Context)
    requires Valid(s) && i <= |order| && (forall n | n in order :: n in s.plans)
    requires DeltaFits(delta, db) && Grows(db, x, s.plans.Keys) && IsClosed(s, x, c)
    ensures var f := SerialPass(s, order, i, db, delta, seed, c);
            Grows(db, f, s.plans.Keys) && Grows(f, x, s.plans.Keys) && DeltaFits(delta, f) && Runs(s, f, c)
    decreases i
  {
    hide DeltaAnswers, NaiveRows, Valid, Grows, DeltaFits;
    var idb := s.plans.Keys;
    if i == 0 {
      AnswersGrow(s, db, x, c);
      SelfGrows(db, idb);
    } else {
      PassBounded(s, order, i - 1, db, delta, seed, x, c);
      var f, n := SerialPass(s, order, i - 1, db, delta, seed, c), order[i - 1];
      var g := Appended(f, n, DeltaAnswers(s, n, f, delta, seed, c));
      RoundSound(s, n, f, delta, seed, c);
      AnswersGrow(s, f, x, c);
      AppendGrows(s, f, n, DeltaAnswers(s, n, f, delta, seed, c), x);
      GrowsTrans(db, f, g, idb);
      DeltaStillFits(delta, f, g, idb);
      AnswersGrow(s, g, x, c);
    }
  }

  lemma SelfGrows(db: Db, idb: set<string>)
    ensures Grows(db, db, idb)
  {}

  /** The rows appended for relation j are still there at the end of the pass. */
  lemma {:induction false} PassKeeps(s: Stratum, order: seq<string>, j: nat, i: nat, db: Db, delta: Db, seed: bool, c: Context)
    requires j < i <= |order| && (forall n | n in order :: n in s.plans) && order[j] in db
    ensures var f := SerialPass(s, order, j, db, delta, seed, c);
            var g := SerialPass(s, order, i, db, delta, seed, c);
            order[j] in g && DeltaAnswers(s, order[j], f, delta, seed, c) <= g[order[j]].rows
    decreases i
  {
    hide DeltaAnswers;
    SerialKeys(s, order, i - 1, db, delta, seed, c);
    if j < i - 1 {
      PassKeeps(s, order, j, i - 1, db, delta, seed, c);
    }
  }

  /** What the seed pass derives. */
  lemma SerialSeeds(s: Stratum, order: seq<string>, base: Db, x: Db, n: string, c: Context)
    requires Valid(s) && Enumerates(order, s) && Grows(base, x, s.plans.Keys) && IsClosed(s, x, c) && n in s.plans
    ensures n in base && n in SerialPass(s, order, |order|, base, map[], true, c)
    ensures NaiveRows(s, n, base, c) <= SerialPass(s, order, |order|, base, map[], true, c)[n].rows
  {
    hide DeltaAnswers, NaiveRows, Valid, SerialPass;
    var j :| 0 <= j < |order| && order[j] == n;
    GrowsKeys(base, x, s.plans.Keys);
    var f := SerialPass(s, order, j, base, map[], true, c);
    PassBounded(s, order, j, base, map[], true, x, c);
    RoundSeeds(s, n, f, map[], c);
    AnswersGrow(s, base, f, c);
    PassKeeps(s, order, j, |order|, base, map[], true, c);
  }

  /** What a later pass derives, beyond what the pass before it could already derive. */
  lemma SerialDerives(s: Stratum, order: seq<string>, before: Db, now: Db, x: Db, n: string, c: Context)
    requires Valid(s) && Enumerates(order, s) && n in s.plans
    requires Grows(before, now, s.plans.Keys) && Grows(now, x, s.plans.Keys) && IsClosed(s, x, c)
    ensures var after := SerialPass(s, order, |order|, now, NewIn(s, before, now), false, c);
            n in after && NaiveRows(s, n, now, c) <= NaiveRows(s, n, before, c) + after[n].rows
  {
    hide DeltaAnswers, NaiveRows, Valid, SerialPass, NewIn, Grows, Adds, DeltaFits;
    GrowsKeys(before, now, s.plans.Keys);
    var idb, delta := s.plans.Keys, NewIn(s, before, now);
    var j :| 0 <= j < |order| && order[j] == n;
    GrowsKeys(now, x, idb);
    NewInAdvances(s, before, now);
    var f := SerialPass(s, order, j, now, delta, false, c);
    PassBounded(s, order, j, now, delta, false, x, c);
    GrowsTrans(before, now, x, idb);
    AnswersGrow(s, before, x, c);
    AnswersGrow(s, now, x, c);
    RoundComplete(s, n, before, now, delta, f, c);
    PassKeeps(s, order, j, |order|, now, delta, false, c);
  }

  /** One round's facts about the serial run. */
  ghost predicate SerialAt(s: Stratum, order: seq<string>, base: Db, x: Db, k: nat, c: Context)
    requires Enumerates(order, s)
  {
    var now, next := Serial(s, order, base, k, c), Serial(s, order, base, k + 1, c);
    && Grows(base, now.db, s.plans.Keys) && Grows(now.db, next.db, s.plans.Keys) && Grows(next.db, x, s.plans.Keys)
    && next.delta == NewIn(s, now.db, next.db)
    && forall n | n in s.plans :: n in next.db && NaiveRows(s, n, now.db, c) <= next.db[n].rows
  }

  lemma {:induction false} SerialInvariant(s: Stratum, order: seq<string>, base: Db, x: Db, k: nat, c: Context)
    requires Valid(s) && Enumerates(order, s) && Grows(base, x, s.plans.Keys) && IsClosed(s, x, c)
    ensures SerialAt(s, order, base, x, k, c)
    decreases k
  {
    hide DeltaAnswers, NaiveRows, Valid, SerialPass, NewIn, Grows, IsClosed, DeltaFits, Enumerates, Adds;
    var idb := s.plans.Keys;
    if k == 0 {
      PassBounded0(s, order, base, x, c);
      forall n | n in s.plans
        ensures var next := Serial(s, order, base, 1, c).db; n in next && NaiveRows(s, n, base, c) <= next[n].rows
      {
        SerialSeeds(s, order, base, x, n, c);
      }
      assert Serial(s, order, base, 0, c).db == base;
    } else {
      SerialInvariant(s, order, base, x, k - 1, c);
      var before, now := Serial(s, order, base, k - 1, c), Serial(s, order, base, k, c);
      var next := Serial(s, order, base, k + 1, c);
      NewInAdvances(s, before.db, now.db);
      OrderInPlans(order, s);
      PassBounded(s, order, |order|, now.db, now.delta, false, x, c);
      GrowsTrans(base, before.db, now.db, idb);
      forall n | n in s.plans
        ensures n in next.db && NaiveRows(s, n, now.db, c) <= next.db[n].rows
      {
        SerialDerives(s, order, before.db, now.db, x, n, c);
        GrowsRows(now.db, next.db, idb, n);
      }
    }
  }

  lemma OrderInPlans(order: seq<string>, s: Stratum)
    requires Enumerates(order, s)
    ensures forall n | n in order :: n in s.plans
  {}

  lemma GrowsRows(a: Db, b: Db, idb: set<string>, n: string)
    requires Grows(a, b, idb) && n in a
    ensures n in b && a[n].rows <= b[n].rows
  {}

  lemma PassBounded0(s: Stratum, order: seq<string>, base: Db, x: Db, c: Context)
    requires Valid(s) && Enumerates(order, s) && Grows(base, x, s.plans.Keys) && IsClosed(s, x, c)
    ensures Grows(base, base, s.plans.Keys)
    ensures Grows(base, SerialPass(s, order, |order|, base, map[], true, c), s.plans.Keys)
    ensures Grows(SerialPass(s, order, |order|, base, map[], true, c), x, s.plans.Keys)
  {
    hide SerialPass, Valid, IsClosed, Grows;
    SelfGrows(base, s.plans.Keys);
    PassBounded(s, order, |order|, base, map[], true, x, c);
  }

  /** The serial run, once a pass adds nothing, stands at the same least fixpoint. */
  lemma SerialIsLeastFixpoint(s: Stratum, order: seq<string>, base: Db, x: Db, k: nat, c: Context)
    requires Valid(s) && Enumerates(order, s) && Grows(base, x, s.plans.Keys) && IsClosed(s, x, c)
    requires NoRows(Serial(s, order, base, k + 1, c).delta)
    ensures IsClosed(s, Serial(s, order, base, k, c).db, c)
    ensures Grows(base, Serial(s, order, base, k, c).db, s.plans.Keys)
    ensures Grows(Serial(s, order, base, k, c).db, x, s.plans.Keys)
  {
    hide NaiveRows, Valid, SerialPass, Enumerates, Serial, Answer;
    SerialInvariant(s, order, base, x, k, c);
    var now, next := Serial(s, order, base, k, c).db, Serial(s, order, base, k + 1, c).db;
    GrowsTrans(now, next, x, s.plans.Keys);
    AnswersGrow(s, now, x, c);
    forall n | n in s.plans
      ensures NaiveRows(s, n, now, c) <= now[n].rows
    {
      assert n in NewIn(s, now, next) && next[n].rows - now[n].rows == {};
      forall t | t in NaiveRows(s, n, now, c)
        ensures t in now[n].rows
      {
        assert t in next[n].rows - now[n].rows <==> t in next[n].rows && t !in now[n].rows;
      }
    }
  }

  // ---- every run stops --------------------------------------------------------------------

  /** The rows of x that db does not have yet. */
  function Missing(db: Db, x: Db, idb: set<string>): set<(string, Row)> {
    set n, t | n in idb && n in x && t in x[n].rows && !(n in db && t in db[n].rows) :: (n, t)
  }

  /** A round that adds a row leaves fewer to add. */
  lemma MissingShrinks(s: Stratum, now: Db, next: Db, x: Db)
    requires Grows(now, next, s.plans.Keys) && Grows(next, x, s.plans.Keys) && !NoRows(NewIn(s, now, next))
    ensures |Missing(next, x, s.plans.Keys)| < |Missing(now, x, s.plans.Keys)|
  {
    var idb, delta := s.plans.Keys, NewIn(s, now, next);
    var n :| n in delta && delta[n].rows != {};
    var t :| t in delta[n].rows;
    var a, b := Missing(now, x, idb), Missing(next, x, idb);
    assert (n, t) in a && (n, t) !in b;
    assert b <= a - {(n, t)};
    SmallerSet(b, a - {(n, t)});
  }

  lemma {:induction false} SmallerSet<T>(a: set<T>, b: set<T>)
    requires a <= b
    ensures |a| <= |b|
    decreases a
  {
    if a != {} {
      var e :| e in a;
      SmallerSet(a - {e}, b - {e});
    }
  }

  /** What one semi-naive round does, as seen from a closed database above the facts. */
  lemma SemiStep(s: Stratum, base: Db, x: Db, k: nat, c: Context)
    requires Valid(s) && Grows(base, x, s.plans.Keys) && IsClosed(s, x, c)
    ensures var now, next := Semi(s, base, k, c), Semi(s, base, k + 1, c);
            && Grows(now.db, next.db, s.plans.Keys) && Grows(next.db, x, s.plans.Keys)
            && next.delta == NewIn(s, now.db, next.db)
  {
    hide Valid, Grows, IsClosed, NaiveRound, Runs, NewIn, SemiRound, Semi;
    forall j | 0 <= j <= k + 1
      ensures Runs(s, Naive(s, base, j, c), c)
    {
      BoundedByClosed(s, base, x, j, c);
    }
    SameAfterEveryRound(s, base, k, c);
    SameAfterEveryRound(s, base, k + 1, c);
    RoundGrows(s, Naive(s, base, k, c), c);
    BoundedByClosed(s, base, x, k + 1, c);
    GrowsKeys(Semi(s, base, k, c).db, Semi(s, base, k + 1, c).db, s.plans.Keys);
  }

  lemma {:induction false} SemiStopsFrom(s: Stratum, base: Db, x: Db, j: nat, c: Context) returns (k: nat)
    requires Valid(s) && Grows(base, x, s.plans.Keys) && IsClosed(s, x, c)
    ensures j <= k <= j + |Missing(Semi(s, base, j, c).db, x, s.plans.Keys)| && NoRows(Semi(s, base, k + 1, c).delta)
    decreases |Missing(Semi(s, base, j, c).db, x, s.plans.Keys)|
  {
    hide Valid, Grows, IsClosed, Semi, Missing, NewIn, NoRows;
    SemiStep(s, base, x, j, c);
    if NoRows(Semi(s, base, j + 1, c).delta) {
      k := j;
    } else {
      MissingShrinks(s, Semi(s, base, j, c).db, Semi(s, base, j + 1, c).db, x);
      k := SemiStopsFrom(s, base, x, j + 1, c);
    }
  }

  /** Below a closed database the run stops, after at most as many rounds as there are rows to add. */
  lemma SemiNaiveStops(s: Stratum, base: Db, x: Db, c: Context) returns (k: nat)
    requires Valid(s) && Grows(base, x, s.plans.Keys) && IsClosed(s, x, c)
    ensures k <= |Missing(base, x, s.plans.Keys)| && NoRows(Semi(s, base, k + 1, c).delta)
  {
    assert Semi(s, base, 0, c).db == base;
    hide Semi, Missing, Valid, Grows, IsClosed, NoRows;
    k := SemiStopsFrom(s, base, x, 0, c);
  }

  lemma {:induction false} SerialStopsFrom(s: Stratum, order: seq<string>, base: Db, x: Db, j: nat, c: Context) returns (k: nat)
    requires Valid(s) && Enumerates(order, s) && Grows(base, x, s.plans.Keys) && IsClosed(s, x, c)
    ensures j <= k <= j + |Missing(Serial(s, order, base, j, c).db, x, s.plans.Keys)|
    ensures NoRows(Serial(s, order, base, k + 1, c).delta)
    decreases |Missing(Serial(s, order, base, j, c).db, x, s.plans.Keys)|
  {
    hide Valid, Grows, IsClosed, Serial, Missing, NewIn, NoRows, NaiveRows, Enumerates;
    SerialInvariant(s, order, base, x, j, c);
    if NoRows(Serial(s, order, base, j + 1, c).delta) {
      k := j;
    } else {
      MissingShrinks(s, Serial(s, order, base, j, c).db, Serial(s, order, base, j + 1, c).db, x);
      k := SerialStopsFrom(s, order, base, x, j + 1, c);
    }
  }

  lemma SerialStops(s: Stratum, order: seq<string>, base: Db, x: Db, c: Context) returns (k: nat)
    requires Valid(s) && Enumerates(order, s) && Grows(base, x, s.plans.Keys) && IsClosed(s, x, c)
    ensures k <= |Missing(base, x, s.plans.Keys)| && NoRows(Serial(s, order, base, k + 1, c).delta)
  {
    assert Serial(s, order, base, 0, c).db == base;
    hide Serial, Missing, Valid, Grows, IsClosed, NoRows, Enumerates;
    k := SerialStopsFrom(s, order, base, x, 0, c);
  }
}
