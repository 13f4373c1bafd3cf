/**
 * Rule bodies as formulas.
 *
 * A body of scans, conditions, joins on shared variables and safe negation means what it
 * says as a formula: its rows are exactly the valuations of its variables that satisfy it.
 * Together with lowering this gives the answers of a rule straight from its reading, with
 * no columns in sight.
 */
module Valuations {
  import opened Bytes
  import opened Expr
  import opened Machine
  import opened Postfix
  import opened Serializer
  import opened Naming
  import opened Plan
  import opened Ir
  import opened Lowering
  import opened LoweringProof

  type Valuation = Text -> int

  function ValueEnv(v: Valuation): Env { x => Some(v(x)) }

  predicate Named(h: Layout, x: Text) { FindColumn(h, x).Some? }

  /** The row spells out the valuation under the header; unnamed columns hold anything. */
  predicate Matches(h: Layout, row: Row, v: Valuation) {
    |row| == |h| && forall i | 0 <= i < |h| && h[i].name.Some? :: row[i] == v(h[i].name.value)
  }

  /** Columns of the same name hold the same value. */
  predicate Consistent(h: Layout, row: Row) {
    |row| == |h| && forall i, j | 0 <= i < |h| && 0 <= j < |h| && h[i].name.Some? && h[i].name == h[j].name :: row[i] == row[j]
  }

  // ---- join keys ---------------------------------------------------------------------------

  /** The keys are exactly the variables both sides bind. */
  predicate Natural(keys: seq<(Text, Text)>, lh: Layout, rh: Layout) {
    && (forall k | 0 <= k < |keys| :: keys[k].0 == keys[k].1 && Named(lh, keys[k].0) && Named(rh, keys[k].0))
    && (forall i, j | 0 <= i < |lh| && 0 <= j < |rh| && lh[i].name.Some? && lh[i].name == rh[j].name ::
          (lh[i].name.value, lh[i].name.value) in keys)
  }

  /** Every variable of the right side is bound on the left. */
  predicate Safe(lh: Layout, rh: Layout) {
    forall j | 0 <= j < |rh| && rh[j].name.Some? :: Named(lh, rh[j].name.value)
  }

  predicate DistinctNames(h: Layout) {
    forall i, j | 0 <= i < j < |h| && h[i].name.Some? :: h[i].name != h[j].name
  }

  method IsNamedBefore(h: Layout, upto: nat, x: Text) returns (seen: bool)
    requires upto <= |h|
    ensures seen == exists p :: 0 <= p < upto && h[p].name == Some(x)
  {
    var p := 0;
    while p < upto
      invariant p <= upto && forall q | 0 <= q < p :: h[q].name != Some(x)
    {
      if h[p].name == Some(x) {
        return true;
      }
      p := p + 1;
    }
    return false;
  }

  predicate IsSharedKey(key: (Text, Text), lh: Layout, upto: nat, rh: Layout)
    requires upto <= |lh|
  {
    && key.0 == key.1 && (exists p :: 0 <= p < upto && lh[p].name == Some(key.0))
    && (exists q :: 0 <= q < |rh| && rh[q].name == Some(key.0))
  }

  /** The variables of the left side that the right side shares, each once, in left order. */
  method SetupJoinKeys(lh: Layout, rh: Layout) returns (keys: seq<(Text, Text)>)
    ensures Natural(keys, lh, rh)
    ensures forall j, k | 0 <= j < k < |keys| :: keys[j] != keys[k]
  {
    keys := [];
    var i := 0;
    while i < |lh|
      invariant i <= |lh|
      invariant forall k | 0 <= k < |keys| :: IsSharedKey(keys[k], lh, i, rh)
      invariant forall p, q | 0 <= p < i && 0 <= q < |rh| && lh[p].name.Some? && lh[p].name == rh[q].name ::
        (lh[p].name.value, lh[p].name.value) in keys
      invariant forall j, k | 0 <= j < k < |keys| :: keys[j] != keys[k]
    {
      if lh[i].name.Some? {
        var x := lh[i].name.value;
        var seen := IsNamedBefore(lh, i, x);
        var shared := IsNamedBefore(rh, |rh|, x);
        if !seen && shared {
          assert forall k | 0 <= k < |keys| :: keys[k] != (x, x);
          keys := keys + [(x, x)];
          assert keys[|keys| - 1] == (x, x);
        }
      }
      i := i + 1;
    }
  }

  // ---- bodies and what satisfies them ----------------------------------------------------------

  predicate VarsNamed(e: Expr, h: Layout) {
    match e
    case Var(x) => Named(h, x)
    case Arith(_, args) => forall a | a in args :: VarsNamed(a, h)
    case Cmp(_, args) => forall a | a in args :: VarsNamed(a, h)
    case Agg(_, args) => forall a | a in args :: VarsNamed(a, h)
    case StrCall(_, args) => forall a | a in args :: VarsNamed(a, h)
    case ExtCall(_, args) => forall a | a in args :: VarsNamed(a, h)
    case _ => true
  }

  /** A rule body: each atom binds a variable once, joins share variables, negation is safe. */
  predicate IsFormula(n: Ir)
    requires SoundNode(n)
  {
    match n
    case ScanNode(_, cols) => DistinctNames(cols)
    case FilterNode(c, e) => IsFormula(c) && VarsNamed(e, Collect(c))
    case JoinNode(l, r, keys) => IsFormula(l) && IsFormula(r) && Natural(keys, Collect(l), Collect(r))
    case AntiJoinNode(l, r, keys) =>
      IsFormula(l) && IsFormula(r) && Natural(keys, Collect(l), Collect(r)) && Safe(Collect(l), Collect(r))
    case _ => false
  }

  /** The formula the body states. */
  ghost predicate Satisfies(n: Ir, exts: Extensions, w: World, v: Valuation)
    requires SoundNode(n) && IsFormula(n)
  {
    match n
    case ScanNode(rel, cols) => rel in w.full && exists row :: row in w.full[rel].rows && Matches(cols, row, v)
    case FilterNode(c, e) => Satisfies(c, exts, w, v) && IsTrue(Meaning(e, Collect(c), exts, w.m, ValueEnv(v), false))
    case JoinNode(l, r, _) => Satisfies(l, exts, w, v) && Satisfies(r, exts, w, v)
    case AntiJoinNode(l, r, _) => Satisfies(l, exts, w, v) && !Satisfies(r, exts, w, v)
  }

  // ---- conditions see only the valuation -----------------------------------------------------------

  ghost predicate SameOn(h: Layout, a: Env, b: Env) { forall x: Text :: Named(h, x) ==> a(x) == b(x) }

  lemma {:induction false} MeaningLocal(e: Expr, h: Layout, exts: Extensions, m: Machine, a: Env, b: Env, extArg: bool)
    requires Sound(e) && VarsNamed(e, h) && SameOn(h, a, b)
    ensures Meaning(e, h, exts, m, a, extArg) == Meaning(e, h, exts, m, b, extArg)
    decreases e, 1
  {
    hide MeaningAll, Apply, VarTag, TokenOfTag;
    ArgsNamed(e, h);
    MeaningsLocal(Args(e), e, h, exts, m, a, b, e.ExtCall?);
  }

  lemma ArgsNamed(e: Expr, h: Layout)
    requires VarsNamed(e, h)
    ensures forall x | x in Args(e) :: VarsNamed(x, h)
  {}

  lemma {:induction false} MeaningsLocal(es: seq<Expr>, parent: Expr, h: Layout, exts: Extensions, m: Machine, a: Env, b: Env, extArg: bool)
    requires (forall x | x in es :: Sound(x) && x < parent && VarsNamed(x, h)) && SameOn(h, a, b)
    ensures MeaningAll(es, parent, h, exts, m, a, extArg) == MeaningAll(es, parent, h, exts, m, b, extArg)
    decreases parent, 0, |es|
  {
    hide Meaning, Sound, VarsNamed, SameOn;
    if es != [] {
      var init, last := es[..|es| - 1], es[|es| - 1];
      assert last in es && forall x | x in init :: x in es;
      MeaningsLocal(init, parent, h, exts, m, a, b, extArg);
      MeaningLocal(last, h, exts, m, a, b, extArg);
    }
  }

  lemma MatchedMeaning(e: Expr, h: Layout, exts: Extensions, m: Machine, row: Row, v: Valuation)
    requires Sound(e) && VarsNamed(e, h) && Matches(h, row, v)
    ensures Meaning(e, h, exts, m, RowEnv(h, row), false) == Meaning(e, h, exts, m, ValueEnv(v), false)
  {
    hide Meaning, VarsNamed, Sound;
    forall x: Text | Named(h, x)
      ensures RowEnv(h, row)(x) == ValueEnv(v)(x)
    {
      var c := FindColumn(h, x).value;
      assert h[c].name == Some(x);
    }
    MeaningLocal(e, h, exts, m, RowEnv(h, row), ValueEnv(v), false);
  }

  // ---- joining -----------------------------------------------------------------------------------------

  lemma MatchesConcat(lh: Layout, rh: Layout, a: Row, b: Row, v: Valuation)
    requires |a| == |lh| && |b| == |rh|
    ensures Matches(lh + rh, a + b, v) <==> Matches(lh, a, v) && Matches(rh, b, v)
  {
    var h, row := lh + rh, a + b;
    assert forall i | 0 <= i < |lh| :: h[i] == lh[i] && row[i] == a[i];
    assert forall j | 0 <= j < |rh| :: h[|lh| + j] == rh[j] && row[|lh| + j] == b[j];
    if Matches(h, row, v) {
      forall j | 0 <= j < |rh| && rh[j].name.Some?
        ensures b[j] == v(rh[j].name.value)
      {
        assert h[|lh| + j].name.Some?;
      }
    }
    if Matches(lh, a, v) && Matches(rh, b, v) {
      forall i | 0 <= i < |h| && h[i].name.Some?
        ensures row[i] == v(h[i].name.value)
      {
        if i >= |lh| {
          assert h[i] == rh[i - |lh|];
        }
      }
    }
  }

  /** A shared variable's key compares its two columns. */
  lemma KeyOf(keys: seq<(Text, Text)>, lh: Layout, rh: Layout, k: nat)
    requires Natural(keys, lh, rh) && k < |keys|
    ensures KeyColumn(lh, keys[k].0) == FindColumn(lh, keys[k].0) && KeyColumn(rh, keys[k].1) == FindColumn(rh, keys[k].0)
    ensures KeyColumn(lh, keys[k].0).Some? && KeyColumn(rh, keys[k].1).Some?
  {}

  lemma NaturalKnown(keys: seq<(Text, Text)>, lh: Layout, rh: Layout)
    requires Natural(keys, lh, rh)
    ensures KeysKnown(keys, lh, rh)
  {
    hide Natural;
    forall k | 0 <= k < |keys|
      ensures KeyColumn(lh, keys[k].0).Some? && KeyColumn(rh, keys[k].1).Some?
    {
      KeyOf(keys, lh, rh, k);
    }
  }

  /** Rows that spell out one valuation agree on the keys. */
  lemma MatchedAgree(keys: seq<(Text, Text)>, lh: Layout, rh: Layout, a: Row, b: Row, v: Valuation)
    requires Natural(keys, lh, rh) && KeysKnown(keys, lh, rh) && Matches(lh, a, v) && Matches(rh, b, v)
    ensures Agree(keys, lh, a, rh, b)
  {
    hide Natural;
    forall k | 0 <= k < |keys|
      ensures Cell(a, KeyColumn(lh, keys[k].0).value) == Cell(b, KeyColumn(rh, keys[k].1).value)
    {
      KeyOf(keys, lh, rh, k);
      var x := keys[k].0;
      var i, j := FindColumn(lh, x).value, FindColumn(rh, x).value;
      assert a[i] == v(lh[i].name.value) && b[j] == v(rh[j].name.value);
    }
  }

  /** Rows that agree on the keys hold the same value in any two columns of one name. */
  lemma AgreedColumns(keys: seq<(Text, Text)>, lh: Layout, rh: Layout, a: Row, b: Row, i: nat, j: nat)
    requires Natural(keys, lh, rh) && KeysKnown(keys, lh, rh) && Agree(keys, lh, a, rh, b)
    requires Consistent(lh, a) && Consistent(rh, b)
    requires i < |lh| && j < |rh| && lh[i].name.Some? && lh[i].name == rh[j].name
    ensures a[i] == b[j]
  {
    var x := lh[i].name.value;
    assert (x, x) in keys;
    var k :| 0 <= k < |keys| && keys[k] == (x, x);
    KeyOf(keys, lh, rh, k);
    hide Natural;
    var ci, cj := FindColumn(lh, x).value, FindColumn(rh, x).value;
    assert Cell(a, ci) == Cell(b, cj);
    assert a[i] == a[ci] && b[j] == b[cj];
  }

  lemma ConsistentJoin(keys: seq<(Text, Text)>, lh: Layout, rh: Layout, a: Row, b: Row)
    requires Natural(keys, lh, rh) && KeysKnown(keys, lh, rh) && Agree(keys, lh, a, rh, b)
    requires Consistent(lh, a) && Consistent(rh, b)
    ensures Consistent(lh + rh, a + b)
  {
    hide Natural, Agree;
    var h, row, n := lh + rh, a + b, |lh|;
    forall i, j | 0 <= i < |h| && 0 <= j < |h| && h[i].name.Some? && h[i].name == h[j].name
      ensures row[i] == row[j]
    {
      if i < n && j >= n {
        AgreedColumns(keys, lh, rh, a, b, i, j - n);
      } else if i >= n && j < n {
        AgreedColumns(keys, lh, rh, a, b, j, i - n);
      }
    }
  }

  /** A right row that agrees with a matched left row spells out the same valuation, if safe. */
  lemma AgreedMatches(keys: seq<(Text, Text)>, lh: Layout, rh: Layout, a: Row, b: Row, v: Valuation)
    requires Natural(keys, lh, rh) && KeysKnown(keys, lh, rh) && Agree(keys, lh, a, rh, b) && Safe(lh, rh)
    requires Matches(lh, a, v) && Consistent(lh, a) && Consistent(rh, b)
    ensures Matches(rh, b, v)
  {
    hide Natural, Agree;
    forall j | 0 <= j < |rh| && rh[j].name.Some?
      ensures b[j] == v(rh[j].name.value)
    {
      var x := rh[j].name.value;
      assert Named(lh, x);
      AgreedColumns(keys, lh, rh, a, b, FindColumn(lh, x).value, j);
    }
  }

  // ---- rows are satisfying valuations ---------------------------------------------------------------------

  /** Some row of the table spells out the valuation. */
  ghost predicate Covers(t: Table, v: Valuation) { exists row :: row in t.rows && Matches(t.header, row, v) }

  ghost predicate IsConsistent(t: Table) { forall row | row in t.rows :: Consistent(t.header, row) }

  ghost predicate Means(n: Ir, exts: Extensions, w: World, t: Table)
    requires SoundNode(n) && IsFormula(n)
  {
    IsConsistent(t) && forall v: Valuation :: Covers(t, v) <==> Satisfies(n, exts, w, v)
  }

  lemma ScanMeans(n: Ir, exts: Extensions, w: World)
    requires n.ScanNode? && SoundNode(n) && IsFormula(n) && ValidDb(w.full) && Present(n, w)
    ensures Denote(n, exts, w).Some? && Means(n, exts, w, Denote(n, exts, w).value)
  {
    assert ValidRel(w.full[n.rel]);
  }

  lemma FilterMeans(n: Ir, t: Table, exts: Extensions, w: World)
    requires n.FilterNode? && SoundNode(n) && IsFormula(n) && t.header == Collect(n.child) && Means(n.child, exts, w, t)
    ensures Means(n, exts, w, FilterTable(n.cond, t, exts, w.m))
  {
    var e, u := n.cond, FilterTable(n.cond, t, exts, w.m);
    hide Sound, Sized, VarsNamed, Meaning, Collect, Matches, Consistent;
    forall v: Valuation
      ensures Covers(u, v) <==> Satisfies(n, exts, w, v)
    {
      assert Covers(t, v) <==> Satisfies(n.child, exts, w, v);
      hide Satisfies;
      FilterCovers(e, t, exts, w.m, v);
      SatisfiesFilter(n, exts, w, v);
    }
  }

  lemma SatisfiesFilter(n: Ir, exts: Extensions, w: World, v: Valuation)
    requires n.FilterNode? && SoundNode(n) && IsFormula(n)
    ensures Satisfies(n, exts, w, v) <==>
            Satisfies(n.child, exts, w, v) && IsTrue(Meaning(n.cond, Collect(n.child), exts, w.m, ValueEnv(v), false))
  {
    hide Meaning;
  }

  lemma FilterCovers(e: Expr, t: Table, exts: Extensions, m: Machine, v: Valuation)
    requires Sound(e) && VarsNamed(e, t.header)
    ensures Covers(FilterTable(e, t, exts, m), v) <==>
            Covers(t, v) && IsTrue(Meaning(e, t.header, exts, m, ValueEnv(v), false))
  {
    hide Meaning, Sound, VarsNamed, Matches;
    var u := FilterTable(e, t, exts, m);
    forall row | row in t.rows && Matches(t.header, row, v)
      ensures Holds(e, t.header, exts, m, row) <==> IsTrue(Meaning(e, t.header, exts, m, ValueEnv(v), false))
    {
      MatchedMeaning(e, t.header, exts, m, row, v);
    }
  }

  lemma JoinCovers(l: Table, r: Table, keys: seq<(Text, Text)>, v: Valuation)
    requires Natural(keys, l.header, r.header) && KeysKnown(keys, l.header, r.header)
    requires ValidTable(l) && ValidTable(r)
    ensures Covers(JoinTable(l, r, keys), v) <==> Covers(l, v) && Covers(r, v)
  {
    hide Natural, Agree, KeysKnown, Matches;
    var j := JoinTable(l, r, keys);
    if Covers(j, v) {
      var row :| row in j.rows && Matches(j.header, row, v);
      var a, b :| a in l.rows && b in r.rows && Agree(keys, l.header, a, r.header, b) && row == a + b;
      MatchesConcat(l.header, r.header, a, b, v);
    }
    if Covers(l, v) && Covers(r, v) {
      var a :| a in l.rows && Matches(l.header, a, v);
      var b :| b in r.rows && Matches(r.header, b, v);
      MatchedAgree(keys, l.header, r.header, a, b, v);
      MatchesConcat(l.header, r.header, a, b, v);
      assert a + b in j.rows;
    }
  }

  lemma JoinConsistent(l: Table, r: Table, keys: seq<(Text, Text)>)
    requires Natural(keys, l.header, r.header) && KeysKnown(keys, l.header, r.header) && IsConsistent(l) && IsConsistent(r)
    ensures IsConsistent(JoinTable(l, r, keys))
  {
    hide Natural, Agree, KeysKnown, Consistent;
    var j := JoinTable(l, r, keys);
    forall row | row in j.rows
      ensures Consistent(j.header, row)
    {
      var a, b :| a in l.rows && b in r.rows && Agree(keys, l.header, a, r.header, b) && row == a + b;
      ConsistentJoin(keys, l.header, r.header, a, b);
    }
  }

  lemma AntiJoinCovers(l: Table, r: Table, keys: seq<(Text, Text)>, v: Valuation)
    requires Natural(keys, l.header, r.header) && KeysKnown(keys, l.header, r.header) && Safe(l.header, r.header)
    requires IsConsistent(l) && IsConsistent(r)
    ensures Covers(AntiJoinTable(l, r, keys), v) <==> Covers(l, v) && !Covers(r, v)
  {
    hide Natural, Agree, KeysKnown, Matches, Safe, Consistent;
    var j := AntiJoinTable(l, r, keys);
    forall a, b | a in l.rows && Matches(l.header, a, v) && b in r.rows
      ensures Matches(r.header, b, v) <==> Agree(keys, l.header, a, r.header, b)
    {
      if Matches(r.header, b, v) {
        MatchedAgree(keys, l.header, r.header, a, b, v);
      }
      if Agree(keys, l.header, a, r.header, b) {
        AgreedMatches(keys, l.header, r.header, a, b, v);
      }
    }
    forall a | a in l.rows && Matches(l.header, a, v)
      ensures HasMatch(keys, l.header, a, r) <==> Covers(r, v)
    {
    }
  }

  lemma AntiJoinConsistent(l: Table, r: Table, keys: seq<(Text, Text)>)
    requires KeysKnown(keys, l.header, r.header) && IsConsistent(l)
    ensures IsConsistent(AntiJoinTable(l, r, keys))
  {}

  lemma PairMeans(n: Ir, l: Table, r: Table, exts: Extensions, w: World)
    requires (n.JoinNode? || n.AntiJoinNode?) && SoundNode(n) && IsFormula(n)
    requires l.header == Collect(n.left) && r.header == Collect(n.right) && ValidTable(l) && ValidTable(r)
    requires Means(n.left, exts, w, l) && Means(n.right, exts, w, r)
    ensures Pairing(n, Some(l), Some(r)).Some? && Means(n, exts, w, Pairing(n, Some(l), Some(r)).value)
  {
    hide Natural, Collect, Safe, JoinTable, AntiJoinTable, KeysKnown, IsConsistent, Covers, SoundNode, ValidTable;
    SoundSides(n);
    NaturalKnown(n.keys, l.header, r.header);
    var t := Pairing(n, Some(l), Some(r)).value;
    if n.JoinNode? {
      JoinConsistent(l, r, n.keys);
    } else {
      AntiJoinConsistent(l, r, n.keys);
    }
    forall v: Valuation
      ensures Covers(t, v) <==> Satisfies(n, exts, w, v)
    {
      assert Covers(l, v) <==> Satisfies(n.left, exts, w, v);
      assert Covers(r, v) <==> Satisfies(n.right, exts, w, v);
      if n.JoinNode? {
        JoinCovers(l, r, n.keys, v);
      } else {
        AntiJoinCovers(l, r, n.keys, v);
      }
    }
  }

  lemma {:induction false} FormulasAreBodies(n: Ir)
    requires SoundNode(n) && IsFormula(n)
    ensures IsBodyTree(n)
  {
    match n
    case ScanNode(_, _) =>
    case FilterNode(c, _) => FormulasAreBodies(c);
    case JoinNode(l, _, _) => FormulasAreBodies(l);
    case AntiJoinNode(l, _, _) => FormulasAreBodies(l);
  }

  /** The rows of a body are the valuations that satisfy it. */
  lemma {:induction false} BodyMeans(n: Ir, exts: Extensions, w: World)
    requires SoundNode(n) && IsFormula(n) && ValidDb(w.full) && Present(n, w)
    ensures Denote(n, exts, w).Some? && Denote(n, exts, w).value.header == Collect(n)
    ensures ValidTable(Denote(n, exts, w).value) && Means(n, exts, w, Denote(n, exts, w).value)
    decreases n
  {
    hide Means, ValidTable, ValidDb, FilterTable, Pairing;
    FormulasAreBodies(n);
    TreeFits(n, exts, w);
    match n
    case ScanNode(_, _) =>
      ScanMeans(n, exts, w);
    case FilterNode(c, e) =>
      BodyMeans(c, exts, w);
      FilterMeans(n, Denote(c, exts, w).value, exts, w);
    case JoinNode(l, r, _) =>
      BodyMeans(l, exts, w);
      BodyMeans(r, exts, w);
      PairMeans(n, Denote(l, exts, w).value, Denote(r, exts, w).value, exts, w);
    case AntiJoinNode(l, r, _) =>
      BodyMeans(l, exts, w);
      BodyMeans(r, exts, w);
      PairMeans(n, Denote(l, exts, w).value, Denote(r, exts, w).value, exts, w);
  }

  // ---- the answers of a rule ----------------------------------------------------------------------------------

  /** A rule head: every column an expression over the body's variables. */
  predicate IsHead(p: Projection, h: Layout) {
    && Shaped(p) && p.exprs.Some? && p.count > 0
    && forall i | 0 <= i < p.count :: p.exprs.value[i].Some? && VarsNamed(p.exprs.value[i].value, h)
  }

  function HeadValue(p: Projection, h: Layout, exts: Extensions, m: Machine, v: Valuation, i: nat): Option<int>
    requires IsHead(p, h) && SoundProjection(p) && i < p.count
  {
    Meaning(p.exprs.value[i].value, h, exts, m, ValueEnv(v), false)
  }

  predicate IsAnswer(p: Projection, h: Layout, exts: Extensions, m: Machine, v: Valuation, t: Row)
    requires IsHead(p, h) && SoundProjection(p)
  {
    |t| == p.count && forall i | 0 <= i < p.count :: HeadValue(p, h, exts, m, v, i) == Some(t[i])
  }

  predicate HeadFails(p: Projection, h: Layout, exts: Extensions, m: Machine, v: Valuation)
    requires IsHead(p, h) && SoundProjection(p)
  {
    exists i | 0 <= i < p.count :: HeadValue(p, h, exts, m, v, i).None?
  }

  /** The valuation a consistent row spells out. */
  function RowValuation(h: Layout, row: Row): Valuation
    requires |row| == |h|
  {
    x => match FindColumn(h, x) case Some(c) => row[c] case None => 0
  }

  lemma RowMatches(h: Layout, row: Row)
    requires Consistent(h, row)
    ensures Matches(h, row, RowValuation(h, row))
  {
    forall i | 0 <= i < |h| && h[i].name.Some?
      ensures row[i] == RowValuation(h, row)(h[i].name.value)
    {
      var c := FindColumn(h, h[i].name.value).value;
      assert h[c].name == h[i].name;
    }
  }

  lemma HeadCell(p: Projection, h: Layout, exts: Extensions, m: Machine, row: Row, v: Valuation, i: nat)
    requires IsHead(p, h) && SoundProjection(p) && Matches(h, row, v) && i < p.count
    ensures ProjectedCell(p, h, exts, m, row, i) == HeadValue(p, h, exts, m, v, i)
  {
    hide Meaning, Matches, VarsNamed;
    MatchedMeaning(p.exprs.value[i].value, h, exts, m, row, v);
  }

  lemma HeadRow(p: Projection, h: Layout, exts: Extensions, m: Machine, row: Row, v: Valuation)
    requires IsHead(p, h) && SoundProjection(p) && Matches(h, row, v)
    ensures ProjectsRow(p, h, exts, m, row) <==> !HeadFails(p, h, exts, m, v)
    ensures ProjectsRow(p, h, exts, m, row) ==>
            forall t: Row :: IsAnswer(p, h, exts, m, v, t) <==> t == ProjectedRow(p, h, exts, m, row)
  {
    hide HeadValue, ProjectedCell, Matches, IsHead, SoundProjection;
    forall i | 0 <= i < p.count
      ensures ProjectedCell(p, h, exts, m, row, i) == HeadValue(p, h, exts, m, v, i)
    {
      HeadCell(p, h, exts, m, row, v, i);
    }
    var out := ProjectedRow(p, h, exts, m, row);
    if ProjectsRow(p, h, exts, m, row) {
      forall t: Row
        ensures IsAnswer(p, h, exts, m, v, t) <==> t == out
      {
        assert forall i | 0 <= i < p.count :: HeadValue(p, h, exts, m, v, i) == Some(out[i]);
        if IsAnswer(p, h, exts, m, v, t) {
          assert forall i | 0 <= i < p.count :: t[i] == out[i];
        }
      }
    }
  }

  /** The body has a satisfying valuation with this answer. */
  ghost predicate Derives(body: Ir, p: Projection, exts: Extensions, w: World, t: Row)
    requires SoundNode(body) && IsFormula(body) && SoundProjection(p) && IsHead(p, Collect(body))
  {
    exists v: Valuation :: Satisfies(body, exts, w, v) && IsAnswer(p, Collect(body), exts, w.m, v, t)
  }

  ghost predicate Fails(body: Ir, p: Projection, exts: Extensions, w: World)
    requires SoundNode(body) && IsFormula(body) && SoundProjection(p) && IsHead(p, Collect(body))
  {
    exists v: Valuation :: Satisfies(body, exts, w, v) && HeadFails(p, Collect(body), exts, w.m, v)
  }

  /** Exactly the derived tuples. */
  ghost predicate IsAnswerSet(rows: set<Row>, body: Ir, p: Projection, exts: Extensions, w: World)
    requires SoundNode(body) && IsFormula(body) && SoundProjection(p) && IsHead(p, Collect(body))
  {
    forall t: Row :: t in rows <==> Derives(body, p, exts, w, t)
  }

  lemma TableFails(body: Ir, p: Projection, t: Table, exts: Extensions, w: World)
    requires SoundNode(body) && IsFormula(body) && SoundProjection(p) && IsHead(p, Collect(body))
    requires t.header == Collect(body) && Means(body, exts, w, t)
    ensures ProjectTable(p, t, exts, w.m).None? <==> Fails(body, p, exts, w)
  {
    hide SoundNode, IsFormula, SoundProjection, IsHead, Collect, Satisfies, HeadFails, ProjectsRow, ProjectedRow, Matches, Consistent;
    var h := t.header;
    if ProjectTable(p, t, exts, w.m).None? {
      var row :| row in t.rows && !ProjectsRow(p, h, exts, w.m, row);
      MeantRow(body, t, exts, w, row);
      HeadRow(p, h, exts, w.m, row, RowValuation(h, row));
    }
    if Fails(body, p, exts, w) {
      var v: Valuation :| Satisfies(body, exts, w, v) && HeadFails(p, h, exts, w.m, v);
      var row := CoveringRow(body, t, exts, w, v);
      HeadRow(p, h, exts, w.m, row, v);
    }
  }

  lemma MeantRow(body: Ir, t: Table, exts: Extensions, w: World, row: Row)
    requires SoundNode(body) && IsFormula(body) && Means(body, exts, w, t) && row in t.rows
    ensures |row| == |t.header| && Matches(t.header, row, RowValuation(t.header, row))
    ensures Satisfies(body, exts, w, RowValuation(t.header, row))
  {
    hide SoundNode, IsFormula, Satisfies, Matches;
    assert Consistent(t.header, row);
    RowMatches(t.header, row);
    assert Covers(t, RowValuation(t.header, row));
  }

  lemma CoveringRow(body: Ir, t: Table, exts: Extensions, w: World, v: Valuation) returns (row: Row)
    requires SoundNode(body) && IsFormula(body) && Means(body, exts, w, t) && Satisfies(body, exts, w, v)
    ensures row in t.rows && Matches(t.header, row, v)
  {
    hide SoundNode, IsFormula, Satisfies, Matches;
    assert Covers(t, v);
    row :| row in t.rows && Matches(t.header, row, v);
  }

  lemma TableAnswers(body: Ir, p: Projection, t: Table, exts: Extensions, w: World, out: Row)
    requires SoundNode(body) && IsFormula(body) && SoundProjection(p) && IsHead(p, Collect(body))
    requires t.header == Collect(body) && Means(body, exts, w, t) && ProjectTable(p, t, exts, w.m).Some?
    ensures out in ProjectTable(p, t, exts, w.m).value.rows <==> Derives(body, p, exts, w, out)
  {
    hide SoundNode, IsFormula, SoundProjection, IsHead, Collect, Satisfies, IsAnswer, ProjectsRow, ProjectedRow, Matches, Consistent, HeadFails;
    var h, rows := t.header, ProjectTable(p, t, exts, w.m).value.rows;
    if out in rows {
      var row :| row in t.rows && out == ProjectedRow(p, h, exts, w.m, row);
      assert ProjectsRow(p, h, exts, w.m, row);
      MeantRow(body, t, exts, w, row);
      HeadRow(p, h, exts, w.m, row, RowValuation(h, row));
    }
    if Derives(body, p, exts, w, out) {
      var v: Valuation :| Satisfies(body, exts, w, v) && IsAnswer(p, h, exts, w.m, v, out);
      var row := CoveringRow(body, t, exts, w, v);
      assert ProjectsRow(p, h, exts, w.m, row);
      HeadRow(p, h, exts, w.m, row, v);
    }
  }

  /**
   * A rule, compiled and run, pushes exactly the head tuples of the valuations that
   * satisfy its body, and fails exactly when the head fails on one of them.
   */
  lemma RuleAnswers(body: Ir, p: Projection, exts: Extensions, w: World, stack: seq<Rel>)
    requires Ready(ProjectNode(body, p), exts, w) && SoundNode(body) && SoundProjection(p)
    requires IsFormula(body) && IsHead(p, Collect(body)) && Translated(ProjectNode(body, p), exts).Some?
    ensures var r := RunOps(Translated(ProjectNode(body, p), exts).value, w, stack);
            && (r.None? <==> Fails(body, p, exts, w))
            && (r.Some? ==> exists rows: set<Row> ::
                  r == Some(stack + [Rel(p.count, rows)]) && IsAnswerSet(rows, body, p, exts, w))
  {
    hide Ready, SoundNode, SoundProjection, IsFormula, IsHead, Collect, RunOps, Denote, Translated, Fails, Derives, Means;
    var n := ProjectNode(body, p);
    LoweringCorrect(n, exts, w, stack);
    var t := RuleTable(body, p, exts, w);
    TableFails(body, p, t, exts, w);
    var u := ProjectTable(p, t, exts, w.m);
    if u.Some? {
      var rows := u.value.rows;
      forall out: Row
        ensures out in rows <==> Derives(body, p, exts, w, out)
      {
        TableAnswers(body, p, t, exts, w, out);
      }
      assert AsRel(u.value) == Rel(p.count, rows) && IsAnswerSet(rows, body, p, exts, w);
    }
  }

  lemma RuleTable(body: Ir, p: Projection, exts: Extensions, w: World) returns (t: Table)
    requires Ready(ProjectNode(body, p), exts, w) && SoundNode(body) && SoundProjection(p) && IsFormula(body)
    ensures SoundNode(ProjectNode(body, p)) && SoundExtensions(exts)
    ensures t.header == Collect(body) && Means(body, exts, w, t)
    ensures Denote(ProjectNode(body, p), exts, w) == ProjectTable(p, t, exts, w.m)
  {
    hide Means, IsFormula, IsLowerable, ValidTable;
    BodyMeans(body, exts, w);
    t := Denote(body, exts, w).value;
  }
}
