/**
 * The filter of a join's right side: several conditions folded into one byte string with
 * bitwise AND, and when that means their conjunction.
 */
module RightFilters {
  import opened Bytes
  import opened Expr
  import opened Machine
  import opened Postfix
  import opened Serializer
  import opened Naming
  import opened Plan
  import opened Ir
  import opened Lowering

  // ---- conditions without extension calls do not depend on the extensions -----------------

  lemma {:induction false} NoCallMeaning(e: Expr, cols: Layout, exts: Extensions, m: Machine, env: Env, extArg: bool)
    requires Sound(e) && !HasCall(e)
    ensures Meaning(e, cols, exts, m, env, extArg) == Meaning(e, cols, None, m, env, extArg)
    decreases e, 1
  {
    hide MeaningAll, Apply, VarTag, TokenOfTag;
    NoCallMeanings(Args(e), e, cols, exts, m, env, e.ExtCall?);
  }

  lemma {:induction false} NoCallMeanings(es: seq<Expr>, parent: Expr, cols: Layout, exts: Extensions, m: Machine, env: Env, extArg: bool)
    requires forall a | a in es :: Sound(a) && a < parent && !HasCall(a)
    ensures MeaningAll(es, parent, cols, exts, m, env, extArg) == MeaningAll(es, parent, cols, None, m, env, extArg)
    decreases parent, 0, |es|
  {
    hide Meaning, Sound, HasCall;
    if es != [] {
      var init, last := es[..|es| - 1], es[|es| - 1];
      assert last in es && forall a | a in init :: a in es;
      NoCallMeanings(init, parent, cols, exts, m, env, extArg);
      NoCallMeaning(last, cols, exts, m, env, extArg);
    }
  }

  // ---- folding ------------------------------------------------------------------------------

  predicate AllSound(conds: seq<Expr>) { forall e | e in conds :: Sound(e) && Sized(e) && !HasCall(e) }

  function ValueOf(e: Expr, cols: Layout, m: Machine, row: Row): Option<int>
    requires Sound(e)
  {
    Meaning(e, cols, None, m, RowEnv(cols, row), false)
  }

  function Both(a: Option<int>, b: Option<int>, m: Machine): Option<int> {
    if a.Some? && b.Some? then Apply(BAND, [a.value, b.value], m) else None
  }

  /** The conditions' values, folded with bitwise AND. */
  function Folded(conds: seq<Expr>, cols: Layout, m: Machine, row: Row): Option<int>
    requires conds != [] && AllSound(conds)
    decreases |conds|
  {
    var last := ValueOf(conds[|conds| - 1], cols, m, row);
    if |conds| == 1 then last else Both(Folded(conds[..|conds| - 1], cols, m, row), last, m)
  }

  lemma BandTree(a: Tree, b: Tree, m: Machine, row: Row)
    requires WellFormed(a) && WellFormed(b)
    ensures WellFormed(Node(BAND, [a, b]))
    ensures Encode(Node(BAND, [a, b])) == Encode(a) + Encode(b) + [BAND]
    ensures Value(Node(BAND, [a, b]), m, row) == Both(Value(a, m, row), Value(b, m, row), m)
  {
    hide Apply;
    var t := Node(BAND, [a, b]);
    assert [a, b][..1] == [a] && [a][..0] == [];
    assert EncodeAll([a], t) == Encode(a);
    assert EncodeAll([a, b], t) == Encode(a) + Encode(b);
    assert EncodeToken(OpTok(BAND)) == [BAND];
    BandValue(a, b, m, row);
  }

  lemma BandValue(a: Tree, b: Tree, m: Machine, row: Row)
    requires WellFormed(a) && WellFormed(b)
    ensures Value(Node(BAND, [a, b]), m, row) == Both(Value(a, m, row), Value(b, m, row), m)
  {
    hide Apply;
    var t := Node(BAND, [a, b]);
    assert [a, b][..1] == [a] && [a][..0] == [];
    var va, vb := Value(a, m, row), Value(b, m, row);
    assert ValueAll([], t, m, row) == Some([]);
    assert va.Some? ==> [] + [va.value] == [va.value];
    assert ValueAll([a], t, m, row) == if va.Some? then Some([va.value]) else None;
    assert va.Some? && vb.Some? ==> [va.value] + [vb.value] == [va.value, vb.value];
  }

  /** The tree whose postfix form the folding writes. */
  lemma {:induction false} FoldedTree(conds: seq<Expr>, cols: Layout, m: Machine, row: Row) returns (t: Tree)
    requires conds != [] && AllSound(conds) && |cols| <= TWO32 && Combined(conds, cols).Some?
    ensures WellFormed(t) && Combined(conds, cols).value == Encode(t)
    ensures Value(t, m, row) == Folded(conds, cols, m, row)
    decreases |conds|
  {
    hide Encode, Value, Serialized, Meaning, Resolve, Sound, Sized, HasCall;
    var init, last := conds[..|conds| - 1], conds[|conds| - 1];
    assert last in conds && forall e | e in init :: e in conds;
    SerializedIsEncoded(last, cols, None, false);
    var u := Resolve(last, cols, None, false).value;
    assert Reads(cols, row, RowEnv(cols, row));
    ResolvedMeaning(last, cols, None, m, row, RowEnv(cols, row), false);
    if |conds| == 1 {
      t := u;
    } else {
      var v := FoldedTree(init, cols, m, row);
      BandTree(v, u, m, row);
      t := Node(BAND, [v, u]);
    }
  }

  lemma CombinedEval(conds: seq<Expr>, cols: Layout, m: Machine, row: Row)
    requires conds != [] && AllSound(conds) && |cols| <= TWO32 && Combined(conds, cols).Some?
    ensures Eval(Combined(conds, cols).value, m, row) == Folded(conds, cols, m, row)
    ensures Combined(conds, cols).value != []
  {
    hide Encode, Value, Combined, Folded, Eval;
    var t := FoldedTree(conds, cols, m, row);
    EvalTree(t, m, row);
    assert Encode(t) != [] by { EncodeNonempty(t); }
  }

  lemma EncodeNonempty(t: Tree)
    requires WellFormed(t)
    ensures Encode(t) != []
  {}

  // ---- when the fold is the conjunction --------------------------------------------------------

  predicate IsBit(v: Option<int>) { v.Some? ==> v.value == 0 || v.value == 1 }

  /** On every row the condition is 0, 1 or an error. */
  ghost predicate IsPredicate(e: Expr, cols: Layout, m: Machine)
    requires Sound(e)
  {
    forall row: Row :: IsBit(ValueOf(e, cols, m, row))
  }

  /** A single condition, or several that are all predicates. */
  ghost predicate Foldable(conds: seq<Expr>, cols: Layout, m: Machine)
    requires AllSound(conds)
  {
    |conds| >= 2 ==> forall e | e in conds :: IsPredicate(e, cols, m)
  }

  predicate AllHold(conds: seq<Expr>, cols: Layout, m: Machine, row: Row)
    requires AllSound(conds)
  {
    forall e | e in conds :: IsTrue(ValueOf(e, cols, m, row))
  }

  lemma BothBits(a: Option<int>, b: Option<int>, m: Machine)
    requires IsBit(a) && IsBit(b)
    ensures IsBit(Both(a, b, m)) && (IsTrue(Both(a, b, m)) <==> IsTrue(a) && IsTrue(b))
  {
    hide Apply;
    if a.Some? && b.Some? {
      BandOfPredicates(a.value == 1, b.value == 1, m);
    }
  }

  lemma {:induction false} FoldedBits(conds: seq<Expr>, cols: Layout, m: Machine, row: Row)
    requires conds != [] && AllSound(conds) && forall e | e in conds :: IsPredicate(e, cols, m)
    ensures IsBit(Folded(conds, cols, m, row))
    ensures IsTrue(Folded(conds, cols, m, row)) <==> AllHold(conds, cols, m, row)
    decreases |conds|
  {
    hide ValueOf, Sound, Sized, HasCall, Both, IsBit, IsTrue;
    var init, last := conds[..|conds| - 1], conds[|conds| - 1];
    assert conds == init + [last];
    assert IsPredicate(last, cols, m) && IsBit(ValueOf(last, cols, m, row));
    if |conds| > 1 {
      assert AllSound(init) && forall e | e in init :: IsPredicate(e, cols, m);
      FoldedBits(init, cols, m, row);
      BothBits(Folded(init, cols, m, row), ValueOf(last, cols, m, row), m);
    }
  }

  /** The folded bytes pass exactly the rows on which every condition holds. */
  lemma FilterIsConjunction(conds: seq<Expr>, cols: Layout, m: Machine, row: Row)
    requires conds != [] && AllSound(conds) && |cols| <= TWO32 && Combined(conds, cols).Some? && Foldable(conds, cols, m)
    ensures Passes(Combined(conds, cols).value, m, row) <==> AllHold(conds, cols, m, row)
  {
    hide Combined, Eval, ValueOf, Sound, Sized, HasCall, IsPredicate;
    CombinedEval(conds, cols, m, row);
    if |conds| == 1 {
      assert conds == [conds[0]];
    } else {
      FoldedBits(conds, cols, m, row);
    }
  }

  /** Floating-point comparisons answer 0 or 1. */
  ghost predicate FloatBits(m: Machine) {
    forall tag: Byte, a: int, b: int :: 0x74 <= tag <= 0x79 ==> IsBit(m.float(tag, a, b))
  }

  /** Comparisons and boolean literals are predicates. */
  lemma ComparisonsArePredicates(e: Expr, cols: Layout, m: Machine)
    requires Sound(e) && (e.Cmp? || e.BoolLit?) && FloatBits(m)
    ensures IsPredicate(e, cols, m)
  {
    hide FloatBits, ValueOf;
    forall row: Row
      ensures IsBit(ValueOf(e, cols, m, row))
    {
      ComparisonBit(e, cols, m, row);
    }
  }

  lemma ComparisonBit(e: Expr, cols: Layout, m: Machine, row: Row)
    requires Sound(e) && (e.Cmp? || e.BoolLit?) && FloatBits(m)
    ensures IsBit(ValueOf(e, cols, m, row))
  {
    hide MeaningAll, Apply, CmpTag, FloatBits, ArgType;
    if e.Cmp? {
      var vs := MeaningAll(Args(e), e, cols, None, m, RowEnv(cols, row), false);
      if vs.Some? && OpTag(e, cols).Some? {
        TagArity(e, cols);
        CompareBit(e.cmp, ArgType(e.args, 0, cols), ArgType(e.args, 1, cols), vs.value, m);
      }
    }
  }

  lemma FloatBit(m: Machine, tag: Byte, a: int, b: int)
    requires FloatBits(m) && 0x74 <= tag <= 0x79
    ensures IsBit(m.float(tag, a, b))
  {}

  lemma CompareBit(op: CmpOp, a: ColType, b: ColType, vs: seq<int>, m: Machine)
    requires |vs| == 2 && FloatBits(m)
    ensures IsOpTag(CmpTag(op, a, b)) && Arity(CmpTag(op, a, b)) == 2 && IsBit(Apply(CmpTag(op, a, b), vs, m))
  {
    hide Comparison, TextComparison;
    var tag := CmpTag(op, a, b);
    if 0x74 <= tag <= 0x79 {
      FloatBit(m, tag, vs[0], vs[1]);
    }
  }
}
