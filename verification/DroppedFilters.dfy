/**
 * What happens when the filter of a join's right side does not serialize.
 *
 * The plan is not refused: the filter is dropped, and the join reads the right relation
 * unfiltered. A condition that does not serialize has no value on any row, so the tree
 * denotes an empty right side, and the two agree exactly when the relation is empty. Of
 * more than 32 filters the compiler keeps the outermost 32, and the rest is dropped.
 */
module DroppedFilters {
  import opened Bytes
  import opened Expr
  import opened Machine
  import opened Postfix
  import opened Serializer
  import opened Naming
  import opened Plan
  import opened Ir
  import opened Lowering
  import opened RightFilters
  import opened LoweringProof

  /** A condition without bytes has no value. */
  lemma {:induction false} NoBytesNoValue(e: Expr, cols: Layout, m: Machine, env: Env, extArg: bool)
    requires Sound(e) && !HasCall(e) && Serialized(e, cols, None, extArg).None?
    ensures Meaning(e, cols, None, m, env, extArg).None?
    decreases e, 1
  {
    hide Apply, VarTag, MeaningAll, OpTag, EncodeToken;
    if SerializedAll(Args(e), e, cols, None, e.ExtCall?).None? {
      NoBytesNoValues(Args(e), e, cols, m, env, e.ExtCall?);
    }
  }

  lemma {:induction false} NoBytesNoValues(es: seq<Expr>, parent: Expr, cols: Layout, m: Machine, env: Env, extArg: bool)
    requires forall a | a in es :: Sound(a) && a < parent && !HasCall(a)
    requires SerializedAll(es, parent, cols, None, extArg).None?
    ensures MeaningAll(es, parent, cols, None, m, env, extArg).None?
    decreases parent, 0, |es|
  {
    hide Serialized, Meaning, Sound, HasCall;
    var init, last := es[..|es| - 1], es[|es| - 1];
    assert last in es && forall a | a in init :: a in es;
    if SerializedAll(init, parent, cols, None, extArg).None? {
      NoBytesNoValues(init, parent, cols, m, env, extArg);
    } else {
      NoBytesNoValue(last, cols, m, env, extArg);
    }
  }

  lemma {:induction false} Unserializable(conds: seq<Expr>, cols: Layout) returns (e: Expr)
    requires (forall x | x in conds :: Sound(x)) && Combined(conds, cols).None?
    ensures e in conds && Serialized(e, cols, None, false).None?
    decreases |conds|
  {
    hide Serialized, Sound;
    var init, last := conds[..|conds| - 1], conds[|conds| - 1];
    if Serialized(last, cols, None, false).None? {
      e := last;
    } else {
      e := Unserializable(init, cols);
    }
  }

  lemma NeverHolds(n: Ir, exts: Extensions, m: Machine, row: Row)
    requires SoundNode(n) && Base(n).ScanNode? && AllSound(Conditions(n)) && Combined(Conditions(n), Base(n).cols).None?
    ensures !AllConditionsHold(n, Base(n).cols, exts, m, row)
  {
    hide Serialized, Meaning, Sound, Sized, HasCall, Combined, SoundNode;
    var cols := Base(n).cols;
    var e := Unserializable(Conditions(n), cols);
    NoBytesNoValue(e, cols, m, RowEnv(cols, row), false);
    SameHolds(e, cols, exts, m, row);
  }

  lemma RightSideIs(n: Ir)
    requires IsFiltersOverScan(n) && SoundNode(n) && Base(n).ScanNode?
    requires |Conditions(n)| <= MAX_RIGHT_FILTERS && AllSound(Conditions(n))
    ensures RightSide(n).Some? && RightSide(n).value.0 == Base(n).rel
    ensures Combined(Conditions(n), Base(n).cols).None? ==> RightSide(n).value.1 == []
  {
    hide Sound, Sized, HasCall, Serialized;
  }

  /** The emitted right side is the denoted one exactly when its filter serializes or has nothing to do. */
  lemma RightSideExact(n: Ir, exts: Extensions, w: World)
    requires IsFiltersOverScan(n) && SoundNode(n) && Present(n, w) && Base(n).ScanNode? && |Base(n).cols| <= TWO32
    requires |Conditions(n)| <= MAX_RIGHT_FILTERS && AllSound(Conditions(n)) && Foldable(Conditions(n), Base(n).cols, w.m)
    ensures RightSide(n).Some? && RightSide(n).value.0 in w.full && Denote(n, exts, w).Some?
    ensures RightFiltered(RightSide(n).value.1, w.m, w.full[RightSide(n).value.0]) == AsRel(Denote(n, exts, w).value)
            <==> Combined(Conditions(n), Base(n).cols).Some? || w.full[RightSide(n).value.0].rows == {}
  {
    hide Sound, Sized, HasCall, Combined, Foldable, SoundNode, Denote, RightSide, Present;
    RightDenotes(n, exts, w);
    RightSideIs(n);
    if Combined(Conditions(n), Base(n).cols).Some? {
      IsARightSide(n, w.m);
      RightRuns(n, exts, w);
    } else {
      var base := w.full[Base(n).rel];
      forall r | r in base.rows
        ensures !AllConditionsHold(n, Base(n).cols, exts, w.m, r)
      {
        NeverHolds(n, exts, w.m, r);
      }
      hide AllConditionsHold;
      assert Denote(n, exts, w).value.rows == {};
    }
  }

  lemma IsARightSide(n: Ir, m: Machine)
    requires SoundNode(n) && Base(n).ScanNode? && |Conditions(n)| <= MAX_RIGHT_FILTERS && AllSound(Conditions(n))
    requires Combined(Conditions(n), Base(n).cols).Some? && Foldable(Conditions(n), Base(n).cols, m)
    ensures IsRightSide(n, m)
  {
    hide Foldable, Combined, Sound, Sized, HasCall, SoundNode;
  }

  /** Comparing a float column with an integer literal: the filter disappears. */
  lemma MixedComparisonIsDropped(rel: string, x: Text, k: int)
    requires IsInt64(k)
    ensures var n := FilterNode(ScanNode(rel, [Column(Some(x), Float)]), Cmp(Eq, [Var(x), IntLit(k)]));
            |x| < 65536 ==> SoundNode(n) && RightSide(n) == Some((rel, []))
  {
    if |x| < 65536 {
      var cols := [Column(Some(x), Float)];
      var e := Cmp(Eq, [Var(x), IntLit(k)]);
      var n := FilterNode(ScanNode(rel, cols), e);
      assert e.args[0] == Var(x) && e.args[1] == IntLit(k);
      assert FindColumn(cols, x) == Some(0);
      assert ArgType(e.args, 0, cols) == Float && ArgType(e.args, 1, cols) == Scalar;
      assert OpTag(e, cols).None?;
      assert Serialized(e, cols, None, false).None?;
      assert Base(n.child) == n.child && Conditions(n.child) == [];
      assert Conditions(n) == [e] && Base(n) == ScanNode(rel, cols);
      assert !HasCall(e);
      assert Combined([e], cols).None?;
    }
  }

  // ---- more filters than the compiler keeps ---------------------------------------------------------

  lemma CutRightSideIs(n: Ir)
    requires IsFiltersOverScan(n) && SoundNode(n) && Base(n).ScanNode? && AllSound(Conditions(n))
    requires Combined(Kept(Conditions(n)), Base(n).cols).Some?
    ensures RightSide(n) == Some((Base(n).rel, Combined(Kept(Conditions(n)), Base(n).cols).value))
  {
    hide Sound, Sized, HasCall, Serialized;
  }

  lemma HoldsAll(n: Ir, exts: Extensions, m: Machine, row: Row)
    requires SoundNode(n) && Base(n).ScanNode? && AllSound(Conditions(n))
    ensures AllConditionsHold(n, Base(n).cols, exts, m, row) <==> AllHold(Conditions(n), Base(n).cols, m, row)
  {
    hide Sound, Sized, HasCall, ValueOf, Holds, IsTrue, SoundNode;
    forall e | e in Conditions(n)
      ensures IsTrue(ValueOf(e, Base(n).cols, m, row)) <==> Holds(e, Base(n).cols, exts, m, row)
    {
      SameHolds(e, Base(n).cols, exts, m, row);
    }
  }

  /** Of more than 32 filters the first 32 are emitted: right exactly when they imply the others. */
  lemma CutExact(n: Ir, exts: Extensions, w: World)
    requires IsFiltersOverScan(n) && SoundNode(n) && Present(n, w) && Base(n).ScanNode? && |Base(n).cols| <= TWO32
    requires |Conditions(n)| > MAX_RIGHT_FILTERS && AllSound(Conditions(n)) && Foldable(Kept(Conditions(n)), Base(n).cols, w.m)
    requires Combined(Kept(Conditions(n)), Base(n).cols).Some?
    ensures RightSide(n).Some? && RightSide(n).value.0 in w.full && Denote(n, exts, w).Some?
    ensures RightFiltered(RightSide(n).value.1, w.m, w.full[RightSide(n).value.0]) == AsRel(Denote(n, exts, w).value)
            <==> forall row | row in w.full[RightSide(n).value.0].rows ::
                   AllHold(Kept(Conditions(n)), Base(n).cols, w.m, row) ==> AllHold(Conditions(n), Base(n).cols, w.m, row)
  {
    hide Combined, Foldable, SoundNode, Denote, RightSide, Present, Passes, AllHold, AllConditionsHold, Sound, Sized, HasCall;
    RightDenotes(n, exts, w);
    CutRightSideIs(n);
    var all, cols, base := Conditions(n), Base(n).cols, w.full[Base(n).rel];
    var kept := Kept(all);
    var bs := Combined(kept, cols).value;
    CombinedEval(kept, cols, w.m, []);
    forall row | row in base.rows
      ensures Passes(bs, w.m, row) <==> AllHold(kept, cols, w.m, row)
      ensures AllConditionsHold(n, cols, exts, w.m, row) <==> AllHold(all, cols, w.m, row)
      ensures AllHold(all, cols, w.m, row) ==> AllHold(kept, cols, w.m, row)
    {
      FilterIsConjunction(kept, cols, w.m, row);
      HoldsAll(n, exts, w.m, row);
      KeptHold(all, cols, w.m, row);
    }
    var emitted, denoted := RightFiltered(bs, w.m, base), AsRel(Denote(n, exts, w).value);
    var some, every := set row | row in base.rows && AllHold(kept, cols, w.m, row), set row | row in base.rows && AllHold(all, cols, w.m, row);
    assert emitted.rows == some && denoted.rows == every;
    forall row | row in base.rows
      ensures row in some - every <==> AllHold(kept, cols, w.m, row) && !AllHold(all, cols, w.m, row)
    {}
    assert every <= some;
    assert some == every <==> some - every == {};
  }

  lemma KeptHold(conds: seq<Expr>, cols: Layout, m: Machine, row: Row)
    requires AllSound(conds) && AllSound(Kept(conds))
    ensures AllHold(conds, cols, m, row) ==> AllHold(Kept(conds), cols, m, row)
  {}

  /** A filter that never holds under k filters that always do. */
  function Buried(scan: Ir, k: nat): Ir {
    if k == 0 then FilterNode(scan, BoolLit(false)) else FilterNode(Buried(scan, k - 1), BoolLit(true))
  }

  lemma {:induction false} BuriedIs(rel: string, cols: Layout, k: nat)
    ensures var n := Buried(ScanNode(rel, cols), k);
            && SoundNode(n) && IsFiltersOverScan(n) && Base(n) == ScanNode(rel, cols) && |Conditions(n)| == k + 1
            && Conditions(n)[k] == BoolLit(false) && forall i | 0 <= i < k :: Conditions(n)[i] == BoolLit(true)
    decreases k
  {
    if k > 0 {
      BuriedIs(rel, cols, k - 1);
    }
  }

  lemma {:induction false} TruesCombine(conds: seq<Expr>, cols: Layout, m: Machine)
    requires forall e | e in conds :: e == BoolLit(true)
    ensures AllSound(conds) && Combined(conds, cols).Some? && Foldable(conds, cols, m)
    ensures forall row: Row :: AllHold(conds, cols, m, row)
    decreases |conds|
  {
    if conds != [] {
      var init := conds[..|conds| - 1];
      assert conds[|conds| - 1] in conds && forall e | e in init :: e in conds;
      TruesCombine(init, cols, m);
    }
  }

  /** What is kept always holds, the whole never does. */
  lemma BuriedHolds(conds: seq<Expr>, cols: Layout, m: Machine)
    requires |conds| > MAX_RIGHT_FILTERS && conds[|conds| - 1] == BoolLit(false)
    requires forall i | 0 <= i < |conds| - 1 :: conds[i] == BoolLit(true)
    ensures AllSound(conds) && AllSound(Kept(conds)) && Combined(Kept(conds), cols).Some? && Foldable(Kept(conds), cols, m)
    ensures forall row: Row :: AllHold(Kept(conds), cols, m, row) && !AllHold(conds, cols, m, row)
  {
    assert forall i | 0 <= i < |conds| :: conds[i].BoolLit?;
    TruesCombine(Kept(conds), cols, m);
    hide Combined, Foldable;
    forall row: Row
      ensures !AllHold(conds, cols, m, row)
    {
      assert conds[|conds| - 1] in conds && !IsTrue(ValueOf(conds[|conds| - 1], cols, m, row));
    }
  }

  /** With 32 or more filters over it, a filter is not emitted: its rows come back. */
  lemma BuriedFilterIsIgnored(rel: string, cols: Layout, k: nat, exts: Extensions, w: World)
    requires k >= MAX_RIGHT_FILTERS && |cols| <= TWO32 && Present(Buried(ScanNode(rel, cols), k), w)
    ensures var n := Buried(ScanNode(rel, cols), k);
            && SoundNode(n) && RightSide(n).Some? && RightSide(n).value.0 == rel && rel in w.full && Denote(n, exts, w).Some?
            && (RightFiltered(RightSide(n).value.1, w.m, w.full[rel]) == AsRel(Denote(n, exts, w).value) <==> w.full[rel].rows == {})
  {
    var n := Buried(ScanNode(rel, cols), k);
    BuriedIs(rel, cols, k);
    BuriedHolds(Conditions(n), cols, w.m);
    hide Combined, Foldable, SoundNode, Denote, RightSide, Present, Buried, AllHold, AllSound, Kept, Conditions, Base, IsFiltersOverScan;
    CutRightSideIs(n);
    CutExact(n, exts, w);
  }
}
