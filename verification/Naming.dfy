/**
 * Expressions by name: what an expression means when its variables have values, and
 * the proof that the emitted bytes, which only know columns, compute the same thing.
 */
module Naming {
  import opened Bytes
  import opened Expr
  import opened Machine
  import opened Postfix
  import opened Serializer
  import Seqs

  /** The value of each variable; None for a name that is not bound. */
  type Env = Text -> Option<int>

  /** The meaning of an expression over named variables. None is an evaluation failure. */
  function Meaning(e: Expr, cols: Layout, exts: Extensions, m: Machine, env: Env, extArg: bool): Option<int>
    requires Sound(e)
    decreases e, 1
  {
    var vs := MeaningAll(Args(e), e, cols, exts, m, env, e.ExtCall?);
    match e
    case Var(x) => VarValue(VarTag(cols, x, extArg), env(x), m)
    case IntLit(v) => Some(v)
    case FloatLit(bits) => if m.finite(FromLane(bits)) then Some(FromLane(bits)) else None
    case StrLit(s) => Some(m.put(s))
    case BoolLit(b) => Some(Truth(b))
    case ExtCall(name, _) => CallMeaning(name, CallAbi(exts, name), vs, m)
    case Arith(_, _) => OpMeaning(TokenOfTag(e, cols), vs, m)
    case Cmp(_, _) => OpMeaning(TokenOfTag(e, cols), vs, m)
    case Agg(_, _) => OpMeaning(TokenOfTag(e, cols), vs, m)
    case StrCall(_, _) => OpMeaning(TokenOfTag(e, cols), vs, m)
  }

  function OpMeaning(tok: Option<Token>, vs: Option<seq<int>>, m: Machine): Option<int>
    requires tok.Some? ==> tok.value.OpTok? && IsOpTag(tok.value.op)
    requires tok.Some? && vs.Some? ==> |vs.value| == Arity(tok.value.op)
  {
    if tok.Some? && vs.Some? then Apply(tok.value.op, vs.value, m) else None
  }

  function CallMeaning(name: Text, abi: Option<Option<(nat, nat)>>, vs: Option<seq<int>>, m: Machine): Option<int> {
    if abi.Some? && vs.Some? then m.call(name, abi.value, vs.value) else None
  }

  function MeaningAll(es: seq<Expr>, ghost parent: Expr, cols: Layout, exts: Extensions, m: Machine, env: Env, extArg: bool): (r: Option<seq<int>>)
    requires forall a | a in es :: Sound(a) && a < parent
    ensures r.Some? ==> |r.value| == |es|
    decreases parent, 0, |es|
  {
    if es == [] then Some([])
    else
      match (MeaningAll(es[..|es| - 1], parent, cols, exts, m, env, extArg),
             Meaning(es[|es| - 1], cols, exts, m, env, extArg))
      case (Some(vs), Some(v)) => Some(vs + [v])
      case _ => None
  }

  /** Names and literals whose lengths survive their 16-bit length fields. */
  predicate Sized(e: Expr) {
    match e
    case Var(x) => |x| < 65536
    case StrLit(s) => |s| < 65536
    case IntLit(_) => true
    case FloatLit(_) => true
    case BoolLit(_) => true
    case Arith(_, args) => forall a | a in args :: Sized(a)
    case Cmp(_, args) => forall a | a in args :: Sized(a)
    case Agg(_, args) => forall a | a in args :: Sized(a)
    case StrCall(_, args) => forall a | a in args :: Sized(a)
    case ExtCall(_, args) => forall a | a in args :: Sized(a)
  }

  /** The column a name stands for: the first that carries it; else its own position, if "colN". */
  function ColumnOf(cols: Layout, x: Text): nat {
    match FindColumn(cols, x)
    case Some(c) => c
    case None => VarColumn(x)
  }

  /** Every name has the value of its column. */
  ghost predicate Reads(cols: Layout, row: Row, env: Env) {
    forall x: Text :: env(x) == CellAt(row, ColumnOf(cols, x))
  }

  // ---- "colN" names column N ---------------------------------------------------

  lemma {:induction false} LeadingDigitsSnoc(d: Text, x: Byte, acc: nat)
    requires AllDigits(d) && IsDigit(x)
    ensures LeadingDigits(d + [x], acc) == 10 * LeadingDigits(d, acc) + x - 48
    decreases |d|
  {
    if d == [] {
      assert (d + [x])[1..] == [];
    } else {
      assert (d + [x])[1..] == d[1..] + [x];
      LeadingDigitsSnoc(d[1..], x, 10 * acc + d[0] - 48);
    }
  }

  lemma {:induction false} LeadingNumberOfDigits(d: Text)
    requires AllDigits(d)
    ensures LeadingNumber(d) == DigitsValue(d)
    decreases |d|
  {
    if d != [] {
      var init, x := d[..|d| - 1], d[|d| - 1];
      assert d == init + [x];
      LeadingNumberOfDigits(init);
      LeadingDigitsSnoc(init, x, 0);
    }
  }

  /** The emitted name of column c is short and reads column c. */
  lemma ColNameReadsColumn(c: nat)
    requires c < TWO32
    ensures |ColName(c)| <= 13 && VarColumn(ColName(c)) == c
  {
    ColumnDigits(c);
    DecimalRoundTrip(c);
    LeadingNumberOfDigits(Decimal(c));
    hide Decimal, DigitsValue, LeadingNumber;
    var name := ColName(c);
    assert name[..3] == COL && name[3..] == Decimal(c);
    assert name[3..|name|] == name[3..];
  }

  // ---- the bytes compute the meaning ---------------------------------------------

  lemma VarMeaning(x: Text, cols: Layout, exts: Extensions, m: Machine, row: Row, env: Env, extArg: bool)
    requires |cols| <= TWO32 && |x| < 65536 && Reads(cols, row, env)
    ensures LeafValue(LeafToken(Var(x), cols, extArg), m, row) == VarValue(VarTag(cols, x, extArg), env(x), m)
  {
    var c := FindColumn(cols, x);
    if c.Some? {
      ColNameReadsColumn(c.value);
    }
    hide ColName, VarColumn;
    assert env(x) == CellAt(row, ColumnOf(cols, x));
  }

  /** Value of the resolved tree over a row = meaning of the expression over the names. */
  lemma {:induction false} ResolvedMeaning(e: Expr, cols: Layout, exts: Extensions, m: Machine, row: Row, env: Env, extArg: bool)
    requires Sound(e) && SoundExtensions(exts) && |cols| <= TWO32 && Sized(e) && Reads(cols, row, env)
    requires Resolve(e, cols, exts, extArg).Some?
    ensures Value(Resolve(e, cols, exts, extArg).value, m, row) == Meaning(e, cols, exts, m, env, extArg)
    decreases e, 1
  {
    hide Apply, VarTag, EmittedName, ResolveAll, ValueAll, MeaningAll, OpTag;
    OwnTokenIsLast(e, cols, exts, extArg);
    var t := Resolve(e, cols, exts, extArg).value;
    match e
    case Var(x) =>
      VarMeaning(x, cols, exts, m, row, env, extArg);
    case StrLit(_) =>
    case IntLit(_) =>
    case FloatLit(_) =>
    case BoolLit(_) =>
    case _ =>
      ResolvedMeanings(Args(e), e, t, cols, exts, m, row, env, e.ExtCall?);
  }

  lemma {:induction false} ResolvedMeanings(es: seq<Expr>, parent: Expr, tree: Tree, cols: Layout, exts: Extensions, m: Machine, row: Row, env: Env, extArg: bool)
    requires forall a | a in es :: Sound(a) && a < parent && Sized(a)
    requires SoundExtensions(exts) && |cols| <= TWO32 && Reads(cols, row, env)
    requires ResolveAll(es, parent, cols, exts, extArg).Some?
    requires forall u | u in ResolveAll(es, parent, cols, exts, extArg).value :: u < tree
    ensures ValueAll(ResolveAll(es, parent, cols, exts, extArg).value, tree, m, row)
         == MeaningAll(es, parent, cols, exts, m, env, extArg)
    decreases parent, 0, |es|
  {
    hide Resolve, Value, Meaning, Sound, Sized, Reads;
    if es != [] {
      var init, last := es[..|es| - 1], es[|es| - 1];
      var ts, t := ResolveAll(init, parent, cols, exts, extArg).value, Resolve(last, cols, exts, extArg).value;
      assert ResolveAll(es, parent, cols, exts, extArg).value == ts + [t];
      assert last in es;
      Seqs.TakeConcat(ts, [t]);
      forall u | u in ts
        ensures u < tree
      {
        assert u in ts + [t];
      }
      ResolvedMeanings(init, parent, tree, cols, exts, m, row, env, extArg);
      ResolvedMeaning(last, cols, exts, m, row, env, extArg);
    }
  }

  /**
   * The whole path: whatever serialize_expr appended for e, evaluated on a row whose
   * columns hold the variables' values, is the meaning of e over those values.
   */
  lemma BytesMean(e: Expr, cols: Layout, exts: Extensions, m: Machine, row: Row, env: Env)
    requires Sound(e) && SoundExtensions(exts) && |cols| <= TWO32 && Sized(e) && Reads(cols, row, env)
    requires Serialized(e, cols, exts, false).Some?
    ensures Eval(Serialized(e, cols, exts, false).value, m, row) == Meaning(e, cols, exts, m, env, false)
  {
    hide Encode, Value, Meaning, Resolve, Serialized, Eval, Sized, Sound, Reads;
    SerializedIsEncoded(e, cols, exts, false);
    var t := Resolve(e, cols, exts, false).value;
    EvalTree(t, m, row);
    ResolvedMeaning(e, cols, exts, m, row, env, false);
  }
}
