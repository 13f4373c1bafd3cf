/**
 * Results do not depend on the order in which strings were interned.
 *
 * Two machines share everything but the ids they give to strings. Rows that hold the same
 * strings and numbers then give the same results up to renaming, because ordering looks at
 * strings when both sides are strings, equality of ids is equality of strings, and digests
 * read bytes. Comparing a string with a number is where this ends.
 */
module InternOrder {
  import opened Bytes
  import opened Expr
  import opened Machine
  import opened Postfix
  import opened Serializer
  import opened Naming
  import StringOps

  /** put and rev are inverse, and -1 names no string. */
  ghost predicate Interns(m: Machine) {
    && m.rev(-1) == None
    && (forall s: Text :: m.rev(m.put(s)) == Some(s))
    && (forall v: int :: m.rev(v).Some? ==> v == m.put(m.rev(v).value))
  }

  /** Two id assignments over the same foreign code. */
  ghost predicate Peers(m: Machine, n: Machine) {
    && Interns(m) && Interns(n)
    && m.finite == n.finite && m.float == n.float && m.digest == n.digest && m.uuid5Text == n.uuid5Text
    && m.format == n.format && m.parse == n.parse
  }

  /** Values that stand for the same thing: equal numbers, or ids of one string. */
  predicate Same(t: ColType, m: Machine, a: int, n: Machine, b: int) {
    if t.Str? then m.rev(a) == n.rev(b) && (m.rev(a).None? ==> a == b == -1) else a == b
  }

  predicate SameOpt(t: ColType, m: Machine, a: Option<int>, n: Machine, b: Option<int>) {
    (a.Some? <==> b.Some?) && (a.Some? ==> Same(t, m, a.value, n, b.value))
  }

  predicate SameAll(ts: seq<ColType>, m: Machine, a: seq<int>, n: Machine, b: seq<int>) {
    |ts| == |a| == |b| && forall i | 0 <= i < |ts| :: Same(ts[i], m, a[i], n, b[i])
  }

  // ---- typing ---------------------------------------------------------------------------

  function ArgTypes(args: seq<Expr>, cols: Layout): (ts: seq<ColType>)
    ensures |ts| == |args|
  {
    seq(|args|, i requires 0 <= i < |args| => TypeOf(args[i], cols))
  }

  /** The operand types a string function is declared with. */
  function StrOperands(f: StrFn): seq<ColType> {
    match f
    case Substr => [Str, Scalar, Scalar]
    case Replace => [Str, Str, Str]
    case ToString => [Scalar]
    case Cat => [Str, Str]
    case Contains => [Str, Str]
    case Prefix => [Str, Str]
    case Suffix => [Str, Str]
    case Uuid5Rfc => [Str, Str]
    case _ => [Str]
  }

  predicate SameKind(a: ColType, b: ColType) { a.Str? <==> b.Str? }

  /** Operand types under which the operator means the same for every id assignment. */
  predicate OperandsFit(e: Expr, cols: Layout) {
    match e
    case Arith(op, args) => IsDigest(op) || (!op.Uuid4? && forall t | t in ArgTypes(args, cols) :: !t.Str?)
    case Cmp(_, args) => |args| == 2 && SameKind(TypeOf(args[0], cols), TypeOf(args[1], cols))
    case Agg(_, args) => forall t | t in ArgTypes(args, cols) :: !t.Str?
    case StrCall(f, args) =>
      |args| == |StrOperands(f)| && forall i | 0 <= i < |args| :: SameKind(TypeOf(args[i], cols), StrOperands(f)[i])
    case ExtCall(_, _) => false
    case _ => true
  }

  /** A name with a known type; positional names have at most fifteen digits. */
  predicate IsTyped(cols: Layout, x: Text) {
    LookupType(cols, x) != Unknown && (FindColumn(cols, x).Some? || |x| <= 18)
  }

  /** Typed variables, fitting operands, no fresh randomness and no addon calls. */
  predicate WellTyped(e: Expr, cols: Layout) {
    OperandsFit(e, cols) &&
    match e
    case Var(x) => IsTyped(cols, x)
    case Arith(_, args) => forall a | a in args :: WellTyped(a, cols)
    case Cmp(_, args) => forall a | a in args :: WellTyped(a, cols)
    case Agg(_, args) => forall a | a in args :: WellTyped(a, cols)
    case StrCall(_, args) => forall a | a in args :: WellTyped(a, cols)
    case _ => true
  }

  // ---- operators ------------------------------------------------------------------------------

  lemma SamePut(m: Machine, n: Machine, s: Text)
    requires Peers(m, n)
    ensures Same(Str, m, m.put(s), n, n.put(s))
  {
    assert m.rev(m.put(s)) == Some(s) && n.rev(n.put(s)) == Some(s);
  }

  /** Equality of ids is equality of strings. */
  lemma SameIds(m: Machine, n: Machine, a: int, b: int, c: int, d: int)
    requires Peers(m, n) && Same(Str, m, a, n, b) && Same(Str, m, c, n, d)
    ensures a == c <==> b == d
  {
    if m.rev(a).Some? {
      assert a == m.put(m.rev(a).value) && b == n.put(n.rev(b).value);
    }
    if m.rev(c).Some? {
      assert c == m.put(m.rev(c).value) && d == n.put(n.rev(d).value);
    }
  }

  lemma SameDigestOperand(m: Machine, n: Machine, t: ColType, a: int, b: int)
    requires Same(t, m, a, n, b)
    ensures DigestOperand(a, t.Str?, m) == DigestOperand(b, t.Str?, n)
  {}

  /** A digest reads each operand as its kind says. */
  lemma UnaryDigestReads(op: ArithOp, t: ColType, u: ColType, m: Machine, a: seq<int>) returns (code: Byte)
    requires IsDigest(op) && ArithArity(op) == 1 && |a| == 1
    ensures code == DigestTag(op, Scalar, Scalar)
    ensures var tag := DigestTag(op, t, u);
            IsOpTag(tag) && Arity(tag) == 1 && Apply(tag, a, m) == m.digest(code, [DigestOperand(a[0], t.Str?, m)])
  {
    hide DigestOperand;
    code := DigestTag(op, Scalar, Scalar);
  }

  lemma BinaryDigestReads(op: ArithOp, t: ColType, u: ColType, m: Machine, a: seq<int>) returns (code: Byte)
    requires IsDigest(op) && ArithArity(op) == 2 && |a| == 2
    ensures code == if op.HmacSha256? then 0x28 else if t.Str? || u.Str? then 0x6A else 0x2A
    ensures var tag := DigestTag(op, t, u);
            IsOpTag(tag) && Arity(tag) == 2
            && Apply(tag, a, m) == m.digest(code, [DigestOperand(a[0], t.Str?, m), DigestOperand(a[1], u.Str?, m)])
  {
    hide DigestOperand;
    code := if op.HmacSha256? then 0x28 else if t.Str? || u.Str? then 0x6A else 0x2A;
  }

  lemma DigestSame(op: ArithOp, t: ColType, u: ColType, m: Machine, n: Machine, a: seq<int>, b: seq<int>)
    requires IsDigest(op) && Peers(m, n) && |a| == |b| == ArithArity(op)
    requires Same(t, m, a[0], n, b[0]) && (|a| == 2 ==> Same(u, m, a[1], n, b[1]))
    ensures var tag := ArithTag(op, t, u);
            IsOpTag(tag) && Arity(tag) == |a| && Apply(tag, a, m) == Apply(tag, b, n)
  {
    hide DigestOperand, Apply, DigestTag, Interns;
    SameDigestOperand(m, n, t, a[0], b[0]);
    if |a| == 1 {
      var c := UnaryDigestReads(op, t, u, m, a);
      var d := UnaryDigestReads(op, t, u, n, b);
    } else {
      SameDigestOperand(m, n, u, a[1], b[1]);
      var c := BinaryDigestReads(op, t, u, m, a);
      var d := BinaryDigestReads(op, t, u, n, b);
    }
  }

  lemma ArithSame(op: ArithOp, t: ColType, u: ColType, m: Machine, n: Machine, a: seq<int>)
    requires Peers(m, n) && !IsDigest(op) && !op.Uuid4? && |a| == ArithArity(op) && ArithTag(op, t, u) != 0
    requires t.Float? == u.Float? || |a| == 1
    ensures var tag := ArithTag(op, t, u);
            IsOpTag(tag) && Arity(tag) == |a| && Apply(tag, a, m) == Apply(tag, a, n)
  {
    hide Arithmetic;
  }

  lemma CompareSame(op: CmpOp, t: ColType, u: ColType, m: Machine, n: Machine, a: seq<int>, b: seq<int>)
    requires Peers(m, n) && |a| == |b| == 2 && SameKind(t, u)
    requires Same(t, m, a[0], n, b[0]) && Same(u, m, a[1], n, b[1])
    ensures var tag := CmpTag(op, t, u);
            IsOpTag(tag) && Arity(tag) == 2 && Apply(tag, a, m) == Apply(tag, b, n)
  {
    if t.Str? {
      SameIds(m, n, a[0], b[0], a[1], b[1]);
    }
    hide TextLess;
  }

  lemma UnaryTextSame(f: StrFn, m: Machine, n: Machine, a: int, b: int)
    requires Peers(m, n) && StrArity(f) == 1 && Same(StrOperands(f)[0], m, a, n, b)
    ensures SameOpt(if MakesString(f) then Str else Scalar, m, StrUnary(StrTag(f), a, m), n, StrUnary(StrTag(f), b, n))
  {
    if f.ToString? {
      SamePut(m, n, m.format(a));
    } else if m.rev(a).Some? {
      var s := m.rev(a).value;
      SamePut(m, n, StringOps.Upper(s));
      SamePut(m, n, StringOps.Lower(s));
      SamePut(m, n, StringOps.Trim(s));
    }
    hide StringOps.Upper, StringOps.Lower, StringOps.Trim, StringOps.Ord, StringOps.Utf8Length;
  }

  lemma BinaryTextSame(f: StrFn, m: Machine, n: Machine, a: seq<int>, b: seq<int>)
    requires Peers(m, n) && StrArity(f) == 2 && |a| == |b| == 2
    requires Same(Str, m, a[0], n, b[0]) && Same(Str, m, a[1], n, b[1])
    ensures SameOpt(if MakesString(f) then Str else Scalar, m, StrBinary(StrTag(f), a[0], a[1], m), n, StrBinary(StrTag(f), b[0], b[1], n))
  {
    hide StringOps.Contains, StringOps.HasPrefix, StringOps.HasSuffix;
    match (m.rev(a[0]), m.rev(a[1]))
    case (Some(s), Some(t)) =>
      SamePut(m, n, s + t);
      var u := m.uuid5Text(s, t);
      if u.Some? {
        SamePut(m, n, u.value);
      }
    case _ =>
  }

  lemma TernaryTextSame(f: StrFn, m: Machine, n: Machine, a: seq<int>, b: seq<int>)
    requires Peers(m, n) && StrArity(f) == 3 && |a| == |b| == 3 && SameAll(StrOperands(f), m, a, n, b)
    ensures SameOpt(Str, m, StrTernary(StrTag(f), a[0], a[1], a[2], m), n, StrTernary(StrTag(f), b[0], b[1], b[2], n))
  {
    hide StringOps.Contains, StringOps.Substr, StringOps.Replaced;
    var ts := StrOperands(f);
    assert Same(ts[0], m, a[0], n, b[0]) && Same(ts[1], m, a[1], n, b[1]) && Same(ts[2], m, a[2], n, b[2]);
    if f.Substr? {
      match m.rev(a[0])
      case None =>
      case Some(s) =>
        match StringOps.Substr(s, a[1], a[2])
        case Some(r) => SamePut(m, n, r);
        case None =>
    } else {
      match (m.rev(a[0]), m.rev(a[1]), m.rev(a[2]))
      case (Some(s), Some(o), Some(r)) => SamePut(m, n, StringOps.Replaced(s, o, r));
      case _ =>
    }
  }

  /** One string function on operands of its declared kinds. */
  lemma TextSame(f: StrFn, m: Machine, n: Machine, a: seq<int>, b: seq<int>)
    requires Peers(m, n) && |a| == |b| == StrArity(f) && |StrOperands(f)| == StrArity(f) && SameAll(StrOperands(f), m, a, n, b)
    ensures IsOpTag(StrTag(f)) && Arity(StrTag(f)) == |a|
    ensures SameOpt(if MakesString(f) then Str else Scalar, m, Apply(StrTag(f), a, m), n, Apply(StrTag(f), b, n))
  {
    hide StrUnary, StrBinary, StrTernary, SameOpt, Peers;
    var ts := StrOperands(f);
    assert Same(ts[0], m, a[0], n, b[0]);
    if StrArity(f) == 1 {
      UnaryTextSame(f, m, n, a[0], b[0]);
    } else if StrArity(f) == 2 {
      assert Same(ts[1], m, a[1], n, b[1]);
      BinaryTextSame(f, m, n, a, b);
    } else {
      TernaryTextSame(f, m, n, a, b);
    }
  }

  // ---- expressions --------------------------------------------------------------------------------

  /** Rows with the same strings and numbers, column by column. */
  predicate SameRows(cols: Layout, m: Machine, a: Row, n: Machine, b: Row) {
    |a| == |b| == |cols| && forall c | 0 <= c < |cols| :: Same(cols[c].ctype, m, a[c], n, b[c])
  }

  /** Every typed name has the same value in both. */
  ghost predicate SameEnvs(cols: Layout, m: Machine, a: Env, n: Machine, b: Env) {
    forall x: Text :: IsTyped(cols, x) ==> a(x).Some? && SameOpt(LookupType(cols, x), m, a(x), n, b(x))
  }

  lemma EqualOperands(ts: seq<ColType>, m: Machine, a: seq<int>, n: Machine, b: seq<int>)
    requires SameAll(ts, m, a, n, b) && forall t | t in ts :: !t.Str?
    ensures a == b
  {
    assert forall i | 0 <= i < |ts| :: ts[i] in ts && Same(ts[i], m, a[i], n, b[i]);
  }

  lemma ArithmeticSame(e: Expr, cols: Layout, m: Machine, n: Machine, a: seq<int>, b: seq<int>)
    requires e.Arith? && Sound(e) && OperandsFit(e, cols) && OpTag(e, cols).Some?
    requires Peers(m, n) && SameAll(ArgTypes(e.args, cols), m, a, n, b)
    ensures var tag := OpTag(e, cols).value; IsOpTag(tag) && Arity(tag) == |a| && Apply(tag, a, m) == Apply(tag, b, n)
  {
    hide Apply, ArithTag, Peers, TypeOf, Same;
    OperandCount(e);
    var args, ts := e.args, ArgTypes(e.args, cols);
    assert forall i | 0 <= i < |ts| :: Same(ts[i], m, a[i], n, b[i]) && ts[i] == ArgType(args, i, cols);
    if IsDigest(e.arith) {
      DigestSame(e.arith, ArgType(args, 0, cols), ArgType(args, 1, cols), m, n, a, b);
    } else {
      EqualOperands(ts, m, a, n, b);
      ArithSame(e.arith, ArgType(args, 0, cols), ArgType(args, 1, cols), m, n, a);
    }
  }

  lemma StringCallSame(e: Expr, cols: Layout, m: Machine, n: Machine, a: seq<int>, b: seq<int>)
    requires e.StrCall? && Sound(e) && OperandsFit(e, cols) && Peers(m, n) && SameAll(ArgTypes(e.args, cols), m, a, n, b)
    ensures IsOpTag(StrTag(e.strFn)) && Arity(StrTag(e.strFn)) == |a|
    ensures SameOpt(TypeOf(e, cols), m, Apply(StrTag(e.strFn), a, m), n, Apply(StrTag(e.strFn), b, n))
  {
    hide Apply, Peers, StrOperands, StrTag;
    OperandCount(e);
    ResultType(e, cols);
    var ts, us := ArgTypes(e.args, cols), StrOperands(e.strFn);
    forall i | 0 <= i < |us|
      ensures Same(us[i], m, a[i], n, b[i])
    {
      assert SameKind(ts[i], us[i]) && Same(ts[i], m, a[i], n, b[i]);
    }
    hide TypeOf, SameOpt;
    TextSame(e.strFn, m, n, a, b);
  }

  lemma ComparisonSame(e: Expr, cols: Layout, m: Machine, n: Machine, a: seq<int>, b: seq<int>)
    requires e.Cmp? && Sound(e) && OperandsFit(e, cols) && OpTag(e, cols).Some?
    requires Peers(m, n) && SameAll(ArgTypes(e.args, cols), m, a, n, b)
    ensures var tag := OpTag(e, cols).value; IsOpTag(tag) && Arity(tag) == |a| && Apply(tag, a, m) == Apply(tag, b, n)
  {
    hide Apply, CmpTag, Peers, TypeOf, Same;
    var ts := ArgTypes(e.args, cols);
    assert Same(ts[0], m, a[0], n, b[0]) && Same(ts[1], m, a[1], n, b[1]);
    CompareSame(e.cmp, ts[0], ts[1], m, n, a, b);
  }

  lemma OperatorSame(e: Expr, cols: Layout, m: Machine, n: Machine, a: seq<int>, b: seq<int>)
    requires Sound(e) && (e.Arith? || e.Cmp? || e.Agg? || e.StrCall?) && OperandsFit(e, cols) && OpTag(e, cols).Some?
    requires Peers(m, n) && SameAll(ArgTypes(Args(e), cols), m, a, n, b)
    ensures IsOpTag(OpTag(e, cols).value) && Arity(OpTag(e, cols).value) == |a|
    ensures SameOpt(TypeOf(e, cols), m, Apply(OpTag(e, cols).value, a, m), n, Apply(OpTag(e, cols).value, b, n))
  {
    hide Apply, CmpTag, ArithTag, Peers, TypeOf, SameAll, ArgTypes;
    ResultType(e, cols);
    if e.Arith? {
      ArithmeticSame(e, cols, m, n, a, b);
    } else if e.Cmp? {
      ComparisonSame(e, cols, m, n, a, b);
    } else if e.Agg? {
      EqualOperands(ArgTypes(e.args, cols), m, a, n, b);
      OneOperand(e, cols, m, a, n, b);
      AggSame(e.agg, m, n, a);
    } else {
      StringCallSame(e, cols, m, n, a, b);
    }
  }

  lemma OneOperand(e: Expr, cols: Layout, m: Machine, a: seq<int>, n: Machine, b: seq<int>)
    requires e.Agg? && Sound(e) && SameAll(ArgTypes(e.args, cols), m, a, n, b)
    ensures |a| == 1
  {}

  lemma AggSame(f: AggFn, m: Machine, n: Machine, a: seq<int>)
    requires |a| == 1
    ensures IsOpTag(AggTag(f)) && Arity(AggTag(f)) == 1 && Apply(AggTag(f), a, m) == Apply(AggTag(f), a, n)
  {}

  lemma OperandCount(e: Expr)
    requires Sound(e)
    ensures e.Arith? ==> |e.args| == ArithArity(e.arith)
    ensures e.StrCall? ==> |e.args| == StrArity(e.strFn) == |StrOperands(e.strFn)|
  {}

  lemma ResultType(e: Expr, cols: Layout)
    ensures e.Arith? || e.Cmp? || e.Agg? ==> !TypeOf(e, cols).Str?
    ensures e.StrCall? ==> TypeOf(e, cols) == if MakesString(e.strFn) then Str else Scalar
  {}

  /** Under two id assignments a well-typed expression means the same thing. */
  lemma {:induction false} MeaningSame(e: Expr, cols: Layout, exts: Extensions, m: Machine, a: Env, n: Machine, b: Env)
    requires Sound(e) && WellTyped(e, cols) && Peers(m, n) && SameEnvs(cols, m, a, n, b)
    ensures SameOpt(TypeOf(e, cols), m, Meaning(e, cols, exts, m, a, false), n, Meaning(e, cols, exts, n, b, false))
    decreases e, 1
  {
    hide MeaningAll, Apply, OpTag, OperandsFit, SameAll, Same;
    if e.Var? {
      VariableSame(e.name, cols, m, a, n, b);
    } else if e.StrLit? {
      SamePut(m, n, e.text);
    } else if e.IntLit? || e.FloatLit? || e.BoolLit? {
      ScalarSame(m, n, e, cols);
    } else {
      TypedArgs(e, cols);
      MeaningsSame(Args(e), e, cols, exts, m, a, n, b);
      OperatorMeaning(e, cols, exts, m, a);
      OperatorMeaning(e, cols, exts, n, b);
      var va, vb := MeaningAll(Args(e), e, cols, exts, m, a, false), MeaningAll(Args(e), e, cols, exts, n, b, false);
      if va.Some? && vb.Some? && OpTag(e, cols).Some? {
        OperatorSame(e, cols, m, n, va.value, vb.value);
      }
    }
  }

  lemma ScalarSame(m: Machine, n: Machine, e: Expr, cols: Layout)
    requires e.IntLit? || e.FloatLit? || e.BoolLit?
    ensures forall v: int :: Same(TypeOf(e, cols), m, v, n, v)
  {}

  lemma VariableSame(x: Text, cols: Layout, m: Machine, a: Env, n: Machine, b: Env)
    requires IsTyped(cols, x) && Peers(m, n) && SameEnvs(cols, m, a, n, b)
    ensures SameOpt(LookupType(cols, x), m, VarValue(VarTag(cols, x, false), a(x), m), n, VarValue(VarTag(cols, x, false), b(x), n))
  {
    assert SameOpt(LookupType(cols, x), m, a(x), n, b(x));
    hide LookupType, Interns;
  }

  lemma TypedArgs(e: Expr, cols: Layout)
    requires Sound(e) && WellTyped(e, cols) && (e.Arith? || e.Cmp? || e.Agg? || e.StrCall? || e.ExtCall?)
    ensures !e.ExtCall? && OperandsFit(e, cols) && forall x | x in Args(e) :: Sound(x) && WellTyped(x, cols)
  {
    hide Sound;
  }

  /** An operator node's meaning, from its operands'. */
  lemma OperatorMeaning(e: Expr, cols: Layout, exts: Extensions, m: Machine, a: Env)
    requires Sound(e) && (e.Arith? || e.Cmp? || e.Agg? || e.StrCall?)
    ensures OpTag(e, cols).Some? ==> IsOpTag(OpTag(e, cols).value) && Arity(OpTag(e, cols).value) == |Args(e)|
    ensures var vs := MeaningAll(Args(e), e, cols, exts, m, a, false);
            Meaning(e, cols, exts, m, a, false) ==
            if OpTag(e, cols).Some? && vs.Some? then Apply(OpTag(e, cols).value, vs.value, m) else None
  {
    hide Apply, MeaningAll, OpTag;
    if OpTag(e, cols).Some? {
      TagArity(e, cols);
    }
  }

  lemma {:induction false} MeaningsSame(es: seq<Expr>, parent: Expr, cols: Layout, exts: Extensions, m: Machine, a: Env, n: Machine, b: Env)
    requires forall x | x in es :: Sound(x) && x < parent && WellTyped(x, cols)
    requires Peers(m, n) && SameEnvs(cols, m, a, n, b)
    ensures var va, vb := MeaningAll(es, parent, cols, exts, m, a, false), MeaningAll(es, parent, cols, exts, n, b, false);
            (va.Some? <==> vb.Some?) && (va.Some? ==> SameAll(ArgTypes(es, cols), m, va.value, n, vb.value))
    decreases parent, 0, |es|
  {
    hide Meaning, Sound, WellTyped, Peers, SameEnvs, Same, TypeOf;
    if es != [] {
      var init, last := es[..|es| - 1], es[|es| - 1];
      assert last in es && forall x | x in init :: x in es;
      MeaningsSame(init, parent, cols, exts, m, a, n, b);
      MeaningSame(last, cols, exts, m, a, n, b);
      assert ArgTypes(es, cols) == ArgTypes(init, cols) + [TypeOf(last, cols)];
    }
  }

  // ---- emitted bytes --------------------------------------------------------------------------------

  /** A typed name is read at the column its type comes from. */
  lemma TypedColumn(cols: Layout, x: Text)
    requires IsTyped(cols, x)
    ensures ColumnOf(cols, x) < |cols| && LookupType(cols, x) == cols[ColumnOf(cols, x)].ctype
  {
    if FindColumn(cols, x).None? {
      assert ColIndex(x).Some?;
      LeadingNumberOfDigits(x[3..]);
      assert x[3..|x|] == x[3..];
    }
  }

  lemma RowsGiveEnvs(cols: Layout, m: Machine, a: Row, n: Machine, b: Row, ea: Env, eb: Env)
    requires SameRows(cols, m, a, n, b) && Reads(cols, a, ea) && Reads(cols, b, eb)
    ensures SameEnvs(cols, m, ea, n, eb)
  {
    hide LookupType, ColumnOf, IsTyped, Same;
    forall x: Text | IsTyped(cols, x)
      ensures ea(x).Some? && SameOpt(LookupType(cols, x), m, ea(x), n, eb(x))
    {
      TypedColumn(cols, x);
      var c := ColumnOf(cols, x);
      assert Same(cols[c].ctype, m, a[c], n, b[c]);
      assert ea(x) == CellAt(a, c) && eb(x) == CellAt(b, c);
    }
  }

  /** The emitted bytes give the same value, up to renaming ids, whatever order strings were interned in. */
  lemma BytesSame(e: Expr, cols: Layout, exts: Extensions, m: Machine, a: Row, n: Machine, b: Row)
    requires Sound(e) && Sized(e) && SoundExtensions(exts) && |cols| <= TWO32 && Serialized(e, cols, exts, false).Some?
    requires WellTyped(e, cols) && Peers(m, n) && SameRows(cols, m, a, n, b)
    ensures var bs := Serialized(e, cols, exts, false).value;
            SameOpt(TypeOf(e, cols), m, Eval(bs, m, a), n, Eval(bs, n, b))
  {
    hide Serialized, Eval, Meaning, Sound, Sized, WellTyped, Peers, TypeOf, SameOpt, SameEnvs;
    var ea: Env, eb: Env := x => CellAt(a, ColumnOf(cols, x)), x => CellAt(b, ColumnOf(cols, x));
    assert Reads(cols, a, ea) && Reads(cols, b, eb);
    RowsGiveEnvs(cols, m, a, n, b, ea, eb);
    BytesMean(e, cols, exts, m, a, ea);
    BytesMean(e, cols, exts, n, b, eb);
    MeaningSame(e, cols, exts, m, ea, n, eb);
  }

  // ---- where it ends ----------------------------------------------------------------------------------

  function PairCols(t: ColType, u: ColType): Layout { [Column(Some([120]), t), Column(Some([121]), u)] }

  /** x compared with y. */
  function Pair(op: CmpOp): Expr { Cmp(op, [Var([120]), Var([121])]) }

  lemma PairSound(op: CmpOp)
    ensures Sound(Pair(op)) && Sized(Pair(op)) && Args(Pair(op)) == [Var([120]), Var([121])]
    ensures Sound(Var([120])) && Sound(Var([121])) && Var([120]) < Pair(op) && Var([121]) < Pair(op)
  {
    var args := [Var([120]), Var([121])];
    assert args[0] in args && args[1] in args;
  }

  lemma PairColumns(t: ColType, u: ColType)
    ensures FindColumn(PairCols(t, u), [120]) == Some(0) && FindColumn(PairCols(t, u), [121]) == Some(1)
  {
    var x: Text, y: Text, cols := [120], [121], PairCols(t, u);
    assert x[0] != y[0] && cols[0].name == Some(x) && cols[1].name == Some(y);
  }

  lemma MeaningPair(p: Expr, q: Expr, parent: Expr, cols: Layout, m: Machine, env: Env)
    requires Sound(p) && Sound(q) && p < parent && q < parent
    ensures MeaningAll([p, q], parent, cols, None, m, env, false) ==
            match (Meaning(p, cols, None, m, env, false), Meaning(q, cols, None, m, env, false))
            case (Some(a), Some(b)) => Some([a, b])
            case _ => None
  {
    hide Meaning, Sound;
    assert [p, q][..1] == [p] && [p][..0] == [];
    assert MeaningAll([], parent, cols, None, m, env, false) == Some([]);
    assert forall a: int, b: int :: [] + [a] == [a] && [a] + [b] == [a, b];
  }

  /** What the comparison gives on a row: floats must be finite, otherwise the opcode decides. */
  function Compared(op: CmpOp, t: ColType, u: ColType, m: Machine, row: Row): Option<int>
    requires |row| == 2
  {
    if t.Float? && !(m.finite(row[0]) && m.finite(row[1])) then None else Apply(CmpTag(op, t, u), row, m)
  }

  lemma PairTag(op: CmpOp, t: ColType, u: ColType)
    ensures OpTag(Pair(op), PairCols(t, u)) == if t.Float? != u.Float? then None else Some(CmpTag(op, t, u))
  {
    PairColumns(t, u);
    hide FindColumn, CmpTag;
    var args, cols := [Var([120]), Var([121])], PairCols(t, u);
    assert args[0] == Var([120]) && args[1] == Var([121]);
    assert ArgType(args, 0, cols) == t && ArgType(args, 1, cols) == u;
  }

  /** Comparisons of a float with anything else do not serialize; all others do. */
  lemma PairSerializes(op: CmpOp, t: ColType, u: ColType)
    ensures Sound(Pair(op)) && (Serialized(Pair(op), PairCols(t, u), None, false).Some? <==> t.Float? == u.Float?)
  {
    PairSound(op);
    var e, cols, x, y := Pair(op), PairCols(t, u), Var([120]), Var([121]);
    hide OpTag, EncodeToken, Serialized, PairCols, Sound;
    PairTag(op, t, u);
    VarSerializes([120], cols);
    VarSerializes([121], cols);
    assert [x, y][..1] == [x] && [x][..0] == [];
    assert SerializedAll([x], e, cols, None, false).Some?;
    assert SerializedAll([x, y], e, cols, None, false).Some?;
    SerializesIff(e, cols);
  }

  lemma VarSerializes(x: Text, cols: Layout)
    ensures Serialized(Var(x), cols, None, false).Some?
  {
    hide EncodeToken;
  }

  lemma VarMeans(x: Text, c: nat, cols: Layout, m: Machine, row: Row, env: Env)
    requires FindColumn(cols, x) == Some(c) && c < |row| && Reads(cols, row, env)
    ensures Meaning(Var(x), cols, None, m, env, false) == if cols[c].ctype.Float? && !m.finite(row[c]) then None else Some(row[c])
  {
    assert env(x) == CellAt(row, ColumnOf(cols, x));
  }

  lemma SerializesIff(e: Expr, cols: Layout)
    requires e.Cmp? && Sound(e) && SerializedAll(Args(e), e, cols, None, false).Some?
    ensures Serialized(e, cols, None, false).Some? <==> OpTag(e, cols).Some?
  {
    hide OpTag, EncodeToken, SerializedAll;
  }

  lemma PairMeans(op: CmpOp, t: ColType, u: ColType, m: Machine, row: Row, env: Env)
    requires |row| == 2 && t.Float? == u.Float? && Reads(PairCols(t, u), row, env)
    ensures Sound(Pair(op)) && Meaning(Pair(op), PairCols(t, u), None, m, env, false) == Compared(op, t, u, m, row)
  {
    PairSound(op);
    PairColumns(t, u);
    PairTag(op, t, u);
    var e, cols, x, y := Pair(op), PairCols(t, u), Var([120]), Var([121]);
    hide FindColumn, OpTag, CmpTag, Meaning, Apply, MeaningAll, Reads, Sound;
    VarMeans([120], 0, cols, m, row, env);
    VarMeans([121], 1, cols, m, row, env);
    MeaningPair(x, y, e, cols, m, env);
    OperatorMeaning(e, cols, None, m, env);
    assert row == [row[0], row[1]];
  }

  lemma PairEval(op: CmpOp, t: ColType, u: ColType, m: Machine, row: Row)
    requires |row| == 2 && t.Float? == u.Float?
    ensures Sound(Pair(op)) && Serialized(Pair(op), PairCols(t, u), None, false).Some?
    ensures Eval(Serialized(Pair(op), PairCols(t, u), None, false).value, m, row) == Compared(op, t, u, m, row)
  {
    hide Serialized, Eval, Meaning, Sound, Sized, Compared;
    PairSound(op);
    PairSerializes(op, t, u);
    var cols := PairCols(t, u);
    var env: Env := x => CellAt(row, ColumnOf(cols, x));
    assert Reads(cols, row, env);
    PairMeans(op, t, u, m, row, env);
    BytesMean(Pair(op), cols, None, m, row, env);
  }

  /** The emitted comparison gives the same whatever order strings were interned in. */
  ghost predicate IsIndependent(op: CmpOp, t: ColType, u: ColType)
    requires t.Float? == u.Float?
  {
    PairSerializes(op, t, u);
    var bs := Serialized(Pair(op), PairCols(t, u), None, false).value;
    forall m: Machine, n: Machine, a: Row, b: Row | Peers(m, n) && SameRows(PairCols(t, u), m, a, n, b) :: Eval(bs, m, a) == Eval(bs, n, b)
  }

  // ---- two id assignments --------------------------------------------------------------------------------

  /** Strings numbered in order of length, then of bytes. */
  function Code(s: Text): nat {
    if s == [] then 0 else 256 * Code(s[..|s| - 1]) + s[|s| - 1] + 1
  }

  function Decode(v: nat): Text {
    if v == 0 then [] else Decode((v - 1) / 256) + [(v - 1) % 256]
  }

  lemma {:induction false} DecodeOfCode(s: Text)
    ensures Decode(Code(s)) == s
    decreases |s|
  {
    if s != [] {
      var init, last := s[..|s| - 1], s[|s| - 1];
      DecodeOfCode(init);
      Quotient(Code(init), last);
      assert s == init + [last];
    }
  }

  lemma Quotient(q: nat, r: Byte)
    ensures (256 * q + r) / 256 == q && (256 * q + r) % 256 == r
  {}

  lemma {:induction false} CodeOfDecode(v: nat)
    ensures Code(Decode(v)) == v
  {
    if v > 0 {
      CodeOfDecode((v - 1) / 256);
      var init, last := Decode((v - 1) / 256), (v - 1) % 256;
      assert (init + [last])[..|init|] == init;
    }
  }

  /** Ids from k on, in that order; no foreign code. */
  function Numbered(k: nat): Machine {
    Machine(
      s => Code(s) + k,
      v => if v >= k then Some(Decode(v - k)) else None,
      _ => true, (_, _, _) => None, (_, _) => None, (_, _) => None, _ => [], _ => None, None, (_, _, _) => None)
  }

  lemma NumberedInterns(k: nat)
    ensures Interns(Numbered(k))
  {
    var m := Numbered(k);
    forall s: Text
      ensures m.rev(m.put(s)) == Some(s)
    {
      DecodeOfCode(s);
    }
    forall v: int | m.rev(v).Some?
      ensures v == m.put(m.rev(v).value)
    {
      CodeOfDecode(v - k);
    }
  }

  lemma TwoNumberings()
    ensures Peers(Numbered(0), Numbered(1)) && Numbered(0).rev(0) == Some([]) && Numbered(1).rev(1) == Some([])
  {
    NumberedInterns(0);
    NumberedInterns(1);
    hide Interns;
    var m, n := Numbered(0), Numbered(1);
    assert m.finite == n.finite && m.float == n.float && m.digest == n.digest && m.uuid5Text == n.uuid5Text;
    assert m.format == n.format && m.parse == n.parse;
  }

  /** The empty string is 0 in one and 1 in the other: some number tells the two apart. */
  lemma MixedDiffers(op: CmpOp, t: ColType, u: ColType, m: Machine, n: Machine) returns (k: int)
    requires t.Str? != u.Str? && !t.Float? && !u.Float?
    ensures Compared(op, t, u, m, if t.Str? then [0, k] else [k, 0]) != Compared(op, t, u, n, if t.Str? then [1, k] else [k, 1])
  {
    k := if op.Eq? || op.Neq? || (if t.Str? then op.Gt? || op.Lte? else op.Lt? || op.Gte?) then 0 else 1;
  }

  lemma DependsBy(op: CmpOp, t: ColType, u: ColType, m: Machine, n: Machine, a: Row, b: Row)
    requires t.Float? == u.Float? && Peers(m, n) && |a| == |b| == 2 && SameRows(PairCols(t, u), m, a, n, b)
    requires Compared(op, t, u, m, a) != Compared(op, t, u, n, b)
    ensures !IsIndependent(op, t, u)
  {
    hide Serialized, Eval, Compared, Peers, SameRows, Sound;
    PairEval(op, t, u, m, a);
    PairEval(op, t, u, n, b);
  }

  lemma MixedRows(t: ColType, u: ColType, k: int)
    requires t.Str? != u.Str?
    ensures SameRows(PairCols(t, u), Numbered(0), if t.Str? then [0, k] else [k, 0], Numbered(1), if t.Str? then [1, k] else [k, 1])
  {
    TwoNumberings();
    hide Numbered, Interns;
  }

  lemma MixedDepends(op: CmpOp, t: ColType, u: ColType)
    requires t.Float? == u.Float? && !SameKind(t, u)
    ensures !IsIndependent(op, t, u)
  {
    hide Compared, Peers, SameRows, IsIndependent, Numbered;
    var m, n := Numbered(0), Numbered(1);
    TwoNumberings();
    var k := MixedDiffers(op, t, u, m, n);
    MixedRows(t, u, k);
    DependsBy(op, t, u, m, n, if t.Str? then [0, k] else [k, 0], if t.Str? then [1, k] else [k, 1]);
  }

  lemma ComparedSame(op: CmpOp, t: ColType, u: ColType, m: Machine, n: Machine, a: Row, b: Row)
    requires SameKind(t, u) && t.Float? == u.Float? && Peers(m, n) && |a| == |b| == 2
    requires Same(t, m, a[0], n, b[0]) && Same(u, m, a[1], n, b[1])
    ensures Compared(op, t, u, m, a) == Compared(op, t, u, n, b)
  {
    hide Apply, CmpTag, Interns;
    CompareSame(op, t, u, m, n, a, b);
  }

  /**
   * Comparing two columns is independent of interning order exactly when both are strings
   * or neither is: for all six operators and all pairs of types that serialize.
   */
  lemma IndependentIff(op: CmpOp, t: ColType, u: ColType)
    requires t.Float? == u.Float?
    ensures IsIndependent(op, t, u) <==> SameKind(t, u)
  {
    PairSerializes(op, t, u);
    if SameKind(t, u) {
      hide Serialized, Eval, Compared, Peers, Same, Sound;
      forall m: Machine, n: Machine, a: Row, b: Row | Peers(m, n) && SameRows(PairCols(t, u), m, a, n, b)
        ensures Eval(Serialized(Pair(op), PairCols(t, u), None, false).value, m, a)
             == Eval(Serialized(Pair(op), PairCols(t, u), None, false).value, n, b)
      {
        var cols := PairCols(t, u);
        assert Same(cols[0].ctype, m, a[0], n, b[0]) && Same(cols[1].ctype, m, a[1], n, b[1]);
        PairEval(op, t, u, m, a);
        PairEval(op, t, u, n, b);
        ComparedSame(op, t, u, m, n, a, b);
      }
    } else {
      MixedDepends(op, t, u);
    }
  }
}
