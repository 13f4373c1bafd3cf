/**
 * Expression trees of the intermediate representation, the value domain of each
 * expression, and the opcode the plan generator selects from those domains.
 */
module Expr {
  import opened Bytes

  datatype ColType = Unknown | Scalar | Str | Float

  datatype ArithOp =
    | Add | Sub | Mul | Div | Mod | Band | Bor | Bxor | Bnot | Shl | Shr
    | Hash | Crc32Eth | Crc32Cast | Md5 | Sha1 | Sha256 | Sha512
    | HmacSha256 | Uuid4 | Uuid5

  datatype CmpOp = Eq | Neq | Lt | Gt | Lte | Gte

  datatype AggFn = Count | Sum | Min | Max | Avg

  datatype StrFn =
    | Strlen | Cat | Substr | Contains | Prefix | Suffix | Ord | Upper | Lower
    | Replace | Trim | ToString | ToNumber | Uuid5Rfc

  datatype Expr =
    | Var(name: Text)
    | IntLit(value: int)
    | FloatLit(bits: nat)
    | StrLit(text: Text)
    | BoolLit(truth: bool)
    | Arith(arith: ArithOp, args: seq<Expr>)
    | Cmp(cmp: CmpOp, args: seq<Expr>)
    | Agg(agg: AggFn, args: seq<Expr>)
    | StrCall(strFn: StrFn, args: seq<Expr>)
    | ExtCall(ext: Text, args: seq<Expr>)

  /** One column of the layout an expression is resolved against. */
  datatype Column = Column(name: Option<Text>, ctype: ColType)

  type Layout = seq<Column>

  /** ABI metadata (identity, version) by extension name, when a snapshot is pinned. */
  type Extensions = Option<map<Text, (nat, nat)>>

  /** First column with the given name, the one every reference resolves to. */
  function FindColumn(cols: Layout, x: Text): (r: Option<nat>)
    ensures r.Some? ==> r.value < |cols| && cols[r.value].name == Some(x)
    ensures r.Some? ==> forall i :: 0 <= i < r.value ==> cols[i].name != Some(x)
    ensures r.None? ==> forall i :: 0 <= i < |cols| ==> cols[i].name != Some(x)
    decreases |cols|
  {
    if cols == [] then None
    else if cols[0].name == Some(x) then Some(0)
    else match FindColumn(cols[1..], x)
         case None => None
         case Some(i) => Some(i + 1)
  }

  const COL: Text := [99, 111, 108]

  /** The positional name "colN". */
  function ColName(n: nat): Text { COL + Decimal(n) }

  /** N when x has the form colN with decimal digits only, else None. */
  function ColIndex(x: Text): Option<nat> {
    if |x| > 3 && x[..3] == COL && AllDigits(x[3..]) then Some(DigitsValue(x[3..])) else None
  }

  function TypeAt(cols: Layout, i: nat): ColType {
    if i < |cols| then cols[i].ctype else Unknown
  }

  /** Domain of a variable: by declared name first, then by an in-range colN. */
  function LookupType(cols: Layout, x: Text): ColType {
    match FindColumn(cols, x)
    case Some(c) => TypeAt(cols, c)
    case None =>
      match ColIndex(x)
      case Some(n) => TypeAt(cols, n)
      case None => Unknown
  }

  predicate MakesString(f: StrFn) {
    f.Cat? || f.Substr? || f.Upper? || f.Lower? || f.Replace? || f.Trim? || f.ToString? || f.Uuid5Rfc?
  }

  /** The value domain an expression evaluates to. */
  function TypeOf(e: Expr, cols: Layout): ColType {
    match e
    case Var(x) => LookupType(cols, x)
    case StrLit(_) => Str
    case FloatLit(_) => Float
    case Arith(_, args) =>
      if args != [] && (forall a | a in args :: TypeOf(a, cols) == Float) then Float else Scalar
    case StrCall(f, _) => if MakesString(f) then Str else Scalar
    case IntLit(_) => Scalar
    case BoolLit(_) => Scalar
    case Cmp(_, _) => Scalar
    case Agg(_, _) => Scalar
    case ExtCall(_, _) => Scalar
  }

  function ArgType(args: seq<Expr>, i: nat, cols: Layout): ColType {
    if i < |args| then TypeOf(args[i], cols) else Unknown
  }

  // ---- opcodes (wirelog/exec_plan.h) ----------------------------------------

  const VAR: Byte := 0x01
  const CONST_INT: Byte := 0x02
  const CONST_STR: Byte := 0x03
  const BOOL: Byte := 0x04
  const VAR_FLOAT: Byte := 0x05
  const CONST_FLOAT: Byte := 0x06
  const VAR_STRING: Byte := 0x07
  const EXT_CALL: Byte := 0x80
  const EXT_CALL_ABI: Byte := 0x81
  const BAND: Byte := 0x15

  predicate IsDigest(op: ArithOp) {
    op.Hash? || op.Crc32Eth? || op.Crc32Cast? || op.Md5? || op.Sha1? || op.Sha256? || op.Sha512?
    || op.HmacSha256? || op.Uuid5?
  }

  /** A symbol operand selects the opcode that reads the string's own bytes. */
  function DigestTag(op: ArithOp, t0: ColType, t1: ColType): Byte
    requires IsDigest(op)
  {
    var s0, s1 := t0.Str?, t1.Str?;
    match op
    case Hash => if s0 then 0x60 else 0x1B
    case Crc32Eth => if s0 then 0x61 else 0x1C
    case Crc32Cast => if s0 then 0x62 else 0x1D
    case Md5 => if s0 then 0x63 else 0x1E
    case Sha1 => if s0 then 0x64 else 0x1F
    case Sha256 => if s0 then 0x65 else 0x20
    case Sha512 => if s0 then 0x66 else 0x21
    case HmacSha256 => if s0 && s1 then 0x67 else if s0 then 0x68 else if s1 then 0x69 else 0x28
    case Uuid5 => if s0 && s1 then 0x6A else if s0 then 0x6B else if s1 then 0x6C else 0x2A
  }

  /** Opcode of an arithmetic node; 0 means the combination has no opcode. */
  function ArithTag(op: ArithOp, t0: ColType, t1: ColType): Byte {
    if IsDigest(op) then DigestTag(op, t0, t1)
    else if t0.Float? && t1.Float? then
      match op
      case Add => 0x70
      case Sub => 0x71
      case Mul => 0x72
      case Div => 0x73
      case _ => 0
    else
      match op
      case Add => 0x10
      case Sub => 0x11
      case Mul => 0x12
      case Div => 0x13
      case Mod => 0x14
      case Band => 0x15
      case Bor => 0x16
      case Bxor => 0x17
      case Shl => 0x18
      case Shr => 0x19
      case Bnot => 0x1A
      case _ => 0x29 // Uuid4: the digests went above
  }

  /** Opcode of a comparison. Ordering uses string opcodes only when both sides are strings. */
  function CmpTag(op: CmpOp, lhs: ColType, rhs: ColType): Byte {
    if lhs.Float? && rhs.Float? then
      match op
      case Eq => 0x74
      case Neq => 0x75
      case Lt => 0x76
      case Gt => 0x77
      case Lte => 0x78
      case Gte => 0x79
    else if lhs.Str? && rhs.Str? then
      match op
      case Eq => 0x22
      case Neq => 0x23
      case Lt => 0x52
      case Gt => 0x53
      case Lte => 0x54
      case Gte => 0x55
    else
      match op
      case Eq => 0x22
      case Neq => 0x23
      case Lt => 0x24
      case Gt => 0x25
      case Lte => 0x26
      case Gte => 0x27
  }

  function AggTag(f: AggFn): Byte {
    match f
    case Count => 0x30
    case Sum => 0x31
    case Min => 0x32
    case Max => 0x33
    case Avg => 0x34
  }

  function StrTag(f: StrFn): Byte {
    match f
    case Strlen => 0x40
    case Cat => 0x41
    case Substr => 0x42
    case Contains => 0x43
    case Prefix => 0x44
    case Suffix => 0x45
    case Ord => 0x46
    case Upper => 0x47
    case Lower => 0x48
    case Replace => 0x49
    case Trim => 0x4A
    case ToString => 0x4B
    case ToNumber => 0x4C
    case Uuid5Rfc => 0x4D
  }

  /** Payload-free opcodes: everything that is an operator rather than an operand. */
  predicate IsOpTag(tag: Byte) {
    0x10 <= tag <= 0x2A || 0x30 <= tag <= 0x34 || 0x40 <= tag <= 0x4D || 0x50 <= tag <= 0x55
    || 0x60 <= tag <= 0x6C || 0x70 <= tag <= 0x79
  }

  /** How many operands an operator opcode pops. */
  function Arity(tag: Byte): nat
    requires IsOpTag(tag)
  {
    if tag == 0x29 then 0
    else if 0x1A <= tag <= 0x21 || 0x30 <= tag <= 0x34 || tag == 0x40 || 0x46 <= tag <= 0x48
            || 0x4A <= tag <= 0x4C || 0x60 <= tag <= 0x66 then 1
    else if tag == 0x42 || tag == 0x49 then 3
    else 2
  }
}
