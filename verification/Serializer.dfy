/**
 * serialize_expr: one recursive pass that resolves names, selects opcodes and appends
 * bytes to a growing buffer.
 */
module Serializer {
  import opened Bytes
  import opened Expr
  import opened Postfix
  import Seqs

  // ---- what the pass decides -----------------------------------------------------

  /** Lengths travel as 16 bits, so only the low 16 bits of a length survive. */
  function Clip(s: Text): (r: Text)
    ensures |r| < 65536
    ensures |s| < 65536 ==> r == s
  {
    s[..|s| % 65536]
  }

  function EmittedName(cols: Layout, x: Text): Text {
    match FindColumn(cols, x)
    case Some(c) => ColName(c)
    case None => x
  }

  function VarTag(cols: Layout, x: Text, extArg: bool): (tag: Byte)
    ensures IsVarTag(tag)
  {
    var t := LookupType(cols, x);
    if t.Float? then VAR_FLOAT else if extArg && t.Str? then VAR_STRING else VAR
  }

  /** ABI part of a call: None fails the plan, Some(None) is the legacy form. */
  function CallAbi(exts: Extensions, name: Text): Option<Option<(nat, nat)>> {
    match exts
    case None => Some(None)
    case Some(known) =>
      if name !in known || (known[name].0 != 0) != (known[name].1 != 0) then None
      else Some(if known[name].0 != 0 then Some(known[name]) else None)
  }

  predicate FloatMismatch(args: seq<Expr>, cols: Layout) {
    (ArgType(args, 0, cols) == Float) != (ArgType(args, 1, cols) == Float)
  }

  /** The opcode of an operator node; None fails the plan. */
  function OpTag(e: Expr, cols: Layout): Option<Byte>
    requires e.Arith? || e.Cmp? || e.Agg? || e.StrCall?
  {
    match e
    case Arith(op, args) =>
      var tag := ArithTag(op, ArgType(args, 0, cols), ArgType(args, 1, cols));
      if FloatMismatch(args, cols) || tag == 0 then None else Some(tag)
    case Cmp(op, args) =>
      if FloatMismatch(args, cols) then None
      else Some(CmpTag(op, ArgType(args, 0, cols), ArgType(args, 1, cols)))
    case Agg(f, _) => Some(AggTag(f))
    case StrCall(f, _) => Some(StrTag(f))
  }

  /** Number of children each operator is built with. */
  function ArithArity(op: ArithOp): nat {
    match op
    case Uuid4 => 0
    case Bnot => 1
    case HmacSha256 => 2
    case Uuid5 => 2
    case _ => if IsDigest(op) then 1 else 2
  }

  function StrArity(f: StrFn): nat {
    match f
    case Substr => 3
    case Replace => 3
    case Cat => 2
    case Contains => 2
    case Prefix => 2
    case Suffix => 2
    case Uuid5Rfc => 2
    case _ => 1
  }

  /** Operators have the number of operands their opcode pops; literals fit their fields. */
  predicate Sound(e: Expr) {
    match e
    case IntLit(v) => IsInt64(v)
    case FloatLit(bits) => bits < TWO64
    case Arith(op, args) => |args| == ArithArity(op) && forall a | a in args :: Sound(a)
    case Cmp(_, args) => |args| == 2 && forall a | a in args :: Sound(a)
    case Agg(_, args) => |args| == 1 && forall a | a in args :: Sound(a)
    case StrCall(f, args) => |args| == StrArity(f) && forall a | a in args :: Sound(a)
    case ExtCall(_, args) => |args| < TWO32 && forall a | a in args :: Sound(a)
    case _ => true
  }

  predicate SoundExtensions(exts: Extensions) {
    exts.Some? ==> forall n | n in exts.value :: exts.value[n].0 < TWO64 && exts.value[n].1 < TWO32
  }

  function Args(e: Expr): (args: seq<Expr>)
    ensures forall a | a in args :: a < e
    ensures Sound(e) ==> forall a | a in args :: Sound(a)
  {
    match e
    case Arith(_, args) => args
    case Cmp(_, args) => args
    case Agg(_, args) => args
    case StrCall(_, args) => args
    case ExtCall(_, args) => args
    case _ => []
  }

  lemma TagArity(e: Expr, cols: Layout)
    requires Sound(e) && (e.Arith? || e.Cmp? || e.Agg? || e.StrCall?)
    requires OpTag(e, cols).Some?
    ensures IsOpTag(OpTag(e, cols).value) && Arity(OpTag(e, cols).value) == |Args(e)|
  {
    hide ArgType;
  }

  /** The operand instruction of a leaf. */
  function LeafToken(e: Expr, cols: Layout, extArg: bool): (t: Token)
    requires e.Var? || e.IntLit? || e.FloatLit? || e.StrLit? || e.BoolLit?
    ensures Sound(e) ==> Encodable(t) && !t.OpTok? && !t.CallTok?
  {
    match e
    case Var(x) => VarTok(VarTag(cols, x, extArg), Clip(EmittedName(cols, x)))
    case IntLit(v) => IntTok(v)
    case FloatLit(bits) => FloatTok(bits)
    case StrLit(s) => StrTok(Clip(s))
    case BoolLit(b) => BoolTok(b)
  }

  /** The instruction a node emits after its operands; None fails the plan. */
  function OwnToken(e: Expr, cols: Layout, exts: Extensions, extArg: bool): (r: Option<Token>)
    requires Sound(e) && SoundExtensions(exts)
    ensures r.Some? ==> Encodable(r.value)
  {
    match e
    case ExtCall(name, args) =>
      if |name| > 65535 then None
      else (match CallAbi(exts, name)
            case None => None
            case Some(abi) => Some(CallTok(name, |args|, abi)))
    case Arith(_, _) => TokenOfTag(e, cols)
    case Cmp(_, _) => TokenOfTag(e, cols)
    case Agg(_, _) => TokenOfTag(e, cols)
    case StrCall(_, _) => TokenOfTag(e, cols)
    case _ => Some(LeafToken(e, cols, extArg))
  }

  function TokenOfTag(e: Expr, cols: Layout): (r: Option<Token>)
    requires Sound(e) && (e.Arith? || e.Cmp? || e.Agg? || e.StrCall?)
    ensures r.Some? ==> r.value.OpTok? && Encodable(r.value) && Arity(r.value.op) == |Args(e)|
  {
    match OpTag(e, cols)
    case None => None
    case Some(tag) =>
      TagArity(e, cols);
      Some(OpTok(tag))
  }

  /** The tree with names resolved to columns and opcodes typed. */
  function Resolve(e: Expr, cols: Layout, exts: Extensions, extArg: bool): (r: Option<Tree>)
    requires Sound(e) && SoundExtensions(exts)
    ensures r.Some? ==> WellFormed(r.value)
    decreases e, 1
  {
    match (OwnToken(e, cols, exts, extArg), ResolveAll(Args(e), e, cols, exts, e.ExtCall?))
    case (Some(tok), Some(ts)) =>
      Some(if tok.OpTok? then Node(tok.op, ts)
           else if tok.CallTok? then Call(tok.ext, tok.abi, ts)
           else Leaf(tok))
    case _ => None
  }

  function ResolveAll(es: seq<Expr>, ghost parent: Expr, cols: Layout, exts: Extensions, extArg: bool): (r: Option<seq<Tree>>)
    requires (forall a | a in es :: Sound(a) && a < parent) && SoundExtensions(exts)
    ensures r.Some? ==> |r.value| == |es| && forall t | t in r.value :: WellFormed(t)
    decreases parent, 0, |es|
  {
    if es == [] then Some([])
    else
      match (ResolveAll(es[..|es| - 1], parent, cols, exts, extArg), Resolve(es[|es| - 1], cols, exts, extArg))
      case (Some(ts), Some(t)) => Some(ts + [t])
      case _ => None
  }

  // ---- what the pass writes --------------------------------------------------------

  /** The bytes one call appends; None is a failed call. */
  function Serialized(e: Expr, cols: Layout, exts: Extensions, extArg: bool): Option<Text>
    requires Sound(e) && SoundExtensions(exts)
    decreases e, 1
  {
    match (SerializedAll(Args(e), e, cols, exts, e.ExtCall?), OwnToken(e, cols, exts, extArg))
    case (Some(bs), Some(tok)) => Some(bs + EncodeToken(tok))
    case _ => None
  }

  function SerializedAll(es: seq<Expr>, ghost parent: Expr, cols: Layout, exts: Extensions, extArg: bool): Option<Text>
    requires (forall a | a in es :: Sound(a) && a < parent) && SoundExtensions(exts)
    decreases parent, 0, |es|
  {
    if es == [] then Some([])
    else
      match (SerializedAll(es[..|es| - 1], parent, cols, exts, extArg), Serialized(es[|es| - 1], cols, exts, extArg))
      case (Some(bs), Some(b)) => Some(bs + b)
      case _ => None
  }

  /** The pass writes the postfix form of the resolved tree, and fails exactly when there is none. */
  lemma {:induction false} SerializedIsEncoded(e: Expr, cols: Layout, exts: Extensions, extArg: bool)
    requires Sound(e) && SoundExtensions(exts)
    ensures Serialized(e, cols, exts, extArg) ==
            match Resolve(e, cols, exts, extArg)
            case None => None
            case Some(t) => Some(Encode(t))
    decreases e, 1
  {
    hide EncodeToken, OwnToken;
    var args := Args(e);
    var tok := OwnToken(e, cols, exts, extArg);
    SerializedAllEncoded(args, e, cols, exts, e.ExtCall?);
    var ts := ResolveAll(args, e, cols, exts, e.ExtCall?);
    if tok.Some? && ts.Some? {
      var t := Resolve(e, cols, exts, extArg).value;
      OwnTokenIsLast(e, cols, exts, extArg);
      assert Operands(t) == ts.value;
      EncodeAllAnyParent(ts.value, t, Witness(ts.value));
    }
  }

  /** A tree above all of ts, to measure them by. */
  function Witness(ts: seq<Tree>): (t: Tree)
    ensures forall a | a in ts :: a < t
  {
    Call([], None, ts)
  }

  lemma OwnTokenIsLast(e: Expr, cols: Layout, exts: Extensions, extArg: bool)
    requires Sound(e) && SoundExtensions(exts) && Resolve(e, cols, exts, extArg).Some?
    ensures LastToken(Resolve(e, cols, exts, extArg).value) == OwnToken(e, cols, exts, extArg).value
    ensures Operands(Resolve(e, cols, exts, extArg).value) == ResolveAll(Args(e), e, cols, exts, e.ExtCall?).value
  {}

  lemma {:induction false} EncodeAllAnyParent(ts: seq<Tree>, p: Tree, q: Tree)
    requires forall a | a in ts :: WellFormed(a) && a < p && a < q
    ensures EncodeAll(ts, p) == EncodeAll(ts, q)
    decreases |ts|
  {
    hide Encode;
    if ts != [] {
      EncodeAllAnyParent(ts[..|ts| - 1], p, q);
    }
  }

  lemma EmptyEncode()
    ensures EncodeAll([], Witness([])) == []
  {}

  lemma EncodeAllSnoc(ts: seq<Tree>, t: Tree)
    requires (forall a | a in ts :: WellFormed(a)) && WellFormed(t)
    ensures EncodeAll(ts + [t], Witness(ts + [t])) == EncodeAll(ts, Witness(ts)) + Encode(t)
  {
    hide Encode;
    var all := ts + [t];
    Seqs.TakeConcat(ts, [t]);
    EncodeAllAnyParent(ts, Witness(ts), Witness(all));
  }

  lemma {:induction false} SerializedAllEncoded(es: seq<Expr>, parent: Expr, cols: Layout, exts: Extensions, extArg: bool)
    requires (forall a | a in es :: Sound(a) && a < parent) && SoundExtensions(exts)
    ensures SerializedAll(es, parent, cols, exts, extArg) ==
            match ResolveAll(es, parent, cols, exts, extArg)
            case None => None
            case Some(ts) => Some(EncodeAll(ts, Witness(ts)))
    decreases parent, 0, |es|
  {
    hide Encode, Resolve, Serialized, EncodeAll, Sound;
    if es == [] {
      EmptyEncode();
    } else {
      var init, last := es[..|es| - 1], es[|es| - 1];
      assert last in es;
      SerializedAllEncoded(init, parent, cols, exts, extArg);
      SerializedIsEncoded(last, cols, exts, extArg);
      var ts, t := ResolveAll(init, parent, cols, exts, extArg), Resolve(last, cols, exts, extArg);
      if ts.Some? && t.Some? {
        EncodeAllSnoc(ts.value, t.value);
      }
    }
  }

  // ---- the growing buffer ------------------------------------------------------------

  /** expr_buf_t: bytes in an array that doubles when it is full. */
  class ExprBuffer {
    var data: array<Byte>
    var size: nat

    ghost predicate Valid()
      reads this
    {
      size <= data.Length && data.Length > 0
    }

    ghost function Contents(): Text
      reads this, data
      requires Valid()
    {
      data[..size]
    }

    constructor ()
      ensures Valid() && fresh(data) && Contents() == []
    {
      data := new Byte[64];
      size := 0;
    }

    /** Make room for extra more bytes; the contents stay. */
    method Ensure(extra: nat)
      requires Valid()
      modifies this
      ensures Valid() && size == old(size) && size + extra <= data.Length
      ensures data == old(data) || fresh(data)
      ensures Contents() == old(Contents())
    {
      var need := size + extra;
      if need <= data.Length {
        return;
      }
      var cap := data.Length;
      while cap < need
        invariant cap >= data.Length > 0
      {
        cap := cap * 2;
      }
      var grown := new Byte[cap];
      forall i | 0 <= i < size {
        grown[i] := data[i];
      }
      assert grown[..size] == data[..size];
      data := grown;
    }

    method PushBytes(bs: Text)
      requires Valid()
      modifies this, data
      ensures Valid() && (data == old(data) || fresh(data))
      ensures Contents() == old(Contents()) + bs
    {
      Ensure(|bs|);
      forall i | 0 <= i < |bs| {
        data[size + i] := bs[i];
      }
      size := size + |bs|;
    }

    /** Little-endian fields of any width, low byte first. */
    method PushLittleEndian(v: nat, width: nat)
      requires Valid()
      modifies this, data
      ensures Valid() && (data == old(data) || fresh(data))
      ensures Contents() == old(Contents()) + LeBytes(v, width)
    {
      Ensure(width);
      var u, i := v, 0;
      ghost var before := Contents();
      while i < width
        invariant 0 <= i <= width && u >= 0 && Valid() && size + (width - i) <= data.Length
        invariant data == old(data) || fresh(data)
        invariant before + LeBytes(v, width) == Contents() + LeBytes(u, width - i)
      {
        ghost var sofar := Contents();
        data[size] := u % 256;
        size := size + 1;
        assert Contents() == sofar + [u % 256];
        assert LeBytes(u, width - i) == [u % 256] + LeBytes(u / 256, width - i - 1);
        u := u / 256;
        i := i + 1;
      }
    }

    method PushText(s: Text)
      requires Valid()
      modifies this, data
      ensures Valid() && (data == old(data) || fresh(data))
      ensures Contents() == old(Contents()) + EncodeText(s)
    {
      hide LeBytes;
      PushLittleEndian(|s|, 2);
      PushBytes(s);
      Seqs.ConcatAssoc(old(Contents()), LeBytes(|s|, 2), s);
    }

    method PushCallFields(argc: nat, abi: Option<(nat, nat)>)
      requires Valid()
      modifies this, data
      ensures Valid() && (data == old(data) || fresh(data))
      ensures Contents() == old(Contents()) + CallFields(argc, abi)
    {
      hide LeBytes;
      PushLittleEndian(argc, 4);
      if abi.Some? {
        PushLittleEndian(abi.value.0, 8);
        PushLittleEndian(abi.value.1, 4);
        Seqs.ConcatAssoc(old(Contents()) , LeBytes(argc, 4), LeBytes(abi.value.0, 8));
        Seqs.ConcatAssoc(old(Contents()), LeBytes(argc, 4) + LeBytes(abi.value.0, 8), LeBytes(abi.value.1, 4));
      }
    }

    method PushPayload(t: Token)
      requires Valid()
      modifies this, data
      ensures Valid() && (data == old(data) || fresh(data))
      ensures Contents() == old(Contents()) + Payload(t)
    {
      hide LeBytes, EncodeText, CallFields;
      match t
      case VarTok(_, name) => PushText(name);
      case StrTok(s) => PushText(s);
      case IntTok(v) => PushLittleEndian(ToLane(v), 8);
      case FloatTok(bits) => PushLittleEndian(bits, 8);
      case BoolTok(b) => PushBytes([if b then 1 else 0]);
      case OpTok(_) =>
      case CallTok(name, argc, abi) =>
        PushText(name);
        PushCallFields(argc, abi);
        Seqs.ConcatAssoc(old(Contents()), EncodeText(name), CallFields(argc, abi));
    }

    method PushToken(t: Token)
      requires Valid() && Encodable(t)
      modifies this, data
      ensures Valid() && (data == old(data) || fresh(data))
      ensures Contents() == old(Contents()) + EncodeToken(t)
    {
      hide Payload;
      PushBytes([TagOf(t)]);
      PushPayload(t);
      Seqs.ConcatAssoc(old(Contents()), [TagOf(t)], Payload(t));
    }

    /** serialize_expr: operands first, then the node's own instruction. */
    method Serialize(e: Expr, cols: Layout, exts: Extensions, extArg: bool) returns (ok: bool)
      requires Valid() && Sound(e) && SoundExtensions(exts)
      modifies this, data
      ensures Valid() && (data == old(data) || fresh(data))
      ensures ok <==> Serialized(e, cols, exts, extArg).Some?
      ensures ok ==> Contents() == old(Contents()) + Serialized(e, cols, exts, extArg).value
      decreases e
    {
      hide EncodeToken, OwnToken, SerializedAll, Serialized, Sound;
      SerializedUnfold(e, cols, exts, extArg);
      var args, tok := Args(e), OwnToken(e, cols, exts, extArg);
      if tok.None? {
        return false;
      }
      var i := 0;
      ghost var done: Text := [];
      while i < |args|
        invariant 0 <= i <= |args| && Valid() && (data == old(data) || fresh(data))
        invariant SerializedAll(args[..i], e, cols, exts, e.ExtCall?) == Some(done)
        invariant Contents() == old(Contents()) + done
      {
        SerializedSnoc(args, i, e, cols, exts);
        ok := Serialize(args[i], cols, exts, e.ExtCall?);
        if !ok {
          PrefixFails(args, i + 1, e, cols, exts);
          return;
        }
        ghost var more := Serialized(args[i], cols, exts, e.ExtCall?).value;
        Seqs.ConcatAssoc(old(Contents()), done, more);
        done := done + more;
        i := i + 1;
      }
      Seqs.TakeAll(args);
      PushToken(tok.value);
      Seqs.ConcatAssoc(old(Contents()), done, EncodeToken(tok.value));
      ok := true;
    }
  }

  lemma SerializedUnfold(e: Expr, cols: Layout, exts: Extensions, extArg: bool)
    requires Sound(e) && SoundExtensions(exts)
    ensures SerializedAll([], e, cols, exts, e.ExtCall?) == Some([])
    ensures Serialized(e, cols, exts, extArg) ==
            match (SerializedAll(Args(e), e, cols, exts, e.ExtCall?), OwnToken(e, cols, exts, extArg))
            case (Some(bs), Some(tok)) => Some(bs + EncodeToken(tok))
            case _ => None
  {}

  lemma SerializedSnoc(es: seq<Expr>, i: nat, parent: Expr, cols: Layout, exts: Extensions)
    requires i < |es| && (forall a | a in es :: Sound(a) && a < parent) && SoundExtensions(exts)
    ensures SerializedAll(es[..i + 1], parent, cols, exts, parent.ExtCall?) ==
            match (SerializedAll(es[..i], parent, cols, exts, parent.ExtCall?), Serialized(es[i], cols, exts, parent.ExtCall?))
            case (Some(bs), Some(b)) => Some(bs + b)
            case _ => None
  {
    Seqs.TakeTake(es, i + 1, i);
  }

  lemma {:induction false} PrefixFails(es: seq<Expr>, i: nat, parent: Expr, cols: Layout, exts: Extensions)
    requires i <= |es| && (forall a | a in es :: Sound(a) && a < parent) && SoundExtensions(exts)
    requires SerializedAll(es[..i], parent, cols, exts, parent.ExtCall?).None?
    ensures SerializedAll(es, parent, cols, exts, parent.ExtCall?).None?
    decreases |es|
  {
    if i == |es| {
      Seqs.TakeAll(es);
    } else {
      Seqs.TakeTake(es, |es| - 1, i);
      PrefixFails(es[..|es| - 1], i, parent, cols, exts);
    }
  }
}
