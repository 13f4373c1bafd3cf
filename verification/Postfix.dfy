/**
 * The postfix byte encoding of expressions: serializer, decoder and evaluator.
 *
 * A serialized expression is a run of instructions, each one opcode byte and a
 * payload. The serializer resolves variable names to columns and selects opcodes
 * by operand domain while it walks the tree; Resolve states separately which tree
 * that is, and the main results are that the bytes are exactly the postfix form of
 * that tree, that a decoder gets the tree back, and that running the bytes inside
 * any longer buffer pushes the tree's value and touches nothing else.
 */
module Postfix {
  import opened Bytes
  import opened Expr
  import Seqs
  import opened Machine

  // ---- instructions ----------------------------------------------------------

  datatype Token =
    | VarTok(tag: Byte, name: Text)
    | IntTok(value: int)
    | FloatTok(bits: nat)
    | StrTok(text: Text)
    | BoolTok(truth: bool)
    | OpTok(op: Byte)
    | CallTok(ext: Text, argc: nat, abi: Option<(nat, nat)>)

  predicate IsVarTag(tag: Byte) { tag == VAR || tag == VAR_FLOAT || tag == VAR_STRING }

  /** Instructions whose payload fields are wide enough for their contents. */
  predicate Encodable(t: Token) {
    match t
    case VarTok(tag, name) => IsVarTag(tag) && |name| < 65536
    case IntTok(v) => IsInt64(v)
    case FloatTok(bits) => bits < TWO64
    case StrTok(s) => |s| < 65536
    case BoolTok(_) => true
    case OpTok(op) => IsOpTag(op)
    case CallTok(name, argc, abi) =>
      |name| < 65536 && argc < TWO32
      && (abi.Some? ==> abi.value.0 < TWO64 && abi.value.1 < TWO32)
  }

  function TagOf(t: Token): Byte
    requires Encodable(t)
  {
    match t
    case VarTok(tag, _) => tag
    case IntTok(_) => CONST_INT
    case FloatTok(_) => CONST_FLOAT
    case StrTok(_) => CONST_STR
    case BoolTok(_) => BOOL
    case OpTok(op) => op
    case CallTok(_, _, abi) => if abi.None? then EXT_CALL else EXT_CALL_ABI
  }

  function EncodeText(s: Text): Text { LeBytes(|s|, 2) + s }

  function CallFields(argc: nat, abi: Option<(nat, nat)>): Text {
    match abi
    case None => LeBytes(argc, 4)
    case Some(a) => LeBytes(argc, 4) + LeBytes(a.0, 8) + LeBytes(a.1, 4)
  }

  function Payload(t: Token): Text {
    match t
    case VarTok(_, name) => EncodeText(name)
    case IntTok(v) => LeBytes(ToLane(v), 8)
    case FloatTok(bits) => LeBytes(bits, 8)
    case StrTok(s) => EncodeText(s)
    case BoolTok(b) => [if b then 1 else 0]
    case OpTok(_) => []
    case CallTok(name, argc, abi) => EncodeText(name) + CallFields(argc, abi)
  }

  /** One instruction: opcode byte, then payload. */
  function EncodeToken(t: Token): (bs: Text)
    requires Encodable(t)
    ensures |bs| >= 1
  {
    [TagOf(t)] + Payload(t)
  }

  /** A length-prefixed string at the head of bs. */
  function DecodeText(bs: Text): (r: Option<Text>)
    ensures r.Some? ==> 2 + |r.value| <= |bs|
  {
    if |bs| < 2 then None
    else
      var n := LeValue(bs[..2]);
      if 2 + n > |bs| then None else Some(bs[2..2 + n])
  }

  function DecodeNamed(tag: Byte, rest: Text): (r: Option<(Token, nat)>)
    ensures r.Some? ==> 1 <= r.value.1 <= 1 + |rest|
  {
    match DecodeText(rest)
    case None => None
    case Some(s) => Some((if tag == CONST_STR then StrTok(s) else VarTok(tag, s), 3 + |s|))
  }

  function DecodeWord(tag: Byte, rest: Text): (r: Option<(Token, nat)>)
    ensures r.Some? ==> 1 <= r.value.1 <= 1 + |rest|
  {
    if |rest| < 8 then None
    else
      var u := LeLane(rest[..8]);
      Some((if tag == CONST_INT then IntTok(FromLane(u)) else FloatTok(u), 9))
  }

  function DecodeCall(tag: Byte, rest: Text): (r: Option<(Token, nat)>)
    ensures r.Some? ==> 1 <= r.value.1 <= 1 + |rest|
  {
    match DecodeText(rest)
    case None => None
    case Some(s) => DecodeCallFields(tag, s, rest[2 + |s|..])
  }

  /** Argument count, then identity and version for a versioned call. */
  function DecodeCallFields(tag: Byte, s: Text, at: Text): (r: Option<(Token, nat)>)
    ensures r.Some? ==> 1 <= r.value.1 <= 3 + |s| + |at|
  {
    if tag == EXT_CALL then
      if |at| < 4 then None else Some((CallTok(s, LeValue(at[..4]), None), 7 + |s|))
    else if |at| < 16 then None
    else Some((CallTok(s, LeValue(at[..4]), Some((LeValue(at[4..12]), LeValue(at[12..16])))), 19 + |s|))
  }

  function DecodePayload(tag: Byte, rest: Text): (r: Option<(Token, nat)>)
    ensures r.Some? ==> 1 <= r.value.1 <= 1 + |rest|
  {
    if IsVarTag(tag) || tag == CONST_STR then DecodeNamed(tag, rest)
    else if tag == CONST_INT || tag == CONST_FLOAT then DecodeWord(tag, rest)
    else if tag == BOOL then
      if |rest| < 1 then None else Some((BoolTok(rest[0] != 0), 2))
    else if tag == EXT_CALL || tag == EXT_CALL_ABI then DecodeCall(tag, rest)
    else if IsOpTag(tag) then Some((OpTok(tag), 1))
    else None
  }

  /** The instruction at the head of bs and its length in bytes. */
  function DecodeToken(bs: Text): (r: Option<(Token, nat)>)
    requires bs != []
    ensures r.Some? ==> 1 <= r.value.1 <= |bs|
  {
    DecodePayload(bs[0], bs[1..])
  }

  /** LeValue of eight bytes, with its bound. */
  function LeLane(bs: Text): (u: nat)
    requires |bs| == 8
    ensures u == LeValue(bs) && u < TWO64
  {
    LeValueBound(bs);
    Pow256Values();
    LeValue(bs)
  }

  lemma DecodeTextOf(s: Text, rest: Text)
    requires |s| < 65536
    ensures DecodeText(EncodeText(s) + rest) == Some(s)
    ensures |EncodeText(s)| == 2 + |s| && (EncodeText(s) + rest)[2 + |s|..] == rest
  {
    Pow256Values();
    LeRoundTrip(|s|, 2);
    hide LeBytes, LeValue;
    var len := LeBytes(|s|, 2);
    var bs := len + s + rest;
    assert bs[..2] == len;
    assert bs[2..2 + |s|] == s;
  }

  /** Fixed-width fields at the head of a buffer read back. */
  lemma DecodeFieldOf(u: nat, n: nat, rest: Text)
    requires u < Pow256(n)
    ensures |LeBytes(u, n) + rest| >= n && LeValue((LeBytes(u, n) + rest)[..n]) == u
  {
    LeRoundTrip(u, n);
    hide LeBytes, LeValue;
    Seqs.TakeConcat(LeBytes(u, n), rest);
  }

  lemma DecodeAbiOf(argc: Text, id: Text, version: Text, rest: Text)
    requires |argc| == 4 && |id| == 8 && |version| == 4
    ensures var at := argc + id + version + rest;
            at[..4] == argc && at[4..12] == id && at[12..16] == version
  {}

  lemma DecodeFieldsOf(t: Token, rest: Text)
    requires t.CallTok? && Encodable(t)
    ensures DecodeCallFields(TagOf(t), t.ext, CallFields(t.argc, t.abi) + rest) == Some((t, |EncodeToken(t)|))
  {
    Pow256Values();
    LeRoundTrip(t.argc, 4);
    DecodeTextOf(t.ext, []);
    if t.abi.None? {
      DecodeFieldOf(t.argc, 4, rest);
      hide LeBytes, LeValue, EncodeText;
    } else {
      LeRoundTrip(t.abi.value.0, 8);
      LeRoundTrip(t.abi.value.1, 4);
      hide LeBytes, LeValue, EncodeText;
      DecodeAbiOf(LeBytes(t.argc, 4), LeBytes(t.abi.value.0, 8), LeBytes(t.abi.value.1, 4), rest);
    }
  }

  lemma DecodePayloadOf(t: Token, rest: Text)
    requires Encodable(t)
    ensures DecodePayload(TagOf(t), Payload(t) + rest) == Some((t, |EncodeToken(t)|))
  {
    hide LeBytes, LeValue, DecodeText, EncodeText, CallFields, DecodeCallFields;
    Pow256Values();
    match t
    case VarTok(tag, name) =>
      DecodeTextOf(name, rest);
    case StrTok(s) =>
      DecodeTextOf(s, rest);
    case IntTok(v) =>
      DecodeFieldOf(ToLane(v), 8, rest);
      Int64RoundTrip(v);
    case FloatTok(bits) =>
      DecodeFieldOf(bits, 8, rest);
    case BoolTok(_) =>
    case OpTok(_) =>
    case CallTok(name, argc, abi) =>
      var at := CallFields(argc, abi) + rest;
      Seqs.ConcatAssoc(EncodeText(name), CallFields(argc, abi), rest);
      DecodeTextOf(name, at);
      DecodeFieldsOf(t, rest);
  }

  /** Decoding an encoded instruction gives it back and stops at its last byte. */
  lemma DecodeEncode(t: Token, rest: Text)
    requires Encodable(t)
    ensures DecodeToken(EncodeToken(t) + rest) == Some((t, |EncodeToken(t)|))
  {
    hide Payload, DecodePayload;
    Seqs.ConcatAssoc([TagOf(t)], Payload(t), rest);
    Seqs.TakeConcat([TagOf(t)], Payload(t) + rest);
    DecodePayloadOf(t, rest);
  }

  // ---- resolved trees ----------------------------------------------------------

  /** An expression whose names are columns and whose operators are opcodes. */
  datatype Tree =
    | Leaf(tok: Token)
    | Node(tag: Byte, args: seq<Tree>)
    | Call(ext: Text, abi: Option<(nat, nat)>, args: seq<Tree>)

  predicate WellFormed(t: Tree) {
    match t
    case Leaf(tok) => Encodable(tok) && !tok.OpTok? && !tok.CallTok?
    case Node(tag, args) => IsOpTag(tag) && |args| == Arity(tag) && forall a | a in args :: WellFormed(a)
    case Call(name, abi, args) => Encodable(CallTok(name, |args|, abi)) && forall a | a in args :: WellFormed(a)
  }

  /** The instruction that follows the operands of a tree. */
  function LastToken(t: Tree): (k: Token)
    requires WellFormed(t)
    ensures Encodable(k)
  {
    match t
    case Leaf(tok) => tok
    case Node(tag, _) => OpTok(tag)
    case Call(name, abi, args) => CallTok(name, |args|, abi)
  }

  function Operands(t: Tree): (args: seq<Tree>)
    ensures forall a | a in args :: a < t
    ensures WellFormed(t) ==> forall a | a in args :: WellFormed(a)
  {
    match t
    case Leaf(_) => []
    case Node(_, args) => args
    case Call(_, _, args) => args
  }

  /** Operands first, left to right, then the operator. */
  function Encode(t: Tree): Text
    requires WellFormed(t)
    decreases t, 1
  {
    EncodeAll(Operands(t), t) + EncodeToken(LastToken(t))
  }

  function EncodeAll(ts: seq<Tree>, ghost parent: Tree): Text
    requires forall a | a in ts :: WellFormed(a) && a < parent
    decreases parent, 0, |ts|
  {
    if ts == [] then []
    else EncodeAll(ts[..|ts| - 1], parent) + Encode(ts[|ts| - 1])
  }

  // ---- running the bytes -------------------------------------------------------

  type Row = seq<int>

  /** The column a variable instruction reads: N for "colN" (15 digits at most), else 0. */
  function VarColumn(name: Text): nat {
    if |name| > 3 && name[..3] == COL then LeadingNumber(name[3..if |name| > 18 then 18 else |name|]) else 0
  }

  /** strtol on a run of bytes: the digits it starts with. */
  function LeadingNumber(s: Text): nat {
    LeadingDigits(s, 0)
  }

  function LeadingDigits(s: Text, acc: nat): nat {
    if s == [] || !IsDigit(s[0]) then acc else LeadingDigits(s[1..], 10 * acc + s[0] - 48)
  }

  /** What a variable instruction pushes when it reads column value v (None: no such column). */
  function VarValue(tag: Byte, v: Option<int>, m: Machine): Option<int> {
    if tag == VAR then Some(if v.Some? then v.value else 0)
    else if v.None? then None
    else if tag == VAR_FLOAT then (if m.finite(v.value) then v else None)
    else if m.rev(v.value).Some? then v else None
  }

  function CellAt(row: Row, c: nat): Option<int> {
    if c < |row| then Some(row[c]) else None
  }

  /** The value pushed by an operand instruction. */
  function LeafValue(tok: Token, m: Machine, row: Row): Option<int>
    requires Encodable(tok) && !tok.OpTok? && !tok.CallTok?
  {
    match tok
    case VarTok(tag, name) => VarValue(tag, CellAt(row, VarColumn(name)), m)
    case IntTok(v) => Some(v)
    case FloatTok(bits) => if m.finite(FromLane(bits)) then Some(FromLane(bits)) else None
    case StrTok(s) => Some(m.put(s))
    case BoolTok(b) => Some(Truth(b))
  }

  /** The top n values, leftmost first; popping an empty stack yields 0. */
  function Popped(stack: seq<int>, n: nat): (a: seq<int>)
    ensures |a| == n
  {
    if n <= |stack| then stack[|stack| - n..] else seq(n - |stack|, _ => 0) + stack
  }

  function Left(stack: seq<int>, n: nat): seq<int> {
    if n <= |stack| then stack[..|stack| - n] else []
  }

  function Pushed(stack: seq<int>, v: Option<int>): Option<seq<int>> {
    if v.Some? then Some(stack + [v.value]) else None
  }

  function Step(tok: Token, m: Machine, row: Row, stack: seq<int>): Option<seq<int>>
    requires Encodable(tok)
  {
    match tok
    case OpTok(op) => Pushed(Left(stack, Arity(op)), Apply(op, Popped(stack, Arity(op)), m))
    case CallTok(name, argc, abi) =>
      if argc > |stack| then None
      else Pushed(Left(stack, argc), m.call(name, abi, Popped(stack, argc)))
    case _ => Pushed(stack, LeafValue(tok, m, row))
  }

  lemma DecodedEncodable(bs: Text)
    requires bs != [] && DecodeToken(bs).Some?
    ensures Encodable(DecodeToken(bs).value.0)
  {
    var rest := bs[1..];
    Pow256Values();
    var s := DecodeText(rest);
    if s.Some? {
      LeValueBound(rest[..2]);
      var at := rest[2 + |s.value|..];
      if |at| >= 4 { LeValueBound(at[..4]); }
      if |at| >= 16 { LeValueBound(at[4..12]); LeValueBound(at[12..16]); }
    }
  }

  /** Walk the buffer left to right, starting from the given stack. */
  function Run(bs: Text, m: Machine, row: Row, stack: seq<int>): Option<seq<int>>
    decreases |bs|
  {
    if bs == [] then Some(stack)
    else
      match DecodeToken(bs)
      case None => None
      case Some((tok, n)) =>
        DecodedEncodable(bs);
        match Step(tok, m, row, stack)
        case None => None
        case Some(st) => Run(bs[n..], m, row, st)
  }

  /** The value of a whole buffer: the top of the stack, 0 for an empty buffer. */
  function Eval(bs: Text, m: Machine, row: Row): Option<int> {
    match Run(bs, m, row, [])
    case None => None
    case Some(st) => Some(if st == [] then 0 else st[|st| - 1])
  }

  // ---- the bytes compute the value of the tree ---------------------------------

  /** The value of a resolved tree, by structure. */
  function Value(t: Tree, m: Machine, row: Row): Option<int>
    requires WellFormed(t)
    decreases t, 1
  {
    match t
    case Leaf(tok) => LeafValue(tok, m, row)
    case Node(tag, args) =>
      (match ValueAll(args, t, m, row)
       case None => None
       case Some(vs) => Apply(tag, vs, m))
    case Call(name, abi, args) =>
      (match ValueAll(args, t, m, row)
       case None => None
       case Some(vs) => m.call(name, abi, vs))
  }

  function ValueAll(ts: seq<Tree>, ghost parent: Tree, m: Machine, row: Row): (r: Option<seq<int>>)
    requires forall a | a in ts :: WellFormed(a) && a < parent
    ensures r.Some? ==> |r.value| == |ts|
    decreases parent, 0, |ts|
  {
    if ts == [] then Some([])
    else
      match (ValueAll(ts[..|ts| - 1], parent, m, row), Value(ts[|ts| - 1], m, row))
      case (Some(vs), Some(v)) => Some(vs + [v])
      case _ => None
  }

  /** Running one instruction is one step, whatever follows it. */
  lemma RunToken(tok: Token, rest: Text, m: Machine, row: Row, stack: seq<int>)
    requires Encodable(tok)
    ensures Run(EncodeToken(tok) + rest, m, row, stack) ==
            match Step(tok, m, row, stack)
            case None => None
            case Some(st) => Run(rest, m, row, st)
  {
    hide EncodeToken, DecodeToken, Step;
    var bs := EncodeToken(tok) + rest;
    DecodeEncode(tok, rest);
    Seqs.TakeConcat(EncodeToken(tok), rest);
    assert bs != [];
  }

  function After(rest: Text, m: Machine, row: Row, stack: seq<int>, v: Option<int>): Option<seq<int>> {
    match v
    case None => None
    case Some(x) => Run(rest, m, row, stack + [x])
  }

  function AfterAll(rest: Text, m: Machine, row: Row, stack: seq<int>, vs: Option<seq<int>>): Option<seq<int>> {
    match vs
    case None => None
    case Some(xs) => Run(rest, m, row, stack + xs)
  }

  /** The last instruction of a tree, run once its operands' values are on the stack. */
  lemma RunLast(t: Tree, vs: seq<int>, rest: Text, m: Machine, row: Row, stack: seq<int>)
    requires WellFormed(t) && ValueAll(Operands(t), t, m, row) == Some(vs)
    ensures Run(EncodeToken(LastToken(t)) + rest, m, row, stack + vs) == After(rest, m, row, stack, Value(t, m, row))
  {
    hide Run, EncodeToken, Apply;
    RunToken(LastToken(t), rest, m, row, stack + vs);
    Seqs.TakeConcat(stack, vs);
    assert !t.Leaf? ==> Popped(stack + vs, |vs|) == vs && Left(stack + vs, |vs|) == stack;
    assert t.Leaf? ==> stack + vs == stack;
  }

  /**
   * Compiler correctness: inside any buffer and over any stack, the bytes of a tree
   * are consumed exactly and push exactly the tree's value, or fail when it fails.
   */
  lemma {:induction false} RunTree(t: Tree, rest: Text, m: Machine, row: Row, stack: seq<int>)
    requires WellFormed(t)
    ensures Run(Encode(t) + rest, m, row, stack) == After(rest, m, row, stack, Value(t, m, row))
    decreases t, 1
  {
    hide Run, EncodeToken, EncodeAll, ValueAll;
    var ops, last := EncodeAll(Operands(t), t), EncodeToken(LastToken(t));
    Seqs.ConcatAssoc(ops, last, rest);
    RunTrees(Operands(t), t, last + rest, m, row, stack);
    var vs := ValueAll(Operands(t), t, m, row);
    if vs.Some? {
      RunLast(t, vs.value, rest, m, row, stack);
    } else {
      NoOperands(t, m, row);
    }
  }

  lemma NoOperands(t: Tree, m: Machine, row: Row)
    requires WellFormed(t) && ValueAll(Operands(t), t, m, row).None?
    ensures Value(t, m, row).None?
  {}

  lemma {:induction false} RunTrees(ts: seq<Tree>, parent: Tree, rest: Text, m: Machine, row: Row, stack: seq<int>)
    requires forall a | a in ts :: WellFormed(a) && a < parent
    ensures Run(EncodeAll(ts, parent) + rest, m, row, stack)
         == AfterAll(rest, m, row, stack, ValueAll(ts, parent, m, row))
    decreases parent, 0, |ts|
  {
    hide Run, Encode, Value;
    if ts == [] {
      assert [] + rest == rest && stack + [] == stack;
    } else {
      var init, last := ts[..|ts| - 1], ts[|ts| - 1];
      Seqs.ConcatAssoc(EncodeAll(init, parent), Encode(last), rest);
      RunTrees(init, parent, Encode(last) + rest, m, row, stack);
      var vs := ValueAll(init, parent, m, row);
      if vs.Some? {
        RunTree(last, rest, m, row, stack + vs.value);
        var v := Value(last, m, row);
        if v.Some? {
          Seqs.ConcatAssoc(stack, vs.value, [v.value]);
        }
      }
    }
  }

  /** A whole buffer holding one expression evaluates to that expression's value. */
  lemma EvalTree(t: Tree, m: Machine, row: Row)
    requires WellFormed(t)
    ensures Eval(Encode(t), m, row) == Value(t, m, row)
  {
    hide Encode, Value;
    RunTree(t, [], m, row, []);
    Seqs.TakeAll(Encode(t));
    assert Encode(t) + [] == Encode(t);
  }

  // ---- the bytes determine the tree ----------------------------------------------

  /** Decoder: rebuild trees from the instructions, over a stack of trees. */
  function Rebuild(bs: Text, stack: seq<Tree>): Option<seq<Tree>>
    decreases |bs|
  {
    if bs == [] then Some(stack)
    else
      match DecodeToken(bs)
      case None => None
      case Some((tok, n)) =>
        DecodedEncodable(bs);
        match Grow(tok, stack)
        case None => None
        case Some(st) => Rebuild(bs[n..], st)
  }

  function Grow(tok: Token, stack: seq<Tree>): Option<seq<Tree>>
    requires Encodable(tok)
  {
    var n := if tok.OpTok? then Arity(tok.op) else if tok.CallTok? then tok.argc else 0;
    if n > |stack| then None
    else
      var args := stack[|stack| - n..];
      var t := if tok.OpTok? then Node(tok.op, args)
               else if tok.CallTok? then Call(tok.ext, tok.abi, args) else Leaf(tok);
      Some(stack[..|stack| - n] + [t])
  }

  lemma RebuildLast(t: Tree, rest: Text, stack: seq<Tree>)
    requires WellFormed(t)
    ensures Rebuild(EncodeToken(LastToken(t)) + rest, stack + Operands(t)) == Rebuild(rest, stack + [t])
  {
    hide EncodeToken, DecodeToken;
    var tok := LastToken(t);
    DecodeEncode(tok, rest);
    Seqs.TakeConcat(EncodeToken(tok), rest);
    Seqs.TakeConcat(stack, Operands(t));
    assert Grow(tok, stack + Operands(t)) == Some(stack + [t]);
  }

  /** Decoding the bytes of a tree inside any buffer gives back that tree. */
  lemma {:induction false} RebuildTree(t: Tree, rest: Text, stack: seq<Tree>)
    requires WellFormed(t)
    ensures Rebuild(Encode(t) + rest, stack) == Rebuild(rest, stack + [t])
    decreases t, 1
  {
    hide Rebuild, EncodeToken, EncodeAll;
    var ops, last := EncodeAll(Operands(t), t), EncodeToken(LastToken(t));
    Seqs.ConcatAssoc(ops, last, rest);
    RebuildTrees(Operands(t), t, last + rest, stack);
    RebuildLast(t, rest, stack);
  }

  lemma {:induction false} RebuildTrees(ts: seq<Tree>, parent: Tree, rest: Text, stack: seq<Tree>)
    requires forall a | a in ts :: WellFormed(a) && a < parent
    ensures Rebuild(EncodeAll(ts, parent) + rest, stack) == Rebuild(rest, stack + ts)
    decreases parent, 0, |ts|
  {
    hide Rebuild, Encode;
    if ts == [] {
      assert [] + rest == rest && stack + [] == stack;
    } else {
      var init, last := ts[..|ts| - 1], ts[|ts| - 1];
      Seqs.ConcatAssoc(EncodeAll(init, parent), Encode(last), rest);
      RebuildTrees(init, parent, Encode(last) + rest, stack);
      RebuildTree(last, rest, stack + init);
      assert stack + init + [last] == stack + ts;
    }
  }

  /** Round trip: the decoder gives back exactly the tree that was encoded. */
  lemma DecodeTree(t: Tree)
    requires WellFormed(t)
    ensures Rebuild(Encode(t), []) == Some([t])
  {
    hide Encode;
    RebuildTree(t, [], []);
    assert Encode(t) + [] == Encode(t);
    assert [] + [t] == [t];
  }

  lemma EncodeInjective(t: Tree, u: Tree)
    requires WellFormed(t) && WellFormed(u) && Encode(t) == Encode(u)
    ensures t == u
  {
    hide Encode, Rebuild;
    DecodeTree(t);
    DecodeTree(u);
    assert [t][0] == [u][0];
  }
}
