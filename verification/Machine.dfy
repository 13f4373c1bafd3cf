/**
 * What each operator opcode computes.
 *
 * Every value on the stack is an integer; for a symbol it is the interned id.
 * Code this model does not contain (digests, binary64 arithmetic, libc number
 * formatting, random UUIDs, addon callbacks) is a parameter of the machine, and so
 * is the id assignment of the intern table.
 */
module Machine {
  import opened Bytes
  import opened Expr
  import StringOps

  datatype Machine = Machine(
    put: Text -> int,
    rev: int -> Option<Text>,
    finite: int -> bool,
    float: (Byte, int, int) -> Option<int>,
    digest: (Byte, seq<(bool, Text)>) -> Option<int>,
    uuid5Text: (Text, Text) -> Option<Text>,
    format: int -> Text,
    parse: Text -> Option<int>,
    uuid4: Option<int>,
    call: (Text, Option<(nat, nat)>, seq<int>) -> Option<int>)

  function Checked(v: int): Option<int> { if IsInt64(v) then Some(v) else None }

  function Truth(b: bool): int { if b then 1 else 0 }

  /** C division, which truncates toward zero. */
  function TruncDiv(a: int, b: int): int
    requires b != 0
  {
    if a >= 0 then (if b > 0 then a / b else -(a / -b))
    else if b > 0 then -(-a / b) else -a / -b
  }

  function TruncMod(a: int, b: int): int
    requires b != 0
  {
    a - b * TruncDiv(a, b)
  }

  function Abs(x: int): nat { if x < 0 then -x else x }

  /** Bitwise AND of two's-complement integers. */
  function BitAnd(a: int, b: int): int
    decreases Abs(a) + Abs(b)
  {
    if a == 0 || b == 0 then 0
    else if a == -1 then b
    else if b == -1 then a
    else (a % 2) * (b % 2) + 2 * BitAnd(a / 2, b / 2)
  }

  function BitNot(a: int): int { -1 - a }
  function BitOr(a: int, b: int): int { BitNot(BitAnd(BitNot(a), BitNot(b))) }
  function BitXor(a: int, b: int): int { a + b - 2 * BitAnd(a, b) }

  function Pow2(n: nat): (r: nat)
    ensures r >= 1
  {
    if n == 0 then 1 else 2 * Pow2(n - 1)
  }

  /** strcmp(s, t) < 0 on unsigned bytes. */
  predicate TextLess(s: Text, t: Text) {
    if t == [] then false
    else if s == [] then true
    else if s[0] != t[0] then s[0] < t[0]
    else TextLess(s[1..], t[1..])
  }

  function Arithmetic(tag: Byte, a: int, b: int): Option<int> {
    if tag == 0x10 then Checked(a + b)
    else if tag == 0x11 then Checked(a - b)
    else if tag == 0x12 then Checked(a * b)
    else if tag == 0x13 then (if b == 0 || (a == -TWO63 && b == -1) then None else Some(TruncDiv(a, b)))
    else if tag == 0x14 then (if b == 0 || (a == -TWO63 && b == -1) then None else Some(TruncMod(a, b)))
    else if tag == 0x15 then Some(BitAnd(a, b))
    else if tag == 0x16 then Some(BitOr(a, b))
    else if tag == 0x17 then Some(BitXor(a, b))
    else if tag == 0x18 then (if b < 0 || b >= 64 then None else Some(FromLane(ToLane(a * Pow2(b)))))
    else if b < 0 || b >= 64 then None else Some(a / Pow2(b))
  }

  function Comparison(tag: Byte, a: int, b: int): bool {
    if tag == 0x22 then a == b
    else if tag == 0x23 then a != b
    else if tag == 0x24 then a < b
    else if tag == 0x25 then a > b
    else if tag == 0x26 then a <= b
    else a >= b
  }

  /** String comparison through the intern table; ordering an id that names no string is false. */
  function TextComparison(tag: Byte, a: int, b: int, m: Machine): bool {
    match (m.rev(a), m.rev(b))
    case (Some(s), Some(t)) =>
      if tag == 0x50 then s == t
      else if tag == 0x51 then s != t
      else if tag == 0x52 then TextLess(s, t)
      else if tag == 0x53 then TextLess(t, s)
      else if tag == 0x54 then !TextLess(t, s)
      else !TextLess(s, t)
    case _ => if tag == 0x50 then a == b else if tag == 0x51 then a != b else false
  }

  /** The bytes a digest reads for one operand, and whether they are a symbol's. */
  function DigestOperand(v: int, symbol: bool, m: Machine): (bool, Text) {
    match m.rev(v)
    case Some(s) => if symbol then (true, s) else (false, LeBytes(ToLane(v), 8))
    case None => (false, LeBytes(ToLane(v), 8))
  }

  function UnaryDigest(tag: Byte, a: int, m: Machine): Option<int> {
    if 0x60 <= tag <= 0x66 then m.digest(tag - 0x60 + 0x1B, [DigestOperand(a, true, m)])
    else m.digest(tag, [DigestOperand(a, false, m)])
  }

  /** HMAC and UUIDv5; the symbol forms of UUIDv5 frame their operands (0x6A). */
  function BinaryDigest(tag: Byte, a: int, b: int, m: Machine): Option<int> {
    if tag == 0x28 then m.digest(0x28, [DigestOperand(a, false, m), DigestOperand(b, false, m)])
    else if tag == 0x2A then m.digest(0x2A, [DigestOperand(a, false, m), DigestOperand(b, false, m)])
    else if 0x67 <= tag <= 0x69 then
      m.digest(0x28, [DigestOperand(a, tag != 0x69, m), DigestOperand(b, tag != 0x68, m)])
    else m.digest(0x6A, [DigestOperand(a, tag != 0x6C, m), DigestOperand(b, tag != 0x6B, m)])
  }

  /** Intern the result of a string function; an operand that names no string gives -1. */
  function Interned(r: Option<Text>, m: Machine): int {
    match r
    case Some(s) => m.put(s)
    case None => -1
  }

  function StrUnary(tag: Byte, a: int, m: Machine): Option<int> {
    if tag == 0x4B then Some(m.put(m.format(a)))
    else
      match m.rev(a)
      case None => if tag == 0x4C then Some(0) else Some(-1)
      case Some(s) =>
        if tag == 0x40 then Some(StringOps.Utf8Length(s))
        else if tag == 0x46 then Some(StringOps.Ord(s))
        else if tag == 0x47 then Some(m.put(StringOps.Upper(s)))
        else if tag == 0x48 then Some(m.put(StringOps.Lower(s)))
        else if tag == 0x4A then Some(m.put(StringOps.Trim(s)))
        else m.parse(s)
  }

  function StrBinary(tag: Byte, a: int, b: int, m: Machine): Option<int> {
    match (m.rev(a), m.rev(b))
    case (Some(s), Some(t)) =>
      if tag == 0x41 then Some(m.put(s + t))
      else if tag == 0x43 then Some(Truth(StringOps.Contains(s, t)))
      else if tag == 0x44 then Some(Truth(StringOps.HasPrefix(s, t)))
      else if tag == 0x45 then Some(Truth(StringOps.HasSuffix(s, t)))
      else (match m.uuid5Text(s, t)
            case Some(u) => Some(m.put(u))
            case None => None)
    case _ => if tag == 0x41 then Some(-1) else if tag == 0x4D then None else Some(0)
  }

  function StrTernary(tag: Byte, a: int, b: int, c: int, m: Machine): Option<int> {
    if tag == 0x42 then
      match m.rev(a)
      case None => Some(-1)
      case Some(s) => Some(Interned(StringOps.Substr(s, b, c), m))
    else
      match (m.rev(a), m.rev(b), m.rev(c))
      case (Some(s), Some(o), Some(n)) =>
        // Nothing to replace hands back the operand's own id.
        Some(if o == [] || !StringOps.Contains(s, o) then a else m.put(StringOps.Replaced(s, o, n)))
      case _ => Some(-1)
  }

  /** One operator applied to its operands, leftmost first. None aborts the evaluation. */
  function Apply(tag: Byte, a: seq<int>, m: Machine): Option<int>
    requires IsOpTag(tag) && |a| == Arity(tag)
  {
    if tag == 0x29 then m.uuid4
    else if tag == 0x1A then Some(BitNot(a[0]))
    else if 0x1B <= tag <= 0x21 || 0x60 <= tag <= 0x66 then UnaryDigest(tag, a[0], m)
    else if 0x30 <= tag <= 0x34 then (if tag == 0x34 then None else Some(a[0]))
    else if tag == 0x40 || 0x46 <= tag <= 0x48 || 0x4A <= tag <= 0x4C then StrUnary(tag, a[0], m)
    else if tag == 0x42 || tag == 0x49 then StrTernary(tag, a[0], a[1], a[2], m)
    else if tag <= 0x19 then Arithmetic(tag, a[0], a[1])
    else if 0x22 <= tag <= 0x27 then Some(Truth(Comparison(tag, a[0], a[1])))
    else if tag == 0x28 || tag == 0x2A || 0x67 <= tag <= 0x6C then BinaryDigest(tag, a[0], a[1], m)
    else if 0x41 <= tag <= 0x4D then StrBinary(tag, a[0], a[1], m)
    else if 0x50 <= tag <= 0x55 then Some(Truth(TextComparison(tag, a[0], a[1], m)))
    else m.float(tag, a[0], a[1])
  }

  /** On 0/1 predicates the bitwise AND is the conjunction. */
  lemma BandOfPredicates(p: bool, q: bool, m: Machine)
    ensures Apply(BAND, [Truth(p), Truth(q)], m) == Some(Truth(p && q))
  {
    assert BitAnd(1, 1) == 1 * 1 + 2 * BitAnd(0, 0);
  }
}
