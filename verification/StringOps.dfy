/**
 * The UTF-8 walk, slicing and replacement of wirelog/string_ops.c.
 *
 * A string is the Text before its NUL, so it holds no zero byte; reading at its
 * end yields the NUL. Nothing here assumes the bytes are well-formed UTF-8.
 */
module StringOps {
  import opened Bytes
  import Seqs

  /** The byte a C pointer sees at offset i: the string's own, or the NUL. */
  function At(s: Text, i: nat): Byte {
    if i < |s| then s[i] else 0
  }

  predicate IsContinuation(b: Byte) { 0x80 <= b < 0xC0 }

  /** Length announced by a leading byte; an invalid one stands alone. */
  function LeadLength(c: Byte): (n: nat)
    ensures 1 <= n <= 4
  {
    if 0xC0 <= c < 0xE0 then 2
    else if 0xE0 <= c < 0xF0 then 3
    else if 0xF0 <= c < 0xF8 then 4
    else 1
  }

  predicate ValidLead(c: Byte) { c < 0x80 || 0xC0 <= c < 0xF8 }

  /** How many of the bytes 1..n-1 really continue the sequence, counted from i. */
  function ContinuationRun(s: Text, i: nat, n: nat): (r: nat)
    requires 1 <= i <= n && i <= |s|
    ensures i <= r <= n && r <= |s|
    decreases n - i
  {
    if i == n || !IsContinuation(At(s, i)) then i else ContinuationRun(s, i + 1, n)
  }

  /** Bytes taken by one step of the walk at the head of s. */
  function StepLength(s: Text): (r: nat)
    requires s != []
    ensures 1 <= r <= |s| && r <= 4
  {
    ContinuationRun(s, 1, LeadLength(s[0]))
  }

  /** Payload bits of a leading byte. */
  function LeadBits(c: Byte): nat {
    if c < 0x80 then c
    else if c < 0xE0 then c % 0x20
    else if c < 0xF0 then c % 0x10
    else c % 0x08
  }

  /** The bits of s[..n] read as one sequence: lead bits, then six per continuation byte. */
  function Compose(s: Text, n: nat): nat
    requires 1 <= n <= |s|
  {
    if n == 1 then LeadBits(s[0]) else 64 * Compose(s, n - 1) + s[n - 1] % 64
  }

  /** The code point at the head of s, or -1 when the sequence is malformed. */
  function CodePoint(s: Text): int
    requires s != []
  {
    if ValidLead(s[0]) && StepLength(s) == LeadLength(s[0])
    then Compose(s, StepLength(s)) else -1
  }

  /** string_ops_utf8_strlen: the number of steps that walk the whole string. */
  function Utf8Length(s: Text): nat {
    if s == [] then 0 else 1 + Utf8Length(s[StepLength(s)..])
  }

  /** Byte length of the first n code points of s, or of all of s when it has fewer. */
  function WalkLength(s: Text, n: nat): (r: nat)
    ensures r <= |s|
    decreases n
  {
    if n == 0 || s == [] then 0
    else StepLength(s) + WalkLength(s[StepLength(s)..], n - 1)
  }

  /** string_ops_substr on bytes: None is the C result -1. */
  function Substr(s: Text, start: int, len: int): Option<Text> {
    if start < 0 || len < 0 || start > Utf8Length(s) then None
    else
      var t := s[WalkLength(s, start)..];
      Some(t[..WalkLength(t, len)])
  }

  // ---- the walk does not look past the piece it is on ----------------------

  lemma {:induction false} ContinuationRunCut(s: Text, q: nat, i: nat, n: nat)
    requires 1 <= i <= n && i <= |s|
    requires ContinuationRun(s, i, n) <= q <= |s|
    ensures ContinuationRun(s[..q], i, n) == ContinuationRun(s, i, n)
    decreases n - i
  {
    if i != n && IsContinuation(At(s, i)) {
      ContinuationRunCut(s, q, i + 1, n);
    }
  }

  /** Cutting the string anywhere at or after the end of a step leaves the step unchanged. */
  lemma StepCut(s: Text, q: nat)
    requires s != [] && StepLength(s) <= q <= |s|
    ensures StepLength(s[..q]) == StepLength(s)
  {
    ContinuationRunCut(s, q, 1, LeadLength(s[0]));
  }

  /** A prefix of n code points has min(n, strlen) of them, malformed bytes included. */
  lemma {:induction false} WalkKeepsLength(s: Text, n: nat)
    ensures Utf8Length(s[..WalkLength(s, n)]) == (if n < Utf8Length(s) then n else Utf8Length(s))
    ensures Utf8Length(s[WalkLength(s, n)..]) == (if n < Utf8Length(s) then Utf8Length(s) - n else 0)
    decreases n
  {
    hide StepLength;
    if n == 0 || s == [] {
      Seqs.TakeAll(s);
    } else {
      var k, w := StepLength(s), WalkLength(s, n);
      StepCut(s, w);
      Seqs.TakeDrop(s, w, k);
      Seqs.DropDrop(s, k, w - k);
      WalkKeepsLength(s[k..], n - 1);
    }
  }

  lemma WalkStep(s: Text, n: nat)
    ensures n == 0 || s == [] ==> WalkLength(s, n) == 0
    ensures n > 0 && s != [] ==>
      WalkLength(s, n) == StepLength(s) + WalkLength(s[StepLength(s)..], n - 1)
  {}

  /** Walking a code points and then n more is walking a + n of them. */
  lemma {:induction false} WalkAdds(s: Text, a: nat, n: nat)
    ensures WalkLength(s, a + n) == WalkLength(s, a) + WalkLength(s[WalkLength(s, a)..], n)
    decreases a
  {
    hide StepLength, WalkLength;
    WalkStep(s, a);
    if a == 0 || s == [] {
      Seqs.TakeAll(s);
      WalkStep(s, n);
      WalkStep(s, a + n);
    } else {
      var k := StepLength(s);
      WalkStep(s, a + n);
      Seqs.DropDrop(s, k, WalkLength(s[k..], a - 1));
      WalkAdds(s[k..], a - 1, n);
      assert a - 1 + n == a + n - 1;
    }
  }

  /** Enough steps reach the end of the string. */
  lemma {:induction false} WalkReachesEnd(s: Text, n: nat)
    requires n >= Utf8Length(s)
    ensures WalkLength(s, n) == |s|
    decreases n
  {
    hide StepLength;
    if s != [] {
      WalkReachesEnd(s[StepLength(s)..], n - 1);
    }
  }

  /** Inside a prefix of n code points the walk goes as it does in the whole string. */
  lemma {:induction false} WalkOfPrefix(s: Text, n: nat, b: nat)
    requires b <= n
    ensures WalkLength(s, b) <= WalkLength(s, n)
    ensures WalkLength(s[..WalkLength(s, n)], b) == WalkLength(s, b)
    decreases b
  {
    hide StepLength;
    var w := WalkLength(s, n);
    if b > 0 && s != [] {
      var k := StepLength(s);
      assert w == k + WalkLength(s[k..], n - 1);
      StepCut(s, w);
      Seqs.TakeDrop(s, w, k);
      WalkOfPrefix(s[k..], n - 1, b - 1);
      assert WalkLength(s[..w], b) == k + WalkLength(s[..w][k..], b - 1);
    }
  }

  /** strlen(substr(s, a, n)) = min(n, strlen(s) - a), for every byte string. */
  lemma SubstrLength(s: Text, a: nat, n: nat)
    requires a <= Utf8Length(s)
    ensures Substr(s, a, n).Some?
    ensures Utf8Length(Substr(s, a, n).value) ==
            if n < Utf8Length(s) - a then n else Utf8Length(s) - a
  {
    hide StepLength, Utf8Length, WalkLength;
    WalkKeepsLength(s, a);
    WalkKeepsLength(s[WalkLength(s, a)..], n);
  }

  /** Splitting a string at any code point and joining the halves restores it. */
  lemma SubstrSplit(s: Text, k: nat, rest: nat)
    requires k <= Utf8Length(s) && rest >= Utf8Length(s) - k
    ensures Substr(s, 0, k).Some? && Substr(s, k, rest).Some?
    ensures Substr(s, 0, k).value + Substr(s, k, rest).value == s
  {
    hide StepLength, Utf8Length;
    var w := WalkLength(s, k);
    assert WalkLength(s, 0) == 0;
    Seqs.TakeAll(s);
    WalkKeepsLength(s, k);
    WalkReachesEnd(s[w..], rest);
    Seqs.TakeAll(s[w..]);
    Seqs.Split(s, w);
  }

  /** A slice of a slice is one slice of the original. */
  lemma SubstrOfSubstr(s: Text, a: nat, n: nat, b: nat, m: nat)
    requires a + b <= Utf8Length(s) && b + m <= n
    ensures Substr(s, a, n).Some?
    ensures Substr(Substr(s, a, n).value, b, m) == Substr(s, a + b, m)
  {
    hide StepLength, Utf8Length, WalkLength;
    SubstrLength(s, a, n);
    var t := s[WalkLength(s, a)..];
    var w := WalkLength(t, n);
    var u := t[..w];
    WalkOfPrefix(t, n, b);
    WalkOfPrefix(t, n, b + m);
    WalkAdds(t, b, m);
    WalkAdds(u, b, m);
    WalkAdds(s, a, b);
    var wb, wm := WalkLength(t, b), WalkLength(t, b + m);
    Seqs.DropDrop(s, WalkLength(s, a), wb);
    Seqs.TakeDrop(t, w, wb);
    Seqs.TakeTake(t[wb..], w - wb, wm - wb);
  }

  // ---- the loops -----------------------------------------------------------

  /** Decode one code point at offset p; the cursor always moves and never passes the end. */
  method Utf8Next(s: Text, p: nat) returns (next: nat, codePoint: int)
    requires p < |s|
    ensures next == p + StepLength(s[p..])
    ensures p < next <= |s|
    ensures codePoint == CodePoint(s[p..])
  {
    ghost var t := s[p..];
    var c := s[p];
    var len := LeadLength(c);
    if !ValidLead(c) {
      return p + 1, -1;
    }
    codePoint := LeadBits(c);
    var i := 1;
    while i < len
      invariant 1 <= i <= len && i <= |t|
      invariant codePoint == Compose(t, i)
      invariant StepLength(t) == ContinuationRun(t, i, len)
    {
      var b := At(s, p + i);
      assert b == At(t, i);
      if !IsContinuation(b) {
        return p + i, -1;
      }
      codePoint := codePoint * 64 + b % 64;
      i := i + 1;
    }
    next := p + len;
  }

  method Utf8Strlen(s: Text) returns (count: nat)
    ensures count == Utf8Length(s)
  {
    count := 0;
    var p := 0;
    while p < |s|
      invariant p <= |s|
      invariant count + Utf8Length(s[p..]) == Utf8Length(s)
      decreases |s| - p
    {
      var next, _ := Utf8Next(s, p);
      assert s[p..][next - p..] == s[next..];
      p := next;
      count := count + 1;
    }
  }

  /** Byte offset of code point index, None when the string has fewer code points. */
  method Utf8ByteOffset(s: Text, index: int) returns (offset: Option<nat>)
    ensures offset.Some? <==> 0 <= index <= Utf8Length(s)
    ensures offset.Some? ==> offset.value == WalkLength(s, index)
  {
    if index < 0 {
      return None;
    }
    var p, i := 0, 0;
    while p < |s| && i < index
      invariant p <= |s| && 0 <= i <= index
      invariant i + Utf8Length(s[p..]) == Utf8Length(s)
      invariant WalkLength(s, index) == p + WalkLength(s[p..], index - i)
      decreases |s| - p
    {
      var next, _ := Utf8Next(s, p);
      assert s[p..][next - p..] == s[next..];
      p := next;
      i := i + 1;
    }
    if i < index {
      return None;
    }
    offset := Some(p);
  }

  method SubstrBytes(s: Text, start: int, len: int) returns (r: Option<Text>)
    ensures r == Substr(s, start, len)
  {
    hide StepLength, Utf8Length;
    if start < 0 || len < 0 {
      return None;
    }
    var byteStart := Utf8ByteOffset(s, start);
    if byteStart.None? {
      return None;
    }
    var from := byteStart.value;
    var p, i := from, 0;
    while p < |s| && i < len
      invariant from <= p <= |s| && 0 <= i <= len
      invariant WalkLength(s[from..], len) == p - from + WalkLength(s[p..], len - i)
      decreases |s| - p
    {
      var next, _ := Utf8Next(s, p);
      assert s[p..][next - p..] == s[next..];
      p := next;
      i := i + 1;
    }
    assert s[from..][..p - from] == s[from..p];
    r := Some(s[from..p]);
  }

  // ---- searching and replacing ---------------------------------------------

  predicate MatchAt(s: Text, pat: Text, i: nat) {
    i + |pat| <= |s| && s[i..i + |pat|] == pat
  }

  /** strstr from offset p: the first match at or after p. */
  function Find(s: Text, pat: Text, p: nat): (r: Option<nat>)
    requires p <= |s|
    ensures r.Some? ==> p <= r.value && MatchAt(s, pat, r.value)
    ensures r.Some? ==> forall i :: p <= i < r.value ==> !MatchAt(s, pat, i)
    ensures r.None? ==> forall i :: p <= i ==> !MatchAt(s, pat, i)
    decreases |s| - p
  {
    if MatchAt(s, pat, p) then Some(p)
    else if p == |s| then None
    else Find(s, pat, p + 1)
  }

  /** Leftmost non-overlapping replacement of s[p..]. */
  function ReplacedFrom(s: Text, old_: Text, new_: Text, p: nat): Text
    requires old_ != [] && p <= |s|
    decreases |s| - p
  {
    match Find(s, old_, p)
    case None => s[p..]
    case Some(m) => s[p..m] + new_ + ReplacedFrom(s, old_, new_, m + |old_|)
  }

  function CountFrom(s: Text, old_: Text, p: nat): nat
    requires old_ != [] && p <= |s|
    decreases |s| - p
  {
    match Find(s, old_, p)
    case None => 0
    case Some(m) => 1 + CountFrom(s, old_, m + |old_|)
  }

  /** string_ops_str_replace on bytes; the empty pattern leaves the string alone. */
  function Replaced(s: Text, old_: Text, new_: Text): Text {
    if old_ == [] then s else ReplacedFrom(s, old_, new_, 0)
  }

  lemma OneMore(n: nat, k: nat)
    ensures (1 + n) * k == k + n * k
  {}

  /** The counting pass predicts the exact number of bytes the copying pass writes. */
  lemma {:induction false} ReplacedLength(s: Text, old_: Text, new_: Text, p: nat)
    requires old_ != [] && p <= |s|
    ensures |ReplacedFrom(s, old_, new_, p)| + CountFrom(s, old_, p) * |old_|
         == |s| - p + CountFrom(s, old_, p) * |new_|
    decreases |s| - p
  {
    hide Find;
    var f := Find(s, old_, p);
    if f.Some? {
      var next := f.value + |old_|;
      var n := CountFrom(s, old_, next);
      ReplacedLength(s, old_, new_, next);
      OneMore(n, |old_|);
      OneMore(n, |new_|);
    }
  }

  /** Replacing a pattern by itself changes nothing. */
  lemma {:induction false} ReplaceSelf(s: Text, old_: Text, p: nat)
    requires old_ != [] && p <= |s|
    ensures ReplacedFrom(s, old_, old_, p) == s[p..]
    decreases |s| - p
  {
    var f := Find(s, old_, p);
    if f.Some? {
      hide Find;
      ReplaceSelf(s, old_, f.value + |old_|);
      assert s[p..f.value] + s[f.value..f.value + |old_|] + s[f.value + |old_|..] == s[p..];
    }
  }

  /** A string with no match comes back unchanged, and only then is nothing counted. */
  lemma ReplaceNothing(s: Text, old_: Text, new_: Text)
    requires old_ != []
    ensures CountFrom(s, old_, 0) == 0 <==> forall i :: 0 <= i ==> !MatchAt(s, old_, i)
    ensures CountFrom(s, old_, 0) == 0 ==> Replaced(s, old_, new_) == s
  {
    var f := Find(s, old_, 0);
  }

  method CountMatches(s: Text, old_: Text) returns (count: nat)
    requires old_ != []
    ensures count == CountFrom(s, old_, 0)
  {
    hide Find;
    count := 0;
    var p := 0;
    var f := Find(s, old_, p);
    while f.Some?
      invariant p <= |s| && f == Find(s, old_, p)
      invariant count + CountFrom(s, old_, p) == CountFrom(s, old_, 0)
      decreases |s| - p
    {
      count := count + 1;
      p := f.value + |old_|;
      f := Find(s, old_, p);
    }
  }

  /** Copy src into dst at offset at, as memcpy does. */
  method CopyInto(dst: array<Byte>, at: nat, src: Text)
    requires at + |src| <= dst.Length
    modifies dst
    ensures dst[..] == old(dst[..at]) + src + old(dst[at + |src|..])
  {
    var i := 0;
    while i < |src|
      invariant 0 <= i <= |src|
      invariant forall k :: 0 <= k < dst.Length ==>
        dst[k] == if at <= k < at + i then src[k - at] else old(dst[k])
    {
      dst[at + i] := src[i];
      i := i + 1;
    }
  }

  /** One round of the copying pass: the gap before a match, then the replacement. */
  method CopyMatch(buf: array<Byte>, dst: nat, gap: Text, new_: Text) returns (end: nat)
    requires dst + |gap| + |new_| <= buf.Length
    modifies buf
    ensures end == dst + |gap| + |new_|
    ensures buf[..end] == old(buf[..dst]) + gap + new_
  {
    CopyInto(buf, dst, gap);
    assert buf[..dst + |gap|] == old(buf[..dst]) + gap;
    ghost var mid := buf[..dst + |gap|];
    CopyInto(buf, dst + |gap|, new_);
    end := dst + |gap| + |new_|;
    assert buf[..end] == mid + new_;
  }

  /** What one round contributes to the whole. */
  lemma ReplacedStep(s: Text, old_: Text, new_: Text, p: nat, done: Text, total: Text)
    requires old_ != [] && p <= |s| && total == done + ReplacedFrom(s, old_, new_, p)
    ensures match Find(s, old_, p)
            case Some(m) => total == (done + s[p..m] + new_) + ReplacedFrom(s, old_, new_, m + |old_|)
            case None => total == done + s[p..] + []
  {
    hide Find;
    var f := Find(s, old_, p);
    if f.Some? {
      var m := f.value;
      var rest := ReplacedFrom(s, old_, new_, m + |old_|);
      Seqs.ConcatAssoc(done, s[p..m] + new_, rest);
      Seqs.ConcatAssoc(done, s[p..m], new_);
    }
  }

  /** The copying pass fills a buffer of exactly the predicted size, NUL included. */
  method CopyReplaced(s: Text, old_: Text, new_: Text, buf: array<Byte>) returns (len: nat)
    requires old_ != [] && buf.Length == |ReplacedFrom(s, old_, new_, 0)| + 1
    modifies buf
    ensures len + 1 == buf.Length && buf[..len] == ReplacedFrom(s, old_, new_, 0) && buf[len] == 0
  {
    hide Find, ReplacedFrom;
    ghost var total := ReplacedFrom(s, old_, new_, 0);
    var dst, p := 0, 0;
    var f := Find(s, old_, p);
    while f.Some?
      invariant 0 <= p <= |s| && 0 <= dst <= |total| && f == Find(s, old_, p)
      invariant total == buf[..dst] + ReplacedFrom(s, old_, new_, p)
      decreases |s| - p
    {
      var m := f.value;
      ReplacedStep(s, old_, new_, p, buf[..dst], total);
      dst := CopyMatch(buf, dst, s[p..m], new_);
      p := m + |old_|;
      f := Find(s, old_, p);
    }
    ReplacedStep(s, old_, new_, p, buf[..dst], total);
    len := CopyMatch(buf, dst, s[p..], []);
    buf[len] := 0;
  }

  /** The two branches that size the buffer agree with the length of the result. */
  lemma BufferSize(s: Text, old_: Text, new_: Text)
    requires old_ != []
    ensures var n := CountFrom(s, old_, 0);
            |ReplacedFrom(s, old_, new_, 0)| ==
            if |new_| >= |old_| then |s| + n * (|new_| - |old_|) else |s| - n * (|old_| - |new_|)
  {
    var n := CountFrom(s, old_, 0);
    ReplacedLength(s, old_, new_, 0);
    assert n * (|new_| - |old_|) == n * |new_| - n * |old_|;
    assert n * (|old_| - |new_|) == n * |old_| - n * |new_|;
  }

  /** Counting pass, exact allocation, copying pass. */
  method StrReplace(s: Text, old_: Text, new_: Text) returns (r: Text)
    ensures r == Replaced(s, old_, new_)
  {
    hide Find;
    if |old_| == 0 {
      return s;
    }
    var count := CountMatches(s, old_);
    if count == 0 {
      ReplaceNothing(s, old_, new_);
      return s;
    }
    BufferSize(s, old_, new_);
    var size: int;
    if |new_| >= |old_| {
      size := |s| + count * (|new_| - |old_|) + 1;
    } else {
      size := |s| - count * (|old_| - |new_|) + 1;
    }
    var buf := new Byte[size];
    var len := CopyReplaced(s, old_, new_, buf);
    r := buf[..len];
  }

  // ---- the remaining pure byte functions, as the expression evaluator uses them

  predicate Contains(s: Text, sub: Text) { Find(s, sub, 0).Some? }
  predicate HasPrefix(s: Text, pre: Text) { |pre| <= |s| && s[..|pre|] == pre }
  predicate HasSuffix(s: Text, suf: Text) { |suf| <= |s| && s[|s| - |suf|..] == suf }

  function Ord(s: Text): int { if s == [] then -1 else CodePoint(s) }

  function Upper(s: Text): Text {
    seq(|s|, i requires 0 <= i < |s| => if 97 <= s[i] <= 122 then s[i] - 32 else s[i])
  }

  function Lower(s: Text): Text {
    seq(|s|, i requires 0 <= i < |s| => if 65 <= s[i] <= 90 then s[i] + 32 else s[i])
  }

  predicate IsSpace(b: Byte) { b == 32 || 9 <= b <= 13 }

  function TrimLeft(s: Text): Text {
    if s != [] && IsSpace(s[0]) then TrimLeft(s[1..]) else s
  }

  function TrimRight(s: Text): Text {
    if s != [] && IsSpace(s[|s| - 1]) then TrimRight(s[..|s| - 1]) else s
  }

  function Trim(s: Text): Text { TrimRight(TrimLeft(s)) }
}
