/**
 * Replacing a chain of joins on one key by a leapfrog join (wirelog/exec_plan_gen.c).
 *
 * A VARIABLE followed by two or more JOINs, all over extensional relations and all on the
 * same pair of key columns, becomes one LFTJ operator. Every JOIN appends its right
 * columns, so the key column of the first relation never moves, and the leapfrog join
 * yields the rows the chain yields. It does so exactly when the leapfrog operator can run:
 * all relations there, key columns in range, and at most 64 of them.
 */
module Lftj {
  import opened Bytes
  import opened Postfix
  import opened Plan
  import Seqs

  /** A relation of the program: its name, and whether it has inline facts. */
  datatype Declared = Declared(name: string, hasFacts: bool)

  /** Without rules, or with facts besides them. */
  predicate IsExtensional(relations: seq<Declared>, heads: seq<string>, n: string) {
    exists i :: 0 <= i < |relations| && relations[i].name == n && (n !in heads || relations[i].hasFacts)
  }

  /** The relations that chains may be replaced over. */
  method ListExtensional(relations: seq<Declared>, heads: seq<string>) returns (edb: seq<string>)
    ensures forall n :: n in edb <==> IsExtensional(relations, heads, n)
  {
    edb := [];
    var i := 0;
    while i < |relations|
      invariant i <= |relations| && forall n :: n in edb <==> IsExtensional(relations[..i], heads, n)
    {
      var rel := relations[i];
      var isHead := false;
      var r := 0;
      while r < |heads| && !isHead
        invariant r <= |heads| && (isHead <==> rel.name in heads[..r])
      {
        isHead := heads[r] == rel.name;
        r := r + 1;
      }
      assert isHead <==> rel.name in heads;
      OneMore(relations, i, heads);
      if !isHead || rel.hasFacts {
        edb := edb + [rel.name];
      }
      i := i + 1;
    }
    assert relations[..i] == relations;
  }

  lemma OneMore(relations: seq<Declared>, i: nat, heads: seq<string>)
    requires i < |relations|
    ensures forall n :: IsExtensional(relations[..i + 1], heads, n) <==>
              IsExtensional(relations[..i], heads, n)
              || (n == relations[i].name && (n !in heads || relations[i].hasFacts))
  {
    var more, less := relations[..i + 1], relations[..i];
    forall n
      ensures IsExtensional(more, heads, n) <==>
                IsExtensional(less, heads, n) || (n == relations[i].name && (n !in heads || relations[i].hasFacts))
    {
      if IsExtensional(less, heads, n) {
        var k :| 0 <= k < |less| && less[k].name == n && (n !in heads || less[k].hasFacts);
        assert more[k] == less[k];
      }
      if IsExtensional(more, heads, n) {
        var k :| 0 <= k < |more| && more[k].name == n && (n !in heads || more[k].hasFacts);
        if k < i {
          assert less[k] == more[k];
        }
      }
      assert more[i] == relations[i];
    }
  }

  /** A JOIN the chain may absorb. */
  predicate IsLink(op: Op, edb: set<string>) {
    op.Join? && |op.keys| == 1 && op.right in edb && op.rightFilter == []
  }

  predicate SameKeys(a: Op, b: Op) { a.Join? && b.Join? && a.keys == b.keys }

  /** Links start + 1 .. end - 1 share the first link's keys. */
  predicate IsChain(ops: seq<Op>, start: nat, end: nat, edb: set<string>) {
    && start < end <= |ops| && ops[start].Variable? && ops[start].rel in edb
    && forall j | start < j < end :: IsLink(ops[j], edb) && SameKeys(ops[j], ops[start + 1])
  }

  /** A chain that cannot be prolonged. */
  predicate IsMaximal(ops: seq<Op>, start: nat, end: nat, edb: set<string>) {
    IsChain(ops, start, end, edb) && !IsChain(ops, start, end + 1, edb)
  }

  /** The length of the chain at start when it has three members or more, else 0. */
  method ChainLength(ops: seq<Op>, start: nat, edb: set<string>) returns (len: nat)
    ensures len == ChainAt(ops, start, edb)
  {
    if start >= |ops| || !ops[start].Variable? || ops[start].rel !in edb {
      return 0;
    }
    var j := start + 1;
    var shared: Keys := [];
    while j < |ops| && IsLink(ops[j], edb)
      invariant start < j <= |ops| && IsChain(ops, start, j, edb)
      invariant shared == if j == start + 1 then [] else ops[start + 1].keys
    {
      if shared == [] {
        shared := ops[j].keys;
      } else if ops[j].keys != shared {
        break;
      }
      j := j + 1;
    }
    assert !IsChain(ops, start, j + 1, edb);
    ChainAtIs(ops, start, j, edb);
    return if j - start < 3 then 0 else j - start;
  }

  function ChainEnd(ops: seq<Op>, start: nat, end: nat, edb: set<string>): (r: nat)
    requires IsChain(ops, start, end, edb)
    ensures IsMaximal(ops, start, r, edb)
    decreases |ops| - end
  {
    if IsChain(ops, start, end + 1, edb) then ChainEnd(ops, start, end + 1, edb) else end
  }

  function ChainAt(ops: seq<Op>, start: nat, edb: set<string>): (len: nat)
    ensures len > 0 ==> len >= 3 && IsMaximal(ops, start, start + len, edb)
  {
    if !IsChain(ops, start, start + 1, edb) then 0
    else
      var len := ChainEnd(ops, start, start + 1, edb) - start;
      if len < 3 then 0 else len
  }

  lemma ChainShorter(ops: seq<Op>, start: nat, a: nat, b: nat, edb: set<string>)
    requires IsChain(ops, start, b, edb) && start < a <= b
    ensures IsChain(ops, start, a, edb)
  {}

  lemma MaximalIsUnique(ops: seq<Op>, start: nat, a: nat, b: nat, edb: set<string>)
    requires IsMaximal(ops, start, a, edb) && IsMaximal(ops, start, b, edb)
    ensures a == b
  {
    if a < b {
      ChainShorter(ops, start, a + 1, b, edb);
    } else if b < a {
      ChainShorter(ops, start, b + 1, a, edb);
    }
  }

  lemma ChainAtIs(ops: seq<Op>, start: nat, end: nat, edb: set<string>)
    requires IsMaximal(ops, start, end, edb)
    ensures ChainAt(ops, start, edb) == if end - start < 3 then 0 else end - start
  {
    ChainShorter(ops, start, start + 1, end, edb);
    MaximalIsUnique(ops, start, end, ChainEnd(ops, start, start + 1, edb), edb);
  }

  // ---- the replacement -----------------------------------------------------------------

  function RelAt(op: Op): string {
    if op.Variable? then op.rel else if op.Join? then op.right else ""
  }

  function ChainRels(ops: seq<Op>, start: nat, len: nat, edb: set<string>): (rels: seq<string>)
    requires len >= 3 && IsChain(ops, start, start + len, edb)
    ensures |rels| == len && rels[0] == ops[start].rel
  {
    var part := ops[start..start + len];
    seq(len, q requires 0 <= q < len => RelAt(part[q]))
  }

  function ChainCols(ops: seq<Op>, start: nat, len: nat, edb: set<string>): (cols: seq<nat>)
    requires len >= 3 && IsChain(ops, start, start + len, edb)
    ensures |cols| == len
  {
    assert IsLink(ops[start + 1], edb);
    var key := ops[start + 1].keys[0];
    [key.0] + seq(len - 1, _ => key.1)
  }

  function Leapfrog(ops: seq<Op>, start: nat, len: nat, edb: set<string>): Op
    requires len >= 3 && IsChain(ops, start, start + len, edb)
  {
    Plan.Op.Lftj(ChainRels(ops, start, len, edb), ChainCols(ops, start, len, edb))
  }

  method BuildLeapfrog(ops: seq<Op>, start: nat, len: nat, edb: set<string>) returns (op: Op)
    requires len >= 3 && IsChain(ops, start, start + len, edb)
    ensures op == Leapfrog(ops, start, len, edb)
  {
    assert IsLink(ops[start + 1], edb);
    var key := ops[start + 1].keys[0];
    var rels, cols := [ops[start].rel], [key.0];
    var q := 1;
    while q < len
      invariant 1 <= q <= len && |rels| == |cols| == q
      invariant forall i | 0 <= i < q :: rels[i] == RelAt(ops[start..start + len][i])
      invariant cols == [key.0] + seq(q - 1, _ => key.1)
    {
      assert IsLink(ops[start + q], edb);
      rels := rels + [ops[start + q].right];
      cols := cols + [key.1];
      q := q + 1;
    }
    assert rels == ChainRels(ops, start, len, edb) && cols == ChainCols(ops, start, len, edb);
    op := Plan.Op.Lftj(rels, cols);
  }

  /** How many operators the scan consumes at i, and the one it emits for them. */
  function Taken(ops: seq<Op>, i: nat, edb: set<string>): (n: nat)
    ensures n >= 1 && (i < |ops| ==> i + n <= |ops|)
  {
    if ChainAt(ops, i, edb) > 0 then ChainAt(ops, i, edb) else 1
  }

  function Emitted(ops: seq<Op>, i: nat, edb: set<string>): Op
    requires i < |ops|
  {
    if ChainAt(ops, i, edb) > 0 then Leapfrog(ops, i, ChainAt(ops, i, edb), edb) else ops[i]
  }

  /** Scan left to right: replace the chain that starts here, or keep the operator. */
  function Rewritten(ops: seq<Op>, i: nat, edb: set<string>): seq<Op>
    decreases |ops| - i
  {
    if i >= |ops| then [] else [Emitted(ops, i, edb)] + Rewritten(ops, i + Taken(ops, i, edb), edb)
  }

  /** The quick scan. */
  method HasChain(ops: seq<Op>, edb: set<string>) returns (found: bool)
    ensures found == exists k :: 0 <= k < |ops| && ChainAt(ops, k, edb) > 0
  {
    hide ChainAt;
    var i := 0;
    while i < |ops|
      invariant i <= |ops| && forall k | 0 <= k < i :: ChainAt(ops, k, edb) == 0
    {
      var len := ChainLength(ops, i, edb);
      ChainAtSize(ops, i, edb);
      if len >= 3 {
        return true;
      }
      i := i + 1;
    }
    return false;
  }

  method NextOp(ops: seq<Op>, i: nat, edb: set<string>) returns (op: Op, n: nat)
    requires i < |ops|
    ensures op == Emitted(ops, i, edb) && n == Taken(ops, i, edb)
  {
    hide ChainAt, Leapfrog;
    var len := ChainLength(ops, i, edb);
    ChainAtSize(ops, i, edb);
    if len >= 3 {
      op := BuildLeapfrog(ops, i, len, edb);
      n := len;
    } else {
      op, n := ops[i], 1;
    }
  }

  method RewriteChains(ops: seq<Op>, edb: set<string>) returns (r: seq<Op>)
    ensures r == Rewritten(ops, 0, edb)
  {
    hide Emitted, Taken;
    var found := HasChain(ops, edb);
    if !found {
      NothingToRewrite(ops, 0, edb);
      return ops;
    }
    r := [];
    var i := 0;
    while i < |ops|
      invariant i <= |ops| && r + Rewritten(ops, i, edb) == Rewritten(ops, 0, edb)
      decreases |ops| - i
    {
      var op, n := NextOp(ops, i, edb);
      Seqs.ConcatAssoc(r, [op], Rewritten(ops, i + n, edb));
      r := r + [op];
      i := i + n;
    }
    assert r + [] == r;
  }

  lemma ChainAtSize(ops: seq<Op>, i: nat, edb: set<string>)
    ensures var len := ChainAt(ops, i, edb); len > 0 ==> len >= 3 && IsChain(ops, i, i + len, edb)
  {}

  lemma {:induction false} NothingToRewrite(ops: seq<Op>, i: nat, edb: set<string>)
    requires i <= |ops| && forall k | i <= k < |ops| :: ChainAt(ops, k, edb) == 0
    ensures Rewritten(ops, i, edb) == ops[i..]
    decreases |ops| - i
  {
    hide ChainAt;
    if i < |ops| {
      NothingToRewrite(ops, i + 1, edb);
      assert ops[i..] == [ops[i]] + ops[i + 1..];
    }
  }

  // ---- the chain and the leapfrog join compute the same rows --------------------------------

  /** What the first n relations of the leapfrog join give. */
  function Prefix(w: World, rels: seq<string>, cols: seq<nat>, n: nat): Rel
    requires LftjRuns(w, rels, cols) && 1 <= n <= |rels|
  {
    Rel(TotalWidth(w, rels, n),
        set t, p | t in w.full[rels[0]].rows && p in Products(w, rels, cols, Cell(t, cols[0]), n) :: p)
  }

  /** Rows of a product start with a row of the first relation, key value in place. */
  lemma {:induction false} ProductShape(w: World, rels: seq<string>, cols: seq<nat>, v: int, n: nat, p: Row)
    requires LftjRuns(w, rels, cols) && ValidDb(w.full) && 1 <= n <= |rels|
    requires p in Products(w, rels, cols, v, n)
    ensures |p| == TotalWidth(w, rels, n) >= w.full[rels[0]].width && p[cols[0]] == v
    decreases n
  {
    var a, b :| a in Products(w, rels, cols, v, n - 1) && b in w.full[rels[n - 1]].rows
      && Cell(b, cols[n - 1]) == v && p == a + b;
    assert ValidRel(w.full[rels[n - 1]]);
    if n == 1 {
      assert TotalWidth(w, rels, 0) == 0;
    } else {
      ProductShape(w, rels, cols, v, n - 1, a);
    }
  }

  lemma ProductAdd(w: World, rels: seq<string>, cols: seq<nat>, v: int, n: nat, a: Row, b: Row)
    requires LftjRuns(w, rels, cols) && n < |rels| && a in Products(w, rels, cols, v, n)
    requires b in w.full[rels[n]].rows && Cell(b, cols[n]) == v
    ensures a + b in Products(w, rels, cols, v, n + 1)
  {}

  lemma ProductSplit(w: World, rels: seq<string>, cols: seq<nat>, v: int, n: nat, p: Row) returns (a: Row, b: Row)
    requires LftjRuns(w, rels, cols) && n < |rels| && p in Products(w, rels, cols, v, n + 1)
    ensures a in Products(w, rels, cols, v, n) && b in w.full[rels[n]].rows && Cell(b, cols[n]) == v && p == a + b
  {
    a, b :| a in Products(w, rels, cols, v, n) && b in w.full[rels[n]].rows && Cell(b, cols[n]) == v && p == a + b;
  }

  lemma ProductNone(w: World, rels: seq<string>, cols: seq<nat>, v: int, p: Row)
    requires LftjRuns(w, rels, cols)
    ensures p in Products(w, rels, cols, v, 0) <==> p == []
  {}

  lemma OneProduct(w: World, rels: seq<string>, cols: seq<nat>, p: Row)
    requires LftjRuns(w, rels, cols) && p in w.full[rels[0]].rows
    ensures p in Products(w, rels, cols, Cell(p, cols[0]), 1)
  {
    var none: Row, v := [], Cell(p, cols[0]);
    ProductNone(w, rels, cols, v, none);
    ProductAdd(w, rels, cols, v, 0, none, p);
    assert none + p == p;
  }

  lemma FromOneProduct(w: World, rels: seq<string>, cols: seq<nat>, v: int, p: Row)
    requires LftjRuns(w, rels, cols) && p in Products(w, rels, cols, v, 1)
    ensures p in w.full[rels[0]].rows
  {
    hide Products;
    var a, b := ProductSplit(w, rels, cols, v, 0, p);
    ProductNone(w, rels, cols, v, a);
    assert a + b == b;
  }

  /** The first relation alone. */
  lemma PrefixOne(w: World, rels: seq<string>, cols: seq<nat>)
    requires LftjRuns(w, rels, cols)
    ensures Prefix(w, rels, cols, 1) == w.full[rels[0]]
  {
    assert TotalWidth(w, rels, 1) == w.full[rels[0]].width by { WidthNext(w, rels, 0); }
    hide Products, TotalWidth, LftjRuns;
    Present(w, rels, cols, 0);
    var r := w.full[rels[0]];
    forall p | p in r.rows
      ensures p in Products(w, rels, cols, Cell(p, cols[0]), 1)
    {
      OneProduct(w, rels, cols, p);
    }
    forall t, p | t in r.rows && p in Products(w, rels, cols, Cell(t, cols[0]), 1)
      ensures p in r.rows
    {
      FromOneProduct(w, rels, cols, Cell(t, cols[0]), p);
    }
    assert Prefix(w, rels, cols, 1).rows == r.rows;
  }

  lemma LinkMatches(w: World, rels: seq<string>, cols: seq<nat>, v: int, n: nat, a: Row, b: Row)
    requires LftjRuns(w, rels, cols) && ValidDb(w.full) && 1 <= n < |rels|
    requires a in Products(w, rels, cols, v, n) && b in w.full[rels[n]].rows
    ensures KeysMatch([(cols[0], cols[n])], a, b) <==> Cell(b, cols[n]) == v
  {
    ProductShape(w, rels, cols, v, n, a);
    hide Products, TotalWidth;
    assert ValidRel(w.full[rels[n]]);
    var keys: Keys := [(cols[0], cols[n])];
    assert KeyCell(a, cols[0]) == v && KeyCell(b, cols[n]) == Cell(b, cols[n]);
    assert keys[0] == (cols[0], cols[n]);
  }

  /** Joining one more relation on the same key is one more relation of the product. */
  lemma PrefixNext(w: World, rels: seq<string>, cols: seq<nat>, n: nat)
    requires LftjRuns(w, rels, cols) && ValidDb(w.full) && 1 <= n < |rels|
    ensures JoinRel(Prefix(w, rels, cols, n), w.full[rels[n]], [(cols[0], cols[n])], []) == Prefix(w, rels, cols, n + 1)
  {
    var l, r, keys := Prefix(w, rels, cols, n), w.full[rels[n]], [(cols[0], cols[n])];
    var j, x := JoinRel(l, r, keys, []), Prefix(w, rels, cols, n + 1);
    hide Products, KeysMatch, TotalWidth;
    forall p | p in j.rows
      ensures p in x.rows
    {
      var a, b :| a in l.rows && b in r.rows && KeysMatch(keys, a, b) && p == Pick([], a + b);
      var t :| t in w.full[rels[0]].rows && a in Products(w, rels, cols, Cell(t, cols[0]), n);
      LinkMatches(w, rels, cols, Cell(t, cols[0]), n, a, b);
      ProductAdd(w, rels, cols, Cell(t, cols[0]), n, a, b);
      assert a + b in Products(w, rels, cols, Cell(t, cols[0]), n + 1);
    }
    forall p | p in x.rows
      ensures p in j.rows
    {
      var t :| t in w.full[rels[0]].rows && p in Products(w, rels, cols, Cell(t, cols[0]), n + 1);
      var v := Cell(t, cols[0]);
      var a, b := ProductSplit(w, rels, cols, v, n, p);
      LinkMatches(w, rels, cols, v, n, a, b);
      assert a in l.rows;
      assert Pick([], a + b) == a + b;
    }
    assert j.width == x.width by { WidthNext(w, rels, n); }
  }

  lemma WidthNext(w: World, rels: seq<string>, n: nat)
    requires n < |rels| && forall i | 0 <= i <= n :: rels[i] in w.full
    ensures TotalWidth(w, rels, n + 1) == TotalWidth(w, rels, n) + w.full[rels[n]].width
  {}

  // ---- running the two ------------------------------------------------------------------------

  /** The chain as the translation emits it: nothing forced, nothing projected. */
  predicate AsEmitted(ops: seq<Op>, start: nat, len: nat) {
    start + len <= |ops| && forall j | start <= j < start + len ::
      (ops[j].Variable? ==> ops[j].mode == Auto) && (ops[j].Join? ==> ops[j].mode == Auto && ops[j].project == [])
  }

  lemma LinkAt(ops: seq<Op>, start: nat, len: nat, n: nat, edb: set<string>)
    requires len >= 3 && IsChain(ops, start, start + len, edb) && AsEmitted(ops, start, len) && 1 <= n < len
    ensures var rels, cols := ChainRels(ops, start, len, edb), ChainCols(ops, start, len, edb);
            ops[start + n] == Join(rels[n], [(cols[0], cols[n])], [], [], Auto)
  {
    var op := ops[start + n];
    assert IsLink(op, edb) && SameKeys(op, ops[start + 1]);
    assert op.keys == [op.keys[0]];
    assert op == ops[start..start + len][n];
  }

  /** A chain that runs as a leapfrog join. */
  predicate Convertible(ops: seq<Op>, start: nat, len: nat, edb: set<string>, w: World) {
    && len >= 3 && IsChain(ops, start, start + len, edb) && AsEmitted(ops, start, len) && ValidDb(w.full)
    && LftjRuns(w, ChainRels(ops, start, len, edb), ChainCols(ops, start, len, edb))
  }

  function ChainPrefix(ops: seq<Op>, start: nat, len: nat, edb: set<string>, w: World, n: nat): Rel
    requires Convertible(ops, start, len, edb, w) && 1 <= n <= len
  {
    Prefix(w, ChainRels(ops, start, len, edb), ChainCols(ops, start, len, edb), n)
  }

  lemma LinkRuns(ops: seq<Op>, start: nat, len: nat, n: nat, edb: set<string>, w: World, stack: seq<Rel>)
    requires Convertible(ops, start, len, edb, w) && 1 <= n < len && start + len <= |ops|
    ensures Exec(ops[start + n], w, stack + [ChainPrefix(ops, start, len, edb, w, n)])
         == Some(stack + [ChainPrefix(ops, start, len, edb, w, n + 1)])
  {
    var rels, cols := ChainRels(ops, start, len, edb), ChainCols(ops, start, len, edb);
    LinkAt(ops, start, len, n, edb);
    hide Prefix, LftjRuns, ValidDb, JoinRel, IsChain, AsEmitted, ChainCols, ChainRels;
    PrefixNext(w, rels, cols, n);
    Present(w, rels, cols, n);
    Seqs.TakeConcat(stack, [Prefix(w, rels, cols, n)]);
    assert Unary(ops[start + n], w, Prefix(w, rels, cols, n)) == Some(Prefix(w, rels, cols, n + 1));
  }

  lemma Present(w: World, rels: seq<string>, cols: seq<nat>, n: nat)
    requires LftjRuns(w, rels, cols) && n < |rels|
    ensures rels[n] in w.full
  {}

  lemma HeadRuns(ops: seq<Op>, start: nat, len: nat, edb: set<string>, w: World, stack: seq<Rel>)
    requires Convertible(ops, start, len, edb, w) && start + len <= |ops|
    ensures RunOps(ops[start..start + 1], w, stack) == Some(stack + [ChainPrefix(ops, start, len, edb, w, 1)])
  {
    var rels, cols := ChainRels(ops, start, len, edb), ChainCols(ops, start, len, edb);
    hide Prefix, ValidDb, RunOps, ChainCols;
    assert ops[start..start + 1] == [ops[start]];
    RunOne(ops[start], w, stack);
    PrefixOne(w, rels, cols);
    Present(w, rels, cols, 0);
    assert ops[start].mode == Auto;
  }

  /** The first n operators of the chain push the product of the first n relations. */
  lemma {:induction false} ChainRuns(ops: seq<Op>, start: nat, len: nat, n: nat, edb: set<string>, w: World, stack: seq<Rel>)
    requires Convertible(ops, start, len, edb, w) && 1 <= n <= len && start + len <= |ops|
    ensures RunOps(ops[start..start + n], w, stack) == Some(stack + [ChainPrefix(ops, start, len, edb, w, n)])
    decreases n
  {
    hide Convertible, ChainPrefix, RunOps, Exec;
    if n == 1 {
      HeadRuns(ops, start, len, edb, w, stack);
    } else {
      RunSnoc(ops, start, n, w, stack);
      ChainRuns(ops, start, len, n - 1, edb, w, stack);
      LinkRuns(ops, start, len, n - 1, edb, w, stack);
    }
  }

  lemma RunSnoc(ops: seq<Op>, start: nat, n: nat, w: World, stack: seq<Rel>)
    requires start + n <= |ops| && n >= 1
    ensures RunOps(ops[start..start + n], w, stack) ==
            match RunOps(ops[start..start + n - 1], w, stack)
            case None => None
            case Some(st) => Exec(ops[start + n - 1], w, st)
  {
    hide Exec;
    var part := ops[start..start + n];
    assert part[..n - 1] == ops[start..start + n - 1] && part[n - 1] == ops[start + n - 1];
  }

  lemma LeapfrogRuns(ops: seq<Op>, start: nat, len: nat, edb: set<string>, w: World, stack: seq<Rel>)
    requires len >= 3 && IsChain(ops, start, start + len, edb) && AsEmitted(ops, start, len) && ValidDb(w.full)
    requires LftjRuns(w, ChainRels(ops, start, len, edb), ChainCols(ops, start, len, edb))
    ensures RunOps(ops[start..start + len], w, stack) == RunOps([Leapfrog(ops, start, len, edb)], w, stack)
  {
    hide RunOps, LftjRuns, IsChain, ValidDb, Products, TotalWidth;
    ChainRuns(ops, start, len, len, edb, w, stack);
    RunOne(Leapfrog(ops, start, len, edb), w, stack);
  }

  /** A chain whose first relation is there always runs, whatever else is missing or out of range. */
  lemma {:induction false} ChainAlwaysRuns(ops: seq<Op>, start: nat, len: nat, n: nat, edb: set<string>, w: World, stack: seq<Rel>)
    requires len >= 3 && IsChain(ops, start, start + len, edb) && AsEmitted(ops, start, len) && 1 <= n <= len
    requires ops[start].rel in w.full
    ensures RunOps(ops[start..start + n], w, stack).Some? && |RunOps(ops[start..start + n], w, stack).value| > 0
    decreases n
  {
    hide JoinRel, RightFiltered, RunOps;
    RunSnoc(ops, start, n, w, stack);
    if n == 1 {
      assert ops[start..start] == [];
      assert RunOps([], w, stack) == Some(stack) by { RunNothing(w, stack); }
    } else {
      ChainAlwaysRuns(ops, start, len, n - 1, edb, w, stack);
      assert IsLink(ops[start + n - 1], edb);
    }
  }

  lemma RunNothing(w: World, stack: seq<Rel>)
    ensures RunOps([], w, stack) == Some(stack)
  {}

  /** Replacing the chain changes nothing exactly when the leapfrog operator can run. */
  lemma LeapfrogExact(ops: seq<Op>, start: nat, len: nat, edb: set<string>, w: World, stack: seq<Rel>)
    requires len >= 3 && IsChain(ops, start, start + len, edb) && AsEmitted(ops, start, len) && ValidDb(w.full)
    ensures RunOps(ops[start..start + len], w, stack) == RunOps([Leapfrog(ops, start, len, edb)], w, stack) <==>
            ops[start].rel !in w.full || LftjRuns(w, ChainRels(ops, start, len, edb), ChainCols(ops, start, len, edb))
  {
    var rels, cols := ChainRels(ops, start, len, edb), ChainCols(ops, start, len, edb);
    if LftjRuns(w, rels, cols) {
      LeapfrogRuns(ops, start, len, edb, w, stack);
    } else {
      hide RunOps, LftjRel, JoinRel, ValidDb, Unary;
      RunOne(Leapfrog(ops, start, len, edb), w, stack);
      assert RunOps([Leapfrog(ops, start, len, edb)], w, stack).None?;
      if ops[start].rel in w.full {
        ChainAlwaysRuns(ops, start, len, len, edb, w, stack);
      } else {
        HeadMissing(ops, start, len, edb, w, stack);
      }
    }
  }

  lemma HeadMissing(ops: seq<Op>, start: nat, len: nat, edb: set<string>, w: World, stack: seq<Rel>)
    requires len >= 3 && IsChain(ops, start, start + len, edb) && ops[start].rel !in w.full
    ensures RunOps(ops[start..start + len], w, stack).None?
  {
    var part := ops[start..start + len];
    assert part == [ops[start]] + ops[start + 1..start + len];
    RunConcat([ops[start]], ops[start + 1..start + len], w, stack);
    RunOne(ops[start], w, stack);
  }

  // ---- the whole list ---------------------------------------------------------------------------

  /** What the scan replaces at i can run as a leapfrog join, or fails either way. */
  predicate ReadyAt(ops: seq<Op>, i: nat, edb: set<string>, w: World)
    requires i < |ops|
  {
    var len := ChainAt(ops, i, edb);
    len > 0 ==>
      && AsEmitted(ops, i, len)
      && (ops[i].rel !in w.full || LftjRuns(w, ChainRels(ops, i, len, edb), ChainCols(ops, i, len, edb)))
  }

  predicate Ready(ops: seq<Op>, i: nat, edb: set<string>, w: World)
    decreases |ops| - i
  {
    i < |ops| ==> ReadyAt(ops, i, edb, w) && Ready(ops, i + Taken(ops, i, edb), edb, w)
  }

  lemma EmittedRuns(ops: seq<Op>, i: nat, edb: set<string>, w: World, stack: seq<Rel>)
    requires i < |ops| && ReadyAt(ops, i, edb, w) && ValidDb(w.full)
    ensures RunOps([Emitted(ops, i, edb)], w, stack) == RunOps(ops[i..i + Taken(ops, i, edb)], w, stack)
  {
    hide RunOps, ChainAt, Leapfrog, AsEmitted, ChainRels, ChainCols, LftjRuns, ValidDb;
    ChainAtSize(ops, i, edb);
    var len := ChainAt(ops, i, edb);
    if len > 0 {
      LeapfrogExact(ops, i, len, edb, w, stack);
    } else {
      assert ops[i..i + 1] == [ops[i]];
    }
  }

  /** The rewritten list computes what the original list computes. */
  lemma {:induction false} RewriteRuns(ops: seq<Op>, i: nat, edb: set<string>, w: World, stack: seq<Rel>)
    requires i <= |ops| && Ready(ops, i, edb, w) && ValidDb(w.full)
    ensures RunOps(Rewritten(ops, i, edb), w, stack) == RunOps(ops[i..], w, stack)
    decreases |ops| - i
  {
    hide RunOps, Emitted, Taken, ReadyAt, ValidDb;
    if i < |ops| {
      var op, n := Emitted(ops, i, edb), Taken(ops, i, edb);
      EmittedRuns(ops, i, edb, w, stack);
      assert ops[i..] == ops[i..i + n] + ops[i + n..];
      RunConcat(ops[i..i + n], ops[i + n..], w, stack);
      RunConcat([op], Rewritten(ops, i + n, edb), w, stack);
      match RunOps([op], w, stack)
      case None =>
      case Some(st) => RewriteRuns(ops, i + n, edb, w, st);
    } else {
      assert ops[i..] == [];
    }
  }

  /** With every relation there and the keys in range, 64 relations are the only limit. */
  lemma SixtyFour(ops: seq<Op>, start: nat, len: nat, edb: set<string>, w: World, stack: seq<Rel>)
    requires len >= 3 && IsChain(ops, start, start + len, edb) && AsEmitted(ops, start, len) && ValidDb(w.full)
    requires KeysInRange(w, ChainRels(ops, start, len, edb), ChainCols(ops, start, len, edb))
    ensures RunOps(ops[start..start + len], w, stack) == RunOps([Leapfrog(ops, start, len, edb)], w, stack)
            <==> len <= LFTJ_MAX_K
  {
    hide RunOps, IsChain, ValidDb;
    LeapfrogExact(ops, start, len, edb, w, stack);
  }

  predicate KeysInRange(w: World, rels: seq<string>, cols: seq<nat>) {
    |rels| == |cols| && forall q | 0 <= q < |rels| :: rels[q] in w.full && cols[q] < w.full[rels[q]].width
  }

  // ---- what a chain may swallow -------------------------------------------------------------

  predicate Avoids(ops: seq<Op>, start: nat, len: nat, idb: set<string>) {
    start + len <= |ops| && forall q | start <= q < start + len :: RelAt(ops[q]) !in idb
  }

  /** No chain that is replaced names a relation of the set. */
  predicate NoneSwallowed(ops: seq<Op>, edb: set<string>, idb: set<string>) {
    forall k | 0 <= k < |ops| && ChainAt(ops, k, edb) > 0 :: Avoids(ops, k, ChainAt(ops, k, edb), idb)
  }

  lemma ChainWithin(ops: seq<Op>, start: nat, end: nat, edb: set<string>, idb: set<string>)
    ensures IsChain(ops, start, end, edb - idb) ==> IsChain(ops, start, end, edb)
    ensures IsChain(ops, start, end, edb) && Avoids(ops, start, end - start, idb) ==> IsChain(ops, start, end, edb - idb)
  {
    if IsChain(ops, start, end, edb) && Avoids(ops, start, end - start, idb) {
      forall j | start < j < end
        ensures IsLink(ops[j], edb - idb) && SameKeys(ops[j], ops[start + 1])
      {
        assert IsLink(ops[j], edb) && RelAt(ops[j]) !in idb;
      }
    }
  }

  /** Chains that name none of the set are the chains of what is left. */
  lemma SameChains(ops: seq<Op>, k: nat, edb: set<string>, idb: set<string>)
    requires k < |ops| && (ChainAt(ops, k, edb) > 0 ==> Avoids(ops, k, ChainAt(ops, k, edb), idb))
    ensures ChainAt(ops, k, edb) == ChainAt(ops, k, edb - idb)
  {
    var len := ChainAt(ops, k, edb);
    if len > 0 {
      ChainWithin(ops, k, k + len, edb, idb);
      ChainWithin(ops, k, k + len + 1, edb, idb);
      ChainAtIs(ops, k, k + len, edb - idb);
    } else {
      var less := ChainAt(ops, k, edb - idb);
      if less > 0 {
        ChainWithin(ops, k, k + less, edb, idb);
        LongChain(ops, k, less, edb);
      }
    }
  }

  /** Where three members fit, the chain there is replaced. */
  lemma LongChain(ops: seq<Op>, start: nat, len: nat, edb: set<string>)
    requires len >= 3 && IsChain(ops, start, start + len, edb)
    ensures ChainAt(ops, start, edb) >= len
  {
    ChainShorter(ops, start, start + 1, start + len, edb);
    var e := ChainEnd(ops, start, start + 1, edb);
    if e < start + len {
      ChainShorter(ops, start, e + 1, start + len, edb);
    }
  }

  /** Then leaving the set out of the extensional relations changes nothing. */
  lemma {:induction false} SameRewrite(ops: seq<Op>, i: nat, edb: set<string>, idb: set<string>)
    requires NoneSwallowed(ops, edb, idb)
    ensures Rewritten(ops, i, edb) == Rewritten(ops, i, edb - idb)
    decreases |ops| - i
  {
    hide Emitted, Taken, ChainAt;
    if i < |ops| {
      SameStep(ops, i, edb, idb);
      SameRewrite(ops, i + Taken(ops, i, edb), edb, idb);
    }
  }

  lemma SameStep(ops: seq<Op>, i: nat, edb: set<string>, idb: set<string>)
    requires i < |ops| && NoneSwallowed(ops, edb, idb)
    ensures Emitted(ops, i, edb) == Emitted(ops, i, edb - idb) && Taken(ops, i, edb) == Taken(ops, i, edb - idb)
  {
    SameChains(ops, i, edb, idb);
    ChainAtSize(ops, i, edb);
    ChainAtSize(ops, i, edb - idb);
    hide ChainAt, NoneSwallowed;
  }

  // ---- chains of every length -------------------------------------------------------------------

  /** e(x, _), e(x, _), ... n times. */
  function Fan(n: nat): seq<Op>
    requires n >= 1
  {
    [Variable("e", Auto)] + seq(n - 1, _ => Join("e", [(0, 0)], [], [], Auto))
  }

  lemma FanIsChain(n: nat)
    requires n >= 3
    ensures IsChain(Fan(n), 0, n, {"e"}) && AsEmitted(Fan(n), 0, n) && ChainAt(Fan(n), 0, {"e"}) == n
  {
    assert forall j | 0 < j < n :: Fan(n)[j] == Join("e", [(0, 0)], [], [], Auto);
    assert IsChain(Fan(n), 0, n, {"e"});
    ChainAtIs(Fan(n), 0, n, {"e"});
  }

  /** Such a chain is replaced whatever its length, and computes the same up to 64 members and no further. */
  lemma FanLosesAtSixtyFive(n: nat, w: World, stack: seq<Rel>)
    requires n >= 3 && ValidDb(w.full) && "e" in w.full && w.full["e"].width >= 1
    ensures IsChain(Fan(n), 0, n, {"e"}) && ChainAt(Fan(n), 0, {"e"}) == n
    ensures RunOps(Fan(n), w, stack) == RunOps([Leapfrog(Fan(n), 0, n, {"e"})], w, stack) <==> n <= LFTJ_MAX_K
  {
    hide RunOps, IsChain, ChainAt, AsEmitted, ValidDb, KeysInRange, Leapfrog, ChainRels, ChainCols;
    FanIsChain(n);
    FanKeys(n, w);
    assert Fan(n)[0..0 + n] == Fan(n);
    SixtyFour(Fan(n), 0, n, {"e"}, w, stack);
  }

  lemma FanKeys(n: nat, w: World)
    requires n >= 3 && IsChain(Fan(n), 0, n, {"e"}) && "e" in w.full && w.full["e"].width >= 1
    ensures KeysInRange(w, ChainRels(Fan(n), 0, n, {"e"}), ChainCols(Fan(n), 0, n, {"e"}))
  {
    var ops := Fan(n);
    var part := ops[0..0 + n];
    assert forall q | 0 <= q < n :: part[q] == ops[q] && RelAt(ops[q]) == "e";
    assert ops[1] == Join("e", [(0, 0)], [], [], Auto) && ops[1].keys[0] == (0, 0);
  }
}
