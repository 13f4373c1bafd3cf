# wirelog, verified

A Dafny model of wirelog's plan compiler and of the components it stands on. Every main result
is about all inputs, all runs or all interleavings.

## What is modelled

**Rules to operators.** `Ir` gives the intermediate trees their meaning as relations with named
columns. `Lowering` is the compiler from trees to stack operators, `Serializer` and `Postfix` the
byte form of expressions, `Naming` what expressions mean over names, `RightFilters` the folding of
filters into the right side of a join. `LoweringProof` shows that the emitted operators push exactly
what the tree denotes. `Valuations` goes on to the reading of a rule as a formula: its answers are
the head tuples of the valuations that satisfy its body.

**Operators to fixpoints.** `Plan` is what the operators compute, `RuleBodies` the shape of a
relation's list, `DeltaStep`, `KFusion` and `Expansion` the expansion of recursive rules into delta
sequences, `SemiNaive` whole runs. `Program` closes the circle: a stratum of rules, compiled, expanded
and iterated until nothing is new, ends in the least model of the rules.

**Rewrites.** `Lftj` replaces join chains by leapfrog joins, `JoinFusion` folds projections into
joins, `Pipeline` runs both on what lowering emits. `Optimized` carries the least-model theorem
through chain replacement; `Swallowed` and `LostRow` show what its condition on chains is for.
`Optimized` also shows that projection fusion never fails on a compiled program and leaves the answer
of every list it runs on alone. `Aggregates` covers aggregate records and the admission of aggregates
in recursive strata.

**Underneath.** `WorkRing` and `WorkQueue` are the work queue's ring and its protocol; `Registry` and
`RegistryImpl` the lifetimes of extensions; `InternSegments`, `InternTable`, `Intern` and
`InternReaders` the intern table and its lock-free readers; `InternOrder` the independence of results
from interning order; `Crc32` and `StringOps` two smaller algorithms.

## How to read it

Values are integers; a string is its interned id. A relation is a set of rows of one width. Code
that is not part of the model (digests, floating point, number formatting, random UUIDs, addon
callbacks) is a parameter of the `Machine`, and the evaluation of a REDUCE is a parameter of the
`World`. The intern table takes allocation failures and the governor's answers as parameters. Loops
and in-place updates are methods proved against functions on values, and the laws are lemmas about
those functions. Protocols are state machines whose steps are the critical sections of the source (for
the intern table's readers, single writes); a run is a list of events, and a theorem about runs holds
for every list.

Some results say where the code falls short of what one would expect, each with a concrete failing
family and the exact condition or the condition that rules it out:

- A right-side filter that does not serialize is dropped rather than refused
  (`DroppedFilters.MixedComparisonIsDropped`). The right side is as denoted if and only if its filter
  serializes or the relation is empty (`DroppedFilters.RightSideExact`). Of more than 32 filters only the
  first 32 are emitted (`DroppedFilters.CutExact`, `DroppedFilters.BuriedFilterIsIgnored`).
- The projection rewriter reads column digits modulo 2^32, the evaluator reads the first fifteen. Fusing
  is safe if and only if the two agree (`JoinFusion.SafeIffNamesAgree`, `JoinFusion.AgreeWhen`); emitted
  names always do (`JoinFusion.EmittedAgrees`).
- The rewriter builds leapfrog joins of any length and the operator runs at most 64 relations
  (`Lftj.SixtyFour`, `Lftj.FanLosesAtSixtyFive`).
- A relation with both rules and facts counts as extensional, so a leapfrog join may swallow a relation of
  the stratum being iterated. A chain may be replaced, whatever follows it, if and only if it names no
  relation of the stratum (`Swallowed.ReplacementSafeIff`), and there is a program whose run stops too
  early (`LostRow.RunStopsTooEarly`). Where no expanded list has such a chain, the run ends in the least
  model (`Optimized.OptimizedIsLeastModel`).
- Comparing a string with a number compares the string's id, for equality as for ordering. The answer is
  independent of interning order if and only if both columns are strings or neither is
  (`InternOrder.IndependentIff`).

Documentation and code part in two places, and the model follows the code. wirelog/exec_plan.h says a
forced delta without rows is empty; in the first pass of an unseeded run it is the full relation. The
comments on drain say callbacks may still be running on workers when the ring is empty; as long as the
coordinator's calls are serialized, as wirelog/workqueue.h asks, that cannot happen
(`WorkQueue.WakeKeeps`).

`dafny verify dfyconfig.toml` checks the whole project.

## Model

| member | source | states |
|---|---|---|
| `StringOps.Utf8Next` | wirelog/string_ops.c:34-76 | one step over any byte string: how far it moves and which code point it reads, malformed sequences included |
| `StringOps.Utf8Strlen` | wirelog/string_ops.c:85-100 | the loop counts exactly the steps of the walk over the whole string |
| `StringOps.Utf8ByteOffset` | wirelog/string_ops.c:112-129 | the byte offset of a code point index is the length of that many steps |
| `StringOps.SubstrBytes` | wirelog/string_ops.c:189-224 | the bytes cut out are the specified slice, for every start and length |
| `StringOps.SubstrLength` | wirelog/string_ops.c:189-224 | for 0 <= a <= strlen and n >= 0 the slice has min(n, strlen - a) code points |
| `StringOps.SubstrSplit` | wirelog/string_ops.c:189-224 | the first k code points followed by the rest is the string |
| `StringOps.SubstrOfSubstr` | wirelog/string_ops.c:189-224 | a slice of a slice is one slice |
| `StringOps.CountMatches` | wirelog/string_ops.c:387-398 | the counting pass counts the leftmost non-overlapping occurrences |
| `StringOps.CopyReplaced` | wirelog/string_ops.c:409-425 | the copying pass fills a buffer of exactly the computed size with the replaced string and its terminator |
| `StringOps.BufferSize` | wirelog/string_ops.c:387-404 | the size computed from the count is exactly the length of the replaced string |
| `StringOps.StrReplace` | wirelog/string_ops.c:373-433 | leftmost non-overlapping replacement of every occurrence, for all byte strings |
| `StringOps.ReplacedLength` | wirelog/string_ops.c:387-404 | length of the result from the number of occurrences |
| `StringOps.ReplaceSelf` | wirelog/string_ops.c:373-433 | replacing a text by itself gives the string back |
| `StringOps.ReplaceNothing` | wirelog/string_ops.c:373-433 | a text that does not occur leaves the string alone |
| `Bytes.LeRoundTrip` | wirelog/exec_plan_gen.c:232-275 | little-endian fields read back as written, when the value fits |
| `Bytes.Int64RoundTrip` | wirelog/exec_plan_gen.c:256-268 | eight bytes carry every signed 64-bit value and give it back |
| `Bytes.DecimalRoundTrip` | wirelog/exec_plan_gen.c:1591-1592 | printing a column number and reading its digits gives the number |
| `Expr.FindColumn` | wirelog/exec_plan_gen.c:357-386 | a name stands for the first column that carries it, and for none when none does |
| `Machine.BandOfPredicates` | wirelog/exec_plan_gen.c:1692-1697 | on 0/1 values bitwise AND is conjunction |
| `Serializer.ExprBuffer.Ensure` | wirelog/exec_plan_gen.c:205-220 | makes room for the extra bytes and keeps the contents, in the old array or a fresh one |
| `Serializer.ExprBuffer.PushBytes` | wirelog/exec_plan_gen.c:277-285 | appends the bytes and nothing else |
| `Serializer.ExprBuffer.PushLittleEndian` | wirelog/exec_plan_gen.c:232-275 | appends the low bytes, least significant first |
| `Serializer.ExprBuffer.PushToken` | wirelog/exec_plan_gen.c:924-1109 | appends one instruction: opcode and payload |
| `Serializer.ExprBuffer.Serialize` | wirelog/exec_plan_gen.c:923-1109 | appends exactly the specified bytes after those already there, and succeeds if and only if the expression serializes |
| `Serializer.SerializedIsEncoded` | wirelog/exec_plan_gen.c:924-1109 | the bytes are the postfix form of the tree with names resolved to columns and opcodes typed; failing and having no such tree coincide |
| `Serializer.TagArity` | wirelog/exec_plan_gen.c:429-720 | the opcode selected by operand domains pops as many operands as the node has |
| `Postfix.DecodeEncode` | wirelog/exec_plan.h:26-44 | decoding an instruction inside any buffer gives it back and stops at its last byte |
| `Postfix.RunTree` | wirelog/exec_plan.h:26-44 | compiler correctness: inside any buffer and over any stack the bytes of a tree are consumed exactly and push its value, or fail when it fails |
| `Postfix.EvalTree` | wirelog/exec_plan.h:26-44 | a whole buffer evaluates to the value of its expression |
| `Postfix.RebuildTree` | wirelog/exec_plan.h:26-44 | inside any buffer and over any stack of trees, rebuilding pushes exactly the encoded tree |
| `Postfix.DecodeTree` | wirelog/exec_plan.h:26-44 | a decoder gets exactly the encoded tree back |
| `Postfix.EncodeInjective` | wirelog/exec_plan.h:26-44 | different trees have different bytes |
| `Naming.ColNameReadsColumn` | wirelog/exec_plan_gen.c:1591-1592 | the emitted name of a 32-bit column reads that column |
| `Naming.ResolvedMeaning` | wirelog/exec_plan_gen.c:924-1109 | the resolved tree over a row has the value the expression has over the names |
| `Naming.BytesMean` | wirelog/exec_plan_gen.c:924-1109 | the emitted bytes, on any row, compute the meaning of the expression under the valuation its columns give |
| `Lowering.OpList.TranslateNode` | wirelog/exec_plan_gen.c:1724-2180 | appends exactly the specified operators after those already there, and succeeds if and only if the tree lowers |
| `Lowering.OpList.TranslateUnion` | wirelog/exec_plan_gen.c:2066-2088 | children in order, CONCAT after every one but the first; the CONSOLIDATE at the end is the caller's |
| `Lowering.OpList.TranslateFlatmap` | wirelog/exec_plan_gen.c:2090-2177 | the child, then FILTER if there is a condition, then MAP if there are columns; refuses extension calls |
| `LoweringProof.TreeFits` | wirelog/exec_plan_gen.c:1329-1501 | what a tree denotes has rows of one width, and for body trees its header is the layout the compiler collects, column for column |
| `LoweringProof.KeysRead` | wirelog/exec_plan_gen.c:1558-1594 | keys resolved to positions compare the columns the key names stand for |
| `LoweringProof.RightRuns` | wirelog/exec_plan_gen.c:1631-1717 | the right relation under its folded filter is what the right child denotes |
| `LoweringProof.LoweringCorrect` | wirelog/exec_plan_gen.c:1724-2180 | for every lowerable tree, database and stack: the emitted operators push exactly the relation the tree denotes, and fail exactly when it denotes none |
| `RightFilters.CombinedEval` | wirelog/exec_plan_gen.c:1670-1705 | the folded bytes evaluate to the fold of the conditions' values |
| `RightFilters.FilterIsConjunction` | wirelog/exec_plan_gen.c:1631-1717 | conditions joined by bitwise AND pass exactly the rows on which all of them hold, when they are predicates |
| `RightFilters.ComparisonsArePredicates` | wirelog/exec_plan_gen.c:646-700 | comparisons and boolean literals are 0, 1 or an error on every row |
| `RightFilters.NoCallMeaning` | wirelog/exec_plan_gen.c:1663-1672 | conditions without extension calls do not depend on the extension snapshot |
| `DroppedFilters.NoBytesNoValue` | wirelog/exec_plan_gen.c:1707-1716 | a condition that does not serialize has no value on any row |
| `DroppedFilters.RightSideExact` | wirelog/exec_plan_gen.c:1707-1716 | a right side is emitted as denoted if and only if its filter serializes or the relation is empty |
| `DroppedFilters.MixedComparisonIsDropped` | wirelog/exec_plan_gen.c:1707-1716 | a float column compared with an integer literal on the right side: whatever column and literal, the filter disappears |
| `DroppedFilters.CutExact` | wirelog/exec_plan_gen.c:1635-1650 | of more than 32 filters on a right side the first 32 are emitted: as denoted if and only if, on the rows of the relation, those 32 imply the others |
| `DroppedFilters.BuriedFilterIsIgnored` | wirelog/exec_plan_gen.c:1635-1650 | a filter that never holds under 32 or more that always hold: for every relation and depth the result is right if and only if the relation is empty |
| `Valuations.SetupJoinKeys` | wirelog/ir/program.c:1496-1583 | the keys of a join are exactly the variables both sides bind, no key twice |
| `Valuations.BodyMeans` | wirelog/exec_plan_gen.c:1725-2180 | the rows of a rule body are exactly the valuations of its variables that satisfy it as a formula, negation included |
| `Valuations.RuleAnswers` | wirelog/exec_plan_gen.c:1725-2180 | a rule compiled and run pushes exactly the head tuples of the satisfying valuations, and fails if and only if the head fails on one |
| `Plan.RunConcat` | wirelog/exec_plan.h:403-424 | running a list is running its front and then its back |
| `RuleBodies.BodyPushes` | wirelog/exec_plan.h:403-424 | a body pushes exactly its relation and leaves the rest of the stack alone |
| `RuleBodies.UnionMembers` | wirelog/exec_plan_gen.c:2066-2088 | a row is in the union if and only if it is in one of the bodies |
| `RuleBodies.PlanRuns` | wirelog/exec_plan_gen.c:2079-2103 | a relation plan computes the union of its bodies |
| `DeltaStep.StepRow` | wirelog/exec_plan.h:283-308 | semi-naive step for one body: a row of old and new rows together is a row of the old ones or comes from one position reading the new rows |
| `DeltaStep.BodyBelow` | wirelog/exec_plan.h:403-424 | a body that reads at least as much derives at least as much |
| `DeltaStep.PrefilterIsNeutral` | wirelog/passes/sip.c:8-26 | a semijoin that only anticipates the next join changes nothing, also when that join reads its delta |
| `KFusion.ScanOrdered` | wirelog/exec_plan_gen.c:2956-3012 | the segments of a list lie in order, do not overlap and each starts at a VARIABLE |
| `KFusion.NeuteredAt` | wirelog/exec_plan_gen.c:2956-3012 | switching off changes only the leading VARIABLE of a segment without a delta |
| `KFusion.SequenceSound` | wirelog/exec_plan_gen.c:2866-3012 | no sequence yields a row the original list does not yield |
| `KFusion.FusionComplete` | wirelog/exec_plan_gen.c:2866-3012 | every row of the original on old and new rows is a row on the old ones or of one of the K sequences, switched-off segments notwithstanding |
| `KFusion.FusionSeeds` | wirelog/exec_plan_gen.c:2956-3012 | in the seed pass the sequences together yield everything the list yields |
| `Expansion.CountDeltaPositions` | wirelog/exec_plan_gen.c:2375-2406 | the positions found are exactly the VARIABLEs and JOINs over the stratum, in order |
| `Expansion.SwitchOff` | wirelog/exec_plan_gen.c:3000-3011 | a segment without a delta is switched off at its leading VARIABLE, for good or after the seed pass |
| `Expansion.FinishSegment` | wirelog/exec_plan_gen.c:2956-3012 | a finished segment is switched off exactly as specified and the others are left alone |
| `Expansion.TagSequence` | wirelog/exec_plan_gen.c:2899-2954 | the copy has the delta at its position, full relations at the other positions and nothing else changed |
| `Expansion.NeuterSegments` | wirelog/exec_plan_gen.c:2956-3012 | the one-pass scan over the array leaves the specified modes |
| `Expansion.ExpandKFusion` | wirelog/exec_plan_gen.c:2866-3034 | the K arrays are the K specified sequences |
| `SemiNaive.SameAfterEveryRound` | wirelog/exec_plan.h:283-308 | semi-naive and naive iteration have the same sets after every round |
| `SemiNaive.SemiNaiveIsLeastFixpoint` | wirelog/exec_plan.h:283-308 | when a round adds nothing the sets are closed, hold the facts and lie inside every closed database that holds them |
| `SemiNaive.SemiNaiveStops` | wirelog/exec_plan.h:283-308 | below a closed database some round adds nothing, after at most as many rounds as there are rows to add |
| `SemiNaive.SerialIsLeastFixpoint` | wirelog/columnar/eval_serial.c:553-650 | the serial evaluator, which appends while the round goes on, stops at the same least fixpoint |
| `SemiNaive.SerialStops` | wirelog/columnar/eval_serial.c:553-650 | the same for the serial evaluator, in every order of the relations |
| `SemiNaive.NothingNewIsClosed` | wirelog/exec_plan.h:283-308 | a round that adds nothing has reached a closed database |
| `Program.RelationEmits` | wirelog/exec_plan_gen.c:1725-2180 | the rules of a relation lower to a plan of plain stratified bodies joined by CONCAT |
| `Program.CompiledIsValid` | wirelog/exec_plan_gen.c:1725-2180 | what the compiler emits for a stratum is what semi-naive evaluation relies on |
| `Program.RelationAnswers` | wirelog/exec_plan_gen.c:1725-2180 | a compiled relation answers exactly what some rule of it derives, and fails if and only if one of them fails |
| `Program.ClosedIffModel` | wirelog/exec_plan.h:283-308 | a database is closed under the compiled plans if and only if it is a model of the rules |
| `Program.SemiNaiveIsLeastModel` | wirelog/exec_plan.h:283-308 | rules compiled, expanded and iterated: when a round adds nothing the relations are the least model of the rules above the facts |
| `Program.SemiNaiveReachesLeastModel` | wirelog/exec_plan.h:283-308 | a program with a finite model stops, after at most as many rounds as that model has rows the facts lack, at its least one |
| `Program.SerialIsLeastModel` | wirelog/columnar/eval_serial.c:553-650 | the same for the serial evaluator, in every order of the relations |
| `Program.SerialReachesLeastModel` | wirelog/columnar/eval_serial.c:553-650 | the same for the serial evaluator |
| `Optimized.FlatRewritten` | wirelog/exec_plan_gen.c:3510-3588 | chains never cross rules: rewriting a relation's list is rewriting each rule body in it |
| `Optimized.ReplacedIsValid` | wirelog/exec_plan_gen.c:3510-3588 | where every list that is still expanded has no stratum relation in a replaced chain, the rewritten plans are again what semi-naive evaluation relies on |
| `Optimized.OptimizedIsLeastModel` | wirelog/exec_plan_gen.c:4526-4531 | rules compiled, chains replaced, expanded and iterated, under that condition on replaced chains: when a round adds nothing the relations are the least model of the rules above the facts, facts of the stratum included |
| `Optimized.OptimizedReachesLeastModel` | wirelog/exec_plan_gen.c:4526-4531 | and such a round comes, after at most as many rounds as the model has rows the facts lack |
| `Optimized.OptimizedSerialIsLeastModel` | wirelog/columnar/eval_serial.c:553-650 | the same for the serial evaluator |
| `Optimized.OptimizedSerialReachesLeastModel` | wirelog/columnar/eval_serial.c:553-650 | and such a pass comes, within the same bound |
| `Optimized.SequencesFused` | wirelog/exec_plan_gen.c:2343-2355 | fusing projections succeeds on every delta sequence of such a program and leaves its answer alone in every world |
| `Optimized.PlansFused` | wirelog/exec_plan_gen.c:2338-2343 | fusing projections succeeds on every unexpanded list of such a program and leaves its answer alone in every world |
| `Lftj.ChainLength` | wirelog/exec_plan_gen.c:3120-3152 | the loop finds the longest chain at a position, and 0 when it has fewer than three members |
| `Lftj.BuildLeapfrog` | wirelog/exec_plan_gen.c:3159-3213 | relations and key columns of the chain, in order |
| `Lftj.HasChain` | wirelog/exec_plan_gen.c:3520-3536 | found if and only if a chain starts somewhere |
| `Lftj.RewriteChains` | wirelog/exec_plan_gen.c:3511-3588 | the scan replaces each maximal chain where it starts and keeps every other operator |
| `Lftj.ProductShape` | wirelog/exec_plan_gen.c:3120-3213 | later relations are appended, so the first relation's key column never moves |
| `Lftj.LeapfrogExact` | wirelog/exec_plan_gen.c:3159-3213 | a chain and its leapfrog join compute the same if and only if the leapfrog join can run or the first relation is missing |
| `Lftj.SixtyFour` | wirelog/columnar/lftj.c:230-243 | with relations and key columns there, they compute the same if and only if the chain has at most 64 members |
| `Lftj.FanLosesAtSixtyFive` | wirelog/columnar/lftj.c:230-243 | for every length from three on a chain of that length, replaced as a whole, which computes the same if and only if it has at most 64 members |
| `Lftj.RewriteRuns` | wirelog/exec_plan_gen.c:3510-3588 | where every replaced chain can run as a leapfrog join, the rewritten list computes what the original computes, from every stack |
| `Lftj.SameRewrite` | wirelog/exec_plan_gen.c:3510-3588 | where no replaced chain names a relation of a set, leaving that set out of the extensional relations changes nothing |
| `Lftj.ListExtensional` | wirelog/exec_plan_gen.c:4052-4070 | the list of extensional relations holds exactly those without rules or with facts |
| `Swallowed.RowIsLost` | wirelog/exec_plan_gen.c:3119-3213 | for every leapfrog join over at most 64 relations that names a relation of the stratum: two more reads of it, and a step in which a row derivable from the new rows and not before is in none of the sequences |
| `Swallowed.SafeIffOutside` | wirelog/exec_plan_gen.c:3119-3213 | a leapfrog join of at most 64 relations loses nothing in front of every continuation, in every step, if and only if it names no relation of the stratum |
| `Swallowed.ReplacementSafeIff` | wirelog/exec_plan_gen.c:3119-3213 | so a chain of three to 64 members may be replaced, whatever follows it, if and only if none of its members is of the stratum |
| `Swallowed.HarmlessSwallow` | wirelog/exec_plan_gen.c:3119-3213 | in front of one particular continuation even a swallowed relation loses nothing |
| `LostRow.RunStopsTooEarly` | wirelog/exec_plan_gen.c:4526-4531 | a program, for any three values: below a model, with every other condition of the least-model theorem met, the rewritten run of both evaluators stops after one round at a database that is no model |
| `LostRow.ChainIsSwallowed` | wirelog/exec_plan_gen.c:3510-3588 | in that program the replaced chain names the stratum and the list stays expanded |
| `LostRow.ExtensionalIs` | wirelog/exec_plan_gen.c:4052-4070 | its relation with a rule and a fact is in the list of extensional relations |
| `Swallowed.DisjointKeepsStratified` | wirelog/exec_plan_gen.c:3510-3588 | replacing chains over relations outside the stratum leaves every read of the stratum at a delta position |
| `JoinFusion.ColumnRead` | wirelog/exec_plan_gen.c:2250-2268 | the byte test for one column expression, digits wrapping at 32 bits |
| `JoinFusion.PureProjection` | wirelog/exec_plan_gen.c:2239-2272 | recognises exactly the projections |
| `JoinFusion.ComposeProjection` | wirelog/exec_plan_gen.c:2275-2300 | composes index lists, and fails exactly on an index beyond the JOIN's own projection |
| `JoinFusion.FuseAt` | wirelog/exec_plan_gen.c:2302-2326 | one pair becomes one JOIN and the operators behind it move down by one |
| `JoinFusion.PairFuses` | wirelog/exec_plan_gen.c:2274-2300 | the fused JOIN computes what the JOIN and the projection compute, in every world |
| `JoinFusion.RewriteJoinProjectFusion` | wirelog/exec_plan_gen.c:2302-2326 | the in-place pass leaves the specified list in the array, fails if and only if a composition fails, and touches nothing beyond the count |
| `JoinFusion.FusePreserves` | wirelog/exec_plan_gen.c:2302-2326 | where names agree, a successful pass keeps the meaning in every world and from every stack, and leaves no JOIN in front of a projection |
| `JoinFusion.FuseSucceedsIff` | wirelog/exec_plan_gen.c:2275-2327 | the pass succeeds if and only if every run of projections composes onto the JOIN before it |
| `JoinFusion.SafeIffNamesAgree` | wirelog/exec_plan_gen.c:2239-2300 | a projection is safe to fuse into every JOIN if and only if rewriter and evaluator read the same columns from its names |
| `JoinFusion.AgreeWhen` | wirelog/exec_plan_gen.c:2261-2268 | they do so if and only if the first fifteen digits spell the number modulo 2^32 |
| `JoinFusion.WideNameMisread` | wirelog/exec_plan_gen.c:2261-2268 | names of columns from 2^32 on are taken for smaller columns |
| `JoinFusion.EmittedAgrees` | wirelog/exec_plan_gen.c:2239-2272 | names the planner emits always agree |
| `Pipeline.LoweredIsRaw` | wirelog/exec_plan_gen.c:1725-2180 | lowered lists force nothing, project in no JOIN, and their column reads agree |
| `Pipeline.ReadsComeFromVariables` | wirelog/exec_plan_gen.c:2239-2272 | bytes the rewriter takes for a column read were emitted for a variable |
| `Pipeline.RewritesKeepMeaning` | wirelog/exec_plan_gen.c:4526-4531 | for every lowered tree whose chains can run as leapfrog joins, chain replacement followed by a successful projection fusion leaves the meaning lowering gave it |
| `InternOrder.OperatorSame` | wirelog/exec_plan_gen.c:429-471 | each selected opcode gives the same result under two id assignments, up to renaming ids |
| `InternOrder.CompareSame` | wirelog/exec_plan_gen.c:646-700 | comparisons: equality of ids is equality of strings, and ordering looks at strings |
| `InternOrder.DigestSame` | wirelog/exec_plan_gen.c:429-471 | digests read bytes of strings and of numbers, never ids of strings |
| `InternOrder.BytesSame` | wirelog/exec_plan_gen.c:735-794 | emitted bytes of a well-typed expression give the same value whatever order strings were interned in |
| `InternOrder.IndependentIff` | wirelog/exec_plan_gen.c:645-700 | for all six operators and all pairs of column types that serialize: the emitted comparison gives the same under every two id assignments if and only if both columns are strings or neither is |
| `InternOrder.MixedDepends` | wirelog/exec_plan_gen.c:645-700 | for a string against a number two concrete numberings of the strings, and a number, that every operator tells apart, equality included |
| `InternOrder.PairSerializes` | wirelog/exec_plan_gen.c:1055-1063 | comparing two columns serializes if and only if both are floats or neither is |
| `Aggregates.AggregateSpec.Observe` | wirelog/exec_plan_gen.c:1236-1276 | one observation updates veto and record as specified |
| `Aggregates.VetoStands` | wirelog/exec_plan_gen.c:1201-1206 | once vetoed, no sequence of later rules brings a record back |
| `Aggregates.FoldRecords` | wirelog/exec_plan_gen.c:1236-1276 | admitted if and only if all are MIN or all MAX, of one shape and at most one known domain; then the record speaks for all of them and has the known domain |
| `Aggregates.OrderIndependent` | wirelog/exec_plan_gen.c:1236-1276 | the result depends only on which reductions occur |
| `Aggregates.PermutationIndependent` | wirelog/exec_plan_gen.c:1236-1276 | every order of the rules gives the same result |
| `Aggregates.ValidateRecursiveAggregates` | wirelog/exec_plan_gen.c:3862-3898 | the nested loops accept if and only if every recursive stratum is acceptable |
| `Aggregates.ConsumersOk` | wirelog/exec_plan_gen.c:3795-3851 | accepts if and only if no relation reads an aggregate relation other than itself in a recursive stratum of several |
| `Aggregates.FindReduce` | wirelog/exec_plan_gen.c:3714-3721 | found if and only if some operator is a REDUCE |
| `Aggregates.FindRead` | wirelog/exec_plan_gen.c:3728-3737 | found if and only if some operator reads the name |
| `Aggregates.FindConsumer` | wirelog/exec_plan_gen.c:3803-3820 | found if and only if another relation of the stratum reads this aggregate |
| `Aggregates.MonotoneOk` | wirelog/exec_plan_gen.c:3861-3893 | accepts if and only if every REDUCE of every recursive stratum is monotone |
| `Aggregates.SharedStratumExact` | wirelog/exec_plan_gen.c:3796-3898 | a strongly connected recursive stratum of several relations is accepted if and only if it has no REDUCE |
| `Aggregates.SingleRelationExact` | wirelog/exec_plan_gen.c:3862-3898 | a relation alone in its stratum is accepted if and only if every REDUCE is MIN or MAX |
| `WorkRing.RingCapacity` | wirelog/workqueue.c:70-91 | the least power of two that holds what is needed; only the worker count can fail |
| `WorkRing.Ring.constructor` | wirelog/workqueue.c:140-228 | a new ring is empty |
| `WorkRing.Ring.Enqueue` | wirelog/workqueue.c:232-256 | appends to the queue, or leaves a full ring as it was |
| `WorkRing.Ring.Dequeue` | wirelog/workqueue.c:117-121 | takes the oldest item |
| `WorkQueue.Queue.Submit` | wirelog/workqueue.c:231-256 | accepts an item if and only if the ring has room; a refusal changes nothing |
| `WorkQueue.Queue.TakeOrSleep` | wirelog/workqueue.c:105-122 | a worker takes the oldest item if and only if the gate is open and one waits |
| `WorkQueue.Queue.Complete` | wirelog/workqueue.c:127-132 | counts one completion and signals if and only if it was the last of the batch |
| `WorkQueue.Queue.WaitTest` | wirelog/workqueue.c:258-282 | opens the gate on entry; when everything is completed shuts it and resets the counters |
| `WorkQueue.Queue.DrainTake` | wirelog/workqueue.c:284-316 | shuts the gate and takes the oldest item, if there is one |
| `WorkQueue.StepKeeps` | wirelog/workqueue.c:97-134 | every step of every thread keeps conservation, order, once-each and the wakeup conditions |
| `WorkQueue.RunKeeps` | wirelog/workqueue.c:97-316 | over every interleaving: submitted = queued + running + completed, items start in submission order and each once, no worker sleeps at an open gate while an item waits, and the waiting coordinator is notified exactly when everything is completed |
| `WorkQueue.BarrierHolds` | wirelog/workqueue.c:259-316 | wait_all and drain return only when nothing is queued or running and every accepted item has run |
| `WorkQueue.DrainRunsOnCaller` | wirelog/workqueue.c:285-316 | a batch ended by drain ran wholly on the caller |
| `WorkQueue.WakeKeeps` | wirelog/workqueue.c:297-304 | the coordinator never sleeps inside drain |
| `WorkQueue.ShutGateHolds` | wirelog/workqueue.c:107-111 | behind a shut gate workers only test and sleep |
| `WorkQueue.StartedOnce` | wirelog/workqueue.c:117-121 | no item is started twice, and items start in order |
| `WorkQueue.SomeoneCanWork` | wirelog/workqueue.c:109-131 | while the coordinator sleeps un-notified some worker can take or finish an item |
| `WorkQueue.WorkDecreases` | wirelog/workqueue.c:109-131 | taking or finishing an item decreases 2 * queued + running |
| `WorkQueue.WaitCanReturn` | wirelog/workqueue.c:264-277 | from every state of a wait, at most 2 * queued + running working steps lead to its return |
| `WorkQueue.EveryWaitIsBounded` | wirelog/workqueue.c:258-277 | over every run during a wait: takes and completions so far plus what remains equal what remained at the start, and the signal is there if and only if that many steps were taken |
| `RegistryImpl.NameCopy` | wirelog/extension_registry.c:77-97 | names lose surrounding blanks and keep 1 to 255 bytes |
| `RegistryImpl.ExtensionRegistry.Register` | wirelog/extension_registry.c:261-322 | adds an entry held once, or refuses and changes nothing |
| `RegistryImpl.ExtensionRegistry.Unregister` | wirelog/extension_registry.c:324-359 | takes the entry out of the registry and drops its hold; an unknown or pinned name changes nothing |
| `RegistryImpl.ExtensionRegistry.Acquire` | wirelog/extension_registry.c:361-406 | a new snapshot that holds every registered entry once |
| `RegistryImpl.ExtensionRegistry.RetainSnapshot` | wirelog/extension_registry.c:408-416 | one more reference to a live snapshot and nothing else |
| `RegistryImpl.ExtensionRegistry.ReleaseSnapshot` | wirelog/extension_registry.c:418-453 | the last release gives back the pins and holds of every entry of the snapshot, any other only counts down, and without references nothing changes |
| `RegistryImpl.ExtensionRegistry.FindInSnapshot` | wirelog/extension_registry.c:455-473 | an entry of the snapshot that has the trimmed name, or none when none has it |
| `RegistryImpl.ExtensionRegistry.AcquireLease` | wirelog/extension_registry.c:479-499 | one more hold on an entry of the snapshot; refused for any other |
| `RegistryImpl.ExtensionRegistry.ReleaseLease` | wirelog/extension_registry.c:501-515 | gives one hold back |
| `RegistryImpl.ExtensionRegistry.PinByName` | wirelog/extension_registry.c:517-535 | one more pin, on the entry and on the snapshot's slot for it; refused when the snapshot lacks the name |
| `RegistryImpl.ExtensionRegistry.UnpinEntry` | wirelog/extension_registry.c:537-559 | takes one such pin back; refused when the snapshot has none |
| `RegistryImpl.ExtensionRegistry.Destroy` | wirelog/extension_registry.c:241-259 | succeeds if and only if nothing uses the registry, and then every entry ever accepted is at zero and destroyed once |
| `Registry.StepKeeps` | wirelog/extension_registry.c:262-559 | every operation keeps each count equal to its holders |
| `Registry.CountsHoldInRuns` | wirelog/extension_registry.c:200-559 | in every run an entry's references are 1 if registered plus live snapshots plus live leases, and its pins are its live snapshots' pins |
| `Registry.DestroyedOnce` | wirelog/extension_registry.c:174-190 | the destroy callback is due at most once, and if and only if nobody holds the entry |
| `Registry.StaysDestroyed` | wirelog/extension_registry.c:174-190 | once due it stays due |
| `Registry.RefusedRegistration` | wirelog/extension_registry.c:262-322 | registration succeeds if and only if descriptor and name are good and the name is new; a refusal changes nothing |
| `Registry.PinnedIsHeld` | wirelog/extension_registry.c:343-346 | a pinned entry is held by a live snapshot and is not destroyed |
| `Registry.DestroyMeansAllGone` | wirelog/extension_registry.c:242-259 | when the registry may be destroyed every entry ever accepted has reached zero and been destroyed once |
| `InternSegments.ILog2` | wirelog/intern.c:244-263 | the bit-scan loop computes the position of the highest bit |
| `InternSegments.InSegment` | wirelog/intern.c:267-285 | every id lies inside its segment |
| `InternSegments.WithinDirectory` | wirelog/intern.c:118-121 | every id the table hands out has one of the 26 segments |
| `InternSegments.PlaceOfId` | wirelog/intern.c:267-285 | every place of a segment belongs to exactly one id, so ids and places correspond one to one |
| `InternSegments.DirectorySpans` | wirelog/intern.c:118-121 | the 26 segments hold exactly 2^32 - 64 ids |
| `InternTable.SomeEmpty` | wirelog/intern.c:308-364 | more slots than ids leaves a slot empty, so probing ends |
| `InternTable.MissMeansAbsent` | wirelog/intern.c:348-364 | stopping at an empty slot means the string was never interned |
| `InternTable.Lookup` | wirelog/intern.c:348-364 | finds the id of an interned string, or the empty slot where the string belongs |
| `InternTable.InsertIndexes` | wirelog/intern.c:616-632 | writing the next id where its probe stopped indexes one string more and loses none |
| `InternTable.ResizePrepare` | wirelog/intern.c:308-339 | a table twice the size that finds the same strings |
| `InternTable.FindEmpty` | wirelog/intern.c:621-625 | the first empty slot of a string's probe sequence |
| `Intern.RetainedNext` | wirelog/intern.c:562-590 | what one more string adds to the retained bytes |
| `Intern.Table.RetainedBytes` | wirelog/intern.c:164-190 | the rescan adds up slots, segments in use and strings |
| `Intern.Table.Attach` | wirelog/intern.c:401-447 | attaches if and only if none is attached, the governor admits and the footprint is below the saturation value; then the reservation is the full footprint, otherwise nothing changes |
| `Intern.Table.Detach` | wirelog/intern.c:449-472 | no governor and no reservation afterwards; the strings stay |
| `Intern.Table.GrownBytes` | wirelog/intern.c:558-591 | the incremental footprint is what a rescan after the put would give, and none on 64-bit overflow |
| `Intern.Table.Install` | wirelog/intern.c:615-637 | one more string, indexed and stored; the reservation is the new footprint |
| `Intern.Table.Put` | wirelog/intern.c:502-648 | the id of the string, new or old; refused exactly when memory, ids or the governor refuse, and a refusal changes nothing; reserved bytes stay equal to a rescan |
| `Intern.Table.Get` | wirelog/intern.c:651-666 | an id if and only if the string was interned |
| `Intern.Table.Reverse` | wirelog/intern.c:669-681 | the string of every id below the count, and nothing for any other number |
| `Intern.PutsAreInjective` | wirelog/intern.c:502-648 | after any run of puts ids and strings correspond one to one |
| `Intern.IdsAreStable` | wirelog/intern.c:502-648 | an id names the same string after any further puts |
| `InternReaders.StepKeeps` | wirelog/intern.c:616-637 | each write of a put keeps: a stored count vouches only for entries written before it |
| `InternReaders.ReadersAreSafe` | wirelog/intern.c:668-681 | a reader that loaded any stored count misses neither pointer nor entry of an id below it, however many writes happen between its reads, and the entry it reads is the one published with that count |
| `InternReaders.PutPublishes` | wirelog/intern.c:616-637 | the writes of a put, in order, give the id its text and store the next count |
| `Crc32.InitTable` | wirelog/crc32.c:132-148 | the table holds each byte value's remainder after eight division steps |
| `Crc32.UpdateByte` | wirelog/crc32.c:164-165 | one table lookup equals feeding the eight bits of the byte one by one |
| `Crc32.SerialIsSteps` | wirelog/crc32.c:132-148 | feeding up to 32 bits one by one is adding them and taking that many steps |
| `Crc32.Crc` | wirelog/crc32.c:150-167 | for every message the table-driven loop equals bit-serial reflected division |
| `Crc32.EthernetCrc32` | wirelog/crc32.c:150-167 | the frame check sequence of section 3.2.9 of IEEE 802.3, bit by bit |
| `Crc32.CastagnoliCrc32` | wirelog/crc32.c:228-234 | CRC32C of section 12.1 of RFC 3720, bit by bit |
| `Crc32.StepsXor` | wirelog/crc32.c:137-145 | division steps are linear |
| `Crc32.StepsInjective` | wirelog/crc32.c:137-145 | division steps lose nothing when the polynomial reaches the top bit |
| `Crc32.BurstDetected` | wirelog/crc32.c:150-167 | messages that differ only within four consecutive bytes have different checksums |
| `Crc32.PolynomialsReachTop` | wirelog/crc32.c:177-193 | both polynomials reach the top bit |

## Left out

- The columnar evaluator's storage, caches, merges, hash joins, arrangements and frontier skips: operators have the meanings of wirelog/exec_plan.h.
- The AUTO delta heuristic: lists with fewer than two delta positions are evaluated in full in every round.
- Incremental updates, retraction and the partitioned evaluator: runs start from facts and only grow.
- The evaluator's 64-slot expression stack: deeper expressions are evaluated here and refused there.
- AGGREGATE lowering and the evaluation of REDUCE: only their admission is modelled.
- Parsing, stratification, semantic checks, the optimizer's own passes, EXCHANGE operators and materialization hints.
- Allocation failure and its unwinding, except in the intern table.
- Conversions in "colN" names: strtol and strtoul also accept blanks and a sign, the model takes digits only.
- Shutdown of the work queue, thread creation, and fairness: progress is stated as a step that is always possible and a measure it decreases.
- Descriptor validation and callback policies of extensions: one parameter says whether a descriptor is good.
- Hardware CRC instructions and lazy initialization of the tables.
- LoweringProof.LoweringCorrect: asks that the relations a tree scans are there with the widths it names, that right children are at most 32 filters over a scan and those filters serialize, and that several folded conditions are 0/1-valued; the compiler also accepts other right children that carry a relation name.
- Valuations.BodyMeans: asks that a scan binds each variable once, because repeated variables within an atom become filters before lowering.
- DroppedFilters.RightSideExact: stated for at most 32 conditions; for more, `DroppedFilters.CutExact` applies.
- Lftj.LeapfrogExact: relations carry no column types here, so the operator's refusal of key columns of different types is not modelled.
- Lftj.ChainLength: keys are column numbers here, so keys that are not of the form "colN" are not modelled.
- Optimized.OptimizedIsLeastModel: asks that no expanded list has a replaced chain that names the stratum, and that every chain can run as a leapfrog join; for one given program the first is not necessary, because the rest of a rule may leave nothing to lose (`Swallowed.HarmlessSwallow`), so the converse is stated over all continuations of the chain (`Swallowed.ReplacementSafeIff`). Lists that are not expanded after the replacement are exempt because they are evaluated in full here; where the code reads deltas in them by the AUTO heuristic, the exemption does not carry over.
- Optimized.OptimizedSerialIsLeastModel: the same.
- Optimized.ReplacedIsValid: the same.
- SemiNaive.SerialIsLeastFixpoint: lists with fewer than two delta positions are evaluated in full, where the code may read deltas by the AUTO heuristic.
- Serializer.ExprBuffer.Ensure: does not model the 32-bit capacity or a failing allocation.
- Serializer.ExprBuffer.Serialize: asks that operator nodes have the operand count their opcode pops, as the trees are built; for any other count the code emits the operands and the opcode all the same.
- Lowering.OpList.TranslateNode: asks that right children are filters over a scan; the code takes the relation name of whatever node is under the filters.
- JoinFusion.WideNameMisread: the evaluator compares the column number modulo 2^32 with the row's width, where the model reads 0 for every column beyond the row; no emitted name has such a number (`JoinFusion.EmittedAgrees`).
- InternOrder.BytesSame: id assignments here give every string an id, where a table holds at most 2^32 - 64 strings.
- RegistryImpl.ExtensionRegistry.Register: one parameter stands for the validation of the descriptor.
- Expansion.CountDeltaPositions: does not model the 32-bit counter, which a list that fits in memory does not exceed.
- InternTable.Lookup: probes by remainder where the code masks, which is the same for a power-of-two size.
