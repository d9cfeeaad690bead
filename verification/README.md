# pewpew, verified

pewpew is a load tester: it sends HTTP requests at a scheduled rate, feeds values from responses and files
through channels ("providers") into later requests, and reports statistics. Most of its logic lies in small
state machines and a small expression compiler. This project models those parts and proves what they
promise, or exactly when they keep the promise.

| component | files | main results |
|---|---|---|
| expression compiler and `select` queries | `Expressions`, `SourceSyntax`, `Precedence`, `OperatorLaws`, `IndexingLaws`, `FunctionCalls`, `SelectParser`, `References`, `SelectNames`, `SelectCorrectness`, `Marks`, `UnmarkedExpressions`, `TupleOwnership`, `Select`, `SelectNew`, `SelectQuery` | the operator splitter builds the one derivation of the layered grammar; compilation with all its folding means what a direct interpreter says; exactly when a built query sends what it means as written; exactly when written marks are read |
| YAML decoder | `YamlEvents`, `YamlDecoder`, `YamlTrees`, `JsonEvents` | log, ranges and replay stack deliver the tree with aliases replaced exactly when no alias names a scalar; JSON read off it is the tree's value |
| provider channel | `ChannelStates`, `Channel`, `ChannelOrder`, `ChannelProperties`, `ChannelGrowth`, `ChannelInterleavings` | every run returns what was accepted, in order; no lost wake-ups and no deadlock with atomic polls; the hash set is the disjoint union of what is under way under every interleaving; quadratic growth and the overshoot bound, both tight |
| line reader | `Lines`, `LineReader` | the lines of the file for any chunking of reads; permutation, cycle and end of the modes; what a file provider sends on from opening to the end |
| load schedule | `LinearSegments`, `ModInterval`, `TriggerStream` | splicing keeps duration and line; trigger times chain, increase, end, and are bounded in number |
| try-run closure | `Endpoints` | the worklist computes the least closed set and flags exactly the suppliers needed |
| parallel runner | `AdaptiveLimit`, `ForEachParallel`, `ZipAll` | limit never 0 and never exceeded; Ok only if no future fails, and every run ends; zips are columns |
| statistics | `StatsBuckets`, `StatsRuns`, `StatsTimes`, `Stats` | buckets partition the stats, in the order messages are sent no stat is missing from the totals, tag indexes are dense, and exactly when the receiver panics |
| shared | `Wrappers`, `Arithmetic`, `Sequences`, `ScriptedStreams` | products and remainders, one element less, streams as scripts of poll results |

Code that changes things step by step is modelled by classes and methods proved against functions or
relations on values (`Now()`, `Remaining()`, `Start()`); the properties of whole runs are lemmas about those.
Code made of expressions and recursion is modelled by functions.

## What was found

Some of what one would expect does not hold. In each case the model keeps what the code does and a lemma
gives an input; the last lemma named in each point is the exact condition, for all inputs, unless the point
says that it is only sufficient.

- A written `!` has no effect. The grammar declares `unary_operator` a silent rule
  (`lib/config/src/select.pest:70`), so the parser never sees a mark: `!true` is true (`WrittenNotIsIgnored`), and
  marks in front of a value or a parenthesised expression are read as written exactly if there are none, the rest
  fails, or an even number stands in front of a truth value (`MarksAreReadExactly`). Whatever is written means what
  it would mean without its marks (`WrittenSourceMeans`).
- The parser's own code for marks, which nothing reaches, would not read them as written either: a marked operand
  absorbs an operator that binds tighter than the one before (`AbsorbedNotChangesTheMeaning`, `AbsorptionIsExact`),
  and an odd number of marks in front of parentheses that already carry one is lost (`OddMeetsOddIsWrong`,
  `MergedFlag`). That an expression is free of both is sufficient for `CompiledSourceMeans`.
- Arithmetic in an expression loses negative results: `1 - 3` is 0 (`NegativeDifferenceIsZero`). A result is kept
  exactly if it is not negative, not an integer above the largest unsigned one, and not within the tolerance above an
  integer (`ArithmeticOnNumbers`).
- A `where` clause that refers to `for_each` is evaluated without any tuple when the `select` does not refer
  to it as well (`BlindWhereMissesTuples`), and an error of a `where` clause that does not refer to it ends
  everything. The iterator filters as documented exactly if neither makes a difference
  (`IteratorFiltersTuples`, given that the `for_each` values evaluate).
- A `for_each` entry that is a path into a value known while parsing, kept because a provider is mentioned on
  the way, iterates over the whole value instead of the part (`DroppedRestIsNoticed`, `JoinItemsAreElements`).
- An alias to a scalar delivers nothing (`ScalarAliasIsLost`, `SubstitutionIsExact`); as the last value of a
  mapping it makes the JSON parser take the mapping's end for the value and refuse the document
  (`ScalarAliasTakesTheEnd`).
- Dropping a receiver (or sender) can leave the others parked although there is work
  (`DroppedReceiverStrands`, `DropStrandsExactly`); a poll that is interrupted between its last look at the queue
  and making its listener misses an item (`SplitPollMissesAnItem`: that polls are atomic is sufficient); a limit
  of 0 parks both sides (`ZeroLimitDeadlocks`: that the limit is at least 1 and nobody leaves is sufficient for
  `NoDeadlock`).
- A wait that jumps over a whole segment of rate 0 makes the scheduler compute a negative duration
  (`JumpedSegmentUnderflows`, `UnderflowsExactly`); `BriskNeverJumps` gives a condition on the schedule that is
  sufficient for no segment ever to be jumped.
- The parallel runner is documented to return the first error. Of several futures that fail between two polls
  it returns the last one's (`LastErrorIsKept`, `FirstErrorIsKeptExactly`).
- A bucket tick that comes before the start of the test is treated as its end: the totals are printed and
  blanked, and the next tick panics (`EarlyTickIsFatal`). A tick that finds more than one bucket gone by panics as
  well, and so does one after the end of the test where overflow is checked (`PanicsExactly`). Blanking the totals
  early would lose exactly the stats that came before (`RunConserves`); as every endpoint starts after the start
  message has been sent (`src/lib.rs:942-947`) there are none, and nothing is lost (`NothingIsLost`).

## Model

| member | source | states |
|---|---|---|
| Precedence.RootIsRightmostLowest | lib/config/src/select_parser.rs:826-840 | in any derivation of E_k := E_k op_k E_(k+1) the root is the rightmost operator of the lowest level present |
| Precedence.DerivationIsUnique | lib/config/src/select_parser.rs:826-840 | a token list has at most one derivation in the layered grammar |
| Precedence.ExpressionHelper | lib/config/src/select_parser.rs:1901-1962 | terminates on every alternating list, never meets an impossible arm, and builds the expression of the list's one derivation |
| Precedence.NotStaysPutExactlyWithoutAbsorption | lib/config/src/select_parser.rs:1927-1945 | building keeps every operand's `not` on that operand iff no marked operand is a left operand |
| Precedence.AbsorptionByPosition | lib/config/src/select_parser.rs:1901-1962 | being a left operand of the derivation iff followed by an operator that binds tighter than the one before |
| Precedence.AbsorptionIsExact | lib/config/src/select_parser.rs:1933-1935 | for every token list, with marks or without: `not` stays on its operand iff no marked operand is followed by a tighter operator |
| Precedence.ClimbEvaluatesTree | lib/config/src/select_parser.rs:921-957 | precedence climbing over a derivation's operands gives the derivation's value whatever weaker operators follow |
| Precedence.BuiltExpressionClimbs | lib/config/src/select_parser.rs:1901-1962 | without absorbed `not` the built expression evaluates to what an independent left-to-right precedence climber computes |
| Precedence.AbsorbedNotChangesTheMeaning | lib/config/src/select_parser.rs:1933-1935 | of `true`, or, `true` with a mark on the first, a list the grammar never leads to, an expression is built that evaluates to false |
| OperatorLaws.LayerOf | lib/config/src/select_parser.rs:826-840 | the layers are, loosest first: or; and; the comparisons; sums; products |
| OperatorLaws.TwoOperators | lib/config/src/select_parser.rs:1901-1962 | of any two operators the one of the later of these layers is applied first, and of one layer the left one |
| OperatorLaws.TwoOperatorsEvaluate | lib/config/src/select_parser.rs:921-957 | so the expression built of three unmarked operands evaluates to the two operators applied in that order |
| OperatorLaws.LeftToRightExactly | lib/config/src/select_parser.rs:1901-1962 | a chain of any length is applied from left to right iff no operator binds tighter than the one before it |
| OperatorLaws.RightToLeftExactly | lib/config/src/select_parser.rs:1901-1962 | and from right to left iff each binds tighter than the one before it |
| OperatorLaws.FalseValues | lib/config/src/select_parser.rs:578-590 | false are exactly null, false, the number 0 and the empty text |
| OperatorLaws.BooleanOperators | lib/config/src/select_parser.rs:861-897 | and / or are the conjunction / disjunction of the operands' truth values |
| OperatorLaws.RightErrorSurfacesExactly | lib/config/src/select_parser.rs:850-906 | an error on the right surfaces unless a false left operand of and, or a true one of or, decides |
| OperatorLaws.ComparisonsOrderNumbers | lib/config/src/select_parser.rs:872-896 | equality is that of the values; the other comparisons are those of two numbers, and hold of nothing else |
| OperatorLaws.IntegersCompare | lib/config/src/select_parser.rs:592-598 | integers kept as signed, unsigned or floating-point numbers compare as integers |
| OperatorLaws.ArithmeticOnNumbers | lib/config/src/select_parser.rs:842-903 | sum, difference, product, quotient and remainder of the left and the right number, given iff not lost on the way to JSON; a negative one is given as 0 |
| OperatorLaws.RemainderIsOne | lib/config/src/select_parser.rs:886-889 | the remainder leaves a multiple of the divisor, is smaller than it and has the sign of the dividend |
| OperatorLaws.NoArithmetic | lib/config/src/select_parser.rs:842-848 | dividing by 0, and arithmetic on anything but numbers, gives null |
| OperatorLaws.NegativeDifferenceIsZero | lib/config/src/select_parser.rs:842-848 | a smaller number less a larger one is 0 |
| OperatorLaws.PaddingFillsUp | lib/config/src/expression_functions.rs:1114-1133 | a text too short is filled on the side asked for with exactly the graphemes missing, taken from the padding in turn |
| IndexingLaws.IndexingFinds | lib/config/src/select_parser.rs:303-428 | fields, elements and lengths are found; what is not there is null |
| IndexingLaws.IndexingFailsExactly | lib/config/src/select_parser.rs:303-428 | which values and keys cannot be indexed, unless errors are recovered from |
| IndexingLaws.JoinsInOrder | lib/config/src/expression_functions.rs:625-720 | joined pieces stand in order with the separator between any two |
| IndexingLaws.JoinedValues | lib/config/src/expression_functions.rs:625-720 | elements of arrays, entries of objects with the second separator, and anything else as its text |
| IndexingLaws.TupleIsReached | lib/config/src/select_parser.rs:430-466 | `for_each[n]` is the n-th element of the tuple, `for_each` the array of its values |
| IndexingLaws.IfChooses | lib/config/src/expression_functions.rs:505-600 | `if` is its second argument where the first is true and its third elsewhere |
| References.ExpressionDependsOnNames | lib/config/src/select_parser.rs:430-466 | data and tuples that agree on the names an expression refers to give it the same value |
| References.PathDependsOnNames | lib/config/src/select_parser.rs:430-466 | the same for paths, with `for_each` as a name of its own |
| References.NamesOfRequests | lib/config/src/select_parser.rs:1804-1818 | a property of `request` or `response` is a name of its own |
| FunctionCalls.EvaluateMinMax | lib/config/src/expression_functions.rs:1006-1030 | the run-time loop returns the best number of the list, or null |
| FunctionCalls.MinMaxIsBest | lib/config/src/expression_functions.rs:1006-1030 | null iff there is no number; otherwise a number of the list that no other beats |
| FunctionCalls.FoldAgreesWithLoop | lib/config/src/expression_functions.rs:984-1004 | the parse-time fold and the run-time loop agree on every list of JSON values |
| FunctionCalls.FoldingPreservesEvaluation | lib/config/src/expression_functions.rs:505-1133 | whenever a constructor of if, min, max, join or pad folds to a value, the unfolded call evaluates to it on all data and tuples |
| FunctionCalls.CallIsAcceptedExactly | lib/config/src/expression_functions.rs:505-1133 | which calls are accepted, by the number of arguments and what has to be known while parsing |
| SelectParser.ParseExpressionPieces | lib/config/src/select_parser.rs:1964-2074 | the loop over the pairs the grammar produces of a written expression, none of them for a mark, yields the flat item list of the expression without its marks, or its first error |
| SelectParser.ParseGroup | lib/config/src/select_parser.rs:2007-2033 | a parenthesised first operand is built on its own, with as many marks merged as have been counted |
| SelectParser.ParseExpression | lib/config/src/select_parser.rs:2076-2110 | the entry point returns the compiled expression without marks; wrapping it once more changes nothing |
| SelectNames.SourceNamesCovered | lib/config/src/select_parser.rs:1804-1818 | every name the compiled expression refers to has been registered as a required provider |
| SelectCorrectness.MergedFlag | lib/config/src/select_parser.rs:2020-2030 | merging marks around parentheses, were there any, negates as often as they stand there, unless odd meets odd |
| SelectCorrectness.OddMeetsOddIsWrong | lib/config/src/select_parser.rs:2025-2029 | an odd number of marks around an odd number gives the wrong truth value on every value |
| SelectCorrectness.SourceShape | lib/config/src/select_parser.rs:1964-2074 | a parsed expression with no operator has a plain value on its left |
| SelectCorrectness.SimplifyingPreserves | lib/config/src/select_parser.rs:1034-1060 | where the left side is a plain value, simplifying an expression keeps its value in every scope |
| SelectCorrectness.SimplifyingNeedsAPlainValue | lib/config/src/select_parser.rs:1051-1056 | on a nested left side simplifying loses the outer `not` |
| SelectCorrectness.FoldedPathEvaluates | lib/config/src/select_parser.rs:1819-1831 | a path walked while parsing gives what walking it at run time gives, on all data and tuples |
| SelectCorrectness.ClimbRespectsSame | lib/config/src/select_parser.rs:921-957 | operands that differ only in who owns a scalar cannot be told apart by any chain of operators |
| SelectCorrectness.CompiledSourceMeans | lib/config/src/select_parser.rs:1964-2110 | what is compiled of an expression, were its marks handed over, evaluates on all data and tuples to what a direct interpreter says, errors included, if no mark absorbs or is lost |
| SelectCorrectness.CompiledPathMeans | lib/config/src/select_parser.rs:1730-1832 | the same for paths, static variables and calls at their start |
| SelectCorrectness.CompiledTemplateMeans | lib/config/src/select_parser.rs:1158-1263 | the same for text with holes, some of which were filled while parsing |
| SelectCorrectness.CompiledCallMeans | lib/config/src/select_parser.rs:1650-1695 | the same for function calls, folded or kept |
| UnmarkedExpressions.UnmarkedSourceMeans | lib/config/src/select_parser.rs:1964-2110 | unconditionally for every expression without marks: what is compiled means what was written |
| Marks.BareIsUnmarked | lib/config/src/select.pest:63-70 | what is handed over has no marks, and is what was written iff that has none |
| Marks.OnlyMarksAreLost | lib/config/src/select.pest:63-70 | and is what was written but for its marks |
| UnmarkedExpressions.WrittenSourceMeans | lib/config/src/select.pest:63-70 | whatever is written and compiles, the program makes of it what it means without its marks |
| UnmarkedExpressions.MarksAreReadExactly | lib/config/src/select.pest:63-70 | marks in front of a value or parentheses are read as written iff there are none, the rest fails, or an even number stands before a truth value |
| UnmarkedExpressions.WrittenNotIsIgnored | lib/config/src/select.pest:63-70 | the program makes true of a written `!true` |
| Select.JoinItemsAreElements | lib/config/src/select_parser.rs:468-523 | a `for_each` entry is iterated as the elements of its value iff it is not a kept path from a known value whose rest leads to other elements |
| Select.ProductLength | lib/config/src/select_parser.rs:1453-1570 | there are as many tuples as the product of the array lengths |
| Select.ProductAtRank | lib/config/src/select_parser.rs:1453-1570 | the tuples come in lexicographic order: the one with given indexes stands at its mixed-radix rank |
| Select.HoistedWhereFilters | lib/config/src/select_parser.rs:1453-1570 | a `where` clause that ignores the tuple may be looked at once |
| Select.IteratorFiltersTuples | lib/config/src/select_parser.rs:1453-1570 | the iterator yields, in order, exactly what filtering tuple by tuple yields, errors of `select` included, iff a hoisted `where` evaluates and a `where` that alone refers to the tuples comes out the same without them |
| Select.BlindWhereIsRight | lib/config/src/select_parser.rs:1453-1570 | one look at `where` without a tuple filters rightly iff it gives for every tuple what looking with the tuple gives |
| Select.BlindWhere | lib/config/src/select_parser.rs:1453-1570 | when only `where` refers to the tuple, one look at it without a tuple settles all tuples alike |
| SelectNew.BuiltFlagsCover | lib/config/src/select_parser.rs:1344-1431 | the flags of a built query cover what its clauses refer to, and without `for_each` none is set |
| SelectNew.BuiltExactly | lib/config/src/select_parser.rs:1344-1431 | a query whose parts compile is built iff no entry refers to the tuple and nothing refers to one that does not exist |
| TupleOwnership.MeaningRespectsSame | lib/config/src/select_parser.rs:430-466 | who owns the scalars of a tuple makes no difference to what an expression means |
| SelectQueries.BuiltQueryMeansWhatIsWritten | lib/config/src/select_parser.rs:1344-1570 | a built query, with or without `for_each`, sends what the direct interpreter makes of its written entries, `where` and `select`, iff it looks at `where` rightly |
| SelectQueries.ElementsAreSent | lib/config/src/select_parser.rs:468-523 | `for_each: [e]`, `select: for_each[0]` send exactly the elements of an array, in order, and anything else as it is |
| SelectNew.BlindWhereMissesTuples | lib/config/src/select_parser.rs:1453-1570 | built from `for_each: [xs]`, any known array of one element, `where: for_each` and a constant `select`, nothing is sent although `where` holds of the one tuple |
| SelectNew.DroppedRestIsNoticed | lib/config/src/select_parser.rs:519-521 | built from `for_each: [if(true, xs, p)[n]]`, the whole of any known array `xs` is iterated although the entry means its n-th element |
| YamlEvents.CollectionsStayComplete | lib/config/src/from_yaml.rs:294-313 | whatever comes in, what is remembered under an anchor is one complete collection, or nothing |
| YamlDecoding.YamlDecoder.constructor | lib/config/src/from_yaml.rs:238-248 | a new decoder has to deliver what the reference machine delivers for its input |
| YamlDecoding.YamlDecoder.ReplayStep | lib/config/src/from_yaml.rs:256-266 | a turn of replay delivers the next remaining event or makes progress towards it |
| YamlDecoding.YamlDecoder.Record | lib/config/src/from_yaml.rs:294-314 | log, anchor ranges and reference stack keep standing for the reference machine's bindings and open collections |
| YamlDecoding.YamlDecoder.Recall | lib/config/src/from_yaml.rs:273-281 | replay of an alias stands for what its anchor is bound to |
| YamlDecoding.YamlDecoder.Advance | lib/config/src/from_yaml.rs:255-316 | the loop ends, with the next event, the error at the end, or the parser's error |
| YamlDecoding.YamlDecoder.Peek | lib/config/src/from_yaml.rs:250-319 | shows the first of the remaining events and leaves it there |
| YamlDecoding.YamlDecoder.Next | lib/config/src/from_yaml.rs:321-324 | takes exactly the first of the remaining events |
| YamlTrees.NodeRuns | lib/config/src/from_yaml.rs:267-316 | for any node, alias or collection, what is delivered is its expansion and its anchors are bound |
| YamlTrees.DocumentDelivers | lib/config/src/from_yaml.rs:250-324 | for every document: the events of the tree with each alias replaced by the expansion of what was closed under its anchor, then the error at its end |
| YamlTrees.SubstitutionIsExact | lib/config/src/from_yaml.rs:301-305 | this is the alias substitution of section 7.1 of YAML 1.2 iff no alias names a scalar |
| YamlTrees.ScalarAliasIsLost | lib/config/src/from_yaml.rs:301-302 | `[&a x, *a]` is delivered as `[x]` |
| JsonEvents.ParseJson | lib/config/src/from_yaml.rs:32-108 | the loop with its calls to itself returns the value, marker or error the events determine, and consumes exactly those |
| JsonEvents.FromYamlStr | lib/config/src/from_yaml.rs:26-29 | decoder and parser composed: the value the delivered events determine |
| JsonEvents.NodeParses | lib/config/src/from_yaml.rs:32-108 | the events of a node followed by anything are read as the node's value and not one more |
| JsonEvents.DocumentReadsAsJson | lib/config/src/from_yaml.rs:32-324 | a document whose aliases name closed collections reads as its tree, each alias standing for its collection's value |
| JsonEvents.ScalarIsRead | lib/config/src/from_yaml.rs:70-98 | what a scalar of any style is read as, whatever follows it: null, a truth value, what its text reads as, or the text |
| JsonEvents.MarkerIsOfFirst | lib/config/src/from_yaml.rs:36-42 | with the value comes the place of its first event |
| JsonEvents.PrintedJsonReadsBack | lib/config/src/from_yaml.rs:32-108 | every JSON tree printed as events, texts in any style, is read back and only its events consumed, as the same tree iff its numbers and plain texts read back as themselves |
| JsonEvents.MissingValueTakesTheEnd | lib/config/src/from_yaml.rs:65-68 | a key without value takes the end of its mapping for null and reads on |
| JsonEvents.ScalarAliasTakesTheEnd | lib/config/src/from_yaml.rs:65-99 | `{a: &x b, c: *x}` is refused |
| ChannelStates.LiveDependsOnDropped | lib/channel/src/lib.rs:220-263 | only clones and drops change how many handles there are |
| Channels.Channel.constructor | lib/channel/src/lib.rs:610-625 | a new channel has one sender and one receiver and is empty |
| Channels.Channel.Send | lib/channel/src/lib.rs:89-109 | a value is queued and some listening receiver notified, or, in a unique channel that holds its hash, nothing happens; the queue is longer by the value at its end, or the same |
| Channels.Channel.Recv | lib/channel/src/lib.rs:112-167 | the front value, the flag and limit that follow from how full the queue was, and a notified sender if there is room; what was queued is the value returned and then what is queued |
| Channels.Channel.TrySendItem | lib/channel/src/lib.rs:308-331 | closed iff no receivers, full iff the limit is reached, otherwise sent |
| Channels.Channel.PollReadyOf | lib/channel/src/lib.rs:429-459 | the poll loop of a sender: error iff no receivers, parked iff still parked or no room |
| Channels.Channel.PollNextOf | lib/channel/src/lib.rs:570-606 | the poll loop of a receiver: an item iff awake and there is one, end iff empty without senders, parked otherwise; what was queued is the item returned, if any, and then what is queued |
| Channels.Channel.CloneSenderHandle | lib/channel/src/lib.rs:339-349 | the counter counts the new handle |
| Channels.Channel.CloneReceiverHandle | lib/channel/src/lib.rs:530-543 | the counter counts the new handle |
| Channels.Channel.DropSenderHandle | lib/channel/src/lib.rs:353-361 | the counter follows, a pending notification is passed on or lost, and the last one out wakes every parked receiver |
| Channels.Channel.DropReceiverHandle | lib/channel/src/lib.rs:547-564 | the counter follows, a pending notification is passed on or lost, and the last one out wakes every parked sender |
| Channels.Notify | lib/channel/src/lib.rs:190-203 | if anybody listens somebody is notified, and nobody else changes |
| ChannelOrder.StepInOrder | lib/channel/src/lib.rs:89-125 | what is queued and then accepted is what is returned and then queued; the set of a unique channel is that of the queued hashes |
| ChannelOrder.RunsInOrder | lib/channel/src/lib.rs:89-125 | in every run the values accepted are the values returned and then those queued, in order, and a unique channel queues no hash twice |
| ChannelOrder.EndMeansAllGiven | lib/channel/src/lib.rs:570-606 | a receiver finds the end only when everything accepted has been returned and no sender is left |
| ChannelOrder.PollAnnounces | lib/channel/src/lib.rs:429-459 | what a sender's poll says is what a send then finds |
| ChannelOrder.QueueWithinLimit | lib/channel/src/lib.rs:308-331 | without forced sends the queue stays within its limit in every run |
| ChannelProperties.StepKeeps | lib/channel/src/lib.rs:112-167 | every step of any handle keeps the wake-up invariants, except that a drop that passes no notification on may not keep its own side's |
| ChannelProperties.RunsStayAwake | lib/channel/src/lib.rs:547-606 | in every run: with items queued (room left) not all receivers (senders) are parked unless one was dropped without passing a notification on, and closing one side leaves nobody parked on the other |
| ChannelProperties.DropStrandsExactly | lib/channel/src/lib.rs:547-564 | dropping a receiver strands the others iff items are queued, all the others are parked, and the drop passes no notification on; for an idle or waiting one iff items are queued and all the others are parked |
| ChannelProperties.SenderDropStrandsExactly | lib/channel/src/lib.rs:353-361 | dropping a sender strands the others iff there is room, all the others are parked, and the drop passes no notification on; for an idle or waiting one iff there is room and all the others are parked |
| ChannelProperties.NoDeadlock | lib/channel/src/lib.rs:429-606 | with a limit of at least 1 and no drops, in every reachable state some handle is not parked |
| ChannelGrowth.GrowthIsQuadratic | lib/channel/src/lib.rs:126-151 | a limit that grew g times from L has seen at least g*L + g*(g-1)/2 receives; 0, 1 and static limits never move |
| ChannelGrowth.GrowthIsAttained | lib/channel/src/lib.rs:126-151 | and that many receives suffice, for every L of at least 2 and every g |
| ChannelGrowth.DroppedReceiverStrands | lib/channel/src/lib.rs:547-564 | a reachable state with an item queued, a sender alive and every receiver parked |
| ChannelGrowth.SplitPollMissesAnItem | lib/channel/src/lib.rs:583-604 | a send between the last look at the queue and making the listener is missed |
| ChannelGrowth.ZeroLimitDeadlocks | lib/channel/src/lib.rs:450-457 | with limit 0 both sides end up parked |
| ChannelInterleavings.StepKeepsSet | lib/channel/src/lib.rs:89-125 | insert, push, pop and remove by any thread keep the set equal to what is under way |
| ChannelInterleavings.RunKeepsSet | lib/channel/src/lib.rs:89-125 | under every interleaving the set is the disjoint union of values about to be pushed, queued, and popped but not removed |
| ChannelInterleavings.QueueHasNoDuplicates | lib/channel/src/lib.rs:89-125 | so the queue of a unique channel never holds two values of one hash |
| ChannelInterleavings.DiscardedExactly | lib/channel/src/lib.rs:89-109 | a value is discarded iff one of its hash is under way |
| ChannelInterleavings.RunAccounts | lib/channel/src/lib.rs:89-125 | values come out in the order they were pushed, and each one sent was discarded, is on its way or was pushed |
| ChannelInterleavings.LimitIsSoft | lib/channel/src/lib.rs:308-331 | with K senders between check and push, and none forcing, the queue never exceeds limit - 1 + K |
| ChannelInterleavings.SoftLimitIsAttained | lib/channel/src/lib.rs:308-331 | and some interleaving reaches it, for every limit and every K |
| Lines.LineEndIsFirst | src/providers/line_reader.rs:83-88 | a line ends at its first newline or with the file, and nowhere else |
| Lines.WrittenLinesAreFound | src/providers/line_reader.rs:61-117 | newline-free lines written one after the other are the lines found, a last one without newline included; a final newline adds none |
| Lines.WrittenLinesAreRead | src/providers/line_reader.rs:83-100 | the text read at the k-th place is the k-th line written, without returns at its end |
| Lines.RandomIsAPermutation | src/providers/line_reader.rs:129-163 | random without repeat returns a permutation of the lines and then ends |
| Lines.RandomRepeatGoesOn | src/providers/line_reader.rs:129-163 | random with repeat never ends and returns only lines of the file |
| Lines.LinesThenTheEnd | src/providers/line_reader.rs:129-163 | sequential reading, failed reads retried, returns the lines in order and ends after the last |
| Lines.LinesComeRound | src/providers/line_reader.rs:150-161 | sequential reading with repeat returns line k mod n as its k-th value, for ever |
| Lines.RunSendsLines | src/providers/line_reader.rs:129-163 | the lines of every run up to its first failure, in all modes and for the empty file too: part of the file's lines in order, round and round, drawn without repeats, or drawn for ever; all of them iff the run has ended |
| LineReading.StripLine | src/providers/line_reader.rs:90-95 | drops all trailing carriage returns and newlines and nothing else |
| LineReading.LineReader.Refill | src/providers/line_reader.rs:101-115 | a short read extends what the buffer holds; nothing read, or an error, loses nothing |
| LineReading.LineReader.TakeLine | src/providers/line_reader.rs:88-100 | the buffer surgery returns the line's text and leaves the bytes after its newline |
| LineReading.LineReader.GetValue | src/providers/line_reader.rs:61-117 | for any chunking of reads, with or without a hint: the line at the current place, its start and its length; no value only at the end of the file, an error only if reading failed |
| LineReading.LineReader.Seek | src/providers/line_reader.rs:120-127 | empties the buffer and sets the place |
| LineReading.LineReader.New | src/providers/line_reader.rs:26-59 | random mode records the start and length of every line of the file, in order; the reader is ready for its first value |
| LineReading.LineReader.Next | src/providers/line_reader.rs:129-163 | one step of the mode's run; in random mode reading a recorded place by its length returns the line recorded there |
| LineReading.LineReader.Forward | src/providers.rs:245-262 | values are sent on until the file ends, a read fails or the channel closes: the texts of the lines its mode promises, all of them if it has finished |
| LineReading.ForwardFile | src/providers.rs:60-102 | the same from opening the file on; an error is reported iff reading it failed |
| LinearSegments.RatesAreBounded | lib/mod_interval/src/lib.rs:47-57 | rates are never negative and never above a segment's ends and least rate |
| LinearSegments.RateMeans | lib/mod_interval/src/lib.rs:28-57 | a rate is the line's if it promises a hit within the segment; a lower one is replaced by the least rate of a slope, and is none on a flat segment |
| LinearSegments.LeastRateOf | lib/mod_interval/src/lib.rs:32-36 | twice the square of the least rate is the steepness of the slope |
| LinearSegments.InForceMeans | lib/mod_interval/src/lib.rs:155-168 | the segment in force is the one that what is left of a time after those before it falls into |
| LinearSegments.SpliceKeepsSchedule | lib/mod_interval/src/lib.rs:145-204 | the spliced schedule lasts as long as what was left, its transition ends where the rest starts, and the rest follows the original line iff no rate there was clamped |
| LinearSegments.FollowsLineOnlyUnclamped | lib/mod_interval/src/lib.rs:179-193 | redrawing what is left of a segment gives the same line iff neither rate was clamped |
| ModIntervals.ModInterval.AppendSegment | lib/mod_interval/src/lib.rs:206-213 | the duration stays the sum of the segments' durations |
| ModIntervals.ModInterval.FindSegment | lib/mod_interval/src/lib.rs:155-168 | the segment in force at a time and where it starts |
| ModIntervals.ModInterval.CutAt | lib/mod_interval/src/lib.rs:176-197 | leaves exactly the rest of the schedule and tells the rate there |
| ModIntervals.ModInterval.TransitionFrom | lib/mod_interval/src/lib.rs:145-204 | the splice of the two schedules, or no change if either is too short |
| TriggerStreams.ModIntervalStreamState.CalculateNextStart | lib/mod_interval/src/lib.rs:90-126 | the next trigger time, advancing over a segment that has ended |
| TriggerStreams.TriggerStream.Next | lib/mod_interval/src/lib.rs:215-277 | the item due and the one after it; latency shortens the sleep by exactly as much |
| TriggerStreams.TriggerMeans | lib/mod_interval/src/lib.rs:90-126 | from one trigger to the next the rate in force yields exactly one hit, or the segment ends at rate 0; none comes only when nothing is left before the end |
| TriggerStreams.FirstTrigger | lib/mod_interval/src/lib.rs:232-252 | a stream started at an offset of the schedule waits for one hit at the rate there, unless that is past the schedule's duration |
| TriggerStreams.FirstTriggerLater | lib/mod_interval/src/lib.rs:232-252 | with an offset past the first segment the rate is that of the second |
| TriggerStreams.TriggersOfAStream | lib/mod_interval/src/lib.rs:215-277 | in every run without jumps items chain, times strictly increase within the duration, and there are at most duration * peak + segments - 1 |
| TriggerStreams.BriskNeverJumps | lib/mod_interval/src/lib.rs:90-126 | no wait jumps a segment if every positive rate waits no longer than the shortest segment |
| TriggerStreams.JumpedSegmentUnderflows | lib/mod_interval/src/lib.rs:90-115 | a schedule whose third trigger computes a negative duration |
| TriggerStreams.UnderflowsExactly | lib/mod_interval/src/lib.rs:90-115 | a negative duration is computed iff the time lies past the end of the next segment, that one is flat with less than one hit, and another follows |
| TryRunEndpoints.Endpoints.Append | src/lib.rs:77-90 | the index lists an endpoint under a name iff it supplies it |
| TryRunEndpoints.Endpoints.Build | src/lib.rs:93-147 | the least set with the filtered endpoints that is closed under "supplies a response provider a member requires"; an endpoint is flagged iff a member needs it |
| TryRunEndpoints.DoneIsLeast | src/lib.rs:124-140 | an empty queue means closed, and least |
| TryRunEndpoints.TakingKeeps | src/lib.rs:126-135 | moving an endpoint over and queueing its suppliers keeps what the loop needs |
| AdaptiveLimits.LimitFn.Call | src/request.rs:706-793 | never 0, never above the maximum, multiplier within 1..10 and the full count within the multiplier |
| AdaptiveLimits.Survey | src/request.rs:712-723 | one fold finds the most free slots, whether one is empty and whether all are full |
| AdaptiveLimits.EmptySlotsIsMost | src/request.rs:712-723 | the free slots are those of the provider with the most |
| AdaptiveLimits.PaceMovesOnlyForCause | src/request.rs:724-745 | in every run of calls the multiplier moves by one at most, rises iff it is below 10 and a provider is empty and all slots are taken, and falls iff it does not rise, is above 1 and as many full calls as its value have been counted, all of them in a row |
| AdaptiveLimits.FullCallsEndAtOne | src/request.rs:724-745 | while all providers are full the multiplier is at 1 after exactly the computed number of calls, not before |
| AdaptiveLimits.CallsToOneAddUp | src/request.rs:724-745 | from any pace that number is m * (m + 1) / 2 - 1 less the full calls already counted |
| ParallelRunner.ForEachParallel.PollOnce | lib/for_each_parallel/src/lib.rs:59-119 | one poll is exactly the rounds of pulling and polling that get anywhere under a limit; at most the maximum is tracked, items are spawned once and in order, Ok only when all were spawned and none of their futures fails, an error is one somebody raised |
| ParallelRunner.RoundsEnd | lib/for_each_parallel/src/lib.rs:65-118 | a round that got anywhere leaves less of the stream or fewer futures, so every poll ends |
| ParallelRunner.TrackedWhileRunning | lib/for_each_parallel/src/lib.rs:91-102 | a future that needs p polls is tracked, in its place, for exactly p passes |
| ParallelRunner.RunnerEnds | lib/for_each_parallel/src/lib.rs:59-119 | under any limits the runner has a result after as many polls as there is work |
| ParallelRunner.ForEachParallel.Pull | lib/for_each_parallel/src/lib.rs:67-89 | an item pulled is the stream's next and is spawned and tracked |
| ParallelRunner.ForEachParallel.PollFutures | lib/for_each_parallel/src/lib.rs:91-102 | futures still running are kept in order; as long as no error is observed every future that is to fail stays tracked |
| ParallelRunner.ObservedIsAnError | lib/for_each_parallel/src/lib.rs:91-102 | an error is observed iff some finished future has one |
| ParallelRunner.LastErrorIsKept | lib/for_each_parallel/src/lib.rs:91-102 | of all futures that fail in one pass, the last one's error is kept |
| ParallelRunner.FirstErrorIsKeptExactly | lib/for_each_parallel/src/lib.rs:9-12 | it is the first one's iff the last one's is the same; if errors differ, iff no other fails |
| ZippedStreams.ZipAll.PollNext | lib/zip_all/src/lib.rs:40-80 | each stream has given exactly one item per output plus its filled slot; pending only when every stream still owing an item was asked and one has none yet; an end or error is that of a stream with no further item, and is for good |
| ZippedStreams.EndedZipIsShortest | lib/zip_all/src/lib.rs:40-80 | an ended zip has given as many outputs as the shortest stream has items, the k-th made of the k-th items |
| StatsBuckets.CombineBuckets | src/stats.rs:126-133 | the loop over the right bucket's groups yields the group-wise sum |
| StatsBuckets.CombineIsAggregate | src/stats.rs:120-133 | combining the aggregates of two stretches is the aggregate of both |
| StatsBuckets.AggregateTells | src/stats.rs:213-253 | a group's counts and histogram are those of exactly the stats under its index |
| StatsBuckets.LeftOutIsMissed | src/stats.rs:213-253 | leaving out stats leaves the aggregate the same iff there are none to leave out |
| StatsRuns.IndexesAreDense | src/stats.rs:440-460 | the k-th tags written have index k and no two tags share an index |
| StatsRuns.StepKeeps | src/stats.rs:409-556 | every message keeps the partition of the stats into written buckets and the current one, and the totals miss no more of them unless the message is taken for the end of the test |
| StatsRuns.RunPartitions | src/stats.rs:409-556 | in every run each stat stands under its tags' index in exactly one bucket, in order |
| StatsRuns.RunConserves | src/stats.rs:409-556 | at every point of every run totals and current bucket combined are the aggregate of the stats since the last end of the test or early tick, so of all stats iff none came before one |
| StatsRuns.EndConserves | src/stats.rs:510-556 | at an end every stat has been written, and the totals printed are the aggregate of all stats iff none came before an earlier one |
| StatsRuns.NothingIsLost | src/stats.rs:824-890 | in every run in which a start comes before any stat, totals and current bucket combined, or the totals printed when the test is complete, are the aggregate of all stats |
| StatsRuns.PanicsExactly | src/stats.rs:414-419 | the receiver panics iff a tick of a started test comes two buckets or more after the current one began, or, where overflow is checked, a tick comes after the end of the test or a bucket is closed in the first one of the epoch; no left-over bucket is ever found |
| StatsRuns.EarlyTickIsFatal | src/stats.rs:830-834 | a tick before the start blanks the totals, and the next tick after the start panics |
| StatsTimes.TickMovesOn | src/stats.rs:409-423 | a tick makes the next bucket current iff its time has come, and the current one is then that of the time; no other message touches the buckets |
| StatsTimes.BucketsFollowEachOther | src/stats.rs:409-423 | up to the end of the test the buckets written and the current one follow each other without a gap |
| StatsTimes.DurationMeans | src/stats.rs:839-872 | the duration is that of the first start to the second, and a later start leaves it within a second of the new end |
| StatsTimes.OneHeader | src/stats.rs:856-866 | the file gets one header, with the first start |
| StatsReceiver.Stats.CheckCurrentBucket | src/stats.rs:409-423 | the bucket change, or which assertion fails |
| StatsReceiver.Stats.CloseOutBucket | src/stats.rs:510-556 | what is written and printed when a bucket is closed out |
| StatsReceiver.Stats.AppendResponse | src/stats.rs:440-460 | the stat is counted under its tags' index, which is new iff the tags are |
| StatsReceiver.Stats.Run | src/stats.rs:824-890 | the receiver's loop is a run of the state machine, up to the end of the test or the panic |
| StatsReceiver.Receive | src/stats.rs:824-890 | from a new receiver on, and if a start comes before any stat the totals count every stat |

## Left out

- Numbers: 64-bit floating point is modelled by reals, with what is no finite number as a missing value; rounding and overflow are not modelled, and counters are unbounded.
- Expression functions other than if, min, max, join and the two pads, and the stream forms of expressions: the first would only repeat the folding argument, the second is mostly combinators.
- Text libraries: how numbers and JSON print, graphemes, the order of object entries and number parsing are parameters about which nothing is assumed.
- `RequiredProviders`' bit fields and markers: modelled as the set of registered names.
- The grammar itself: parsing starts from the pairs it produces for a written expression; that a silent rule produces none is how the pest parser generator defines it.
- Select.IteratorFiltersTuples: assumes that the `for_each` values evaluate; in the code an error of one of them shows only in a `select` that refers to the tuple.
- SelectQueries.BuiltQueryMeansWhatIsWritten: for queries whose `for_each` entries evaluate and drop no rest (`JoinItemsAreElements` says when one does), and up to who owns a scalar, which nothing can tell. Marks are not handed over, and without any the query is clean.
- YamlTrees.DocumentDelivers: aliases to collections that are still open, or to nothing, deliver nothing; the scanner that numbers the anchors is not part of this model.
- JsonEvents.DocumentReadsAsJson: says nothing of documents with keys that are not scalars.
- Collection and struct parsers on top of the decoder: repetitive key dispatch.
- Channels.Channel.PollNextOf: notifying on-demand receivers is not modelled; they have their own event and change nothing else.
- ChannelProperties.RunsStayAwake: polls are atomic, as `SplitPollMissesAnItem` shows they have to be. Whether the event library passes a notification on when a notified listener is dropped is left open: both are allowed.
- ChannelInterleavings.QueueHasNoDuplicates: values of equal hash are taken for equal, as the code takes them.
- LineReading.LineReader.GetValue: the place reported with a hint is the code's, which is off by the hint and which no caller uses; `read_exact` does not retry interrupted reads.
- Line text is turned to JSON by a parameter; UTF-8 replacement is not modelled. CSV and JSON readers rest on library parsers.
- LinearSegments.SpliceKeepsSchedule: holds whatever positive value the least rate of a slope is; `LeastRateOf` says which it is, for a square root that is a parameter.
- `PerX`: rates come per second.
- Sleeping, clocks and spawning are replaced by parameters and by scripts of poll results.
- ParallelRunner.ForEachParallel.PollOnce: a finished runner is not polled again.
- TimeBucket and BucketGroupStats are values that methods return anew; merging in place, and the histogram's buckets, are not modelled.
- LineReading.ForwardFile: the buffer of five values between the reading thread and the forwarding is not modelled, so reading does not run ahead of sending.
- StatsRuns.PanicsExactly: a difference that wraps round where overflow is not checked shows in what is printed only, which is not modelled; the clock is read once per message.
- Statistics: times of single stats, provider statistics, printing and the try-run variant.
- HTTP, TLS, bodies, logging, the command line, and the results viewer.
