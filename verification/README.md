# Monitoring agent: a verified model

A Dafny model of the parts of this monitoring agent where order, counting or
ownership is easy to get wrong, with proofs of what they keep.

- `TypeOrder` orders the type declarations of the Go-to-C generator; `TypeGraph` is its
  depth-first walk on any graph, and `TypeLaws` says what it emits without the walk.
- `CTypes`, `MiniC`, `Destructor`, `DestructorShapes`, `DestructorEnds` and `DestructorText` model the
  generator's destructor routines: the object trees, a small C with a heap of owned
  blocks, the code as a tree, the types it is right for, when the generator ends, and the text
  as it is appended. `CLayout` has the C types and the layout of their objects apart from how
  the generator reads their names, and `DestructorLayout` the results over them.
- `Expression` is the evaluator of nested `GW:` calls by rewriting text; `Decimal`
  holds the numerals that several parts print.
- `Dispatcher` is delivery with retry; `Batcher` the buffered batcher as interleaved
  steps, `BatcherLaws` its runs in terms of what was begun; `EventsBuilder`, `MetricsBuilder`, `MetricsBatch` and `GroupPacking` build its
  batches, and `Pipeline`, `EventPipeline` and `MetricPipeline` put batcher
  and builders together; `Arith`,
  `Seqs` and `Wrappers` hold the arithmetic, the laws of lists and the option type they share.
- `TaskQueue` is the bounded queue with one worker, `Lifecycle` what its tasks do to the
  server and the dispatcher.
- `TraceToken` makes tokens; `Payload` has the two wire formats, `JsonText` the JSON texts
  one of them needs (RFC 8259) and `WireText` its round trip; `LogFile` is the rotated log.

Where the source changes fields or arrays, the model is a class or a method on an array
that is proved against a function on values; the properties are proved about that
function. Concurrent code is a step function over goroutine positions, and a run is any
sequence of steps. `dafny verify dfyconfig.toml` checks everything.

Where code and comments disagree the model follows the code:

- The comment at `gotocjson/gotocjson.go:1787-1792` says constants move up to their value type. The code
  changes a copy after it was stored, so positions are as declared.
- `xxl2qq` of the metrics builder loses a resource's services after its last cut
  (`batcher/metrics/metrics.go:104-128`): the check after the loop is never true. `MetricsBuilder` and
  `MetricsBatch` say exactly what is lost and when nothing is.
- The generated destructors are wrong for a pointer to a pointer or a text, for lists of
  lists behind a pointer, for types declared as another name of a scalar or a text, and for
  foreign scalars that are looked up under the wrong struct name (`gotocjson/gotocjson.go:1437-1442`
  admits the third); `DestructorShapes.CorrectIffAccepted` has the exact condition.
- The generator calls itself for ever on a type that leads back to itself;
  `DestructorEnds.GeneratorEndsIff` has the exact condition.
- A success does not clear the retry counter, so it does not count consecutive failures.
- The event builder puts the parts of an oversized payload before what is still pending;
  `EventsBuilder.InOrderIff` has the exact condition for keeping the order.
- A `GW:` call without arguments makes the evaluator call itself on the same text;
  `Expression.EndsIff` says exactly when an evaluation ends nevertheless.
- A failed rename in a log rotation can lose a file from the middle of the history;
  `LogFile.SuffixIff` has the exact condition.
- A server whose publisher could not connect has no cancel function, which the next stop
  calls; `Lifecycle.PerformKeeps` says exactly which tasks that ends.

## Model

| member | source | states |
|---|---|---|
| TypeOrder.TopologicallySortNodes | gotocjson/gotocjson.go:1728-1849 | For every table of declared types, cyclic ones included: the sort ends, emits every type exactly once with its kind, puts v before u whenever u depends on v and v cannot reach u, and puts every dependency first exactly when the graph is acyclic; the order is then the unfolding of the types in declaration order with repeats dropped; of two dependencies of u the first declared comes first if only u mentions the second and the first does not lead back to u; and y overtakes x only if a type declared no later needs y |
| TypeOrder.TypeWalker.ProcessTypeNames | gotocjson/gotocjson.go:1829-1839 | The recursive closure over its two shared variables (seen set, emitted list) computes the functional walk `Visit` from any starting state |
| TypeGraph.VisitKeeps | gotocjson/gotocjson.go:1831-1839 | Invariant of the walk from any consistent state: what is pending stays pending, all names asked for get seen, the list only grows, by reachable names |
| TypeGraph.EmitsEachOnceInOrder | gotocjson/gotocjson.go:1828-1840 | On every closed graph the emitted list enumerates the types once each, ordered up to cycles |
| TypeGraph.DependenciesFirstIffAcyclic | gotocjson/gotocjson.go:1828-1840 | Every dependency precedes its dependent if and only if the graph has no cycle |
| TypeGraph.AcyclicTransitivelyFirst | gotocjson/gotocjson.go:1828-1840 | On acyclic graphs transitive dependencies come first too |
| TypeGraph.Stable | gotocjson/gotocjson.go:1824-1840 | If a type listed later is emitted before x, some type listed no later than x transitively depends on it |
| TypeGraph.UnchangedIffRespects | gotocjson/gotocjson.go:1824-1840 | The input order comes out unchanged if and only if it already respects every dependency |
| TypeLaws.EmitsUnfolding | gotocjson/gotocjson.go:1824-1840 | On every acyclic graph the emitted list is the first occurrences in the full unfolding of the names in turn: each name after the unfolding of its dependencies in listed order |
| TypeLaws.AcyclicIffFalls | gotocjson/gotocjson.go:1824-1840 | The graphs on which that unfolding exists are exactly those without a cycle |
| TypeLaws.SiblingsInOrder | gotocjson/gotocjson.go:1829-1837 | On every graph, two names that u mentions keep their listed order, if nothing else mentions the second and the first does not lead back to u |
| TypeLaws.VisitSiblings | gotocjson/gotocjson.go:1829-1837 | The same from any consistent state of the walk, whatever is pending |
| TypeLaws.VisitStable | gotocjson/gotocjson.go:1829-1837 | Whatever is pending: when u is visited and y, listed after x, comes out before x, something u lists no later than x depends on y |
| TypeOrder.KeepDeclared | gotocjson/gotocjson.go:1744-1768 | The in-place filter leaves exactly the declared names, in order, in front of the returned index |
| TypeOrder.SortByPosition | gotocjson/gotocjson.go:1783-1785 | The sorts order names by declaration position and keep the multiset |
| TypeOrder.SortedUnique | gotocjson/gotocjson.go:1783-1785 | With distinct positions a sorted list is unique, so which sort is used does not matter |
| TypeOrder.StableByPosition | gotocjson/gotocjson.go:1808-1840 | Stability in terms of source positions: y overtakes x only if a type declared no later than x needs y |
| TypeOrder.SiblingsByPosition | gotocjson/gotocjson.go:1808-1840 | Siblings in terms of source positions: of two types u mentions the one declared first is emitted first, if only u mentions the other and the first does not lead back to u |
| TypeOrder.DeclaredMore | gotocjson/gotocjson.go:1744-1768 | Name by name the declared ones stay, in order and as often as they are mentioned |
| TypeOrder.OrderDetermined | gotocjson/gotocjson.go:1734-1810 | The result does not depend on map iteration order: graph and order of processing are functions of the table |
| CTypes.ChildrenFirst | gotocjson/gotocjson.go:5742-5765 | In the release order of any object tree, everything a block holds is released before that block |
| Destructor.CompileRuns | gotocjson/gotocjson.go:5767-5970 | For every accepted type, item position and object of the item type: running the generated code releases exactly the blocks of that object, in teardown order, reading only live blocks |
| Destructor.LoopRuns | gotocjson/gotocjson.go:5807-5812 | The generated count-down loop releases the first n elements, last one first, under its own index |
| Destructor.RoutineReleases | gotocjson/gotocjson.go:5971-5982 | For every accepted struct, every owned tree of its shape and both flags, the routine releases each owned block exactly once and never fails; the root only with free_pointers. `DestructorLayout.TreeReleased` says it of the objects of the declared types |
| Destructor.JsonKeepsTexts | gotocjson/gotocjson.go:5926-5931 | Passing json keeps exactly the texts: the other blocks released are the same |
| Destructor.LoopIndexesDistinct | gotocjson/gotocjson.go:5798-5808 | Nested list loops never share an index name, for any type |
| DestructorShapes.CompileFrees | gotocjson/gotocjson.go:5767-5970 | On the full object constructed for any type, accepted or not, the code fails or releases at most what the object owns, and strictly less if the type is not accepted |
| DestructorShapes.LookedUpUnder | gotocjson/gotocjson.go:5943-5948 | The struct name under which a foreign field is looked up: the root struct for its own fields, none inside an embedded struct, and the name of the pointer field behind a pointer |
| DestructorShapes.ScalarTypedefRejected | gotocjson/gotocjson.go:5873-5899 | A field whose type is declared as another name of a scalar or a text is enough to make its struct not accepted: the destructor called for it does not exist |
| DestructorShapes.ForeignScalarAtRoot | gotocjson/gotocjson.go:5943-5968 | A foreign scalar field of the root is right exactly when the table knows it as integral for this struct |
| DestructorShapes.ForeignScalarEmbedded | gotocjson/gotocjson.go:5943-5968 | A foreign scalar inside an embedded struct is never right: it is not looked up, and a destructor is called on it |
| DestructorShapes.WitnessCall | gotocjson/gotocjson.go:5765-5982 | For every struct that is not accepted there is an owned tree on which the whole routine fails or leaves a block behind |
| DestructorShapes.CorrectIffAccepted | gotocjson/gotocjson.go:5765-5982 | The routine is correct on every owned tree if and only if its struct is accepted: no pointer leads to a pointer or a text, no list behind a pointer has lists as elements, every destructor called exists and is given an object it can destroy, and what the look-up takes for a foreign scalar is one. `DestructorLayout.CorrectIffTypeAccepted` says it of the objects of the declared types |
| CLayout.ClassifyPrinted | gotocjson/gotocjson.go:5777-5940 | Over C types (scalar, text, own, foreign, list, pointer) and their printed names: a printed name is read as the type it was printed from |
| CLayout.ClassifyBare | gotocjson/gotocjson.go:5934-5940 | The same for a name whose package was taken off: a struct is read as its printed fields, an enumeration as plain, a renamed type as what it stands for |
| DestructorLayout.HasTypeIsA | gotocjson/gotocjson.go:5766-5970 | The objects of a type, defined over the declarations alone, are exactly the objects the generator's reading of its name describes |
| DestructorLayout.TreeReleased | gotocjson/gotocjson.go:5971-5982 | For every package and accepted struct: on every object of the struct, laid out by its declaration and owning its blocks, the routine releases every block exactly once |
| DestructorLayout.CorrectIffTypeAccepted | gotocjson/gotocjson.go:5765-5982 | And it is correct on all those objects if and only if the struct is accepted |
| DestructorLayout.TeardownIsAll | gotocjson/gotocjson.go:5926-5931 | What is released is every block of the object, and with json every block but the texts |
| DestructorEnds.GeneratorEndsIff | gotocjson/gotocjson.go:5765-5971 | The generator returns if and only if no chain of types from its struct visits a type twice |
| DestructorEnds.RankedIffEnds | gotocjson/gotocjson.go:5765-5971 | Exactly then the types it leads to have a rank, which is all that the other results about destructors require of the table |
| DestructorEnds.GeneratedIsCompiled | gotocjson/gotocjson.go:5765-5971 | What it returns is the code whose runs are specified |
| DestructorText.Generator.ProcessItem | gotocjson/gotocjson.go:5766-5970 | The closure appends to the function text exactly the lines of the compiled item, with the look-up of foreign fields by the struct name read off the prefix |
| DestructorText.Generator.CallDestroy | gotocjson/gotocjson.go:5880-5898 | The call of another destructor, with the pointer itself or the address of what is embedded |
| DestructorText.Generator.ProcessList | gotocjson/gotocjson.go:5780-5814 | The list branch: null check, loop, recursive item, free, with the member operators and index of that nesting depth |
| DestructorText.Generator.ProcessPointer | gotocjson/gotocjson.go:5817-5837 | The pointer branch: null check, pointee, free |
| DestructorText.Generator.EmitFields | gotocjson/gotocjson.go:5852-5866 | The field loop appends the code of every field in order |
| DestructorText.Generator.GenerateDestroy | gotocjson/gotocjson.go:5765-5982 | The finished text, parsed as C blocks, is the routine whose runs are specified |
| MiniC.ParseLines | gotocjson/gotocjson.go:5797-5814 | The printed lines determine the program: parsing inverts printing |
| MiniC.RunOnlyReleases | gotocjson/gotocjson.go:5797-5814 | Whatever statements are run on whatever object: if they do not fail, they release live blocks only, each once |
| MiniC.NothingAfterFree | gotocjson/gotocjson.go:5817-5837 | Releasing a block twice fails, and so does reading through a pointer after its block is released |
| Expression.EvaluateFromZero | connectors/groundworkFunctions.go:377-441 | Whenever the evaluation returns (see EndsIff), over variables not named res_N: it succeeds exactly when every function, arity, variable and sum is defined, and then returns the ordinary recursive meaning; otherwise the first error in the order of evaluation |
| Expression.EndsIff | connectors/groundworkFunctions.go:377-441 | The evaluation of a text returns if and only if, taking its calls last to first, an error comes before any call without arguments or there is neither; what it returns is then that error or the values |
| Expression.SameTextIff | connectors/groundworkFunctions.go:380-411 | For every list of elements the slice a round evaluates is the text of the last call, and evaluating that slice comes back to the same text exactly when that call has no arguments |
| Expression.EmptyCallInside | connectors/groundworkFunctions.go:404-418 | A call without arguments among other arguments: a failure of anything after it is returned, and if there is none nothing is |
| Expression.Evaluator.Evaluate | connectors/groundworkFunctions.go:377-441 | Evaluation of the text from any counter equals the tree values or error; of the variable map only res_N entries change; required is exactly that the evaluation ends |
| Expression.Evaluator.EvaluateNested | connectors/groundworkFunctions.go:403-441 | The rewriting loop followed by the look-up of what is left |
| Expression.Evaluator.EvaluateLast | connectors/groundworkFunctions.go:405-411 | The text evaluated in a round is that of the last call of the tree, and its value or error is that call's |
| Expression.Evaluator.EvaluateCall | connectors/groundworkFunctions.go:382-400 | The flat branch: unknown function before argument errors before arity errors |
| Expression.Evaluator.LookUp | connectors/groundworkFunctions.go:421-439 | The pieces between the commas give their values in order, or the first error |
| Expression.Evaluator.LookUpPiece | connectors/groundworkFunctions.go:423-437 | A piece with a sign is arithmetic, any other is looked up with its dots as underscores |
| Expression.ValueIsMeaning | connectors/groundworkFunctions.go:382-400 | The value with error order agrees with an error-free reference semantics exactly on defined expressions |
| Expression.FindsLastCall | connectors/groundworkFunctions.go:405-410 | Last GW: and first closing parenthesis after it bracket the printed text of the last call |
| Expression.ReplaceIsSubst | connectors/groundworkFunctions.go:412-415 | Replacing all occurrences of an innermost call in a printed expression is substituting in the tree |
| Expression.CallTextUnique | connectors/groundworkFunctions.go:412-415 | The text of an innermost call can only match that very call |
| Expression.SubstKeepsValue | connectors/groundworkFunctions.go:411-415 | Replacing a call by a fresh variable holding its value changes neither value nor error nor whether the evaluation ends |
| Expression.LastCallDecides | connectors/groundworkFunctions.go:416-418 | An error of the last call is the error the whole has, and if the last call never ends, neither does the whole |
| Expression.Round | connectors/groundworkFunctions.go:404-416 | One round keeps text, tree, variables and value together, and the number of GW: strictly falls |
| Expression.OnlyCallsAreFlat | connectors/groundworkFunctions.go:378-382 | Only a single flat call matches the flat pattern |
| Expression.SplitJoins | connectors/groundworkFunctions.go:421-422 | Joining the pieces with the separator gives the text back, and no piece holds it |
| Expression.SplitAt | connectors/groundworkFunctions.go:421-422 | Pieces before a separator come first, pieces after it later |
| Expression.SplitWhole | connectors/groundworkFunctions.go:421-422 | Without a separator the text is the one piece |
| Expression.PiecesInOrder | connectors/groundworkFunctions.go:421-439 | Result i is the value of piece i; an error is that of the first piece that has one |
| Expression.NamePiece | connectors/groundworkFunctions.go:423-437 | A piece that is one name is looked up with its dots as underscores, and an empty piece under the empty name |
| Expression.SignPiece | connectors/groundworkFunctions.go:423-437 | A piece with a sign anywhere is computed, and an error if the sum cannot be read |
| Expression.LaterDecides | connectors/groundworkFunctions.go:403-418 | Of two lists of elements the later one decides how the evaluation ends, and the earlier one only if it ends with values |
| Expression.CallCases | connectors/groundworkFunctions.go:382-400 | For a call without failing calls inside: unknown function, then the first argument error, then a wrong number, then the function on the arguments in order |
| Expression.MeaningsAtComma | connectors/groundworkFunctions.go:382-400 | The meanings of elements around a comma are those before it followed by those after it |
| Expression.MeaningOfOne | connectors/groundworkFunctions.go:382-400 | One variable means what it holds; one call what its function gives on the meanings of its arguments |
| Expression.PrintIs | connectors/groundworkFunctions.go:377-382 | The text of a call is its name and its arguments between parentheses; all else is one token |
| Expression.ReplaceFirst | connectors/groundworkFunctions.go:412-415 | The first occurrence is replaced, and then all in what follows |
| Dispatcher.Dispatcher.ProcessMsg | nats/dispatcher.go:165-240 | One message updates retry counter and sequence cache as the counting function says, other durables unchanged; anything but a transient failure acknowledges and leaves the stored retry as it was; a returned delay index is in range; lostOrder reported exactly when the sequence is not new |
| Dispatcher.Dispatcher.CountTransient | nats/dispatcher.go:212-240 | The transient branch: the stored counter goes up, or is deleted when the delays are used up |
| Dispatcher.Dispatcher.FetchBatch | nats/dispatcher.go:128-160 | One fetch round answers every message once, stops handling after the first transient failure, and leaves a delay index in range |
| Dispatcher.Dispatcher.Flush | nats/dispatcher.go:53-56 | Both caches are emptied |
| Dispatcher.CountClosedForm | nats/dispatcher.go:222-234 | After F transient failures exactly F / (n+1) messages were given up and the stored counter is F mod (n+1) - 1; `CountsInEveryRun` has F and the drops counted from the outcomes |
| Dispatcher.BatchKeepsCount | nats/dispatcher.go:128-157 | A batch keeps that relation, and a delay index used after it is in range |
| Dispatcher.BatchCounts | nats/dispatcher.go:128-144 | In a batch failures are the transient outcomes among the messages handed to the handler, drops those among the acknowledged; without one the stored retry stays |
| Dispatcher.AckedExactly | nats/dispatcher.go:199-240 | From the outcomes alone: a message is acknowledged, if it is reached, exactly when its outcome is not transient or is the last of a round of n+1 transient ones |
| Dispatcher.HandlesOne | nats/dispatcher.go:165-234 | A message reaches the handler exactly when its metadata can be read; only it may be acknowledged, and it always is on anything but a transient failure |
| Dispatcher.CountsInEveryRun | nats/dispatcher.go:104-240 | In every run of fetches, expiries and flushes: with F the transient outcomes handed to the handler since the last expiry or flush, counted from the events, F / (n+1) of them were acknowledged and the stored retry is F mod (n+1) - 1 |
| Dispatcher.AckedPrefix | nats/dispatcher.go:129-144 | In each batch all messages are answered once, the acknowledged ones form a prefix, and the first one not acknowledged is a transient failure |
| Dispatcher.ServeFollowsBatch | nats/dispatcher.go:128-144 | The system step acknowledges exactly what the batch function acknowledges |
| Dispatcher.PrefixInEveryRun | nats/dispatcher.go:104-160 | In every run of fetches, expiries and flushes the acknowledged messages are a prefix of the stream, order is never lost, the counter has its closed form, and with k expiries and flushes no message has more than (k+1)*n+1 attempts |
| Dispatcher.StreamDrains | nats/dispatcher.go:104-160 | A stream of L messages is fully acknowledged after L*(n+1)+n+k*n fetches, whatever the handlers return and wherever k expiries and flushes fall |
| Batcher.SizeIsSum | batcher/batcher.go:91-132 | In every interleaving of Add, Batch, Clear, Reset and ticks, the size is the sum of the buffered lengths whenever the lock is free |
| Batcher.NothingLostOrDoubled | batcher/batcher.go:91-197 | In every interleaving the payloads added are, in order, those removed and those buffered; no segment is built twice, only taken ones are built, and when all goroutines are idle every non-empty taken one was built |
| Batcher.QuietWithinLimit | batcher/batcher.go:113-119 | Although the size is read without the lock: in every run, resets included, when all goroutines are idle the buffer is within the largest limit ever set |
| Batcher.ResetCanExceed | batcher/batcher.go:189-197 | That is as far as it goes: for any smaller new limit there is a run whose reset leaves more buffered than the limit in force, with all goroutines idle |
| Batcher.MoveExclusive | batcher/batcher.go:93-130 | Exactly the goroutine between its lock and unlock holds the lock |
| Batcher.MoveSized | batcher/batcher.go:105-129 | Each step keeps the relation of size and buffer, including the halfway states |
| Batcher.MoveTickets | batcher/batcher.go:127-149 | Each step keeps that a taken segment belongs to exactly one goroutine until it is built |
| Batcher.MoveBounded | batcher/batcher.go:105-119 | Each step keeps that a buffer over the limit has a goroutine coming for it |
| Batcher.WholeAlone | batcher/batcher.go:91-197 | Run without interruption, every operation comes to its end having done exactly what its whole-state description says |
| Batcher.WholeKeeps | batcher/batcher.go:91-197 | A whole operation keeps size and buffer in step and accounts for every payload |
| BatcherLaws.EveryAddAccounted | batcher/batcher.go:91-186 | In every interleaving, once all goroutines are idle: the payloads that left the buffer and those in it are together exactly the payloads adds were begun with |
| BatcherLaws.KeptWithinLimit | batcher/batcher.go:105-119 | However many goroutines add at once: as long as the payloads begun with are within the limit together, nothing leaves the buffer |
| BatcherLaws.WithoutClears | batcher/batcher.go:91-186 | Without a clear every payload an add was begun with is given to the builder or still buffered, once all goroutines are idle |
| BatcherLaws.BuilderGetsSome | batcher/batcher.go:131-149 | In every interleaving the builder is never called with an empty batch |
| BatcherLaws.WholeExactly | batcher/batcher.go:91-197 | What each operation run alone takes, drops, builds and leaves, and when an add builds: exactly when the lengths exceed the limit |
| Batcher.Batcher.Add | batcher/batcher.go:91-120 | Add appends, and hands out the whole buffer exactly if the lengths now exceed the limit; afterwards the buffer is within the limit |
| Batcher.Batcher.Batch | batcher/batcher.go:122-172 | Batch hands out the buffered payloads in order and leaves the buffer empty |
| Batcher.Batcher.Clear | batcher/batcher.go:180-186 | Clear empties the buffer without handing anything out and keeps the limit |
| Batcher.Batcher.Reset | batcher/batcher.go:189-197 | Reset hands out the buffer, empties it and then sets the new limit |
| EventsBuilder.Build | batcher/events/events.go:16-62 | Every decodable event comes out exactly as often as it went in; in the same order if no oversized payload overtakes a pending event, and for distinct events only then |
| EventsBuilder.BuildConserves | batcher/events/events.go:22-47 | Multiset of events kept, at most total/maxBytes + 1 merges |
| EventsBuilder.EveryOutputTraced | batcher/events/events.go:22-47 | Every output is the events of the payloads merged in it, which hold fewer than 2*maxBytes bytes, or a named part of a named oversized payload; over all outputs these are the decodable payloads within the limit and all parts of the oversized ones, each once and in order, up to a last merge without events |
| EventsBuilder.MergesFill | batcher/events/events.go:22-47 | Every merge reaches the limit with its last payload and not before, but for one at the end that stays below it and holds an event |
| EventsBuilder.BuildInOrder | batcher/events/events.go:22-47 | For every buffer: if no oversized payload with events comes while a merge with events is pending, the order is kept |
| EventsBuilder.InOrderIff | batcher/events/events.go:22-47 | With distinct events the order is kept if and only if that holds, which is computed from lengths and emptiness before the call |
| EventsBuilder.FittingInOrder | batcher/events/events.go:22-47 | In particular without oversized payloads the order is kept |
| EventsBuilder.OversizedOvertakes | batcher/events/events.go:23-26 | Any payload below the limit is overtaken by any oversized one directly after it |
| EventsBuilder.SplitPartitions | batcher/events/events.go:73-86 | The parts of an oversized payload with cnt events concatenate to its events, hold cnt / (len / maxBytes + 1) + 1 events each but for the last, which holds 1 to as many, and number at most len / maxBytes + 1 |
| EventsBuilder.SplitOversized | batcher/events/events.go:64-87 | The index loop produces exactly these consecutive parts |
| EventPipeline.EveryEventOnce | batcher/batcher.go:91-172 | In every interleaving of adds, batches, clears, resets and ticks, once all goroutines are idle every event of every payload an add was begun with was handed on exactly once, or dropped by a clear, or is still buffered |
| Pipeline.RemovedAccounted | batcher/batcher.go:122-172 | Whatever the order in which taken segments are built, what was built and what clears dropped are the items that left the buffer, for any kind of item |
| Pipeline.EveryItemOnce | batcher/batcher.go:91-172 | In every interleaving, once all goroutines are idle every item of every payload an add was begun with is in exactly one segment built, or was dropped by a clear, or is still buffered |
| MetricPipeline.EveryServiceOnce | batcher/batcher.go:91-172 | In every interleaving of adds, batches, clears, resets and ticks, once all goroutines are idle every service of every payload an add was begun with was handed on exactly once, or lost by a split, or dropped by a clear, or is still buffered |
| MetricPipeline.NothingLostOnCuts | batcher/metrics/metrics.go:104-128 | Over all segments built nothing is lost by splits if and only if every resource of every oversized payload in them ends on a cut |
| EventPipeline.HandedOnIsEvents | batcher/events/events.go:16-62 | Building one taken segment hands on exactly its events, for any limit |
| MetricsBuilder.SplitDescribed | batcher/metrics/metrics.go:95-128 | Splitting cnt services puts out exactly cnt / lim requests for lim = cnt / (len / maxBytes + 1) + 1, fewer than len / maxBytes + 1, and all services exactly when every resource with services ends at a multiple of lim |
| MetricsBuilder.SplitAt | batcher/metrics/metrics.go:104-123 | Request k holds one resource and ends at service (k+1)*lim, with that resource's services since its start or the last cut |
| MetricsBuilder.SplitConserves | batcher/metrics/metrics.go:104-128 | Every service of a split payload is put out or lost, exactly once |
| MetricsBuilder.NothingLostIff | batcher/metrics/metrics.go:104-128 | No service is lost if and only if every resource that has services ends on a cut |
| MetricsBuilder.CutResource | batcher/metrics/metrics.go:105-123 | The inner loop puts out exactly the cuts of one resource and carries the counter on |
| MetricsBuilder.SplitOversized | batcher/metrics/metrics.go:86-136 | The whole split, followed by the rewriting of all tokens so far |
| MetricsBuilder.RewriteTokens | batcher/metrics/metrics.go:130-135 | The rewriting loop writes each entry's own index into its token |
| MetricsBuilder.RetokenedDistinct | batcher/metrics/metrics.go:130-135 | After the rewriting, long tokens of entries below 10000 differ pairwise |
| MetricsBatch.Build | batcher/metrics/metrics.go:17-75 | The outputs are the combined requests with their groups packed; without oversized payloads their resources concatenate to those of the inputs |
| MetricsBatch.Combine | batcher/metrics/metrics.go:22-59 | The loop computes the functional build state for every buffer |
| MetricsBatch.CheckStatus | batcher/metrics/metrics.go:77-84 | True exactly when a resource has a status other than HostUnchanged |
| MetricsBatch.EveryOutputExplained | batcher/metrics/metrics.go:22-59 | But for its token every output is the merge of its inputs, below 2*maxBytes bytes and without status, or one payload with a status, or the named part of a named oversized payload; over all outputs these are the decodable payloads and all parts, each once and in order, up to a last merge without resources |
| MetricsBatch.MergesFill | batcher/metrics/metrics.go:22-59 | No merge is put out early: it reaches the limit with its last input, or holds resources and comes right before a payload with a status or last of all |
| MetricsBatch.MergedContext | batcher/metrics/metrics.go:46-49 | Field by field, agent, application type, token, version and time of a merge are those of its last input that gives one, and empty if none does |
| MetricsBatch.MergedContents | batcher/metrics/metrics.go:46-49 | The resources and groups of a merge are those of its inputs, in order |
| MetricsBatch.PartsContext | batcher/metrics/metrics.go:104-128 | Every part has the agent, application type, token, version, time and groups of its payload |
| MetricsBatch.OutputToken | batcher/metrics/metrics.go:130-135 | The token of every output is its origin's, rewritten with the output's index once for each payload split from its own on |
| MetricsBatch.LastToken | batcher/metrics/metrics.go:57-59 | The merge put out at the end keeps its token |
| MetricsBatch.BuildConserves | batcher/metrics/metrics.go:22-59 | Without oversized payloads resources are kept in order, and groups too except those of a last merge without resources |
| MetricsBatch.BuildAccounts | batcher/metrics/metrics.go:17-59 | For every buffer services out and services lost are together the services in; none is lost if and only if all oversized payloads end on cuts |
| MetricsBatch.SplitCanLose | batcher/metrics/metrics.go:104-128 | Any payload with three services of one resource that is longer than the limit and shorter than two limits loses the last service |
| GroupPacking.PackGroups | batcher/metrics/metrics.go:138-173 | Each group key comes out once, named as first given, with each reference key once and its last value, in any order |
| GroupPacking.PacksKeepsMeaning | batcher/metrics/metrics.go:138-173 | For every group key and reference key, the packed groups mean the same reference as before |
| GroupPacking.KeyInjective | batcher/metrics/metrics.go:150-156 | Joined keys tell groups apart as long as types hold no colon |
| GroupPacking.GroupsTogetherIff | batcher/metrics/metrics.go:150-156 | Two groups without a colon in their types are packed together exactly when type and name agree |
| GroupPacking.RefsTogetherIff | batcher/metrics/metrics.go:156-159 | Two references without a colon in their types replace each other exactly when type and name agree, whatever their owners |
| TraceToken.TokensDistinct | services/agent.go:206-216 | Tokens of one agent for distinct 64-bit counter values are distinct |
| TraceToken.UvarintPut | services/agent.go:210-211 | The variable-length counter is read back whatever follows it: the encoding is prefix-free |
| TraceToken.PutGroups | services/agent.go:210-211 | Byte k holds the k-th seven bits of the counter and the mark that more follow; the last byte has no mark and is not zero but for zero itself |
| TraceToken.FormatInjective | services/agent.go:216 | The hyphenated hexadecimal form determines the sixteen bytes |
| TraceToken.FormatLayout | services/agent.go:216 | Hyphens at characters 8, 13, 18 and 23 and lower-case hexadecimal digits everywhere else |
| TraceToken.Tracer.MakeTraceToken | services/agent.go:206-216 | Each token issued differs from all issued before |
| TraceToken.Tracer.constructor | services/agent.go:704-716 | The counter starts at one over sixteen fixed bytes |
| TraceToken.RewriteIdempotentIff | batcher/metrics/metrics.go:130-135 | Rewriting twice with one index changes nothing if and only if the index is below 10000 |
| TraceToken.RewriteDistinct | batcher/metrics/metrics.go:130-135 | Tokens rewritten with different indexes below 10000 differ |
| TraceToken.RewriteForgets | batcher/metrics/metrics.go:130-135 | At one index rewritten tokens are equal exactly when characters 0-7 and 14 onward were |
| Decimal.Print4Width | batcher/metrics/metrics.go:133 | Four-place numerals are four wide exactly below 10000 |
| Decimal.Print4Digits | batcher/metrics/metrics.go:133 | The four decimal places of a number below 10000, zeros in front, and the plain numeral above |
| TaskQueue.TaskQueue.PushAsync | taskqueue/taskqueue.go:53-84 | Accepted exactly when the subject is known and there is room, with the next index in 1..255; a refused push changes nothing |
| TaskQueue.TaskQueue.Enqueue | taskqueue/taskqueue.go:63-71 | An accepted push keeps queue, ring, index and answers in step |
| TaskQueue.TaskQueue.Take | taskqueue/taskqueue.go:95-96 | The worker takes the oldest waiting one |
| TaskQueue.TaskQueue.Finish | taskqueue/taskqueue.go:107-113 | It sends exactly one answer, the one of the subject's handler, in push order |
| TaskQueue.TaskQueue.PushSync | taskqueue/taskqueue.go:87-93 | Returns the answer to its own push, after all earlier ones were answered |
| TaskQueue.TaskQueue.LastTasks | taskqueue/taskqueue.go:73-80 | The ring shows the last min(accepted, capacity) accepted ones, oldest first |
| TaskQueue.DistinctIff | taskqueue/taskqueue.go:58-67 | Consecutive indexes are pairwise distinct if and only if there are at most 255 of them |
| TaskQueue.TaskQueue.OutstandingDistinct | taskqueue/taskqueue.go:53-84 | With capacity at most 254, all waiting and running ones have distinct indexes |
| TaskQueue.TaskQueue.FullQueueShares | taskqueue/taskqueue.go:53-84 | With capacity 255, a full queue and a running one share an index |
| TaskQueue.FillUntilShared | taskqueue/taskqueue.go:53-96 | And that is reached: from a new queue of capacity 255, one push that the worker takes and 255 more |
| TaskQueue.WindowMoves | taskqueue/taskqueue.go:69-70 | Recording one more moves the window of last tasks by one |
| TaskQueue.RoundMoves | taskqueue/taskqueue.go:69-70 | Writing at the ring position and advancing drops the oldest entry and adds the newest |
| Lifecycle.RunKeeps | services/agent.go:424-643 | In every run of tasks, however their starts go: transport runs only over a running server, for a configured connector and exactly its enabled connections; a crash is found with transport stopped |
| Lifecycle.PerformKeeps | services/agent.go:373-404 | Each kind of task keeps that, and crashes exactly when it stops a server whose cancel function was never set |
| Lifecycle.ConnectedNeverCrashes | nats/nats.go:138-146 | If every server that is started gets its publisher, no run crashes: each stop finds the cancel function it calls |
| Lifecycle.UnconnectedCrashes | nats/nats.go:138-143 | A first server whose publisher cannot connect makes the next stop, reset or exit crash |
| Lifecycle.ConfigureExactly | services/agent.go:424-503 | When loading a configuration crashes; and otherwise transport runs if and only if it is enabled, configured, has an enabled connection, server and connection start, and NATS changed or transport ran before |
| Lifecycle.EnabledAfterConfig | services/agent.go:424-503 | After any run that ends with a configuration, transport runs only for an enabled connector; after a failed load not at all |
| Lifecycle.ResetExactly | services/agent.go:541-563 | A reset keeps both services running or not, exactly as far as the restarts succeed, or crashes on a server without cancel function |
| Lifecycle.StartTransportExactly | services/agent.go:608-637 | Starting transport runs it if and only if connector, connections and server allow and the connection succeeds; and when it returns no error |
| Lifecycle.EnabledWithoutStarts | services/agent.go:424-503 | In every run without start requests, transport runs only for an enabled connector |
| Lifecycle.DisabledIff | services/agent.go:608-637 | One step breaks that exactly when it is a start request that succeeds for a disabled connector |
| Lifecycle.DisabledCanRun | services/agent.go:608-637 | Such a step exists for every disabled connector with something to dispatch to |
| Lifecycle.ExitStopsAll | services/agent.go:506-538 | Exit leaves neither server nor transport nor their connections, unless it crashes on a server without cancel function |
| Lifecycle.Agent.LoadConfig | services/agent.go:424-503 | The configuration steps over the shared flags do what the value description says |
| Lifecycle.Agent.Restart | services/agent.go:469-492 | The restart part of a configuration |
| Lifecycle.Agent.Reset | services/agent.go:541-563 | The reset over the shared flags |
| Lifecycle.Agent.EndNats | services/agent.go:596-606 | Stopping NATS stops transport first, then the server |
| Lifecycle.Agent.BeginTransport | services/agent.go:608-637 | Starting transport, with its error results in order |
| Lifecycle.Agent.EnabledConnections | services/agent.go:619-629 | The client loop keeps the enabled connections in order |
| Lifecycle.EnabledIff | services/agent.go:619-629 | A connection is among those dispatched to exactly when it is enabled, and they keep their order |
| Lifecycle.ConfiguredIff | services/agent.go:91-99 | An agent is configured exactly when its identifier and type are neither empty nor one of the placeholders |
| Lifecycle.NagiosIff | services/agent.go:611 | The type for which a missing configuration is no error is NAGIOS in any mixture of cases |
| Lifecycle.Agent.Handle | services/agent.go:373-404 | The switch over the subjects |
| Lifecycle.Agent.BeginNats | nats/nats.go:80-154 | Starting the server: nothing if it runs, an error without a server, or a server that stays although its connection or its stream failed |
| Lifecycle.Agent.CloseServer | nats/nats.go:270-300 | The server, publisher and dispatcher connections are gone; without the cancel function the process crashes and nothing else changes |
| Lifecycle.Agent.CloseDispatcher | nats/nats.go:337-365 | The dispatcher's connection and cancel function are gone |
| Payload.V1ReadsBackIff | services/services.go:301-356 | Format 1 reads back every message, with any payload bytes, if and only if its type is below 8 |
| Payload.V1Layout | services/services.go:315-326 | Format 1 byte by byte: type, eight bytes of span, sixteen of trace, flags, payload |
| WireText.V2ReadsBackIff | services/services.go:301-313 | Format 2 writes a message and reads it back if and only if its type has a name and its payload is one JSON value without outer white space |
| Payload.PanicsIff | services/services.go:301-344 | Decoding panics on exactly: first byte below 8 and length 10 to 25, or the bare prefix |
| Payload.DecodedFits | services/services.go:301-418 | Whatever is decoded has fields of the right widths and a type that has a name |
| WireText.V2Layout | services/services.go:372-388 | The appended pieces are the prefix, an object with five members, and a closing brace |
| WireText.V2Text | services/services.go:372-388 | The text is an object in the member v2 with exactly the members type, payload, spanID, traceID and traceFlags, in this order, and what each holds |
| WireText.OtherPayload | services/services.go:391-395 | With any other payload the decoded payload differs or decoding fails |
| Payload.NameReadsBack | services/services.go:259-284 | A type is read from its own name and from no other |
| Payload.FromStr | services/services.go:276-284 | The search loop returns the first type with that name, or an error |
| Payload.UnhexHex | services/services.go:382-407 | Decoding inverts the hexadecimal encoding |
| Payload.NatsPayload.Receive | services/services.go:301-313 | The dispatch over the receiver computes the functional decoding and leaves the receiver as it says, also on errors |
| Payload.NatsPayload.DecodeV1 | services/services.go:328-356 | The buffered reads of format 1, with short reads filled with zeros, end of input and the panic |
| Payload.NatsPayload.DecodeV2 | services/services.go:391-419 | The decoding of format 2 assigns the receiver only when everything was read |
| Payload.PassedOverAnywhere | services/services.go:391-412 | Members with other names, and null for any member but the payload, make no difference wherever they come |
| JsonText.ValueTail | services/services.go:391-395 | Reading one JSON value does not depend on the text after it, in both directions |
| JsonText.MembersAreValues | services/services.go:363-365 | Member values kept as written are complete JSON values |
| JsonText.ReadAll | services/services.go:372-388 | Members written one after the other are read back in order |
| LogFile.LogFile.Write | logzer/logfile.go:31-52 | Whatever the operating system lets fail: exactly when no error is returned; then the record ends the current file; what is kept is part of what was kept and put, in order; and without a file lost from the middle both add up with what rotation drops |
| LogFile.RunSubsequence | logzer/logfile.go:31-80 | In every run of writes, whatever fails, what is kept is in order part of what was there and what was put, nothing doubled |
| LogFile.RunSuffix | logzer/logfile.go:31-80 | In every run without a file lost from the middle, what is kept is the last part of it |
| LogFile.RotatedExactly | logzer/logfile.go:67-79 | A rotation, whatever renames fail, leaves in order exactly the files that are not lost: those that stay while the one before them goes there |
| LogFile.SuffixIff | logzer/logfile.go:67-79 | With distinct records a rotation drops only the beginning of the history if and only if whatever is lost is older than everything that is left |
| LogFile.CleanDropsOldest | logzer/logfile.go:67-79 | If no rename of a numbered file fails, a rotation loses exactly the oldest file, if it is replaced, for any gaps in the numbering and whether or not there is a file numbered zero |
| LogFile.WriteAccounts | logzer/logfile.go:31-52 | Then what was kept and what a write puts are what rotation drops and what is kept afterwards |
| LogFile.WithinLimit | logzer/logfile.go:35-51 | From an accurate size a first attempt that succeeds leaves the current file within the larger of MaxSize and the record |
| LogFile.FittingWrite | logzer/logfile.go:35-41 | A write that fits, or a MaxSize of zero or less, drops nothing and leaves the numbered files as they were |
| LogFile.OversizeWrite | logzer/logfile.go:35-41 | One that does not fit starts a new current file with what is put, if the file can be moved away |
| LogFile.LogFile.MoveUp | logzer/logfile.go:73-76 | The renaming loop and the last rename, with each rename that may fail |
| LogFile.LogFile.RotateFiles | logzer/logfile.go:67-79 | Closes, removes or renames, and opens again |
| LogFile.LogFile.Prepare | logzer/logfile.go:35-41 | Opening and rotating before the write |
| LogFile.LogFile.TryWrite | logzer/logfile.go:43-51 | One attempt, of which a part may reach the file |
| LogFile.LogFile.OpenFile | logzer/logfile.go:54-65 | Opening creates the file if needed, keeps its content and takes over its size; a failure leaves the old file closed |
| LogFile.MoveUpKeeps | logzer/logfile.go:73-76 | Moving a file to a free number keeps the history |
| LogFile.MoveOverOldest | logzer/logfile.go:73-76 | Moving over the oldest file loses exactly that file |

## Left out

- TypeOrder.TopologicallySortNodes: the table of types and what they mention is input; building it from the syntax tree (lines before 1728) is not modelled. Declaration positions are assumed distinct, because the library sort is not stable.
- TypeOrder.SortByPosition: an insertion sort stands for the library sort; `SortedUnique` shows that the result is the same.
- Destructor.CompileRuns: naming conventions decide the layout, so names that themselves end in `_List` or `_Ptr`, or that read like another type's name with its package in front, are out (`CLayout.WellNamed`); the destructors that exist in this or another package are taken by their contract; which foreign types are scalars or texts is input; comments in the generated text are not modelled.
- Expression.Evaluator.Evaluate: texts are token sequences without white space, every call closed; two names without a sign between them are an error in the model, where the code would run their texts together. Functions and arithmetic (`gval`) are opaque functions on reals, so rounding is not modelled.
- Dispatcher.StreamDrains: a server that offers the earliest unacknowledged messages is assumed. An expiry falls between fetches: inside one it changes what one before it changes, because a fetch reads the counter only at its transient failures.
- Batcher.SizeIsSum: single reads and writes of a field are atomic steps; the memory model behind unlocked reads is not modelled.
- WireText.V2ReadsBackIff: the JSON decoder matches member names exactly and takes string values as written; case-insensitive names, escapes in the type and identifier strings, and the limit on nesting depth are not modelled.
- TaskQueue.TaskQueue.PushAsync: pushes do not overlap; the index is read before the lock is taken, so overlapping pushes could share one. Capacity zero, which the ring cannot hold, is excluded.
- Lifecycle.Agent.BeginNats: ports, options, connections and streams are success flags.
- Lifecycle.RunKeeps: `nats.Publish` (nats/nats.go:380-413), deprecated and called nowhere, would connect a missing publisher later without setting a cancel function; it is not a step of the runs.
- LogFile.LogFile.Write: asking an opened file for its size is taken to succeed. The results on failed renames are for directories without a file numbered zero, which nothing writes.
- TraceToken.Tracer.MakeTraceToken: the wrap-around of the 64-bit counter and the fallback to timestamps are out.
- MetricsBatch.Build and EventsBuilder.Build: payloads are their length and what their JSON decodes to; encoding errors of the output are out. `maxBytes` is positive.
- The HTTP controller, authentication, the C library entry points and the connectors: plumbing and foreign calls.
- NATS and JetStream internals, disk usage, compression, tracing, cryptography, loading of YAML and environment: abstract steps or not present.
- JSON encoding and decoding templates of the generator, and its constant evaluation: a general round trip does not hold there.
- The agent's other work in a configuration step (batcher resets, caches, telemetry, callbacks) and the exit handler: they do not touch the modelled flags.
