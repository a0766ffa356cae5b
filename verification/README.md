# Verified models of the Awaken agent runtime

This project models, in Dafny 4.11, the parts of the Awaken extensions whose behaviour is hardest to
see from reading them, and proves what they guarantee on all inputs and over all runs. Check it with
`dafny verify dfyconfig.toml`.

| Part | Files | What is modelled |
|---|---|---|
| JSON patch stream | `DecimalIndex`, `JsonTree`, `JsonPointer`, `SpecStream`, `PatchLaws`, `SpecDocument` | the lenient patch engine that folds a stream of JSON Pointer operations into one document |
| Deferred tools | `RealPowers`, `DiscBeta`, `DeferralPolicy`, `UsageStats`, `DeferralKeys` | discounted Beta estimates, the decision to defer a tool again, usage counters, the mode and descriptor tables |
| MCP client | `Multiplexer`, `MultiplexerLaws`, `ToolIds` | callers, reader and timeouts racing over shared maps; tool identifiers |
| Skills | `AllowedTools`, `AllowedToolLaws`, `Frontmatter`, `SkillRegistry` | the allowed-tools tokenizer, the two frontmatter readers, the composite registry |
| Telemetry | `BatchingSink`, `PersistentSink` | buffering, spilling to disk and replay |
| Permissions | `Permissions`, `PermissionLaws`, `KeyedEdits` | rule reducers, layering, evaluation |
| Shared | `Options`, `Sequences`, `Text`, `Tools` | option and result types, flattening, splitting and trimming, tool identifiers and load modes |

Code that changes state in place is modelled by classes and methods with loops, each proved equal to a
function of the old state; the theorems are about those functions. Pure code is modelled by functions.
Concurrent code is a state machine whose steps are the sections that hold one lock.

## What the proofs found

Some properties one would expect fail for the code as it stands. Each is replaced by the exact
condition under which it holds, and where that helps a concrete failing input is proved to fail.

- Six of the modelled state keys are declared `Commutative`, which `docs/book/src/explanation/state-and-snapshot-model.md:52`
  explains as: updates give the same result in any order. Their updates do not in general. The `...CommuteIff`
  lemmas say exactly which pairs do; `DeferralKeys.DeferAndPromoteDiffer` is the plainest pair that does not.
- A written path reads back what was written only if its segments are indices wherever an array stands,
  or will be created (`JsonTree.WriteIsReadableIff`; it fails for `JsonTree.AppendedIsUnreadable`).
- The container created for the last parent of a path is always an object, so a path that ends in a number below a
  missing parent creates an object with a numeric key (`JsonTree.CreatedParentIsObject`).
- The pointer `/`, which by section 5 of RFC 6901 names the member with the empty key, is taken for the
  whole document (`SpecStream.GetAtFormat`).
- The streaming frontmatter reader accepts a fence followed by bare carriage returns; the parser does not
  (`Frontmatter.ReaderAgreesIff`, `Frontmatter.BareCarriageReturnDisagrees`).
- A token with a quote before its first parenthesis can lose white space from its tool id
  (`AllowedTools.PlainIff`, `AllowedTools.QuotedTokenIsNotPlain`).
- Two overlapping flushes can deliver events out of order (`BatchingSink.OverlappingFlushesReorder`); the order of
  distinct events is kept exactly when flushes forward from the oldest batch (`BatchingSink.InOrderIff`).
- A recorded line can be lost: exactly when the first flush after it fails, its spill to disk fails too, and the inner
  sink is never flushed successfully after it (`PersistentSink.AtLeastOnceIff`, for distinct lines).
- The end of input empties the pending map, but a call that checked for liveness before may register afterwards
  (`Multiplexer.RegistrationAfterClearing`). The map stays empty exactly when no call is between the two
  (`Multiplexer.ClearedStaysClearIff`).
- Over HTTP the last response with the request's id counts, over stdio the first.

## Model

| member | source | states |
|---|---|---|
| JsonTree.ReadAfterWrite | crates/awaken-ext-generative-ui/src/json_render.rs:155-191 | a value written by a set or an add is what a read of the same path returns, if and only if the walk names array positions by indices and ends in a container |
| JsonTree.AddressableIffPathFits | crates/awaken-ext-generative-ui/src/json_render.rs:278-334 | that walk succeeds if and only if every segment is an index where an array stands in the tree before the write, or where one will be created |
| JsonTree.WriteIsReadableIff | crates/awaken-ext-generative-ui/src/json_render.rs:176-334 | read-after-write with its exact condition stated on the tree before the write alone |
| JsonTree.AppendedIsUnreadable | crates/awaken-ext-generative-ui/src/json_render.rs:193-225 | an append with the segment "-" adds the value at the end, and reading the same path finds nothing |
| JsonTree.SetOverwrites | crates/awaken-ext-generative-ui/src/json_render.rs:257-276 | writing twice to an addressable path equals writing the second value once |
| JsonTree.WriteFrame | crates/awaken-ext-generative-ui/src/json_render.rs:176-334 | a write leaves every path that diverges at a key or an array position as it was; the one exception is an absent array slot padded with null |
| JsonTree.WriteAtParent | crates/awaken-ext-generative-ui/src/json_render.rs:193-225 | if the parent exists as a container, after the write it is the old parent with just that child set or inserted |
| JsonTree.CreatedParentIsObject | crates/awaken-ext-generative-ui/src/json_render.rs:281-330 | on an addressable path whose last container is missing or a scalar, that container becomes an object holding just the written value, even under a numeric key |
| JsonTree.InsertShifts | crates/awaken-ext-generative-ui/src/json_render.rs:193-225 | after an insertion into an array every path through an element from its position on reads the same with the index one higher |
| JsonTree.RemoveAtParent | crates/awaken-ext-generative-ui/src/json_render.rs:227-255 | after a removal the parent has lost exactly that child; a missing parent leaves the whole tree unchanged |
| JsonTree.ReadAfterRemove | crates/awaken-ext-generative-ui/src/json_render.rs:227-255 | a removed path reads nothing, or the array element that moved into its place |
| JsonTree.RemoveFrame | crates/awaken-ext-generative-ui/src/json_render.rs:227-255 | a removal leaves every diverging path unchanged; elements before a removed one stay |
| JsonTree.RemovalShifts | crates/awaken-ext-generative-ui/src/json_render.rs:227-255 | after a removal from an array every path through a later element reads the same with the index one lower |
| JsonTree.RemoveUndoesInsertIff | crates/awaken-ext-generative-ui/src/json_render.rs:193-255 | removing after adding restores the tree if and only if the slot was an absent key or a position up to the end of an existing container (or the document is a scalar, which both leave alone) |
| JsonPointer.UnescapeIsOneScan | crates/awaken-ext-generative-ui/src/json_render.rs:365 | the two whole-string replacements equal one left-to-right decoding, on every text |
| JsonPointer.ParseFormat | crates/awaken-ext-generative-ui/src/json_render.rs:358-367 | printing any non-empty list of arbitrary segments as a JSON Pointer and parsing it returns the list |
| JsonPointer.FormatParseIff | crates/awaken-ext-generative-ui/src/json_render.rs:358-367 | a path is the printed form of its segments if and only if it starts with a slash and each tilde starts an escape |
| SpecStream.ApplyAllConcat | crates/awaken-ext-generative-ui/src/json_render.rs:112-153 | applying a concatenated stream is applying the second part to the result of the first, errors included |
| SpecStream.PatchesOfTrimmed | crates/awaken-ext-generative-ui/src/json_render.rs:53-78 | trimming the text and splitting it with either line ending yields exactly the patches on its pieces between line feeds |
| SpecStream.CompileIsFold | crates/awaken-ext-generative-ui/src/json_render.rs:53-89 | with at least one effective patch the result is the fold of the patches in line order from the empty object, then validated |
| SpecStream.CompileWholeDocument | crates/awaken-ext-generative-ui/src/json_render.rs:80-85 | without patches it succeeds if and only if the trimmed text is one renderable document, which is the result |
| SpecStream.CompiledIsRenderable | crates/awaken-ext-generative-ui/src/json_render.rs:91-110 | every success has a non-blank string root that is a key of the elements |
| SpecStream.NoiseLineIsIgnored | crates/awaken-ext-generative-ui/src/json_render.rs:62-78 | inserting a blank, unparseable or empty-path line between any two lines of a text with at least one effective patch changes nothing |
| SpecStream.GetAtFormat | crates/awaken-ext-generative-ui/src/json_render.rs:155-174 | a printed path addresses what its segments address, except that the path of one empty key addresses the whole document |
| SpecStream.WriteAtIsReadableIff | crates/awaken-ext-generative-ui/src/json_render.rs:112-153 | read-after-write on textual paths, if and only if the path is the root or fits the tree |
| SpecStream.MovedValueIsReadableIff | crates/awaken-ext-generative-ui/src/json_render.rs:117-126 | a move from a resolving place succeeds, and its value is readable at the target if and only if the target fits the tree after the removal |
| SpecStream.CopyKeepsSource | crates/awaken-ext-generative-ui/src/json_render.rs:127-135 | a copy to a diverging target leaves its source readable |
| SpecStream.RemoveAtUndoesAddIff | crates/awaken-ext-generative-ui/src/json_render.rs:193-255 | the inverse law on textual paths, with its exact condition |
| DecimalIndex.ParseDecimal | crates/awaken-ext-generative-ui/src/json_render.rs:164 | the decimal notation of a number, printed digit by digit, reads as that number if and only if it fits 64 bits |
| DecimalIndex.ParseIndexIff | crates/awaken-ext-generative-ui/src/json_render.rs:164 | a segment reads as n if and only if it is at most one plus sign, any zeros and the decimal notation of an n that fits |
| PatchLaws.AddToArray | crates/awaken-ext-generative-ui/src/json_render.rs:114 | an "add" below an array inserts at the index in the last segment, and appends past the end or without an index |
| PatchLaws.ReplaceInArray | crates/awaken-ext-generative-ui/src/json_render.rs:115 | a "replace" below an array puts the value in the place of the element there; past the end it fills up with nulls, without an index it appends |
| PatchLaws.RemoveFromArray | crates/awaken-ext-generative-ui/src/json_render.rs:116 | a "remove" below an array takes out the element at an index in range, and nothing otherwise |
| PatchLaws.EditObject | crates/awaken-ext-generative-ui/src/json_render.rs:114-116 | below an object "add" and "replace" set the member and "remove" takes it out |
| PatchLaws.RemoveNothing | crates/awaken-ext-generative-ui/src/json_render.rs:227-255 | a removal whose parent is missing or a scalar leaves the whole document as it was |
| PatchLaws.MoveIsRemoveThenAdd | crates/awaken-ext-generative-ui/src/json_render.rs:117-126 | a move equals the removal and the addition it stands for, applied in turn; it fails without a source and does nothing if nothing is there |
| PatchLaws.CopyIsAdd | crates/awaken-ext-generative-ui/src/json_render.rs:127-135 | a copy equals an addition of what stands at its source, with the same two exceptions |
| PatchLaws.ReplaceIsRemoveThenAdd | crates/awaken-ext-generative-ui/src/json_render.rs:114-116 | on a path that resolves, array elements included, a replacement equals a removal and an addition |
| PatchLaws.TestPassesIff | crates/awaken-ext-generative-ui/src/json_render.rs:136-146 | a test passes, changing nothing, if and only if exactly the value it expects is there; each error has its own condition |
| PatchLaws.CreatedArrayIsPadded | crates/awaken-ext-generative-ui/src/json_render.rs:278-334 | a missing container below an index that does not end the path becomes an array, padded with nulls up to any such index |
| PatchLaws.CreatedContainerKind | crates/awaken-ext-generative-ui/src/json_render.rs:278-334 | below a dash it becomes an array, too; below any other segment that is not all digits an object |
| PatchLaws.PrintedStreamCompiles | crates/awaken-ext-generative-ui/src/json_render.rs:53-89 | patches printed one to a line, if they read back, compile to their fold from the empty object without those whose path is empty |
| PatchLaws.NothingToCompileIff | crates/awaken-ext-generative-ui/src/json_render.rs:53-85 | the output is reported empty if and only if it is blank, and invalid if and only if it is not, holds no patch and is no document |
| PatchLaws.CheckedIff | crates/awaken-ext-generative-ui/src/json_render.rs:91-110 | which of the four errors a finished document that cannot be rendered meets |
| SpecDocument.Document.GetByPath | crates/awaken-ext-generative-ui/src/json_render.rs:155-174 | the cursor loop returns what the tree function reads |
| SpecDocument.Document.EnsureParentContainer | crates/awaken-ext-generative-ui/src/json_render.rs:278-334 | the walk borrows the node at which any edit, put back, makes the document the written one |
| SpecDocument.Document.EnterChild | crates/awaken-ext-generative-ui/src/json_render.rs:284-330 | one round of the walk creates, pads or overwrites so that the child is the container to continue in |
| SpecDocument.Document.SetByPath | crates/awaken-ext-generative-ui/src/json_render.rs:176-191 | the document becomes the tree with the value set |
| SpecDocument.Document.SetChildValue | crates/awaken-ext-generative-ui/src/json_render.rs:257-276 | the padding loop and the three container cases amount to the edit of one child |
| SpecDocument.Document.AddByPath | crates/awaken-ext-generative-ui/src/json_render.rs:193-225 | the document becomes the tree with the value inserted |
| SpecDocument.Document.GetParentContainer | crates/awaken-ext-generative-ui/src/json_render.rs:336-356 | borrows the node the segments lead to, or finds none, creating nothing |
| SpecDocument.Document.RemoveByPath | crates/awaken-ext-generative-ui/src/json_render.rs:227-255 | the document becomes the tree with that child removed |
| SpecDocument.Document.Apply | crates/awaken-ext-generative-ui/src/json_render.rs:112-153 | one operation changes the document as specified; a failing one leaves it as it was |
| SpecDocument.ApplyLines | crates/awaken-ext-generative-ui/src/json_render.rs:59-78 | the line loop leaves the fold of the effective patches and counts them |
| SpecDocument.CompileOutput | crates/awaken-ext-generative-ui/src/json_render.rs:53-89 | the imperative compiler returns exactly the specified result |
| DiscBeta.NewEntry | crates/awaken-ext-deferred-tools/src/state.rs:242-251 | a new entry is valid, with total evidence between n0 and n0 plus the two floors |
| DiscBeta.NewEntryIsPrior | crates/awaken-ext-deferred-tools/src/state.rs:242-251 | a new entry has the prior as its mean if both parameters reach the floor, and the floor where one does not |
| DiscBeta.UpperCiOnNumbers | crates/awaken-ext-deferred-tools/src/state.rs:253-279 | mean and bound on the two parameters alone, for each level of confidence |
| DiscBeta.UpperCiBelowIff | crates/awaken-ext-deferred-tools/src/state.rs:253-279 | comparing the upper bound, computed with a square root, with a threshold is equivalent to a test on squares |
| DiscBeta.DiscBetaState.InitBatch | crates/awaken-ext-deferred-tools/src/state.rs:315-319 | adds the entries in order and keeps those present |
| DiscBeta.DiscBetaState.ObserveTurn | crates/awaken-ext-deferred-tools/src/state.rs:320-337 | in any iteration order every tool is discounted, and credited according to whether it was called |
| DiscBeta.InitTakesFirst | crates/awaken-ext-deferred-tools/src/state.rs:315-319 | a batch leaves known tools as they are and gives each new tool the first entry listed for it |
| DiscBeta.InitsCommuteIff | crates/awaken-ext-deferred-tools/src/state.rs:307-319 | two batches commute if and only if they agree on every new tool that both name |
| DiscBeta.InitAndObserveCommuteIff | crates/awaken-ext-deferred-tools/src/state.rs:307-337 | a batch commutes with an observed turn if and only if that turn would leave every tool it adds as it is: no evidence against, the rest at the level the discount sustains |
| DiscBeta.PriorsAndObserveCommuteIff | crates/awaken-ext-deferred-tools/src/state.rs:307-337 | a batch of entries with positive parameters, as made from priors, does so if and only if it adds no tool |
| DiscBeta.ObservationsCommuteIff | crates/awaken-ext-deferred-tools/src/state.rs:307-337 | two observed turns commute if and only if for every known tool they discount alike, agree on the call unless nothing is discounted, and name the same turn if both called it |
| DiscBeta.RunIsPointwise | crates/awaken-ext-deferred-tools/src/state.rs:320-337 | over any history each tool evolves on its own and none is added or removed |
| DiscBeta.RunKeepsValid | crates/awaken-ext-deferred-tools/src/state.rs:320-337 | over any history the parameters stay non-negative and, after one turn, total at least one |
| DiscBeta.EffectiveSampleSize | crates/awaken-ext-deferred-tools/src/state.rs:281-283 | after k turns the evidence is omega^k N0 plus the sum of omega^i for i below k, whichever tools were called |
| DiscBeta.SampleSizeConverges | crates/awaken-ext-deferred-tools/src/state.rs:320-337 | the distance to 1/(1-omega) is multiplied by omega each turn |
| DiscBeta.SampleSizeIsBounded | crates/awaken-ext-deferred-tools/src/state.rs:320-337 | the evidence never exceeds the larger of N0 and 1/(1-omega) |
| DiscBeta.MeanMovesTowardsObservation | crates/awaken-ext-deferred-tools/src/state.rs:320-337 | given evidence of at least 1e-10, an idle turn strictly lowers the mean while there is any evidence of use, a call strictly raises it while there is any of idleness; otherwise it is already at that end |
| DiscBeta.IdleDecay | crates/awaken-ext-deferred-tools/src/state.rs:320-337 | k turns without a call leave alpha times omega^k and the last use as it was |
| DeferralPolicy.CheckTool | crates/awaken-ext-deferred-tools/src/policy.rs:70-100 | the chain of skips, ending in the comparison of the upper bound computed from a square root, decides exactly the root-free predicate to be deferred |
| DeferralPolicy.ToolsToDefer | crates/awaken-ext-deferred-tools/src/policy.rs:59-100 | in any iteration order, and with any square roots of the variances, the result lists exactly the tools to defer, each once |
| DeferralPolicy.EventuallyDeferred | crates/awaken-ext-deferred-tools/src/policy.rs:59-100 | for omega below one there is a number of turns after which any history without a call, whatever other tools do, leaves an eager, deferrable, saving tool among those to defer, for good |
| DeferralPolicy.DeferredIsIdleAndRare | crates/awaken-ext-deferred-tools/src/policy.rs:59-100 | after any history of ascending turns a deferred tool saves something, its mean times gamma is less than that saving times thresh_mult, and none of the last defer_after turns called it |
| DeferralPolicy.ShouldDeferIff | crates/awaken-ext-deferred-tools/src/policy.rs:59-100 | the decision on the raw numbers: a tool is deferred if and only if it is eager, configured to be, idle long enough, and its upper bound times gamma, its deviation spelled out from alpha and beta, is less than the positive saving times thresh_mult |
| DeferralPolicy.ResolveModeIsFirstMatch | crates/awaken-ext-deferred-tools/src/config.rs:89-96 | the mode is that of the first rule that equals or matches the tool, else the default |
| UsageStats.ToolUsageStats.Reduce | crates/awaken-ext-deferred-tools/src/state.rs:181-214 | the loops and conditional counters amount to the specified update |
| UsageStats.CountersAreFaithful | crates/awaken-ext-deferred-tools/src/state.rs:175-214 | over any history presence is the number of distinct turns that recorded the tool, first and last use are the least and greatest of them, and calls are summed |
| UsageStats.PresenceFitsInterval | crates/awaken-ext-deferred-tools/src/state.rs:175-214 | first use is at most last use, that at most the current turn, and presence is at most the turns between them |
| UsageStats.RecordActionsCommute | crates/awaken-ext-deferred-tools/src/state.rs:186-212 | within a turn any two record actions commute |
| UsageStats.ActionsCommuteIff | crates/awaken-ext-deferred-tools/src/state.rs:175-214 | two actions commute if and only if they are of one kind or one of them records nothing |
| UsageStats.BatchIsSingleCalls | crates/awaken-ext-deferred-tools/src/state.rs:186-212 | a batch whose counts are all positive equals its calls recorded one by one |
| KeyedEdits.CommuteIff | docs/book/src/explanation/state-and-snapshot-model.md:52 | two updates of a table give the same result in either order if and only if they agree on every key both decide about, whatever the table |
| KeyedEdits.LastDecisionWins | crates/awaken-ext-permission/src/state.rs:112-145 | after any run of updates a key is as the last update that decided about it left it |
| KeyedEdits.BatchIsEdit | crates/awaken-ext-deferred-tools/src/state.rs:111-120 | a batch of assignments is one update in which the last assignment to a key counts |
| DeferralKeys.DeferralState.Reduce | crates/awaken-ext-deferred-tools/src/state.rs:103-122 | each action changes the modes by exactly its assignments |
| DeferralKeys.ModeActionsCommuteIff | crates/awaken-ext-deferred-tools/src/state.rs:97-123 | two mode actions commute if and only if there is no tool that they leave in different modes |
| DeferralKeys.DeferAndPromoteDiffer | crates/awaken-ext-deferred-tools/src/state.rs:105-110 | deferring then promoting a tool leaves it eager, promoting then deferring leaves it deferred |
| DeferralKeys.PromoteBatchPromotes | crates/awaken-ext-deferred-tools/src/state.rs:111-115 | a batch makes exactly its tools eager |
| DeferralKeys.SetBatchTakesLast | crates/awaken-ext-deferred-tools/src/state.rs:116-120 | each tool gets the last mode it is listed with, and the others keep theirs |
| DeferralKeys.DeferralRegistry.Reduce | crates/awaken-ext-deferred-tools/src/state.rs:55-69 | each action changes the descriptors by exactly its assignments or removal |
| DeferralKeys.RegistryActionsCommuteIff | crates/awaken-ext-deferred-tools/src/state.rs:49-69 | two registry actions commute if and only if they do not leave a tool differently described or registered |
| DeferralKeys.ReduceKeepsKeys | crates/awaken-ext-deferred-tools/src/state.rs:55-69 | every descriptor stays under its own identifier |
| Multiplexer.StepKeepsInv | crates/awaken-ext-mcp/src/transport.rs:259-434 | every locked section of callers, reader, writer and timeouts keeps the invariant that ties the shared maps, the one-shot channels and the progress of each call together |
| Multiplexer.RunKeepsInv | crates/awaken-ext-mcp/src/transport.rs:259-434 | so does every interleaving |
| Multiplexer.ReturnIsClean | crates/awaken-ext-mcp/src/transport.rs:385-434 | in every reachable state a returned call has left no entry in either shared map, and reports a server result only if a response with its own id carried it |
| Multiplexer.ReturnIsFinal | crates/awaken-ext-mcp/src/transport.rs:385-434 | no later step changes what a call returned |
| Multiplexer.CompletedOnce | crates/awaken-ext-mcp/src/transport.rs:270-279 | once a request's channel carries a result no later response replaces it or finds the request pending |
| Multiplexer.DuplicateResponsesAreIgnored | crates/awaken-ext-mcp/src/transport.rs:270-279 | once a call has its answer, reading another response with its id, after any run, changes no call and no map |
| Multiplexer.ResponseTouchesOnlyItsCall | crates/awaken-ext-mcp/src/transport.rs:270-279 | reading and delivering a response changes no call with another id |
| Multiplexer.AnswerIsReturnedIff | crates/awaken-ext-mcp/src/transport.rs:270-279 | for a response read while its call is pending and awaits the reply, in every interleaving that follows: if the call has returned, it has returned that response's result if and only if it neither timed out nor failed to write |
| Multiplexer.AnswerCanBeReturned | crates/awaken-ext-mcp/src/transport.rs:415-434 | such a call, once waiting, can return that result without a step of any other call |
| MultiplexerLaws.AnswerCarriesPayload | crates/awaken-ext-mcp/src/transport.rs:777-785 | over every interleaving the outcome of a call answered in time is the value in the response, or the error in it as a server error |
| MultiplexerLaws.ReturnedOutcomeIff | crates/awaken-ext-mcp/src/transport.rs:418-434 | over every run a returned call reports a timeout if and only if it timed out, and a closed connection if and only if neither that nor an answer ended it |
| MultiplexerLaws.LateAnswerIsDropped | crates/awaken-ext-mcp/src/transport.rs:270-276 | an answer that comes when its call has given up changes no call |
| Multiplexer.StoppedReaderAnswersNobody | crates/awaken-ext-mcp/src/transport.rs:261-312 | once the reader has stopped no further call is ever answered |
| Multiplexer.RegistrationAfterClearing | crates/awaken-ext-mcp/src/transport.rs:310-312 | there is a reachable state with a stopped reader and a non-empty pending map |
| Multiplexer.ClearedStaysClearIff | crates/awaken-ext-mcp/src/transport.rs:310-312 | in every reachable state in which the reader is done with the pending map and the map is empty, it stays empty in every run if and only if no call is between its liveness check and its registration |
| MultiplexerLaws.UnsubscribedForGoodIff | crates/awaken-ext-mcp/src/transport.rs:310-311 | after the reader has emptied the subscribers nobody is subscribed ever again, if and only if no call that wants progress stood between its liveness check and its subscription |
| MultiplexerLaws.ClearingReleases | crates/awaken-ext-mcp/src/transport.rs:310 | clearing the pending map lets every waiting call in it return a closed connection |
| MultiplexerLaws.AliveIff | crates/awaken-ext-mcp/src/transport.rs:261-309 | the transport is alive until the input ends or a write fails, and from then on never again |
| MultiplexerLaws.DeadTransportRefuses | crates/awaken-ext-mcp/src/transport.rs:391-393 | a call that begins on a dead transport never gets further than a closed connection |
| Multiplexer.EveryCallCanReturn | crates/awaken-ext-mcp/src/transport.rs:385-434 | from any state every call can return by at most eight steps of its own, without any step of another call, the reader or the server |
| Multiplexer.NothingLeaks | crates/awaken-ext-mcp/src/transport.rs:385-434 | when every call has returned both shared maps are empty |
| Multiplexer.ProgressIsOwn | crates/awaken-ext-mcp/src/transport.rs:787-802 | every progress update a call received carries its own token |
| MultiplexerLaws.InboxIsPassedOn | crates/awaken-ext-mcp/src/transport.rs:787-803 | over every run from a state with the invariant a call receives exactly the updates the reader passed on to it while its receiver accepted them, in that order |
| MultiplexerLaws.UpdateReachesSubscriber | crates/awaken-ext-mcp/src/transport.rs:787-803 | an update read while its token is subscribed is what the subscriber receives next, whatever happens before it is sent, and nobody else receives it |
| MultiplexerLaws.UpdateWithoutSubscriber | crates/awaken-ext-mcp/src/transport.rs:796-801 | an update for no subscriber changes nothing, and a subscriber that is gone is removed |
| Multiplexer.IdsAreUnique | crates/awaken-ext-mcp/src/transport.rs:395-407 | no two calls share a request id or a progress token |
| Multiplexer.DecodeHttpResponse | crates/awaken-ext-mcp/src/transport.rs:850-903 | a body with an unparseable message fails, else the last response with the request's id counts; progress with the registered token is passed on in order up to the first unparseable message |
| MultiplexerLaws.LastReplyCounts | crates/awaken-ext-mcp/src/transport.rs:850-903 | the reply is the payload of the last response with the request's id |
| ToolIds.SanitizeComponent | crates/awaken-ext-mcp/src/id_mapping.rs:9-30 | the character loop and the trimming yield the maximal runs of ASCII letters and digits joined by single underscores, and fail if there is none |
| ToolIds.SanitizedIsClean | crates/awaken-ext-mcp/src/id_mapping.rs:9-30 | a sanitized component is non-empty, has no double underscore and none at an edge |
| ToolIds.SanitizeIsIdempotent | crates/awaken-ext-mcp/src/id_mapping.rs:9-30 | sanitizing again changes nothing |
| ToolIds.FixedIffClean | crates/awaken-ext-mcp/src/id_mapping.rs:9-30 | sanitizing changes nothing if and only if the component is clean already |
| ToolIds.PrefixMatchesIff | crates/awaken-ext-mcp/src/id_mapping.rs:35-39 | the prefix of a server matches a tool id if and only if the tool's server sanitizes to that server |
| ToolIds.ToolIdsAgreeIff | crates/awaken-ext-mcp/src/id_mapping.rs:35-39 | two tool ids are equal if and only if both sanitized components are |
| ToolIds.CleanNamesAppear | crates/awaken-ext-mcp/src/id_mapping.rs:35-39 | names that are clean stand in the identifier as they are, after the prefix and apart by two underscores |
| ToolIds.RefusedIff | crates/awaken-ext-mcp/src/id_mapping.rs:35-39 | a name is refused if and only if it has no ASCII letter or digit, the server's before the tool's |
| AllowedTools.ParseAllowedTools | crates/awaken-ext-skills/src/skill_md.rs:135-211 | the imperative tokenizer returns exactly the specified tools or error |
| AllowedTools.TrimWord | crates/awaken-ext-skills/src/skill_md.rs:178-204 | trimming a token never drops a character |
| AllowedTools.RawsAreTheText | crates/awaken-ext-skills/src/skill_md.rs:135-211 | accepted tokens are balanced, end outside quotes, and together are the input without its top-level white space |
| AllowedTools.PrintReparse | crates/awaken-ext-skills/src/skill_md.rs:135-211 | joining the accepted tokens with single spaces and parsing again yields the same tools |
| AllowedTools.PlainIff | crates/awaken-ext-skills/src/skill_md.rs:213-254 | a token equals its tool id, or its id and scope in parentheses, if and only if no white space stands before its first parenthesis |
| AllowedTools.UnquotedIsPlain | crates/awaken-ext-skills/src/skill_md.rs:213-254 | that always holds without a quote before the first parenthesis |
| AllowedTools.QuotedTokenIsNotPlain | crates/awaken-ext-skills/src/skill_md.rs:213-254 | with one it can fail: a token whose tool id loses a space |
| AllowedToolLaws.QuotedIsWord | crates/awaken-ext-skills/src/skill_md.rs:135-211 | any text between two equal quotes is one token, with white space, parentheses, the other quote and escaped ones |
| AllowedToolLaws.ScopedTool | crates/awaken-ext-skills/src/skill_md.rs:213-254 | a plain id with a scope in parentheses, white space in it included, is parsed to just that |
| AllowedToolLaws.AnyBlankSeparates | crates/awaken-ext-skills/src/skill_md.rs:135-211 | any white space between two tokens separates them |
| AllowedToolLaws.UnbalancedIsRefused | crates/awaken-ext-skills/src/skill_md.rs:135-211 | a closing parenthesis too many, one too few and an open quote are refused, each with its error |
| AllowedToolLaws.MisplacedScopeIsRefused | crates/awaken-ext-skills/src/skill_md.rs:213-254 | a scope without an id before it, or with text after it, is refused |
| AllowedToolLaws.QuotedIdIsChecked | crates/awaken-ext-skills/src/skill_md.rs:213-254 | a quoted token without an opening parenthesis is accepted if and only if it holds no white space and no closing one |
| Frontmatter.ParseSkillMd | crates/awaken-ext-skills/src/skill_md.rs:98-132 | the parser's two loops find exactly the lines between the leading and the next fence, and the body |
| Frontmatter.ReadFrontmatterFromFile | crates/awaken-ext-skills/src/registry.rs:643-674 | the streaming loop collects exactly the lines up to the closing fence and parses them again |
| Frontmatter.ReaderAgreesIff | crates/awaken-ext-skills/src/registry.rs:643-674 | the reader extracts what the parser extracts if and only if the two lines that are fences up to carriage returns, when the text has them, carry no stray carriage return |
| Frontmatter.ReaderAgreesOnPlainEndings | crates/awaken-ext-skills/src/registry.rs:643-674 | on texts where each carriage return precedes a line feed both accept the same texts with the same frontmatter, whatever decodes it |
| Frontmatter.BareCarriageReturnDisagrees | crates/awaken-ext-skills/src/registry.rs:672-674 | whatever the frontmatter lines, closed by a fence and a bare carriage return at the end of the text the reader extracts all of them and the parser finds no closed frontmatter |
| Frontmatter.ParseRenderedIff | crates/awaken-ext-skills/src/skill_md.rs:98-132 | a document rendered from inner lines and any body parses back to those lines, and to that body if and only if it has no carriage return before a line feed |
| Frontmatter.FencesAreNeeded | crates/awaken-ext-skills/src/skill_md.rs:98-132 | inner lines without fences, or after only one, are refused by parser and reader alike, each with its error |
| SkillRegistry.InMemorySkillRegistry.RegisterSkill | crates/awaken-ext-skills/src/registry.rs:83-93 | registers under the trimmed id, or refuses a blank or taken one and changes nothing |
| SkillRegistry.InMemorySkillRegistry.ExtendUpsert | crates/awaken-ext-skills/src/registry.rs:95-103 | inserts in order, skipping blank ids |
| SkillRegistry.RegisterIff | crates/awaken-ext-skills/src/registry.rs:83-93 | a skill goes under its id without the white space around it, however much that is, and is refused if that is blank or taken |
| SkillRegistry.UpsertTakesLast | crates/awaken-ext-skills/src/registry.rs:95-103 | after an upsert each id has the last skill listed under it, or the one it had |
| SkillRegistry.InMemorySkillRegistry.ExtendRegistry | crates/awaken-ext-skills/src/registry.rs:105-110 | registers in order up to the first refusal; what came before it stays |
| SkillRegistry.MergeIff | crates/awaken-ext-skills/src/registry.rs:161-169 | merging succeeds if and only if all trimmed ids are non-empty and pairwise distinct, and then yields the union keyed by trimmed id |
| SkillRegistry.MergeIsOrderFree | crates/awaken-ext-skills/src/registry.rs:105-110 | success and the merged map depend only on which skills there are, not on the order in which sources or maps are iterated |
| SkillRegistry.CompositeSkillRegistry.TryNew | crates/awaken-ext-skills/src/registry.rs:150-159 | construction succeeds if and only if the sources can be merged, and caches their union |
| SkillRegistry.CompositeSkillRegistry.MergeSnapshots | crates/awaken-ext-skills/src/registry.rs:161-169 | merging source by source equals registering all their skills in turn |
| SkillRegistry.CompositeSkillRegistry.Snapshot | crates/awaken-ext-skills/src/registry.rs:199-207 | returns and caches the merge, or returns the cache if merging fails |
| SkillRegistry.SnapshotIsLastMergeable | crates/awaken-ext-skills/src/registry.rs:199-207 | over any series of source changes and reads the snapshot is the union as of the last read at which ids were distinct, else that of construction |
| SkillRegistry.StartPeriodicRefresh | crates/awaken-ext-skills/src/registry.rs:209-224 | on success every source that has a refresh is running; on a failure exactly those that were running before |
| BatchingSink.Sink.RecordEvent | crates/awaken-ext-observability/src/batching.rs:138-147 | appends unless the buffer is full, and signals a flush when the batch size is reached |
| BatchingSink.Sink.FlushBuffer | crates/awaken-ext-observability/src/batching.rs:122-135 | empties the buffer and forwards its events in order |
| BatchingSink.FlushIsTakeAndForwards | crates/awaken-ext-observability/src/batching.rs:122-135 | an undisturbed flush, taken as single steps, forwards the whole buffer in order |
| BatchingSink.RunConserves | crates/awaken-ext-observability/src/batching.rs:88-165 | over every interleaving of recorders and flushers the accepted events are, as a multiset, those delivered, taken and buffered, and the buffer never exceeds its limit |
| BatchingSink.RunAccounts | crates/awaken-ext-observability/src/batching.rs:138-147 | every recorded event is accepted or dropped, once |
| BatchingSink.AllAcceptedIff | crates/awaken-ext-observability/src/batching.rs:138-147 | a run accepts exactly what it was asked to record, in order, if and only if it never records into a full buffer |
| BatchingSink.NothingDeliveredTwice | crates/awaken-ext-observability/src/batching.rs:122-135 | no event is delivered more often than it was accepted |
| BatchingSink.InOrderIff | crates/awaken-ext-observability/src/batching.rs:122-135 | with distinct events the delivered ones are a prefix of the accepted ones if and only if every forwarded event came from the oldest flush that held any |
| BatchingSink.FromOldestFollows | crates/awaken-ext-observability/src/batching.rs:122-135 | that order of forwarding suffices for repeated events too: accepted is delivered, then what the flushes hold, then the buffer |
| BatchingSink.SingleFlusherDeliversInOrder | crates/awaken-ext-observability/src/batching.rs:122-135 | if flushes do not overlap the delivered events are a prefix of the accepted ones, in order |
| BatchingSink.OverlappingFlushesReorder | crates/awaken-ext-observability/src/batching.rs:122-135 | two overlapping flushes can deliver in reverse order |
| PersistentSink.PersistentTelemetry.Record | crates/awaken-ext-observability/src/persistent.rs:168-173 | the event reaches the inner sink and is kept as pending |
| PersistentSink.PersistentTelemetry.OnRunEnd | crates/awaken-ext-observability/src/persistent.rs:175-181 | so does the marker of a run's end |
| PersistentSink.PersistentTelemetry.FlushAll | crates/awaken-ext-observability/src/persistent.rs:183-197 | a successful flush releases the pending lines; a failing one drains them into a new file if the disk accepts it |
| PersistentSink.PersistentTelemetry.RetryPersisted | crates/awaken-ext-observability/src/persistent.rs:119-159 | the loop replays the listed files one by one up to the first error and sums up the lines of removed ones |
| PersistentSink.RetryRemovesOnlyReplayed | crates/awaken-ext-observability/src/persistent.rs:119-159 | a file is removed only after all its lines were replayed in one stretch and a flush succeeded after that; pending lines and other files stay |
| PersistentSink.RetryCountsRemovedLines | crates/awaken-ext-observability/src/persistent.rs:119-159 | the returned count is the number of lines in the removed files |
| PersistentSink.RetrySucceedsIff | crates/awaken-ext-observability/src/persistent.rs:119-159 | a retry succeeds if and only if every listed file can be read and, once flushed, removed |
| PersistentSink.RetryStopsAtAbort | crates/awaken-ext-observability/src/persistent.rs:119-159 | after the first file that aborts it a retry does nothing more, and reports the error |
| PersistentSink.RetryReplaysAll | crates/awaken-ext-observability/src/persistent.rs:119-159 | a retry that succeeds has recorded the lines of all listed files in order |
| PersistentSink.RetryRemovesFlushed | crates/awaken-ext-observability/src/persistent.rs:119-159 | it has removed exactly those whose flush succeeded |
| PersistentSink.EveryRunBalances | crates/awaken-ext-observability/src/persistent.rs:82-197 | over any sequence of calls each recorded line is pending, in a file, settled or lost, exactly once, and settled lines reached the inner sink before a successful flush |
| PersistentSink.KeptOrSettledIff | crates/awaken-ext-observability/src/persistent.rs:82-197 | in the account of a run, copy by copy, what was recorded is kept or was settled by the flush that released it, as long as no spill fails; settled lines reached the inner sink before a successful flush |
| PersistentSink.LineSurvivesIff | crates/awaken-ext-observability/src/persistent.rs:82-197 | a line recorded once is in the end pending, in a file, or was recorded by the inner sink before a successful flush, unless and only unless the first flush after its recording failed together with its spill and no successful flush of the inner sink, by a flush or a retry, came after the recording |
| PersistentSink.NothingLeftBehindIsDelivered | crates/awaken-ext-observability/src/persistent.rs:82-197 | if no recording meets that fate every line ever recorded survives, repeated lines too |
| PersistentSink.AtLeastOnceIff | crates/awaken-ext-observability/src/persistent.rs:82-197 | of distinct lines every one survives if and only if no recording meets that fate |
| PersistentSink.LostUnlessFlushedLater | crates/awaken-ext-observability/src/persistent.rs:183-197 | recording and a flush that fails with its spill lose the line; with a successful flush afterwards it is delivered although the spill failed |
| Permissions.KeysAgreeIff | crates/awaken-ext-permission/src/rules.rs:74-79 | two subjects share a key if and only if they are the same tool or patterns that print alike |
| Permissions.RuleTable.ReduceRules | crates/awaken-ext-permission/src/state.rs:84-145 | each action sets, removes or clears exactly the rules it should; text that is no pattern changes nothing |
| Permissions.Policy.Reduce | crates/awaken-ext-permission/src/state.rs:147-155 | a default is set without touching the rules, any other action is passed on |
| Permissions.RunKeepsKeys | crates/awaken-ext-permission/src/state.rs:84-145 | over any run every rule stays under the key of its own subject |
| Permissions.PolicyActionsCommuteIff | crates/awaken-ext-permission/src/state.rs:67-78 | two actions commute if and only if they do not set different defaults, aim at different keys or leave the same there, and neither sets what the other clears |
| Permissions.OverrideActionsCommuteIff | crates/awaken-ext-permission/src/state.rs:174-191 | the same for the overrides, which have no default |
| Permissions.ClearCommutesIff | crates/awaken-ext-permission/src/state.rs:142 | clearing commutes with exactly those actions that set no rule |
| Permissions.RuleForToolCall | crates/awaken-ext-permission/src/rules.rs:224-238 | in any iteration order a rule is found if and only if one matches, and no matching rule outranks it by behavior and then specificity |
| Permissions.BestRulesAgree | crates/awaken-ext-permission/src/rules.rs:224-238 | whichever rule is found, its behavior and specificity are the same |
| Permissions.EvaluateToolPermission | crates/awaken-ext-permission/src/rules.rs:281-299 | the behavior is Deny if a matching rule denies, else Allow if one allows, else Ask if one asks, else the default |
| PermissionLaws.ToolActionsDecide | crates/awaken-ext-permission/src/state.rs:112-155 | after any actions but pattern rules a call is decided by what the last action on its tool left, and by the default if that is nothing |
| PermissionLaws.DeniedToolIsDenied | crates/awaken-ext-permission/src/rules.rs:281-299 | after any actions, patterns included, a tool last denied and not removed or cleared is denied |
| PermissionLaws.PatternActionDecides | crates/awaken-ext-permission/src/rules.rs:281-299 | a pattern rule set last decides the calls it matches unless a rule of higher priority matches, too; removed last it is gone |
| PermissionLaws.LessSpecificIff | crates/awaken-tool-pattern/src/types.rs:277-288 | one specificity is less than another if and only if it is smaller in the first field in which they differ |
| PermissionLaws.ToolRuleRank | crates/awaken-ext-permission/src/rules.rs:91-110 | at equal behavior a rule on the tool outranks globs and regular expressions, ties with the bare exact pattern, and yields to an exact one with arguments |
| Permissions.PermissionRulesFromState | crates/awaken-ext-permission/src/state.rs:203-222 | the overrides, inserted in any order, replace the policy's rules with the same keys and no others |
| PermissionLaws.MissingLayers | crates/awaken-ext-permission/src/state.rs:203-222 | without a policy calls are asked about unless an override decides; without overrides the policy decides |
| PermissionLaws.SkillRulesAreOverridesIff | crates/awaken-ext-permission/src/state.rs:147-222 | over any runs a rule in force is marked as a skill's if and only if the overrides hold one under its key |
| Permissions.LayeredDenyIff | crates/awaken-ext-permission/src/state.rs:203-222 | a call is denied if and only if an override denies it, a denying rule whose key no override has matches, or nothing matches and Deny is the default |
| Permissions.PatternDenialsOutlastToolActions | crates/awaken-ext-permission/src/state.rs:187-222 | whatever actions made the policy and whatever actions on tools made the overrides, a matching denial by pattern in the policy stays in force |

## Left out

- Parsing of JSON and YAML, glob and regular expression matching, printing and reading of tool patterns, and Unicode normalization are function parameters or abstract values.
- JSON numbers are opaque values; the order of an object's members is not modelled.
- Indices are bounded by the 64-bit range when read from a path; exhausted memory and panics on huge indices are not modelled.
- SpecDocument.Document.EnsureParentContainer: Dafny has no mutable references into a tree, so the borrowed node is the path back to the root (a zipper) plus the node, and a method puts the edited node back; aliasing does not arise.
- Floating point is modelled by reals: no rounding, NaN or infinite values; an infinite breakeven is an absent one, and entries have non-negative parameters.
- DeferralPolicy.EventuallyDeferred: assumes a current turn that advances with every observed turn; what advances it is not modelled.
- The i64 wrap-around of request ids, dropped (cancelled) calls, child processes, real time, server requests and their replies, and the HTTP transport apart from decoding a body.
- Multiplexer.EveryCallCanReturn: assumes that the write channel (capacity 256) has room or is closed; a full channel makes a call wait before its timeout starts, which is not modelled.
- The order in which the write channel hands lines to the writer is not modelled; a write is accepted or fails.
- SkillRegistry.StartPeriodicRefresh: sources are distinct and not themselves composite; a source has no refresh, is running, or is started or refused as the environment decides; the same source listed twice is not modelled.
- Descriptors of deferred tools carry only id, name and description; skills only an id and a body; a rule's scope is always the thread's and is omitted.
- Partially written spill files and lines added to a file by others; a file that cannot be read or parsed is one kind of failure.
- The wording of error messages; a server's error stands for its text.
- Telemetry events are opaque; the marker of a run's end keeps its duration only, as the source does.
- The background flush loop after shutdown, `unconditionally_denied_tools`, `rule_for_tool`, configuration builders, prompts, catalog rendering, media types and metric sums would only add easy members.
- Skill discovery on disk, validation of frontmatter fields and script execution are foreign calls or field-by-field checks.
