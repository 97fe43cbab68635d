# tilegroxy: protocols, layer names, templates and caches

tilegroxy is a proxy for map tiles.  This project models the parts of it whose correctness is not visible
in one function, and proves what they are for.

| file | what it models |
|---|---|
| `GenerationProtocol.dfy`, `GenerationSafety.dfy`, `GenerationTheorems.dfy`, `GenerationShutdown.dfy`, `GenerationReload.dfy`, `GenerationDeadline.dfy`, `Generation.dfy` | hot reload and shutdown: requests pin a reference-counted generation of entities, reloads swap the pointer and retire the old one, a floor goroutine, the last release and `closeAll` race to close it |
| `BatcherProtocol.dfy`, `BatcherTheorems.dfy`, `BatcherShutdown.dfy`, `BatcherEvents.dfy`, `Batcher.dfy` | the analytics batcher: a bounded queue, producers, workers that reuse one buffer, the seal and the drain of `Close` |
| `Pattern.dfy`, `PatternCaptures.dfy`, `Strings.dfy` | layer name patterns: parser and greedy matcher, and which values it captures |
| `LayerGraph.dfy`, `LayerValidation.dfy` | the start-up checks on references between layers: collecting targets, duplicate ids, unknown targets, three-colour search for cycles |
| `RefRender.dfy`, `RefChain.dfy` | rendering through `ref` providers with its limit of ten hops |
| `Placeholders.dfy`, `PlaceholderTokens.dfy`, `PlaceholderTheorems.dfy`, `PlaceholderSplicing.dfy`, `PlaceholderRewriting.dfy`, `PlaceholderMeaning.dfy`, `Decimal.dfy` | the two-phase rewriting of provider URLs: placeholders become `$N` class by class, coordinates are filled in, one scan splices the values in |
| `JwtCache.dfy` | the checks on a JWT, the cache of tokens that were already verified, and what an accepted token allows |
| `TileRequests.dfy`, `TileGrid.dfy`, `RowMajor.dfy` | cache keys, the memory cache, and the tiles of a bounding box |
| `Transform.dfy`, `RowMajor.dfy` | the pixel transformation that shares an image among threads |
| `Wrappers.dfy` | `Option` and `Result` |

The two concurrent protocols are transition systems.  A step is one critical section or one channel
operation; runs interleave the steps of any number of requests, reloads, producers and workers in any order.
`Generation.dfy` and `Batcher.dfy` hold the objects themselves, with each critical section tied to its step.
Code that changes state in place is a class or a method with loops, proved against a function; code made of
expressions is a function.  Clocks, the environment, escapers, geohashes, signatures and leaf providers are
parameters or arbitrary choices.

## Where the program falls short of the simple statement

Each of these is stated as an exact condition or shown by a concrete example in the model.

* The greedy matcher is exact for patterns that end in a placeholder.  For a pattern that ends in a literal it
  accepts a name exactly when the pattern fits the name and no shorter beginning of it: `{a}x` does not match `xx`.
  Such a pattern is matched exactly on all names only when it is a single literal.
* The search for cycles follows the ids of layers that answer to a pattern only, although a name need not
  resolve to them.  The comments at pkg/entities/layer/layergroup.go:101-103 and 136 say that only literal ids are
  resolved statically and patterned layers are left to the limit at request time; the model follows the code.
  Start-up rejects a configuration that the comments accept exactly when the id of a layer with a pattern leads
  back to itself.
* A layer with a pattern can refer to itself by a name its pattern accepts; the start-up check cannot see that,
  and the rendering ends at the depth limit.
* Rewriting a URL in two phases equals direct substitution, for all values alike, exactly when no placeholder
  runs into a digit and no other `$` is followed by the number of a value in the numbered template.
* A JWT that is found in the cache at the very instant of its expiration is refused; validating it anew would accept it.
* A generation that a late reload lists after `closeAll` has taken its snapshot is not closed by that `closeAll`.
  At rest the serving generation is closed exactly when it was in the registry at some call of `closeAll`.
* `http.TimeoutHandler` (internal/server/server.go:198) gives up a handler at the timeout and lets it run on, so
  the server can drain before that handler has reached the pin; it may then take a closed generation.  Without
  such a handler no closed generation is ever acquired, and only the deadline closes one in use.
* `FindTiles` finds all rows that a box touches, but of the columns only the one that holds the western edge and
  those whose eastern edge is in the box.  All touched columns are found exactly when the box ends at the edge of
  a column or within the column it begins in.  A box that begins at longitude 180 yields a column that does not exist.
  When both ranges are inverted the 64-bit product is positive again and the result is a slice of blank requests.

## Model

| member | source | states |
|---|---|---|
| GenerationSafety.StepKeepsInv | internal/server/generation.go:58-148 | Every step of a request, given up by the server or not, of a reload, floor goroutine, closer or `closeAll` keeps the invariant: references equal the requests that hold the generation, an idle retired generation has a closer on its way, one close at most |
| GenerationTheorems.NoUseAfterClose | internal/server/tile_handler.go:178-186 | In every reachable state before shutdown a closed generation has no references, is not the current one, and no request holds it or is about to take it |
| GenerationTheorems.NeverAcquiredAgain | internal/server/tile_handler.go:178-186 | Once a generation is closed no later step of any run acquires it, except, during shutdown, for a handler the server has given up and that comes to the pin after the drain |
| GenerationTheorems.GivenUpHandlerAcquiresClosed | internal/server/server.go:198 | A run in which such a handler takes a generation that `closeAll` has closed, with time left |
| GenerationTheorems.ClosedInUseOnlyAfterDeadline | internal/server/generation.go:223-271 | A closed generation is in use only during shutdown, and then its deadline has passed or a handler the server had given up took it after the drain |
| GenerationTheorems.ClosedAtMostOnce | internal/server/generation.go:104-148 | However release, floor and `closeAll` race, the entities of a generation are closed by one step of the run at most, and `closes` counts 1 |
| GenerationTheorems.CloseNowWaits | internal/server/generation.go:112-124 | A `closeNow` that lost the claim returns only after the winner's close has finished, unless its context expired |
| GenerationTheorems.NoLostWakeup | internal/server/generation.go:65-102 | A generation that is swapped out, idle and open always has a pending closer: a reload before `markClosing`, a sleeping floor goroutine, or a decision to close |
| GenerationTheorems.NoDeadlock | internal/server/generation.go:107-127 | Unless every thread is over, some thread can move |
| GenerationTheorems.RunUsesWork | internal/server/generation.go:65-148 | Every step of a thread uses up a finite measure, the floor goroutine it may start included |
| GenerationTheorems.LeftAloneItRests | internal/server/generation.go:65-148 | From any reachable state, without new work, the threads make boundedly many steps in any order and stop only when all are over |
| GenerationTheorems.RestIsClean | internal/server/generation.go:65-148 | At rest every generation but the current one is closed exactly once, drained and unlisted; before shutdown the current one is open and listed (after it, see `GenerationShutdown.RestClosesExactly`) |
| GenerationTheorems.MissingMeansClosed | internal/server/generation.go:185-208 | A generation missing from `live` that was listed before has been closed |
| GenerationTheorems.CloseAllCovers | internal/server/generation.go:223-250 | When `closeAll` returns, every generation listed at its call is closed and unlisted and, before the deadline, completely drained |
| GenerationTheorems.LateGenerationEscapes | internal/server/server.go:160-166 | A run in which a reload lists its generation after the snapshot: `closeAll` has returned in time and that generation is open and serving |
| GenerationShutdown.RestClosesExactly | internal/server/generation.go:223-250 | In every run that has come to rest, with any number of reloads and shutdowns, a generation is closed exactly when it is not the serving one or was in the registry when some `closeAll` took its snapshot |
| GenerationShutdown.ServingClosedExactly | internal/server/generation.go:223-250 | The same read off the state: at rest the serving generation is closed exactly when some `closeAll` that returned has it in its snapshot |
| GenerationShutdown.CloserHasSnapshot | internal/server/generation.go:233-247 | The step that closes a generation which is not retired belongs to a `closeAll` whose snapshot holds it |
| GenerationReload.SwapTakesEffect | internal/server/tile_handler.go:86-95 | When a reload swaps the pointer, its own generation becomes the serving one and its thread goes on to retire the one that served |
| GenerationReload.OnlySwapsMove | internal/server/tile_handler.go:86-89 | No other step of anybody moves the pointer |
| GenerationReload.RetireTakesEffect | internal/server/tile_handler.go:94-96 | Retiring marks that generation and no other and starts its floor goroutine |
| GenerationReload.LastSwapServes | internal/server/tile_handler.go:83-97 | In every state of every run the serving generation is that of the last reload that has swapped, or the first one |
| GenerationReload.RetiresThePrevious | internal/server/tile_handler.go:83-97 | In every run a reload that has swapped either still has to retire the generation that served before it, or has marked it |
| GenerationReload.EveryReloadServes | internal/server/tile_handler.go:83-97 | In every run each generation ever made is still being brought up by its reload or has been the serving one |
| GenerationReload.AtRestAllHaveServed | internal/server/tile_handler.go:83-97 | At rest every configuration that was loaded has served, and the last one swapped in serves |
| GenerationDeadline.DeadlineFrees | internal/server/generation.go:252-271 | After the deadline no thread of `closeAll` waits, neither for a request that never ends nor for another's close |
| GenerationDeadline.BeforeDeadlineWaits | internal/server/generation.go:252-271 | Before it, `closeAll` goes on exactly when the generation is idle, and a loser of `closeNow` exactly when the winner is done |
| GenerationDeadline.CloseAllMeetsDeadline | internal/server/generation.go:226-250 | In every run and whatever the others do, a call of `closeAll` makes at most five steps for each generation in its snapshot, has returned once it has made them, and until then can go on by itself after the deadline |
| GenerationDeadline.HungRequestIsLeftBehind | internal/server/generation.go:252-271 | A run in which a request never releases its generation: `closeAll` closes and unlists it after the deadline and returns |
| Generation.Generation.Acquire | internal/server/generation.go:58-63 | One more reference, nothing else changes |
| Generation.Generation.Release | internal/server/generation.go:65-81 | One reference less; the last one out of a retired generation closes it, drains it and takes it from the registry |
| Generation.Generation.MarkClosing | internal/server/generation.go:83-89 | Marks the generation and nothing else |
| Generation.Generation.FloorOver | internal/server/generation.go:91-101 | After its sleep the floor goroutine closes the generation exactly when it is idle and open |
| Generation.Generation.CloseNow | internal/server/generation.go:107-148 | The first caller closes, finishes `done` and unlists; a later one changes nothing |
| Generation.GenerationRegistry.Add | internal/server/generation.go:190-201 | The hook is installed and the generation listed |
| Generation.GenerationRegistry.CloseAll | internal/server/generation.go:226-250 | Undisturbed, for any order of the map, it closes each listed generation that is still open, once, and empties the registry |
| Generation.TileHandler.Pin | internal/server/tile_handler.go:180-186 | Reads the pointer and takes the reference on that very generation |
| Generation.TileHandler.Reload | internal/server/tile_handler.go:83-97 | Swaps the pointer and marks the generation that was swapped out, not the new one |
| BatcherProtocol.ApplyBatchDefaults | pkg/entities/analytics/batch.go:104-126 | Succeeds exactly when the policy is `drop`, `block` or unset; the result is then the only usable configuration that keeps every set field and elsewhere has 1000 events, 10 seconds, a queue of 10000, one worker and `drop` |
| BatcherTheorems.StepKeepsInv | pkg/entities/analytics/batch.go:156-324 | Every step of a producer, worker or `Close` keeps the invariant: each worker has exactly what it took, in order, and stops only at an empty sealed queue |
| BatcherTheorems.Conservation | pkg/entities/analytics/batch.go:156-281 | At every step of every run the accepted events are, as a multiset, the queue plus what the workers hold or have handed over |
| BatcherTheorems.CloseLosesNothing | pkg/entities/analytics/batch.go:283-324 | Once `Close` can return nil, for any number of workers, each accepted event has been handed to the flush function exactly once |
| BatcherTheorems.OneWorkerIsFifo | pkg/entities/analytics/batch.go:199-257 | With one worker, batches, buffer and queue read one after the other are the accepted events in order |
| BatcherTheorems.BatchesHaveShape | pkg/entities/analytics/batch.go:224-254 | Every batch in every run has between one and `MaxSize` events |
| BatcherTheorems.TickLeavesNothingOld | pkg/entities/analytics/batch.go:231-236 | After a handled tick nothing in the buffer has been there for `MaxAge` |
| BatcherTheorems.DoneCaseIsDead | pkg/entities/analytics/batch.go:165-174 | The case of `Add` on the done channel can never be taken |
| BatcherTheorems.SealHolds | pkg/entities/analytics/batch.go:291-300 | After the seal no send and no drop can occur and the queue only shrinks |
| BatcherTheorems.StoppedWorkerLeavesEmpty | pkg/entities/analytics/batch.go:237-254 | When a worker has found the queue empty in its drain the queue stays empty for ever |
| BatcherTheorems.NilMeansAcceptedOrCounted | pkg/entities/analytics/batch.go:156-197 | The `Add` calls that returned nil are the accepted ones and the counted drops, and a refusal means the batcher is closed |
| BatcherEvents.CallsAreAdds | pkg/entities/analytics/batch.go:156-183 | In every run the calls are those of `Add` in order, and each keeps the event it was given |
| BatcherEvents.AcceptedInOrder | pkg/entities/analytics/batch.go:165-183 | The accepted events are the ones given to the calls that sent, in the order of the sends |
| BatcherEvents.AcceptedAreGiven | pkg/entities/analytics/batch.go:156-183 | In every state of every run the accepted events are, as a multiset, those given to the calls that returned as accepted |
| BatcherEvents.HandsOverWhatWasGiven | pkg/entities/analytics/batch.go:283-324 | When `Close` can return nil, the flush function has been given exactly the events of the accepted calls, each as often as it was given |
| BatcherEvents.OneWorkerHandsOverInOrder | pkg/entities/analytics/batch.go:199-257 | With one worker it was given them in the order of the sends |
| BatcherEvents.DropsOnlyWhenFull | pkg/entities/analytics/batch.go:176-182 | An event is dropped only in drop mode and at a full queue, which stays as it is while one drop is counted |
| BatcherEvents.BlockNeverDrops | pkg/entities/analytics/batch.go:165-174 | In block mode nothing is ever dropped |
| BatcherEvents.DropNeverWaits | pkg/entities/analytics/batch.go:176-182 | In drop mode a producer at the queue can always go on by itself |
| BatcherEvents.TickFlushesExactly | pkg/entities/analytics/batch.go:231-236 | A tick hands over the whole buffer exactly when its first event has waited for `MaxAge`, and does nothing otherwise |
| BatcherEvents.ReceiveFlushesExactly | pkg/entities/analytics/batch.go:217-230 | The event at the head of the queue goes to the end of the buffer, which is handed over exactly when that fills it |
| BatcherTheorems.WorkerStepsRunOut | pkg/entities/analytics/batch.go:199-257 | Each worker step uses up a finite measure of what is left, except a tick that does nothing |
| BatcherTheorems.SealedBatcherMovesOn | pkg/entities/analytics/batch.go:283-324 | A sealed batcher always has a worker that can go on until `Close` can return |
| BatcherShutdown.StepUsesUp | pkg/entities/analytics/batch.go:156-324 | Without a new `Add` every step of producers, workers and the seal uses up a finite measure, unless it is idle |
| BatcherShutdown.MovesOn | pkg/entities/analytics/batch.go:156-324 | Until `Close` can return with every `Add` over, the batcher has a step of its own, cancellation not needed |
| BatcherShutdown.LeftAloneItCloses | pkg/entities/analytics/batch.go:283-324 | From any reachable state, sealed or not, with no new `Add`: boundedly many steps that are not idle, in any order, and where it stands still every `Add` has returned and `Close` can return nil |
| BatcherShutdown.NoProducerStarves | pkg/entities/analytics/batch.go:165-174 | In block mode a producer that waits for room and is not cancelled has returned with its own event accepted by the time the batcher stands still |
| Batcher.BatchWorker.DoFlush | pkg/entities/analytics/batch.go:259-281 | Hands over a fresh copy of the buffer; nothing for an empty one |
| Batcher.BatchWorker.Append | pkg/entities/analytics/batch.go:217-230 | Taking an event, with the flush at `MaxSize`, is the worker's protocol step; batches handed over before are untouched |
| Batcher.BatchWorker.HandleTick | pkg/entities/analytics/batch.go:231-236 | A tick flushes exactly what has aged |
| Batcher.BatchWorker.Work | pkg/entities/analytics/batch.go:199-257 | Over its whole life the worker hands over every event it was given, in order, although the buffer is reused in place |
| Batcher.LifeHandsOverAll | pkg/entities/analytics/batch.go:199-257 | Main loop, drain and final flush together lose and reorder nothing, in batches of 1 to `MaxSize` |
| Pattern.ParseThenPrint | pkg/entities/layer/layer.go:65-106 | The segments of an accepted pattern are well formed and print the pattern |
| Pattern.PrintThenParse | pkg/entities/layer/layer.go:65-106 | Every well-formed list of segments is what parsing its printout returns, without complaint |
| Pattern.AcceptedIffPrinted | pkg/entities/layer/layer.go:82-106 | A pattern is accepted exactly when it is the printout of a well-formed list |
| Pattern.Match | pkg/entities/layer/layer.go:108-137 | The loop decides and captures as the recursive matcher does |
| Pattern.MatchIsSound | pkg/entities/layer/layer.go:108-137 | A match captures every placeholder, and substituting the captures rebuilds the name |
| Pattern.MatchIsCompleteWhenOpen | pkg/entities/layer/layer.go:108-137 | For a pattern that ends in a placeholder a name matches exactly when some assignment of values rebuilds it |
| Pattern.MatchWhenClosed | pkg/entities/layer/layer.go:108-137 | For a pattern that ends in a literal a name matches exactly when the pattern fits it and fits no shorter beginning of it |
| Pattern.GreedyMissesClosedPattern | pkg/entities/layer/layer.go:108-137 | `{a}x` stands for `xx` and the matcher turns it down |
| Pattern.ClosedPatternMisses | pkg/entities/layer/layer.go:108-137 | Every longer pattern that ends in a literal stands for some name the matcher turns down |
| Pattern.ExactPatterns | pkg/entities/layer/layer.go:108-137 | The matcher is exact on all names exactly for patterns that end in a placeholder or consist of one literal at most |
| PatternCaptures.MatchesByShortest | pkg/entities/layer/layer.go:108-137 | For every well-formed pattern a name matches exactly when the shortest values, from left to right, rebuild it |
| PatternCaptures.CapturesAreShortest | pkg/entities/layer/layer.go:108-137 | Any shortest values that rebuild the name are the ones captured |
| PatternCaptures.FirstDashSplits | pkg/entities/layer/layer.go:108-137 | `{a}-{b}` on `1-2-3` captures `1` and `2-3` |
| LayerGraph.Collector.FindRefTargets | pkg/entities/layer/layergroup.go:83-99 | Appends the targets of all references at any depth |
| LayerGraph.TargetsAreReferences | pkg/entities/layer/layergroup.go:79-99 | A name is collected exactly when some part of the configuration is a `ref` provider for it |
| LayerGraph.RefOfAnyOrder | pkg/entities/layer/layergroup.go:85-90 | An object refers to t exactly when t is not empty, its name is `ref` and its layer t, in any order of its fields |
| LayerGraph.CycleSearch.Visit | pkg/entities/layer/layergroup.go:142-169 | Either a walk that comes back to itself, or the path as before and the node black; terminates as white nodes grow fewer |
| LayerGraph.CycleSearch.FindCycle | pkg/entities/layer/layergroup.go:136-180 | For every order of the map, no cycle is reported exactly when the graph has none, and a reported path is a real walk that closes |
| LayerGraph.OrderedIsAcyclic | pkg/entities/layer/layergroup.go:136-180 | The order in which nodes turn black excludes every cycle |
| LayerValidation.ValidateNoDuplicateLayerIDs | pkg/entities/layer/layergroup.go:185-194 | Passes exactly when all ids differ, and names one that occurs twice otherwise |
| LayerValidation.TableIsExact | pkg/entities/layer/layergroup.go:115-122 | With unique ids the table of references holds exactly what the layers mention |
| LayerValidation.CyclesAgree | pkg/entities/layer/layergroup.go:136-180 | The table has a cycle exactly when the layers have one |
| LayerValidation.ValidateRefs | pkg/entities/layer/layergroup.go:104-180 | Valid exactly when the table has no cycle and, without pattern layers, each target is known; errors name a real offender |
| LayerValidation.CheckLayers | pkg/entities/layer/layergroup.go:47-58 | Both checks pass exactly when ids are unique, no chain of references returns to its start and, without pattern layers, every target exists |
| LayerValidation.PatternLayerIdCounts | pkg/entities/layer/layergroup.go:104-180 | A patterned layer that names its own id counts as a cycle although no name resolves to that id |
| LayerValidation.CyclesAreLiteralOrPatterned | pkg/entities/layer/layergroup.go:136-180 | With unique ids the search finds nothing exactly when there is no cycle of literal ids and the id of no layer with a pattern leads back to itself, and no cycle of literal ids passes through such a layer |
| LayerValidation.RejectedAgainstComment | pkg/entities/layer/layergroup.go:101-180 | Start-up never accepts what the comment rejects, and rejects what the comment accepts exactly when the id of a layer with a pattern leads back to itself; without patterns the two agree |
| RefRender.MatchesExactly | pkg/entities/layer/layer.go:288-301 | A layer answers to exactly the names that the shortest values rebuild, provided those values are valid |
| RefRender.LiteralMatchesItself | pkg/entities/layer/layer.go:230-238 | A layer without a pattern answers to its id and to no other name |
| RefRender.MatchedByIdMeans | pkg/entities/layer/layer.go:230-238 | A layer that the start-up check takes to be matched by its id answers to that id alone, and any other has a pattern of its own that its segments print |
| RefRender.LayerGroup.Find | pkg/entities/layer/layergroup.go:196-204 | The first layer that matches and whose parameters are valid, and none exactly when no layer does |
| RefRender.LayerGroup.RenderTile | pkg/entities/layer/layergroup.go:214-270 | Ends for every layer table with one of the possible answers; an unknown or forbidden layer fails; an image that is missing is an error unless the layer skips the cache; no part makes more than ten hops; the depth error means that eleven hops can be made, and without caches and combining providers it is reported exactly then |
| RefRender.LayerGroup.RenderTileNoCache | pkg/entities/layer/layergroup.go:365-380 | The same behind the cache, where the answer may be a missing image |
| RefRender.LayerGroup.RenderLayer | pkg/entities/layer/layer.go:303-338 | The same through authentication and the second attempt |
| RefRender.LayerGroup.GenerateTile | internal/providers/ref.go:67-88 | A reference fails at depth ten and otherwise renders its target one hop deeper; the answer is a possible one |
| RefRender.CanHopFirst | internal/providers/ref.go:67-88 | A walk of n hops is one hop and a walk of n-1 hops |
| RefRender.ErrorExactlyWhenHops | internal/providers/ref.go:67-88 | For every table, with caches, second attempts and combining providers as they are, an answer that comes from the depth error is among the possible ones exactly when one hop more than are left can be made |
| RefRender.MayExceedIsHops | internal/providers/ref.go:67-88 | Following references through nested providers meets the limit exactly when those hops can be made |
| RefRender.NestReports | internal/providers/blend.go:208-232 | A combining provider can meet the error exactly when some child it may ask can |
| RefRender.CheckedNeverExceeds | pkg/entities/layer/layergroup.go:101-180 | A configuration without patterns that passed the start-up check and in which at most ten layers refer to others can never reach the depth error |
| RefChain.ChainPassesAndHops | pkg/entities/layer/layergroup.go:101-194 | For every n a chain of n layers that refer to others passes both checks and makes n hops |
| RefChain.TenIsTight | internal/providers/ref.go:26-30 | With eleven referring layers a checked configuration without cycles can reach the depth error |
| RefRender.UnseenCycle | internal/providers/ref.go:26-30 | A layer that refers to itself through its pattern passes the check for cycles and reaches the depth limit |
| Placeholders.NumberMatches | internal/providers/utility.go:155-165 | The loop over the matches of one class numbers them and collects their values in order |
| Placeholders.NothingToFind | internal/providers/utility.go:153-156 | Where the prefix does not occur there is no match: the test before each loop changes nothing |
| Placeholders.SpliceValues | internal/providers/utility.go:80-129 | The index loop writes what the scan function says |
| Placeholders.ReplacePlaceholdersInString | internal/providers/utility.go:138-219 | Numbers the three classes, then fills in the coordinates; fails exactly for a zoom level beyond 21, a tile outside its grid or an unknown projection |
| Placeholders.ReplaceURLPlaceholders | internal/providers/utility.go:53-131 | Both phases together, with the same errors |
| Decimal.ReadWritten | internal/providers/utility.go:94-99 | Reading a numeral gives the number that was written |
| PlaceholderTokens.ReplaceFirstOk | internal/providers/utility.go:163-164 | On a template whose braces delimit whole placeholders, replacing a match in the string replaces that token |
| PlaceholderTokens.FindAllOk | internal/providers/utility.go:34-36 | The expressions find exactly the placeholders of their class |
| PlaceholderTheorems.NumberedOk | internal/providers/utility.go:155-207 | Replacing the matches one by one numbers the placeholders of a class from left to right |
| PlaceholderTheorems.FilledOk | internal/providers/utility.go:209-218 | Filling in the coordinates one after the other is looking each of them up once |
| PlaceholderTheorems.NumberAllOk | internal/providers/utility.go:150-207 | The three passes do not disturb one another: all placeholders numbered, all values collected in the fixed order of classes |
| PlaceholderTheorems.PhaseOneOk | internal/providers/utility.go:133-219 | Phase one acts on each token once |
| PlaceholderSplicing.ReadsExactlyWhenSafe | internal/providers/utility.go:87-109 | The scan reads the parameters of phase one, all of them and nothing else, exactly when none runs into a digit and no other `$` into the number of a value |
| PlaceholderRewriting.RewritingIsDirect | internal/providers/utility.go:53-131 | On a safe template every placeholder is replaced by its value where it stands, env verbatim, ctx and layer escaped by query or path position, whatever the values contain |
| PlaceholderRewriting.RewritingDiffers | internal/providers/utility.go:53-131 | On an unsafe template, for every pair of escapers that leave some character alone, there are values for which the result is different |
| PlaceholderRewriting.DirectExactlyWhenSafe | internal/providers/utility.go:53-131 | With the two escapers fixed, rewriting equals direct substitution for all environment, context and layer values exactly when the template is safe |
| PlaceholderRewriting.DigitBehindPlaceholder | internal/providers/utility.go:94-99 | `{env.A}1` is not safe |
| PlaceholderRewriting.LiteralDollarNumber | internal/providers/utility.go:101-107 | Neither is a literal `$0` beside a placeholder |
| PlaceholderMeaning.RowIsUnique | internal/providers/utility.go:147-151 | One row is told to a template; in the grid for a request in range, and inverted twice it is the row of the request |
| PlaceholderMeaning.RewritesAsItReads | internal/providers/utility.go:53-131 | A safe template comes out token by token as its names say: zoom level, column, the row by `invertY`, the edges west, east, south and north, and the values escaped by position |
| PlaceholderMeaning.CoordinateTemplateReads | internal/providers/utility.go:209-218 | So does every template of coordinates alone, unless what it reads has a dollar sign |
| PlaceholderMeaning.WithoutDollarIsSafe | internal/providers/utility.go:87-109 | A template is safe when nothing in it is numbered and it has no dollar sign |
| PlaceholderMeaning.ZoomColumnRow | internal/providers/utility.go:209-214 | `{z}/{x}/{y}` for tile 3/1/2 is `3/1/2`, and `3/1/5` with rows inverted |
| JwtCache.SplitJoins | internal/authentications/jwt.go:437 | The scopes contain no blank and joined with blanks give the claim back |
| JwtCache.LayersAreNamed | internal/authentications/jwt.go:451-458 | A layer is allowed exactly when the prefix followed by its name is among the scopes |
| JwtCache.BearerTokenIsTaken | internal/authentications/jwt.go:263-280 | The authorization header `Bearer t` yields t, whatever it contains; any other text, and any text in another header, is taken as it is; nothing when empty |
| JwtCache.OneValueIsNeeded | internal/authentications/jwt.go:263-280 | No header, repeated headers and empty values give no token |
| JwtCache.Jwt.ExtractToken | internal/authentications/jwt.go:263-280 | The token in the one value of the configured header |
| JwtCache.Jwt.ValidateScope | internal/authentications/jwt.go:424-462 | The decision on the scope, and the layers it adds |
| JwtCache.Jwt.ValidateGeohash | internal/authentications/jwt.go:464-491 | The decision on the geohash, and the area it sets |
| JwtCache.Jwt.CheckAuthenticationWithoutCache | internal/authentications/jwt.go:282-365 | Accepts exactly tokens that parse, are timely and pass both claims; the result holds what the context then says |
| JwtCache.Jwt.Apply | internal/authentications/jwt.go:239-261 | Replays a cached result into the context |
| JwtCache.Jwt.CheckAuthentication | internal/authentications/jwt.go:207-237 | Without a token in the header nothing is accepted or changed; a hit looks at the expiration only; a miss validates and stores if absent, whatever happened to the cache meanwhile; a fresh context is left with exactly the rights of the token, and the cache with entries that have the rights of theirs |
| JwtCache.ReplayGrantsTheSame | internal/authentications/jwt.go:239-261 | Replaying a validation's result in a fresh context grants the same rights |
| JwtCache.AcceptedAtOneInstant | internal/authentications/jwt.go:282-318 | The time limits and claims of an accepted token, in nanoseconds: not expired, not expiring too far ahead, not before with five seconds of leeway |
| JwtCache.GrantedRights | internal/authentications/jwt.go:320-343 | An accepted token may render, under layer scopes, exactly the layers whose prefixed id is a word of its scope, and all layers otherwise; exactly the tiles that touch its geohash; and names its user |
| JwtCache.ReplayKeepsRights | internal/authentications/jwt.go:239-261 | Replaying a result in a fresh context keeps those rights |
| JwtCache.AcceptedMayExactly | pkg/entities/layer/layergroup.go:299-340 | In every run with concurrent requests, stores and evictions, the context of an accepted request has exactly the rights its token names, on a hit and on a miss |
| JwtCache.ValidUntilExpiration | internal/authentications/jwt.go:282-318 | A token that was valid once is valid later exactly until its expiration |
| JwtCache.CacheAgrees | internal/authentications/jwt.go:207-237 | In every run with concurrent requests, delayed stores and evictions, a request gets the decision of a fresh validation exactly unless it hits at the instant of expiration, and when accepted the same rights |
| JwtCache.RefusedAtExpiration | internal/authentications/jwt.go:215-219 | That exception occurs in a run |
| TileRequests.KeysAreUnique | pkg/tile_request.go:117-124 | Equal keys mean equal requests, for any layer name and any integers |
| TileRequests.KeyReads | pkg/tile_request.go:117-124 | The key of tile 3/1/2 of layer l is `l/3/1/2` |
| TileRequests.SeparatorsAreExact | pkg/tile_request.go:121-124 | The single characters that make keys unique are exactly those that are neither digits nor a dash |
| TileRequests.MemoryCache.Lookup | internal/caches/memory.go:80-88 | Finds only the image last saved for the identical request |
| TileRequests.MemoryCache.Save | internal/caches/memory.go:90-93 | Records the image for that request and no other |
| TileGrid.ColumnsExact | pkg/tile_request.go:154-190 | The columns found are the one that holds the western edge and those whose eastern edge is in the box |
| TileGrid.AllTouchedFound | pkg/tile_request.go:154-190 | Every column the box touches is found exactly when the box ends at the edge of a column or begins and ends in the same one |
| TileGrid.TouchedButNotFound | pkg/tile_request.go:154-190 | The box from -180 to 90 touches the second of two columns, which is not found |
| TileGrid.ColumnsExist | pkg/tile_request.go:154-190 | All of them are columns of the grid exactly when the box begins west of longitude 180 |
| TileGrid.RowsExact | pkg/tile_request.go:172-190 | The rows found are the one that holds the northern edge and those the box touches |
| TileGrid.ClampLatitude | pkg/tile_request.go:169-170 | Latitudes from -85.0511 to 85.0511 are left alone and others moved to the nearer end |
| TileGrid.WrapTurns | pkg/tile_request.go:154-166 | A longitude beyond the world is shifted by a number of half turns, against its sign, until it is in the world and not past the middle of it |
| TileGrid.EdgesInWorld | pkg/tile_request.go:74-77 | The columns lie side by side from -180 to 180 |
| TileGrid.TileFindsItself | pkg/tile_request.go:74-77 | The bounds of a tile, shrunk by any distance that leaves them in order, give that tile's column alone |
| TileGrid.TileFindsItselfWithinDelta | pkg/tile_request.go:24-29 | In particular shrunk by `delta` at every zoom from 0 to 21 |
| TileGrid.EachTileOnce | pkg/tile_request.go:202-206 | Every tile of the ranges has exactly one place in the result |
| TileGrid.OnlyTilesInRange | pkg/tile_request.go:202-206 | Nothing else is in the result |
| TileGrid.NumTilesIs | pkg/tile_request.go:190 | The 64-bit count is exact for ranges in the same order and beyond every limit otherwise |
| TileGrid.InvertedBoxCountsFour | pkg/tile_request.go:190-206 | A box inverted both ways at zoom 2 counts four tiles, which `FindTiles` returns blank |
| TileGrid.Fill | pkg/tile_request.go:200-206 | The nested loops fill every slot, row-major, leaving none blank |
| TileGrid.FindTiles | pkg/tile_request.go:147-209 | Exactly the grid for ordered ranges, and exactly when the zoom and the number of tiles are within their limits |
| Transform.OwnerExactly | internal/providers/transform.go:153-167 | Every pixel is in the chunk of exactly one thread |
| Transform.ChunksAreContiguous | internal/providers/transform.go:153-167 | The chunks follow one another from the first pixel to the last |
| Transform.StepFinishesOne | internal/providers/transform.go:183-194 | One step of a thread finishes the pixel at (i % w, i / w), which was not done before, and no other |
| Transform.Canvas.Run | internal/providers/transform.go:169-198 | Whatever the order in which the threads take their steps, each pixel is set exactly once and to its transformed colour |
| Transform.GenerateTile | internal/providers/transform.go:134-198 | The result is the pointwise map of the image |

## Left out

- HTTP, TLS, CGI, scripts, databases, remote caches, telemetry, logging and image codecs have no semantics in this code; flush, `Close`, `PreAuth` and leaf providers are arbitrary outcomes.
- JWKS key refresh and signature verification: `parse` stands for them, under one static key; the choice of algorithms is not modelled.
- Panics of user scripts in a transform thread: the thread that recovers leaves the rest of its chunk unset.
- Mercator rows: `row` is any function of the latitude; nothing is said about the rows of a tile's own bounds, where the clamp to 85.0511 moves the extreme rows at zoom 21.
- Floating-point rounding, NaN and infinities: longitudes are reals.  The loops that wrap longitudes step by 180, so that 190 becomes 10 and not -170; nothing is claimed about the tiles of boxes beyond the antimeridian.
- References that the `layer` shorthand of blend creates (internal/providers/blend.go:95-111) are not in the configuration `findRefTargets` walks, and environment and secret values are put into provider configurations only after the check (pkg/entities/layer/layer.go:211-217), so that a `ref` whose `layer` is such a value is judged by its raw text; `CheckedNeverExceeds` requires that every reference of a layer is one the check can see.
- A root context without a hop counter, as a library caller could pass it.
- The entities' own close is taken to return; one that hangs holds up `closeAll` beyond its deadline (internal/server/generation.go:129-140).
- JwtCache.AcceptedMayExactly: the bounds of the requested tile are a parameter; a tile outside its grid, which an area check refuses, is not modelled.
- Error values of `closeAll` are not joined, and `waitForIdle` is a wait for its condition instead of a poll every 25 ms.
- Retiring a generation uses a context that never expires (internal/server/tile_handler.go:95), so only `closeAll` can give up waiting.  `closeAll` starts after the HTTP server has drained, handlers it has given up aside; the order of the other shutdown phases is not modelled.
- The telemetry counters of the batcher and the rate limit of its drop log.
- Templates in which a brace does not delimit a whole placeholder: the string functions cover them, the token theorems do not.
- Generation.GenerationRegistry.CloseAll: states what the loop does with nothing else running; the protocol covers the interleavings.
- Placeholders.ReplacePlaceholdersInString: takes the printed bounds of the tile as texts; how they are computed and rounded is not modelled.
- RefRender.LayerGroup.RenderTile: its own exact condition for the depth error is for tables without caches and combining providers, because a cache hit or a combining provider may hide the error; `ErrorExactlyWhenHops` says for every table when the error is among the possible answers.
- A nil pointer behind a ctx value, at which the program panics, and the use of the numbered template for SQL parameters.
- Disk cache file names (`_` as separator, names made safe first), the multi cache, fallback, crop and composite providers, health reload and configuration loading are not modelled.
