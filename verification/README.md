# Verified models of the browser's core algorithms

Models in Dafny 4.11 of the parts of the browser whose correctness rests on an argument rather than on a look at
the code, with proofs of what these parts promise. `dafny verify dfyconfig.toml` checks everything.

## What is modelled

**XPath** (`XPath*.dfy`). A document is an array of parent links in document order; the native queries
(children, siblings, containment) are derived from it, and `XPathRose` shows that every ordered tree is such a
document. `XPathSemantics` is the naive semantics of XPath 1.0: every step from every node, sets, one listing
per set. The evaluator is modelled with its loops and explicit stacks and every shortcut it takes: `//` fusion
guarded by the positional analysis, reduced inputs for `following` and `preceding`, skipped sorts, the
single-input path. The main theorem is `XPathRun.Evaluate`. Thrown type errors are a failure value. What the two
sides share, positions, conversions, comparisons and node tests, is tied to the rules of the recommendation in
`XPathPositions` and `XPathRules`. The code and the recommendation differ in one place: `following` of an
attribute leaves out the children of its element. The model follows the code, `OutsideAxesAsRecommended` says
exactly when the two agree, and `ChildOfOwnerIsMissed` gives a document where they do not.

**Requests across processes** (`NetProtocol`, `NetDelivery`, `InProcess`, `Ipc`, `Debouncer`). State machines
with one step per lock region, atomic access or channel operation, in any order, assuming sequential
consistency; the sending half of the channel is a class whose methods are the lock regions. The main theorems
are `NetProtocol.ExactlyOnce` with `DrainingEnds`, `NetProtocol.DisconnectStrandsNobody`,
`NetDelivery.AnsweredByService`, `Ipc.Sender.ReceivedIsPrefix` and `Debouncer.NoLostSave`. A callback is
promised to run exactly once unless aborted; with the stack in process this fails when the last client is
dropped, and `InProcess.LostAtShutdown` says exactly for which requests.

**Frames and sessions** (`DisplayList`, `Frames`, `Paths`, `Session`). The recorder, the cache, the renderer's
frame production and the tab's frame handling are classes with the fields of the source. `Frames.Pipeline` keeps
that suppression is invisible and that no needed resource is ever missing, over captures, page changes and
crashes. `Session.Browser` keeps the history and document invariants; what each operation means for a tab is a
relation, about which the round trips are proved.

**Events** (`Event*.dfy`). The listener store with its splices, handlers, abort signals and a log; callbacks are
arbitrary sequences of actions that may depend on everything that was logged, nested dispatches included, down
to an arbitrary stack depth. Running out of stack throws.

**GLSL** (`Glsl*.dfy`). Column-major matrices, determinants and Gauss-Jordan inversion over the reals,
half-precision conversion on bit patterns (it rounds twice, and ties go away from zero where IEEE 754 rounds to
even; `TwoRoundings` and `EvenExactly` say exactly when the result is a nearest half and when it is the one of
IEEE 754, `NotTheNearest` and `TieAgainstEven` give numbers for which it is not), the expression parser with a
cursor against a printer that writes only needed parentheses and against the table of operators, the conditional
preprocessor against a nested reading, and comment stripping. Where the preprocessor's documentation-level
promise "a part that is not selected has no effect" fails, namely for `#version`, the exact condition is proved
and a source that shows it is given.

In the imperative parts each method is proved against a function or relation over values; the theorems are about
these. Row by row:

## Model

| member | source | states |
|---|---|---|
| `XPathRun.Evaluate` | `crates/script/js/25_xpath.js:847-922` | compiling with the `//` fusion and then evaluating with reduced inputs, skipped sorts and the single-input shortcut gives, for every tree, context node and expression, the value or the type error of the naive semantics that takes every step from every node and always sorts |
| `XPathRun.Run` | `crates/script/js/25_xpath.js:886-922` | every kind of compiled expression gives the naive value or failure, at every context position and size |
| `XPathFusionProof.CompileMeans` | `crates/script/js/25_xpath.js:850-885` | compilation changes the meaning of no expression, nested predicates included |
| `XPathFusionProof.MergedMeans` | `crates/script/js/25_xpath.js:848-860` | a whole path with every `//x` pair fused selects the same node list or fails alike, from any list of input nodes |
| `XPathFusionProof.FusedStep` | `crates/script/js/25_xpath.js:848-858` | `descendant-or-self::node()/child::t[preds]` equals `descendant::t[preds]`, failures included, when no predicate is positional |
| `XPathFusionProof.ChildrenBelow` | `crates/script/js/25_xpath.js:848-849` | children of the nodes at or below the inputs are the proper descendants of the inputs |
| `XPathFusionProof.OutcomeAnywhere` | `crates/script/js/25_xpath.js:833-847` | a predicate that is not positional never gives a number and has one outcome whatever the position and size |
| `XPathFusionProof.PositionFree` | `crates/script/js/25_xpath.js:833-846` | an expression the analysis clears has one value or failure at every position and size |
| `XPathFusionProof.StaticTypeSound` | `crates/script/js/25_xpath.js:824-832` | the static type is the type of every value the expression evaluates to |
| `XPathFusionProof.FilterAllIs` | `crates/script/js/25_xpath.js:783-798` | a chain of position-free predicates keeps exactly the nodes every predicate holds of, and fails exactly when one fails on a node that reaches it |
| `XPathFusion.MergeDescendantSteps` | `crates/script/js/25_xpath.js:850-860` | the loop rewrites exactly the adjacent pairs the fusion rule allows, left to right, and keeps every other step |
| `XPathPositions.NumberSelects` | `crates/script/js/25_xpath.js:783-791` | as a predicate a number keeps the node at that position and no other, and nothing when it is no position of the list |
| `XPathPositions.LastSelects` | `crates/script/js/25_xpath.js:783-791` | `[last()]` keeps the last node |
| `XPathPositions.PositionSelects` | `crates/script/js/25_xpath.js:783-791` | a comparison of `position()` with a number keeps the part of the list before, up to, at, from, after or around that position |
| `XPathPositions.StepWithNumber` | `crates/script/js/25_xpath.js:783-798` | a step with a number selects the node with that proximity position, which on a reverse axis counts away from the context node |
| `XPathRules.Truth` | `crates/script/js/25_xpath.js:169-176` | a value is true when it is `true`, a nonzero number, a string or a node-set that is not empty |
| `XPathRules.Disjunction` | `crates/script/js/25_xpath.js:889` | `or` is the truth of its operands; the second may fail when the first is true |
| `XPathRules.Conjunction` | `crates/script/js/25_xpath.js:890` | `and` likewise; the second may fail when the first is false |
| `XPathRules.Conversions` | `crates/script/js/25_xpath.js:153-168` | strings and numbers of values; those of a node-set are of its first node |
| `XPathRules.Negation` | `crates/script/js/25_xpath.js:892` | a minus sign turns the number of its operand around zero, infinities too, and leaves NaN as it is |
| `XPathRules.NumbersCompared` | `crates/script/js/25_xpath.js:189-198` | numbers compare by whether a real number separates them, and NaN is equal to, below and above nothing |
| `XPathRules.PrimitivesCompared` | `crates/script/js/25_xpath.js:179-188` | values other than node-sets compare as booleans, numbers or strings as section 3.4 of XPath 1.0 says |
| `XPathRules.ComparisonMirrored` | `crates/script/js/25_xpath.js:199-224` | every comparison, of node-sets too, may be read from right to left |
| `XPathRules.StepSelects` | `crates/script/js/25_xpath.js:650-663` | a step selects the nodes of its axis that are of the kinds its test names, and no others |
| `XPathRules.IdSelects` | `crates/script/js/25_xpath.js:411-428` | `id()` gives the elements found by the value, and none for an attribute without an element |
| `XPathRun.EvalStep` | `crates/script/js/25_xpath.js:810-820` | a step from an ordered set gives the listing of everything the step reaches from any of the inputs, each once and in document order, or fails when one input fails |
| `XPathRun.StepFromEach` | `crates/script/js/25_xpath.js:813-819` | the unsorted concatenation holds exactly the nodes reached, and is already ordered without duplicates for the axes whose sort is skipped |
| `XPathRun.KeepsOrderStep` | `crates/script/js/25_xpath.js:626-630` | appending what the next input gives keeps the concatenation for `self` and `attribute` ordered |
| `XPathRun.CollectedInOrder` | `crates/script/js/25_xpath.js:810-820` | after each input the concatenation of an order-keeping axis is ordered and comes from the inputs so far |
| `XPathRun.StepFrom` | `crates/script/js/25_xpath.js:792-798` | one input: collect, filter and reverse give the step from that node in document order |
| `XPathRun.ApplyPredicate` | `crates/script/js/25_xpath.js:783-791` | keeps exactly the nodes whose predicate value, at their position in the list, equals that position or is true |
| `XPathRun.RunSteps` | `crates/script/js/25_xpath.js:877-884` | running the steps one after the other, stopping at an empty set, is the naive path |
| `XPathRun.RunUnion` | `crates/script/js/25_xpath.js:906-912` | the union is the listing of all nodes of all parts, or fails when a part is no node-set |
| `XPathRun.RunFilter` | `crates/script/js/25_xpath.js:914-920` | the predicate loop over an expression in parentheses filters in document order |
| `XPathRun.FindRoot` | `crates/script/js/25_xpath.js:71-83` | the walk up finds the root of the context node |
| `XPathEval.ReduceInputs` | `crates/script/js/25_xpath.js:799-809` | the reduced inputs give the step the same nodes as the whole ordered set |
| `XPathEval.FollowingOfFirstToEnd` | `crates/script/js/25_xpath.js:799-808` | `following` of a set of tree nodes is `following` of the node whose subtree ends first |
| `XPathEval.PrecedingOfLast` | `crates/script/js/25_xpath.js:799-805` | `preceding` of a set of tree nodes is `preceding` of its last node |
| `XPathEval.FirstToEnd` | `crates/script/js/25_xpath.js:806-808` | the containment loop finds the input whose subtree ends first |
| `XPathEval.SingleInput` | `crates/script/js/25_xpath.js:812` | from one input the step needs no sort: collected, filtered and reversed it is already the listing |
| `XPathEval.RunCompare` | `crates/script/js/25_xpath.js:199-224` | comparing node-sets, with the hash set for equality, is the existential comparison of section 3.4 of XPath 1.0 |
| `XPathEval.CompareSets` | `crates/script/js/25_xpath.js:202-214` | two node-sets compare as some pair of their string-values does |
| `XPathCollect.Collect` | `crates/script/js/25_xpath.js:703-756` | every axis from a tree node gives exactly the axis nodes that pass the test, nearest first on reverse axes |
| `XPathCollect.CollectFromAttr` | `crates/script/js/25_xpath.js:757-782` | every axis from an attribute, owned or not, gives exactly the axis nodes that pass, in axis order |
| `XPathSemantics.OutsideAxesAsRecommended` | `crates/script/js/25_xpath.js:768-776` | the axes `following` and `preceding` are those of section 2.2 of XPath 1.0 with one exception that is exactly characterised: `following` of an attribute leaves out the children of its element, so it conforms just when there are none |
| `XPathSemantics.ChildOfOwnerIsMissed` | `crates/script/js/25_xpath.js:768-776` | in an element with an attribute and a child, `following` of the attribute misses the child |
| `XPathTree.AxesPartition` | `crates/script/js/25_xpath.js:664-702` | self, ancestors, descendants, following and preceding nodes partition the tree |
| `XPathAxes.Descend` | `crates/script/js/25_xpath.js:664-681` | the two-stack loop terminates and emits the proper descendants that pass, in document order |
| `XPathAxes.VisitNext` | `crates/script/js/25_xpath.js:669-679` | one turn of the loop emits the next node of the preorder and keeps the stack a path to it |
| `XPathAxes.FollowingNodes` | `crates/script/js/25_xpath.js:682-691` | emits the following nodes that pass, in document order |
| `XPathAxes.PrecedingNodes` | `crates/script/js/25_xpath.js:692-702` | emits the preceding nodes that pass, in exactly the reverse of document order |
| `XPathAxes.WholeAxis` | `crates/script/js/25_xpath.js:703-756` | an axis is the part of the numbering it covers, reversed for reverse axes |
| `XPathCollect.ChildNodes` | `crates/script/js/25_xpath.js:708-716` | the children that pass, in order, none for nodes that cannot have any |
| `XPathCollect.AncestorAxis` | `crates/script/js/25_xpath.js:732-735` | the ancestors that pass, nearest first |
| `XPathCollect.FollowingSiblings` | `crates/script/js/25_xpath.js:736-738` | the following siblings that pass, in order |
| `XPathCollect.PrecedingSiblings` | `crates/script/js/25_xpath.js:739-741` | the preceding siblings that pass, nearest first |
| `XPathCollect.AttributeNodes` | `crates/script/js/25_xpath.js:744-753` | the attributes that pass, in the order of the element |
| `XPathOrder.DocOrder` | `crates/script/js/25_xpath.js:229-253` | sorting and removing duplicates gives the one listing of the set: document order, attributes right after their element in attribute order |
| `XPathOrder.Unique` | `crates/script/js/25_xpath.js:231` | keeps every node once |
| `XPathOrder.InsertItem` | `crates/script/js/25_xpath.js:247-251` | the comparison by owner and attribute rank inserts in document order |
| `XPathOrder.SortedIsUnique` | `crates/script/js/25_xpath.js:227-228` | a set of nodes has only one ordered listing |
| `XPathTree.SubtreeIsInterval` | `crates/script/js/25_xpath.js:664-681` | the subtree of a node is an interval of the document order |
| `XPathTree.NextSiblingIs` | `crates/script/js/25_xpath.js:682-691` | the next sibling is where the subtree ends, unless the subtree of the parent ends there too |
| `XPathTree.PrevSiblingIs` | `crates/script/js/25_xpath.js:692-702` | the previous sibling is the one whose subtree ends right before the node |
| `XPathRose.EveryTreeIsADocument` | `crates/script/js/25_xpath.js:664-681` | every ordered tree the DOM allows, numbered in document order, is a document the results above are about |
| `NetProtocol.ExactlyOnce` | `crates/netstack/src/client.rs:311-385` | in every interleaving of fetches, aborts, both processes and a disconnect: once drained, every callback given to `fetch` was run exactly once or dropped by an abort that found it pending, and none is left in `pending` |
| `NetProtocol.DisconnectStrandsNobody` | `crates/netstack/src/client.rs:163-378` | once the reader thread has failed what was pending and the thread in `fetch` is through, in whichever order, the request is not in `pending` and its callback is run, about to be run or dropped by an abort, exactly one of these, whatever the service and all other requests still do |
| `NetProtocol.DisconnectGetsDone` | `crates/netstack/src/client.rs:163-378` | after a disconnect those two threads get through on their own: until they are, the next step of one of them can be taken and leaves fewer to take, whatever the service and the other requests do |
| `NetProtocol.StepsOnlyGo` | `crates/netstack/src/client.rs:163-378` | no step of anybody else gives them more to do |
| `NetProtocol.AtMostOnce` | `crates/netstack/src/client.rs:131-182` | no callback runs twice, and none runs that an abort dropped |
| `NetProtocol.AbortedForGood` | `crates/netstack/src/client.rs:417-428` | after an abort that found the request pending nothing that happens later runs its callback |
| `NetProtocol.CancelledNeverAnswers` | `crates/netstack/src/service.rs:297-341` | a task whose generation was aborted or superseded never answers, and no task answers twice |
| `NetDelivery.AnsweredByService` | `crates/netstack/src/client.rs:334-385` | while nothing breaks the connection, every request that fits a frame and is not aborted is answered by a task of the service, the response is received, and its callback runs exactly once |
| `NetDelivery.RequestsInOrder` | `crates/common/src/ipc.rs:204-394` | the service handles what client threads sent, in order and nothing else: all of it but what is still under way and what a connection takes with it that breaks while the queue is written |
| `NetDelivery.ResponsesInOrder` | `crates/netstack/src/service.rs:245-341` | the client receives what the tasks answered, in order and nothing else |
| `NetDelivery.ServedCancels` | `crates/netstack/src/service.rs:297-341` | once the service has read an abort, or another fetch with an id in use, the task it had for the request never answers |
| `NetDelivery.AbortsAreSent` | `crates/netstack/src/client.rs:417-423` | every abort that found its request pending sends one message to the service, and nothing else sends one |
| `NetDelivery.DroppedByAbort` | `crates/netstack/src/client.rs:417-428` | a callback is dropped by an abort of its request and by nothing else |
| `NetDelivery.EveryTaskAnswers` | `crates/netstack/src/service.rs:297-341` | when everything has drained every task has answered once or was cancelled, and not both |
| `NetDelivery.StaysUp` | `crates/common/src/ipc.rs:237-308` | the connection lasts while nothing breaks it |
| `NetDelivery.BrokenForGood` | `crates/common/src/ipc.rs:204-236` | a broken connection does not come back |
| `NetProtocol.InvStep` | `crates/netstack/src/client.rs:334-385` | every atomic step of client threads, reader, channel, service and tasks, a connection that breaks while the queue is written included, keeps: each callback in one place, threads at one point, no pending callback without somebody who will take it out |
| `NetProtocol.OwedByClientThread` | `crates/netstack/src/client.rs:361-378` | when a client thread registers, sends, looks again and takes back, every other pending callback keeps somebody who will take it |
| `NetProtocol.OwedByOthers` | `crates/netstack/src/client.rs:163-179` | the reader marking the disconnect before draining leaves nobody stranded |
| `NetProtocol.DrainingEnds` | `crates/netstack/src/client.rs:334-385` | however the internal steps are scheduled, there is a bound on how many there are |
| `NetProtocol.Progress` | `crates/netstack/src/service.rs:251-341` | every internal step brings the system nearer to being drained |
| `InProcess.ExactlyOnce` | `crates/netstack/src/client.rs:192-409` | with the stack in process: never twice, and once drained each callback ran once or was dropped by an abort, not both, unless its request was lost when the last client was dropped; nothing is lost before that |
| `InProcess.LostAtShutdown` | `crates/netstack/src/client.rs:192-204` | lost are exactly the requests that were in flight when the last client was dropped and whose task did not finish before the runtime stopped it |
| `InProcess.AbortedForGood` | `crates/netstack/src/client.rs:424-428` | an abort that found the request is final |
| `InProcess.Answered` | `crates/netstack/src/client.rs:386-409` | while a client is left, a request that is not aborted has its callback run, once |
| `InProcess.Progress` | `crates/netstack/src/client.rs:396-408` | tasks and callbacks come to an end on their own |
| `InProcess.StuckIsDone` | `crates/netstack/src/client.rs:396-408` | and nothing is left when none of their steps can be taken |
| `InProcess.InvStep` | `crates/netstack/src/client.rs:386-428` | each lock region keeps every callback in exactly one place |
| `Ipc.DecodedStream` | `crates/common/src/ipc.rs:401-420` | decoding any written frames, with anything cut short after them, gives exactly those frames |
| `Ipc.DecodedSoFar` | `crates/common/src/ipc.rs:204-222` | what has been read of a part of the stream is a prefix of what will be read of all of it |
| `Ipc.LengthRoundTrip` | `crates/common/src/ipc.rs:401-420` | the four length bytes read back as the length |
| `Ipc.ReadFrame` | `crates/common/src/ipc.rs:408-420` | reads a frame exactly when a whole one of allowed size is there, and leaves the reader at the next |
| `Ipc.ReadLoop` | `crates/common/src/ipc.rs:204-222` | delivers the message of every whole frame in order, up to the first frame that cannot be read or does not decode |
| `Ipc.UnderstoodIs` | `crates/common/src/ipc.rs:204-222` | these are the first frames, and all of them just when each one decodes |
| `Ipc.Sender.constructor` | `crates/common/src/ipc.rs:255-268` | a sender starts queueing, or open around a connection that is there |
| `Ipc.Sender.Send` | `crates/common/src/ipc.rs:367-394` | accepts exactly what fits the frame limit and was queued or written; what was accepted is never reordered or lost while open, and a closed or too large send changes nothing |
| `Ipc.Sender.SendAll` | `crates/common/src/ipc.rs:367-394` | a series of sends accepts, in order, exactly the payloads reported as sent; only those over the limit are too large, and none is sent after the close |
| `Ipc.Sender.Write` | `crates/common/src/ipc.rs:401-406` | a write either takes all bytes or breaks the sender for good |
| `Ipc.Sender.WriteQueue` | `crates/common/src/ipc.rs:237-252` | the queue goes out frame by frame until a write fails |
| `Ipc.Sender.OpenSender` | `crates/common/src/ipc.rs:234-252` | opens exactly when the whole queue was written; then everything accepted is on the wire in order |
| `Ipc.Sender.Close` | `crates/common/src/ipc.rs:276-305` | closing keeps what was written and accepted |
| `Ipc.Sender.ReceivedIsPrefix` | `crates/common/src/ipc.rs:367-394` | at any time, whatever part of the bytes has arrived, the messages read are a prefix of the accepted ones, and all of them when open |
| `Ipc.BackgroundThread` | `crates/common/src/ipc.rs:314-353` | whatever other threads send before the sender is opened, while it is open and after it is closed: the messages of the peer come in order and the end of the connection is reported exactly once, last; what the senders were told went out is what was accepted, in order, and nothing is accepted after the close |
| `DisplayList.RecordAll` | `crates/common/src/display_list.rs:255-345` | whatever was sent before, every cache with all that has been sent now replays the recorded list as the picture the page painted |
| `DisplayList.Recorder.Record` | `crates/common/src/display_list.rs:316-440` | one painter call adds its command; `reset` drops the commands and keeps the pending resources |
| `DisplayList.Recorder.Brush` | `crates/common/src/display_list.rs:272-302` | an image goes along the first time its id is used and only then |
| `DisplayList.Recorder.Font` | `crates/common/src/display_list.rs:304-313` | a font goes along the first time its id is used and only then |
| `DisplayList.RecordedShows` | `crates/common/src/display_list.rs:353-440` | one more recorded command shows one more call |
| `DisplayList.ReplayedAlike` | `crates/common/src/display_list.rs:538-629` | all caches that hold what is needed show the same picture |
| `DisplayList.ResourceCache.Ingest` | `crates/common/src/display_list.rs:453-477` | the new resources move from the list into the cache |
| `DisplayList.StoredIs` | `crates/common/src/display_list.rs:453-477` | afterwards the cache holds the old ids and the new ones with their contents |
| `DisplayList.ResourceCache.Replay` | `crates/common/src/display_list.rs:538-629` | the replay loop shows the picture of the list from the cache, each item moved by the extra transform, skipping what is missing |
| `DisplayList.MovedTwice` | `crates/common/src/display_list.rs:538-560` | moving a replayed picture is replaying it under the product of the transforms, and the identity moves nothing |
| `DisplayList.ProductMaps` | `crates/common/src/display_list.rs:538-560` | the product of two transforms takes every point where the second and then the first take it |
| `DisplayList.MissingShowsNothing` | `crates/common/src/display_list.rs:538-629` | a command whose font or image is not in the cache shows nothing |
| `Paths.RoundTrip` | `crates/common/src/display_list.rs:45-120` | encoding then decoding never fails: rectangles and rounded rectangles come back to the last digit, with every corner its own radius; any other path comes back with rounded coordinates and nothing else changed |
| `Paths.FromShape` | `crates/common/src/display_list.rs:46-84` | a rectangle, else a rounded rectangle, is kept as such; otherwise the verbs and coordinates stand for the elements given |
| `Paths.ToBezPath` | `crates/common/src/display_list.rs:86-119` | decoding succeeds exactly when no verb lacks coordinates, and gives the outline of the rectangle or the elements the data stands for |
| `Paths.StandsForOne` | `crates/common/src/display_list.rs:45-120` | data stands for one path only |
| `Frames.Pipeline.ProduceFrame` | `crates/engine/src/renderer.rs:1447-1492` | suppressed or sent, captures and page changes included, the tab will show the last page painted, and every id a frame on its way needs is in the cache in time; a frame with new resources is never suppressed |
| `Frames.Pipeline.SendFrame` | `crates/engine/src/renderer.rs:1469-1492` | numbering and sending keeps both invariants and forgets the last frame after a capture |
| `Frames.Pipeline.RequestCapture` | `crates/engine/src/renderer.rs:569-577` | a capture is pending |
| `Frames.Pipeline.NewPage` | `crates/engine/src/renderer.rs:930-945` | a new document has sent nothing |
| `Frames.Pipeline.Deliver` | `crates/browser/src/lib.rs:487-525` | frames of a replaced renderer change nothing, captures pass the tab by, other frames are taken in and shown |
| `Frames.Pipeline.Respawn` | `crates/browser/src/lib.rs:301-331` | a new renderer starts with an empty cache and nothing of the old one is taken, just when no message on its way carries the new number, which wraps at 2^32 |
| `Frames.Pipeline.LateMessage` | `crates/browser/src/lib.rs:249-251` | a message the reader thread of a replaced renderer still pushes changes nothing of what the tab will show |
| `Frames.Pipeline.Show` | `crates/browser/src/lib.rs:513-525` | when no frame is on its way the tab shows exactly what was painted last, moved to its place, as if every frame had been sent |
| `Frames.FrameSent` | `crates/common/src/display_list.rs:453-477` | one more frame finds its resources |
| `Frames.PictureSent` | `crates/engine/src/renderer.rs:1469-1485` | one more frame, suppression memory included, keeps the picture right |
| `Frames.PictureStays` | `crates/engine/src/renderer.rs:1469-1485` | sending more resources leaves earlier pictures as they are |
| `Session.Run` | `crates/browser/src/lib.rs:258-597` | on every run of user commands and renderer events every tab stands at an entry of its history and has its URL, no two tabs share a document and none is numbered ahead of the counter |
| `Session.Browser.Go` | `crates/browser/src/lib.rs:416-452` | out of range nothing changes; within the document the renderer is told and nothing is loaded; otherwise the target is loaded as a document with a new number, all pages and exactly which entries share a document staying the same |
| `Session.ThereAndBack` | `crates/browser/src/lib.rs:416-452` | going there and back restores the index, the URL, all pages and the sharing of documents, and loads on the way back just when it did on the way there |
| `Session.Renumber` | `crates/browser/src/lib.rs:438-442` | the loop renumbers exactly the entries of one document |
| `Session.Browser.Open` | `crates/browser/src/lib.rs:353-412` | places the entry over the current one or in place of everything after it; the document is kept, and nothing starts to load, just for a GET in any letter case to a fragment of the page of the current entry, `about:` pages aside; any other URL gets a document of its own and starts to load; the renderer is told in each case |
| `Session.OpenedDocument` | `crates/browser/src/lib.rs:369-389` | the new entry shares a document with another just after such a change of fragment |
| `Session.FragmentOnlyIs` | `crates/browser/src/lib.rs:97-109` | comparing what is before the first `#` is the same as asking for one page without a `#` that both URLs are, the new one with a fragment |
| `Session.OpenAndBack` | `crates/browser/src/lib.rs:353-452` | opening a page and going back shows the old page, by a load unless only the fragment changed |
| `Session.PushAndBack` | `crates/browser/src/lib.rs:579-597` | a page that pushed an entry and goes back is told so and not loaded |
| `Session.Browser.PushEntry` | `crates/browser/src/lib.rs:579-595` | pushState and replaceState keep the document and the title and place the entry |
| `Session.Browser.NewTab` | `crates/browser/src/lib.rs:264-299` | a tab gets a new id, goes last and opens its URL, or nothing but the counter changes when no renderer starts |
| `Session.Browser.CloseTab` | `crates/browser/src/lib.rs:333-351` | exactly that tab goes |
| `Session.Browser.Respawn` | `crates/browser/src/lib.rs:301-331` | history, URL and title survive; the epoch changes |
| `Session.Browser.ProcessEvent` | `crates/browser/src/lib.rs:487-597` | events of closed tabs and of other epochs change nothing and report nothing; any other changes its own tab as the message says |
| `Session.Browser.Receive` | `crates/browser/src/lib.rs:509-597` | what each message of the present renderer does to its tab and what the embedder is told |
| `Session.ReplacedIsStale` | `crates/browser/src/lib.rs:301-331` | an event of a replaced renderer is dropped unless a multiple of 2^32 replacements came between |
| `Session.DocsStayOk` | `crates/browser/src/lib.rs:366-389` | a tab that takes at most the next number keeps the documents of all tabs apart |
| `Session.BeforeHash` | `crates/browser/src/lib.rs:104-109` | the part of a URL before its fragment: everything up to the first `#` |
| `EventSafety.DispatchKeeps` | `crates/script/js/10_events.js:1025-1078` | whatever callbacks do, nested dispatches included: the listener store stays sound, events being dispatched further out keep target, phase and current target, and the event is left ready to be sent again |
| `EventSafety.CallKeeps` | `crates/script/js/10_events.js:999-1018` | one call keeps all that too, and a passive listener cannot cancel its event |
| `EventSafety.ScriptKeeps` | `crates/script/js/10_events.js:1000-1015` | a callback of any actions keeps the store and the events of the dispatches around it |
| `EventStore.AddedIsThere` | `crates/script/js/10_events.js:671-712` | unless its signal is aborted a listener for that callback and phase is in the list afterwards: the one that was there, and then nothing changes, or a new one last; all other lists stay as they are, and the store stays sound |
| `EventStore.RemoveListenerRemoves` | `crates/script/js/10_events.js:713-730` | afterwards a listener of that list is still there just when it does not match |
| `EventStore.AbortKeeps` | `crates/script/js/10_events.js:1148-1169` | aborting removes exactly the listeners that go with the signal |
| `EventStore.ActivatedIsThere` | `crates/script/js/10_events.js:818-829` | afterwards the handler has a live listener: the one it had, and then nothing changes, or a new one, first or last as asked; all other lists stay as they are, and the store stays sound |
| `EventStore.DeactivatedIsGone` | `crates/script/js/10_events.js:830-836` | afterwards the handler has no listener; exactly the one it had is gone, and the store stays sound |
| `EventStore.RemoveLog` | `crates/script/js/10_events.js:647-655` | no removal makes a logged call a call of a removed listener |
| `EventSafety.CallAppended` | `crates/script/js/10_events.js:995-1009` | the log never has a call after a removal, but for a listener called once and removed right before, and never two calls of one of these |
| `EventTrace.QuietDispatch` | `crates/script/js/10_events.js:1042-1062` | when callbacks only stop, cancel or throw, a dispatch logs exactly the calls of capture, target and bubble phase of section 2.9 of the DOM Standard, cut where the stop flags say |
| `EventTrace.CallsFollowPlan` | `crates/script/js/10_events.js:1042-1062` | the calls are a prefix of the plan |
| `EventTrace.CallsAreThePlan` | `crates/script/js/10_events.js:1042-1062` | and all of it when nobody stops the event |
| `EventResult.QuietReports` | `crates/script/js/10_events.js:1016-1078` | a dispatch reports canceled, stopped or thrown exactly when that was marked before or the callback of a listener that it called does so before throwing; canceling takes a cancelable event and a listener that is not passive |
| `EventActions.AddDoes` | `crates/script/js/10_events.js:671-712` | a listener with the options given is made, unless the signal has been aborted or there is one for the same target, type, callback and phase |
| `EventActions.RemoveDoes` | `crates/script/js/10_events.js:713-730` | exactly the listener for that target, type, callback and phase is taken away |
| `EventActions.SetDoes` | `crates/script/js/10_events.js:923-931` | afterwards the handler has a listener, without options |
| `EventActions.UnsetDoes` | `crates/script/js/10_events.js:923-931` | afterwards it has none |
| `EventActions.AttributeFound` | `crates/script/js/10_events.js:890-913` | a handler set by an attribute is found when an event comes by, in front of the listeners that scripts added |
| `EventActions.NewDoes` | `crates/script/js/10_events.js:35-51` | a new event has its type and options, no flag and no target |
| `EventActions.AbortDoes` | `crates/script/js/10_events.js:1151-1169` | aborting takes away exactly the listeners of the signal and makes the event that is then sent to it, which neither bubbles nor can be canceled |
| `EventTrace.QuietVisit` | `crates/script/js/10_events.js:987-1020` | at one target: the listeners of the phase in the order added, up to the first that stops immediately |
| `EventTarget.EventLayer.DispatchCore` | `crates/script/js/10_events.js:1025-1078` | the loops do what the dispatch function says, for every depth of nesting |
| `EventTarget.EventLayer.InvokeListeners` | `crates/script/js/10_events.js:987-1020` | the loop over the snapshot calls what is still there, in order |
| `EventTarget.EventLayer.RunScript` | `crates/script/js/10_events.js:1000-1015` | a callback runs step by step until it ends or throws |
| `EventTarget.EventLayer.CallListener` | `crates/script/js/10_events.js:995-1017` | one call with its flags, removal and log entry |
| `EventTarget.EventLayer.AddEventListener` | `crates/script/js/10_events.js:671-712` | adds a listener unless its callback is there or its signal is aborted, and keeps the store sound |
| `EventTarget.EventLayer.RemoveEventListener` | `crates/script/js/10_events.js:713-730` | removes exactly the listener that matches |
| `EventTarget.EventLayer.DispatchEvent` | `crates/script/js/10_events.js:731-742` | dispatching an idle event on a sound page leaves it sound and says whether the event was canceled |
| `GlslInverse.InverseOf` | `crates/script/js/35_glsl_rt.js:86-108` | over the reals: gives a matrix that is inverse from both sides, or none just when some vector other than zero is taken to zero, which is just when the determinant is zero |
| `GlslInverse.SingularHasNoInverse` | `crates/script/js/35_glsl_rt.js:98` | a matrix without an answer has no inverse at all |
| `GlslInverse.ReduceColumn` | `crates/script/js/35_glsl_rt.js:94-105` | pivoting, scaling and clearing one column keep: left half is right half times the matrix, first columns those of the identity, no solution gained |
| `GlslInverse.NoPivot` | `crates/script/js/35_glsl_rt.js:95-98` | a column without pivot yields a vector the matrix takes to zero |
| `GlslInverse.SwapKeeps` | `crates/script/js/35_glsl_rt.js:99` | exchanging rows keeps the invariant of elimination |
| `GlslInverse.DivideKeeps` | `crates/script/js/35_glsl_rt.js:100-101` | scaling the pivot row keeps it |
| `GlslInverse.EliminateKeeps` | `crates/script/js/35_glsl_rt.js:102-105` | clearing an entry keeps it |
| `GlslInverse.FindPivot` | `crates/script/js/35_glsl_rt.js:96-97` | finds the largest entry at or below the diagonal |
| `GlslInverse.RightInverse` | `crates/script/js/35_glsl_rt.js:86-108` | what the elimination leaves is an inverse from the right too |
| `GlslInverse.ClosedForm` | `crates/script/js/35_glsl_rt.js:88-89` | the two by two formula is an inverse from both sides |
| `GlslInverse.ZeroDeterminant` | `crates/script/js/35_glsl_rt.js:77-89` | a two by two matrix of determinant zero takes some vector to zero |
| `GlslDeterminant.DetOfProduct` | `crates/script/js/35_glsl_rt.js:76-85` | for two, three and four columns the determinant of a product is the product of the determinants |
| `GlslDeterminant.DetOfSingular` | `crates/script/js/35_glsl_rt.js:76-85` | a matrix that takes a vector other than zero to zero has determinant zero |
| `GlslDeterminant.DetOfInvertible` | `crates/script/js/35_glsl_rt.js:76-98` | a matrix with an inverse has a determinant other than zero |
| `GlslDeterminant.DetIsWhole` | `crates/script/js/35_glsl_rt.js:76-85` | the three formulas are one: the minors of the first two rows paired with those of the last two, of the matrix with the identity below it |
| `GlslDeterminant.FormExpanded` | `crates/script/js/35_glsl_rt.js:76-85` | it is the signed sum over one entry of each row from different columns |
| `GlslMatrix.MMul` | `crates/script/js/35_glsl_rt.js:172-176` | fills the product, column by column |
| `GlslMatrix.MVMul` | `crates/script/js/35_glsl_rt.js:177` | matrix times vector, accumulated one column at a time |
| `GlslMatrix.VMMul` | `crates/script/js/35_glsl_rt.js:178` | vector times matrix |
| `GlslMatrix.Transpose` | `crates/script/js/35_glsl_rt.js:183` | rows become columns |
| `GlslMatrix.ProductAssociative` | `crates/script/js/35_glsl_rt.js:172-176` | multiplication is associative for all sizes |
| `GlslMatrix.TransposeOfProduct` | `crates/script/js/35_glsl_rt.js:172-183` | the transpose of a product is the product of the transposes the other way round |
| `GlslMatrix.TransposeTwice` | `crates/script/js/35_glsl_rt.js:183` | transposing twice gives the matrix back |
| `GlslMatrix.ColumnVector` | `crates/script/js/35_glsl_rt.js:172-177` | matrix times vector agrees with the product by a one-column matrix |
| `GlslMatrix.RowVector` | `crates/script/js/35_glsl_rt.js:172-178` | vector times matrix agrees with the product by a one-row matrix |
| `GlslHalf.ToHalf` | `crates/script/js/35_glsl_rt.js:17-34` | from a number, over both roundings: sign, infinity and not-a-number are kept, a number that a half has becomes that half; the half is a nearest one except, exactly, when the rounding to a single went up to the middle between two halves, and it is the one IEEE 754 asks for except, exactly, in that case and at a tie above an even half |
| `GlslHalf.HalfOfSingle` | `crates/script/js/35_glsl_rt.js:18-34` | the bits of a single go to the half whose halfway points enclose it, ties away from zero |
| `GlslHalf.TwoRoundings` | `crates/script/js/35_glsl_rt.js:18-34` | the two roundings together give a nearest half just when the single is not the middle between two halves with the number below it |
| `GlslHalf.EvenExactly` | `crates/script/js/35_glsl_rt.js:13-34` | they give what IEEE 754 asks for, ties to even, just when the single is not the middle above a half with the number below it, or at it with that half even |
| `GlslHalf.EvenForSingles` | `crates/script/js/35_glsl_rt.js:13-34` | of singles: just when the single is not the middle above an even half |
| `GlslHalf.NotTheNearest` | `crates/script/js/35_glsl_rt.js:18-34` | a number just below half of the smallest half, whose only nearest single is that tie, misses the nearest half |
| `GlslHalf.TieAgainstEven` | `crates/script/js/35_glsl_rt.js:13-34` | half of the smallest half goes up to it, where IEEE 754 has zero |
| `GlslHalf.FromHalfIs` | `crates/script/js/35_glsl_rt.js:35-42` | the number of a half is its sign and its count of units, infinite for the pattern of infinity and no number beyond |
| `GlslHalf.ConversionIsRounding` | `crates/script/js/35_glsl_rt.js:18-34` | of singles: nothing is nearer, ties go away from zero, the order is kept, and a half that became a single comes back |
| `GlslHalf.NormalCase` | `crates/script/js/35_glsl_rt.js:32-33` | normal halves: carrying into the exponent included |
| `GlslHalf.SubnormalCase` | `crates/script/js/35_glsl_rt.js:26-31` | subnormal halves: bits shifted out do not matter |
| `GlslHalf.HugeCase` | `crates/script/js/35_glsl_rt.js:25` | from 65536 on nothing is nearer than infinity |
| `GlslHalf.TinyCase` | `crates/script/js/35_glsl_rt.js:27` | below 2^-25 nothing is nearer than zero |
| `GlslMinimal.ParseOfPrint` | `crates/script/js/33_glsl_front.js:375-470` | parsing the printed tree gives the tree back and consumes exactly its tokens, whatever follows that cannot continue an expression |
| `GlslMinimal.PrintOfParse` | `crates/script/js/33_glsl_front.js:375-470` | whatever the tokens parse to prints to tokens that parse to the same tree, and to no more of them than were consumed: only needed parentheses |
| `GlslMinimal.PrintInjective` | `crates/script/js/33_glsl_front.js:375-470` | different trees print differently |
| `GlslPrecedence.ChainParses` | `crates/script/js/33_glsl_front.js:430-443` | however many binary operators stand between names, they are grouped as the table of eleven rows says: the outermost is the last one of the loosest row, and so on in its operands |
| `GlslPrecedence.TwoOperators` | `crates/script/js/33_glsl_front.js:430-443` | of two operators the one of the tighter row takes its operands first, the left one within a row |
| `GlslPrecedence.PrefixThenBinary` | `crates/script/js/33_glsl_front.js:420-443` | a prefix operator takes the name next to it only |
| `GlslPrecedence.AssignmentsToTheRight` | `crates/script/js/33_glsl_front.js:455-465` | an assignment takes all operators before it and the next assignment on its right |
| `GlslPrecedence.OperatorsAfterAssignment` | `crates/script/js/33_glsl_front.js:455-465` | and all operators after it |
| `GlslPrecedence.ConditionalsToTheRight` | `crates/script/js/33_glsl_front.js:444-454` | a conditional takes all operators around it, and a second one is the last part of the first |
| `GlslRoundTrip.BinaryBack` | `crates/script/js/33_glsl_front.js:430-443` | left-associative operators of every level read back |
| `GlslRoundTrip.PostfixBack` | `crates/script/js/33_glsl_front.js:405-419` | chains of subscripts, fields and increments read back |
| `GlslRoundTrip.AssignmentBack` | `crates/script/js/33_glsl_front.js:444-465` | conditionals and assignments read back from the right |
| `GlslRoundTrip.ArgumentsBack` | `crates/script/js/33_glsl_front.js:397-404` | argument lists read back, `(void)` never being one that was printed |
| `GlslMinimal.PrintAppends` | `crates/script/js/33_glsl_front.js:375-470` | printing does not depend on what follows |
| `GlslMinimal.ConditionalShort` | `crates/script/js/33_glsl_front.js:444-454` | a conditional is never followed by an assignment operator, and printed it is no longer than it was |
| `GlslParser.Parser.Expression` | `crates/script/js/33_glsl_front.js:466-470` | the cursor moves as the grammar says, or the tokens are rejected; it ends on every token list |
| `GlslParser.Parser.Assignment` | `crates/script/js/33_glsl_front.js:455-465` | likewise for assignments |
| `GlslParser.Parser.ConditionalLevel` | `crates/script/js/33_glsl_front.js:444-454` | likewise for conditionals |
| `GlslParser.Parser.BinaryLevel` | `crates/script/js/33_glsl_front.js:431-443` | the loop of each level |
| `GlslParser.Parser.Unary` | `crates/script/js/33_glsl_front.js:420-429` | prefix operators |
| `GlslParser.Parser.Postfix` | `crates/script/js/33_glsl_front.js:405-419` | the loop over suffixes |
| `GlslParser.Parser.Primary` | `crates/script/js/33_glsl_front.js:375-396` | literals, names, constructors, calls and parentheses |
| `GlslParser.Parser.Args` | `crates/script/js/33_glsl_front.js:397-404` | the loop over arguments |
| `GlslPreprocess.Preprocess` | `crates/script/js/33_glsl_front.js:188-261` | the loop with its stack accepts exactly the well-nested sources and gives what their nested reading says |
| `GlslPreprocess.MachineIsMeaning` | `crates/script/js/33_glsl_front.js:188-261` | final stack, output, macros, version and failures agree with the nested reading |
| `GlslPreprocess.Machine.ReadLine` | `crates/script/js/33_glsl_front.js:191-257` | each directive, on the fields of the machine: what it changes, when it is refused and when it is passed over |
| `GlslPreprocess.FirstBranch` | `crates/script/js/33_glsl_front.js:217-219` | `#ifdef`, `#ifndef` and `#if` select their lines when the name is defined, is not defined, or the condition holds |
| `GlslPreprocess.RunReadsBlock` | `crates/script/js/33_glsl_front.js:188-261` | from any state the machine reads a block as nested and goes on after it |
| `GlslPreprocess.OneBranch` | `crates/script/js/33_glsl_front.js:217-237` | at most one branch of a group is read, exactly one if there is an `#else`, none of a group in a part that is not read |
| `GlslPreprocess.LineForLine` | `crates/script/js/33_glsl_front.js:188-259` | one line of output for every line |
| `GlslPreprocess.UnreadIsInertExactly` | `crates/script/js/33_glsl_front.js:197-207` | lines that are not selected have no effect in every environment just when no `#version` is among them |
| `GlslPreprocess.UnreadIsInertHere` | `crates/script/js/33_glsl_front.js:197-207` | in a given environment they have none just when there is no `#version` among them, or no code came before and all of them are accepted and leave what was set |
| `GlslPreprocess.UnreadDoes` | `crates/script/js/33_glsl_front.js:197-207` | where nothing is read, the `#version` lines are acted on in order, failures included, and nothing else has any effect |
| `GlslPreprocess.UnreadVersionFails` | `crates/script/js/33_glsl_front.js:197-207` | a `#version` in a part that is not read fails after code |
| `GlslPreprocess.RefusedForUnread` | `crates/script/js/33_glsl_front.js:197-207` | a source of four lines that is refused for a `#version` line no branch selects, and accepted with another line there |
| `GlslPreprocess.ReadBlock` | `crates/script/js/33_glsl_front.js:217-237` | the nested reading is a reading of exactly these lines |
| `GlslPreprocess.RunDepth` | `crates/script/js/33_glsl_front.js:217-237` | the depth of the stack depends on the lines only |
| `GlslComments.StripComments` | `crates/script/js/33_glsl_front.js:18-35` | the loops give the source with comments replaced |
| `GlslComments.LinesStay` | `crates/script/js/33_glsl_front.js:18-35` | no newline is added or lost |
| `GlslComments.NoneLeft` | `crates/script/js/33_glsl_front.js:18-35` | nothing that is left begins a comment |
| `GlslComments.StrippedTwice` | `crates/script/js/33_glsl_front.js:18-35` | stripping again changes nothing |
| `GlslComments.BlockCommentGoes` | `crates/script/js/33_glsl_front.js:18-35` | a block comment goes up to where it is first closed and leaves a space and its newlines |
| `GlslComments.OpenCommentGoes` | `crates/script/js/33_glsl_front.js:18-35` | one that is never closed takes all the rest |
| `GlslComments.LineCommentGoes` | `crates/script/js/33_glsl_front.js:18-35` | a line comment goes up to the end of its line, which stays |
| `GlslComments.OthersStay` | `crates/script/js/33_glsl_front.js:18-35` | any character that does not begin a comment stays |
| `Debouncer.NoLostSave` | `crates/netstack/src/core.rs:281-298` | in every interleaving, while changes keep coming: a change whose trigger returned is covered by every continuation in which a job starts, and until then a task is at work |
| `Debouncer.TaskAtWork` | `crates/netstack/src/core.rs:281-298` | a triggered change that is not covered has a task step that can be taken and brings it nearer to its job |
| `Debouncer.NeverFarther` | `crates/netstack/src/core.rs:281-298` | no step of any thread takes a change further from its job, every task step brings it nearer while it is two or three away, and a job that starts covers it |
| `Debouncer.CoveredByNextJob` | `crates/netstack/src/core.rs:281-298` | every run after the trigger in which a job starts has covered the change |
| `Debouncer.TwoStepsAway` | `crates/netstack/src/core.rs:281-298` | two task steps are enough to bring a change to where the next job covers it, however many other changes are triggered |
| `Debouncer.StartCovers` | `crates/netstack/src/core.rs:281-298` | a job that starts covers all changes made so far, those on their way to the flag included |
| `Debouncer.PendingIsOneTask` | `crates/netstack/src/core.rs:281-298` | the flag is set just while exactly one scheduled task has not cleared it |
| `Debouncer.OneTaskPerDelay` | `crates/netstack/src/core.rs:281-298` | from the start of a task until it has slept no other task is started |
| `Debouncer.OneJobPerTask` | `crates/netstack/src/core.rs:281-298` | every task sleeps, has cleared the flag or has started its one job |
| `Debouncer.InvStep` | `crates/netstack/src/core.rs:281-298` | every access to the flag keeps these |

## Left out

- XPath: tokens and parsing to the syntax tree, name and namespace matching (a test is a predicate on nodes), string functions and numbers (given by the context, rounding left open), resolvers and the result interface.
- XPath: the library sort is an insertion by the same comparison; the parallel arrays `stack` and `at` of `descend` are one stack of pairs; `Set` is membership in a sequence.
- Requests: WebSockets, cookies, progress callbacks, the callback thread pool, panics, and frames of responses over the size limit; the lock-protected maps are values of a step relation, not objects.
- Requests: weak memory orderings; every atomic access is taken as sequentially consistent.
- Ipc: sockets, timeouts and message encoding; a payload is any bytes, a write takes some number of bytes, and write errors are permanent.
- Debouncer: the length of the delay, what a job writes to disk, and the shutdown of the runtime.
- Frames: scroll clamping, metrics, titles and layout; sends succeed.
- DisplayList.RecordAll: an id stands for one blob together with its size and format; pictures in which two images share a blob and differ in the rest are left out.
- Display lists: bounds, and the drawing parameters that are copied as they are; a shape is one of these parameters there, and `Paths.RoundTrip` says what becomes of it.
- Paths: the outlines of rectangles, limits on radii included, are the geometry library's and a parameter.
- Session: tabs are values in a map the methods reassign; request bodies, timing, console, resizing and process handling; `doc_index` and `doc_seq` do not overflow; whether a renderer starts is a parameter.
- Session.Browser.Open: `doc_index` is not claimed to be unique within a document, because traversal resets only the target's.
- Events: handlers of `body` and `frameset` that are forwarded to the window, and events dispatched at the window with the document as their target.
- Events: activation behaviour of clicks, reporting of exceptions, shadow trees, `initEvent`, `AbortSignal.any` and timeouts, and argument checks; the path of a target does not change during a dispatch.
- EventTrace.QuietDispatch: the targets on the path are taken to be distinct, as a chain of parents is.
- GLSL: rounding of floating-point numbers, declarations and statements, line numbers of tokens and errors, macro expansion and the arithmetic of conditions (parameters that may fail), the forms of directives (already read).
- GlslInverse.InverseOf: infinite and not-a-number entries of the answer for singular matrices are one value, `NoInverse`.
- GlslHalf.ToHalf: bit operations are quotients and remainders of the same numbers; which single a number is stored as is a parameter that is nearest, ties either way.
- The HTTP pipeline, TLS, headers, cookies and disk, layout, painting, the script engine, input, headless mode, installer, updater and tables: calls into code that is not part of this model.
