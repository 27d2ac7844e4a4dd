# Verification of the core algorithms

A Dafny model of the parts of the repository that carry real algorithms, with proofs about all inputs and all runs.
Run `dafny verify dfyconfig.toml` to check it.

**XTLS Vision** (`xray-core/proxy/proxy.go`). A writer wraps one direction of a proxied connection in blocks of
command, lengths, content and padding, until it recognises TLS 1.3 and may switch to raw copy; a reader takes the
blocks apart with a small counter machine and derives the switch from its counters. `bytes`, `buf` and
`vision_state` hold the data; `vision_records` and `vision_filter` recognise TLS, and `vision_hello` says what they make
of the bytes of a hello; `vision_frame`, `vision_plan`, `vision_runs` and `vision_writer` are the writer, and
`vision_endings` says on the bytes when it ends padding; `vision_unpadding`, `vision_blocks`, `vision_reads` and
`vision_reader` the reader; `vision_roundtrip` and `vision_end_to_end` put both together, and `vision_sessions` ties that
to the calls of a writer and a reader object.

**Vue's runtime** (`web/assets/vue@2.6.12/vue.common.dev.js`). The two-ended keyed child diff (`vdom_*`, with the
reuse that it plans on values in `vdom_match`), the watcher queue that is edited while it is drained (`scheduler`), the
double-buffered dependency graph (`dep_graph`), child normalisation (`normalize_children`), and the two open-tag stacks
of the template compiler (`tag_stack`, `tag_roundtrip`, `tag_omitted`).

**Feature resolution** (`xray-core/core/xray.go`): callbacks that wait for features and may themselves require and add
some (`features`); the order of the calls does not matter (`feature_order`).

**The managed configuration** (`web/service`): rows, the compiler to a first-match routing table and an outbound list,
the services that change the tables in transactions, what each accepted change comes to by the columns
(`managed_changes`), and whole runs of changes (`managed_*`).

`common` holds what several of them use.

Loops and objects that the program updates in place are methods and classes here, each proved against a function on
values; the properties are lemmas about those functions and over whole runs.

Where the program does not do what one would expect, the model follows it and says exactly when:

- The reader leaves padding mode too early when a read ends inside the header of the terminal block, behind its command
  byte and before a length byte that is not zero (`VisionReads.EarlyCut`). Behind a Direct command the rest of the
  framing always reaches the application; behind an End it does unless the next read still filters, which puts the
  reader right again. And while it filters, a buffer past the end that starts with the user id opens a second parse and
  loses bytes (`VisionRoundTrip.OutputExact`).
- Seeds outside `VisionFrame.SafeSeeds` can make the padding length negative or the random draw impossible.
- A TLS session id of more than 32 bytes can point the cipher lookup behind the bytes that were checked.
- A vnode key that is the name of a property every object inherits, such as `constructor`, makes `updateChildren` read
  an inherited member instead of an index, unless an old vnode has that key too; the key `__proto__` does so even then
  (`VdomState.SafeKey`). Once some old vnode is the same as no new one, the call fails over any such key
  (`VdomMatch.FailsExactly`).
- A node is created although an old vnode that is the same is left over, if one of them is the placeholder of an
  asynchronous component and neither has a key (`VdomMatch.PlaceholderMissed`), and in no other case.
- A watcher torn down while it is being evaluated stays subscribed to the deps it has collected anew.
- A watcher evaluated inside its own evaluation loses what it had collected, unless it touches that again afterwards
  (`DepGraph.NothingLost`).
- A feature that does not implement the type it declares makes callbacks that ask for that type panic, unless another
  feature implements it (`Features.SafeExactly`).
- A callback is called with the first feature that can be assigned to a parameter, which need not be the one that was
  found under its declared type.
- `AddOutbound` stores a disabled outbound as enabled; `UpdateOutbound` does not look for rules that name the old tag;
  disabling an outbound leaves enabled rules that name it; and `commitManagedChange` can return an error after it has
  committed.

## Model

| member | source | states |
|---|---|---|
| `VisionFrame.SafeSeedsExact` | xray-core/proxy/proxy.go:502-519 | the padding length is drawable and non-negative for every content that fits if and only if the four seeds pass a test on them alone; any other seeds can make the writer panic |
| `VisionFrame.DefaultSeedsSafe` | xray-core/proxy/proxy.go:307-309 | the built-in seeds pass that test |
| `VisionFrame.DefaultPadding` | xray-core/proxy/proxy.go:307-519 | with the built-in seeds, long padding brings content of less than 900 bytes to any length from 900 to 1399, and any other padding is any length below 256 that fits |
| `VisionFrame.UnsafeSeedsFail` | xray-core/proxy/proxy.go:502-519 | for seeds that fail the test it names a content length and mode for which a draw is impossible or goes negative |
| `VisionFrame.XtlsPadding` | xray-core/proxy/proxy.go:496-532 | for any seeds: it panics exactly if the draw, within the range that the seeds give, is impossible or the padding length it gives is below zero; otherwise the new buffer spells the user id still owed and one frame with the given command and content and that padding length, both lengths in 16 bits, all within one buffer |
| `VisionFrame.FrameLayout` | xray-core/proxy/proxy.go:520-531 | a frame on the wire: command, content length and padding length with their high bytes first, the content, zeros |
| `VisionFrame.ReshapeKeeps` | xray-core/proxy/proxy.go:461-493 | cutting keeps the byte stream and leaves pieces of at most one buffer less 21 bytes |
| `VisionFrame.CutsAtRecord` | xray-core/proxy/proxy.go:476-487 | a piece of 8171 bytes or more is cut before its last record header if that lies at 21 to 8171, and behind 4096 bytes otherwise |
| `VisionFrame.ReshapeMultiBuffer` | xray-core/proxy/proxy.go:461-493 | the loop over buffers computes that cut |
| `VisionRecords.CompleteIffRecords` | xray-core/proxy/proxy.go:407-458 | the record test accepts exactly the concatenations of application-data records with non-zero length (section 5.2 of RFC 8446) |
| `VisionRecords.DecompositionUnique` | xray-core/proxy/proxy.go:407-458 | bytes are a run of such records in at most one way |
| `VisionRecords.CompletePrefix` | xray-core/proxy/proxy.go:407-458 | the accepted set is closed under concatenation, and a complete prefix can be dropped |
| `VisionRecords.ScanRecords` | xray-core/proxy/proxy.go:412-457 | the countdown loop decides that test |
| `VisionRecords.IsCompleteRecord` | xray-core/proxy/proxy.go:407-458 | true if and only if the joined buffers are such a run |
| `VisionFilter.FilterRunKeeps` | xray-core/proxy/proxy.go:619-670 | over all calls on one connection: XTLS enabled implies a listed TLS 1.3 cipher other than CCM_8 and TLS 1.2 or above, which implies TLS; facts only accumulate; an exhausted packet budget freezes all of them |
| `VisionFilter.FilterKeeps` | xray-core/proxy/proxy.go:619-670 | one call keeps these facts |
| `VisionFilter.FilterFromStart` | xray-core/proxy/proxy.go:142-150 | so they hold in every state a connection reaches from its start |
| `VisionFilter.FilterReadsWindows` | xray-core/proxy/proxy.go:625-634 | with session ids of at most 32 bytes (section 4.1.3 of RFC 8446) the cipher is read inside the bytes checked, so the answer depends on the data alone |
| `VisionFilter.LongSessionIdReadsStale` | xray-core/proxy/proxy.go:631-634 | with a longer session id that reaches out of the window the answer depends on bytes behind it |
| `VisionFilter.XtlsFilterTls` | xray-core/proxy/proxy.go:619-670 | the loop on buffers and traffic state computes the filter function, including its panic; what that function makes of the bytes of a hello is `VisionHello.HelloInRun` |
| `VisionFilter.FilterWhileActive` | xray-core/proxy/proxy.go:255-257 | both callers filter only while packets are left |
| `VisionHello.ServerHelloDecides` | xray-core/proxy/proxy.go:624-660 | on the bytes of one buffer that starts with a server hello: which suite is remembered, that XTLS is enabled exactly if the extension selecting TLS 1.3 lies inside the announced record and the suite is one of 0x1301 to 0x1304, and when the search ends |
| `VisionHello.HelloInRun` | xray-core/proxy/proxy.go:619-670 | the same for a server hello spread over buffers and over calls in any way, as long as the budget lasts |
| `VisionHello.NoHelloInCall` | xray-core/proxy/proxy.go:640-643 | buffers without a server hello use up the budget and nothing else, except that a client hello says that there is TLS |
| `VisionUnpadding.Step` | xray-core/proxy/proxy.go:559-612 | every byte keeps the counters at all -1, inside a header with 1 to 5 bytes to come, or inside a body with content or padding to come |
| `VisionUnpadding.Unpad` | xray-core/proxy/proxy.go:535-616 | so does every chunk, and output never exceeds input |
| `VisionUnpadding.FeedSplit` | xray-core/proxy/proxy.go:535-616 | cutting the input anywhere changes neither output nor state |
| `VisionUnpadding.FeedContent` | xray-core/proxy/proxy.go:580-590 | the bulk copy of content does what the byte machine does |
| `VisionUnpadding.FeedPadding` | xray-core/proxy/proxy.go:591-598 | and so does skipping padding |
| `VisionUnpadding.XtlsUnpadding` | xray-core/proxy/proxy.go:535-616 | the loop on buffers computes the byte machine and consumes at least a byte an iteration |
| `VisionBlocks.FeedFrame` | xray-core/proxy/proxy.go:559-612 | a whole frame gives back its content and readies the parser for the next header or ends the parse |
| `VisionBlocks.FeedFrames` | xray-core/proxy/proxy.go:535-616 | a grammatical block stream gives back its contents and ends the parse exactly after a terminal block |
| `VisionBlocks.OpensExactly` | xray-core/proxy/proxy.go:535-545 | outside a parse a buffer comes back as it is, unless it has 21 bytes and starts with the user id |
| `VisionBlocks.EndsAtTheEnd` | xray-core/proxy/proxy.go:599-611 | a prefix of a block stream ends the parse if and only if it is all of it and terminated |
| `VisionBlocks.UnpaddingRoundTrip` | xray-core/proxy/proxy.go:535-616 | the stream of any grammatical blocks and tail, cut into any chunks of which the first has 21 bytes, unpads to contents and tail if and only if no chunk at or after the end opens another parse; then a prefix unpads to a prefix |
| `VisionBlocks.UnpadsReopened` | xray-core/proxy/proxy.go:535-616 | a chunk past the end that opens another parse costs at least the sixteen bytes taken for a user id |
| `VisionPlan.PlanSplits` | xray-core/proxy/proxy.go:356-394 | the padding loop emits Continue blocks and then, exactly if padding ends, one End or Direct, Direct exactly if the direct-copy flag is set; bytes after the terminal block only after End |
| `VisionRuns.PaddedWrite` | xray-core/proxy/proxy.go:322-404 | one write in padding mode carries exactly its input as such blocks and tail, behind the user id if it is still owed |
| `VisionRuns.AfterPadding` | xray-core/proxy/proxy.go:334-347 | once padding is over writes pass through unchanged, on the raw connection if direct copy was asked for |
| `VisionRuns.WriterGrammar` | xray-core/proxy/proxy.go:322-404 | every run of writes puts out the user id once, a grammatical block stream and a tail that carry exactly what was written; padding is over exactly if a terminal block was sent; after Direct everything goes to the raw connection |
| `VisionEndings.PaddingEnds` | xray-core/proxy/proxy.go:356-384 | after a write in padding mode, padding is over if and only if there is TLS, the buffers joined are whole application-data records and a piece of six bytes or more starts one, or no TLS 1.2 was seen and at most one packet is left; direct copy is asked for in the first case alone, exactly if XTLS is enabled |
| `VisionEndings.PieceBecomes` | xray-core/proxy/proxy.go:360-393 | what becomes of every piece of a write: left alone behind an early end, or framed with which command and which mode of padding |
| `VisionEndings.GoesDirect` | xray-core/proxy/proxy.go:322-670 | a server hello that selects TLS 1.3 with one of the suites, in whatever buffers and calls, and then a write of whole application-data records: padding ends and direct copy is asked for |
| `VisionWriting.VisionWriter.PadOne` | xray-core/proxy/proxy.go:356-390 | one iteration of the padding loop acts as planned and fills one buffer; it panics only if a draw for this buffer, in the mode planned for it, can |
| `VisionWriting.VisionWriter.WriteMultiBuffer` | xray-core/proxy/proxy.go:322-404 | for any seeds the method on buffers and traffic state makes a write that the run model allows, and ends padding and asks for direct copy exactly as `VisionEndings.PaddingEnds` says on the bytes; it panics only where the filter does, or where a draw for one of the pieces that are to be padded is impossible or can go below zero; for seeds that pass the test it panics exactly where the filter does |
| `VisionWriting.EmittedIsEvent` | xray-core/proxy/proxy.go:322-404 | the contract of one call is what the run model asks of a write |
| `VisionSessions.WriteAll` | xray-core/proxy/proxy.go:322-404 | any calls of the method on one writer object, with any buffers and seeds, are a run of the model that ends in the object's state, and their output is what the run sends on either connection; if they stop, the filter panics on the first call not made or a draw for one of its padded pieces can; for seeds that pass the test they stop exactly where the filter panics |
| `VisionReads.StaysExactly` | xray-core/proxy/proxy.go:244-254 | the reader's counter test keeps it in padding mode exactly until the terminal block is consumed, except when a read ends inside that block's header while its lengths still look like zero |
| `VisionReads.ReadKeepsStep` | xray-core/proxy/proxy.go:203-285 | one read that opens no second parse keeps the reader in step with the writer if and only if it does not end at such a cut |
| `VisionReads.ReadsFollow` | xray-core/proxy/proxy.go:203-285 | a run of reads without such cuts and second parses stays in step and hands on what the byte machine gives |
| `VisionReading.VisionReader.ReadMultiBuffer` | xray-core/proxy/proxy.go:203-285 | the method on buffers and traffic state computes the read step, filters what it hands on, and delivers what the replaced connection held exactly once |
| `VisionSessions.ReadEach` | xray-core/proxy/proxy.go:203-285 | any calls of the method on one reader object are a run of the read steps; it filters once and for all, stops exactly at the first read whose filter panics on what is handed on, and what the replaced connection held is delivered exactly once |
| `VisionRoundTrip.ReaderAgrees` | xray-core/proxy/proxy.go:235-254 | for any clean cut into reads and buffers the reader is in padding mode until exactly the last byte of the terminal block, goes direct exactly on Direct, and hands on what was written |
| `VisionRoundTrip.EarlyCutCorrupts` | xray-core/proxy/proxy.go:244-254 | without that condition the output differs from what was written: always behind a Direct block, behind an End block unless the next read still filters |
| `VisionRoundTrip.EarlyCutExample` | xray-core/proxy/proxy.go:244-254 | a concrete stream and cut for which it does |
| `VisionRoundTrip.OutputExact` | xray-core/proxy/proxy.go:203-285 | for a whole stream in any reads of which the first buffer holds user id and header and none filters after one that does not, the output is what was written if and only if every read that starts at such a cut still filters and the block is an End, and no buffer past the end opens another parse in a read that still unpads |
| `VisionRoundTrip.ShortFirst` | xray-core/proxy/proxy.go:535-545 | while no buffer opens the parse, everything is handed on as it came: a stream whose first buffer is too short reaches the application with user id and framing unless a later buffer opens it |
| `VisionEndToEnd.EndToEnd` | xray-core/proxy/proxy.go:203-404 | the wire of any run of writes is one stream of blocks and tail, and with the raw connection it carries what was written; read in any clean cut, output and raw connection together are what was written and reader and writer agree on modes; read in any cut, they are so exactly under that condition |
| `VdomState.MatchKeeps` | web/assets/vue@2.6.12/vue.common.dev.js:6178-6227 | using an old vnode for a new one keeps the books: each old vnode is used at most once and only for one it is the same as |
| `VdomState.FindFails` | web/assets/vue@2.6.12/vue.common.dev.js:6203-6206 | a key lookup gives an inherited member of the table object if and only if the name is one and no old vnode owns it |
| `VdomSteps.HeadToTail` | web/assets/vue@2.6.12/vue.common.dev.js:6191-6195 | moving the old head behind the old tail gives the order of the new list |
| `VdomSteps.TailToHead` | web/assets/vue@2.6.12/vue.common.dev.js:6196-6200 | moving the old tail before the old head gives the order of the new list |
| `VdomSteps.Pull` | web/assets/vue@2.6.12/vue.common.dev.js:6209-6213 | pulling an old vnode out of the window leaves a hole and gives the order of the new list |
| `VdomSteps.Make` | web/assets/vue@2.6.12/vue.common.dev.js:6206-6217 | a created node before the old head gives the order of the new list |
| `VdomDiff.Diff.CreateKeyToOldIdx` | web/assets/vue@2.6.12/vue.common.dev.js:5831-5839 | the key table covers every unused keyed old vnode and points nowhere else |
| `VdomDiff.Diff.FindIdxInOld` | web/assets/vue@2.6.12/vue.common.dev.js:6248-6253 | gives the first old vnode of the window that is still unused and that the new one is the same as, or none if there is none |
| `VdomDiff.Diff.Iterate` | web/assets/vue@2.6.12/vue.common.dev.js:6179-6220 | one iteration keeps the invariant, narrows the windows, uses or creates what the reuse plan says, and fails if and only if the key lookup it reaches gives an inherited member |
| `VdomDiff.Diff.Walk` | web/assets/vue@2.6.12/vue.common.dev.js:6178-6221 | the loop ends with one window empty and the reuse of the whole plan, or fails exactly where the plan does |
| `VdomDiff.UpdateChildren` | web/assets/vue@2.6.12/vue.common.dev.js:6158-6228 | for lists with unique keys the call fails exactly where the plan does, and otherwise reuses exactly what the plan does: every new vnode has a node, of one old vnode that is the same or new if a keyed one had no counterpart, and the DOM children are these nodes; pairs agree on the fields as in `VdomDiff.Pairs` and `VdomDiff.Wasted`; it fails only over an unsafe key, and over any of them whenever some old vnode is the same as no new one and none is reused under the key `__proto__` |
| `VdomMatch.RunKeeps` | web/assets/vue@2.6.12/vue.common.dev.js:6178-6221 | the plan uses each old vnode at most once and only for a new one that is the same, and fails only over an unsafe key |
| `VdomMatch.FailsExactly` | web/assets/vue@2.6.12/vue.common.dev.js:6203-6210 | a whole call fails only over a key that names an inherited property, and over any such key whenever some old vnode is the same as no new one and none is reused under the key `__proto__` |
| `VdomMatch.Maximal` | web/assets/vue@2.6.12/vue.common.dev.js:6248-6253 | nothing is created in vain: no old vnode left over is the same as a new one for which a node was created, unless neither has a key and one of them is the placeholder of an asynchronous component |
| `VdomMatch.PlaceholderMissed` | web/assets/vue@2.6.12/vue.common.dev.js:5806-5820 | a concrete pair of lists in which such a placeholder is left over and a node is created instead |
| `VdomDiff.ChildrenInOrder` | web/assets/vue@2.6.12/vue.common.dev.js:6158-6228 | child i of the element is the node of new vnode i |
| `VdomDiff.CounterpartReused` | web/assets/vue@2.6.12/vue.common.dev.js:6178-6228 | a keyed new vnode with an old counterpart stands for that counterpart's node |
| `VdomDiff.Pairs` | web/assets/vue@2.6.12/vue.common.dev.js:5806-5828 | on the fields of the vnodes: a reused pair has one key, and unless the old one is the placeholder of the same component that has not failed, one tag, comment flag and data flag, and inputs have one type or two of the seven text types; and a keyed vnode with an old one that agrees so stands for its node |
| `VdomDiff.Wasted` | web/assets/vue@2.6.12/vue.common.dev.js:5806-5828 | and nothing that agrees so is left over for a node that was created, but for placeholders without keys |
| `VdomDiff.InheritedKeyCrashes` | web/assets/vue@2.6.12/vue.common.dev.js:6203-6210 | for each of the twelve inherited names, `constructor` for one, a pair of lists with that key for which the call fails |
| `VdomDiff.RemoveVnodes` | web/assets/vue@2.6.12/vue.common.dev.js:6115-6127 | removing the rest of the old window leaves exactly the nodes of the new vnodes |
| `Scheduler.PendingRuns` | web/assets/vue@2.6.12/vue.common.dev.js:4283-4323 | a flush that drains its queue has run every watcher queued at its start |
| `Scheduler.QueuedRuns` | web/assets/vue@2.6.12/vue.common.dev.js:4283-4323 | and every watcher queued on the way, in a later turn |
| `Scheduler.QuietFlush` | web/assets/vue@2.6.12/vue.common.dev.js:4283-4323 | while nothing is queued each pending watcher runs once, in ascending order of ids |
| `Scheduler.OutOfOrderQueued` | web/assets/vue@2.6.12/vue.common.dev.js:4283-4323 | in any flush, a watcher runs behind one of a larger id only if it was queued in that turn or since |
| `Scheduler.LimitMeansManyRuns` | web/assets/vue@2.6.12/vue.common.dev.js:4309-4322 | the circular-update limit strikes only at a watcher that has run more than a hundred times in this flush and is queued again |
| `Scheduler.LimitExact` | web/assets/vue@2.6.12/vue.common.dev.js:4309-4322 | the limit strikes exactly when a watcher has been queued by its own run for the hundred and first time |
| `Scheduler.SortedKeeps` | web/assets/vue@2.6.12/vue.common.dev.js:4288-4296 | sorting a queue without duplicates makes it strictly ascending and loses nothing |
| `Scheduler.SpliceQueue` | web/assets/vue@2.6.12/vue.common.dev.js:4381-4388 | the splice keeps the queue behind the index strictly ascending and marked exactly |
| `Scheduler.Scheduler.QueueWatcher` | web/assets/vue@2.6.12/vue.common.dev.js:4376-4402 | a watcher is queued unless it is marked, behind the index by id during a flush, and a flush is asked for exactly when none is waiting |
| `Scheduler.Scheduler.RunOne` | web/assets/vue@2.6.12/vue.common.dev.js:4300-4323 | one turn runs the least marked id, with whatever user code queues before and during it |
| `Scheduler.Scheduler.Flush` | web/assets/vue@2.6.12/vue.common.dev.js:4283-4340 | the queue that is spliced while it is drained runs the same watchers in the same order and ends the same way as a set that always gives up its least id |
| `DepGraph.Watcher.CleanupDeps` | web/assets/vue@2.6.12/vue.common.dev.js:4510-4526 | the loop drops the watcher from the deps that were not collected again, and swaps and clears the buffers |
| `DepGraph.Runtime.Touch` | web/assets/vue@2.6.12/vue.common.dev.js:725-729 | `depend` adds the dep to the target's new buffer once, changes no other buffer, and keeps the graph consistent |
| `DepGraph.Runtime.Depend` | web/assets/vue@2.6.12/vue.common.dev.js:4586-4591 | the target takes over the watcher's deps, last first |
| `DepGraph.Runtime.Cleanup` | web/assets/vue@2.6.12/vue.common.dev.js:4510-4526 | swapping the buffers keeps the graph consistent |
| `DepGraph.Runtime.Teardown` | web/assets/vue@2.6.12/vue.common.dev.js:4596-4610 | afterwards the watcher subscribes exactly to deps that it has collected anew in an evaluation under way |
| `DepGraph.Runtime.TeardownComplete` | web/assets/vue@2.6.12/vue.common.dev.js:4596-4610 | which is none if and only if the new ids are among the old |
| `DepGraph.TeardownExample` | web/assets/vue@2.6.12/vue.common.dev.js:4596-4610 | a watcher torn down in its first evaluation, with one dep touched, stays subscribed to it |
| `DepGraph.Runtime.BetweenEvaluations` | web/assets/vue@2.6.12/vue.common.dev.js:4510-4526 | between evaluations an active watcher is in the subscribers of a dep once if it depends on it and not at all otherwise, its ids are those of its deps, and its new buffer is empty |
| `DepGraph.Runtime.Notify` | web/assets/vue@2.6.12/vue.common.dev.js:731-743 | reaches exactly the watchers that depend on the dep, once each |
| `DepGraph.AddAllKeeps` | web/assets/vue@2.6.12/vue.common.dev.js:4496-4505 | what a watcher collects are exactly the deps touched, each once |
| `DepGraph.AddAllInOrder` | web/assets/vue@2.6.12/vue.common.dev.js:4496-4505 | and in the order in which they are first touched |
| `DepGraph.Runtime.Get` | web/assets/vue@2.6.12/vue.common.dev.js:4469-4491 | for any nesting of evaluations, re-entry included, the graph stays consistent and the buffers of all watchers are those of a model with one pair of lists each; without re-entry the dependencies of every watcher are what its last evaluation touched, in order and once each |
| `DepGraph.DepsAfter` | web/assets/vue@2.6.12/vue.common.dev.js:4469-4526 | after any evaluation a watcher depends on what its getter touched since the watcher was last evaluated again inside it, in order and once each; what it had collected before comes first if it never was |
| `DepGraph.NothingLost` | web/assets/vue@2.6.12/vue.common.dev.js:4469-4526 | for any getter: a watcher depends on everything its getter touched if and only if what was touched before it was last evaluated again inside is touched again afterwards |
| `DepGraph.ReentryExample` | web/assets/vue@2.6.12/vue.common.dev.js:4469-4526 | a getter that touches a dep and then evaluates its own watcher: the dep was touched and is no dependency afterwards |
| `DepGraph.WithoutReentry` | web/assets/vue@2.6.12/vue.common.dev.js:4469-4526 | where no watcher is evaluated inside its own evaluation, the buffers come to the deps touched on behalf of each |
| `DepGraph.Runtime.Exec` | web/assets/vue@2.6.12/vue.common.dev.js:751-759 | the same buffers for any user code under any target |
| `NormalizeChildren.FoldJoin` | web/assets/vue@2.6.12/vue.common.dev.js:2381-2390 | normalising a nested array and joining it is the same as going on piece by piece |
| `NormalizeChildren.FoldIsMerge` | web/assets/vue@2.6.12/vue.common.dev.js:2372-2418 | piece by piece comes to the same as replacing every run of text by one vnode |
| `NormalizeChildren.MergeIsNormal` | web/assets/vue@2.6.12/vue.common.dev.js:2372-2418 | no two adjacent text vnodes, no primitives left, and the same spelling: other vnodes in order and between them the concatenation of the text |
| `NormalizeChildren.TextBetween` | web/assets/vue@2.6.12/vue.common.dev.js:2379-2411 | between two other vnodes there is one text vnode that spells what stood there, and none exactly if only empty primitives stood there |
| `NormalizeChildren.FlatGives` | web/assets/vue@2.6.12/vue.common.dev.js:2376-2392 | the flattened children are the primitives and vnodes that lie anywhere in the nested arrays; null, undefined and booleans give nothing |
| `NormalizeChildren.ListedAre` | web/assets/vue@2.6.12/vue.common.dev.js:2404-2411 | the vnodes that get keys are those with a tag in a nested array of the kind that asks for keys |
| `NormalizeChildren.NormalizeArrayChildren` | web/assets/vue@2.6.12/vue.common.dev.js:2372-2418 | the loop on any nesting gives the flattened children with every run of text merged, and generated keys that spell the places of their vnodes |
| `NormalizeChildren.Normalize` | web/assets/vue@2.6.12/vue.common.dev.js:2360-2366 | and the top call; vnodes in keyed nested arrays all have keys afterwards, and no two generated ones are the same string |
| `NormalizeChildren.RenderInjective` | web/assets/vue@2.6.12/vue.common.dev.js:2372-2411 | the strings `__vlist_i_j__` of different places differ |
| `TagStack.PrintEnd` | web/assets/vue@2.6.12/vue.common.dev.js:9810-9819 | closing the innermost element adds its callback to those of the tree |
| `TagStack.Consumer.Start` | web/assets/vue@2.6.12/vue.common.dev.js:9723-9803 | the callbacks so far stay those of the closed and open elements |
| `TagStack.Consumer.End` | web/assets/vue@2.6.12/vue.common.dev.js:9810-9819 | called only for the innermost open element, of that tag |
| `TagStack.Parser.CloseFrom` | web/assets/vue@2.6.12/vue.common.dev.js:9501-9519 | closes the open elements down to a depth, on both stacks |
| `TagStack.Parser.FindClosest` | web/assets/vue@2.6.12/vue.common.dev.js:9489-9495 | the loop finds the closest open element of the name |
| `TagStack.EndTagReads` | web/assets/vue@2.6.12/vue.common.dev.js:9483-9532 | on open elements and callbacks: an end tag ends the innermost element of its name in any case, and before it all inside it, innermost first; for no element a br or a p becomes one of its own, and any other is ignored |
| `TagStack.StartTagReads` | web/assets/vue@2.6.12/vue.common.dev.js:9440-9481 | on open elements and callbacks: a start tag ends an innermost p that cannot hold it, then an innermost left-open element of its name, and no other, and starts its element |
| `TagStack.Parser.ParseEndTag` | web/assets/vue@2.6.12/vue.common.dev.js:9483-9532 | closes down to the closest match, or makes an element of an unmatched br or p, or does nothing, with the callbacks of `TagStack.EndTagReads`; the stacks agree afterwards |
| `TagStack.Parser.HandleStartTag` | web/assets/vue@2.6.12/vue.common.dev.js:9440-9481 | first ends a p that cannot hold the element and an element left open before one of the same name, with the callbacks of `TagStack.StartTagReads`; the stacks agree afterwards |
| `TagStack.Parser.ParseHtml` | web/assets/vue@2.6.12/vue.common.dev.js:9282-9533 | for every token sequence both stacks end empty, the callbacks are those of a forest, and in HTML mode no element stands directly in a p that cannot hold it nor a left-open one directly in one of the same name |
| `TagRoundTrip.ForestReadsBack` | web/assets/vue@2.6.12/vue.common.dev.js:9440-9532 | a forest whose elements may all stand where they are is read as it was written |
| `TagRoundTrip.ForestDiffers` | web/assets/vue@2.6.12/vue.common.dev.js:9440-9532 | any other makes a callback that the forest does not have |
| `TagRoundTrip.RoundTrip` | web/assets/vue@2.6.12/vue.common.dev.js:9282-9533 | a template that spells a forest out is read as that forest if and only if every element may stand in its parent and none with an end tag has the name of one without |
| `TagOmitted.OmittedRoundTrip` | web/assets/vue@2.6.12/vue.common.dev.js:9440-9532 | with end tags left out where the parent or the template ends or where the next start tag implies them, a template is still read as the forest that was meant, if no end tag finds an element of its name still open inside |
| `TagOmitted.ClashExample` | web/assets/vue@2.6.12/vue.common.dev.js:9489-9519 | a template in which one does, and what follows stands in the wrong place |
| `Features.GivenWhatWasFound` | xray-core/core/xray.go:38-66 | a callback is given the feature found by its declared type if and only if that one can be assigned to the parameter and no earlier feature can |
| `Features.GivenAnother` | xray-core/core/xray.go:38-66 | two features that implement what they declare, and a parameter that is given the other one |
| `Features.SafeExactly` | xray-core/core/xray.go:47-66 | callbacks that are ready are always given all their arguments if and only if some feature implements every declared type |
| `Features.Conserved` | xray-core/core/xray.go:279-373 | in every history each request is pending, on its way or called, exactly as often as it was made |
| `Features.AlwaysSorted` | xray-core/core/xray.go:279-373 | exactly the pending requests miss a feature, each in the list of its kind |
| `Features.RequiredFirst` | xray-core/core/xray.go:325-365 | what a feature releases has its types now, required before optional |
| `Features.Settled` | xray-core/core/xray.go:279-373 | once nothing is on its way a request was called as often as it was made if its types are registered, and is pending as often otherwise |
| `Features.OrderIndependent` | xray-core/core/xray.go:279-373 | so what was called depends on requests and types only, not on their order |
| `FeatureOrder.Confluent` | xray-core/core/xray.go:279-373 | confluence: the same top-level calls in any two orders end with the same types, and with every request made, called and kept pending as often, whatever the callbacks themselves require and add |
| `FeatureOrder.BothOrders` | xray-core/core/xray.go:279-373 | two instances set up by the same calls in different orders; neither panics if all features implement what they declare, and then both pass or both fail the check for pending requests |
| `Features.NonePending` | xray-core/core/xray.go:235-240 | no required request is pending if and only if all of them have their types |
| `Features.Instance.CallbackResolution` | xray-core/core/xray.go:47-86 | panics at once if an argument is missing, else calls the next callback with one argument a parameter, whatever the callback itself requires or adds; it never panics if all features implement what they declare |
| `Features.Instance.RequireFeatures` | xray-core/core/xray.go:279-316 | calls at once if all types are there and returns that error, else keeps the request pending; panics if it calls without an argument |
| `Features.Instance.Register` | xray-core/core/xray.go:325-365 | the two loops release exactly what has become ready, required before optional |
| `Features.Instance.AddFeature` | xray-core/core/xray.go:319-373 | any feature: releases and calls each request that became ready once, returning the last error; a panic means that an argument of the callback then next is missing, and cannot happen if features implement what they declare; while running nothing changes |
| `Features.Instance.Exec` | xray-core/core/xray.go:279-373 | any list of calls, those of the callbacks they set off included, takes every step that is listed or due to a callback that was called exactly once, and none before something brought it about |
| `Features.PanicExample` | xray-core/core/xray.go:47-66 | a feature that does not implement the type it declares, and the callback that panics for it |
| `Features.Instance.AllResolved` | xray-core/core/xray.go:235-240 | the check of the nil slice passes if and only if every required request has its types |
| `ManagedRows.FirstInOrdered` | web/service/routing.go:31-41 | reading rows by sort and id finds the least row of any kind first |
| `ManagedRows.TrimExact` | web/service/xray.go:377-383 | trimming takes off the blank ends and nothing else |
| `ManagedConfig.BuildManagedRouting` | web/service/xray.go:270-316 | the api rule and then the rules of the enabled rows in order, or an error if one cannot be read; what they take is `ManagedConfig.CompiledTakes` |
| `ManagedConfig.CompiledTakes` | web/service/xray.go:346-411 | the rule of an enabled row takes a connection exactly if each of the seven columns is blank, holds the empty list, or is met by the connection; for the inbound column that is its non-empty tag in the list |
| `ManagedConfig.RulesCompile` | web/service/xray.go:346-411 | the rules compile exactly if the five list columns of every enabled row are blank or can be decoded |
| `ManagedConfig.SpliceKeeps` | web/service/xray.go:495-503 | a rule spliced in at index 1 takes what applies to it and not to the first rule, and changes no other decision |
| `ManagedConfig.Decides` | web/service/xray.go:270-511 | the table sends api connections to api, those of enabled dokodemo and tunnel inbounds to dokodemo-freedom, and all others to the outbound of the least enabled row by sort and id that takes them by its columns |
| `ManagedOutbounds.BuildManagedOutbounds` | web/service/xray.go:198-263 | the loops over rows build that list or fail with the first row that cannot be read |
| `ManagedOutbounds.OutboundList` | web/service/xray.go:198-263 | tags are distinct, direct first and blocked second whatever their rows say, then what is enabled; dokodemo-freedom exactly if an enabled inbound needs it |
| `ManagedOutbounds.BuildsExactly` | web/service/xray.go:318-395 | an outbound is built exactly if its three object columns can be read, and has the columns of its row |
| `ManagedOutbounds.XrayConfig.EnsureTaggedFreedomOutbound` | web/service/xray.go:513-540 | adds the freedom outbound unless one of its tag is there |
| `ManagedOutbounds.XrayConfig.EnsureManagedDokodemoTunnelRouting` | web/service/xray.go:463-511 | adds outbound and rule for the enabled dokodemo and tunnel inbounds, if any |
| `ManagedOutbounds.XrayConfig.BuildManaged` | web/service/xray.go:150-192 | the configuration as a whole |
| `ManagedTables.RewriteKeeps` | web/service/outbound.go:155-229 | a rewritten row keeps the tables in order, and the references if and only if its tag stays or no rule names it |
| `ManagedTables.ReorderOnlySorts` | web/service/routing.go:195-216 | reordering fails exactly on an unknown id and otherwise changes only sorts, to the last one given |
| `ManagedTables.FillTwice` | web/service/routing.go:317-373 | applying the template again adds nothing, whatever the sort base and prefix |
| `ManagedChanges.OutboundAdded` | web/service/outbound.go:75-153 | by the columns, exactly which outbounds are accepted; the row is kept as asked, cleaned up and enabled, and no other changes |
| `ManagedChanges.OutboundUpdated` | web/service/outbound.go:155-229 | exactly which updates are accepted; the row is then as asked, or for a system row only remark and sort are |
| `ManagedChanges.OutboundToggled` | web/service/outbound.go:258-274 | exactly which are accepted; only the state of that row changes, to what was asked |
| `ManagedChanges.OutboundDeleted` | web/service/outbound.go:231-256 | exactly which are accepted; only that row goes |
| `ManagedChanges.RuleAdded` | web/service/routing.go:59-72 | exactly which rules are accepted; the new row takes connections as asked for, and every other row takes what it took |
| `ManagedChanges.RuleUpdated` | web/service/routing.go:74-157 | the same for a rewritten row; a system row goes on taking what it took |
| `ManagedChanges.RuleDeleted` | web/service/routing.go:159-175 | exactly which are accepted; that row no longer takes any connection, and every other takes what it took |
| `ManagedChanges.RuleToggled` | web/service/routing.go:177-193 | exactly which are accepted; the row takes what its columns ask for exactly if it is turned on |
| `ManagedChanges.RulesReordered` | web/service/routing.go:195-216 | a moved rule has the sort of its last move, 1000 for 0, and no row takes anything else |
| `ManagedChanges.TemplateApplied` | web/service/routing.go:317-373 | what the template adds is asked for by one of its services, with the default base and prefix where none is given, and is the same as no rule that was there; every rule that was there stays |
| `ManagedService.Store.constructor` | database/db.go:238-279 | whatever rows there are: the rows of the two system tags are created, or marked as system and nothing else, so they are enabled exactly if none of them was there disabled |
| `ManagedService.Store.EnsureSystem` | database/db.go:262-278 | one of the two: created if its tag is new, marked if not; every other row stays |
| `ManagedService.Store.Commit` | web/service/outbound.go:293-316 | a change is made if and only if the managed test passes or management is off; an error of the last step comes after the commit |
| `ManagedService.Store.AddOutbound` | web/service/outbound.go:126-153 | keeps all invariants; the row is stored enabled even when asked for disabled, as the column default replaces false |
| `ManagedService.Store.UpdateOutbound` | web/service/outbound.go:155-229 | keeps the tables in order, and the references if and only if the tag stays or no rule names it |
| `ManagedService.Store.DeleteOutbound` | web/service/outbound.go:231-256 | never a system row, never one that a rule names |
| `ManagedService.Store.ToggleOutbound` | web/service/outbound.go:258-274 | never disables a system row |
| `ManagedService.Store.AddRule` | web/service/routing.go:59-72 | a stored rule names an outbound |
| `ManagedService.Store.UpdateRule` | web/service/routing.go:74-157 | so does a rewritten one; a system rule takes remark and sort only |
| `ManagedService.Store.DeleteRule` | web/service/routing.go:159-175 | any rule but a system one |
| `ManagedService.Store.ToggleRule` | web/service/routing.go:177-193 | any rule but disabling a system one |
| `ManagedService.Store.ReorderRules` | web/service/routing.go:195-216 | all moves or none |
| `ManagedService.Store.ApplyAITemplate` | web/service/routing.go:317-373 | every candidate is created or skipped, and the table grows by those created |
| `ManagedRuns.Run` | web/service/outbound.go:126-274 | any run of changes leaves the tables that its calls say; tags stay distinct, the same two system rows stay in place and enabled; all along every rule names an outbound if and only if no update that goes through changes a tag that rules name |
| `ManagedRuns.CallKeeps` | web/service/outbound.go:126-274 | one call keeps the tables in order, and breaks references exactly if it is such an update |
| `ManagedRuns.RefsExact` | web/service/outbound.go:155-229 | so over a run references hold throughout if and only if there is none |
| `ManagedCompiled.RenameExample` | web/service/outbound.go:155-229 | a concrete rename that is accepted and leaves a rule behind |
| `ManagedCompiled.Compiled` | web/service/xray.go:198-263 | which rules of consistent tables find their outbound in the compiled list: system ones, enabled ones, and dokodemo-freedom by the inbounds |
| `ManagedCompiled.CompiledList` | web/service/xray.go:198-263 | the outbounds of the configuration are those of the system rows and of the enabled others, each with the columns of its row, and one for tunnels if there are any |
| `ManagedCompiled.DisabledExample` | web/service/outbound.go:258-274 | an enabled rule that names an outbound disabled afterwards, which the configuration then lacks |
| `ManagedCompiled.CompileTables` | web/service/xray.go:150-192 | the configuration compiles exactly if every wanted outbound and every enabled rule can be read; its outbounds are those of the wanted rows with their columns and the one for tunnels, its inbounds the enabled ones, and it decides every connection as the tables say |

## Left out

- Network and process side of Vision: unwrapping connections, splicing, `readV`, statistics, logging and buffer pooling; a switch to the raw connection is a flag, and what the old connection held is a byte string.
- Concurrent use of one traffic state by several goroutines: calls are taken one after the other, in any order.
- Integer widths are written out where they can be exceeded (the padding arithmetic in `int32`); the counters of the parser stay within 16 bits by their invariant, and its bitwise ors of two halves are additions.
- Buffers arrive with at most `buf.Size` (8192) bytes, as the buffer package makes them, and no two of one call, or of the calls of one session, are the same object.
- The nil buffer as a lone element is the only nil buffer a write is given, as in the program's own calls.
- VdomDiff.UpdateChildren: lists with duplicate keys are not covered; the program only warns about them, and which node is reused then depends on the key table.
- VdomDiff.UpdateChildren: with `removeOnly` (leaving transitions) nodes do not move, and the nodes of the new vnodes are there but not in order.
- Inside `patchVnode` a child is only given its element; components, transitions, hooks, refs and text of the vnodes themselves are not modelled, and a removal is immediate.
- Scheduler.Scheduler.Flush: watchers that queue each other without end are cut off with the given turns of user code; the limit of the program only sees a watcher that is queued in its own turn.
- Synchronous mode of the scheduler (`config.async` false), the activated and updated hooks, and developer warnings.
- The order in which a dep notifies its subscribers, `Watcher.run` and callbacks, deep traversal other than as touches, and the list of watchers of a component; an exception in a getter is a body that ends early.
- NormalizeChildren.NormalizeArrayChildren: symbols among the children, and keys written by hand that look like generated ones; keys are strings.
- Text, comments, attributes and directives of templates; elements are closed without whitespace trimming, conditions or scoped slots, and forbidden ones are kept. Names are lower-cased in ASCII only.
- TagRoundTrip.RoundTrip: asks for names that are not empty, which the tag expressions of the parser guarantee.
- The locks of an instance, `Start` and `Close` of the features, and adding handlers; a callback's own requests and features are a finite tree.
- GORM and SQLite: tables are maps from id to row, a transaction is a copy that is stored or dropped, and an id that is 0 is replaced by the next one; database errors are not modelled, nor timestamps.
- JSON is read by functions that are given: one that decodes arrays of strings, and tests for objects and arrays. `xray.TestConfig` and the restart are given answers.
- What a connection meets of the values of a column other than the inbound tag is given as an answer for every value; a rule asks for all its columns. A second pass with resolved addresses is another connection with the same inbound tag. A rule without any condition, which the router refuses, applies to everything here.
- The legacy configuration, the domain strategy and the rest of the template configuration; the nine domain lists of the AI template are a parameter. Old configuration tables that already hold a tag twice, which the unique index refuses.
- Trimming, lower-casing and case-insensitive comparison are those of ASCII.
