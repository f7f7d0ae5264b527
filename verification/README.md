# Verified model of kubo's stateful core

A Dafny model of the parts of kubo that carry real algorithms: the block
garbage collector and the locking around it, the reference lister, the
delegated-router builder, the tar exporter, the peering service, pin
verification and listing, configuration concealment, and four small dense
pieces (entity-tags, the shared repository, the stream registry, `cat`).
`dafny verify dfyconfig.toml` checks everything.

| file | what it models |
|---|---|
| `Dag.dfy`, `Blocks.dfy`, `Wrappers.dfy` | link graphs and reachability by path length; content identifiers, link fetches and their failures |
| `Walks.dfy` | the library's visit-gated concurrent DAG walk, as any interleaving of visits and fetches |
| `Gc.dfy` | `kubo/gc/gc.go` |
| `Lifetime.dfy` | every interleaving of GC, RmBlocks, pinned writes and pin changes under PinLock and GCLock |
| `PinHistory.dfy`, `Operations.dfy` | its runs, read off their steps: how long pins and written blocks last, what collections, removals and writes can do |
| `Refs.dfy` | `RefWriter` of `kubo/core/commands/refs.go` |
| `Routers.dfy` | `kubo/routing/delegated.go` and `Methods.Check` |
| `Tar.dfy` | the reader half of `kubo/tar/format.go` |
| `Backoff.dfy`, `Peering.dfy`, `PeeringTasks.dfy` | `kubo/peering/peering.go` |
| `Pins.dfy` | pin verification and listing in `kubo/core/coreapi/pin.go` |
| `Scrub.dfy`, `ConfigReplace.dfy` | glob, scrubbing and replacement in `kubo/core/commands/config.go` |
| `ETags.dfy` | entity-tags in `kubo/core/corehttp/gateway_handler.go`; sections 2.3, 2.3.2 and 3.2 of RFC 7232 |
| `OnlyOne.dfy`, `Streams.dfy`, `Cat.dfy` | `kubo/repo/onlyone.go`, `kubo/p2p/stream.go`, `cat` |

How the model reads the source:

- Objects whose methods change fields are classes; loops are loops; the two
  concurrent protocols (block lifetime, peering) are step systems in which one
  step is one critical section, event or delivery, and any thread may move next.
- A link fetch answers by codec and multihash, so the two versions of one
  dag-pb identifier have the same links. Content addressing makes these links
  fixed; the store decides whether they can be fetched.
- Outside failures (cancellation, a failing pinner, client or deletion) may
  happen at any moment when the parameter `faults` is true and never when it is
  false, so every such method also says when it succeeds without faults.
- `levels`, `rank`, `roots`, `k` and `stack` parameters are ghost: they carry
  the specification, not data.

Four places where the code does not do what one would expect are stated as
results, each with the exact condition.

1. `RmBlocks` checks pins by identifier while the store is keyed by multihash.
   A removal step deletes a block in use iff another pinned identifier has the
   same multihash (`Lifetime.RemovalHitsInUseIff`), which a pin listing shows
   beforehand; `Lifetime.RemovalIsPerIdentifier` is such a run.
2. The peering service stops dialling a peer that drops after a successful dial
   and before its timer is cleared. This is the only such step
   (`Peering.RetryingUnlessLost`), it does happen (`Peering.LostDropHappens`),
   and it lasts until the peer connects by itself, is removed or the service is
   stopped (`Peering.LostDropIsPermanent`).
3. `stop` is documented as permanent. After removing a peer it is, iff no start
   for the handler is pending (`Peering.RemovalIsPermanentIff`). After stopping
   the service it is, iff no start for the handler and no drop of its peer is
   pending and the notifee is not registered at that moment
   (`Peering.StopIsPermanentIff`); the last can be the case with nothing pending
   when Start takes the lock between the two halves of Stop
   (`Peering.StoppedStillNotified`).
4. `scrubValue` is documented to fail when the key is missing. The value it
   tests is a nil map inside an interface, never nil itself, so it fails for no
   input; when the selector finds nothing, and only then, the object comes back
   unchanged (`Scrub.ScrubValue`).

## Model

| member | source | states |
|---|---|---|
| Walks.Walker.Walk | kubo/gc/gc.go:178-189 | one walk over the shared set, in any interleaving of workers: only nodes newly reachable outside the earlier set are entered, a completed walk leaves no link of a new node unentered, and an abort or recorded error means a bad node was met |
| Gc.Marker.Descendants | kubo/gc/gc.go:157-191 | walking a list of roots one after the other is one walk of all of them, also when it stops early |
| Blocks.StrictHealth | kubo/gc/gc.go:208-219 | in the strict walk an identifier is fine iff its links were fetched and its hash is secure: a missing block and a failed fetch both count as errors |
| Blocks.BestEffortHealth | kubo/gc/gc.go:234-245 | in the best-effort walk only an insecure hash or an error other than "not found" counts |
| Blocks.LinkGraphExact | kubo/gc/gc.go:157-191 | the links the collector follows, read off the fetch results: those of readable secure nodes, as version 1 identifiers of the same content |
| Blocks.PlainLinksExact | kubo/core/coreapi/pin.go:317-328 | the links the pin listing follows, read off the fetch results, on identifiers as they are |
| Gc.MarkableIffWalksHealthy | kubo/gc/gc.go:203-283 | the fetch results with which marking can succeed are those with which none of the three walks meets an error |
| Gc.Marker.ColoredSet | kubo/gc/gc.go:203-283 | success leaves exactly the live identifiers marked; without faults it happens iff every identifier the recursive and internal walks expand has fetched links and a secure hash, and every other one a best-effort root holds is secure and did not fail, though it may be missing |
| Gc.WalkAddsReach | kubo/gc/gc.go:220-268 | a walk over a set shared with earlier walks adds exactly what its roots reach without passing through nodes that were marked but never expanded |
| Gc.FirstPhase | kubo/gc/gc.go:220-232 | after the recursive pins: either marking is doomed or the set is exactly what they reach |
| Gc.SecondPhase | kubo/gc/gc.go:234-254 | after the best-effort roots: missing blocks are tolerated, other errors are not, and earlier nodes need no second look |
| Gc.ThirdPhase | kubo/gc/gc.go:256-282 | after the internal pins: nodes that are only pinned directly are marked but not expanded |
| Gc.Marker.AddDirect | kubo/gc/gc.go:256-262 | direct pins are added without being walked |
| Gc.ToRawCids | kubo/gc/gc.go:32-39 | a raw identifier is in the result iff some marked identifier has its multihash |
| Gc.Blockstore.Sweep | kubo/gc/gc.go:96-134 | only unmarked hashes are deleted, each deletion is reported once, and cancellation loses at most one report |
| Gc.Blockstore.GC | kubo/gc/gc.go:50-152 | a clean run leaves exactly the stored blocks whose multihash is live and reports exactly the deleted ones; one block below a recursive pin that is missing or fails, or any other fetch result that forbids marking, makes the run end as failed with the store unchanged; no run ever deletes a live block |
| Lifetime.VisitKeepsFrontier | kubo/gc/gc.go:178-189 | a visit that fetches its links, or meets a marked node, keeps every link of a marked node marked or waiting, while the store grows under the walk |
| Lifetime.GcActKeeps | kubo/gc/gc.go:50-127 | every collection or removal step keeps the system invariant |
| Lifetime.PinActKeeps | kubo/core/coreapi/dag.go:23-56 | every step of a pinned write or pin change keeps it, next to any other holders of the PinLock |
| Lifetime.NextKeeps | kubo/core/coreapi/block.go:53-67 | every step of any thread keeps it, including lock acquisition and release and unlocked adds; the lock is held by exactly the running threads |
| Lifetime.SweepSpares | kubo/gc/gc.go:105-106 | a hash outside a finished marked set belongs to no block in use |
| Lifetime.Safety | kubo/blocks/blockstoreutil/remove.go:37-96 | in every run: no collection deletes a block in use at that step, counting all links of all content; no removal hits an identifier pinned at that step; a pinned write's block is stored as long as its pin exists unless RmBlocks deleted that hash and it was not added again |
| Lifetime.ProtectedIffPinned | kubo/blocks/blockstoreutil/remove.go:78-96 | a multihash is in use iff some identifier a pin listing shows has it |
| Lifetime.RemovalHitsInUseIff | kubo/blocks/blockstoreutil/remove.go:49-67 | in every run a removal step deletes a stored block in use iff another pinned identifier shares the removed one's multihash |
| Lifetime.RemovalIsPerIdentifier | kubo/blocks/blockstoreutil/remove.go:78-96 | a run in which that happens, through the other version of a pinned identifier |
| PinHistory.PinStep | kubo/core/coreapi/pin.go:38-49 | one step changes the pin sets just as asked: pin add, a pinned write and the target of an update add, pin rm takes out of both sets, an unpinning update takes out its source unless it is the target, a recursive pin replaces a direct one |
| PinHistory.StoreStep | kubo/core/coreapi/dag.go:23-56 | a block is stored after a step iff the step added it, or it was stored and the step is no removal or sweep of it |
| PinHistory.VisitStep | kubo/gc/gc.go:178-249 | which links a visit asks for and when it records an error, in terms of the fetch results, the store and the kind of walk |
| PinHistory.RecursiveIff | kubo/core/coreapi/pin.go:115-155 | in every run an identifier is pinned recursively iff it was at the start or some step pinned it, and no later step unpinned it |
| PinHistory.DirectIff | kubo/core/coreapi/pin.go:38-121 | the same for direct pins, which a recursive pin of the same identifier ends |
| PinHistory.PinLasts | kubo/core/coreapi/pin.go:38-49 | in every run, once pinned recursively and until unpinned, an identifier stays pinned, no collection deletes a block it leads to, and no removal hits an identifier below it |
| PinHistory.DirectPinLasts | kubo/core/coreapi/pin.go:38-49 | the same for a direct pin and its own block |
| PinHistory.WriteLasts | kubo/core/coreapi/dag.go:23-56 | a block written with a pin and not unpinned since is missing iff a removal deleted its hash and nothing added it again |
| Operations.BestEffortSpared | kubo/gc/gc.go:234-254 | in every run a collection deletes nothing that its best-effort roots lead to through blocks that could be fetched when it read them |
| Operations.InternalSpared | kubo/gc/gc.go:256-276 | nor anything its internal pins lead to without passing through nodes marked before |
| Operations.CollectableIff | kubo/gc/gc.go:50-152 | from a state without threads some collection deletes a stored block iff it is not in use and everything below the recursive pins is stored and readable |
| Operations.RemovableIff | kubo/blocks/blockstoreutil/remove.go:37-96 | from such a state RmBlocks of an identifier can delete a stored block iff it is its block and the identifier is not pinned |
| Operations.WriteRuns | kubo/core/coreapi/dag.go:37-56 | beside any other holders of the PinLock a pinned write can store and pin all its nodes |
| Operations.PinChangeRuns | kubo/core/coreapi/pin.go:115-155 | so can any pin change be committed |
| Refs.RefWriter.Visit | kubo/core/commands/refs.go:271-317 | exactly which identifiers are pruned, re-explored and listed, and what is recorded |
| Refs.RefWriter.WriteRefsRecursive | kubo/core/commands/refs.go:209-260 | with unique output a call leaves its node explored to the depth limit and everything off the stack settled; without it, it appends exactly the preorder of links |
| Refs.RefWriter.WriteAll | kubo/core/commands/refs.go:114-129 | over all roots sharing one record: each identifier at distance 1..MaxDepth is listed exactly once and nothing else, and the record ends as the minimum distance; without faults it fails iff a root or an identifier in range cannot be fetched |
| Refs.PreorderAllReaches | kubo/core/commands/refs.go:228-257 | without unique output, too, every identifier in range is met |
| Refs.UniqueExact | kubo/core/commands/refs.go:262-317 | a settled record and its listing are exactly the identifiers in range, at their minimum distances |
| Refs.SettledCovers | kubo/core/commands/refs.go:300-316 | re-exploring only on a smaller depth still reaches everything that is not too deep |
| Refs.PreorderExact | kubo/core/commands/refs.go:283-288 | without unique output the listing is exactly the links whose source is less than the limit away |
| Routers.MeaningfulIffSound | kubo/routing/delegated.go:68-153 | a name denotes a router iff everything reachable from it is configured, of a known type, buildable and not on a cycle |
| Routers.DenotesUnique | kubo/routing/delegated.go:43-45 | the denotation is unique, so the order of the map iteration does not matter |
| Routers.DenotesAssembled | kubo/routing/delegated.go:96-142 | a name denotes exactly the router assembled from its configuration: the leaf itself, or a parallel or sequential router as configured, whose i-th part is what the i-th listed name denotes, with its timeout and error setting, and its start delay if parallel and none if sequential |
| Routers.BuildableIff | kubo/routing/delegated.go:177-366 | which leaf configurations mean a router: an endpoint must be given, a DHT that is not accelerated needs one of three modes, wrong parameters never do |
| Routers.Builder.Parse | kubo/routing/delegated.go:68-153 | returns the denotation of the name, assembled from its configuration, or an error that is true of a reachable router; a loop is reported only for a name on a cycle; terminates on every configuration |
| Routers.Check | kubo/config/routing.go:36-64 | accepts iff the configured methods are exactly the five supported ones |
| Routers.Parse | kubo/routing/delegated.go:34-66 | succeeds iff the method names are right and every method's router graph is sound; each of the five fields then holds the router assembled from the configuration its own method names |
| Routers.WithRouterSetsOne | kubo/routing/delegated.go:49-60 | each method name sets its own field of the composer and no other |
| Tar.TarReader.Read | kubo/tar/format.go:115-197 | delivers the next bytes of the remaining stream within the buffer, makes progress on a non-empty buffer, and reports EOF or an error exactly where the stream ends that way |
| Tar.TarReader.OpenNext | kubo/tar/format.go:156-196 | opening a link changes where the reader stands, not the remaining stream |
| Tar.CountReader.Read | kubo/tar/format.go:217-221 | short reads, early or late EOF, and the error of a missing block with the bytes before it, with an exact byte count |
| Tar.Export | kubo/tar/format.go:201-210 | reading to the end through any non-empty buffers yields the preorder serialisation up to the first broken link or missing block, and ends |
| Tar.SerialStep | kubo/tar/format.go:115-197 | the stream entry by entry: the header, the data with zero bytes up to the next whole block, then the children and the rest; where a link is broken or a block is missing it ends with what came before |
| Tar.SerialWholeBlocks | kubo/tar/format.go:149-154 | a complete archive is a multiple of 512 bytes when its headers are |
| Backoff.NextDelayBounds | kubo/peering/peering.go:101-114 | one back-off step stays within 5s..10min without overflow, grows by half or enters the last ten per cent, and never leaves them |
| Backoff.NextDelayRange | kubo/peering/peering.go:101-114 | exactly which delays the two random draws can lead to |
| Backoff.InBandByTwelfth | kubo/peering/peering.go:101-114 | for all draws, from the twelfth consecutive call on the delay is in (9min, 10min] |
| Backoff.PeerHandler.NextBackoff | kubo/peering/peering.go:101-114 | the field update is the specified delay |
| Backoff.PeerHandler.StartIfDisconnected | kubo/peering/peering.go:154-163 | afterwards the peer is connected or an attempt is scheduled; a live handler starts with a delay of 7.5s to 12.5s, an existing timer is left alone, and the handler stays valid |
| Backoff.PeerHandler.StopIfConnected | kubo/peering/peering.go:141-151 | a connected peer is left without a timer and, if live, with the initial delay; the delay is reset exactly when a timer is cleared, and the handler stays valid |
| Backoff.PeerHandler.DialFailed | kubo/peering/peering.go:122-134 | a failed dial neither creates nor loses a timer, and sets an existing one to a delay half again as long or in the band |
| Backoff.PeerHandler.Stop | kubo/peering/peering.go:90-99 | the handler is cancelled without a timer, keeps its delay and stays valid; stopping again changes nothing |
| Backoff.ConnectingUndoesStart | kubo/peering/peering.go:141-163 | stopIfConnected is the inverse of startIfDisconnected on a live handler, however many dials failed in between |
| Peering.NextKeeps | kubo/peering/peering.go:90-320 | every step keeps: while running with the notifee registered each disconnected peer has a timer, a pending start or a pending notification, and each connected peer has no timer, a pending check or a pending notification; handlers outside the map, and all once stopped, are cancelled; a live handler without timer has the initial delay |
| Peering.RunInv | kubo/peering/peering.go:90-320 | the same in every state of every run |
| Peering.ConnectedSettles | kubo/peering/peering.go:141-151 | in every run a connected peer for which no notification or check is pending has no timer and, if its handler is live, the initial delay |
| PeeringTasks.AttemptsAreChecked | kubo/peering/peering.go:116-139 | in every run each firing of a timer and each Connected notification ends in one check of the connection or is still on its way to it |
| PeeringTasks.StartsAreRun | kubo/peering/peering.go:154-163 | each start called for by starting the service, adding a peer or a Disconnected notification has been run once or is pending |
| PeeringTasks.NotificationStep | kubo/peering/peering.go:297-320 | a step makes a notification iff it is the network event and the notifee is registered, and takes one iff it delivers it |
| PeeringTasks.ServesIff | kubo/peering/peering.go:233-293 | in every run a handler serves a peer iff adding the then unknown peer created it and the peer was not removed since |
| Peering.RetryingUnlessLost | kubo/peering/peering.go:116-151 | if all disconnected peers are being retried, a step preserves that iff it is not a drop between a successful dial and the clearing of the timer |
| Peering.RetryingInRuns | kubo/peering/peering.go:116-163 | a run without such drops always retries every disconnected peer |
| Peering.LostDropAbandons | kubo/peering/peering.go:116-163 | such a drop leaves the peer away with a fired timer and no attempt under way |
| Peering.AbandonedStays | kubo/peering/peering.go:141-163 | nothing the service does by itself dials such a peer again |
| Peering.LostDropIsPermanent | kubo/peering/peering.go:116-163 | in every run, after such a drop no dial of the handler starts until the peer connects by itself, is removed, or the service is stopped |
| Peering.LostDropHappens | kubo/peering/peering.go:116-151 | a run from the initial state that ends in such a drop |
| Peering.RemovalIsPermanentIff | kubo/peering/peering.go:282-293 | after removing a peer some continuation arms its handler's timer iff a start for it was pending |
| Peering.QuietStays | kubo/peering/peering.go:89-99 | a removed handler with no start pending stays without timer under every step |
| Peering.StoppedQuietStays | kubo/peering/peering.go:212-226 | once stopped, unregistered and with no start or drop pending, a handler stays without timer under every step |
| Peering.StopIsPermanentIff | kubo/peering/peering.go:212-226 | after stopping the service some continuation arms a registered handler's timer iff a start for it or a drop of its peer is pending or the notifee is registered |
| Peering.StoppedHandlerRearms | kubo/peering/peering.go:212-226 | a run in which a pending start arms a handler cancelled by Stop |
| Peering.StoppedStillNotified | kubo/peering/peering.go:184-226 | a run that ends stopped with the notifee registered and no task pending |
| Pins.Verifier.CheckPin | kubo/core/coreapi/pin.go:199-227 | the memoised check returns what the plain recursion returns, with any correct memo |
| Pins.Verifier.Verify | kubo/core/coreapi/pin.go:186-238 | every pin's status equals the plain check, and is ok iff no node reachable from it fails |
| Pins.NaiveExact | kubo/core/coreapi/pin.go:208-223 | the bad-node list holds exactly the reachable failing nodes, and ok means it is empty |
| Pins.Lister.AddToResultKeys | kubo/core/coreapi/pin.go:267-281 | lists exactly the identifiers not known yet, none twice |
| Pins.Lister.WalkBelow | kubo/core/coreapi/pin.go:317-328 | walks that skip their root and share one set collect exactly what is below some recursive pin, also when pins nest |
| Pins.Lister.PinLsAll | kubo/core/coreapi/pin.go:262-372 | each listing is exactly its part of the partition into recursive, direct and indirect pins, without duplicates |
| Scrub.MatchesGlobPrefix | kubo/core/commands/config.go:159-173 | true iff the first patterns match the first components, as far as both go |
| Scrub.ScrubMapInternal | kubo/core/commands/config.go:258-277 | computes the scrubbed object and never fails, for every object, selector and okIfMissing |
| Scrub.ScrubEither | kubo/core/commands/config.go:243-249 | objects are scrubbed further, any other value is dropped, and the error branch is never taken |
| Scrub.ScrubValueInternal | kubo/core/commands/config.go:251-256 | fails exactly for a nil interface when the key has to exist |
| Scrub.ScrubValue | kubo/core/commands/config.go:233-236 | never fails; the object comes back unchanged iff the selector finds nothing |
| Scrub.ChangedIffFound | kubo/core/commands/config.go:258-277 | scrubbing changes an object iff the selector finds something in it |
| Scrub.LeafScrubbed | kubo/core/commands/config.go:258-277 | a leaf is removed iff the selector matches its path; every other leaf is unchanged |
| Scrub.EqualFoldIff | kubo/core/commands/config.go:168 | names compare equal iff they fold to the same text |
| Scrub.AnyCase | kubo/core/commands/config.go:159-173 | under any folding that ignores ASCII case, selectors match names in any case, and a star matches any name |
| Scrub.SplitDotted | kubo/core/commands/config.go:160 | splitting a dotted key gives back its components |
| Scrub.DottedSplit | kubo/core/commands/config.go:160 | every key is its components joined by dots, and no component holds one |
| Scrub.ScrubFollowsGlob | kubo/core/commands/config.go:159-277 | scrubbing removes a leaf iff the glob matches its dotted key |
| Scrub.ScrubIdempotent | kubo/core/commands/config.go:258-277 | scrubbing twice is scrubbing once |
| Scrub.ScrubsCommute | kubo/core/commands/config.go:206-214 | scrubs by different selectors commute |
| ConfigReplace.ReplaceConfig | kubo/core/commands/config.go:510-565 | succeeds iff the submitted configuration sets no secret and keeps every service and endpoint; secrets, service names and API details are then the stored ones |
| ConfigReplace.ShownDecodes | kubo/core/commands/config.go:206-214 | what config show prints is the configuration without its secrets and nothing else is lost |
| ConfigReplace.ShownHidesSecrets | kubo/core/commands/config.go:206-214 | config show prints neither the private key nor any service's key, whatever the configuration is |
| ConfigReplace.ShowThenReplace | kubo/core/commands/config.go:510-565 | feeding that output back is accepted and restores the original configuration |
| ETags.ScanETag | kubo/core/corehttp/gateway_handler.go:823-846 | the loop finds the first entity-tag and the rest, or nothing |
| ETags.ScanShown | kubo/core/corehttp/gateway_handler.go:823-846 | a printed valid tag is scanned back whole, whatever follows it |
| ETags.ScannedIsTag | kubo/core/corehttp/gateway_handler.go:823-846 | whatever is scanned is a valid strong or weak tag |
| ETags.EtagMatch | kubo/core/corehttp/gateway_handler.go:791-817 | the loop computes the recursive reading of the header |
| ETags.MatchesIffListed | kubo/core/corehttp/gateway_handler.go:791-817 | on every list of valid tags, commas, white space and wildcards there is a match iff a listed tag weakly equals one of the two, or the wildcard is listed |
| ETags.MatchesIffPrefixLists | kubo/core/corehttp/gateway_handler.go:791-846 | for every header, also a malformed one: it matches iff it starts with such a list that holds a match, whatever follows |
| ETags.HeaderStep | kubo/core/corehttp/gateway_handler.go:793-815 | the scan consumes one comma, tag or wildcard at a time |
| ETags.WeakMatchIsText | kubo/core/corehttp/gateway_handler.go:849-851 | weak comparison is equality of the quoted text |
| ETags.GetEtagParsesBack | kubo/core/corehttp/gateway_handler.go:854-867 | etags made here, bare or marked weak, are scanned back whole |
| ETags.GetEtagForm | kubo/core/corehttp/gateway_handler.go:854-867 | the tag is the quoted identifier, followed when a format was asked for by a dot and the part of the media type after its last dot or slash |
| ETags.GetEtagInjective | kubo/core/corehttp/gateway_handler.go:854-867 | two made etags weakly match iff identifier and short format agree, for identifiers without a dot |
| ETags.EtagIdentifies | kubo/core/corehttp/gateway_handler.go:854-890 | over the formats a request parameter can ask for, or none, two made etags weakly match iff identifier and format are the same |
| ETags.TextChars | kubo/core/corehttp/gateway_handler.go:833-843 | the characters a scanned tag may hold are those above 0x20 other than the quote and 0x7F |
| ETags.SkippedChars | kubo/core/corehttp/gateway_handler.go:793-802 | blank, tab, line ends and commas, and nothing else but a wildcard or quote, leave a tag behind them to be found |
| OnlyOne.Repos.Open | kubo/repo/onlyone.go:26-48 | opens the repository only for a key without live reference, shares it otherwise, and keeps all counts |
| OnlyOne.Repos.Close | kubo/repo/onlyone.go:59-72 | closes the repository exactly when closes reach opens, later closes change nothing else and evict no newer entry |
| OnlyOne.Repos.ActiveIffLive | kubo/repo/onlyone.go:33-45 | a key is in the map iff some reference for it is live |
| OnlyOne.CounterIsZeroIffBalanced | kubo/repo/onlyone.go:63-67 | with fewer than 2^32 operations the wrapped counter is zero only when opens and closes balance |
| Streams.StreamRegistry.Register | kubo/p2p/stream.go:75-87 | the stream gets a fresh id and counts and tags stay exact |
| Streams.StreamRegistry.Deregister | kubo/p2p/stream.go:90-106 | removes just that stream, keeps counts and tags exact, and changes nothing the second time |
| Streams.StreamRegistry.Close | kubo/p2p/stream.go:109-113 | the same for closing a stream |
| Streams.StreamRegistry.Reset | kubo/p2p/stream.go:116-120 | the same for resetting a stream |
| Cat.Cat | kubo/core/commands/cat.go:124-181 | the readers' bytes are all files in a row without the first offset bytes, cut at the limit; the length is their number; a bad path is an error iff it is reached before the limit |

## Left out

- Command definitions, encoders, progress output and HTTP plumbing: user interface and I/O.
- Libraries the code calls: the DAG walk, blockstore, pinner, link fetcher, tar writer and lock are represented by small specifications; DHT, HTTP and reframe constructors by the set of leaves they manage to build.
- The import half of the tar format: it rests on a DAG editor that is not part of this model.
- Gc.Blockstore.GC: the per-link fetch errors sent during marking are not listed in the output; a deletion that reports an error is taken not to have removed its block; blocks added by others during the run appear only in the lifetime model.
- Lifetime.Safety: a pin operation the pinner refuses is one that never commits; the messages RmBlocks sends are not modelled, only what it deletes; a failed pin check keeps no identifier; a walk's visit and fetch are one step here (Walks.dfy has them apart); the pinner's own flush and internal pins are not tracked, and internal pins count only as extra roots.
- Peering.NextKeeps: the service's methods are steps on a value rather than methods of a class, because notifications, timers and goroutines interleave with them; addresses and connection-manager protection are not modelled; each section under the service mutex is one step, so the moment inside RemovePeer between clearing the timer and leaving the map is not a state.
- Backoff.InBandByTwelfth: real time is not modelled, only delays.
- Pins.Verifier.CheckPin: acyclic links only, as hash links are; the source would not return on a cycle.
- Refs.RefWriter.WriteRefsRecursive: without unique output and without a depth limit the links must be acyclic, as hash links are; formatting of a printed edge is not modelled.
- Scrub.ScrubMapInternal: case folding is any character-wise folding, strings are sequences of characters rather than of UTF-8 bytes.
- ConfigReplace.ShownDecodes: a configuration is its identity, remote services and other sections; other sections must not be named like the first two in another case.
- Tar.Export: links are resolved to a tree beforehand, so sharing of nodes between archive entries is not visible.
- Streams.StreamRegistry.Register: the two copying goroutines are any later calls of Close and Reset.
- Cat.Cat: the content behind a reader is its byte sequence; read errors after the readers are returned are not modelled.
