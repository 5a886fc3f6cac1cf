# Radii: a verified model

Radii lets nodes report which other nodes they can reach. A Crawl server keeps those reports
in a bounded registry and answers graph queries with a snapshot; Fetch and Head plan routes
over the snapshot and open source-routed chains of relays along them. This project models the
parts of that which are hard to get right, and proves what they promise.

| part of the system | modules |
|---|---|
| the capped graph, path algebra, hop-layered search, k best routes | `Graph`, `Walks`, `Search`, `Yen`, `Planner` |
| resolving hops to addresses, ranking across targets | `Resolve`, `Merge`, `Candidates`, `Crowded`, `Ceiling` |
| messages, their bounds and encoded sizes | `Wire`, `Encoding` |
| Crawl's registry, message handler and snapshot fill | `Registry`, `Crawl`, `Snapshot`, `History` |
| a relay's permits | `Permits` |
| the beacon's answer limiter | `Beacon` |
| a relay's handshake, the chain protocol, the splice | `Chain`, `ChainRun`, `Willing`, `Splice` |
| from a ranked route to an open chain | `Tunnel`, `Originator` |

## How the model is built

- Code that changes state is modelled by methods: `GraphSnapshot`, `CrawlState`, `RelayRuntime`,
  `Answered` and the splice's `Clock` are classes, and the search, planning, resolving, filling
  and pumping loops are loops. Each method is proved against a specification, and what Radii
  promises is proved about that specification. Long loops are cut at their inner loop: the
  search into `RelaxNode` and `RelaxLayer`, planning into `Spur` and `SpurRound`, ranking into
  `ResolveHops` and `ResolveTarget`, the snapshot into `FillNodes` and `FillReports`.
- Concurrent parts are state machines whose steps interleave freely, and their theorems hold at
  every state of every run: `Permits`, `ChainRun` and `Splice`.
- What a part promises is also stated outright, in terms of what goes in and comes out and with the
  source's own numbers and words: `Planner.BestTrails` over the links of the snapshot,
  `Resolve.Offers` over the registry's entries, `History` over the messages heard,
  `Chain.HandshakeOutright` over the frame and the list of peers.
- A `HashMap` is walked in an arbitrary order (`:|` picks the next key), so every result holds
  for every order.
- A string stands for its UTF-8 bytes, one character a byte, so lengths are byte lengths.
- Link costs are non-negative whole numbers and a scorer is any function of a link.
  `Planner.DefaultTotalsAreExact` shows why this loses nothing for the default scorer: its sums
  stay below 2 to the 53rd, where doubles add exactly.
- An authenticated connection is one that carries a peer id; a plaintext one carries none.
  Clocks never run backwards. Times are parameters; a timeout, a failed write or a closed
  connection is a step or a parameter the environment chooses.

## Where code and documentation differ

- `reconstruct` rejects looping paths because a zero-cost scorer might produce one
  (`crates/core/src/routing.rs:568-571`). It cannot: `Search.Reconstruct` never rejects a table
  the search built, whatever the costs.
- `resolve_candidates` promises the best `limit` routes across all targets
  (`crates/core/src/routing.rs:210-215`), and breaks that promise in two ways. It drops
  undialable routes only after each plan was cut to `limit`, so they can crowd dialable ones out:
  `Crowded.CrowdedOut` is such a graph. And `plan` clamps `limit` to 32 for each target, so a
  longer page stays short of routes that exist: `Ceiling.LostAboveThirtyTwo` is such a graph.
  `Candidates.BestExactlyWhen`, for a page of `limit`, says exactly when the promise holds, for
  any number of targets. For one target that is when all planned routes can be dialed and `limit`
  is at most 32, or none was left out (`Candidates.BestForOneTarget`).
- The condition is about the plans made inside `resolve_candidates`. A plan the caller makes
  itself may break ties differently, but it has as many routes at the same costs
  (`Planner.CostsAreDetermined`), so it can still tell: `Candidates.TellsBeforehand`.
- `add_link` counts a link from a new node to itself as two new nodes:
  `Graph.RefusedThoughItFits` is the one case in which that costs a link, and
  `Graph.SelfLinkDropped` a list of reports that meets it.
- `encoded_str_bound` never under-estimates (`crates/proto/src/lib.rs:36-37`) only below 2 to
  the 35th bytes; `Wire.StrBoundHolds` is the exact limit, and `Wire.BudgetFitsFrame` needs no
  such assumption since nothing that long fits the budget.
- `acquire` says an entry it leaves behind is already non-zero
  (`crates/fetch/src/relay.rs:205`). `Permits.EmptyEntryLeftBehind` is the exact exception: a
  per-key cap of zero. The run theorems therefore assume per-key caps of at least one.
- A refused report may still have purged the table, and only a full table is ever purged:
  `Registry.StaleQuotaBlocks` is the surprising consequence.

## Model

| member | source | states |
|---|---|---|
| Graph.UsableLinks | crates/core/src/routing.rs:614-620 | the usable links are exactly the reachable ones of an allowed protocol, all protocols when none is named |
| Graph.BuildAdjacency | crates/core/src/routing.rs:609-624 | every node's list is exactly the usable links that leave it, in report order, and no other node has one |
| Graph.GraphSnapshot.AddLink | crates/core/src/routing.rs:102-117 | keeps the link with both its nodes, or counts it as dropped because 32768 links are held, its nodes would pass 4096, or it is the one self-link that counts twice |
| Graph.RefusedThoughItFits | crates/core/src/routing.rs:103-111 | a link whose nodes would fit is refused if and only if it is a self-link on a new node one short of the node cap |
| Graph.SelfLinkDropped | crates/core/src/routing.rs:103-111 | reports of a star of 4095 nodes all fit, and then a new node's link to itself is dropped although that node would fit |
| Graph.FromReports | crates/core/src/routing.rs:126-141 | the links kept and the links counted as dropped add up to the reports, and the kept ones are those that fitted when their turn came |
| Graph.KeptSayWhatReportsSay | crates/core/src/routing.rs:132-138 | every kept link has the nodes, protocol, verdict and round trip of its report, in report order |
| Search.LayerIsOptimal | crates/core/src/routing.rs:526-560 | layer h knows the end of every ban-avoiding walk of at most h links, at no more than its cost |
| Search.ParentLinkIsCheapest | crates/core/src/routing.rs:542-556 | the link a finished cell was reached over is a cheapest one between its ends |
| Search.StepBack | crates/core/src/routing.rs:586-598 | one step back along the parents meets no node already on the route, even over links that cost nothing |
| Search.SuffixGrows | crates/core/src/routing.rs:586-598 | a step back keeps the suffix loop-free, inside the hop budget, around the bans, and exact in cost |
| Search.WalkContinues | crates/core/src/routing.rs:592-597 | on a table the search built, the loop test never rejects |
| Search.WalkEnds | crates/core/src/routing.rs:600-606 | a walk back that meets a cell without a parent stands at the source, with a loop-free answer of the cell's cost |
| Search.Reconstruct | crates/core/src/routing.rs:572-607 | terminates on any table; on one the search built it finds a route exactly when the last layer knows the target, loop-free and at that cell's cost |
| Search.RelaxNode | crates/core/src/routing.rs:535-556 | after one node is relaxed every passable link out of it is accounted for, and no cell got worse |
| Search.RelaxLayer | crates/core/src/routing.rs:526-560 | a relaxed layer extends the table, in any walking order, looking at each link at most once |
| Search.ShortestPath | crates/core/src/routing.rs:495-563 | finds a path if and only if some walk within the hop budget avoids the bans, loop-free, over cheapest parallel links, at the least cost of all such walks, looking at no more than hops times links |
| Yen.LeavesSomewhere | crates/core/src/routing.rs:419-424 | every route not yet accepted leaves the accepted ones at some root of theirs |
| Yen.TailAnswers | crates/core/src/routing.rs:428-451 | a route that takes a fresh hop out of a root is found by the spur search at that root |
| Yen.SpurIsRoute | crates/core/src/routing.rs:455-461 | root plus spur is a loop-free route in budget whose next hop no accepted or pooled route takes |
| Yen.PooledCovers | crates/core/src/routing.rs:431-438 | a route hidden by a pooled candidate's ban is matched by that candidate at no more cost |
| Yen.CoveredWithoutSpur | crates/core/src/routing.rs:444-453 | where no spur is found, everything leaving the root is already matched in the pool |
| Yen.CoveredWithSpur | crates/core/src/routing.rs:444-468 | a found spur matches everything leaving the root that the pool did not, and is cheapest among routes that leave the same way |
| Yen.PoolGrows | crates/core/src/routing.rs:461-468 | pooling the new path keeps every invariant of the loop, and the path was not known |
| Yen.PoolMatches | crates/core/src/routing.rs:474-481 | before each pick, some pooled candidate costs no more than any given route not accepted yet |
| Yen.Accept | crates/core/src/routing.rs:474-481 | accepting the cheapest candidate keeps ascending order, distinctness and that nothing left out is cheaper |
| Yen.Exhausted | crates/core/src/routing.rs:471-473 | an empty pool means every route has been accepted |
| Yen.RoundDone | crates/core/src/routing.rs:421-469 | once the newest route's spurs are done, every root of every accepted route is covered |
| Yen.FirstRoute | crates/core/src/routing.rs:405-417 | the first search starts the loop in a state that satisfies its invariants |
| Planner.CheapestTotal | crates/core/src/routing.rs:459 | summing the links of a path over cheapest links gives its path cost |
| Planner.DefaultTotalsAreExact | crates/core/src/routing.rs:321-338 | no total of default costs within the hop ceiling reaches 2 to the 53rd |
| Planner.BannedNextHops | crates/core/src/routing.rs:430-438 | bans exactly the next hops that accepted and pooled routes take out of this root |
| Planner.CheapestIndex | crates/core/src/routing.rs:474-480 | the first of the cheapest candidates |
| Planner.SpurPath | crates/core/src/routing.rs:455-461 | the combined path joins its links to its hops, uses a cheapest link at each, and its summed cost is its path cost |
| Planner.SpurFound | crates/core/src/routing.rs:455-468 | a combined path is never already known, so the already-known test never fires |
| Planner.Spur | crates/core/src/routing.rs:424-469 | one spur search keeps the loop's invariants and leaves its root covered, without underflow of the hop budget |
| Planner.SpurRound | crates/core/src/routing.rs:424-469 | a round covers every root with at most one search per hop of budget |
| Planner.Best | crates/core/src/routing.rs:383-387 | what was accepted, full or exhausted, is the set of best routes, and each shows the protocol of a cheapest link into its target |
| Planner.UsableExactly | crates/core/src/routing.rs:614-620 | the links a plan may use are exactly the snapshot's reachable ones of a protocol asked for, or of any if none is |
| Planner.TrailIsRoute | crates/core/src/routing.rs:388-411 | any loop-free trail of such links from source to target, no longer than `max_hops` or 32, is a route of the search, at no more than the trail's cost |
| Planner.RouteIsTrail | crates/core/src/routing.rs:388-411 | any route of the search is such a trail at its cost |
| Planner.CeilingsBoundWork | crates/core/src/routing.rs:23-26 | over any snapshot within its caps one call makes at most 993 searches, each of at most 32 times 32768 link visits |
| Planner.Plan | crates/core/src/routing.rs:388-485 | for every graph, request and limit: every route is a trail of links the snapshot reports reachable, of the protocols asked, loop-free, in budget, at its score, with the last link's protocol; none repeats another's nodes; they ascend; and every such trail is offered at no more than it costs, or min(limit, 32) routes no dearer are returned; within 1 + (limit - 1) * hops searches |
| Planner.CostsAreDetermined | crates/core/src/routing.rs:381-387 | hash order and ties cannot change how many routes are returned or what they cost: any two sets of best routes agree on both |
| Resolve.FirstInRole | crates/core/src/routing.rs:295-305 | the first address advertised in the role, or none exactly when there is none |
| Resolve.AddrForRole | crates/core/src/routing.rs:295-305 | an address exactly when the registry has an entry of the node in the role, and then the first such entry's |
| Resolve.ResolvesDialable | crates/core/src/routing.rs:245-278 | with a role asked of every hop, a path resolves if and only if the registry has an entry in its role for each node after the source, and then to all of them in order, each at its first such entry |
| Resolve.CollapsesToTarget | crates/core/src/routing.rs:246-262 | with no role asked of intermediates, a path collapses to its target alone, at the target's first entry in its role, if it has one |
| Resolve.ResolveAllMembers | crates/core/src/routing.rs:231-285 | the resolved routes are exactly those some planned route of some target resolves to |
| Resolve.PlanInOrder | crates/core/src/routing.rs:239-284 | resolving keeps the order of a plan |
| Resolve.ResolvedInOrder | crates/core/src/routing.rs:231-285 | and the order of the targets |
| Merge.SortSorts | crates/core/src/routing.rs:287 | sorting orders by score and neither adds nor loses a route |
| Merge.SortIsStable | crates/core/src/routing.rs:287 | sorting keeps all routes of each score, in their order |
| Merge.DedupeSound | crates/core/src/routing.rs:288-289 | retaining first sightings leaves no node sequence twice and keeps the order |
| Merge.DedupeKeepsFirsts | crates/core/src/routing.rs:288-289 | exactly those routes are kept that no earlier one shares its nodes with |
| Merge.MergedIsSound | crates/core/src/routing.rs:287-291 | the merge invents no route, repeats none, keeps score order and the limit |
| Merge.MergedIsComplete | crates/core/src/routing.rs:287-291 | a route is lost only to one of its own node sequence that is no dearer, or to a full page of routes no dearer |
| Merge.MergedHoldsFamily | crates/core/src/routing.rs:287-291 | n distinct routes of cost at most c, n within the limit, keep anything dearer out of the first n places |
| Candidates.ResolveHops | crates/core/src/routing.rs:241-274 | the hop loop, with its early exit, resolves the path or finds it undialable |
| Candidates.ResolveTarget | crates/core/src/routing.rs:239-284 | the candidate loop keeps exactly the dialable routes of a plan that name a hop |
| Candidates.KeepFirst | crates/core/src/routing.rs:288-289 | the retain with its growing set keeps the first route of each node sequence |
| Candidates.ResolveCandidates | crates/core/src/routing.rs:217-292 | results ascend, none twice, within the limit; with a hop role each is a real dialable path at its true cost, and for every target and page up to the limit the best are held exactly when the plans match every dialable path, and up to 32 always if every node a link leads to advertises the roles asked; with none each is a target a path of that cost leads to, and no target is lost but to a full page of the limit no dearer |
| Candidates.PathsAreTrails | crates/core/src/routing.rs:231-237 | the paths the ranking speaks of are the trails of the snapshot's usable links for the job's own source, target, protocols and budget, and cost what their cheapest trail does: ten a link and its round trip, or a thousand where none was measured |
| Candidates.RankingIsBest | crates/core/src/routing.rs:217-292 | the same of the ranking, whatever best plans it drew on |
| Candidates.ResultsAreRoutes | crates/core/src/routing.rs:239-283 | every result is a real loop-free path to some target at its true cost, every hop at the first address that node advertises in the role asked |
| Candidates.ResultsAreOrdered | crates/core/src/routing.rs:287-291 | results come in ascending score, no node sequence twice, within the limit |
| Candidates.BestDialableRoutes | crates/core/src/routing.rs:210-215 | a target whose plan came back short of the limit has its best dialable routes held for any page; one whose plan can be dialed throughout, for pages up to min(limit, 32) |
| Candidates.BestRoutesToAllTargets | crates/core/src/routing.rs:210-292 | if every node a link leads to advertises the roles asked, no path to any target is lost except to a page of min(limit, 32) results no dearer |
| Candidates.LostExactlyWhen | crates/core/src/routing.rs:239-291 | for any targets and any page up to the limit, a dialable path is lost if and only if no plan names it and the dialable planned routes do not fill a page that costs no more |
| Candidates.BestExactlyWhen | crates/core/src/routing.rs:210-291 | for any targets and any page up to the limit, the whole limit being what is promised, the ranking is best for a target if and only if every dialable path to it is named by some plan or matched by a page of dialable planned routes no dearer |
| Candidates.BestForOneTarget | crates/core/src/routing.rs:210-291 | with a single target that means: every planned route can be dialed and the page is at most 32, or the plan left no dialable path out |
| Candidates.LostIfNotPlanned | crates/core/src/routing.rs:239-291 | while the dialable planned routes fall short of a page of any length, every path no plan names is missing although the page is not full |
| Candidates.LostAboveCeiling | crates/core/src/routing.rs:394-395 | with a single target and a limit above 32, every dialable path beyond those planned is missing from a page that is not full, even where all can be dialed |
| Candidates.TellsBeforehand | crates/core/src/routing.rs:239-291 | any best plan a caller makes for itself settles it: if it falls short of the limit the ranking holds the best for any page; if every route no dearer than its own can be dialed, for pages up to min(limit, 32) |
| Candidates.BestTargets | crates/core/src/routing.rs:246-262 | with no role asked of intermediates, each result is a target at the cost of a real path to it, and no dialable target is lost, at no more than any path's cost, but to a full page no dearer |
| Crowded.CrowdedOut | crates/core/src/routing.rs:239-291 | on a concrete graph a dialable route exists and nothing is returned, whatever plan is chosen |
| Ceiling.LostAboveThirtyTwo | crates/core/src/routing.rs:394-395 | on a concrete graph of 33 parallel dialable routes and a limit of 33, some route is missing from a page that is not full, whatever plan is chosen |
| Wire.Direct | crates/proto/src/lib.rs:240-281 | conversion to a relayed message succeeds on exactly one message per relayed one: the same one sent directly |
| Encoding.SizeIsBytes | crates/proto/src/lib.rs:299-311 | the modelled size of a message is the number of bytes of its payload |
| Encoding.ReadableExactly | crates/proto/src/lib.rs:422-611 | a frame is taken if and only if its payload is at most 1048576 bytes and each string and list is within its bound, wrapped or not, and a tunnel names one to 32 hops |
| Encoding.ReckonedBytes | crates/proto/src/lib.rs:38-63 | the fill reckons a node or report at its strings' bytes, five for each length, and seven for a report's verdict and round trip |
| Wire.WrappedValidAlike | crates/proto/src/lib.rs:447-505 | wrapped and direct forms pass validation together, given an envelope in bounds |
| Wire.VarintWithinFive | crates/proto/src/lib.rs:34-37 | a varint takes at most five bytes if and only if the number is below 2 to the 35th |
| Wire.StrBoundHolds | crates/proto/src/lib.rs:38-40 | the string bound covers the encoding if and only if the string is shorter than 2 to the 35th bytes |
| Wire.NodeInfoBoundHolds | crates/proto/src/lib.rs:43-52 | the node bound covers the encoding of any node it admits to a frame |
| Wire.GraphReportBoundHolds | crates/proto/src/lib.rs:55-63 | the report bound covers the encoding of any report it admits to a frame |
| Wire.BudgetFitsFrame | crates/proto/src/lib.rs:24-30 | anything filled to the budget by these bounds is a frame within the maximum, for any strings |
| Wire.BoundedTunnelIsReadable | crates/proto/src/lib.rs:433-440 | one to 32 hops within bounds always fit a frame every reader accepts |
| Registry.RecordedKeepsCaps | crates/crawl/src/server.rs:82-110 | both the global and every peer's cap survive every report |
| Registry.RecordedExactly | crates/crawl/src/server.rs:82-110 | a report for a held key replaces its entry and nothing else; a new key is stored if and only if there is room, and what remains keeps its entry |
| Registry.StaleQuotaBlocks | crates/crawl/src/server.rs:88-106 | a peer whose whole quota is stale gets a new key in if and only if the table is full |
| Registry.RelayedLikeDirect | crates/crawl/src/server.rs:204-228 | a configured relay peer speaking for a client is judged, and changes the registry, exactly as that client would directly |
| Registry.UnbackedRelayWritesNothing | crates/crawl/src/server.rs:211-228 | a Head with no authenticated client, or not configured to relay, changes nothing |
| Registry.WritesStayInTheirLane | crates/crawl/src/server.rs:183-228 | an authenticated peer writes nothing under another node's id, except as a relay peer for its client; a report of that id can only go missing from a full table, and only once stale |
| Registry.HandledKeepsValid | crates/crawl/src/server.rs:230-454 | handling any validated message keeps everything held within the wire bounds and the caps |
| Registry.ReachableIsValid | crates/crawl/src/server.rs:230-528 | so every reachable registry holds only what validation lets in, within both caps |
| Registry.PurgeMissesOnlyStale | crates/crawl/src/server.rs:114-120 | over any run the table differs from a never-purged one only by entries already stale |
| Registry.PurgeIsUnobservable | crates/crawl/src/server.rs:597-608 | every later query has the same live reports as a table that keeps the last accepted report per key for ever |
| Crawl.CrawlState.ExpireReports | crates/crawl/src/server.rs:114-120 | drops exactly the observations older than the time to live, none when there is none, and changes no other |
| Crawl.CrawlState.RecordReport | crates/crawl/src/server.rs:82-110 | an update to a held key is always accepted and changes only that entry; a new key is accepted and stored if and only if fewer than 16384 entries and 1024 of its peer's remain, after dropping the stale from a full table |
| Crawl.CrawlState.Apply | crates/crawl/src/server.rs:465-528 | an authorized message changes the registry as specified and nothing else |
| Crawl.CrawlState.HandleMessage | crates/crawl/src/server.rs:230-454 | each message is judged and applied, gets the very ack its outcome calls for, and a query gets a snapshot answer |
| Crawl.CrawlState.FillNodes | crates/crawl/src/server.rs:572-595 | in any order every live node is sent or counted, within budget, and none left out would fit the room left |
| Crawl.CrawlState.FillReports | crates/crawl/src/server.rs:597-623 | in any order every live report is sent or counted, within the rest of the budget, and none left out would fit |
| Crawl.CrawlState.Snapshot | crates/crawl/src/server.rs:557-626 | sent plus dropped is everything live, within 1047552 bytes as reckoned, and nothing dropped, node or report, would fit the room left at the end |
| Snapshot.AnswerIsReadable | crates/crawl/src/server.rs:563-571 | the answer from any valid registry can be sent and passes the poller's checks |
| Snapshot.QueryAlwaysAnswered | crates/crawl/src/server.rs:557-626 | after any run of accepted frames, direct or relayed, a query's answer can be sent and is accepted |
| Snapshot.CompleteExactlyWhenItFits | crates/crawl/src/server.rs:572-625 | nothing is dropped if and only if everything live is reckoned at most 1047552 bytes |
| History.OneEvent | crates/crawl/src/server.rs:230-528 | an entitled hello stores just what it says under its own id, an entitled report records just what it says, direct or relayed, and nothing else changes anything |
| History.NodesAreLastHellos | crates/crawl/src/server.rs:260-268 | over any run, a node's entry is its last entitled hello and when that was heard |
| History.HeldKeysFollow | crates/crawl/src/server.rs:78-86 | the next entitled report for a held key is never refused, and is what is held from then on |
| History.FullTableIsLastReports | crates/crawl/src/server.rs:82-110 | without purging, a key's entry is its last entitled report that had room |
| History.TableIsLastReports | crates/crawl/src/server.rs:82-120 | over any run, so is every entry the purging table holds, and while it holds a key the last report heard is the one held |
| History.LiveReportsAreHeard | crates/crawl/src/server.rs:597-608 | what is live is exactly the keys last reported within the time to live about two nodes that have not gone quiet |
| History.AnswerSaysWhatWasHeard | crates/crawl/src/server.rs:557-626 | over any run, each node in an answer is its last entitled hello, each report the last accepted one for its key, within the time to live; and all of which that is true are sent or counted |
| Permits.TakeKeepsTally | crates/fetch/src/relay.rs:180-214 | a slot is granted exactly when neither cap is met, and either way the counters stay exactly the live slots |
| Permits.ReturnKeepsTally | crates/fetch/src/relay.rs:93-132 | returning a live slot removes just that slot, leaves no zero entry, and no subtraction saturates |
| Permits.ReturnUndoesTake | crates/fetch/src/relay.rs:93-106 | taking a slot and dropping it restores the counters |
| Permits.EmptyEntryLeftBehind | crates/fetch/src/relay.rs:203-207 | a zero entry is left behind if and only if the per-key cap is zero and the total had room |
| Permits.RelayRuntime.AcquirePending | crates/fetch/src/relay.rs:180-195 | takes a handshake slot exactly when granted, and changes no chain counter |
| Permits.RelayRuntime.Acquire | crates/fetch/src/relay.rs:198-214 | takes a chain slot exactly when granted, and changes no handshake counter |
| Permits.RelayRuntime.DropPermit | crates/fetch/src/relay.rs:93-106 | returns one chain slot of this peer |
| Permits.RelayRuntime.DropPending | crates/fetch/src/relay.rs:121-132 | returns one handshake slot of this address |
| Permits.AcceptIsSound | crates/fetch/src/relay.rs:233-242 | a connection gets a handshake slot if and only if the live ones leave room in both caps, and either way both counters stay exact and within caps |
| Permits.AdmitIsSound | crates/fetch/src/relay.rs:332-342 | a chain is admitted if and only if the live ones leave room in both caps, and either way both counters stay exact and within caps |
| Permits.DropPermitIsSound | crates/fetch/src/relay.rs:276-284 | whenever a chain slot is dropped, neither subtraction saturates and both counters stay exact |
| Permits.DropPendingIsSound | crates/fetch/src/relay.rs:276-296 | whenever a handshake slot is dropped, neither subtraction saturates and both counters stay exact |
| Permits.RunsAreSound | crates/fetch/src/relay.rs:262-358 | in every interleaving of accepts, admissions, refusals, timeouts and closes the counters are exactly the live slots and no cap is exceeded |
| Permits.AllGoneAllZero | crates/fetch/src/relay.rs:83-87 | once every connection has ended, totals and maps are empty again |
| Beacon.Answered.Allow | crates/beacon/src/lib.rs:94-105 | allows if and only if this host was not answered within the second and fewer than 64 were, records exactly then, and forgets exactly what is older |
| Beacon.PrunedHosts | crates/beacon/src/lib.rs:97-98 | what pruning leaves is exactly the hosts answered within the gap |
| Beacon.TableDecidesAlike | crates/beacon/src/lib.rs:94-105 | a table that tracks a history decides as the history does |
| Beacon.HistoryDecides | crates/beacon/src/lib.rs:44-51 | the full history allows if and only if it has no answer to this host within the second and fewer than 64 to anyone |
| Beacon.DecidesAsHistory | crates/beacon/src/lib.rs:94-105 | after any requests in time order the limiter decides exactly as the full answer history would |
| Beacon.AnswersAreSpaced | crates/beacon/src/lib.rs:44-46 | two answers to one host are at least the gap apart |
| Beacon.WindowIsCapped | crates/beacon/src/lib.rs:48-51 | any half-open window of one gap holds at most 64 answers |
| Chain.Validate | crates/fetch/src/relay.rs:362-377 | each refusal exactly when its own check fails and no earlier one does, and none exactly when the list is short enough, starts with this node and has no loop |
| Chain.Vocabulary | crates/fetch/src/relay.rs:40-62 | the statuses passed on are exactly the ten of the list |
| Chain.SanitisedIsKnown | crates/fetch/src/relay.rs:40-62 | sanitising yields a known status, changes nothing the second time, and is ready only for a ready ack |
| Chain.TailRefusal | crates/fetch/src/relay.rs:362-377 | the tail of an accepted list never loops, and fails at the next relay only for its own limit or name |
| Chain.BehindReady | crates/fetch/src/relay.rs:302-554 | behind every ready ack lie the checks and the slot, then the relay's own upstream for a last hop, or the next hop, the tail and a ready reply, in that order |
| Chain.Terminate | crates/fetch/src/relay.rs:425-462 | one ack, ready only after its upstream was reached, and the inner session only after that ack |
| Chain.Forward | crates/fetch/src/relay.rs:482-554 | dials exactly the hop named next, sends it exactly the tail, reads one reply, and only then acks what that comes to; splices exactly on a ready reply |
| Chain.WhoIsForbidden | crates/fetch/src/relay.rs:170-172 | with a list of allowed peers, one not on it gets only `relay_forbidden`, and that status goes to nobody else, except passed on from a later hop |
| Chain.Handshake | crates/fetch/src/relay.rs:302-358 | the checks in the code's order, each with its own status; the frame is heard out first, one ack is sent, a slot is taken exactly when the relay's counters grant it and only for a peer on the list there may be, and nothing is dialed without one |
| Chain.HandshakeIsGuarded | crates/fetch/src/relay.rs:302-358 | answers are known statuses; ready if and only if every check passed, the counters granted a slot, and the upstream or next hop was ready; only a tail is ever forwarded |
| Chain.HandshakeOutright | crates/fetch/src/relay.rs:302-554 | what every frame comes to, check by check, in the literal statuses |
| ChainRun.StepIsOk | crates/fetch/src/relay.rs:302-554 | every step of any relay or of the environment keeps the chain invariant |
| ChainRun.RunsAreOk | crates/fetch/src/relay.rs:302-554 | the invariant holds throughout every run |
| ChainRun.ReachedBeforeReady | crates/fetch/src/relay.rs:400-451 | a last hop that answered ready had reached its upstream in an earlier state, before answering anything |
| ChainRun.ReadyMeansReady | crates/fetch/src/chain.rs:51-55 | hearing ready means every hop checked its tail, has the node before it on its list if it has one, and took a slot its counters granted, over the whole route, and the last had reached its upstream in an earlier state in which nobody had answered, unless a misbehaving node ends the chain |
| ChainRun.SlotsAreCounted | crates/fetch/src/relay.rs:198-214 | a relay with the counters of a run of its own accounting is busy if and only if its live slots meet a cap, and a hop it clears is one of the slots it counts from then on |
| ChainRun.RefusalTravelsUnchanged | crates/fetch/src/relay.rs:50-56 | a status an honest hop answers is all that any hop before it answers and all the originator hears |
| ChainRun.OnlyKnownStatusesTravel | crates/fetch/src/relay.rs:517-551 | whatever frame a misbehaving hop sends, honest hops answer from the closed vocabulary |
| ChainRun.NoNodeTwice | crates/fetch/src/relay.rs:509-515 | no node is entered twice and the hop list is one shorter at each hop |
| ChainRun.EveryAnswerIsAHandshake | crates/fetch/src/relay.rs:302-554 | every honest answer in a run is what the single-relay handshake gives, fed the next hop's real answer |
| ChainRun.StepsLeftShrink | crates/fetch/src/relay.rs:262-297 | every step uses up some of a bounded measure |
| ChainRun.RunsEnd | crates/fetch/src/relay.rs:262-297 | establishing a chain of n hops takes at most 5n + 1 steps |
| ChainRun.NeverStuck | crates/fetch/src/relay.rs:302-554 | while nobody has gone away and the originator has not heard, some step other than giving up is possible |
| ChainRun.EndsHeard | crates/fetch/src/relay.rs:302-554 | a run that can only end by giving up, though nobody has, has been heard, every hop has answered, and what was heard is what each honest one said |
| Willing.WillingChainsComeUp | crates/fetch/src/relay.rs:302-554 | over a route of any length whose relays are all willing, some run ends with the originator hearing ready |
| Tunnel.KeptLinksAreReported | crates/fetch/src/graph.rs:113-122 | every link planned over was reported |
| Tunnel.LinksSayWhatReportsSay | crates/fetch/src/graph.rs:113-122 | a link planned over has the nodes, protocol, verdict and round trip of its report |
| Tunnel.LastEntryIsListed | crates/fetch/src/graph.rs:130-141 | the addresses and roles listed for a node are those of its last entry, in order, and only nodes with an entry are listed |
| Tunnel.HopsAreBounded | crates/fetch/src/graph.rs:113-141 | hops ranked over a validated snapshot have ids and addresses within the wire bounds |
| Tunnel.HopsAreDistinct | crates/fetch/src/chain.rs:41-49 | a ranked route names one to 32 distinct nodes |
| Tunnel.RoutesFormTunnels | crates/fetch/src/relay.rs:362-377 | any ranked route opens as a frame every reader takes, and each relay in turn refuses its tail only for its own length limit |
| Originator.Establish | crates/fetch/src/chain.rs:25-62 | dials the first hop, sends the whole list once, yields a stream exactly on a ready ack and the last hop's own proof, and tells every other outcome apart exactly |
| Originator.RankedRoutesAreSendable | crates/fetch/src/chain.rs:30-49 | a ranked route over a validated snapshot always names a hop and fits its frame |
| Originator.RankedRoutesAreTaken | crates/fetch/src/relay.rs:362-377 | along a ranked route of honest relays the originator never hears misaddressed or path loops, in any run |
| Originator.EstablishedRunsTheWholeRoute | crates/fetch/src/chain.rs:25-62 | answered by a run through honest relays, an established chain runs through every node of the route in order, all checks passed, the target's upstream reached before anybody answered, and the target itself proven |
| Originator.EstablishedOrTold | crates/fetch/src/chain.rs:51-61 | once such a run can only end by giving up, though nobody has, the reply is a known status that every hop answered, and the chain opens if and only if it is ready and the target proves itself |
| Splice.StepKeepsInv | crates/fetch/src/relay.rs:583-641 | every interleaved step of the two pumps and the watchdog keeps the splice invariant |
| Splice.ClockIsLastRead | crates/fetch/src/relay.rs:633-638 | the shared clock is always the time of the last read in either direction |
| Splice.SpliceIsFair | crates/fetch/src/relay.rs:583-641 | each direction delivered a prefix of what it read; a normal end comes only after both inputs ended and all was delivered; no splice runs on, and an idle cut falls at least idle and less than idle plus max(idle / 4, 10 ms) after the last read |
| Splice.BothWaysComeThrough | crates/fetch/src/relay.rs:583-641 | any two pieces that fit the buffer can cross in opposite directions and the splice then ends normally |
| Splice.PumpLoop | crates/fetch/src/relay.rs:624-641 | delivers a first part of what could be read, all of it exactly when neither side fails, and stamps the clock with the last read |

## Left out

- TLS, certificates, names in them, and revocation: an authenticated connection just carries the peer id it proved.
- Sockets, task scheduling, logging and configuration loading.
- Decoding, and the bytes of a beacon: the postcard encoding is modelled only to count its bytes, and what a reader rejects as undecodable is not modelled.
- Error texts of validation: a validator is the predicate of what it lets through.
- Doubles: scores are whole numbers, exact for the default scorer; rounding and NaN of other scorers are not modelled.
- Which of several equally cheap routes, or equally good addresses, is chosen beyond what the code fixes: it depends on hash order.
- Head's HTTP proxying and health labels, the retry loops over ranked routes, the CLI, branding and test certificates.
- Splice.PumpLoop: runs alone over the arrivals of one side; how two of them and the watchdog interleave is the state machine of the same module, which reads and writes by value rather than through the loop.
- Splice.SpliceIsFair: sleeps are exact, so a late timer is not modelled; times are nanoseconds, to which the quarter window is rounded as `Duration` rounds it.
- ChainRun.StepIsOk: the relays of a chain are stages of a state machine rather than running methods; `ChainRun.EveryAnswerIsAHandshake` ties its answers to `Chain.Handshake`.
- ChainRun.ReadyMeansReady: a misbehaving node ends the modelled chain; what it does with the rest of the route is its own affair.
- ChainRun.SlotsAreCounted: what else a relay carries when it judges is the environment's choice; the runs of its accounting are those of `Permits`, not interleaved step by step with the chain.
- Permits.RunsAreSound: the steps are the critical sections of one mutex, so what happens between them is not modelled.
- Crawl.CrawlState.HandleMessage: one message at a time under the state's lock; reading frames off the connection is `Wire.Readable`.
