# someguy, verified

A Dafny 4.11 model of the four stateful cores of someguy's routing pipeline, with proofs about every
run of them. `dafny verify dfyconfig.toml` checks the whole project.

**`/dnsaddr` expansion** (`Multiaddrs`, `CacheKey`, `DnsCache`, `Expansion`, `ExpansionProofs`,
`Attribution`, `Resolution`, `ResolutionProofs`, `Resolver`, `Router`). `Resolver` holds the resolver as classes that
update their cache, budget and room in place. Each method is proved equal to a function over an
environment script: a script fixes, observation by observation, whether the request is still alive,
what the clock says, what other requests and the LRU did to the cache, and what a query comes back
with, so a statement about all scripts is one about all behaviours of DNS, of the other requests and
of the client. The proofs compare that function with `Refer`, an expansion without cache, budget, room
or failures, and `Attribution` says what `Refer` is in terms of address components and zone entries alone.

**Lookup protocol** (`SingleFlight`). Any number of requests, detached queries, single flight, an LRU
that may drop anything, and a clock, one step per atomic action.

**Cache-fallback iterator** (`FallbackIter`, `FallbackCounting`, `FallbackDelivery`,
`FallbackContents`, `FallbackResults`, `FallbackRuns`, `FallbackSchedule`, `FallbackConsumer`). Any number
of iterators, each a consumer and its detached lookups, over one pool of slots; deferred actions run in
reverse order, so a slot is released before the counter goes down. `FallbackConsumer` holds the iterator
as a class whose `Next` and lookups update its fields in place; every state it reaches is one the machine
reaches, so what is proved about all runs of the machine is true of the class. `FallbackSchedule` scripts
what the cache, the gate, the slot pool and the lookups do meanwhile, and says what a turn of the loop of
`Next` makes of it.

**Merge and selection** (`ManyIter`, `ManyIterClient`, `Ipns`, `AddrOrder`). The fan-in over an
unbuffered channel as a machine and as a class tied to it, the first-valid-wins loop as a method, and the
canonical order of addresses.

**Address book** (`AddrTables`, `AddrBook`, `AddrBookEvents`, `Backoff`). The handlers as methods of a
class, the event loop interleaved with everything else that touches the book, one step per peerstore
operation, and the backoff in 64-bit nanoseconds.

A Go string is a `seq<char>`, one `char` a byte. Peer ID decoding, the byte encoding of an address and
the private and public tests are function parameters. Times of the DNS cache are in seconds, those of
the backoff in nanoseconds.

## What turned out not to hold

- "Everything found is delivered": `Next` stops when its counter is zero and does not drain the buffer
  (`FallbackResults.ResultsCanBeLeftBehind` is such a run). At the end everything found was delivered
  if and only if nothing with addresses is left in the buffer and nothing found was dropped or abandoned
  (`FallbackResults.EverythingFoundIsDeliveredExactlyWhen`); the step that leaves something behind is a
  look at the counter when it is zero and something found is in the buffer
  (`FallbackResults.LoadLeavesBehindExactlyWhen`).
- The 64-bit backoff is the documented one up to 22 failures and for a few larger counts
  (`Backoff.ExactExactlyWhen`). Failures recorded through the gate never get past seven. The peer
  endpoint records failures without the gate: from the 23rd on, but for those few counts, the peer may
  be probed a nanosecond after the last failure and at any time later
  (`Backoff.UngatedFailuresReopenTheGate`, `Backoff.GateOpensExactlyWhen`).
- The comment at cached_addr_book.go:357-359 says that an identify never leaves a peer with zero
  addresses. It does in two cases, when no dialed connection is open: a signed record is rejected and
  there are no listen addresses, or a signed record without addresses is accepted, whatever the listen
  addresses (`AddrBook.IdentifyEmptiesExactlyWhen`, `AddrBook.EmptyingIdentifiesExist`).
- A record without a `/dnsaddr` keeps its repeats; only a rebuilt list is duplicate-free
  (`ResolutionProofs.ResolvedIsBounded`).
- Two `/dnsaddr` addresses with different remainders share a cache key if the remainders are rendered
  alike, which takes a path protocol whose value holds a slash (`CacheKeys.KeySeparatesRenderings`,
  `CacheKeys.PathValuesCanCollide`).
- Between taking a slot and counting its lookup an iterator holds a slot with a zero counter
  (`FallbackCounting.ZeroCounterHoldsNothing`).
- `manyIter` closes its children only on an early `Close`: once `Next` has returned false, `Close` does
  nothing (`ManyIter.ClosedOnceOrNever`).

## Model

| member | source | states |
|---|---|---|
| Multiaddrs.SplitByConcatenation | dnsaddr.go:383-396 | a last /p2p component is split off, with its peer ID if that can be read; any other address is left alone |
| Multiaddrs.ProtocolTests | dnsaddr.go:195-206 | component by component, what a /dnsaddr, a relay address and a bare /dnsaddr/<host> are |
| CacheKeys.AsciiLowerBuffer | dnsaddr.go:160-174 | folds A-Z to a-z and leaves every other byte, non-ASCII included, where and what it was |
| CacheKeys.LowerIdempotent | dnsaddr.go:154-174 | folding twice is folding once |
| CacheKeys.KeySeparatesRenderings | dnsaddr.go:176-193 | two /dnsaddr addresses share a cache entry exactly when their hosts agree up to ASCII case and one trailing dot and what follows is rendered alike |
| CacheKeys.KeySeparatesNames | dnsaddr.go:176-193 | where no value holds a slash, exactly when the hosts agree so and the remainders are identical |
| CacheKeys.PathValuesCanCollide | dnsaddr.go:184-193 | where one does, different remainders can share an entry |
| ExpansionProofs.ExpandSound | dnsaddr.go:331-381 | under any failures and limits the output is an order-keeping subsequence of the reference at that depth, and `complete` means it is all of it |
| ExpansionProofs.CompleteIsTheExpansion | dnsaddr.go:333-336 | a complete output is the one unlimited expansion of the name, so every complete run agrees with it |
| ExpansionProofs.CompleteExactlyWhen | dnsaddr.go:337-381 | with DNS answering and budget for every name, complete if and only if the depth cuts nothing off and the room lasts to the last entry |
| ExpansionProofs.FailuresCostOnlyTheirPart | dnsaddr.go:337-381 | with room and budget enough, an expansion in which some names fail is the reference without what those names stand for: the rest is followed all the same, in its order |
| Attribution.ReferIsWhatItLeadsTo | dnsaddr.go:337-396 | the reference expansion holds exactly what a chain of names leads to: entries published with this peer's ID, an unreadable one or none |
| Attribution.DeadEndsCostNothing | dnsaddr.go:337-353 | no depth, no room, a request that is over, or anything but /dnsaddr/<host>: nothing comes out, nothing is asked, nothing is spent |
| ExpansionProofs.CompleteIgnoresLimits | dnsaddr.go:337-381 | a complete run is the same run, output and observations, under every larger depth, room and budget |
| ExpansionProofs.RoomCutsAPrefix | dnsaddr.go:337-381 | a smaller room gives exactly the first min(room, all) addresses of a larger one, for no more queries, under every environment |
| ExpansionProofs.ExpandAccounts | dnsaddr.go:95-115 | room used is addresses returned, queries asked for are budget spent, and nothing returned is empty or a /dnsaddr |
| Resolver.DnsAddrBudget.Spend | dnsaddr.go:107-115 | one unit is taken exactly when there is one |
| Resolver.DnsAddrResolver.Resolve | dnsaddr.go:249-283 | what an outcome leaves in the cache under its key and nowhere else, 5 minutes for an answer or a timeout, 15 for a hard failure or an empty answer |
| Resolver.DnsAddrResolver.LookupName | dnsaddr.go:208-247 | an unexpired entry is returned as it is, for free; otherwise a dead request or an empty budget asks nothing and learns nothing, and any other asks once for one unit and is told what DNS said, which is what is stored |
| Resolver.DnsAddrResolver.ExpandAddr | dnsaddr.go:331-381 | the recursion over shared cache, budget and room computes the expansion the proofs are about, output, flag and whole final state |
| Resolver.DnsAddrResolver.ExpandEach | dnsaddr.go:355-380 | the loop over one lookup's results does, early return included |
| Resolver.DnsAddrResolver.ResolveAddrs | dnsaddr.go:285-329 | the record's new addresses and the whole final state are those `ResolutionProofs` is about; at most 100 more addresses than before, and queries equal budget spent |
| Resolver.AppendUnique | dnsaddr.go:416-429 | appends unless empty or already rendered, reports whether it did, and keeps the set of renderings exact |
| ResolutionProofs.ResolvedIsBounded | dnsaddr.go:299-329 | at most as many addresses as before plus the room; no repeats exactly when there was a /dnsaddr or there were none before; queries equal budget spent |
| ResolutionProofs.NoProviderLost | dnsaddr.go:285-298 | a non-/dnsaddr survives; a /dnsaddr that names no other peer survives or it leads somewhere and everything it leads to, by any number of names, is in the response |
| ResolutionProofs.SurvivorHasReason | dnsaddr.go:319-325 | a /dnsaddr of the response names no other peer and is kept in append mode or because its expansion was incomplete or empty |
| ResolutionProofs.ReasonKeeps | dnsaddr.go:319-325 | each of these reasons is enough, and what it was expanded to is served in any mode |
| ResolutionProofs.NothingForeign | dnsaddr.go:308-322 | every address of the response was in the record and is no /dnsaddr of another peer, or a /dnsaddr that names no other peer leads to it by at most four names and a TXT entry publishes it, with this peer's ID, an unreadable one or none |
| ResolutionProofs.FirstOccurrenceOrder | dnsaddr.go:304-328 | what earlier addresses offered is a prefix of the response, and an input comes right after it unless already there |
| AddrOrder.CompareIsTotalOrder | server_routers.go:654-664 | compareAddrs is total and transitive and ties only equal addresses |
| AddrOrder.CompareBytesIsTheOrder | server_routers.go:654-664 | encodings compare by their first difference, a prefix first |
| AddrOrder.SortedIsEasiestFirst | server_routers.go:675-697 | by protocol codes: IP addresses, then DNS names, then /dnsaddr, then the rest, then relays; equally easy ones by their encoding |
| AddrOrder.SortSorts | server_routers.go:666-673 | a comparison sort returns a sorted permutation |
| AddrOrder.SortedUnique | server_routers.go:649-649 | there is one sorted list of the same addresses, so the sorting algorithm does not matter |
| AddrOrder.FilterPrivateMultiaddr | server_routers.go:638-652 | the loop and the sort keep exactly the public addresses, easiest first |
| AddrOrder.CanonicalForm | server_routers.go:638-697 | the same list for every permutation of the input, holding each public address as often as the input and no private one, easier to dial first, relays last |
| Router.DnsAddrRouter.ResolveRecordAddrs | server_routers.go:718-734 | a record is served easiest first, resolved and filtered when it is to be resolved; without an ID, without a /dnsaddr or when skipping it keeps its addresses and nothing is touched |
| Router.DnsAddrRouter.ResolveResponse | server_routers.go:742-783 | every record is served in turn on one budget, errors and nils and other schemas are passed on as they are, and the whole response asks for at most 16 queries |
| Router.ResponseAccounts | server_routers.go:772-783 | over all records the queries asked for are the budget spent, and every record starts with the full room |
| Router.ServedInOrder | server_routers.go:718-734 | every path serves sorted addresses, relays last; the resolving path serves nothing private whatever names resolve to, the others lose nothing |
| Router.ActionsOnDnsAddrs | server_routers.go:725-734 | skipping and appending keep a public /dnsaddr that names no other peer; replacing keeps it exactly for an incomplete or empty expansion |
| SingleFlight.SeveredIsNeverCanceled | dnsaddr.go:230-236 | a query cut off from its request can run into its own timeout but never into a cancellation |
| SingleFlight.OneQueryPerName | dnsaddr.go:135-138 | in every run at most one query per name is in flight |
| SingleFlight.CacheHoldsRealOutcomes | dnsaddr.go:249-283 | in every run a cached entry is a real DNS outcome for its name, never a cancellation, with the expiry of its kind |
| SingleFlight.RequestsGetRealOutcomes | dnsaddr.go:208-247 | what a request gets from cache or flight is a real outcome for the name it asked, and not expired when it comes from the cache |
| SingleFlight.CacheAnswersExactlyWhen | dnsaddr.go:216-219 | a look at the cache is a hit exactly when the name is there and has not expired |
| SingleFlight.TimesOutAfterASecond | dnsaddr.go:249-266 | a query times out a second after it began, and not before |
| SingleFlight.WaitersAreServed | dnsaddr.go:230-246 | whatever else happens, a waiting request is at most four steps of its flight away from its result, each counted once and none undone; until then the flight is the one others join and can move on without any request |
| SingleFlight.CacheIsConsistent | dnsaddr.go:208-247 | with stable answers the protocol leaves a cache the expansion proofs may start from |
| FallbackCounting.SlotsAreAccounted | cached_addr_book.go:220-240 | the pool holds exactly the slots of unreleased lookups and of consumers about to start one, and never more than its capacity |
| FallbackCounting.ZeroCounterHoldsNothing | server_cached_router.go:261-269 | a zero counter means every lookup is over and no slot is held, but for the instant between taking a slot and counting |
| FallbackCounting.LookupsNeverBlock | cached_addr_book.go:237-240 | no lookup blocks in any run; in particular there is always a slot to give back |
| FallbackCounting.WaitsOnlyForLookups | server_cached_router.go:278-289 | Next waits exactly when one of its own lookups is unfinished, so a refused dispatch cannot make it wait |
| FallbackResults.LookupsAreConserved | server_cached_router.go:326-376 | dispatched lookups are those searching, buffered, delivered, discarded, dropped or abandoned, counted by what the buffer and the response really hold; what these hold is what the lookups sent, and only results without addresses are discarded |
| FallbackResults.FateWasRight | server_cached_router.go:341-360 | each lookup past sending got there by one step of the run: it sent what is on record for it, which was dropped exactly when the buffer was full then, or the response was canceled then |
| FallbackResults.CancelStopsSearchingLookups | server_cached_router.go:341-344 | a lookup still searching when the response is canceled never sends anything |
| FallbackResults.SourceIsConserved | server_cached_router.go:237-276 | every source record read is kept, skipped, being decided, or dispatched to exactly one lookup; kept exactly when it or the cache has addresses |
| FallbackResults.DeliveriesInOrder | server_cached_router.go:237-307 | the response is the source records themselves, in source order, those without addresses completed with what the cache held when they were read and left out if it held nothing, and then what lookups found, with addresses, each lookup at most once |
| FallbackResults.EndOfResponse | server_cached_router.go:278-283 | when Next ends without cancel all lookups are over, and up to 100 of them are delivered, left in the buffer or discarded because they found nothing, none dropped |
| FallbackResults.EverythingFoundIsDeliveredExactlyWhen | server_cached_router.go:278-283 | at the end everything found was delivered if and only if nothing found is in the buffer, dropped or abandoned |
| FallbackResults.LoadLeavesBehindExactlyWhen | server_cached_router.go:279-283 | the look at the counter ends the response and leaves something found behind if and only if it is zero and something found is in the buffer |
| FallbackResults.EndIsFinal | server_cached_router.go:237-283 | after that end every further call of Next serves nothing and the buffer stays as it is, whatever happens |
| FallbackResults.ResultsCanBeLeftBehind | server_cached_router.go:278-283 | a run in which a found result stays in the buffer when Next returns false |
| FallbackResults.ConsumerProgresses | server_cached_router.go:237-307 | every consumer step but the timer decreases unread records, then outstanding lookups, then its position; no other step sets it back |
| FallbackResults.ConsumerNeverStuck | server_cached_router.go:237-307 | in every reachable state inside Next the consumer can move |
| FallbackRuns.IsReachable | server_cached_router.go:237-376 | whatever one iterator does by itself is a run of the system of iterators, so the results above hold for the class |
| FallbackRuns.EndSettles | server_cached_router.go:278-283 | both end results above, for the class |
| FallbackConsumer.CacheFallbackIter.Next | server_cached_router.go:237-307 | one more delivery, the current one, or none and either the context is done or everything is settled; a peer without addresses is served with what the cache holds when it is read, and no record that could be served is passed over; what it does is turn by turn what the schedule makes of it; it ends under every schedule unless its timer goes off more than `patience` times |
| FallbackSchedule.TurnServesTheSource | server_cached_router.go:240-276 | one turn with a record to read: it is served, completed from the cache at that tick, or exactly one lookup is started for it if that is granted and none if not |
| FallbackSchedule.TurnAwaitsLookups | server_cached_router.go:278-305 | one turn with an exhausted source: the end at a zero counter, else the oldest result if that is what wakes it, the end of the context, or another turn |
| FallbackConsumer.CacheFallbackIter.PullSource | server_cached_router.go:240-261 | one record is taken, remembered in the address book if it is a provider record with addresses of its own, completed from the cache, kept if it has addresses, or left to be decided |
| FallbackConsumer.RememberedIsWhatCame | server_cached_router.go:247-255 | what is remembered in the address book: for a provider response the addresses each peer came with, nothing read back from the cache |
| FallbackConsumer.CacheFallbackIter.Dispatch | server_cached_router.go:262-272 | exactly one lookup for the record if the gate and the pool grant it, else nothing; the consumer is back at the source either way |
| FallbackConsumer.CacheFallbackIter.AwaitLookup | server_cached_router.go:278-305 | stops only on a zero counter or a done context; a discarded result leaves fewer outstanding lookups |
| FallbackConsumer.CacheFallbackIter.Wait | server_cached_router.go:291-305 | takes the oldest result when that is what wakes it, and does what the schedule picks otherwise |
| FallbackConsumer.CacheFallbackIter.OtherStep | server_cached_router.go:326-376 | each action of a lookup changes the fields as the machine says and takes nothing from the consumer |
| ManyIter.MergesTheChildren | server_routers.go:170-219 | received values merge prefixes of the children's outputs in order; all of them when Next returns false and nothing was canceled |
| ManyIter.ClosedOnceOrNever | server_routers.go:225-248 | an early Close ends with a closed channel and every child closed once; after Next returned false no child is ever closed |
| ManyIter.CallsComeToAnEnd | server_routers.go:202-248 | inside Next and Close some step is always possible and every step uses up finite work |
| ManyIter.WorkIsBoundedByChildren | server_routers.go:202-248 | however much the children produce, Next takes a number of steps bounded by the number of children, and Close is set back by nothing but a child that hands over another value |
| ManyIterClient.ManyIterator.Next | server_routers.go:202-219 | returns under every schedule of the goroutines: one more value, or false, after which it stays false; received values merge prefixes of the children, all of them if it is false and the context lives; the context is done afterwards exactly if it was or was canceled meanwhile |
| ManyIterClient.ManyIterator.Close | server_routers.go:225-248 | returns under every schedule; an early one leaves a closed channel, no goroutine and every child closed once, and reports exactly the errors of the children; a late one changes nothing |
| Ipns.GetIpns | server_routers.go:264-350 | what is served is an answer of some router whose end, if it has a readable one, has not passed; under a live context "not found" comes exactly when every answer is not found, not supported or past its end, and a record exactly when one can be used; otherwise the errors in the order they came |
| Ipns.SelectLive | server_routers.go:317-349 | what a live loop returns, from the set of outcomes alone |
| Ipns.OrderDoesNotMatter | server_routers.go:279-350 | every arrival order gives the same kind of answer: a record exactly when one is unexpired, not found exactly when all are missing or expired, else all errors |
| Ipns.ContextEndsTheWait | server_routers.go:317-345 | the end of the context before a usable answer, or found with an error, is what the caller gets |
| AddrBook.SplitRelayAddrs | cached_addr_book.go:554-565 | splits into direct and relay, each in order and complete |
| AddrBook.CachedAddrBook.CapRelayAddrTtl | cached_addr_book.go:567-575 | every relay address ends on the relay TTL, everything else is untouched |
| AddrBook.CachedAddrBook.ReplacePeerAddrs | cached_addr_book.go:324-374 | the TTL of every address afterwards, stale ones gone, sessions kept; an empty identify changes nothing; when the peer is left without addresses |
| AddrBook.IdentifyEmptiesExactlyWhen | cached_addr_book.go:335-374 | a peer has no addresses after an identify if and only if the identify replaces the set by nothing, or replaces nothing and there were none before |
| AddrBook.EmptyingIdentifiesExist | cached_addr_book.go:341-361 | both kinds of identify that replace the set by nothing |
| AddrBook.CachedAddrBook.HandleIdentify | cached_addr_book.go:269-298 | the peer counts as never failed; from the identify and the connections alone, the TTL of every address: the remote of a connection the peer did not open is on the connected TTL, an inbound one is gone unless advertised |
| AddrBook.CachedAddrBook.HandleConnectednessChanged | cached_addr_book.go:299-307 | after a disconnect nothing is on the connected TTL and each relay is on the relay TTL |
| AddrBook.CachedAddrBook.CacheAddrs | cached_addr_book.go:459-490 | a relay is put on the relay TTL and any other address on the one of recent connections, never shortening one, private addresses and all others untouched |
| AddrBook.CachedAddrBook.RecordFailedConnection | cached_addr_book.go:492-512 | a peer with two or more failures, the last more than 48 h ago, is removed with its addresses; any other failure is counted and dated |
| AddrBook.CachedAddrBook.ShouldProbePeer | cached_addr_book.go:514-535 | an unknown peer and one that never failed may be probed; after 1 to 22 failures exactly when min(2^(n-1) h, 48 h) have passed |
| AddrBook.CachedAddrBook.FindPeers | server_cached_router.go:104-146 | cache first; "not found" is recorded as a failure, another error is handed on and recorded nowhere; records without addresses are completed |
| AddrBookEvents.ConnectedTtlMeansSession | cached_addr_book.go:267-307 | in every interleaving an address on the connected TTL belongs to a connected peer or one whose disconnect is pending |
| AddrBookEvents.RelaysArePerishable | cached_addr_book.go:363-373 | between events every relay address is on the relay TTL or on that of a session |
| AddrBookEvents.DisconnectSettles | cached_addr_book.go:299-306 | after a handled disconnect every relay address of the peer has exactly the relay TTL, whatever was interleaved |
| AddrBookEvents.AloneItIsTheHandler | cached_addr_book.go:269-298 | run without interleaving, the loop's steps for an identify give the TTLs of the sequential handler |
| AddrBookEvents.AloneItIsTheDisconnectHandler | cached_addr_book.go:299-306 | and so do its steps for a disconnect |
| Backoff.ExactUpTo22 | cached_addr_book.go:522-531 | up to 22 failures the machine result is min(2^(n-1) h, 48 h) |
| Backoff.IdealGrows | cached_addr_book.go:524-528 | that backoff never shrinks and stays between 1 h and 48 h |
| Backoff.ExactExactlyWhen | cached_addr_book.go:522-531 | for every count, when the 64-bit result is the documented one |
| Backoff.EighthFailureEvicts | cached_addr_book.go:500-508 | a gated failure after seven removes the peer |
| Backoff.GatedRunsStayExact | cached_addr_book.go:494-535 | in every gated run at most seven failures are counted and the backoff is exact |
| Backoff.GateOpensExactlyWhen | cached_addr_book.go:516-535 | for every count of failures and every time since the last one, when the gate is open |
| Backoff.UngatedFailuresReopenTheGate | server_cached_router.go:123-127 | for failures recorded at any times not further apart than the maximum backoff: after how many the gate is open within the hour it is meant to hold |

## Left out

- Multiaddr, CID, peer ID and IPNS encoding and signature checks: parameters or uninterpreted.
- The rendering of a path protocol leaves out a slash its value starts with; here it is always there.
- FallbackResults.ConsumerProgresses: the source is a finite list, so a source that blocks or comes back after its end is not modelled; in the source its `Next` may block.
- ManyIter.CallsComeToAnEnd: children produce finitely many values; `WorkIsBoundedByChildren` says what does not depend on that. With an endless child a drained Close ends only because the goroutine happens to pick the canceled context.
- AddrOrder.SortSorts: `slices.SortFunc` is a library sort; an insertion sort stands for it, and `SortedUnique` makes the choice irrelevant.
- AddrBookEvents.ConnectedTtlMeansSession: a disconnect is in the queue from the moment the network drops the peer; the emitter of the network library is part of the queue.
- The address book stores a TTL per address; expiry is a step that may remove any address at any time.
- FallbackConsumer.CacheFallbackIter.Next: gives up after `patience` expiries of its timer, because a lookup that never ends would keep it for ever; the 100 ms of the timer is not modelled, it may fire at any time.
- FallbackConsumer: the source reuses the record it was handed, which the class copies; a `Close` while `Next` is running is a cancel between two of its actions.
- ManyIterClient.ManyIterator.Next: the `Next` of a child returns, as it must for manyIter to return.
- Several requests that resolve at once: the expansion sees the others through the cache only, as the script changes it between two observations.
- Wrap-around of the failure counter itself and of clock differences.
- The probe loop's semaphore and ticker, metrics, logging, HTTP serving, command line: plumbing or easy members.
- `parallelRouter.PutIPNS` and `find`: short loops over routers.
