# Verified model of iroh's core logic

A Dafny model of the parts of iroh, an IPFS implementation in Rust, whose correctness depends on state and on
long runs, with proofs over every input, every run or every reachable state:

- the content store's id index over four column families (`StoreModel`, `StoreRuns`, `StoreRefinement`,
  `StoreScan`, class `ContentStore.Store`);
- the scheduler of DHT provider queries (`ProviderModel`, `ProviderRuns`, `ProviderHistory`, class
  `Providers.Scheduler`);
- bitswap's peer and dial state machine (`PeerModel`, `PeerRuns`, `PeerHistory`, class `Bitswap.Behaviour`) and
  its wire messages (`MessageModel`, `MessageCodec`, `MessageContents`, class `BitswapMessages.BitswapMessage`);
- the resolver's recursive traversal (`Traversal`) and content paths (`Paths`);
- CAR archives (`CarModel`, `CarRoundTrip`, classes `Car.CarWriter` and `Car.CarReader`);
- the gateway's string codecs (`DnsLink`, `Redirect`, `Etag`).

`Bytes`, `Varint` and `Cids` define big-endian keys, both varint readers and the byte form of multihashes and
CIDs, and prove their round trips and what they refuse. `Switches` is the pattern of the results that tell a state
by the events before it. Each imperative part has a value-level form, given by functions and by a
state machine over its steps; lemmas prove what every run of that form keeps; the class next to it updates
its fields as the source does, and its methods are proved to compute exactly the value-level form.

What is not iroh's own is a parameter. `Hasher` gives the known hash codes and digests; `CidText` the text
forms of CIDs and peer ids, with `Lawful` stating that printing and parsing are inverse and that the texts are
letters and digits, longer than a scheme name; `Cbor` the header codec, with `Lawful` stating that decoding undoes encoding; `Loader` what a CID resolves to and what an item
links to. Time, the order in which hash maps are walked, the providers picked from a hash set for a late
request, and whether the build checks arithmetic overflow are parameters or arbitrary choices as well.

Several promises hold only under a condition. The condition is exact, and for each a lemma gives an input on
which the unconditional promise fails:

- `put_many` answers like one `put` per block if and only if, for every new key, the first block and the last
  block that brings a new CID for it agree (`StoreRefinement.PutManyIsPutEach`). Two CID versions of one hash
  share a key, and there the batch keeps the last content (`StoreRefinement.TwoVersionsDiffer`).
- A message survives the wire if and only if its blocks verify (`MessageCodec.WireRoundTrip`); a block whose
  data does not hash to its CID does not come back (`MessageCodec.UnverifiedIsLost`).
- A domain survives DNSLink inlining if and only if no dot is first, last, or next to a dot or a dash, and its
  label has at least two characters (`DnsLink.InlineRoundTrip`); a redirect survives under the same condition
  (`Redirect.RedirectRoundTrip`). The dot that ends a fully qualified name is lost
  (`DnsLink.TrailingDotIsLost`, `Redirect.TrailingDotRedirect`).
- The search in an `If-None-Match` list ends at a tag with a tilde and at white space in front of a comma, both
  of which RFC 7232 allows (`Etag.ListMatches`, `Etag.MissedTags`).
- A printed path parses back if and only if no segment contains a separator (`Paths.PrintParse`); a segment
  with a slash comes back as two (`Paths.SlashSplitsSegment`).
- A CAR archive reads back if and only if the header is acceptable and every section is within the size limit
  (`CarRoundTrip.ArchiveRoundTrip`). A writer accepts a header without roots and a block that fills the limit,
  and no reader returns them (`CarRoundTrip.NoRootsRefused`, `CarRoundTrip.OversizedBlockStops`).
- A peer can be connected, and announced, while dials of it are pending. `PeerRuns.WaitsExactly` says when, over
  whole runs, and `PeerRuns.ResponsivePeerWithPendingDial` gives a run.

## Model

| member | source | states |
|---|---|---|
| `StoreModel.IdKeyIdentifies` | iroh-store/src/store.rs:84-89 | two metadata rows have the same id key exactly when they agree on codec and multihash |
| `StoreRuns.EnsureInvisible` | iroh-store/src/store.rs:410-438 | registering links keeps the index well formed, keeps the queued rows usable and changes nothing a reader can see |
| `StoreRuns.AdvanceKeeps` | iroh-store/src/store.rs:360-406 | one turn of the `put_many` loop, with its own link batch, keeps the invariant and is invisible |
| `StoreRuns.CommitExtends` | iroh-store/src/store.rs:316-449 | writing the block batch adds entries to the visible map and changes none |
| `StoreRuns.OpenNextIsFresh` | iroh-store/src/store.rs:142-183 | the counter rebuilt on reopen is above every id with a metadata row, not above the old counter, and the addition does not overflow |
| `StoreRuns.StepKeeps` | iroh-store/src/store.rs:316-449 | every atomic step (begin, link batch, commit, failed write, stop and reopen) keeps the invariant and only extends the visible map; only a commit changes it at all |
| `StoreRuns.RunKeeps` | iroh-store/src/store.rs:142-449 | along any run, stops between any two batches included, the visible map only grows |
| `StoreRuns.ReachableIndex` | iroh-store/src/store.rs:142-449 | in every reachable state each id entry points to an id whose metadata names that key, distinct keys have distinct ids, every id used in blobs, in graph or as a child has metadata, and all ids are below the counter |
| `StoreRefinement.PutRefines` | iroh-store/src/store.rs:317-358 | `put` is an insert into a write-once map, and it succeeds exactly when the key is there or the ids suffice |
| `StoreRefinement.PutManyRefines` | iroh-store/src/store.rs:360-406 | `put_many` is the batched form on the visible map, or changes nothing visible when the ids run out |
| `StoreRefinement.PutEachRefines` | iroh-store/src/store.rs:317-358 | blocks put one at a time are inserts into a write-once map in order, up to the first block for which the ids do not suffice |
| `StoreRefinement.BatchedIsOneByOne` | iroh-store/src/store.rs:360-406 | the batched and the one-by-one form give the same map exactly when first and last block of every new key agree |
| `StoreRefinement.PutManyIsPutEach` | iroh-store/src/store.rs:360-406 | whenever neither runs out of ids, `put_many` and separate puts give the same visible map exactly under that condition, which holds whenever different CIDs of the list have different keys; neither runs out if the counter leaves room for every block and every link |
| `StoreRefinement.ManyKeepsLast` | iroh-store/src/store.rs:360-406 | under a new key `put_many` stores the last block that brings a new CID for it |
| `StoreRefinement.EachKeepsFirst` | iroh-store/src/store.rs:317-358 | under a new key separate puts store the first block |
| `StoreRefinement.TwoVersionsDiffer` | iroh-store/src/store.rs:360-406 | a version 0 and a version 1 CID of one hash put into a new store: after `put_many` both read the second content, after separate puts the first |
| `StoreRefinement.ReadsAnswerView` | iroh-store/src/store.rs:478-560 | `has`, `get` and `get_links` answer from the visible map, with links in order and normalised to CIDv1 |
| `StoreRefinement.FirstInvalidLink` | iroh-store/src/store.rs:626-658 | the first child without a metadata row is the error |
| `StoreRefinement.PutIsForever` | iroh-store/src/store.rs:317-358 | after a successful `put`, in every later state of every run the reads of any CID with that key give that blob and those links, or those of the block that was there first |
| `StoreRefinement.AnswersNeverChange` | iroh-store/src/store.rs:142-449 | once a CID is readable in a run from `create`, its blob and links stay what they are |
| `StoreRefinement.PutManyIsRun` | iroh-store/src/store.rs:360-406 | a successful `put_many` is the run of one begin, one turn per block and one commit, so every result about runs applies to it |
| `StoreRefinement.ConsistencyCheckIsExact` | iroh-store/src/store.rs:661-675 | the difference of the two row counts is the number of metadata rows no key points at, and it is zero exactly when the two families are mutually inverse |
| `StoreRefinement.StrayRowsAfterPut` | iroh-store/src/store.rs:317-358 | how many such rows a `put` leaves: one per repeated new link, and one if the block was known as a link or links to itself |
| `StoreScan.ScanVisits` | iroh-store/src/store.rs:562-586 | the prefix scan visits exactly the keys that start with the multihash |
| `StoreScan.IdsForHashExact` | iroh-store/src/store.rs:562-586 | the scan returns exactly the codec and id pairs of the stored CIDs with that multihash, by increasing codec |
| `StoreScan.FirstBlobIsLeast` | iroh-store/src/store.rs:588-597 | the first row with a blob is the blob of the least codec among all stored CIDs with that multihash |
| `StoreScan.NoBlobFound` | iroh-store/src/store.rs:588-609 | if no row has a blob then no stored CID with that multihash has one |
| `ContentStore.Store.Create` | iroh-store/src/store.rs:103-138 | a new store is empty and its counter is one |
| `ContentStore.Store.Open` | iroh-store/src/store.rs:142-183 | opening keeps the contents, rebuilds the counter from the last metadata key and restores the invariant |
| `ContentStore.Store.TakeId` | iroh-store/src/store.rs:441-449 | hands out the counter and increments it; the maximum is never handed out |
| `ContentStore.Store.EnsureIdMany` | iroh-store/src/store.rs:410-438 | the loop and its batch compute the value-level link batch, ids and counter, or write nothing when the ids run out |
| `ContentStore.Store.Put` | iroh-store/src/store.rs:317-358 | the whole new state is that of the value-level `put`, and the visible map is the write-once insert |
| `ContentStore.Store.PutMany` | iroh-store/src/store.rs:360-406 | the whole new state is that of the value-level `put_many`, and the visible map is the batched insert |
| `ContentStore.Store.AddToBatch` | iroh-store/src/store.rs:367-399 | the loop body computes one value-level turn: skipped when taken or stored, otherwise ids, link batch and a queued row |
| `ContentStore.Store.Has` | iroh-store/src/store.rs:515-526 | true exactly when the key is in the visible map |
| `ContentStore.Store.Get` | iroh-store/src/store.rs:479-499 | the blob of the visible map |
| `ContentStore.Store.GetSize` | iroh-store/src/store.rs:501-513 | the length of the blob of the visible map |
| `ContentStore.Store.GetLinks` | iroh-store/src/store.rs:528-547 | the normalised links of the visible map; the error for an unknown child does not occur |
| `ContentStore.Store.ChildCids` | iroh-store/src/store.rs:626-658 | the CIDs of the children in order, or the first child without metadata |
| `ContentStore.Store.GetBlobByHash` | iroh-store/src/store.rs:588-597 | agrees with a search of all stored CIDs: the blob of the least codec, or none exactly when there is none |
| `ContentStore.Store.HasBlobForHash` | iroh-store/src/store.rs:600-609 | true exactly when some stored CID with that multihash has a blob |
| `ContentStore.Store.ConsistencyCheck` | iroh-store/src/store.rs:661-675 | reports exactly when the families are not mutually inverse |
| `Bytes.BeOrder` | iroh-store/src/store.rs:156-170 | byte order of big-endian keys is numeric order |
| `Varint.ReadIs` | iroh-car/src/util.rs:10-23 | what the section length reader makes of any input: cut short, overflow, or a number, by the high bits of its first ten bytes |
| `Varint.DecodeIs` | iroh-bitswap/src/prefix.rs:24-57 | for any input the reader of CIDs and prefixes agrees with the section length reader, except that it refuses a redundant last byte and notices a missing end one byte earlier |
| `Cids.CidRoundTrip` | iroh-car/src/util.rs:46-50 | a CID is read back from its bytes and reading stops exactly behind it |
| `Cids.CidCut` | iroh-car/src/util.rs:46-50 | the bytes of a CID cut short anywhere are not a CID |
| `Cids.OtherVersionsBad` | iroh-car/src/util.rs:46-50 | bytes that start with neither version 1 nor the multihash head of a version 0 CID are not a CID |
| `ProviderRuns.PushKeeps` | iroh-p2p/src/providers.rs:51-93 | `push` keeps the scheduler invariant in every branch |
| `ProviderRuns.HandleOkKeeps` | iroh-p2p/src/providers.rs:95-164 | a result keeps the invariant: what each attached request got so far is a partition of the found providers; its whole effect is in `ProviderHistory.NextIs` |
| `ProviderRuns.HandleNoMoreKeeps` | iroh-p2p/src/providers.rs:166-179 | the end of a query keeps the invariant |
| `ProviderRuns.HandleTimeoutKeeps` | iroh-p2p/src/providers.rs:181-208 | a timeout keeps the invariant |
| `ProviderRuns.PollKeeps` | iroh-p2p/src/providers.rs:210-242 | starting the next query and sweeping cancelled requests keep the invariant; their whole effect is in `ProviderHistory.PollIs` |
| `ProviderRuns.EveryRun` | iroh-p2p/src/providers.rs:51-242 | in every state of every run no key occurs twice over queue and running set, both bounds hold, and the sets sent to an attached request are non-empty, pairwise disjoint and together the found providers, at most its limit |
| `ProviderRuns.EveryRequest` | iroh-p2p/src/providers.rs:51-242 | an accepted request belongs to no query but the one of its key, there once and with its limit, waiting or running and not both; if it is nowhere then its channel closed, its query ended, or at least its limit of providers was sent to it |
| `ProviderRuns.StaleIds` | iroh-p2p/src/providers.rs:95-208 | a query id that ended stays ended: at every later point results, ends and timeouts with it change nothing |
| `ProviderHistory.PushIs` | iroh-p2p/src/providers.rs:51-93 | `push` refuses exactly when the key neither runs nor waits and the queue is full; otherwise the request is recorded, is sent the sample if its key runs, joins that query if the sample was not enough, and else joins the entry of its key or a new one at the end of the queue |
| `ProviderHistory.PollIs` | iroh-p2p/src/providers.rs:210-242 | a poll gives the next id to the oldest key exactly when there is room, the queue loses exactly that entry, every running query keeps its open requests and its found providers, and the queries without one are ended and finished |
| `ProviderHistory.NextIs` | iroh-p2p/src/providers.rs:95-242 | the whole effect of every result, end, timeout, poll and closed channel: the news, which are the providers not found before, go to every open request of the query and to no other, the query has found them, the satisfied requests leave, and a poll follows exactly when a query ended that someone listened to |
| `ProviderHistory.SentNext` | iroh-p2p/src/providers.rs:51-164 | what each event sends to each request: a result its news, if not empty, to the open requests of its query, and nothing else to any request already known |
| `ProviderHistory.FoundIsHeard` | iroh-p2p/src/providers.rs:95-164 | in every state of every run what a running query has found is the union of the providers of all results with its id since it began |
| `ProviderHistory.FirstInFirstOut` | iroh-p2p/src/providers.rs:51-242 | in every state of every run the nth query id went to the nth key that was queued, and the keys without an id are the queue in order |
| `ProviderHistory.QueryLife` | iroh-p2p/src/providers.rs:51-242 | which event starts and which ends a query |
| `ProviderHistory.RunsExactly` | iroh-p2p/src/providers.rs:51-242 | over whole runs a query runs exactly from the event that starts it to the first that ends it |
| `ProviderHistory.TimedOutNext` | iroh-p2p/src/providers.rs:181-208 | a timeout is told to exactly the requests attached to the query that timed out |
| `Providers.Scheduler.Push` | iroh-p2p/src/providers.rs:51-93 | the whole new state is that of the value-level push for some sample of the found providers of the allowed size |
| `Providers.Scheduler.HandleGetProvidersOk` | iroh-p2p/src/providers.rs:95-164 | the whole new state, Kademlia's included, is that of the value-level result, which `ProviderHistory.NextIs` describes |
| `Providers.Scheduler.HandleNoAdditionalRecords` | iroh-p2p/src/providers.rs:166-179 | the search for the query by id and its removal compute the value-level end |
| `Providers.Scheduler.HandleGetProvidersError` | iroh-p2p/src/providers.rs:181-208 | taking the query out and putting it back when the id is another computes the value-level timeout |
| `Providers.Scheduler.PollQueue` | iroh-p2p/src/providers.rs:210-242 | the in-place retain loops compute the value-level poll, which `ProviderHistory.PollIs` describes |
| `PeerRuns.SetStateIs` | iroh-bitswap/src/lib.rs:316-382 | changes nothing but the entry of its peer, recorded as requested except that a disconnected peer is forgotten and a second connection ignored, and the notices: up when the peer becomes responsive or its connection or protocol changes, down when a connected or unknown peer becomes anything but connected, none otherwise |
| `PeerRuns.SetStateKeeps` | iroh-bitswap/src/lib.rs:316-382 | keeps every peer's latest notification in step with its state |
| `PeerRuns.EveryRun` | iroh-bitswap/src/lib.rs:259-507 | after every sequence of events a responsive peer was last announced as connected, a peer last announced as connected is connected or responsive, no disconnected peer is stored, and every dial taken is answered once or pending once under its peer |
| `PeerRuns.AnswersAreFinal` | iroh-bitswap/src/lib.rs:441-583 | later states keep every answer and every taken dial with its peer |
| `PeerRuns.NextAnswers` | iroh-bitswap/src/lib.rs:465-583 | a new answer that reports success names the connection, and the protocol if any, that its peer has at that point |
| `PeerRuns.WaitsNext` | iroh-bitswap/src/lib.rs:259-583 | a connected peer has pending dials after a step exactly when the step is a new connection or a message that finds dials pending, or it had them before and the step neither answers them nor ends the connection |
| `PeerRuns.WaitsExactly` | iroh-bitswap/src/lib.rs:259-583 | over whole runs a connected peer has pending dials exactly when a connection or a message found them pending and since then no handler report, dial failure or last close came for the peer |
| `PeerRuns.ResponsivePeerWithPendingDial` | iroh-bitswap/src/lib.rs:413-507 | a dial, an established connection and a message leave the peer responsive and announced and the dial without an answer |
| `PeerModel.NamesIdentify` | iroh-bitswap/src/protocol.rs:25-51 | a name stands for the protocol that announces it, and every other name for none |
| `PeerHistory.EventStates` | iroh-bitswap/src/lib.rs:259-507 | what every event leaves of the peer map |
| `PeerHistory.EventAnswers` | iroh-bitswap/src/lib.rs:441-507 | a connected handler answers all pending dials of its peer, last first, with its connection and protocol, a handler without the protocol and a failed dial with their errors, and then none is pending; no other event adds an answer or changes a pending dial |
| `PeerHistory.AnswersHaveReasons` | iroh-bitswap/src/lib.rs:441-583 | over whole runs every answer was given at one step, and that step is its reason: the dial itself, or the event that settled it |
| `PeerHistory.PausedExactly` | iroh-bitswap/src/lib.rs:413-463 | over whole runs dialling is paused exactly when a dial failed on the connection limit and no connection came or went since |
| `PeerHistory.FailedExactly` | iroh-bitswap/src/lib.rs:259-507 | over whole runs a peer is marked as failed at a time exactly when a dial of it failed then for another reason and nothing was heard of it since |
| `PeerHistory.DialsByHistory` | iroh-bitswap/src/lib.rs:530-583 | a dial of a peer that is not connected is refused as undialable exactly within the back-off of its last failure, refused as paused exactly when dialling is paused otherwise, and started in all other cases |
| `PeerHistory.ActionsAre` | iroh-bitswap/src/lib.rs:510-627 | which request makes a poll return which action |
| `PeerRuns.TakeDialKeeps` | iroh-bitswap/src/lib.rs:530-583 | taking a dial answers it or queues it, once |
| `PeerRuns.PollTakes` | iroh-bitswap/src/lib.rs:510-627 | a poll takes events in order up to the first that yields an action and no more than its limit |
| `PeerRuns.PolledKeeps` | iroh-bitswap/src/lib.rs:510-627 | a whole poll keeps notifications in step and every dial answered or pending once, if the dials come with reply channels of their own |
| `Bitswap.Behaviour.SetPeerState` | iroh-bitswap/src/lib.rs:316-382 | the whole new state is that of the value-level form |
| `Bitswap.Behaviour.DrainDials` | iroh-bitswap/src/lib.rs:441-463 | the pop loop answers the pending dials of the peer and removes its entry |
| `Bitswap.Behaviour.OnIdentify` | iroh-bitswap/src/lib.rs:259-268 | the whole new state is that of the identify event |
| `Bitswap.Behaviour.InjectConnectionEstablished` | iroh-bitswap/src/lib.rs:413-424 | the whole new state is that of the connection event |
| `Bitswap.Behaviour.InjectConnectionClosed` | iroh-bitswap/src/lib.rs:426-439 | the whole new state is that of the close event, which does nothing while connections remain |
| `Bitswap.Behaviour.InjectDialFailure` | iroh-bitswap/src/lib.rs:441-463 | the whole new state is that of the dial failure, with its back-off and its replies |
| `Bitswap.Behaviour.InjectEvent` | iroh-bitswap/src/lib.rs:465-507 | the whole new state is that of the handler event, whose states and answers `PeerHistory.EventStates` and `PeerHistory.EventAnswers` give |
| `Bitswap.Behaviour.Dial` | iroh-bitswap/src/lib.rs:530-583 | the whole new state is that of the taken dial, and the invariant is kept; a dial is started exactly when it cannot be answered at once |
| `Bitswap.Behaviour.Poll` | iroh-bitswap/src/lib.rs:510-627 | the bounded loop computes the value-level poll and keeps the invariant |
| `MessageModel.ParsePrefixIs` | iroh-bitswap/src/prefix.rs:24-37 | four varints are a prefix exactly when the first is a version and the third a known hash function, and they are its fields |
| `MessageModel.PrefixRoundTrip` | iroh-bitswap/src/prefix.rs:24-57 | a prefix with a known hash is parsed back from its varints |
| `MessageCodec.ApiKeepsWf` | iroh-bitswap/src/message.rs:198-366 | every message built through the API has keys that match its entries and blocks, and blocks and presences that are disjoint |
| `MessageCodec.RepeatedWants` | iroh-bitswap/src/message.rs:305-347 | the merge of any sequence of requests for a CID: a block is wanted if it ever was, flags accumulate, the priority is that of the last request that counts, and no other entry changes |
| `MessageCodec.PrefixRebuildsCid` | iroh-bitswap/src/prefix.rs:24-75 | prefix and data rebuild the CID of a block exactly when the block verifies |
| `MessageCodec.VerifiedRoundTrip` | iroh-bitswap/src/message.rs:397-473 | a well-formed message with verified blocks decodes to itself, whatever the order of the maps |
| `MessageCodec.DecodeVerifies` | iroh-bitswap/src/message.rs:430-473 | every block of every decoded message verifies, those of the first protocol version included; which blocks those are is in `MessageContents.DecodedContents` |
| `MessageContents.DecodesExactly` | iroh-bitswap/src/message.rs:430-473 | decoding succeeds exactly when every entry and presence has a CID and a known type, every block of the first version hashes to a version 0 CID, and every other block has a prefix that makes a CID with its data |
| `MessageContents.DecodedContents` | iroh-bitswap/src/message.rs:430-473 | a decoded message holds under each CID exactly the data of the last block for it, of either version, a presence exactly when there is no block, the last one, and the merged wants for it; the other fields are those of the wire form |
| `MessageContents.VerifyKeepsExactly` | iroh-bitswap/src/message.rs:219-240 | every block that verifies stays as it is, the others go, and nothing else changes |
| `MessageContents.WantsUnder` | iroh-bitswap/src/message.rs:198-347 | what each operation of the API does to the wants |
| `MessageContents.BlocksUnder` | iroh-bitswap/src/message.rs:198-352 | what each operation does to the blocks |
| `MessageContents.PresencesUnder` | iroh-bitswap/src/message.rs:198-366 | what each operation does to the presences, the pending bytes and the full flag |
| `MessageContents.WantedExactly` | iroh-bitswap/src/message.rs:198-347 | over whole sequences of operations a CID is wanted exactly when it was asked for or cancelled and not removed or cleared since |
| `MessageContents.BroughtExactly` | iroh-bitswap/src/message.rs:198-352 | over whole sequences of operations a block is there exactly when it was added and neither cleared nor found wanting since |
| `MessageCodec.DecodeWf` | iroh-bitswap/src/message.rs:430-473 | every decoded message has keys that match and blocks and presences that are disjoint |
| `MessageCodec.DecodedRoundTrip` | iroh-bitswap/src/message.rs:397-473 | every decoded message survives being encoded and decoded again, whatever the order of the maps |
| `MessageCodec.WireRoundTrip` | iroh-bitswap/src/message.rs:397-473 | for every message built through the API decoding its encoding gives it back exactly when its blocks verify |
| `MessageCodec.UnverifiedIsLost` | iroh-bitswap/src/message.rs:397-473 | for every hasher a message with one unverified block that does not survive |
| `BitswapMessages.BitswapMessage.AddFullEntry` | iroh-bitswap/src/message.rs:305-347 | the in-place update computes the value-level merge and keeps the message well formed |
| `BitswapMessages.BitswapMessage.AddOneBlock` | iroh-bitswap/src/message.rs:349-352 | the block replaces the presence of its CID |
| `BitswapMessages.BitswapMessage.AddBlockPresence` | iroh-bitswap/src/message.rs:354-359 | a presence is noted unless the message has the block |
| `BitswapMessages.BitswapMessage.RetainVerified` | iroh-bitswap/src/message.rs:219-240 | keeps exactly the blocks that verify, and changes nothing else |
| `BitswapMessages.EncodeAsProtoV1` | iroh-bitswap/src/message.rs:397-427 | the loops compute the value-level encoding for some order of the maps, and a well-formed message with verified blocks decodes from it; it fails exactly when a block has an unknown hash |
| `BitswapMessages.TryFrom` | iroh-bitswap/src/message.rs:430-473 | the loops compute the value-level decoding, error cases included, which `MessageContents.DecodesExactly` and `MessageContents.DecodedContents` describe |
| `Traversal.BreadthFirst` | iroh-resolver/src/resolver.rs:722-777 | after any number of items the output is a prefix of the breadth-first order of the link unfolding; it ends only when all rows are out; it fails exactly at the first faulty item of that order |
| `Traversal.TurnsCount` | iroh-resolver/src/resolver.rs:733-775 | output and queue together are one more than the links counted, and the count is within the limit |
| `Traversal.LimitEnds` | iroh-resolver/src/resolver.rs:722-777 | with a limit the traversal ends on every link graph, cyclic ones included, after at most limit plus one items |
| `Traversal.OrderSettles` | iroh-resolver/src/resolver.rs:722-777 | after an empty row the breadth-first order has no more items, so the end state yields all of it |
| `Traversal.ResolveLinks` | iroh-resolver/src/resolver.rs:753-767 | resolving in chunks of any size gives all links in order, or fails exactly when one does not resolve |
| `Traversal.ResolveRecursive` | iroh-resolver/src/resolver.rs:722-777 | the queue loop computes the value-level traversal, whatever the chunk size |
| `Paths.PrintParse` | iroh-resolver/src/resolver.rs:145-234 | a printed path parses to the same path without interior empty segments and with its trailing slash, exactly when no segment contains a separator |
| `Paths.SlashSplitsSegment` | iroh-resolver/src/resolver.rs:145-234 | a path with the segment `a/b` comes back with two segments |
| `Paths.ParsePrintParse` | iroh-resolver/src/resolver.rs:145-234 | every parsed path survives printing and parsing unchanged; which path that is says `Paths.ParseIs` |
| `Paths.ParseIs` | iroh-resolver/src/resolver.rs:196-234 | every string by its non-empty parts: refused exactly when no part is left for the root or the root of anything but an `ipns` path is not a CID; the type is that of a scheme in upper or lower case, and `ipfs` without one; the root is the CID or else the domain; the tail is the rest, with a final slash kept |
| `Paths.BareCidIsIpfs` | iroh-resolver/src/resolver.rs:215-233 | the text of a CID with any tail, with or without a final slash, is the `ipfs` path with that root and tail |
| `Paths.PartsCat` | iroh-resolver/src/resolver.rs:201 | slash and backslash both separate parts |
| `Paths.FromPartsIsParse` | iroh-resolver/src/resolver.rs:74-105 | building a path from scheme, root and tail is parsing them written one behind the other, every scheme but `ipns` taken as `ipfs`, unless the root is a peer id |
| `Paths.PeerIdIsKey` | iroh-resolver/src/resolver.rs:74-105 | a peer id on `ipns` becomes the CID of its key, and is refused on any other scheme |
| `CarRoundTrip.LdReadFrame` | iroh-car/src/util.rs:10-37 | a written section is read back and reading goes on behind it, or it is refused exactly when it is over the size limit |
| `CarRoundTrip.LdReadCut` | iroh-car/src/util.rs:10-37 | a section cut inside its length reads as the end of the input, cut after it as an error |
| `CarRoundTrip.ReadStops` | iroh-car/src/util.rs:10-54 | the blocks in front of the first section over the limit are returned, and that section is the error |
| `CarRoundTrip.ArchiveRoundTrip` | iroh-car/src/reader.rs:24-58 | reading what any non-empty sequence of writes produced returns the header and the same blocks in order and ends cleanly, exactly when the roots are not empty, the version is one, and header and sections are within the limit |
| `CarRoundTrip.NoRootsRefused` | iroh-car/src/header.rs:19-35 | an archive whose header names no roots is refused |
| `CarRoundTrip.OversizedBlockStops` | iroh-car/src/util.rs:24-26 | of a block whose data fills the limit a reader returns nothing but the error |
| `CarRoundTrip.NothingWritten` | iroh-car/src/writer.rs:29-53 | without a write there is no header, and no reader accepts the result |
| `CarRoundTrip.WholeIs` | iroh-car/src/util.rs:10-54 | for every cut there is a number of whole sections in front of it, with the next one not whole |
| `CarRoundTrip.CutArchive` | iroh-car/src/reader.rs:24-58 | reading any prefix that contains the header returns the header and exactly the blocks that lie wholly in it; a cut at the end of a section or inside a length is not noticed, every other cut is an error |
| `CarRoundTrip.ReadBehind` | iroh-car/src/reader.rs:53-58 | behind any blocks within the limit reading goes on with whatever follows |
| `CarRoundTrip.UnendedLength` | iroh-car/src/util.rs:10-37 | a length that does not end is not noticed within ten bytes and is an error when longer |
| `CarRoundTrip.BadCidStops` | iroh-car/src/util.rs:39-54 | a section without a CID at its front is the error, after the blocks in front of it |
| `CarRoundTrip.ShortSectionStops` | iroh-car/src/util.rs:39-54 | so is a section that ends inside its CID |
| `CarRoundTrip.HeaderIs` | iroh-car/src/header.rs:19-35 | the first section is the header exactly when it decodes to one with roots and version 1, and each error says what is wrong |
| `CarRoundTrip.CutHeader` | iroh-car/src/reader.rs:24-41 | a prefix without the whole header is refused |
| `Car.CarWriter.Write` | iroh-car/src/writer.rs:29-53 | the output is the archive of all blocks written so far, with the header in front of the first |
| `Car.FillBuffer` | iroh-car/src/util.rs:10-37 | the slice of the reused buffer is the next section whatever the buffer held before; the buffer never shrinks; all errors |
| `Car.CarReader.NextBlock` | iroh-car/src/util.rs:39-54 | the next block, the end or the error is a function of the input alone |
| `Car.CarReader.Drain` | iroh-car/src/reader.rs:53-58 | the stream yields the value-level blocks and ending |
| `Car.Open` | iroh-car/src/reader.rs:24-41 | accepts exactly the archives with an acceptable header, and stands behind it |
| `DnsLink.InlineRoundTrip` | iroh-gateway/src/handler_params.rs:44-77 | a domain survives inlining exactly when no dot is first, last, or next to a dot or a dash and the label has two characters, or it is empty and overflow is not checked; a shorter label is a panic exactly when overflow is checked |
| `DnsLink.TrailingDotIsLost` | iroh-gateway/src/handler_params.rs:44-77 | the domain `a.` comes back as `a-` |
| `DnsLink.InlineHasNoDots` | iroh-gateway/src/handler_params.rs:44-52 | an inlined domain is one host label |
| `Redirect.HostParses` | iroh-gateway/src/text.rs:8-22 | the host of a redirect parses to its label, type and target host |
| `Redirect.ParseHostIs` | iroh-gateway/src/text.rs:8-22 | a host is accepted exactly when it is a label without dots, `ipfs` or `ipns`, and a host name, joined by dots, and those three are the answer |
| `Redirect.RedirectHost` | iroh-gateway/src/handlers.rs:487-505 | a redirect names a CID in its default text on `ipfs` and in base 36 on `ipns` |
| `Redirect.TailRoundTrip` | iroh-gateway/src/handlers.rs:327-334 | the tail survives, except that an empty one becomes a trailing slash |
| `Redirect.RedirectRoundTrip` | iroh-gateway/src/handlers.rs:487-505 | for every path the handler can build, the subdomain handler gets back type, root and tail from the redirect exactly when the root is a CID or a domain that survives inlining |
| `Redirect.TrailingDotRedirect` | iroh-gateway/src/handlers.rs:487-505 | the redirect of that domain is not read back as the same path |
| `Redirect.HostNamesSurvive` | iroh-gateway/src/handler_params.rs:44-77 | every host name of section 2.1 of RFC 1123 with at least two characters survives inlining |
| `Etag.ListMatches` | iroh-gateway/src/headers.rs:195-246 | for every list of entity tags with any white space around its commas, the header matches exactly when a weakly equal tag is reached before a tilde or white space in front of a comma |
| `Etag.CompactListMatches` | iroh-gateway/src/headers.rs:195-246 | without those two, it matches exactly when some tag weakly equals the given one, as section 3.2 of RFC 7232 asks |
| `Etag.WeakEquality` | iroh-gateway/src/headers.rs:244-246 | the comparison is equality up to the weakness marker |
| `Etag.WeakMatchIs` | iroh-gateway/src/headers.rs:244-246 | for any two texts markers at the front do not matter, and without markers it is equality |
| `Etag.StarMatches` | iroh-gateway/src/headers.rs:195-218 | a star matches every tag |
| `Etag.MissedTags` | iroh-gateway/src/headers.rs:195-241 | a tag behind white space and a comma, and a tag with a tilde, are not found |
| `Etag.ScanEtag` | iroh-gateway/src/headers.rs:221-241 | the index loop computes the value-level scan |
| `Etag.EtagMatches` | iroh-gateway/src/headers.rs:195-218 | the loop over the moving slice ends and computes the value-level match |

## Left out

- RocksDB options, caches, the archived row layout, locks and blocking tasks; column families are maps, batches are atomic, and an I/O error of a write is the failing step of a run.
- The state of the store's lock after the panic of a full store: reads go on answering in the model.
- A response channel that closes in the middle of one scheduler call; channels close between calls.
- The order in which spawned tasks deliver provider sets, and drops on full notification channels; both are logs.
- ContentStore.Store.Open: the counter of the earlier store is a ghost argument, because the invariant of what it left behind is stated with it.
- Etag.CompactListMatches: lists with empty elements, which section 7 of RFC 7230 lets a recipient accept, are not in the printed form.
- Redirect.RedirectRoundTrip: percent-decoding, the query and host lower-casing between the redirect and the next request are not modelled.
- `Path::push` and the path accessors that neither printing nor the redirect uses.
- `encode_as_proto_v0`, `encoded_len` and protobuf framing.
- Failure of the CBOR encoder, and the flush and finish calls of the CAR writer.
- Hash functions, CID text bases, DAG-CBOR: parameters.
- `resolve_path_to_cid` and the loader context around the traversal: each item's links and children come from the `Loader` parameter.
- The peer task queue, client sessions and the decision engine of bitswap, UnixFS, IPNS records, DNS, HTTP serving, node, RPC and configuration plumbing, and iroh-share.
