# qWDTT client: packet plane, session protocols and list handling

This project models the parts of the qWDTT client that keep its tunnel running
and proves what they are built to guarantee. Paths are relative to the root of
the repository.

* **Dispatcher and writers** (`client/dispatcher.go`, `client/session.go`).
  `Cursors.dfy` holds the rules that move the dispatch cursor, `Dispatching.dfy` the
  object with its queues and counters as the read loop works on it under the
  mutex. `PacketPlane.dfy` is the same plane as a transition system in which the
  dispatcher probes one queue per step and every writer, keepalive, reader and the
  return loop go on in between; the writer can be caught between its two selects.
  Buffers come from a shared pool. `PlaneOwnership`, `PlaneOvertaking`,
  `PlaneOrder` and `PlaneDispatch` each prove an invariant of every run of it;
  `PlaneReturn` and `PlaneWriters` watch every run from outside and account for each
  packet received and each packet sent; `PlaneRecycling` and `PlaneShutdown` show that
  buffers are used again and that sessions can end. `RoundRobin.dfy` gives the closed
  form of chunked round robin, `Rotation.dfy` shows that the relay changes between
  chunks, `RingWalk.dfy` how far each packet moves the cursor, and `ChunkSizes.dfy`
  which chunk limits do not need the clock.
* **Framing** (`client/obfs.go`). `Nonces.dfy` has the counter arithmetic with its
  16, 32 and 64 bit wraps, `Frames.dfy` the RTP-like frame (fixed header and padding
  of section 5.1 of RFC 3550) around an abstract AEAD, as values and as the code
  that fills buffers in place.
* **Configuration token and group cascade** (`client/group.go`, `client/main.go`).
  `ConfigToken.dfy` and `Cascade.dfy` are small concurrent protocols with one step
  per atomic access, channel operation or outcome.
* **Slider puzzle** (`client/captcha_v2_slider.go`). `Swaps.dfy` (arrangements),
  `Tiles.dfy` (tile geometry and seam scores), `Sums.dfy`, `PixelPairs.dfy` (what the seam
  score measures), `Sorting.dfy`, `Ranking.dfy` (what the two-stage ranking means),
  `Guesses.dfy` (how it is computed) and `GuessOrder.dfy` (what decides between guesses).
* **Credentials** (`client/creds.go`). `Credentials.dfy` is the double-checked cache
  with its locks and the request throttle, `CredentialSafety.dfy` and
  `CredentialThrift.dfy` its guarantees over all runs (what is served, and when no
  request is sent), `ErrorWindow.dfy` the error counter.
* **Hash lists** (`client/group.go` and its port in `overview.js`). `Texts.dfy`,
  `HashRules.dfy` (the client), `HashPage.dfy` (the page), `HashLinks.dfy` (what one
  entry reduces to), `HashStore.dfy` (what the page stores for a list of entries) and
  `HashTrip.dfy` (from the page's fields to the command line and back).

`Arithmetic.dfy` and `Wrappers.dfy` are shared helpers. `dafny verify
dfyconfig.toml` checks everything.

Conventions: bytes are integers from 0 to 255 and bit tests are written as division
and remainder; times are milliseconds or seconds as in the code; random numbers, the
clock, answers of servers and the order in which goroutines run are inputs, so each
result holds for all of them. Channels are sequences with a capacity.

Four results differ from what one might expect of the code, and the code is
modelled as it is:

* Not all twelve fully scored candidates need lead the ranking: they do for all
  scores exactly when there are at most twelve or at least twenty-one candidates
  (`Ranking.WhenAllTwelveLead`); from thirteen to twenty an image of one colour is
  enough to let an outsider in between (`Ranking.TwelfthCanFallBack`). How many
  places are safe is known exactly for every number of candidates
  (`Ranking.HeadIsExact`): seven at the least, more than the two that are ever tried.
* The page checks a field as a whole but splits it into pieces before it stores
  them. `https://vk.com/call/join/` followed by a valid hash and `?,b` passes the
  check for that hash, and two hashes are stored (`HashStore.CheckedFieldStoresTwo`).
  A field that passes the check is stored as just its hash if and only if its other
  pieces stand for nothing else or for names that the page drops
  (`HashStore.CheckedFieldIsStored`, for links `HashStore.LinkStoresItsHash`, and for
  the client, which drops nothing, `HashStore.ClientReadsOneEntry`); which lists are
  stored, and which reach the client, is characterised for all entries
  (`HashStore.PageStoresTheHashes`, `HashTrip.HashesSurviveTheTrip`).
* The two ports of the hash rules give different lists exactly when a token stands
  for the name of a property that every JavaScript object inherits
  (`HashPage.PortsAgree`), such as `constructor` (`HashStore.ConstructorIsLost`).
* With 255 random padding bytes the padding count would wrap to zero and the frame
  would be refused (`Frames.RoundTrip`); the configurations in use stay below 60
  (`Frames.RoundTripInUse`). The comment on `ObfsState` speaks of a 48-bit counter;
  the counter has 64 bits and 2^48 is the period of the nonce.

## Model

| member | source | states |
|---|---|---|
| Cursors.ChunkSizeMonotone | client/dispatcher.go:55-81 | a bigger packet never gets a shorter chunk |
| Cursors.ChunkLengths | client/dispatcher.go:55-81 | chunks have 1, 3, 8, 24 or 64 packets, and the length changes just above 100, 300, 700 and 1100 bytes |
| Cursors.AdvanceCursor | client/dispatcher.go:174-391 | splitting a run into chunks does not disturb the cursor, and no register, unregister or dispatch takes the cursor off the ring of workers |
| Cursors.UnregisterKeepsPlace | client/dispatcher.go:190-195 | when a worker leaves the cursor keeps its place on the ring, or goes to the start if its place was the last; the count is reset |
| Cursors.ChunkLimits | client/dispatcher.go:288-373 | over every run with a clock that does not go back, workers joining and leaving at will, each chunk has at most 64 data packets, all for one worker, spans less than 15 ms and has no gap of more than 10 ms between reads; rrCount is the number sent in the running chunk and rests below 64 |
| ChunkSizes.ChunkSizesAnyClock | client/dispatcher.go:288-373 | whatever the clock does, each chunk has at most 64 data packets, all for one worker, rrCount is their number and rests below 64, and the cursor is on the ring |
| ChunkSizes.PausesEndChunks | client/dispatcher.go:288-297 | as long as the clock shows positive times, no chunk has a gap of more than 10 ms between reads |
| ChunkSizes.BackwardClockStretchesChunk | client/dispatcher.go:333-341 | with a clock that goes back a chunk can span more than 15 ms |
| RoundRobin.DispatchNext | client/dispatcher.go:280-391 | each dispatch of the object carries a stream on, whatever happens to the queues between calls |
| RoundRobin.RoomMeansTarget | client/dispatcher.go:346-356 | a packet whose worker has room, and that no priority channel takes, goes to that worker |
| RoundRobin.ClosedForm | client/dispatcher.go:280-391 | in a stream of chunk length k without pause or dwell, in which the worker in turn has room, packet j goes to worker (r0 + (c0 + j) / k) mod nw |
| RoundRobin.FairShare | client/dispatcher.go:203-213 | any nw * k consecutive packets of such a stream give each worker exactly k |
| Rotation.ConsecutiveChunksChangeWorker | client/dispatcher.go:209-212 | over every run with at least two workers in which nobody leaves, whatever the clock does, no worker carries data packets of two chunks that follow each other |
| RingWalk.PacketMovesCursor | client/dispatcher.go:288-382 | for every packet that can be dispatched: which of pause, age, size, drop and fallback end a chunk; the cursor goes forward by exactly the number of chunks ended, or to the fallback worker; and what becomes of the count, the last time and the chunk's start |
| RingWalk.CursorWalksTheRing | client/dispatcher.go:288-382 | over any stretch of a run without joins, leaves and fallbacks the cursor moves round the ring by as many workers as chunks end |
| RingWalk.InterleavedCursorWalksTheRing | client/dispatcher.go:280-391 | the same although consumers and keepalives run between the probes |
| Dispatching.RouteIsDetermined | client/dispatcher.go:302-390 | the free queues leave exactly one route, and a packet is dropped if and only if every queue it may use is full |
| Dispatching.FirstFreeUnique | client/dispatcher.go:357-373 | at most one worker is the first free one on a ring scan |
| Dispatching.FirstFreeMeans | client/dispatcher.go:357-373 | the first free worker from idx on is the free one before which, going up and past the last worker on from the first, all are full |
| Dispatching.ScanRulesOutAll | client/dispatcher.go:359-372 | a ring scan of all stops that found nothing has ruled out every worker |
| Dispatching.ScanFindsFirst | client/dispatcher.go:359-372 | the stop where a scan ends is the first free worker from its start |
| Dispatching.WithoutAt | client/dispatcher.go:184-189 | cutting the slice at the first match removes that one worker and keeps the order of the others |
| Dispatching.WorkerSlot.TrySend | client/dispatcher.go:348-357 | a non-blocking send succeeds exactly when the data channel has room, and then appends |
| Dispatching.WorkerSlot.TryPrio | client/dispatcher.go:305-308 | the same for the priority channel |
| Dispatching.Dispatcher.constructor | client/dispatcher.go:122-139 | a new dispatcher has no workers, an empty history and zero counters |
| Dispatching.Dispatcher.Register | client/dispatcher.go:174-180 | the worker is added last and the cursor stays |
| Dispatching.Dispatcher.Unregister | client/dispatcher.go:182-198 | the worker is gone, the cursor is brought back onto the ring and the chunk ends |
| Dispatching.Dispatcher.ScanPrio | client/dispatcher.go:302-320 | the first free priority channel on the ring gets the packet; failure means all are full |
| Dispatching.Dispatcher.ScanSend | client/dispatcher.go:343-373 | the first free data channel on the ring gets the packet; failure means all are full |
| Dispatching.Dispatcher.SendData | client/dispatcher.go:343-382 | the data queues and the cursor after a packet was sent or dropped |
| Dispatching.Dispatcher.Dispatch | client/dispatcher.go:255-391 | one packet: the verdict is the one the queues leave, exactly one queue gains the packet unless it is dropped, cursor and counters move with it, and in TUN mode packets read = sent + dropped + read while nobody was registered |
| Dispatching.Dispatcher.ChunksStayBounded | client/dispatcher.go:200-213 | however the object was used, no chunk exceeded its limits |
| PlaneOwnership.StepKeepsOwnership | client/session.go:565-671 | each step of dispatcher, writer, keepalive, reader and return loop keeps every buffer in one place |
| PlaneOwnership.EveryBufferHasOnePlace | client/dispatcher.go:13-32 | over every interleaving each buffer is in exactly one of pool, one queue, one goroutine's hands or abandoned, none is held twice, and all are long enough |
| PlaneOwnership.PoolIsAlwaysLongEnough | client/dispatcher.go:19-25 | no reachable pool hands out a buffer that is too short for a packet, so no replacement is ever allocated |
| PlaneOwnership.DrainedSlotIsAbandoned | client/session.go:568-586 | from the moment its writer has drained to any later one, nothing leaves a slot's queues, and once it has left the dispatcher and its keepalive is gone nothing enters them |
| PlaneRecycling.BuffersAreRecycled | client/dispatcher.go:27-32 | unless the pool itself forgets one, every buffer ever allocated stays in use or goes back to the pool |
| PlaneReturn.NothingIsLostOnTheWayBack | client/session.go:623-671 | in every reachable state each received packet is in exactly one place: with its reader, in the return channel or taken from it, or thrown away, and that only with the channel full or the session cancelled; the channel holds the queued ones in order, no packet enters it twice, and those of one session enter it in the order of reception |
| PlaneWriters.EachPacketIsWritten | client/session.go:540-620 | in every reachable state, for every slot: what entered a queue leaves it in that order; a live writer has written each packet that it took, one at a time; it stops only for a failed write or a cancelled session, and then empties the priority queue before the data queue; each keepalive made is queued unless the queue is full; whoever of the three goroutines ends, the session is cancelled |
| PlaneShutdown.CancelledSessionCanEnd | client/session.go:534-677 | from every reachable state a cancelled session can end by steps of its own goroutines alone, after which its worker can be unregistered |
| PlaneOvertaking.StepEvolves | client/session.go:587-619 | the only ways in which any step can change a slot |
| PlaneOvertaking.BoundedOvertaking | client/session.go:587-620 | in every interleaving, between a packet entering a live slot's priority channel and leaving it, at most one packet leaves that slot's data channel |
| PlaneOvertaking.OneOvertakeHappens | client/session.go:593-598 | the bound is exact: a run in which one data packet overtakes |
| PlaneOvertaking.QueuesWithinCapacity | client/session.go:494-498 | no channel ever holds more than its capacity |
| PlaneOrder.QueuesFollowTheReadOrder | client/dispatcher.go:276-391 | for every slot, the packets ever put in a queue are those with that fate in the order of reads, and those taken out are the first of them |
| PlaneOrder.PacketsAreConserved | client/dispatcher.go:375-390 | between packets, packets read = sent + dropped + unserved, and each counter is the number of packets with that fate |
| PlaneDispatch.InterleavedChunksAreBounded | client/dispatcher.go:280-391 | the chunk limits and the ring bound hold although consumers and keepalives run between the probes |
| PlaneDispatch.InterleavedChunksAreSmall | client/dispatcher.go:280-391 | the same for the limits that need no clock, in every run |
| PlaneDispatch.DropOnlyOnOverload | client/dispatcher.go:357-383 | for every dropped packet and every worker there is a moment of the run, with just these workers registered, at which that worker's data channel was probed for it at capacity, and its priority channel too if the packet was small |
| PlaneDispatch.LostOnlyOnOverload | client/dispatcher.go:375-390 | every packet that was read and lost is such a drop, with at least one worker registered |
| PlaneDispatch.FirstFreeGetsThePacket | client/dispatcher.go:302-373 | a queued packet went to the probed worker and is logged so; all workers before it on the ring, from the target on, had refused it; priority channels are for small packets, and a small packet gets into a data channel only after all priority channels refused it |
| PlaneDispatch.UnservedOnlyWithoutWorkers | client/dispatcher.go:280-286 | for every packet that went unserved there is a step of the run at which its turn came and nobody was registered |
| PlaneDispatch.FullMeansFull | client/dispatcher.go:357-372 | a channel counts as having refused only at a moment when it was at capacity |
| PlaneDispatch.DispatcherNeverBlocks | client/dispatcher.go:213-213 | a dispatcher that holds the mutex can always take its next step |
| Nonces.BigEndianRoundTrip | client/obfs.go:112-119 | header fields written big-endian read back the same |
| Nonces.NonceLayout | client/obfs.go:109-119 | the nonce octet by octet: SSRC, sequence number, two zeros, timestamp, high octets first |
| Nonces.NonceInjective | client/obfs.go:109-119 | a nonce determines SSRC, sequence number and timestamp |
| Nonces.SeqNumCountsUp | client/obfs.go:146-151 | the sequence number starts at its initial value and goes up by one from packet to packet, modulo 2^16 |
| Nonces.TimestampTicks | client/obfs.go:151-152 | the timestamp starts at its initial value and goes up by 960 from packet to packet, and by one more every 2^16 packets, modulo 2^32 |
| Nonces.StrideInverts | client/obfs.go:151-152 | the timestamp's stride over 2^16 packets is invertible modulo 2^32 |
| Nonces.TimestampsAgree | client/obfs.go:151-152 | packets with equal sequence numbers have equal timestamps exactly every 2^48 packets |
| Nonces.NoncePeriod | client/obfs.go:146-155 | two packets of one state and SSRC get the same nonce if and only if their numbers agree modulo 2^48 |
| Nonces.NthNoncePeriod | client/obfs.go:146-155 | the same across wraps of the 64-bit counter |
| Nonces.FreshNonces | client/obfs.go:88-94 | the first 2^48 packets of a state have pairwise different nonces, and the next repeats the first |
| Frames.LawsAreConsistent | client/obfs.go:184-184 | the laws assumed of the AEAD can be met |
| Frames.PadCount | client/obfs.go:157-164 | the random padding stays below its maximum |
| Frames.PadFollowsRandom | client/obfs.go:157-164 | the number of padding bytes is the random byte reduced by multiples of the maximum |
| Frames.HeaderIsRtp | client/obfs.go:174-178 | the header octet by octet: version 2, padding, no extension, no sources, no marker, payload type, sequence number, timestamp, SSRC |
| Frames.LastOctetCountsPadding | client/obfs.go:192-193 | the last octet is the number of octets after the ciphertext, itself included |
| Frames.ModeOnTheWire | client/obfs.go:61-77 | audio frames show payload type 111 and grow by at most 52 bytes, video frames 96 and 88 |
| Frames.OnlyOursAreRecognised | client/obfs.go:269-280 | recognised are exactly the datagrams of 13 octets or more of version 2 whose payload type is 111 or 96 |
| Frames.PeerFramesDecode | client/obfs.go:218-263 | frames of other peers, with or without padding and a 12-octet extension, unwrap to their payload |
| Frames.NonceTravels | client/obfs.go:228-252 | the receiver reads the sender's nonce off the header |
| Frames.RoundTrip | client/obfs.go:202-263 | unwrapping a wrapped payload gives it back exactly when fewer than 255 random bytes were added, and refuses it otherwise |
| Frames.RoundTripInUse | client/obfs.go:61-77 | in both modes every frame is recognised as RTP and unwraps to its payload |
| Frames.FrameGrowth | client/obfs.go:157-170 | wrapping adds from 29 to 28 + PaddingMax bytes, and both ends occur |
| Frames.FitsReadBuffer | client/session.go:59-60 | every frame of a payload fits the read buffer of n + 80 bytes if and only if the payload has at most n + 28 bytes in audio mode, n - 8 in video mode |
| Frames.DecodeAccepts | client/obfs.go:200-263 | a datagram is accepted if and only if it parses with either header length and its ciphertext opens; what is reported is never empty and never more than there is room for |
| Frames.ObfsState.Next | client/obfs.go:146-149 | each counter value is handed out once before the counter wraps |
| Frames.CopyInto | client/obfs.go:184-190 | copying changes only its own range of the buffer |
| Frames.FillFrame | client/obfs.go:166-195 | header, ciphertext, padding and count, in this order, fill the buffer |
| Frames.WrapPacket | client/obfs.go:138-196 | the n-th frame of a state is built around the n-th nonce; a bad key or an empty payload is refused and uses up no number |
| Frames.UnwrapPacket | client/obfs.go:202-263 | for any byte string the error or the length, and the payload at the front of dst with the rest unchanged |
| Frames.ReadDirect | client/session.go:59-75 | the first datagram that is ours is delivered, everything before it is skipped |
| Frames.DirectDelivery | client/session.go:59-86 | a payload of at most n bytes in audio mode, n - 8 in video mode, reaches a direct reader of n bytes whole |
| ConfigToken.ConfigDeliveredAtMostOnce | client/group.go:163-187 | over all interleavings at most one worker holds the token, at most one message is sent, and the branch that finds the channel full is never taken |
| ConfigToken.DeliveryIsFinal | client/group.go:181-187 | once a message was sent, no step starts a session with the token |
| ConfigToken.NoAskingAfterDelivery | client/group.go:163-166 | after delivery no session asks again although configSent is read before the compare-and-swap |
| ConfigToken.FailureFreesTheToken | client/group.go:184-186 | a session that fails to deliver frees the token for the next worker |
| ConfigToken.FreeTokenIsTaken | client/group.go:163-166 | in every reachable state a worker of the first group that looks while the token is free and nothing was sent gets to ask |
| ConfigToken.TokenIsNeverLost | client/group.go:163-187 | in every reachable state the token is free, held by somebody, or the configuration was sent; a message was sent exactly when a session delivered |
| ConfigToken.HolderDelivers | client/session.go:474-481 | the holder always finds the channel empty, and its message gets in |
| ConfigToken.OnlyTheFirstGroupAsks | client/main.go:579-591 | the token is only ever held by workers of the first group |
| Cascade.ClampWorkers | client/main.go:313-332 | the number of workers is within the mode's limits, a multiple of nine without an account, and a number in range is kept or rounded down to one |
| Cascade.PlanGroups | client/main.go:543-591 | the start-up loop numbers the workers in blocks of at most nine and wires each group to the one before it with a channel of its own |
| Cascade.NumberWorkers | client/main.go:573-577 | worker IDs are consecutive |
| Cascade.WorkersArePartitioned | client/main.go:563-577 | each worker from 1 to numW is in exactly one group |
| Cascade.CascadeIsOrdered | client/group.go:40-78 | in every reachable state the groups that have asked for credentials form a prefix and all but the last of them have got them |
| Cascade.SignalsOnce | client/group.go:117-125 | no channel is closed twice |
| Cascade.FailureStopsTheRest | client/group.go:75-78 | after a group that fails, no later group asks |
| Cascade.StandingIsHistory | client/group.go:40-125 | in every run a group counts as successful exactly if its request was answered, as failed exactly if it was refused; likewise for having asked, signalled and given up |
| Cascade.BatonIsPassed | client/group.go:117-125 | the first group can start at once, and a group waiting for one that got its credentials can start after that one's signal |
| Cascade.GroupsDoNotShareCaches | client/group.go:70-71 | different groups use different caches, and none the one of stream 999 |
| Swaps.ApplySliderSwaps | client/captcha_v2_slider.go:364-385 | fails exactly on an empty grid, an odd list or a position out of range; else the array holds the arrangement after all swaps |
| Swaps.SwapCells | client/captcha_v2_slider.go:376-383 | the loop that swaps in place computes the arrangement |
| Swaps.CandidateIsPermutation | client/captcha_v2_slider.go:369-384 | every candidate is an arrangement of all tiles |
| Swaps.ReversedUndoes | client/captcha_v2_slider.go:376-383 | applying the swaps backwards undoes them |
| Swaps.ReversedFlat | client/captcha_v2_slider.go:376-378 | the flat list read backwards is the reversed list of swaps |
| Swaps.NextCandidate | client/captcha_v2_slider.go:353-362 | each candidate is one swap away from the one before |
| Tiles.OwnerIsUnique | client/captcha_v2_slider.go:390-395 | along a side each position lies in exactly one tile, given in closed form |
| Tiles.EdgeIsFloor | client/captcha_v2_slider.go:390-395 | edge c of g is c parts in g of the side rounded down, and the tiles of a row or column differ by at most one pixel |
| Tiles.NarrowestTile | client/captcha_v2_slider.go:390-395 | no tile is empty if and only if there are at most as many tiles as pixels |
| Tiles.TilesPartitionTheImage | client/captcha_v2_slider.go:387-396 | each pixel lies in exactly one of the g * g tiles |
| Tiles.TileWithinImage | client/captcha_v2_slider.go:387-396 | tiles stay within the image |
| Tiles.SampleInSource | client/captcha_v2_slider.go:537-549 | a pixel of the destination tile shows a pixel of the source tile, and itself when the tile is in its own place |
| Tiles.SampleIsProportional | client/captcha_v2_slider.go:537-549 | a tile is shown in the size of its place in proportion, and pixel for pixel when the sizes agree |
| Tiles.SidesAreInTiles | client/captcha_v2_slider.go:434-436 | the two pixels compared belong to the two tiles and are neighbours in the picture |
| Tiles.SeamPixelsAreInSource | client/captcha_v2_slider.go:416-460 | every pixel read by the seam scores lies in its source tile, hence in the image |
| Tiles.OriginIsShown | client/captcha_v2_slider.go:546-548 | reading through the mapping is reading the picture with its tiles rearranged |
| Tiles.ScoreSeam | client/captcha_v2_slider.go:433-438 | the loop along one border |
| Tiles.ScoreRow | client/captcha_v2_slider.go:420-439 | the loop over the borders of one row |
| Tiles.SeamScore | client/captcha_v2_slider.go:416-460 | the seam score, which samples through the mapping, equals the border score of the rearranged picture |
| Tiles.ScoreReadsInside | client/captcha_v2_slider.go:416-460 | the score depends only on pixels of the image, and the solved arrangement scores the image itself |
| PixelPairs.BordersAreThePixels | client/captcha_v2_slider.go:416-460 | the border score is the sum, over all pixels of the image, of the changes to the neighbours on the right and below that lie in another tile: each such pair is counted once, and no other |
| Sorting.SortedByIsOrdered | client/captcha_v2_slider.go:227-233 | sorting lists the same candidates in order |
| Sorting.OrderIsUnique | client/captcha_v2_slider.go:228-233 | with ties broken by index there is only one order, whatever algorithm finds it |
| Sorting.SortForgetsTheOrder | client/captcha_v2_slider.go:228-233 | the result of a sort does not depend on the order of its input |
| Sorting.PlaceIsRank | client/captcha_v2_slider.go:234-237 | the place of a candidate in an order is the number of candidates before it |
| Ranking.Stage2Size | client/captcha_v2_slider.go:239-246 | the second stage has twelve members, or all when there are fewer |
| Ranking.RankedIsOrdered | client/captcha_v2_slider.go:341-350 | the ranking is a permutation of the candidates ordered by consensus, luma score and index |
| Ranking.OnlyStage2IsCompared | client/captcha_v2_slider.go:290-297 | colour and text scores matter for members of the second stage only |
| Ranking.FewLosers | client/captcha_v2_slider.go:330-339 | how many members of the second stage can have a consensus rank above that of the first outsider |
| Ranking.HeadIsStage2 | client/captcha_v2_slider.go:330-350 | whatever the scores, the head of the ranking consists of fully scored candidates |
| Ranking.HeadIsLong | client/captcha_v2_slider.go:239-242 | the head has all of up to twelve candidates, at least seven from thirteen on, and twelve from twenty-one on |
| Ranking.TwelfthCanFallBack | client/captcha_v2_slider.go:330-350 | from thirteen to twenty candidates with equal scores an outsider precedes a fully scored one |
| Ranking.WhenAllTwelveLead | client/captcha_v2_slider.go:330-350 | all of the second stage leads for all scores if and only if there are at most 12 or at least 21 candidates |
| Ranking.HeadCanEnd | client/captcha_v2_slider.go:330-350 | from thirteen to twenty candidates there are scores for which an outsider takes the place right behind the head |
| Ranking.HeadIsExact | client/captcha_v2_slider.go:330-350 | for any number of candidates, a number of places goes to fully scored ones for all scores if and only if it is at most that of the head |
| Guesses.ScoreCandidates | client/captcha_v2_slider.go:216-225 | all candidates are built and scored, or the first bad swap is reported |
| Guesses.RankTable | client/captcha_v2_slider.go:227-237 | the table built from a sort holds the rank of each candidate |
| Guesses.SelectStage2 | client/captcha_v2_slider.go:239-246 | the chosen set is the front of the order |
| Guesses.InIndexOrder | client/captcha_v2_slider.go:299-304 | the members of the second stage in the order of the candidates |
| Guesses.StoreResults | client/captcha_v2_slider.go:289-297 | results arriving in any order end up with their candidates and change nothing else |
| Guesses.SumRanks | client/captcha_v2_slider.go:330-339 | ranks are added up in place |
| Guesses.SumIsConsensus | client/captcha_v2_slider.go:330-339 | with correct tables the sum is the consensus rank |
| Guesses.RankSliderGuesses | client/captcha_v2_slider.go:210-351 | the result is the ranking that the scores determine, for any order of arrival; it fails exactly when there are no candidates or the swaps are bad |
| Guesses.Limit | client/captcha_v2_slider.go:70-76 | the number of guesses tried is the least of the attempts, two and the number of candidates |
| GuessOrder.ScoreIsOwn | client/captcha_v2_slider.go:219-224 | the score that ranks a guess is that of the arrangement its own swaps make |
| GuessOrder.RankingIsInOwnOrder | client/captcha_v2_slider.go:210-351 | the ranking told from the guesses alone: each is listed once with its own swaps, and before another exactly as the scores of their own arrangements decide, by counting who does better |
| GuessOrder.BetterAllRound | client/captcha_v2_slider.go:330-350 | of two guesses of the second stage, one that beats the other by all three scores is tried first |
| Guesses.TriedGuessesAreFullyScored | client/captcha_v2_slider.go:70-76 | the at most two guesses that are tried have always been fully scored |
| Credentials.LocksInvHolds | client/creds.go:235-249 | each write lock and the request lock are held by the threads inside their sections and by nobody else |
| CredentialSafety.ThrottleKeepsSpacing | client/creds.go:281-293 | a thread that looks at the last request's time sends at once only when it is three seconds old, else it sleeps long enough |
| CredentialSafety.RequestsKeepTheirDistance | client/creds.go:277-300 | in every run a request starts only when all earlier ones have ended, at least three seconds ago |
| CredentialSafety.WaitsAreShort | client/creds.go:281-293 | in every reachable state a thread that sleeps for the throttle can go on six seconds after the last request ended |
| CredentialSafety.ServedCredentialsAreGood | client/creds.go:231-268 | in every run whatever is served was fetched for that link into that cache, stored less than nine minutes ago, and the cache was not changed or invalidated since that request started |
| CredentialSafety.OneFetchAtATime | client/creds.go:248-254 | at most one thread fetches, and nobody else is inside the write lock of its cache |
| CredentialThrift.NoNeedlessRequest | client/creds.go:231-254 | in every run no request starts while, by the log, its cache holds good credentials for its link, whoever stored them and whenever |
| CredentialThrift.ServedCredentialsAreUsable | client/creds.go:231-268 | in every run what is served from a cache has a server, and whatever is stored is served at once to the call that fetched it |
| CredentialThrift.ReturnsWithReason | client/creds.go:231-268 | a call returns only with credentials for its link, with the failure of its own request, or cancelled in its sleep |
| CredentialThrift.ThrottledExactly | client/creds.go:281-293 | after an earlier request a thread goes on at once, or sleeps exactly until the random interval since its end is over |
| CredentialThrift.GoodCacheServesAtOnce | client/creds.go:231-241 | a cache with good credentials serves a call under the read lock alone |
| ErrorWindow.StreakMeans | client/creds.go:189-210 | the stored count stands for a condition on the history: the last k events are errors, each at most ten seconds after the one before |
| ErrorWindow.StreakGrows | client/creds.go:195-200 | what one more error does to the streak |
| ErrorWindow.CredentialCache.HandleAuthError | client/creds.go:189-210 | invalidation is reported, and the credentials dropped, exactly when the last three events are such errors; the count never rests above two |
| ErrorWindow.CredentialCache.Invalidate | client/creds.go:160-169 | the credentials are gone and the history starts anew |
| ErrorWindow.CredentialCache.NoteSuccess | client/session.go:263-264 | a success resets the count and leaves the credentials |
| Texts.FieldsSplit | client/group.go:273-275 | cutting a text at a separator cuts its list of fields |
| Texts.FieldsOfJoin | client/group.go:273-275 | joining with commas and splitting is splitting each part |
| HashRules.CollectIsComplete | client/group.go:277-283 | each non-empty hash is collected, once |
| HashRules.ParseHashes | client/group.go:270-286 | the list is the different non-empty normal forms of the fields, in order of first appearance |
| HashPage.TrimChars | luci-app-qwdtt/htdocs/luci-static/resources/view/qwdtt/overview.js:28-35 | the loop trims as the client's library does |
| HashPage.FirstIndexOfAny | luci-app-qwdtt/htdocs/luci-static/resources/view/qwdtt/overview.js:37-45 | the loop over the characters finds the first position of any of them |
| HashPage.NormalizeVKJoinHash | luci-app-qwdtt/htdocs/luci-static/resources/view/qwdtt/overview.js:50-70 | the page normalises as the client does |
| HashPage.SplitHashTokens | luci-app-qwdtt/htdocs/luci-static/resources/view/qwdtt/overview.js:74-93 | the page splits as the client does |
| HashPage.AddTokens | luci-app-qwdtt/htdocs/luci-static/resources/view/qwdtt/overview.js:118-124 | the inner loop adds the new hashes of one entry |
| HashPage.ParseHashes | luci-app-qwdtt/htdocs/luci-static/resources/view/qwdtt/overview.js:115-127 | the page's list is the client's list of the comma-joined entries less the names of inherited properties, and equals it if and only if no token stands for such a name |
| HashPage.PortsAgree | luci-app-qwdtt/htdocs/luci-static/resources/view/qwdtt/overview.js:115-127 | the two ports give the same list if and only if no token that is entered stands for an inherited name |
| HashPage.HashProblem | luci-app-qwdtt/htdocs/luci-static/resources/view/qwdtt/overview.js:104-113 | nothing is wrong exactly with 43 characters of the base64url alphabet, else the first offence is named |
| HashLinks.AlphabetIs | luci-app-qwdtt/htdocs/luci-static/resources/view/qwdtt/overview.js:104-113 | the characters of a valid hash are ASCII letters and digits, the hyphen and the underscore |
| HashLinks.BareIsItself | client/group.go:288-306 | a hash given bare is its own normal form |
| HashLinks.LinkIsItsHash | client/group.go:294-305 | a join link, with the marker in any case and any suffix that begins with a query, a fragment or a slash, reduces to its hash |
| HashLinks.UsualLink | client/group.go:295-296 | the links that the service hands out are of that form |
| HashLinks.QuotedHashIsItself | client/group.go:289-289 | blanks and quotes around a hash make no difference |
| HashLinks.BracketedLinkIsItsHash | client/group.go:289-289 | a link in brackets reduces to its hash, also when the closing bracket follows the hash |
| HashLinks.OtherAddressIsNothing | client/group.go:294-299 | a web address without a join marker stands for no hash, whatever the case of its letters |
| HashLinks.NormalIsClean | client/group.go:301-305 | whatever is entered, its normal form holds no query, fragment or slash and has no blanks at its ends |
| HashStore.SpellsExactly | client/group.go:272-285 | the hashes of some pieces are a given list if and only if its members all appear, in this order for the first time, and nothing else does |
| HashStore.PageStoresTheHashes | luci-app-qwdtt/htdocs/luci-static/resources/view/qwdtt/overview.js:115-127 | the page stores a given list of different hashes for its entries if and only if the pieces of the entries spell it |
| HashStore.EntryIsItsHash | luci-app-qwdtt/htdocs/luci-static/resources/view/qwdtt/overview.js:115-127 | for one field the page stores just a hash if and only if a piece stands for it and the others for nothing else or for names that the page drops |
| HashStore.CheckedFieldIsStored | luci-app-qwdtt/htdocs/luci-static/resources/view/qwdtt/overview.js:454-468 | a field that passes the check is stored as the hash it was checked for under just this condition |
| HashStore.ClientReadsOneEntry | client/group.go:270-286 | the client, which drops no names, reads just a hash if and only if the other pieces stand for nothing else |
| HashStore.LinkPieces | luci-app-qwdtt/htdocs/luci-static/resources/view/qwdtt/overview.js:74-93 | the pieces of a link are what stands before it, its hash, and what follows the first separator in its suffix |
| HashStore.LinkStoresItsHash | luci-app-qwdtt/htdocs/luci-static/resources/view/qwdtt/overview.js:115-127 | for a link the page stores just its hash if and only if what stands before it and what follows that separator stand for nothing else or for names that the page drops |
| HashStore.PaddedEntryIsItsHash | luci-app-qwdtt/htdocs/luci-static/resources/view/qwdtt/overview.js:115-127 | separators around a single piece make no difference to what is stored |
| HashStore.WrappedEntryIsItsHash | luci-app-qwdtt/htdocs/luci-static/resources/view/qwdtt/overview.js:50-70 | nor do quotes and brackets |
| HashStore.PlainLinkStoresItsHash | luci-app-qwdtt/htdocs/luci-static/resources/view/qwdtt/overview.js:115-127 | for a link whose suffix holds no separator the page stores just its hash |
| HashStore.CheckedFieldStoresTwo | luci-app-qwdtt/htdocs/luci-static/resources/view/qwdtt/overview.js:454-468 | for every valid hash there is a field that passes the check for it and for which the page stores two hashes |
| HashStore.DroppedNameIsHarmless | luci-app-qwdtt/htdocs/luci-static/resources/view/qwdtt/overview.js:115-127 | with constructor in place of the second hash the page stores just the first, and the client would read both |
| HashStore.InheritedNameIsLost | luci-app-qwdtt/htdocs/luci-static/resources/view/qwdtt/overview.js:116-122 | a hash with the name of an inherited property is kept by the client and lost on the page |
| HashStore.ConstructorIsLost | luci-app-qwdtt/htdocs/luci-static/resources/view/qwdtt/overview.js:116-122 | the same for the name constructor |
| HashStore.EntriesAreStored | luci-app-qwdtt/htdocs/luci-static/resources/view/qwdtt/overview.js:115-127 | entries that store different hashes, each just its own, store their list |
| HashTrip.CommandLineIsJoin | qwdtt/files/qwdtt.init:37-38 | the start-up script's pipeline turns the stored list into its words joined by commas |
| HashTrip.StoredIsClean | luci-app-qwdtt/htdocs/luci-static/resources/view/qwdtt/overview.js:463-468 | whatever was entered, no member of the stored list is empty or holds a separator |
| HashTrip.ClientReadsTheList | client/group.go:270-286 | the client reads each member of the stored list and reduces it once more |
| HashTrip.ClientReadsTheHashes | client/group.go:270-286 | different valid hashes are read back from the command line as they are stored |
| HashTrip.HashesSurviveTheTrip | client/group.go:270-306 | for any entries the client gets a given list of different hashes if and only if the pieces, each reduced twice, spell it |
| HashTrip.OwnHashesArrive | client/group.go:270-306 | entries that store different valid hashes, each just its own, are stored and arrive as these |

## Left out

- Cryptography (ChaCha20-Poly1305, HKDF, SHA-256): the AEAD is any pair of functions with the correctness and length laws; nothing is said about secrecy or about different SSRCs.
- TURN, DTLS, the TUN device and sockets: their outcomes are inputs.
- VK and OK HTTP exchanges, captcha requests, browser profiles, names and the classification of error texts.
- Pixel formats and colour conversion: the seam score takes any pixel type and any difference; the weighted text score in floating point is an ordered key, and NaN is not modelled.
- `buildSliderCursorV2`, DNS, SOCKS, WireGuard start-up, statistics, logging, the status page and packaging: no property beyond what their bodies say.
- The account mode's injected credentials and the 15-second limit on refreshing a group's credentials (`client/group.go:88-115`).
- Unicode in the hash functions: text is ASCII, where byte offsets survive lower-casing. `echo` in the start-up script is taken to print its argument.
- The raw mode's disconnect notice (`client/session.go:511-526`): it writes to the connection and touches neither queues nor buffers.
- Cursors.ChunkLimits: assumes that the wall clock used by the dispatcher does not go back; only the span of a chunk depends on it.
- Dispatching.Dispatcher.Dispatch: the TUN counters are unbounded numbers, because 2^64 packets are out of reach.
- Frames.UnwrapPacket: says nothing about dst when authentication fails, because the library may have overwritten it.
- PlaneOwnership.EveryBufferHasOnePlace: taking a packet off a queue and returning its buffer is one step while a writer drains, because nobody else can hold that buffer in between.
- PlaneReturn.NothingIsLostOnTheWayBack: ends where the return loop has taken a packet; that it drops one while no local peer is known or when the write fails is not told apart from writing it.
- PlaneWriters.EachPacketIsWritten: the bytes of packets are not modelled, so neither is the content of a keepalive; the reader's skipping of keepalive replies is not either.
- ErrorWindow.CredentialCache.HandleAuthError: takes each call as one step; the code updates the count and the time of the last error separately, so concurrent calls may interleave.
- Credentials.LocksInvHolds: a cache exists from the start, empty; its creation on first use under the store's own lock is not modelled.
- Guesses.RankSliderGuesses: candidates are numbered from 0 in tables and from 1 in the result; the library's sort is modelled by its result, which is the only one possible.
- HashPage.ParseHashes: the names that every object answers to are a parameter, since they belong to the browser; for ECMAScript these are constructor, toString, valueOf, hasOwnProperty and the other properties of the object prototype.
