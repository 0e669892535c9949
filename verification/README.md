# Verified models of the node's core

Dafny models of the parts of the node whose correctness is hardest to see from
the code, and proofs of what they promise. `dafny verify dfyconfig.toml` covers
all files.

Hashes are identifiers: distinct objects have distinct hashes, and zero stands
for "no hash". State database, virtual machine, consensus engine, key-value
store and clocks appear as parameters or abstract functions. Integers are
unbounded unless a width is written out; 32-bit and 64-bit arithmetic is
explicit wherever the code depends on it.

- **Binary Merkle tree hasher** (`Bmt*.dfy`). The concurrent hasher is a step
  system: each segment goroutine stores its side, loads `unbalanced`, toggles,
  reads, combines and climbs, interleaved in any order with `finalise`, `Sum`
  and `releaseTree`. Every schedule is shown to end with the result of the
  reference recursion and a reusable tree. Two limits of the code are stated
  exactly: the toggle counters are read with a signed remainder, so goroutines
  meet in every run exactly if no counter that the chunk turns has wrapped,
  which 2^30 chunks bring about, and then a run can deliver the hash of another
  string than the one whose hash is the Merkle root; and a write past the
  capacity keeps too much exactly when the segment count is odd, the cursor is
  before the last leaf and a segment is open, after which the next write panics.
- **Transaction lists and pool** (`NonceHeap`, `NonceOrder`, `TxSortedMap`,
  `TxList`, `ListSteps`, `PoolAccounts`, `PoolSteps`, `PoolLists`, `TxPool`). The
  map, heap and cache of a list are one nonce-to-transaction map; the caps of a
  list make its filter's short cut exact. A cached listing that `Ready` uses up
  entirely stays behind although the map is empty; the invariant admits exactly
  that case. Promotion, demotion and capping are carried out on the list objects
  as well: they do to their maps what the pool does, and a list that stays in
  the pool has a right cache. The pool keeps `pending`, `queue` and `all` in
  agreement and within its limit; after a promotion its queues are exactly what
  the promotions leave, cut down to the limits for an account and for all
  queues. Pending nonces stay contiguous through every
  operation except a reset that takes nonces back, which breaks them exactly if
  a reinjected run stops short of what was pending and can still be paid for; a
  pool on which it does is built.
- **Canonical chain** (`ChainTree`, `HeaderChain`, `HeaderQuery`, `ChainFork`,
  `Reinjection`, `TxLookup`, `BlockChain`). Number index, transaction lookup
  index, ancestor queries, header replies, common ancestors and the pool's
  reinjection all agree with plain walking of parent links. Number based header
  queries add `Skip+1` without a guard, so their spacing is as asked exactly
  when the 64-bit sum does not wrap.
- **Weighted random selection** (`WrsFlat`, `WeightedSelect`). An 8-ary sum
  tree of heap nodes stands for a flat row of weighted places; indices stay put
  through inserts, changes, removals and growth.
- **Gas and fees** (`Balances`, `StateTransition`, `StateProcessor`). For any
  virtual machine that makes no wei and returns no more gas than it got, it is
  stated exactly which messages and blocks go through, and pool gas plus used
  gas is constant over a block. Wei is destroyed in two places: in the run, and
  with the accounts that destroyed themselves, which go with whatever they hold
  when the transaction is finalised. The total falls by exactly that, so it is
  conserved exactly if neither happens; a machine that keeps all wei and yet
  destroys one is given. No accepted block uses a sender's nonce twice.
- **Chain indexer** (`SectionIndex`, `ChainIndexer`, `IndexerReset`,
  `IndexerSplit`). Section heads, stored and persisted counts agree across all
  interleavings with the unlocked section processing. The rollback after a
  failed backend reset is not under the lock; access by access and in 64-bit
  arithmetic it is stated after which schedules of head events it leaves the
  index in order, first with each event as one step and then with the events
  split as well. Only sections that some announced head has confirmed are taken
  up. There is an input for each way to fail; two of them lower the
  count from zero to 2^64-1.
- **Request distributor** (`Distributor`). The queue is strictly ordered; each
  peer is matched only with the oldest request it can serve.
- **Derivation paths** (`HdPath`). Printing and parsing are inverse; relative
  paths mean what they mean under the default root.

## Model

| member | source | states |
|---|---|---|
| `BmtReference.RefHashIsMerkleRoot` | bmt/bmt_r.go:67-85 | the reference recursion, with its halving loop on the span, gives the Merkle root defined by splitting at the largest power-of-two span that leaves something on the right, for every length within twice the span |
| `BmtReference.HalveIsSplit` | bmt/bmt_r.go:71-77 | the halving loop of the reference stops exactly at that split point |
| `BmtReference.RefHasher.constructor` | bmt/bmt_r.go:39-55 | span, section and limit computed from segment size and count; the span covers the capacity in two halves |
| `BmtReference.RefHasher.Hash` | bmt/bmt_r.go:59-65 | data beyond the capacity is cut off and the rest gets its Merkle root |
| `BmtReference.RefHasher.HashSpan` | bmt/bmt_r.go:67-85 | the recursive method equals the reference function |
| `BmtSegments.Depth` | bmt/bmt.go:519-525 | the depth loop yields the lowest height at which the last leaf's path is the left edge |
| `BmtSegments.NodeValue` | bmt/bmt.go:461-492 | every node of the tree over double segments holds the Merkle root of the data below it, or that data itself when it is a lone short segment that is passed through unhashed |
| `BmtSegments.TopValue` | bmt/bmt.go:528-549 | the node that `finalise` marks as root has data below it and holds the Merkle root of the whole data |
| `BmtSegments.CapacityFits` | bmt/bmt.go:252-276 | data within size*count never climbs past the top of the tree `NewTree` builds |
| `BmtSteps.StoringStep` | bmt/bmt.go:464-468 | storing a side keeps the invariant: no other goroutine relies on that half |
| `BmtSteps.LoadingStep` | bmt/bmt.go:469-472 | loading `unbalanced` reads the mark of a path node exactly when `finalise` has set it, and keeps the invariant |
| `BmtSteps.TogglingStep` | bmt/bmt.go:507-509 | toggling sends the first arrival away and lets the second on, and keeps the invariant |
| `BmtSteps.ReadingLeftStep` | bmt/bmt.go:473-481 | reading the left half finds the left child's value |
| `BmtSteps.ReadingRightStep` | bmt/bmt.go:473-481 | combining or passing through gives the node's own value |
| `BmtSteps.LeavingStep` | bmt/bmt.go:483-490 | moving to the parent or delivering at the root keeps the invariant |
| `BmtSteps.HashingStep` | bmt/bmt.go:445-456 | hashing a full double segment and delivering or entering the parent keeps the invariant |
| `BmtMainSteps.MarkingStep` | bmt/bmt.go:528-549 | each store of `finalise` keeps the invariant while segment goroutines are running |
| `BmtMainSteps.ReleasingStep` | bmt/bmt.go:423-438 | each store of `releaseTree` keeps the invariant |
| `BmtMainSteps.StepKeepsInv` | bmt/bmt.go:291-309 | every atomic step of any goroutine, `finalise`, `Sum` or `releaseTree` keeps the invariant |
| `BmtMainSteps.RunKeepsInv` | bmt/bmt.go:440-492 | the invariant holds after every schedule of any length |
| `BmtMainSteps.SenderIsAlone` | bmt/bmt.go:483-486 | no two goroutines deliver a result |
| `BmtTheorems.Progress` | bmt/bmt.go:291-309 | until the result has been taken and the tree released, some step is enabled: no schedule deadlocks |
| `BmtTheorems.RunIsShort` | bmt/bmt.go:461-492 | every run is bounded by a rank that each step lowers |
| `BmtTheorems.FinalTree` | bmt/bmt.go:423-438 | after the release every toggle is even, `unbalanced` is clear and only the top node is marked as root |
| `BmtTheorems.EverySchedule` | bmt/bmt.go:291-317 | for every segment size and count, every data within capacity, every clean tree on which no counter this data turns is negative, and every interleaving: the run is bounded, cannot get stuck, has at most one deliverer, and ends with the Merkle root of the data and a clean tree |
| `BmtTheorems.ReusedTree` | bmt/bmt.go:163-190 | a tree from the pool hashes up to 2^30 chunks in a row correctly, each under its own arbitrary schedule |
| `BmtWrap.WaitsIffNotWrapped` | bmt/bmt.go:507-509 | on any clean tree, in every run and at every node where two inputs meet, nobody goes on before somebody has stopped there, exactly if none of the 32-bit counters the chunk turns has wrapped to a negative number |
| `BmtWrap.EarlyRun` | bmt/bmt.go:461-492 | whichever of those counters are negative, there is a run in which a goroutine goes past one of them with nobody waiting |
| `BmtWrap.Follow` | bmt/bmt.go:461-492 | a run on the tree with its counters made sound can be followed step by step on the tree as it is, until somebody is early |
| `BmtWrap.Complete` | bmt/bmt.go:291-309 | from every state of a run on a usable tree the run can be completed |
| `BmtWrap.EdgeCounter` | bmt/bmt.go:507-509 | the counter at any height above the first leaf after k chunks that turn it: 2k, and -2^31 after 2^30 of them |
| `BmtWrap.WrappedAtLast` | bmt/bmt.go:507-509 | after 2^30 such chunks on one tree the next one has a run in which somebody is early |
| `BmtWrong.MainFirst` | bmt/bmt.go:291-309 | the writing thread can mark the whole path before any goroutine moves, whatever the counters are |
| `BmtWrong.Climb` | bmt/bmt.go:461-492 | over negative counters a goroutine climbs alone to the top and delivers a hash over an empty right half |
| `BmtWrong.WrongRoot` | bmt/bmt.go:291-317 | with the counters above the first leaf wrapped, all data of two leaves or more has a complete run that delivers the hash of one string where the Merkle root is the hash of another, longer one, for every hash of fixed length: a wrong result unless just these two strings collide |
| `BmtWrong.WrongAtLast` | bmt/bmt.go:163-190 | so it is after 2^30 chunks on one tree that reach as high as the data |
| `BmtWrong.WrongTag` | bmt/bmt.go:291-317 | with the length of its input as a one-byte hash the result is wrong for all such data that does not end in a single segment |
| `BmtWrong.WrongExample` | bmt/bmt.go:291-317 | such a tree and four such bytes |
| `BmtWriter.Hasher.constructor` | bmt/bmt.go:89-95 | a hasher starts with an empty open segment at leaf zero |
| `BmtWriter.Hasher.Write` | bmt/bmt.go:332-371 | one write extends the held data, launching full double segments in order; excess data is dropped exactly unless the stated overrun condition holds, in which case more than the capacity is kept; after an overrun exactly the writes that are not empty panic, and no other write does |
| `BmtWriter.OverrunExample` | bmt/bmt.go:332-371 | writes of one and of three bytes to a hasher of three one-byte segments, after which the next write panics |
| `BmtWriter.WriteAll` | bmt/bmt.go:332-371 | any split of the input over writes within capacity launches the same leaf segments and leaves the same open segment and cursor as the concatenation |
| `NonceHeap.RootIsLeast` | core/tx_list.go:28-46 | the root of a heap is its least nonce |
| `NonceHeap.Push` | core/tx_list.go:35-37 | pushing keeps the heap order and adds exactly that nonce |
| `NonceHeap.Pop` | core/tx_list.go:39-45 | popping takes exactly the least nonce and keeps the heap order |
| `NonceHeap.Init` | core/tx_list.go:119-124 | any slice is put in heap order with the same nonces |
| `NonceHeap.Remove` | core/tx_list.go:196-201 | removing at a position takes exactly that nonce and keeps the heap order |
| `NonceOrder.FlatIsUnique` | core/tx_list.go:309-318 | the nonce-ordered listing of a map is unique |
| `TxSortedMap.Search` | core/tx_list.go:190-192 | the binary search finds where a nonce cuts the listing |
| `TxSortedMap.TxSortedMap.Put` | core/tx_list.go:70-76 | the map is updated, heap and map hold the same nonces, the cache is dropped |
| `TxSortedMap.TxSortedMap.Forward` | core/tx_list.go:81-95 | exactly the nonces under the threshold leave, in order; heap, map and shifted cache agree |
| `TxSortedMap.TxSortedMap.FilterStrict` | core/tx_list.go:99-130 | the first match leaves as removed and everything above it as invalid, in order; nothing changes without a match |
| `TxSortedMap.TxSortedMap.FilterLoose` | core/tx_list.go:132-150 | exactly the matches leave, each once |
| `TxSortedMap.TxSortedMap.Cap` | core/tx_list.go:155-178 | exactly the lowest nonces up to the limit stay; the others are given back highest first |
| `TxSortedMap.TxSortedMap.Remove` | core/tx_list.go:182-222 | a missing nonce changes nothing; otherwise that nonce leaves, in strict mode with everything above it as invalid; heap and cache are repaired |
| `TxSortedMap.TxSortedMap.Ready` | core/tx_list.go:230-262 | heap path and cache path both take out the maximal consecutive run from the least nonce; the cache is right afterwards exactly unless a cached listing was used up entirely |
| `TxSortedMap.TxSortedMap.ReadyHeap` | core/tx_list.go:235-243 | the heap path: the run by popping |
| `TxSortedMap.TxSortedMap.ReadyCache` | core/tx_list.go:244-261 | the cache path: the same run by reading the listing; the cache goes stale exactly when the map becomes empty |
| `TxSortedMap.TxSortedMap.ForLast` | core/tx_list.go:282-300 | exactly the highest nonces leave, in order |
| `TxSortedMap.TxSortedMap.EnsureCache` | core/tx_list.go:309-318 | the cache becomes the map's listing |
| `TxSortedMap.TxSortedMap.Flatten` | core/tx_list.go:272-278 | the listing of the map |
| `TxSortedMap.TxSortedMap.Last` | core/tx_list.go:304-307 | the transaction with the highest nonce |
| `TxList.TxList.Add` | core/tx_list.go:353-368 | a transaction is accepted exactly if its nonce is free or it outbids the holder; the one replaced is returned; all costs and gas limits stay within the caps |
| `TxList.OutbidsMeaning` | core/tx_list.go:354-361 | outbidding asks for the price bump on top, rounded down, exactly if the bump is below 2^63-100; for a larger one the signed 64-bit percentage is negative and any higher price will do |
| `TxList.TxList.AddUnchecked` | core/tx_list.go:370-378 | an unchecked add raises the caps to cover the transaction |
| `TxList.TxList.Filter` | core/tx_list.go:396-408 | although it may return early on the caps, a filter does in every case exactly what a full scan would, strict or not, and leaves nothing over the limits |
| `TxList.TxList.Forward` | core/tx_list.go:383-385 | as the map's, keeping the caps valid |
| `TxList.TxList.Cap` | core/tx_list.go:412-414 | as the map's, keeping the caps valid |
| `TxList.TxList.Remove` | core/tx_list.go:419-421 | as the map's, keeping the caps valid |
| `TxList.TxList.Ready` | core/tx_list.go:429-431 | as the map's, keeping the caps valid |
| `TxList.TxList.ForLast` | core/tx_list.go:452-454 | as the map's, keeping the caps valid |
| `ListSteps.StrictFilterIsCut` | core/tx_list.go:99-130 | the strict filter is the cut at the least match, the form the pool uses |
| `ListSteps.LooseFilterIsRest` | core/tx_list.go:132-150 | the loose filter keeps what does not match, the form the pool uses |
| `ListSteps.ReadyIsRun` | core/tx_list.go:230-262 | the ready transactions are those below the first missing nonce, the form the pool uses |
| `ListSteps.CapIsLowest` | core/tx_list.go:155-178 | capping keeps the lowest nonces, the form the pool uses |
| `PoolLists.Prune` | core/tx_pool.go:1284-1299 | on a queued list object: outdated and unpayable transactions leave, the rest is what the pool calls payable |
| `PoolLists.TakeReady` | core/tx_pool.go:1318-1334 | on a queued list object: the executable run leaves in nonce order, then what is over the limit; only a list that is then empty can have a stale cache |
| `PoolLists.PromoteList` | core/tx_pool.go:1268-1339 | a whole promotion of a list object, stale caches on the way included: it leaves exactly what the pool's promotion leaves, and a list that stays in the pool has a right cache |
| `PoolLists.FilterPending` | core/tx_pool.go:1486-1512 | on a pending list object: outdated transactions leave, then the first unpayable one, and those after it are handed back in order |
| `PoolLists.Requeue` | core/tx_pool.go:1499-1519 | adding transactions back to a queued list object, in any order, adds exactly them |
| `PoolLists.DemoteLists` | core/tx_pool.go:1466-1530 | a whole demotion of an account's two list objects: the queue gains exactly what the pool's demotion demotes, and the pending list stays exactly if it starts at the state nonce, with everything in it payable |
| `PoolLists.ForLastIsLowest` | core/tx_list.go:282-300 | dropping the last n transactions keeps the lowest nonces, the form the pool uses |
| `PoolLists.DropLast` | core/tx_pool.go:1421-1426 | on a queued list object: the lowest nonces stay |
| `PoolAccounts.OneAccount` | core/tx_pool.go:1196-1235 | a change confined to one account that leaves its lists and its part of `all` in order leaves the whole pool in order |
| `PoolAccounts.Demote` | core/tx_pool.go:1212-1213 | moving pending transactions to the queue with `queue.add` overwrites nothing there and keeps the account in order |
| `PoolAccounts.DropOnePending` | core/tx_pool.go:1212-1227 | taking a pending transaction out and queueing those after it overwrites nothing in the queue and keeps the account in order |
| `PoolAccounts.Promote` | core/tx_pool.go:970-1001 | moving queued transactions to the pending list overwrites nothing there and keeps the account in order |
| `PoolSteps.PromotionContig` | core/tx_pool.go:1268-1318 | promotion extends the pending interval to the new pending nonce, and what stays queued lies beyond it |
| `PoolSteps.RemainingMeaning` | core/tx_pool.go:1268-1341 | what stays queued is current, payable and within the account's limit, and no executable transaction is among it |
| `PoolSteps.ExecutableExactly` | core/tx_pool.go:1268-1318 | payable is exactly what is queued, current and not too dear; executable is exactly the unbroken run of it from its lowest nonce, if that is no later than the pending nonce |
| `PoolSteps.RemainingExactly` | core/tx_pool.go:1319-1341 | what stays queued is all the rest, or as many of its lowest nonces as the account's limit allows |
| `PoolSteps.DemotionContigIff` | core/tx_pool.go:1466-1532 | whatever an account's two lists are, demotion leaves it contiguous exactly if what stays pending has no gap |
| `PoolSteps.ReinjectionGap` | core/tx_pool.go:589-611 | a reinjected run in front of a pending interval leaves a gap exactly if it is not empty and stops short of a first pending transaction that can still be paid for |
| `PoolSteps.GapStays` | core/tx_pool.go:606-615 | no later promotion fills the gap: the nonce where the reinjected run stopped is missing or too dear |
| `PoolSteps.StayingMeaning` | core/tx_pool.go:1466-1532 | what stays pending is current, payable and starts at the state nonce |
| `PoolSteps.StayingExactly` | core/tx_pool.go:1466-1532 | exactly those stay pending that are current and have nothing too dear up to them, if the state nonce itself is pending |
| `PoolSteps.DemotedExactly` | core/tx_pool.go:1466-1532 | of the other current ones exactly the first that is too dear is dropped, and the rest goes back to the queue |
| `PoolSteps.RemovalContig` | core/tx_pool.go:1212-1227 | taking out a pending transaction cuts the interval there |
| `TxPool.TxPool.Validate` | core/tx_pool.go:794-838 | the error is the first check, in the order of the code, that the transaction fails; none exactly if size, sign, signature, price, gas limit, nonce, funds and intrinsic gas are all in order |
| `TxPool.TxPool.Add` | core/tx_pool.go:848-921 | views and limit stay in order; a rejected transaction changes nothing and gets the right error: known, the first check it fails, no room, or a bid too low; exactly one that is new, passes the checks and finds room replaces the outbid pending or queued holder of its nonce or is queued |
| `TxPool.InsertedMeaning` | core/tx_pool.go:879-948 | putting a transaction in hands its nonce over exactly if that is free or its holder is outbid; the new holder is pending if the old one was, and every other nonce of every account keeps its holder and place |
| `TxPool.TxPool.EnqueueTx` | core/tx_pool.go:926-948 | queueing with replacement on a sufficient bid |
| `TxPool.TxPool.PromoteTx` | core/tx_pool.go:970-1001 | pending list, `all`, pending nonce and heartbeat after a promotion, or the discard |
| `TxPool.TxPool.AddTx` | core/tx_pool.go:1032-1066 | adding and promoting: exactly when a transaction gets as far as its nonce's holder; views in order, contiguity kept, the sender's exact new pending list and nonce, and no executable transaction of the sender left queued. The queues are exactly what adding and promoting leave in them, cut down as the limits say: at most the account's limit for a non-local sender, and all queues together within the pool's limit or only local ones left. Who becomes local and whose heartbeat moves is exact as well |
| `TxPool.TxPool.RemoveTx` | core/tx_pool.go:1196-1235 | removal from pending moves the later ones to the queue, lowers the pending nonce, and forgets the heartbeat of an account left without pending ones; removal from the queue touches nothing else; exactly that transaction leaves `all` |
| `TxPool.RemovedMeaning` | core/tx_pool.go:1196-1235 | taking a transaction out frees exactly its nonce; exactly what was pending from it on is no longer pending |
| `TxPool.TxPool.PromoteExecutable` | core/tx_pool.go:1268-1341 | the exact new lists, pending nonce and heartbeat of the account; views in order and contiguity kept |
| `TxPool.TxPool.PromoteExecutables` | core/tx_pool.go:1254-1266 | all given accounts promoted, each to its exact new pending list, nonce and heartbeat, and none of them has an executable transaction queued or, unless local, more than the account's limit. All queues together are within the pool's limit or only local ones are left; they are exactly what the promotions leave if that is within the limit, and otherwise a part of it: the lowest nonces of each, local ones untouched, a queue shortened only once those of accounts active later are gone |
| `TxPool.FewLeft` | core/tx_pool.go:1319-1336 | a promoted account that is not local has no more queued than its limit, whatever else is dropped |
| `TxPool.TxPool.DemoteAccount` | core/tx_pool.go:1466-1532 | the exact new lists of the account; views in order |
| `TxPool.TxPool.DemoteUnexecutables` | core/tx_pool.go:1466-1532 | every account demoted to its exact new lists, nobody else touched; exactly the heartbeats of accounts left without pending transactions are forgotten |
| `TxPool.TxPool.CapQueue` | core/tx_pool.go:1389-1428 | the queues together end at the limit or only local accounts have any left, and nothing changes while they are within it; local queues are untouched, each queue keeps its lowest nonces, and a queue is shortened only after those of accounts active later are gone |
| `TxPool.TxPool.DropLast` | core/tx_pool.go:1411-1427 | as many as asked for leave a queue from the top, or the whole queue; its lowest nonces and all other queues stay |
| `TxPool.TxPool.SetGasPrice` | core/tx_pool.go:642-656 | the floor is set, and `all` keeps exactly what meets it or is local; a transaction stays pending exactly if it and everything pending before it is kept |
| `TxPool.TxPool.Evict` | core/tx_pool.go:420-438 | exactly the queues of non-local accounts that have been idle for too long, or have no heartbeat, are dropped |
| `TxPool.TxPool.SetPendingNonces` | core/tx_pool.go:609-611 | the pending nonce of every account with pending transactions becomes the one after the last |
| `TxPool.TxPool.Reset` | core/tx_pool.go:576-615 | views in order for any reinjection, no executable transaction left queued and both queue limits kept; a contiguous pool is contiguous again exactly if no account that gains transactions has its reinjected run stop short of a first pending one that can still be paid for, which can be told before the reset; in particular it is when every reinjected transaction is accepted and they cover the nonces that went back. The lists go exactly from the added ones through promotion of the accounts that gained, demotion of all and promotion of all; price floor and local accounts stay |
| `TxPool.ResetContig` | core/tx_pool.go:582-611 | the contiguity argument over reinjection, demotion and the setting of nonces |
| `TxPool.BreakStays` | core/tx_pool.go:589-615 | an account whose reinjected run stops short is not contiguous when the reset is over |
| `TxPool.CoveredNeverBreaks` | core/tx_pool.go:589-600 | when the accepted transactions cover the nonces that went back, no run stops short |
| `TxPool.AddedAllPlaces` | core/tx_pool.go:589-600 | adding transactions one by one changes no pending nonce, and when all are accepted the place of each is taken by an executable one |
| `TxPool.TxPool.Readd` | core/tx_pool.go:589-600 | what adding one by one comes to, with every account that gained transactions promoted to its exact new pending list and nonce and nobody else touched |
| `TxPool.TxPool.AddAll` | core/tx_pool.go:589-600 | the loop computes what adding one by one comes to: views, accounts that gained transactions, and whether all were accepted |
| `TxPool.SecondRejected` | core/tx_pool.go:1514-1523 | when an account goes back by two transactions and only the first is accepted again, the run stops short of the pending third |
| `TxPool.LoseSecond` | core/tx_pool.go:576-615 | every valid, contiguous pool in that situation is not contiguous after the reset |
| `TxPool.GapExample` | core/tx_pool.go:576-615 | such a pool, built from an empty one by adding one transaction |
| `TxPool.TxPool.ShrinkQueue` | core/tx_pool.go:1411-1427 | dropping part of a queue keeps views and contiguity |
| `ChainFork.MeetIsHighest` | core/database_util.go:661-685 | the walk meets exactly at the highest header on both lines, and finds nothing exactly if they share none, also in a store with missing ancestors |
| `ChainFork.FindCommonAncestor` | core/database_util.go:661-685 | the method finds that header |
| `ChainFork.BranchMeaning` | core/tx_pool.go:528-573 | a transaction is on a branch exactly if a block above the fork has it |
| `Reinjection.Reinject` | core/tx_pool.go:508-575 | the set taken back: nothing for a plain extension or a height difference above 16, an early return exactly for unrooted chains, otherwise the abandoned branch's transactions minus the new branch's above the highest common ancestor |
| `Reinjection.Walk` | core/tx_pool.go:526-573 | the three loops compute that difference |
| `HeaderChain.HeaderChain.constructor` | core/headerchain.go:72-109 | a chain that holds the genesis header only is in order |
| `HeaderChain.HeaderChain.Restore` | core/headerchain.go:98-107 | started again from a stored chain and a recorded head block, the chain is in order exactly if that block is its head |
| `HeaderChain.HeaderChain.WriteHeader` | core/headerchain.go:132-198 | after every write the number index is defined exactly on 0..head, gives the head's ancestors, total difficulties are the sums over ancestors and the head's is maximal; status and head follow the difficulty rule; an unknown parent changes nothing |
| `HeaderChain.HeaderChain.InsertHeader` | core/headerchain.go:272-283 | a known header changes nothing; an unknown one becomes the head exactly if its chain is heavier, or as heavy and the coin says so |
| `HeaderChain.HeaderChain.DeleteAbove` | core/headerchain.go:157-164 | the loop ends and drops exactly the entries above the new head |
| `HeaderChain.HeaderChain.RewriteBelow` | core/headerchain.go:165-179 | the loop ends where the index meets the new chain, and then the index follows the new chain all the way down |
| `HeaderChain.HeaderChain.Reroute` | core/headerchain.go:157-189 | the index covers exactly the new head's chain |
| `HeaderChain.HeaderChain.InsertHeaderChain` | core/headerchain.go:262-287 | a validated run is imported completely, or not at all exactly if its first header is new and lacks its parent, or up to the header before which the chain is shut down; the result says which; the head moves only to a new header that is heavier, or as heavy if a coin was for it |
| `HeaderChain.StoredMeaning` | core/headerchain.go:262-287 | storing a run keeps what was there and adds exactly the run |
| `HeaderChain.HeaderChain.GetAncestor` | core/headerchain.go:318-348 | for a known block the answer is the plain N-step parent walk, or zero exactly when the walk off the canonical chain exceeds the budget, whose remainder is exact; unknown blocks have no ancestors; what the zero hash gives is stated too |
| `HeaderChain.HeaderChain.JumpIsWalk` | core/headerchain.go:331-334 | jumping along the index gives the block a walk would reach |
| `HeaderQuery.GetBlockHeaders` | eth/handler.go:337-416 | the reply starts at the origin, neighbours are spaced as asked, it keeps within amount and limits, and it stops only at a limit or when nothing can follow |
| `HeaderQuery.Forward` | eth/handler.go:380-402 | a step towards the leaf is taken exactly if the origin is canonical and there is a canonical block that far ahead; 64-bit wrap-around is caught |
| `HeaderQuery.Backward` | eth/handler.go:371-379 | a step towards the genesis is taken exactly if the chain is long enough and the budget suffices |
| `HeaderQuery.AdvanceNumber` | eth/handler.go:403-414 | number steps in 64-bit arithmetic |
| `HeaderQuery.ReverseReply` | eth/handler.go:371-379 | in a reverse hash reply header i is exactly i*(skip+1) parent links above the origin |
| `HeaderQuery.ForwardReply` | eth/handler.go:380-402 | in a forward hash reply the origin is exactly i*(skip+1) parent links above header i |
| `HeaderQuery.NumberSpacing` | eth/handler.go:403-414 | number replies are spaced by skip+1 exactly when the 64-bit arithmetic does not wrap |
| `HeaderQuery.LargestSkipRepeats` | eth/handler.go:403-414 | with the largest skip a number query repeats its origin |
| `TxLookup.LookupMeaning` | core/database_util.go:497-514 | with unique transactions the lookup index holds exactly the (block, index) positions of the chain's transactions |
| `TxLookup.BranchSplits` | core/blockchain.go:1348-1424 | the index of a chain is that of any of its blocks plus, disjointly, the branch above |
| `TxLookup.Splice` | core/blockchain.go:1400-1424 | writing the new branch's entries and deleting those only the old one had gives the new chain's index |
| `BlockChain.BlockChain.constructor` | core/blockchain.go:416-439 | the chain as reset to a genesis block is in order |
| `BlockChain.BlockChain.Insert` | core/blockchain.go:494-516 | index and head fields after making a block the head; header and fast heads move exactly if the index changes |
| `BlockChain.Prefers` | core/blockchain.go:991-995 | the heavier chain is preferred, of equally heavy ones the shorter, and between equals the coin decides |
| `BlockChain.BlockChain.WriteTxLookupEntries` | core/database_util.go:497-514 | the lookup index is extended by the block's positions |
| `BlockChain.BlockChain.Split` | core/blockchain.go:1348-1388 | the new branch and the old branch's transactions above the fork; no parent is ever missing |
| `BlockChain.BlockChain.Reinsert` | core/blockchain.go:1400-1412 | re-inserting the new branch lowest block first makes the number index follow it; header and fast heads end at the highest block that the index lacked, and stay if it lacked none |
| `BlockChain.BlockChain.DeleteLookups` | core/blockchain.go:1413-1424 | exactly the transactions only the old branch had lose their entries |
| `BlockChain.BlockChain.Reorg` | core/blockchain.go:1322-1436 | number index and lookup index move from one stored chain to any other, header and fast heads to the highest block that the index lacked |
| `BlockChain.MovedOn` | core/blockchain.go:494-516 | inserting the next block of a chain keeps that rule for the heads, and changes nothing in the index above |
| `BlockChain.BlockChain.WriteBlockWithState` | core/blockchain.go:903-1023 | in every run the canonical hash at each height up to the head is the head's ancestor, the head's total difficulty is maximal and lookup entries are exactly the head chain's. The head changes exactly for a heavier chain, or an equally heavy one that is shorter, or as long when the coin says so. Then header and fast heads are the new block unless the index had it already, and in any case the highest block of its chain that the index lacked, and index entries above it stay; otherwise heads, index and lookups do not change |
| `BlockChain.BlockChain.WriteBlockWithoutState` | core/blockchain.go:889-900 | writing a side block that is not heavier keeps all of that |
| `BlockChain.RootedMeet` | core/blockchain.go:1367-1388 | two stored chains always meet, at a block of both |
| `WrsFlat.PickMeaning` | les/randselect.go:160-173 | a value picks exactly the place whose weight interval, in index order, contains it |
| `WrsFlat.HitsEqualWeight` | les/randselect.go:160-173 | each item is hit by exactly weight-many values |
| `WeightedSelect.WrsNode.constructor` | les/randselect.go:98-104 | an empty node of a level with capacity 8^(level+1) |
| `WeightedSelect.WrsNode.Above` | les/randselect.go:64-68 | a new root above a full tree keeps every place |
| `WeightedSelect.WrsNode.Insert` | les/randselect.go:107-133 | below capacity insertion never panics, takes the lowest free place and changes no other; sums and counts stay exact on every node |
| `WeightedSelect.WrsNode.SetWeight` | les/randselect.go:136-157 | exactly the weight at an index changes, weight zero frees it; sums and counts stay exact on every node |
| `WeightedSelect.WrsNode.Choose` | les/randselect.go:160-173 | the tree walk returns the item and weight the flat pick names |
| `WeightedSelect.WeightedRandomSelect.constructor` | les/randselect.go:38-40 | an empty selection |
| `WeightedSelect.WeightedRandomSelect.SetWeight` | les/randselect.go:54-73 | exactly that item's weight is stored, changed or removed; every other item keeps weight and index, also when the tree grows |
| `WeightedSelect.WeightedRandomSelect.Grow` | les/randselect.go:63-69 | growing a level keeps all items at their indices |
| `WeightedSelect.WeightedRandomSelect.Choose` | les/randselect.go:79-94 | the loop ends because every rejection lowers the total; the choice has its current, positive weight; weights are only brought up to date |
| `WeightedSelect.WeightedRandomSelect.Round` | les/randselect.go:84-92 | one draw of that loop: the first random number picks the item, whose weight is brought up to date, and the draw stands exactly if the second, below the old weight, is below the new one |
| `WrsFlat.StandsInProportion` | les/randselect.go:90 | of the numbers below the old weight as many let the draw stand as the new weight says |
| `StateTransition.IntrinsicGas` | core/state_transition.go:79-109 | the intrinsic gas in unbounded arithmetic, or an error exactly if it does not fit 64 bits |
| `StateTransition.NonZeroCounts` | core/state_transition.go:90-94 | the count of non-zero bytes is that of their places |
| `StateTransition.IntrinsicAdds` | core/state_transition.go:79-109 | every byte has its price wherever it stands: 4 for a zero and 68 for another, on top of 21000 for a call and 53000 for a creation |
| `StateTransition.GasPool.AddGas` | core/gaspool.go:29-35 | adds gas; callers rule out the panic |
| `StateTransition.GasPool.SubGas` | core/gaspool.go:39-45 | takes gas exactly if there is enough |
| `StateTransition.StateTransition.BuyGas` | core/state_transition.go:152-165 | gas taken from the pool and paid by the sender, or nothing changed and the exact reason |
| `StateTransition.StateTransition.PreCheck` | core/state_transition.go:167-178 | exactly when and with which error a message is refused before gas is bought, and then nothing has changed |
| `StateTransition.StateTransition.RefundGas` | core/state_transition.go:230-245 | the refund is at most half of the gas used; sender and pool get the rest back |
| `StateTransition.Charged` | core/state_transition.go:230-236 | the least gas that leaves neither more than the refund counter nor more than half of the use unpaid |
| `StateTransition.StateTransition.TransitionDb` | core/state_transition.go:183-228 | a message goes through exactly if its nonce is right, sender and pool can pay for its gas, the gas covers the intrinsic gas and the machine can make the transfer, and each error has its exact condition; then it leaves the world as run, with sender and miner settled, takes exactly the gas used from the pool, and loses exactly the wei the run itself destroys; after a call under a machine that changes no nonces the sender's nonce is one higher and no other changed; refused ones change nothing, and those failing after the purchase leave the purchase or the failed run |
| `StateTransition.AroundTheRun` | core/state_transition.go:183-228 | around a run that does nothing, a message only raises the sender's nonce if it is a call and moves the price of its gas from sender to miner |
| `StateProcessor.ApplyTransaction` | core/state_processor.go:105-150 | pool gas plus used gas is the same before and after, the receipt's cumulative and own gas agree and it says whether the run failed, and the total of all balances falls by exactly what the run destroyed and what the self-destructed accounts held at the end; it is conserved exactly if the run destroyed nothing and those accounts were empty; refund counter and destroyed accounts are cleared |
| `StateProcessor.Process` | core/state_processor.go:59-100 | a block is accepted exactly if each transaction is signed and goes through in the world and with the gas those before it leave; its total of balances falls by exactly what its transactions destroy and is conserved exactly if every one is lossless; pool gas plus used gas equals the block gas limit after every transaction, adding gas never panics, receipts accumulate and each says what its own transaction used and whether it failed; under a machine that spares the senders no sender's nonce is used twice |
| `StateProcessor.AcceptedOnce` | core/state_transition.go:167-178 | in an accepted block the nonces that a sender's transactions name rise, if the machine neither lowers the sender's nonce nor destroys the sender, and raises it for creations; calls need not assume the last |
| `StateProcessor.NoncesRise` | core/state_transition.go:207-213 | over any part of such a block no nonce of the sender falls, and each transaction of its own raises it |
| `StateProcessor.LostMeaning` | core/state/statedb.go:589-601 | finalising takes exactly the balances of the self-destructed accounts from the total, and nothing exactly if all of them are empty |
| `StateProcessor.FinalisedMeaning` | core/state/statedb.go:589-601 | finalising removes exactly the destroyed accounts, leaves all others as they are, and clears refund counter and destroyed set |
| `StateProcessor.BurntByMeaning` | core/state_processor.go:79-93 | the transactions of a block that goes through destroy no wei exactly if each of them, in the world it finds, is lossless |
| `StateProcessor.FeeIsBurnt` | core/state_processor.go:115-137 | the fees paid to a miner's account that destroyed itself are destroyed |
| `StateProcessor.PayDestroyedBurns` | core/state/statedb.go:589-601 | a virtual machine that keeps all wei in every run, with which every such transaction destroys one: the account called destroys itself and is then sent one wei |
| `StateProcessor.RecoverGasUsed` | core/blockchain.go:777-782 | the differences of cumulative figures, in 64-bit arithmetic, are what each transaction used |
| `Balances.SumUpdate` | core/state_transition.go:230-245 | changing one balance changes the total of all by the difference |
| `Balances.SumSplit` | core/state/statedb.go:589-601 | taking accounts away takes exactly their balances from the total |
| `ChainIndexer.StepKeeps` | core/chain_indexer.go:277-350 | every head event, every step of the updater and every access of the rollback after a failed reset keeps heads present exactly below the stored count, the persisted count equal, and each head sectionSize parent links above the one before, or keeps a rollback on the way to that; excepted are the head events that spoil a rollback under way |
| `ChainIndexer.EveryRun` | core/chain_indexer.go:221-350 | the same across all interleavings of such head events with the unlocked processing and the unlocked rollback |
| `ChainIndexer.OnlyConfirmed` | core/chain_indexer.go:276-297 | over all interleavings, from an indexer that knows no more than it has stored: whenever a section is taken up, a head at least the confirmations above its end has been announced, and no reorg since has gone back into it |
| `ChainIndexer.StepGrounds` | core/chain_indexer.go:221-322 | every step keeps that of all sections known and not stored, unless an attempt at one has failed |
| `ChainIndexer.EmptyIsOk` | core/chain_indexer.go:93-110 | an indexer on an empty database starts in that order |
| `ChainIndexer.RestartKeeps` | core/chain_indexer.go:397-402 | so does one that loads the count of an index in order |
| `ChainIndexer.RestartWhileRolling` | core/chain_indexer.go:397-402 | one that loads the count while a rollback is under way starts in that order exactly if no head is left |
| `ChainIndexer.HeadKeeps` | core/chain_indexer.go:221-260 | a head event keeps that, and a reorg to block h leaves no section from h/sectionSize on |
| `SectionIndex.NewHeadConfirms` | core/chain_indexer.go:245-259 | without a reorg exactly the sections that end at least the confirmations below the head become known, and nothing else changes |
| `SectionIndex.NewHeadReverts` | core/chain_indexer.go:226-243 | after a reorg exactly the sections that end below the fork stay known and stored, with their heads; the cascaded number falls to the start of the fork's section |
| `ChainIndexer.HeadWhileRolling` | core/chain_indexer.go:221-260 | a rollback under way survives the head events that do not spoil it |
| `ChainIndexer.RollKeeps` | core/chain_indexer.go:405-419 | each access of a rollback keeps it on course, and the last one leaves the empty index |
| `ChainIndexer.CompleteKeeps` | core/chain_indexer.go:303-320 | a section is only completed on top of the head it was begun on; then exactly its head is added and the cascaded number is that of the head; otherwise the known count falls to the stored one and nothing else changes |
| `ChainIndexer.ChainIndexer.constructor` | core/chain_indexer.go:93-110 | the indexer takes over count and heads from its database |
| `ChainIndexer.ChainIndexer.SetValidSections` | core/chain_indexer.go:405-419 | count persisted, heads from there on removed |
| `ChainIndexer.ChainIndexer.HeadEvent` | core/chain_indexer.go:221-260 | without a reorg exactly the sections confirmed by the head become known besides and nothing else changes; after one exactly the sections below the fork stay known and stored |
| `ChainIndexer.ChainIndexer.ProcessSection` | core/chain_indexer.go:341-370 | a backend that cannot be reset costs the whole index; otherwise success exactly if every header found is on top of the one before and the backend commits, and the new head is then sectionSize links above the old one |
| `ChainIndexer.ChainIndexer.FinishSection` | core/chain_indexer.go:303-320 | the method is the completing step |
| `IndexerReset.UnlockedReset` | core/chain_indexer.go:346-349 | after a failed backend reset, whose rollback runs without the lock, with each head event as one step: once it has made the accesses it makes alone, and before it could count through 64 bits, it is over and the index in order exactly if no reorg event went to the first section between guard and decrement, none took effect between a decrement and the reading of the section to remove, and the last one after the count was persisted went to the first section |
| `IndexerReset.OnceOver` | core/chain_indexer.go:346-349 | for every such schedule, wrapping ones included: once the rollback is over the index is in order exactly if no head was left behind, which only events between a decrement and the reading of the section to remove do, and the last event after the count was persisted went to the first section |
| `IndexerReset.AloneEnds` | core/chain_indexer.go:405-419 | from every state, wrapped ones included, the rollback left alone ends after exactly the stated number of accesses with exactly the stated heads and count |
| `IndexerReset.RecoversMeaning` | core/chain_indexer.go:405-419 | and then the index is in order exactly if the count on disk is zero and every head is on its way |
| `IndexerReset.EventNeed` | core/chain_indexer.go:405-419 | a head event makes the rollback longer exactly if it removes everything between guard and decrement, and then by the whole 64-bit range |
| `IndexerReset.EventSpoils` | core/chain_indexer.go:221-260 | the three cases in which one head event spoils a rollback that would have ended well, and no other |
| `IndexerReset.RunOnCourse` | core/chain_indexer.go:405-419 | unless the count wraps, no schedule makes the rollback longer, and heads are left behind exactly by the events that strand them |
| `IndexerReset.RunWrapped` | core/chain_indexer.go:405-419 | once the count has wrapped, the rollback is not over within 5*2^64 accesses unless another event takes effect |
| `IndexerReset.QuietRun` | core/chain_indexer.go:405-419 | after the last event that takes effect, the rollback is over after exactly the accesses it then needs |
| `IndexerReset.Undisturbed` | core/chain_indexer.go:346-349 | when no event takes effect, that rollback is harmless |
| `IndexerReset.WrapExample` | core/chain_indexer.go:414-416 | with one section stored, a reorg event to its first block between guard and decrement leaves a count of 2^64-1 and no head |
| `IndexerReset.DisagreementExample` | core/chain_indexer.go:346-349 | a schedule from an index in order that ends with a persisted count of one and nothing stored |
| `IndexerReset.StrandedExample` | core/chain_indexer.go:414-416 | a schedule from an index in order that leaves a head behind |
| `IndexerSplit.EventAtOnce` | core/chain_indexer.go:405-419 | made without interruption, the accesses of a head event are its one step |
| `IndexerSplit.AllOver` | core/chain_indexer.go:346-349 | with the head events split into their accesses as well, and any number of them, in any interleaving with the rollback: once all are over the index is in order exactly if the last to persist its count and the last to be over went to the first section and no section was stranded, that is, lowered to but never the count when a loop read which head to remove |
| `IndexerSplit.LeftIsStranded` | core/chain_indexer.go:414-417 | the heads that are left are those of the stranded sections |
| `IndexerSplit.CountsThrough` | core/chain_indexer.go:414-417 | no interleaving skips a section: a rollback that is over has had the count lowered to each |
| `IndexerSplit.FirstHeadGoes` | core/chain_indexer.go:405-419 | in every such interleaving, while the count is zero or the rollback has seen it so, the first head is gone or about to be removed |
| `IndexerSplit.HeadsLeft` | core/chain_indexer.go:414-417 | the heads that are left are those nobody removed |
| `IndexerSplit.LastStores` | core/chain_indexer.go:418 | the stored count is that of the loop that was over last |
| `IndexerSplit.LastEventOver` | core/chain_indexer.go:405-419 | after the last access of an event, from whatever state, the rollback is over after exactly the accesses it then needs |
| `IndexerSplit.LongerExample` | core/chain_indexer.go:405-419 | before that it can take longer than alone although nothing wraps: an event sets the count back up |
| `IndexerSplit.TwoDecrements` | core/chain_indexer.go:414-416 | rollback and event both pass the guard with one section stored, and the second decrement wraps to 2^64-1 |
| `Distributor.Distributor.RegisterPeer` | les/distributor.go:90-94 | exactly that peer is added, the queue stays in order |
| `Distributor.Distributor.UnregisterPeer` | les/distributor.go:97-101 | exactly that peer is removed, the queue stays in order |
| `Distributor.Distributor.Queue` | les/distributor.go:234-261 | the queue stays strictly ordered by creation, a request sent again going where its number belongs |
| `Distributor.Distributor.Cancel` | les/distributor.go:266-277 | exactly that request leaves, if it was queued |
| `Distributor.Distributor.Remove` | les/distributor.go:280-286 | exactly that request leaves |
| `Distributor.Distributor.NextRequest` | les/distributor.go:179-228 | exactly the front requests that no registered peer can both queue and serve are failed; the pair returned is a peer with the oldest request it can serve, of least waiting time among all such pairs; nothing is returned exactly if no peer can serve anything |
| `Distributor.Distributor.Scan` | les/distributor.go:179-222 | exactly the peers that can send their oldest request at once are offered, weighed by the next whole number above the remaining buffer in millionths; exactly the front requests nobody can serve are dropped |
| `Distributor.Consider` | les/distributor.go:195-214 | a peer that can send at once is offered, otherwise the shortest wait is remembered |
| `Distributor.Fill` | les/distributor.go:201-204 | the selection holds exactly what was offered, with its weights |
| `Distributor.FrontRow` | les/distributor.go:216-219 | at the front, a request is unsent exactly if no peer can queue and serve it |
| `HdPath.ParseDerivationPath` | accounts/hd.go:67-117 | the loop computes the path a text stands for; accepted paths are not empty and fit 32 bits |
| `HdPath.RelativeMeans` | accounts/hd.go:67-87 | a text whose first component is neither empty nor m means what it means after m/44'/60'/0'/0/ |
| `HdPath.PathBlanks` | accounts/hd.go:70-92 | white space at the ends of a path and around its slashes does not matter |
| `HdPath.ComponentBlanks` | accounts/hd.go:89-97 | white space around a component and before its quote does not matter |
| `HdPath.DigitsMeaning` | accounts/hd.go:99-103 | digits are read exactly if all belong to the base, as the sum of each digit times the power of the base at its place |
| `HdPath.DigitTable` | accounts/hd.go:99-103 | up to base 16 the digits are the figures and then the letters from a to f, small or capital |
| `HdPath.HexMeaning` | accounts/hd.go:99-103 | after 0x digits are hexadecimal |
| `HdPath.BinaryMeaning` | accounts/hd.go:99-103 | after 0b they are binary |
| `HdPath.OctalMeaning` | accounts/hd.go:99-103 | after another leading zero they are octal |
| `HdPath.DecimalMeaning` | accounts/hd.go:99-103 | without a leading zero they are decimal |
| `HdPath.SignMeaning` | accounts/hd.go:99-109 | a plus sign changes nothing and a minus sign negates |
| `HdPath.ToString` | accounts/hd.go:121-135 | the loop prints the components one by one |
| `HdPath.RoundTrip` | accounts/hd.go:67-135 | parsing a printed path of 32-bit components gives the path back exactly if it is not empty |
| `HdPath.Reprint` | accounts/hd.go:67-135 | any accepted text reprints to a text that parses to the same path |
| `HdPath.ComponentRoundTrip` | accounts/hd.go:89-115 | reading a printed component, hardened or not, gives it back |

## Left out

- BMT: byte slices are values, so aliasing of caller buffers is not captured; goroutines interleave at single loads and stores of a sequentially consistent memory; `ReadFrom`, the length prefix of `ResetWithLength` and the blocking of the tree pool are not modelled.
- NonceHeap.Push, NonceHeap.Pop, NonceHeap.Init, NonceHeap.Remove: the sift-up and sift-down of Go's container/heap, which is not part of the repository, written out as in Go 1.10.
- TxSortedMap.Search: `sort.Search` and `sort.Sort` of the Go library are written out as a binary search and an insertion sort.
- TxPool: the lists inside the pool are plain nonce-to-transaction maps, so aliasing between list objects is not captured; that the list objects do to their maps what the pool assumes is what PoolLists proves.
- TxPool.TxPool.AddTx, TxPool.TxPool.PromoteExecutables, TxPool.TxPool.Reset: the fairness pass over pending lists (core/tx_pool.go:1352-1388) does not follow the promotion, because it caps a list that may already be empty and does not keep the promised allowance.
- TxPool: journal, event feeds, metrics and locking are plumbing.
- TxPool.TxPool.Validate: size, sign, validity of the signature and intrinsic gas of a transaction are inputs; how they are computed from its encoding is not modelled, except for IntrinsicGas.
- TxPool.TxPool.PromoteTx: a nonce of 2^64-1 would wrap the pending nonce; nonces are unbounded here.
- HeaderChain: caches, seal verification and the random choice of headers to verify; the coin for equal difficulties is an input. `SetHead` and `Rollback` leave side branches and lookups behind and are not part of the runs.
- BlockChain.BlockChain.constructor: the chain starts from a genesis block without transactions; loading and repairing a stored chain is not modelled.
- BlockChain.BlockChain.WriteBlockWithState: the block's batch counts as written before the reorganisation instead of after it, which nothing can observe under the lock; state commit, trie garbage collection, receipts, logs and events are not modelled. Transactions are assumed unique along a chain. Index entries above a shorter new head are left alone, as the code does.
- HeaderQuery: encoding and sending of the reply.
- WeightedSelect: weights are unbounded, so overflow of 64-bit sums is not captured; node arrays are sequences that the methods reassign.
- StateTransition: the virtual machine is a function with two assumptions, which says which accounts destroyed themselves; block rewards in `Finalize` are not modelled.
- StateProcessor.ApplyTransaction: the removal of touched empty accounts, whose balances are zero, is not modelled.
- ChainIndexer: cascading to child indexers, throttling and `AddKnownSectionHead`, which may create gaps. That a section finished during a simultaneous reorg is still canonical is not claimed, because it is not so.
- ChainIndexer.StepKeeps, ChainIndexer.EveryRun: head events that spoil a rollback under way are excluded, because with them it is not so (IndexerReset.EventSpoils); chains of 2^64-1 blocks are excluded.
- IndexerReset.UnlockedReset, IndexerReset.OnceOver: a head event is one step; IndexerSplit.AllOver is the statement with the events split as well. Memory is sequentially consistent.
- IndexerSplit: how many accesses a rollback can take while split events come in is not bounded; it can be more than alone (IndexerSplit.LongerExample).
- IndexerReset.UnlockedReset: the condition is stated for schedules in which no event takes effect once the count has wrapped; for the others IndexerReset.OnceOver says how the rollback ends and IndexerReset.QuietRun when.
- Distributor.Distributor.NextRequest: the peers that can send at once are put into the weighted selection after the walk instead of during it, in the same order; the send loop, its timers and channels are plumbing.
- HdPath: `big.Int.SetString` with base zero as in Go 1.10: signs and the prefixes 0x, 0b and 0; later forms with 0o or underscores are not read.
- The les retriever and fetcher, event feeds, RPC, console, dashboard, encodings and cryptography: plumbing or foreign.
