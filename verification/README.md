# Helium program library: a Dafny model of its protocol and batching code

The Helium program library holds, besides its on-chain programs, the TypeScript services and tools
around them.  This project models the parts of that code with the most state, interleaving and
arithmetic, and proves what they keep:

- `SquadsPacker`: the greedy packer that puts instruction buckets into size-limited messages.
- `Chunking`, `FetchBatches`, `Watchers`, `CompletionQueue`: the account fetch cache. Batched
  fetching, account subscriptions, and waiting for transactions, each as the set of all
  interleavings of its callbacks.
- `OracleSigner`, `OracleMedian`, `ClaimChain`: the distributor oracle. What it signs and what its
  client asks it to sign, the median over several oracles, and the self-requeueing wallet claim.
- `VoteMarkers`, `ProxyVote`: replaying votes from history, and the proxy-vote task.
- `VeHnt`: the veHNT total and fall rate stored for a sub-DAO.
- `Resolvers`: filling in an instruction's accounts by a sequence of resolvers.
- `JobQueue`, `TaskIds`: the sink service's job queue, and the allocation of free task ids.

`Common` holds what the modules share.  `dafny verify dfyconfig.toml` checks the whole project.

## How the models are built

Code that changes state is a class or a method, and each is proved against a function on values;
the theorems are about those functions.  JavaScript runs one callback at a time and gives way only
at an `await`, so the cache, the completion queue and the job queue are state machines whose events
are the stretches between awaits, and a theorem about every run is a theorem about every
interleaving.

What cannot be seen from the code is a parameter: the serialized size of a message, the answers of
the RPC endpoint, the database and the queries, coders and address derivation, the ids the
connection hands out, and time.  Conditions on these are stated where they are used:

- Exact counts of the packer need the size to be monotone: any contiguous part of a list that fits
  also fits.
- Replies of the endpoint have one entry per key asked for. `Chunking.RepliesAlignedIff` says
  exactly what goes wrong otherwise.
- The acceptance theorems of `OracleSigner` are about a single oracle; coders decode what they
  encode, the programs have different addresses, and an existing recipient is seen by both sides.
- `Resolvers`: sibling names differ, the accounts object has the shape of the account list, and
  resolvers do not change it.

## Where an expected property is false of the code

Each of these has a concrete run or input, and the exact condition for all inputs.

- An address can stay subscribed or polled after its last watcher is gone.  A subscription does
  exactly when its id is zero, which the code takes for no subscription, or an earlier `watch` of
  the address threw, because the count was already raised; a polling entry does exactly in the
  second case.  No other event leaks (`Watchers.LastDisposeLeaksIff`, `Watchers.LeakIffLastDispose`;
  runs: `Watchers.IdZeroLeaks`, `Watchers.ThrownWatchLeaksSubscription`,
  `Watchers.ThrownWatchLeaksPolling`).
- Flushing an empty open batch, and nothing else, leaves a sealed batch that nothing settles, and no
  search that has to fetch is ever answered after that (`FetchBatches.StuckIffEmptyFlush`,
  `FetchBatches.EmptyFlushHangsSearches`; run: `FetchBatches.FlushOnFreshCacheHangs`).
- A pending wait stops being shared exactly when cleanup runs for another wait on the same
  transaction, such as a late websocket notification for a wait already decided
  (`CompletionQueue.OfferLostIff`; run: `CompletionQueue.LateNotificationBreaksSharing`).
- The aggregate veHNT prediction is a lower bound only until the start of the day on which a
  position's genesis period ends, not until the genesis end itself
  (`VeHnt.GenesisHorizonIsTheDay`, `VeHnt.ConstantHorizonIsTheDay`, `VeHnt.LapsedGenesisIff` for
  every decaying position, `VeHnt.AggregateHorizonIsTheDay` for the sums; input:
  `VeHnt.GenesisDayOverestimates`).
- A transaction that touches two proposals is replayed in both histories.  A marker still ends as
  its own history has it exactly when the later histories' last event on each choice is of the same
  kind, their last vote has the same weight, and the last vote to find no choice standing the same
  owner (`VoteMarkers.StreamsRightIff`; inputs: `VoteMarkers.SharedTransactionRevivesVote`,
  `VoteMarkers.EarlierStreamTakesOwner`).
- A second claim chain for the same wallet replaces the snapshot under the first.  The first one's
  remaining batches stay the same exactly if the snapshots agree from its next position on
  (`ClaimChain.RestartHarmlessIff`; input: `ClaimChain.OtherChainShiftsPositions`).  A claim limit
  of zero claims nothing (`ClaimChain.LimitZeroClaimsNothing`).
- An oversize bucket closes the open message.  It costs at most one message, and one exactly when
  the message it closes could have gone in front of the later buckets without an extra message
  (`SquadsPacker.OversizeBucketCostsIff`; input: `SquadsPacker.OversizeBucketCostsAMessage`).

## Model

| member | source | states |
|---|---|---|
| SquadsPacker.TryAddBucket | packages/helium-admin-cli/src/squads-batch-optimizer.ts:47-62 | a bucket is appended if the result fits the limit, and the message is otherwise left as it was |
| SquadsPacker.StartMessage | packages/helium-admin-cli/src/squads-batch-optimizer.ts:97-118 | the open message is saved unless empty, and the bucket is tried in a new one |
| SquadsPacker.AddBucket | packages/helium-admin-cli/src/squads-batch-optimizer.ts:89-123 | what one bucket does to the messages, the failed list and the index list |
| SquadsPacker.PackageInstructions | packages/helium-admin-cli/src/squads-batch-optimizer.ts:73-130 | the messages, failed buckets and indexes are those of the reference packer `Pack`, about which the next rows are proved |
| SquadsPacker.PackIsFaithful | packages/helium-admin-cli/src/squads-batch-optimizer.ts:78-129 | for every bucket list and size: messages concatenated are the placed buckets in order; messages are nonempty and fit; each message is exactly the buckets whose index names it, in order; indexes never go back; index -1 marks exactly the failed buckets |
| SquadsPacker.FailedExactly | packages/helium-admin-cli/src/squads-batch-optimizer.ts:91-114 | with monotone size the failed buckets are exactly the empty ones and those too big alone |
| SquadsPacker.PackIsOptimalAroundOversize | packages/helium-admin-cli/src/squads-batch-optimizer.ts:70-130 | for every bucket list with monotone size: no order-preserving cut of the placed buckets into groups that fit and do not span an oversize bucket has fewer groups than there are messages |
| SquadsPacker.PackIsOptimal | packages/helium-admin-cli/src/squads-batch-optimizer.ts:70-130 | the special case with no bucket too big alone: no order-preserving cut of the nonempty buckets into groups that fit has fewer groups than there are messages |
| SquadsPacker.PackIsACut | packages/helium-admin-cli/src/squads-batch-optimizer.ts:89-129 | some such cut has exactly that many groups, so the number of messages is the minimum |
| SquadsPacker.OversizeBucketSplits | packages/helium-admin-cli/src/squads-batch-optimizer.ts:97-114 | around an oversize bucket the messages are those of the two sides packed separately |
| SquadsPacker.OversizeBucketCostsIff | packages/helium-admin-cli/src/squads-batch-optimizer.ts:97-118 | an oversize bucket costs one message or none, and one exactly when the message it closes could have gone in front of the later buckets without an extra message |
| SquadsPacker.OversizeBucketCostsAMessage | packages/helium-admin-cli/src/squads-batch-optimizer.ts:97-114 | an input at which it costs one: two buckets that fit together end in two messages |
| Chunking.ChunksPartition | packages/account-fetch-cache/src/getMultipleAccounts.ts:3-6 | chunks concatenated are the list; none is empty or longer than the size |
| Chunking.SlicedChunksAreChunks | packages/account-fetch-cache/src/getMultipleAccounts.ts:3-6 | the map of slices is the list cut off chunk by chunk |
| Chunking.GetMultipleAccounts | packages/account-fetch-cache/src/getMultipleAccounts.ts:33-63 | succeeds exactly if every chunk's call does, and then returns the replies concatenated |
| Chunking.AnswerOfKey | packages/account-fetch-cache/src/getMultipleAccounts.ts:41-60 | merged answer i is slot i mod size of the reply to chunk i div size, which asked for key i in that slot |
| Chunking.RepliesAlignedIff | packages/account-fetch-cache/src/getMultipleAccounts.ts:41-60 | merging by position is right for all chunks exactly when every reply but the last is full |
| Chunking.GroupedFromSlots | packages/account-fetch-cache/src/accountFetchCache.ts:415-421 | a key is grouped with an account exactly when that key's own reply slot holds it |
| Chunking.NotGroupedIff | packages/account-fetch-cache/src/accountFetchCache.ts:415-421 | a key that was asked for is grouped with nothing exactly when its own reply slot is empty |
| FetchBatches.AccountFetchCache.AddToBatch | packages/account-fetch-cache/src/accountFetchCache.ts:432-440 | the key joins the newest, open batch, the timer is pending, and the invariant is kept |
| FetchBatches.AccountFetchCache.DebounceFetchBatch | packages/account-fetch-cache/src/accountFetchCache.ts:442-445 | a timer is pending afterwards |
| FetchBatches.AccountFetchCache.FetchBatch | packages/account-fetch-cache/src/accountFetchCache.ts:396-409 | the open batch is sealed, a new one is pushed, and the invariant is kept |
| FetchBatches.AccountFetchCache.FlushBatch | packages/account-fetch-cache/src/accountFetchCache.ts:447-450 | the same with the timer cleared |
| FetchBatches.AccountFetchCache.FinishFetch | packages/account-fetch-cache/src/accountFetchCache.ts:415-427 | the batch is settled and taken off the list; nothing else changes |
| FetchBatches.FetchGrouped | packages/account-fetch-cache/src/accountFetchCache.ts:405-425 | the record a batch resolves to is its keys' answers, or empty when the fetch throws |
| FetchBatches.StepKeeps | packages/account-fetch-cache/src/accountFetchCache.ts:396-450 | every event keeps the invariant, never unseals a batch or adds a key to a sealed one, and never changes an outcome |
| FetchBatches.RunKeepsInv | packages/account-fetch-cache/src/accountFetchCache.ts:396-450 | in every interleaving the last active batch is the only open one and all others are in flight; a timer is pending exactly while the open batch has a key |
| FetchBatches.SealedForGood | packages/account-fetch-cache/src/accountFetchCache.ts:117-139 | between any two points of a run a sealed batch gains no key and a settled one keeps its answer |
| FetchBatches.AnswersComeFromTheirSlot | packages/account-fetch-cache/src/accountFetchCache.ts:569-576 | every account a search returns after fetching stood in the reply slot of its key in a batch holding that key |
| FetchBatches.OutcomeIsItsCompletion | packages/account-fetch-cache/src/accountFetchCache.ts:410-427 | a settled batch's outcome is the one its own fetch came to |
| FetchBatches.FinishDecides | packages/account-fetch-cache/src/accountFetchCache.ts:569-575 | when a search's loop is over it is answered if and only if a batch it collected holds its key in the key's own slot, with what the first such batch holds; otherwise it joins the open batch |
| FetchBatches.WaitingIsAnsweredByItsBatch | packages/account-fetch-cache/src/accountFetchCache.ts:572-580 | a search that joined a batch is answered with an account if and only if the batch's reply slot of its key holds it, and with nothing exactly when that slot is empty or the fetch failed |
| FetchBatches.EveryAnswerIsExplained | packages/account-fetch-cache/src/accountFetchCache.ts:569-580 | in every run, every answered search has exactly the answer of one of these two ways |
| FetchBatches.ForcedSearchAsksAnew | packages/account-fetch-cache/src/accountFetchCache.ts:558-560 | a forced search puts its key in the open batch at once |
| FetchBatches.BatchKeysWereAsked | packages/account-fetch-cache/src/accountFetchCache.ts:432-440 | in every run only keys that some search asked for are in a batch |
| FetchBatches.WaitingIsServed | packages/account-fetch-cache/src/accountFetchCache.ts:572-576 | a search that joined a batch can be answered, or its batch is being fetched, or a timer is pending for it |
| FetchBatches.StuckIffEmptyFlush | packages/account-fetch-cache/src/accountFetchCache.ts:396-450 | an event leaves a sealed batch that nothing will settle exactly when it flushes an empty open batch |
| FetchBatches.StuckForever | packages/account-fetch-cache/src/accountFetchCache.ts:404-428 | such a batch stays unsettled in every continuation |
| FetchBatches.StuckSearchHangs | packages/account-fetch-cache/src/accountFetchCache.ts:599-612 | a search whose loop has such a batch still before it never gets past it, in any continuation |
| FetchBatches.EmptyFlushHangsSearches | packages/account-fetch-cache/src/accountFetchCache.ts:569-612 | in every run, no search that has to fetch and begins after a flush of an empty open batch is ever answered |
| FetchBatches.FlushOnFreshCacheHangs | packages/account-fetch-cache/src/accountFetchCache.ts:447-450 | the run at which it happens: flush first, then search; in every continuation the search hangs |
| Watchers.AccountFetchCache.Watch | packages/account-fetch-cache/src/accountFetchCache.ts:697-758 | the whole new state of a watch call, including when the connection throws, and the invariant |
| Watchers.AccountFetchCache.Dispose | packages/account-fetch-cache/src/accountFetchCache.ts:758-777 | the whole new state of a disposal, and the invariant |
| Watchers.AccountFetchCache.Delete | packages/account-fetch-cache/src/accountFetchCache.ts:823-843 | the whole new state of a delete, the invariant, and whether something was cached |
| Watchers.StepKeeps | packages/account-fetch-cache/src/accountFetchCache.ts:697-778 | every event keeps counts, map and connection in step |
| Watchers.WatchersAreTracked | packages/account-fetch-cache/src/accountFetchCache.ts:697-778 | in every run the count is the number of live disposers plus the watches that threw; the connection's subscriptions are exactly those in the map, at most one per address; an address without watchers is subscribed only under id zero or after a watch of it threw, and polled only in the latter case |
| Watchers.LastDisposeLeaksIff | packages/account-fetch-cache/src/accountFetchCache.ts:758-777 | a subscription survives its last disposer exactly when its id is zero or a watch of that address threw, a polling entry exactly when a watch of that address threw |
| Watchers.LeakIffLastDispose | packages/account-fetch-cache/src/accountFetchCache.ts:697-778 | no other event leaves an unwatched address subscribed or polled |
| Watchers.IdZeroLeaks | packages/account-fetch-cache/src/accountFetchCache.ts:763-765 | a first subscription with id zero stays after its only watcher is gone |
| Watchers.ThrownWatchLeaksSubscription | packages/account-fetch-cache/src/accountFetchCache.ts:697-770 | a run in which a subscription outlives its only watcher because an earlier watch threw |
| Watchers.ThrownWatchLeaksPolling | packages/account-fetch-cache/src/accountFetchCache.ts:697-777 | a run in which a polling entry does |
| Watchers.WatchOpens | packages/account-fetch-cache/src/accountFetchCache.ts:697-756 | a watch that did not throw gives a live disposer and leaves an existing, not static account subscribed and a missing one polled with the parser given, or else the one from before; one that threw opens nothing |
| Watchers.SubscriptionEndsIff | packages/account-fetch-cache/src/accountFetchCache.ts:758-843 | a subscription ends exactly when its account is deleted or its last counted watcher disposed, unless its id is zero, and then the connection drops it |
| Watchers.PollingEndsIff | packages/account-fetch-cache/src/accountFetchCache.ts:758-777 | polling ends exactly when the account turns up or its last counted watcher is disposed |
| Watchers.DeleteDropsCached | packages/account-fetch-cache/src/accountFetchCache.ts:823-843 | a delete drops the cached account and leaves watchers and polling alone |
| Watchers.StaticAsSearched | packages/account-fetch-cache/src/accountFetchCache.ts:552-556 | an address is static exactly as the last search of it said |
| CompletionQueue.TransactionCompletionQueue.WaitFor | packages/account-fetch-cache/src/transactionCompletionQueue.ts:68-102 | a call is given the promise in the table, or a new one that enters it |
| CompletionQueue.TransactionCompletionQueue.Finish | packages/account-fetch-cache/src/transactionCompletionQueue.ts:89-107 | cleanup empties the table entry; the first settlement stands |
| CompletionQueue.TransactionCompletionQueue.OnTimeout | packages/account-fetch-cache/src/transactionCompletionQueue.ts:108-115 | a timeout rejects an undecided wait and does nothing to a decided one |
| CompletionQueue.TransactionCompletionQueue.OnSignature | packages/account-fetch-cache/src/transactionCompletionQueue.ts:117-135 | a notification rejects on error and resolves otherwise, and always cleans up |
| CompletionQueue.TransactionCompletionQueue.OnStatuses | packages/account-fetch-cache/src/transactionCompletionQueue.ts:143-171 | which polled statuses reject, resolve, or leave a wait undecided |
| CompletionQueue.TransactionCompletionQueue.QueryStatuses | packages/account-fetch-cache/src/transactionCompletionQueue.ts:37-61 | a poll for the transactions known at that moment is begun when the commitment has no record or the last poll is over two seconds old; otherwise the record is the answer |
| CompletionQueue.TransactionCompletionQueue.StatusesArrived | packages/account-fetch-cache/src/transactionCompletionQueue.ts:47-65 | the replies become the record of the poll's own transactions, whatever was added meanwhile |
| CompletionQueue.SettlesWithFirstDecision | packages/account-fetch-cache/src/transactionCompletionQueue.ts:102-174 | in every interleaving a promise holds exactly the first decision made about its wait, and is unsettled exactly while there was none |
| CompletionQueue.OfferLostIff | packages/account-fetch-cache/src/transactionCompletionQueue.ts:89-101 | a pending wait stops being offered to new callers exactly when cleanup is done for another wait on the same transaction |
| CompletionQueue.CallersShare | packages/account-fetch-cache/src/transactionCompletionQueue.ts:74-80 | while listeners of finished waits stay silent, all callers for a commitment and transaction share the unsettled promise |
| CompletionQueue.LateNotificationBreaksSharing | packages/account-fetch-cache/src/transactionCompletionQueue.ts:117-137 | for any commitment and transaction, a run in which a late notification makes two callers get different promises while the first is unsettled |
| CompletionQueue.PolledFromSlot | packages/account-fetch-cache/src/transactionCompletionQueue.ts:8-19 | the record holds for transaction i the status in slot i mod 200 of reply i div 200 |
| CompletionQueue.RestUsesOwnStatus | packages/account-fetch-cache/src/transactionCompletionQueue.ts:143-164 | whatever a poll decides about a wait, resolution or rejection, it decides on the status in that transaction's own slot |
| CompletionQueue.PollDecides | packages/account-fetch-cache/src/transactionCompletionQueue.ts:146-164 | a polled status rejects exactly if it has an error, and else resolves exactly if it confirms at the commitment, or, without a confirmation status, has confirmations |
| CompletionQueue.RestOutcome | packages/account-fetch-cache/src/transactionCompletionQueue.ts:145-165 | what a poll makes of an undecided wait, from the reply slot of its transaction |
| CompletionQueue.NotificationOutcome | packages/account-fetch-cache/src/transactionCompletionQueue.ts:119-134 | a notification rejects an undecided wait if it has an error and resolves it otherwise |
| CompletionQueue.TimeoutOutcome | packages/account-fetch-cache/src/transactionCompletionQueue.ts:108-115 | a timeout rejects an undecided wait and changes nothing about a decided one |
| CompletionQueue.PollsAskForEveryWait | packages/account-fetch-cache/src/transactionCompletionQueue.ts:45-50 | in every run a poll asks about every transaction waited for at its commitment |
| OracleSigner.CheckInstruction | packages/distributor-oracle/src/server.ts:367-462 | an instruction passes exactly if it is compute-budget or one of the eight calls on the two programs; initialized recipients are recorded, last one winning |
| OracleSigner.CheckRewards | packages/distributor-oracle/src/server.ts:498-582 | a set-rewards instruction passes exactly if it names this oracle and lazy distributor and proposes at most what the database credits to the entity or asset it is bound to |
| OracleSigner.SignTransaction | packages/distributor-oracle/src/server.ts:311-604 | signs exactly the acceptable transactions: all instructions allowed, all set-rewards allowed, fee payer not this oracle |
| OracleSigner.SignedIsVetted | packages/distributor-oracle/src/server.ts:367-590 | a signed transaction: every instruction is compute-budget or one of the eight listed calls on the two programs; each of the three calls that set rewards names this oracle and lazy distributor in its own layout and proposes at most what the database credits to the checked entity, or to the asset its recipient stands for; this oracle is not the fee payer, nor, unless it agreed to, the payer of a new recipient |
| OracleSigner.SignBulk | packages/distributor-oracle/src/server.ts:1158-1193 | signs all transactions or names the first that is not acceptable |
| OracleSigner.FormInstructions | packages/distributor-oracle/src/client.ts:657-763 | the claim's instruction list: initialization if the recipient is missing, one set-rewards per quote, one distribution |
| OracleSigner.DraftsSay | packages/distributor-oracle/src/client.ts:657-763 | what the client's instructions say as the oracle decodes them: program, call and accounts of the creation, the set-rewards and the distribution |
| OracleSigner.ClientTransactionAccepted | packages/distributor-oracle/src/client.ts:657-777 | with one oracle the client's transaction is accepted exactly if the payer is not the oracle and the entity checks out and is credited at least the quote, for existing and missing recipients |
| OracleSigner.WrappedClaimAccepted | packages/distributor-oracle/src/server.ts:498-582 | the same for both wrapper versions |
| OracleSigner.DirectClaimAccepted | packages/distributor-oracle/src/server.ts:530-582 | a claim that sets rewards directly is accepted exactly if the payer is not the oracle and the database credits at least that amount to the recipient's asset: on chain, or the one the same transaction creates it for |
| OracleSigner.AssertSameTx | packages/distributor-oracle/src/client.ts:798-853 | passes exactly if instructions and account keys are the same |
| OracleMedian.SortReports | packages/distributor-oracle/src/client.ts:208-210 | sorts the reports; throws only if two of them are 2^53 or more apart, and always if two neighbours in order are |
| OracleMedian.PendingReward | packages/distributor-oracle/src/client.ts:207-217 | the median of the reports, missing ones counting as zero, minus what was already paid; plus what was paid it lies between the reports of two correct oracles whenever fewer than half are wrong; throws as the sorting does |
| OracleMedian.MedianCounts | packages/distributor-oracle/src/client.ts:211-213 | at least n/2+1 reports are at most the median, at least n-n/2 are at least it, and it is one of them |
| OracleMedian.MedianIsBracketed | packages/distributor-oracle/src/client.ts:207-221 | with fewer than half of the reports wrong the median lies between two correct ones, for any number of oracles |
| OracleMedian.MedianBracketedIff | packages/distributor-oracle/src/client.ts:254-271 | that holds for all reports exactly when fewer than half of the oracles are wrong |
| ClaimChain.PgDatabase.GetOrCreateWalletClaimJob | packages/distributor-oracle/src/pgDatabase.ts:41-95 | batch 0 replaces the stored snapshot by the entities, in order, of exactly the rows whose lifetime rewards exceed what was claimed; later batches reuse it |
| ClaimChain.SnapshotIsTheUnclaimed | packages/distributor-oracle/src/pgDatabase.ts:79-86 | the snapshot lists exactly those rows, each once and in order |
| ClaimChain.PgDatabase.GetRewardableEntities | packages/distributor-oracle/src/pgDatabase.ts:152-180 | the batch's slice of the stored snapshot, and the next batch number |
| ClaimChain.HandleTuktukWallet | packages/distributor-oracle/src/server.ts:990-1048 | the task's instructions: a memo when the balance is short, else transfer, claims, and requeue or final memo |
| ClaimChain.TuktukWalletHandler | packages/distributor-oracle/src/server.ts:1085-1112 | one task from the store to its instructions is the task the runs below are made of |
| ClaimChain.TaskReads | packages/distributor-oracle/src/server.ts:999-1048 | a task queues and pays for all its entities or none |
| ClaimChain.TaskRequeues | packages/distributor-oracle/src/server.ts:1028-1040 | a task requeues itself for the next batch exactly if it could pay and found something |
| ClaimChain.ServedFromLatestRestart | packages/distributor-oracle/src/pgDatabase.ts:41-95 | under any interleaving with other wallets a request gets its slice of the snapshot of its wallet's latest restart |
| ClaimChain.RestartHarmlessIff | packages/distributor-oracle/src/pgDatabase.ts:45-52 | a new snapshot leaves the batches a chain has yet to read the same exactly if it agrees with the old one from the next position on |
| ClaimChain.OtherChainShiftsPositions | packages/distributor-oracle/src/pgDatabase.ts:45-52 | a second chain for the wallet makes the first skip an entity |
| ClaimChain.ChainClaimsSnapshot | packages/distributor-oracle/src/server.ts:1001-1048 | a chain over n stored entities ends exactly when the balance covers the rent floor and n plus ceil(n/limit)+1 crank rewards; it then queued the snapshot, in order, in ceil(n/limit)+1 tasks; otherwise a prefix of it |
| ClaimChain.TasksAreTheChain | packages/distributor-oracle/src/server.ts:1001-1112 | in every interleaving of store, queue and payers, the tasks run for a wallet left alone are those of its chain over the snapshot taken at batch 0, and all of them once none is queued |
| ClaimChain.WalletClaimsUnclaimed | packages/distributor-oracle/src/pgDatabase.ts:41-95 | the whole claim in every interleaving with other wallets: the claims queued are the first few, in order, of the rows seen at batch 0 whose lifetime rewards exceed what was claimed; once none is queued they are all n of them, in ceil(n/limit)+1 tasks, exactly if the payer held the rent floor plus n plus ceil(n/limit)+1 crank rewards |
| ClaimChain.WalletClaimsSnapshot | packages/distributor-oracle/src/pgDatabase.ts:152-180 | the same in terms of the stored snapshot |
| ClaimChain.ChainPaysForWhatItQueues | packages/distributor-oracle/src/server.ts:990-1048 | along every chain from any batch, lamports moved are the crank reward times claims plus transferring tasks, and after a transfer the payer holds at least the rent floor |
| ClaimChain.WalletPaysForWhatItQueues | packages/distributor-oracle/src/server.ts:990-1048 | the same over every interleaving of any number of the wallet's chains, counting only its own transfers |
| ClaimChain.LimitZeroClaimsNothing | packages/distributor-oracle/src/pgDatabase.ts:165-168 | with limit zero every batch is empty and the first task ends the chain |
| VoteMarkers.Replayer.LookupMint | packages/helium-admin-cli/src/dump-vote-markers.ts:217-233 | the cached lookup returns what the chain holds, default key when there is nothing |
| VoteMarkers.Replayer.CastVote | packages/helium-admin-cli/src/dump-vote-markers.ts:172-199 | a vote creates or extends the marker and sets its weight; throws exactly on an undecodable ballot or untracked proposal |
| VoteMarkers.Replayer.CastVotes | packages/helium-admin-cli/src/dump-vote-markers.ts:326-369 | the counted votes are cast in order |
| VoteMarkers.Replayer.Relinquish | packages/helium-admin-cli/src/dump-vote-markers.ts:398-416 | the choice is removed, and the marker with its last choice |
| VoteMarkers.Replayer.ProcessInstruction | packages/helium-admin-cli/src/dump-vote-markers.ts:107-424 | gets through exactly if all ballots decode and the proposal is tracked; a vote of any of the three kinds leaves the marker with its old choices and those voted for, the last ballot's weight, and, if new, the instruction's voter, registrar and position mint; a relinquish removes the choice, and the marker with its last one; nothing else changes |
| VoteMarkers.Replayer.ReplayStream | packages/helium-admin-cli/src/dump-vote-markers.ts:95-426 | a stream of instructions has their effects one after the other, which are those of all its events in order |
| VoteMarkers.LastEventWins | packages/helium-admin-cli/src/dump-vote-markers.ts:135-417 | after a chronological stream a marker exists exactly if some choice's latest event is a vote; its choices are exactly those, without repetition; its weight is that of its latest vote; its owner is whoever last brought it to life |
| VoteMarkers.ProposalsAreIndependent | packages/helium-admin-cli/src/dump-vote-markers.ts:258-282 | the markers of a proposal depend only on the events on that proposal |
| VoteMarkers.StreamsReplayInTurn | packages/helium-admin-cli/src/dump-vote-markers.ts:64-427 | what a marker is after the streams of all proposals, shared transactions included: each choice and the weight as in the latest later stream that has them, else as in the own stream; the owner is who cast the last vote that found no choice standing |
| VoteMarkers.OwnResultIff | packages/helium-admin-cli/src/dump-vote-markers.ts:64-427 | that is the declarative result of the own stream exactly when the other streams leave the marker undisturbed |
| VoteMarkers.StreamsRightIff | packages/helium-admin-cli/src/dump-vote-markers.ts:64-427 | the same for the list of streams, one per proposal |
| VoteMarkers.StreamsReplayIndependently | packages/helium-admin-cli/src/dump-vote-markers.ts:64-427 | in particular a proposal that shares no transaction with another ends with the result of its own stream, whatever the others hold |
| VoteMarkers.SharedTransactionRevivesVote | packages/helium-admin-cli/src/dump-vote-markers.ts:64-101 | an input at which a transaction on two proposals, replayed twice, brings a relinquished vote back |
| VoteMarkers.EarlierStreamTakesOwner | packages/helium-admin-cli/src/dump-vote-markers.ts:64-101 | inputs at which an earlier stream changes only the owner |
| ProxyVote.ArrayEquals | packages/helium-vote-service/src/index.ts:813-826 | equality as multisets |
| ProxyVote.ProxyVoteTask | packages/helium-vote-service/src/index.ts:622-717 | the loop with break and the instruction list give the reply that the next rows are about |
| ProxyVote.DoneMeansAllVoted | packages/helium-vote-service/src/index.ts:596-661 | the task's reply ends the chain exactly if less than a page of rows is outstanding and every one of them has the proxy's choices on chain |
| ProxyVote.RetryMeansFullPage | packages/helium-vote-service/src/index.ts:622-661 | the reply asks for a retry exactly if the page is full and all its rows match; otherwise, with a row that differs, it votes on the first |
| ProxyVote.VoteReplyMeans | packages/helium-vote-service/src/index.ts:662-716 | with a row that differs the reply counts the vote on the first such row and no other, once, schedules its release, pays for two cranks and requeues once |
| ProxyVote.NoVoteWithoutDifference | packages/helium-vote-service/src/index.ts:638-661 | a page that all matches gets a retry if it has ten rows and the final memo otherwise |
| ProxyVote.OutstandingIff | packages/helium-vote-service/src/index.ts:608-617 | the query returns exactly the rows that are delegated, not expired, and have no indexed marker or one of this proxy or a later one with other choices |
| ProxyVote.DoneCoversEveryRow | packages/helium-vote-service/src/index.ts:596-661 | when the chain ends, every row the indexer holds needs no vote or has the proxy's choices on chain |
| ProxyVote.NeverVotesTwice | packages/helium-vote-service/src/index.ts:622-636 | along a chain of turns no position is voted on twice, however stale the indexer |
| VeHnt.PositionPredicted | packages/helium-admin-cli/src/update-subdao-vehnt.ts:111-178 | a position's stored line never exceeds its recomputed ve-tokens within its horizon, and equals them exactly when it is constant, worthless, not saturated, or saturated throughout |
| VeHnt.AggregateNeverOverestimates | packages/helium-admin-cli/src/update-subdao-vehnt.ts:105-219 | total minus elapsed times rate never exceeds the recomputed sum, with equality exactly when each position's line is exact |
| VeHnt.PassingIff | packages/helium-admin-cli/src/update-subdao-vehnt.ts:210-217 | a row is counted exactly if its lockup is constant or lasts past the next midnight and its delegation does too |
| VeHnt.QueryNeverOverestimates | packages/helium-admin-cli/src/update-subdao-vehnt.ts:190-219 | the same bound and equality for the sums over all rows with the where clause applied |
| VeHnt.VeTokensAre | packages/helium-admin-cli/src/update-subdao-vehnt.ts:112-178 | a position is worth amount times both factors while locked for the saturation time or more, nothing when not locked, and in proportion in between |
| VeHnt.MultiplierIs | packages/helium-admin-cli/src/update-subdao-vehnt.ts:110-111 | the multiplier is the genesis factor until the midnight before the genesis end and one from then on |
| VeHnt.PredictedZeroAtEnd | packages/helium-admin-cli/src/update-subdao-vehnt.ts:160-163 | outside genesis the stored line reaches zero at the position's end |
| VeHnt.PredictedAtGenesisEnd | packages/helium-admin-cli/src/update-subdao-vehnt.ts:147-159 | in genesis the stored line reaches, at the genesis end, what the position is then worth with the factor |
| VeHnt.GenesisHorizonIsTheDay | packages/helium-admin-cli/src/update-subdao-vehnt.ts:110-159 | for a position in genesis whose line is exact, unsaturated or saturated throughout, the bound holds exactly until the day of the genesis end begins |
| VeHnt.GenesisDayOverestimates | packages/helium-admin-cli/src/update-subdao-vehnt.ts:110-159 | an input at which the bound fails before the genesis end |
| VeHnt.LapsedGenesisIff | packages/helium-admin-cli/src/update-subdao-vehnt.ts:110-159 | for every decaying position, once that day has begun, the bound holds exactly if the genesis factor times the time-weighted mean of the shares at both ends is at most the share now |
| VeHnt.ConstantHorizonIsTheDay | packages/helium-admin-cli/src/update-subdao-vehnt.ts:110-118 | the same for a constant lockup, which does not decay otherwise |
| VeHnt.AggregateHorizonIsTheDay | packages/helium-admin-cli/src/update-subdao-vehnt.ts:105-219 | for constant and unsaturated positions together, the aggregate is at most the recomputed sum exactly while no position of positive value has seen its genesis day begin |
| VeHnt.SumsNotNegative | packages/helium-admin-cli/src/update-subdao-vehnt.ts:144-197 | neither sum is negative, so cutting at the decimal point rounds down |
| VeHnt.StoredPredictionBounds | packages/helium-admin-cli/src/update-subdao-vehnt.ts:247-253 | cutting the stored figures to whole units changes the prediction by more than -1 and less than one unit per elapsed second |
| Resolvers.SetThenGet | packages/anchor-resolvers/src/utils.ts:5-39 | get returns what set stored |
| Resolvers.SetElsewhere | packages/anchor-resolvers/src/utils.ts:5-26 | set leaves everything off its path as it was |
| Resolvers.LeavesDiverge | packages/anchor-resolvers/src/individual.ts:37-58 | with distinct sibling names no leaf's path leads through another's |
| Resolvers.LeavesAreAccounts | packages/anchor-resolvers/src/individual.ts:37-58 | the leaves are exactly the paths that lead through groups to an account |
| Resolvers.LeavesInOrder | packages/anchor-resolvers/src/individual.ts:37-58 | leaves come in the order of the account list |
| Resolvers.Resolution.Set | packages/anchor-resolvers/src/utils.ts:5-26 | nothing is written for an undefined value |
| Resolvers.Resolution.ResolveIndividualImpl | packages/anchor-resolvers/src/individual.ts:18-82 | the recursion visits exactly the item's leaves in order and returns the count, or throws where the resolver does |
| Resolvers.Resolution.ResolveItems | packages/anchor-resolvers/src/individual.ts:93-114 | the same for a list of items |
| Resolvers.Resolution.RunCombined | packages/anchor-resolvers/src/combineResolvers.ts:3-18 | the resolvers pass one after the other over the same accounts and the counts add up; when one throws the accounts are left as that call found them |
| Resolvers.PassValue | packages/anchor-resolvers/src/individual.ts:59-77 | after a pass a leaf holds its old key, or else the resolver's answer on the accounts as they stood at its turn |
| Resolvers.PassCount | packages/anchor-resolvers/src/individual.ts:59-77 | the count is the number of leaves filled |
| Resolvers.ResolversFillFirstAnswer | packages/anchor-resolvers/src/combineResolvers.ts:6-17 | with any combination of resolvers each leaf ends with its old key or the first answer in order, and the count is leaves filled after minus before; if a resolver throws, leaves before that call are as after its turn and the others as before it; everything off the leaves' paths is untouched in either case |
| Resolvers.SetAccountsStay | packages/anchor-resolvers/src/individual.ts:61-75 | an account already set has the same key after any combination of resolvers, also when one throws |
| JobQueue.SinkServer.ProcessJobQueue | packages/account-postgres-sink-service/src/server.ts:101-156 | takes the head job if none is active; a job without configuration fails at once |
| JobQueue.SinkServer.JobDone | packages/account-postgres-sink-service/src/server.ts:146-155 | settles the active job and schedules a tick |
| JobQueue.SinkServer.QueueJob | packages/account-postgres-sink-service/src/server.ts:158-172 | the job is appended and the queue processed, keeping the invariant |
| JobQueue.SinkServer.RunTick | packages/account-postgres-sink-service/src/server.ts:151-155 | a tick processes the queue, keeping the invariant |
| JobQueue.SinkServer.FinishJob | packages/account-postgres-sink-service/src/server.ts:146-155 | the end of a job keeps the invariant |
| JobQueue.SinkServer.Admits | packages/account-postgres-sink-service/src/server.ts:382-390 | the gate is open exactly if no refresh is active or queued |
| JobQueue.RunKeeps | packages/account-postgres-sink-service/src/server.ts:90-172 | in every interleaving the jobs queued are, in order, the settled ones, at most one active, and the waiting ones; waiting jobs with none active have a tick pending |
| JobQueue.EveryJobSettles | packages/account-postgres-sink-service/src/server.ts:101-172 | once requests stop only boundedly many events follow, and when none can, every job has settled once and in order |
| JobQueue.JobsSettleAsTheyWorked | packages/account-postgres-sink-service/src/server.ts:124-155 | in every run a job without configuration settles as failed and the others as their own work came out |
| JobQueue.GateOpenIffRefreshesSettled | packages/account-postgres-sink-service/src/server.ts:422-430 | a webhook passes exactly when every refresh ever queued has settled |
| TaskIds.MaskTestsBit | packages/hpl-crons-sdk/src/index.ts:22-22 | the mask test is the test of that bit |
| TaskIds.FreeBelowExact | packages/hpl-crons-sdk/src/index.ts:17-30 | the reference list is ascending and holds exactly the free ids |
| TaskIds.NextAvailableTaskIds | packages/hpl-crons-sdk/src/index.ts:11-32 | the first n free ids in ascending order, or all of them if fewer |
| TaskIds.PopTaskIds | packages/helium-admin-cli/src/repair-all-position-claims.ts:78-86 | the j-th bot with a delegated position takes the j-th id from the end, or nothing when they have run out |
| TaskIds.AssignTaskIds | packages/helium-admin-cli/src/repair-all-position-claims.ts:68-93 | the same with the ids taken from the bitmap |
| TaskIds.AllServedIff | packages/helium-admin-cli/src/repair-all-position-claims.ts:68-93 | every such bot gets a distinct free id exactly when there are at least as many free ids as such bots |

## Left out

- `searchMultiple`, parsers, cache freshness against the chain, `close` and the fallback connection of the account fetch cache.
- Removing a subscription is taken to succeed; an error there is swallowed by the source and would leave the connection subscribed.
- The fetch of accounts that are missing is modelled as an event that drops the polling entry.
- Decoding of account data and of replies other than their position.
- A task's work on the store is one step; two tasks of one wallet interleaving inside it are not modelled, and a task's transaction is taken to land on chain.
- The destination variant of the claim query differs from the owner's only in the rows it selects; rows are a parameter, so one model covers both. Batch numbers are unbounded here; the on-chain argument has 16 bits.
- Compilation of drafts into a message is any message that says the same; signatures and address lookup tables are not modelled.
- Multi-oracle signing: each oracle refuses set-rewards instructions that name another one, so agreement is stated for one oracle.
- Bulk transaction forming in the client: it repeats the single claim per asset.
- Account positions of old relinquish instructions: the model starts from the marker, proposal and choice.
- The instruction accounts a vote names are taken to be present.
- Nested account objects are values held in one field; aliasing between them is not captured, and a public key standing where an object is expected is excluded.
- OracleMedian.SortReports: which pairs a JavaScript engine compares is not fixed, so between "throws only if two reports are 2^53 apart" and "always if two neighbours in order are" it is left open whether it throws; the model is an insertion sort.
- OracleMedian.PendingReward: the same.
- Rounding of quotients by the query's numeric type.
- The work a job does, and requests other than queueing and the webhook gate.
- Command-line scripts that build one instruction, services that only move data, SDK tables, React hooks and the on-chain programs: they would only add easy members.
