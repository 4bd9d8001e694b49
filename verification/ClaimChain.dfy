/**
  The self-requeueing wallet claim.  A task for a wallet reads one batch of the wallet's stored
  snapshot (getRewardableEntities in packages/distributor-oracle/src/pgDatabase.ts), pays for and
  queues one entity claim per entry, and requeues itself for the next batch until a batch is empty
  (handleTuktukWalletOrDestination in packages/distributor-oracle/src/server.ts).
 */
module ClaimChain {
  import opened Common
  import opened Chunking

  type Wallet = string
  type Kta = string  // a key-to-asset address

  /** A row of the owner's or destination's query. */
  datatype Row = Row(kta: Kta, lifetime: nat, claimed: nat)

  /** The entities with something left to claim, in query order. */
  function Snapshot(rows: seq<Row>): seq<Kta> {
    if rows == [] then []
    else (if rows[0].lifetime - rows[0].claimed > 0 then [rows[0].kta] else []) + Snapshot(rows[1..])
  }

  /** These are, in order, the positions of the rows whose lifetime rewards exceed what was claimed. */
  ghost predicate AreUnclaimed(rows: seq<Row>, positions: seq<int>) {
    && StrictlyAscending(positions)
    && (forall j :: j in positions <==> 0 <= j < |rows| && rows[j].lifetime > rows[j].claimed)
  }

  lemma {:induction false} SnapshotAppend(a: seq<Row>, b: seq<Row>)
    ensures Snapshot(a + b) == Snapshot(a) + Snapshot(b)
  {
    if a == [] {
      assert a + b == b;
    } else {
      assert (a + b)[1..] == a[1..] + b;
      SnapshotAppend(a[1..], b);
    }
  }

  lemma SnapshotNext(rows: seq<Row>, n: nat)
    requires n < |rows|
    ensures Snapshot(rows[..n + 1]) ==
      Snapshot(rows[..n]) + if rows[n].lifetime > rows[n].claimed then [rows[n].kta] else []
  {
    assert rows[..n + 1] == rows[..n] + [rows[n]];
    SnapshotAppend(rows[..n], [rows[n]]);
    assert [rows[n]][1..] == [];
  }

  /** The same among the first n rows. */
  ghost predicate AreUnclaimedBelow(rows: seq<Row>, n: nat, positions: seq<int>) {
    && StrictlyAscending(positions)
    && (forall j :: j in positions <==> 0 <= j < n <= |rows| && rows[j].lifetime > rows[j].claimed)
  }

  /** The list holds, in order, the entities in these positions. */
  ghost predicate Lists(ktas: seq<Kta>, rows: seq<Row>, positions: seq<int>) {
    && |ktas| == |positions|
    && forall i :: 0 <= i < |positions| ==> 0 <= positions[i] < |rows| && ktas[i] == rows[positions[i]].kta
  }

  lemma UnclaimedNext(rows: seq<Row>, n: nat, before: seq<int>, last: seq<int>)
    requires n < |rows| && AreUnclaimedBelow(rows, n, before)
    requires last == if rows[n].lifetime > rows[n].claimed then [n] else []
    ensures AreUnclaimedBelow(rows, n + 1, before + last)
  {
    assert forall i :: 0 <= i < |before| ==> before[i] in before;
    assert forall j :: j in before + last <==> j in before || j in last;
  }

  lemma {:induction false} UnclaimedBelow(rows: seq<Row>, n: nat) returns (positions: seq<int>)
    requires n <= |rows|
    ensures AreUnclaimedBelow(rows, n, positions) && Lists(Snapshot(rows[..n]), rows, positions)
  {
    positions := [];
    if n > 0 {
      hide Snapshot;
      var before := UnclaimedBelow(rows, n - 1);
      SnapshotNext(rows, n - 1);
      var last: seq<int> := if rows[n - 1].lifetime > rows[n - 1].claimed then [n - 1] else [];
      positions := before + last;
      UnclaimedNext(rows, n - 1, before, last);
      assert forall i :: 0 <= i < |before| ==> positions[i] == before[i];
    }
  }

  /** The snapshot lists exactly those rows, in order. */
  lemma SnapshotIsTheUnclaimed(rows: seq<Row>) returns (positions: seq<int>)
    ensures AreUnclaimed(rows, positions) && Lists(Snapshot(rows), rows, positions)
  {
    positions := UnclaimedBelow(rows, |rows|);
    assert rows[..|rows|] == rows;
  }

  lemma SnapshotListsUnclaimed(rows: seq<Row>)
    ensures forall positions :: AreUnclaimed(rows, positions) ==> Lists(Snapshot(rows), rows, positions)
  {
    var unclaimed := SnapshotIsTheUnclaimed(rows);
    forall positions | AreUnclaimed(rows, positions)
      ensures positions == unclaimed
    {
      SameElementsSameList(positions, unclaimed);
    }
  }

  lemma EmptyTogether(a: seq<int>, b: seq<int>)
    requires forall x :: x in a <==> x in b
    ensures a == [] ==> b == []
  {
    if b != [] {
      var x := b[0];
      assert x in b;
      assert x in a;
    }
  }

  lemma {:induction false} SameElementsSameList(a: seq<int>, b: seq<int>)
    requires StrictlyAscending(a) && StrictlyAscending(b) && forall x :: x in a <==> x in b
    ensures a == b
    decreases |a|
  {
    EmptyTogether(a, b);
    EmptyTogether(b, a);
    if a != [] {
      assert a[0] in a && b[0] in b;
      var i, j :| 0 <= i < |b| && b[i] == a[0] && 0 <= j < |a| && a[j] == b[0];
      assert a[0] == b[0];
      forall x
        ensures x in a[1..] <==> x in b[1..]
      {
        assert x in a[1..] <==> x in a && x != a[0] by {
          assert a == [a[0]] + a[1..];
        }
        assert x in b[1..] <==> x in b && x != b[0] by {
          assert b == [b[0]] + b[1..];
        }
      }
      SameElementsSameList(a[1..], b[1..]);
      assert a == [a[0]] + a[1..] && b == [b[0]] + b[1..];
    }
  }

  type Jobs = map<Wallet, seq<Kta>>  // the WalletClaimJob rows

  /** getOrCreateWalletClaimJob: batch 0 starts over; a missing row is created from the query. */
  function JobStep(jobs: Jobs, wallet: Wallet, batch: nat, rows: seq<Row>): Jobs {
    if batch == 0 || wallet !in jobs then jobs[wallet := Snapshot(rows)] else jobs
  }

  function BatchAt(ktas: seq<Kta>, limit: nat, batch: nat): seq<Kta> {
    Slice(ktas, batch * limit, batch * limit + limit)
  }

  // ---------------------------------------------------------------------------------------------
  // The store under any interleaving of tasks
  // ---------------------------------------------------------------------------------------------

  /** A task asking for a batch, with what the query would return at that moment. */
  datatype Request = Request(wallet: Wallet, batch: nat, rows: seq<Row>)

  ghost function JobsAfter(requests: seq<Request>, n: nat): Jobs
    requires n <= |requests|
  {
    if n == 0 then map[]
    else JobStep(JobsAfter(requests, n - 1), requests[n - 1].wallet, requests[n - 1].batch, requests[n - 1].rows)
  }

  /** The entities the n-th request is served. */
  ghost function Served(requests: seq<Request>, limit: nat, n: nat): seq<Kta>
    requires n < |requests|
  {
    var jobs := JobsAfter(requests, n + 1);
    var q := requests[n];
    if q.wallet in jobs then BatchAt(jobs[q.wallet], limit, q.batch) else []
  }

  lemma {:induction false} JobPersists(requests: seq<Request>, start: nat, n: nat)
    requires start < n <= |requests|
    requires requests[start].batch == 0 || requests[start].wallet !in JobsAfter(requests, start)
    requires forall i :: start < i < n && requests[i].wallet == requests[start].wallet ==> requests[i].batch != 0
    ensures var w := requests[start].wallet;
      w in JobsAfter(requests, n) && JobsAfter(requests, n)[w] == Snapshot(requests[start].rows)
    decreases n
  {
    if start + 1 < n {
      JobPersists(requests, start, n - 1);
    }
  }

  /**
    Whatever other wallets' tasks run in between, a request is served its slice of the snapshot
    taken at the latest restart of its own wallet.
   */
  lemma ServedFromLatestRestart(requests: seq<Request>, limit: nat, start: nat, n: nat)
    requires start <= n < |requests| && requests[n].wallet == requests[start].wallet
    requires requests[start].batch == 0
    requires forall i :: start < i <= n && requests[i].wallet == requests[start].wallet ==> requests[i].batch != 0
    ensures Served(requests, limit, n) == BatchAt(Snapshot(requests[start].rows), limit, requests[n].batch)
  {
    JobPersists(requests, start, n + 1);
  }

  /** A second chain for the same wallet moves the first one's positions: entity b is never served to it. */
  lemma OtherChainShiftsPositions()
    ensures var all := [Row("a", 1, 0), Row("b", 1, 0), Row("c", 1, 0)];
      var later := [Row("a", 1, 1), Row("b", 1, 0), Row("c", 1, 0)];
      var requests := [Request("w", 0, all), Request("w", 0, later), Request("w", 1, later)];
      && Snapshot(all) == ["a", "b", "c"]
      && Served(requests, 1, 0) == ["a"]    // first chain, batch 0
      && Served(requests, 1, 2) == ["c"]    // first chain, batch 1
  {
    var all := [Row("a", 1, 0), Row("b", 1, 0), Row("c", 1, 0)];
    var later := [Row("a", 1, 1), Row("b", 1, 0), Row("c", 1, 0)];
    var requests := [Request("w", 0, all), Request("w", 0, later), Request("w", 1, later)];
    assert all[1..] == [Row("b", 1, 0), Row("c", 1, 0)] && later[1..] == all[1..];
    assert all[1..][1..] == [Row("c", 1, 0)] && [Row("c", 1, 0)][1..] == [];
    assert Snapshot([Row("c", 1, 0)]) == ["c"];
    assert Snapshot(all[1..]) == ["b", "c"];
    ServedFromLatestRestart(requests, 1, 0, 0);
    ServedFromLatestRestart(requests, 1, 1, 2);
  }

  // ---------------------------------------------------------------------------------------------
  // One task
  // ---------------------------------------------------------------------------------------------

  const RENT_FLOOR := 890880  // 0.00089088 SOL in lamports

  datatype Instruction =
    | Transfer(lamports: nat)
    | RequeueEntityClaim(kta: Kta)
    | RequeueWalletClaim(batchNumber: nat)
    | Memo(text: string)

  const OUT_OF_FUNDS := "Finished claiming rewards due to insufficient balance"
  const FINISHED := "Finished claiming rewards"

  /** n times the crank reward. */
  function Price(minCrankReward: nat, n: nat): nat {
    if n == 0 then 0 else minCrankReward + Price(minCrankReward, n - 1)
  }

  lemma {:induction false} PriceIsProduct(minCrankReward: nat, n: nat)
    ensures Price(minCrankReward, n) == minCrankReward * n
  {
    if n > 0 {
      PriceIsProduct(minCrankReward, n - 1);
      assert minCrankReward * n == minCrankReward * (n - 1) + minCrankReward;
    }
  }

  lemma {:induction false} PriceAdds(minCrankReward: nat, a: nat, b: nat)
    ensures Price(minCrankReward, a + b) == Price(minCrankReward, a) + Price(minCrankReward, b)
  {
    if a > 0 {
      PriceAdds(minCrankReward, a - 1, b);
    }
  }

  /** One crank reward per entity claim and one for the next task. */
  function Fees(minCrankReward: nat, entities: seq<Kta>): nat {
    Price(minCrankReward, |entities| + 1)
  }

  function EntityClaims(entities: seq<Kta>): seq<Instruction> {
    seq(|entities|, (i: int) requires 0 <= i < |entities| => RequeueEntityClaim(entities[i]))
  }

  /** The instructions of one task. */
  function TaskInstructions(entities: seq<Kta>, nextBatch: nat, balance: nat, minCrankReward: nat): seq<Instruction> {
    if balance < RENT_FLOOR + Fees(minCrankReward, entities) then [Memo(OUT_OF_FUNDS)]
    else
      [Transfer(Fees(minCrankReward, entities))] + EntityClaims(entities)
      + [if entities != [] then RequeueWalletClaim(nextBatch) else Memo(FINISHED)]
  }

  /** The entity claims a task queues. */
  ghost function Claimed(ixs: seq<Instruction>): seq<Kta> {
    if ixs == [] then []
    else (if ixs[0].RequeueEntityClaim? then [ixs[0].kta] else []) + Claimed(ixs[1..])
  }

  /** The lamports a task moves. */
  ghost function Moved(ixs: seq<Instruction>): nat {
    if ixs == [] then 0 else (if ixs[0].Transfer? then ixs[0].lamports else 0) + Moved(ixs[1..])
  }

  ghost predicate Transfers(ixs: seq<Instruction>) {
    exists i :: 0 <= i < |ixs| && ixs[i].Transfer?
  }

  lemma {:induction false} EntityClaimsRead(entities: seq<Kta>, last: Instruction)
    requires !last.RequeueEntityClaim? && !last.Transfer?
    ensures Claimed(EntityClaims(entities) + [last]) == entities
    ensures Moved(EntityClaims(entities) + [last]) == 0
  {
    var ixs := EntityClaims(entities) + [last];
    if entities == [] {
      assert ixs == [last] && ixs[1..] == [];
    } else {
      assert ixs[1..] == EntityClaims(entities[1..]) + [last];
      EntityClaimsRead(entities[1..], last);
      assert entities == [entities[0]] + entities[1..];
    }
  }

  /** A task pays for, and queues, all of its entities or none. */
  lemma TaskReads(entities: seq<Kta>, nextBatch: nat, balance: nat, minCrankReward: nat)
    ensures var ixs := TaskInstructions(entities, nextBatch, balance, minCrankReward);
      var funded := balance >= RENT_FLOOR + Fees(minCrankReward, entities);
      && Claimed(ixs) == (if funded then entities else [])
      && Moved(ixs) == (if funded then Fees(minCrankReward, entities) else 0)
      && (Transfers(ixs) <==> funded)
  {
    var ixs := TaskInstructions(entities, nextBatch, balance, minCrankReward);
    if balance >= RENT_FLOOR + Fees(minCrankReward, entities) {
      var last := if entities != [] then RequeueWalletClaim(nextBatch) else Memo(FINISHED);
      assert ixs[1..] == EntityClaims(entities) + [last];
      EntityClaimsRead(entities, last);
      assert ixs[0].Transfer?;
    } else {
      assert ixs[1..] == [];
    }
  }

  // ---------------------------------------------------------------------------------------------
  // A whole chain
  // ---------------------------------------------------------------------------------------------

  ghost function Left(length: nat, limit: nat, batch: nat): nat {
    if batch * limit < length then length - batch * limit else 0
  }

  lemma LeftShrinks(ktas: seq<Kta>, limit: nat, batch: nat)
    requires limit > 0
    ensures BatchAt(ktas, limit, batch) != [] ==> Left(|ktas|, limit, batch + 1) < Left(|ktas|, limit, batch)
  {
    assert (batch + 1) * limit == batch * limit + limit;
  }

  /** What is left of a list from a position on. */
  ghost function From(ktas: seq<Kta>, position: nat): seq<Kta> { Slice(ktas, position, position + |ktas|) }

  lemma FromPosition(ktas: seq<Kta>, position: nat, limit: nat)
    ensures From(ktas, position) == Slice(ktas, position, position + limit) + From(ktas, position + limit)
  {
  }

  lemma FromBatch(ktas: seq<Kta>, limit: nat, batch: nat)
    ensures From(ktas, batch * limit) == BatchAt(ktas, limit, batch) + From(ktas, (batch + 1) * limit)
  {
    hide From, Slice;
    var position := batch * limit;
    assert (batch + 1) * limit == position + limit;
    FromPosition(ktas, position, limit);
  }

  lemma {:induction false} SameBatchesSameRest(a: seq<Kta>, b: seq<Kta>, limit: nat, batch: nat)
    requires limit > 0
    requires forall n: nat :: n >= batch ==> BatchAt(a, limit, n) == BatchAt(b, limit, n)
    ensures From(a, batch * limit) == From(b, batch * limit)
    decreases Left(|a|, limit, batch) + Left(|b|, limit, batch)
  {
    assert BatchAt(a, limit, batch) == BatchAt(b, limit, batch);
    if BatchAt(a, limit, batch) != [] {
      LeftShrinks(a, limit, batch);
      LeftShrinks(b, limit, batch);
      SameBatchesSameRest(a, b, limit, batch + 1);
      FromBatch(a, limit, batch);
      FromBatch(b, limit, batch);
    }
  }

  lemma SameRestSameBatch(a: seq<Kta>, b: seq<Kta>, limit: nat, batch: nat, n: nat)
    requires From(a, batch * limit) == From(b, batch * limit) && n >= batch
    ensures BatchAt(a, limit, n) == BatchAt(b, limit, n)
  {
    MulMonotone(batch, n, limit);
    BatchWithinRest(a, batch * limit, n * limit, limit);
    BatchWithinRest(b, batch * limit, n * limit, limit);
  }

  lemma BatchWithinRest(ktas: seq<Kta>, position: nat, start: nat, limit: nat)
    requires position <= start
    ensures Slice(ktas, start, start + limit)
         == Slice(From(ktas, position), start - position, start - position + limit)
  {
  }

  /**
    A second chain replaces the stored snapshot.  The batches a first chain has yet to read stay
    the same exactly if the two snapshots agree from its next position on.
   */
  lemma RestartHarmlessIff(before: seq<Kta>, after: seq<Kta>, limit: nat, batch: nat)
    requires limit > 0
    ensures (forall n: nat :: n >= batch ==> BatchAt(after, limit, n) == BatchAt(before, limit, n)) <==>
      From(after, batch * limit) == From(before, batch * limit)
  {
    if forall n: nat :: n >= batch ==> BatchAt(after, limit, n) == BatchAt(before, limit, n) {
      SameBatchesSameRest(after, before, limit, batch);
    }
    if From(after, batch * limit) == From(before, batch * limit) {
      forall n: nat | n >= batch
        ensures BatchAt(after, limit, n) == BatchAt(before, limit, n)
      {
        SameRestSameBatch(after, before, limit, batch, n);
      }
    }
  }

  /**
    The instruction lists of the tasks of a chain from a given batch on.  The payer's balance only
    changes by the chain's own transfers; a task requeues while its batch is not empty.
   */
  ghost function Chain(ktas: seq<Kta>, limit: nat, minCrankReward: nat, balance: nat, batch: nat): seq<seq<Instruction>>
    requires limit > 0
    decreases Left(|ktas|, limit, batch)
  {
    var entities := BatchAt(ktas, limit, batch);
    var fees := Fees(minCrankReward, entities);
    LeftShrinks(ktas, limit, batch);
    [TaskInstructions(entities, batch + 1, balance, minCrankReward)] +
    if balance < RENT_FLOOR + fees || entities == [] then []
    else Chain(ktas, limit, minCrankReward, balance - fees, batch + 1)
  }

  ghost function AllClaimed(tasks: seq<seq<Instruction>>): seq<Kta> {
    if tasks == [] then [] else Claimed(tasks[0]) + AllClaimed(tasks[1..])
  }

  ghost function AllMoved(tasks: seq<seq<Instruction>>): nat {
    if tasks == [] then 0 else Moved(tasks[0]) + AllMoved(tasks[1..])
  }

  ghost function TransferTasks(tasks: seq<seq<Instruction>>): nat {
    if tasks == [] then 0 else (if Transfers(tasks[0]) then 1 else 0) + TransferTasks(tasks[1..])
  }

  /** The chain ran to its end: the last task found nothing left. */
  ghost predicate RanOut(tasks: seq<seq<Instruction>>) {
    tasks != [] && Memo(FINISHED) in tasks[|tasks| - 1]
  }

  lemma TaskEnds(entities: seq<Kta>, nextBatch: nat, balance: nat, minCrankReward: nat)
    ensures RanOut([TaskInstructions(entities, nextBatch, balance, minCrankReward)]) <==>
      balance >= RENT_FLOOR + Fees(minCrankReward, entities) && entities == []
  {
    var ixs := TaskInstructions(entities, nextBatch, balance, minCrankReward);
    if balance >= RENT_FLOOR + Fees(minCrankReward, entities) {
      assert ixs[|ixs| - 1] == (if entities != [] then RequeueWalletClaim(nextBatch) else Memo(FINISHED));
    }
  }

  // The batches a chain over this snapshot reads: the chunks, and then an empty one.

  ghost function Batches(ktas: seq<Kta>, limit: nat): seq<seq<Kta>>
    requires limit > 0
  {
    Chunks(ktas, limit) + [[]]
  }

  /** Only the last batch is empty. */
  ghost predicate EndsEmpty(batches: seq<seq<Kta>>) {
    batches != [] && forall k :: 0 <= k < |batches| ==> (batches[k] == [] <==> k == |batches| - 1)
  }

  lemma BatchesAreSlices(ktas: seq<Kta>, limit: nat, batch: nat)
    requires limit > 0 && batch < |Batches(ktas, limit)|
    ensures BatchAt(ktas, limit, batch) == Batches(ktas, limit)[batch]
    ensures EndsEmpty(Batches(ktas, limit))
  {
    StrideIsChunk(ktas, limit, batch);
    ChunksPartition(ktas, limit);
  }

  /** The same chain, run over the list of its batches. */
  ghost function ChainOver(batches: seq<seq<Kta>>, mcr: nat, balance: nat, batch: nat): seq<seq<Instruction>>
    requires batches != []
    decreases |batches|
  {
    var fees := Fees(mcr, batches[0]);
    [TaskInstructions(batches[0], batch + 1, balance, mcr)] +
    if balance < RENT_FLOOR + fees || |batches| == 1 then []
    else ChainOver(batches[1..], mcr, balance - fees, batch + 1)
  }

  lemma {:induction false} ChainRunsOverBatches(ktas: seq<Kta>, limit: nat, mcr: nat, balance: nat, batch: nat)
    requires limit > 0 && batch < |Batches(ktas, limit)|
    ensures Chain(ktas, limit, mcr, balance, batch)
         == ChainOver(Batches(ktas, limit)[batch..], mcr, balance, batch)
    decreases |Batches(ktas, limit)| - batch
  {
    var entities := BatchAt(ktas, limit, batch);
    var todo := Batches(ktas, limit)[batch..];
    BatchesAreSlices(ktas, limit, batch);
    assert todo[0] == entities;
    if balance >= RENT_FLOOR + Fees(mcr, entities) && entities != [] {
      ChainRunsOverBatches(ktas, limit, mcr, balance - Fees(mcr, entities), batch + 1);
      assert todo[1..] == Batches(ktas, limit)[batch + 1..];
    }
  }

  /** A chain's totals, from its first task and the rest. */
  lemma ChainUnrolls(batches: seq<seq<Kta>>, mcr: nat, balance: nat, batch: nat)
    requires EndsEmpty(batches)
    ensures var fees := Fees(mcr, batches[0]);
      var funded := balance >= RENT_FLOOR + fees;
      var tasks := ChainOver(batches, mcr, balance, batch);
      if funded && |batches| > 1 then
        var later := ChainOver(batches[1..], mcr, balance - fees, batch + 1);
        && |tasks| == 1 + |later| && AllClaimed(tasks) == batches[0] + AllClaimed(later)
        && AllMoved(tasks) == fees + AllMoved(later) && TransferTasks(tasks) == 1 + TransferTasks(later)
        && (RanOut(tasks) <==> RanOut(later)) && EndsEmpty(batches[1..])
      else
        && |tasks| == 1 && AllClaimed(tasks) == []
        && AllMoved(tasks) == (if funded then fees else 0)
        && TransferTasks(tasks) == (if funded then 1 else 0)
        && (RanOut(tasks) <==> funded)
  {
    var tasks := ChainOver(batches, mcr, balance, batch);
    TaskReads(batches[0], batch + 1, balance, mcr);
    TaskEnds(batches[0], batch + 1, balance, mcr);
    if balance >= RENT_FLOOR + Fees(mcr, batches[0]) && |batches| > 1 {
      var later := ChainOver(batches[1..], mcr, balance - Fees(mcr, batches[0]), batch + 1);
      assert tasks[1..] == later && tasks[|tasks| - 1] == later[|later| - 1];
    } else {
      assert tasks == [tasks[0]] && tasks[1..] == [];
    }
  }

  /** One unit per entity and one per task. */
  ghost function Units(batches: seq<seq<Kta>>): nat { |Flatten(batches)| + |batches| }

  lemma UnitsStep(batches: seq<seq<Kta>>)
    requires batches != []
    ensures Units(batches) == |batches[0]| + 1 + Units(batches[1..])
  {
  }

  /** Every task of the chain can pay. */
  ghost predicate Funded(batches: seq<seq<Kta>>, mcr: nat, balance: int)
    decreases |batches|
  {
    batches == [] ||
    (balance >= RENT_FLOOR + Fees(mcr, batches[0]) && Funded(batches[1..], mcr, balance - Fees(mcr, batches[0])))
  }

  lemma {:induction false} FundedIff(batches: seq<seq<Kta>>, mcr: nat, balance: int)
    requires batches != []
    ensures Funded(batches, mcr, balance) <==> balance >= RENT_FLOOR + Price(mcr, Units(batches))
    decreases |batches|
  {
    UnitsStep(batches);
    PriceAdds(mcr, |batches[0]| + 1, Units(batches[1..]));
    if |batches| > 1 {
      FundedIff(batches[1..], mcr, balance - Fees(mcr, batches[0]));
    } else {
      assert batches[1..] == [] && Units([]) == 0;
    }
  }

  lemma {:induction false} ChainOverFunded(batches: seq<seq<Kta>>, mcr: nat, balance: nat, batch: nat)
    requires EndsEmpty(batches)
    ensures RanOut(ChainOver(batches, mcr, balance, batch)) <==> Funded(batches, mcr, balance)
    decreases |batches|
  {
    hide ChainOver, RanOut, Fees, AllClaimed, AllMoved, TransferTasks;
    ChainUnrolls(batches, mcr, balance, batch);
    if balance >= RENT_FLOOR + Fees(mcr, batches[0]) && |batches| > 1 {
      ChainOverFunded(batches[1..], mcr, balance - Fees(mcr, batches[0]), batch + 1);
    } else {
      assert |batches| == 1 ==> batches[1..] == [];
    }
  }

  lemma {:induction false} ChainOverClaims(batches: seq<seq<Kta>>, mcr: nat, balance: nat, batch: nat)
    requires EndsEmpty(batches)
    ensures var tasks := ChainOver(batches, mcr, balance, batch);
      && (RanOut(tasks) ==> AllClaimed(tasks) == Flatten(batches) && |tasks| == |batches|)
      && AllClaimed(tasks) <= Flatten(batches) && |tasks| <= |batches|
    decreases |batches|
  {
    hide ChainOver, RanOut, Fees, AllClaimed, AllMoved, TransferTasks;
    ChainUnrolls(batches, mcr, balance, batch);
    if |batches| == 1 {
      assert batches[1..] == [] && Flatten(batches) == [];
    } else if balance >= RENT_FLOOR + Fees(mcr, batches[0]) {
      ChainOverClaims(batches[1..], mcr, balance - Fees(mcr, batches[0]), batch + 1);
      assert Flatten(batches) == batches[0] + Flatten(batches[1..]);
    }
  }

  /**
    A chain over a stored snapshot of n entities reaches its end exactly when the payer holds the
    rent floor plus the crank reward for n claims and ceil(n / limit) + 1 tasks; it then has queued
    exactly the snapshot, each position once and in order, in that many tasks.
   */
  lemma ChainClaimsSnapshot(ktas: seq<Kta>, limit: nat, minCrankReward: nat, balance: nat)
    requires limit > 0
    ensures var tasks := Chain(ktas, limit, minCrankReward, balance, 0);
      var needed := RENT_FLOOR + minCrankReward * (|ktas| + ChunkCount(|ktas|, limit) + 1);
      && (RanOut(tasks) <==> balance >= needed)
      && (RanOut(tasks) ==> AllClaimed(tasks) == ktas && |tasks| == ChunkCount(|ktas|, limit) + 1)
      && AllClaimed(tasks) <= ktas && |tasks| <= ChunkCount(|ktas|, limit) + 1
  {
    var batches := Batches(ktas, limit);
    BatchesAreSlices(ktas, limit, 0);
    ChainRunsOverBatches(ktas, limit, minCrankReward, balance, 0);
    assert batches[0..] == batches;
    ChainOverFunded(batches, minCrankReward, balance, 0);
    FundedIff(batches, minCrankReward, balance);
    ChainOverClaims(batches, minCrankReward, balance, 0);
    BatchesConcatenate(ktas, limit);
    PriceIsProduct(minCrankReward, Units(batches));
  }

  lemma BatchesConcatenate(ktas: seq<Kta>, limit: nat)
    requires limit > 0
    ensures Flatten(Batches(ktas, limit)) == ktas && |Batches(ktas, limit)| == ChunkCount(|ktas|, limit) + 1
  {
    ChunksPartition(ktas, limit);
    ChunksCounted(ktas, limit);
    FlattenSnoc(Chunks(ktas, limit), []);
    assert ktas + [] == ktas;
  }

  lemma {:induction false} ChainOverMoney(batches: seq<seq<Kta>>, mcr: nat, balance: nat, batch: nat)
    requires EndsEmpty(batches)
    ensures var tasks := ChainOver(batches, mcr, balance, batch);
      && AllMoved(tasks) == Price(mcr, |AllClaimed(tasks)| + TransferTasks(tasks))
      && (TransferTasks(tasks) > 0 ==> balance - AllMoved(tasks) >= RENT_FLOOR)
      && (TransferTasks(tasks) == 0 ==> AllMoved(tasks) == 0)
    decreases |batches|
  {
    hide ChainOver, RanOut, AllClaimed, AllMoved, TransferTasks;
    ChainUnrolls(batches, mcr, balance, batch);
    if balance >= RENT_FLOOR + Fees(mcr, batches[0]) && |batches| > 1 {
      var later := ChainOver(batches[1..], mcr, balance - Fees(mcr, batches[0]), batch + 1);
      ChainOverMoney(batches[1..], mcr, balance - Fees(mcr, batches[0]), batch + 1);
      PriceAdds(mcr, |batches[0]| + 1, |AllClaimed(later)| + TransferTasks(later));
    }
  }

  /** Past the end of the snapshot the only task is the one that finds nothing. */
  lemma ChainPastEnd(ktas: seq<Kta>, limit: nat, mcr: nat, balance: nat, batch: nat)
    requires limit > 0 && batch > ChunkCount(|ktas|, limit)
    ensures Chain(ktas, limit, mcr, balance, batch) == ChainOver([[]], mcr, balance, batch)
  {
    ChunksCounted(ktas, limit);
    StrideIsChunk(ktas, limit, batch);
  }

  /**
    Along every chain, from any batch and whatever the balance: the lamports moved are the crank
    reward times the claims queued plus the tasks that transferred, and once a transfer is made
    the payer never falls below the rent floor.
   */
  lemma ChainPaysForWhatItQueues(ktas: seq<Kta>, limit: nat, minCrankReward: nat, balance: nat, batch: nat)
    requires limit > 0
    ensures var tasks := Chain(ktas, limit, minCrankReward, balance, batch);
      && AllMoved(tasks) == minCrankReward * (|AllClaimed(tasks)| + TransferTasks(tasks))
      && (TransferTasks(tasks) > 0 ==> balance - AllMoved(tasks) >= RENT_FLOOR)
  {
    var todo: seq<seq<Kta>> := [[]];
    if batch > ChunkCount(|ktas|, limit) {
      ChainPastEnd(ktas, limit, minCrankReward, balance, batch);
    } else {
      ChunksCounted(ktas, limit);
      BatchesAreSlices(ktas, limit, batch);
      ChainRunsOverBatches(ktas, limit, minCrankReward, balance, batch);
      todo := Batches(ktas, limit)[batch..];
    }
    assert EndsEmpty(todo);
    ChainOverMoney(todo, minCrankReward, balance, batch);
    var tasks := ChainOver(todo, minCrankReward, balance, batch);
    PriceIsProduct(minCrankReward, |AllClaimed(tasks)| + TransferTasks(tasks));
  }

  // ---------------------------------------------------------------------------------------------
  // Chains in the running system: store, task queue and payers, under any interleaving
  // ---------------------------------------------------------------------------------------------

  datatype World = World(jobs: Jobs, balances: map<Wallet, nat>, queue: multiset<(Wallet, nat)>) {
    /** What the wallet's claim payer holds; nothing if it does not exist. */
    function Balance(wallet: Wallet): nat { if wallet in balances then balances[wallet] else 0 }
  }

  datatype Event =
    | Start(wallet: Wallet)                                 // a claim is queued for batch 0
    | Fund(wallet: Wallet, lamports: nat)                   // somebody pays the claim payer
    | RunTask(wallet: Wallet, batch: nat, rows: seq<Row>)   // with what the query returns now

  ghost predicate Enabled(w: World, e: Event) {
    e.RunTask? ==> (e.wallet, e.batch) in w.queue
  }

  /** The instructions of a task: its batch of the stored snapshot, and its payer's balance. */
  ghost function TaskRun(w: World, e: Event, limit: nat, mcr: nat): seq<Instruction>
    requires e.RunTask?
  {
    var jobs := JobStep(w.jobs, e.wallet, e.batch, e.rows);
    TaskInstructions(BatchAt(jobs[e.wallet], limit, e.batch), e.batch + 1, w.Balance(e.wallet), mcr)
  }

  /** The wallet claims that executed instructions queue. */
  ghost function Requeued(wallet: Wallet, ixs: seq<Instruction>): multiset<(Wallet, nat)> {
    if ixs == [] then multiset{}
    else
      (if ixs[0].RequeueWalletClaim? then multiset{(wallet, ixs[0].batchNumber)} else multiset{})
      + Requeued(wallet, ixs[1..])
  }

  ghost function Next(w: World, e: Event, limit: nat, mcr: nat): World {
    match e
    case Start(wallet) => w.(queue := w.queue + multiset{(wallet, 0)})
    case Fund(wallet, lamports) => w.(balances := w.balances[wallet := w.Balance(wallet) + lamports])
    case RunTask(wallet, batch, rows) =>
      var ixs := TaskRun(w, e, limit, mcr);
      TaskReads(BatchAt(JobStep(w.jobs, wallet, batch, rows)[wallet], limit, batch), batch + 1, w.Balance(wallet), mcr);
      World(JobStep(w.jobs, wallet, batch, rows),
            w.balances[wallet := w.Balance(wallet) - Moved(ixs)],
            w.queue - multiset{(wallet, batch)} + Requeued(wallet, ixs))
  }

  ghost predicate IsRun(w: World, events: seq<Event>, limit: nat, mcr: nat)
    decreases |events|
  {
    events == [] || (Enabled(w, events[0]) && IsRun(Next(w, events[0], limit, mcr), events[1..], limit, mcr))
  }

  ghost function After(w: World, events: seq<Event>, limit: nat, mcr: nat): World
    decreases |events|
  {
    if events == [] then w else After(Next(w, events[0], limit, mcr), events[1..], limit, mcr)
  }

  /** The instruction lists of the tasks run for one wallet, in order. */
  ghost function TasksFor(w: World, events: seq<Event>, limit: nat, mcr: nat, wallet: Wallet): seq<seq<Instruction>>
    decreases |events|
  {
    if events == [] then []
    else
      var e := events[0];
      (if e.RunTask? && e.wallet == wallet then [TaskRun(w, e, limit, mcr)] else [])
      + TasksFor(Next(w, e, limit, mcr), events[1..], limit, mcr, wallet)
  }

  /** The query result the wallet's first task sees. */
  ghost function FirstRows(events: seq<Event>, wallet: Wallet): Option<seq<Row>> {
    if events == [] then None
    else if events[0].RunTask? && events[0].wallet == wallet then Some(events[0].rows)
    else FirstRows(events[1..], wallet)
  }

  /** No claim is started for the wallet, and nobody else pays into its claim payer. */
  ghost predicate LeftAlone(events: seq<Event>, wallet: Wallet) {
    forall e :: e in events && e.wallet == wallet ==> e.RunTask?
  }

  /** The only queued task of the wallet is for this batch. */
  ghost predicate OnlyQueued(w: World, wallet: Wallet, batch: nat) {
    forall b: nat :: w.queue[(wallet, b)] == if b == batch then 1 else 0
  }

  ghost predicate NoneQueued(w: World, wallet: Wallet) {
    forall b: nat :: (wallet, b) !in w.queue
  }

  lemma {:induction false} EntityClaimsRequeue(wallet: Wallet, entities: seq<Kta>, last: Instruction)
    ensures Requeued(wallet, EntityClaims(entities) + [last]) == Requeued(wallet, [last])
  {
    var ixs := EntityClaims(entities) + [last];
    if entities == [] {
      assert ixs == [last];
    } else {
      assert ixs[1..] == EntityClaims(entities[1..]) + [last];
      EntityClaimsRequeue(wallet, entities[1..], last);
    }
  }

  /** A task requeues itself, for the next batch, exactly if it could pay and found something. */
  lemma TaskRequeues(wallet: Wallet, entities: seq<Kta>, next: nat, balance: nat, mcr: nat)
    ensures Requeued(wallet, TaskInstructions(entities, next, balance, mcr)) ==
      if balance >= RENT_FLOOR + Fees(mcr, entities) && entities != [] then multiset{(wallet, next)} else multiset{}
  {
    var ixs := TaskInstructions(entities, next, balance, mcr);
    if balance >= RENT_FLOOR + Fees(mcr, entities) {
      var last := if entities != [] then RequeueWalletClaim(next) else Memo(FINISHED);
      assert ixs[1..] == EntityClaims(entities) + [last];
      EntityClaimsRequeue(wallet, entities, last);
      assert [last][1..] == [];
    } else {
      assert ixs[1..] == [];
    }
  }

  /** Other wallets' events do not touch this wallet's snapshot, payer or queued tasks. */
  lemma OthersDoNotTouch(w: World, e: Event, limit: nat, mcr: nat, wallet: Wallet)
    requires Enabled(w, e) && e.wallet != wallet
    ensures var w' := Next(w, e, limit, mcr);
      && (wallet in w'.jobs <==> wallet in w.jobs) && (wallet in w.jobs ==> w'.jobs[wallet] == w.jobs[wallet])
      && w'.Balance(wallet) == w.Balance(wallet)
      && forall b: nat :: w'.queue[(wallet, b)] == w.queue[(wallet, b)]
  {
    hide TaskInstructions, Requeued, Moved, Fees, BatchAt, Snapshot;
    if e.RunTask? {
      var entities := BatchAt(JobStep(w.jobs, e.wallet, e.batch, e.rows)[e.wallet], limit, e.batch);
      TaskRequeues(e.wallet, entities, e.batch + 1, w.Balance(e.wallet), mcr);
    }
  }

  /** Once nothing is queued for a wallet that is left alone, no task of it runs. */
  lemma {:induction false} NoMoreTasks(w: World, events: seq<Event>, limit: nat, mcr: nat, wallet: Wallet)
    requires IsRun(w, events, limit, mcr) && LeftAlone(events, wallet) && NoneQueued(w, wallet)
    ensures TasksFor(w, events, limit, mcr, wallet) == [] && NoneQueued(After(w, events, limit, mcr), wallet)
    decreases |events|
  {
    if events != [] {
      assert events[0] in events && LeftAlone(events[1..], wallet);
      assert events[0].wallet != wallet;
      OthersDoNotTouch(w, events[0], limit, mcr, wallet);
      var w' := Next(w, events[0], limit, mcr);
      forall b: nat
        ensures (wallet, b) !in w'.queue
      {
        assert w'.queue[(wallet, b)] == w.queue[(wallet, b)] == 0;
      }
      NoMoreTasks(w', events[1..], limit, mcr, wallet);
    }
  }

  /** The wallet's one chain stands at this batch of this snapshot. */
  ghost predicate Underway(w: World, events: seq<Event>, wallet: Wallet, batch: nat, ktas: seq<Kta>) {
    && OnlyQueued(w, wallet, batch)
    && (batch > 0 ==> wallet in w.jobs && w.jobs[wallet] == ktas)
    && (batch == 0 && FirstRows(events, wallet).Some? ==> Snapshot(FirstRows(events, wallet).value) == ktas)
  }

  lemma OwnBatch(w: World, events: seq<Event>, wallet: Wallet, batch: nat, ktas: seq<Kta>)
    requires events != [] && events[0].RunTask? && events[0].wallet == wallet && Enabled(w, events[0])
    requires Underway(w, events, wallet, batch, ktas)
    ensures events[0].batch == batch
    ensures JobStep(w.jobs, wallet, batch, events[0].rows)[wallet] == ktas
  {
    assert w.queue[(wallet, events[0].batch)] > 0;
  }

  lemma QueueAfterTask(queue: multiset<(Wallet, nat)>, wallet: Wallet, batch: nat, more: multiset<(Wallet, nat)>)
    requires forall b: nat :: queue[(wallet, b)] == if b == batch then 1 else 0
    ensures forall b: nat :: (queue - multiset{(wallet, batch)} + more)[(wallet, b)] == more[(wallet, b)]
  {
    forall b: nat
      ensures (queue - multiset{(wallet, batch)} + more)[(wallet, b)] == more[(wallet, b)]
    {
      assert queue[(wallet, b)] == if b == batch then 1 else 0;
    }
  }

  /** One task of the chain: it reads its batch, pays, and leaves the next one queued or none. */
  lemma OwnTask(w: World, events: seq<Event>, limit: nat, mcr: nat, wallet: Wallet, batch: nat, ktas: seq<Kta>)
    requires events != [] && events[0].RunTask? && events[0].wallet == wallet && Enabled(w, events[0])
    requires Underway(w, events, wallet, batch, ktas)
    ensures var entities, w' := BatchAt(ktas, limit, batch), Next(w, events[0], limit, mcr);
      var funded := w.Balance(wallet) >= RENT_FLOOR + Fees(mcr, entities);
      && TaskRun(w, events[0], limit, mcr) == TaskInstructions(entities, batch + 1, w.Balance(wallet), mcr)
      && w'.Balance(wallet) == w.Balance(wallet) - (if funded then Fees(mcr, entities) else 0)
      && (if funded && entities != [] then Underway(w', events[1..], wallet, batch + 1, ktas)
          else NoneQueued(w', wallet))
  {
    hide TaskInstructions, Requeued, Moved, Fees, BatchAt, FirstRows, Enabled, Snapshot;
    var e := events[0];
    OwnBatch(w, events, wallet, batch, ktas);
    assert OnlyQueued(w, wallet, batch);
    var entities, w' := BatchAt(ktas, limit, batch), Next(w, e, limit, mcr);
    TaskReads(entities, batch + 1, w.Balance(wallet), mcr);
    TaskRequeues(wallet, entities, batch + 1, w.Balance(wallet), mcr);
    QueueAfterTask(w.queue, wallet, batch, Requeued(wallet, TaskRun(w, e, limit, mcr)));
  }

  /** A run is its first event and the rest. */
  lemma RunUnrolls(w: World, events: seq<Event>, limit: nat, mcr: nat, wallet: Wallet)
    requires events != [] && IsRun(w, events, limit, mcr)
    ensures var e, w' := events[0], Next(w, events[0], limit, mcr);
      && e in events && Enabled(w, e) && IsRun(w', events[1..], limit, mcr)
      && After(w, events, limit, mcr) == After(w', events[1..], limit, mcr)
      && TasksFor(w, events, limit, mcr, wallet) ==
         (if e.RunTask? && e.wallet == wallet then [TaskRun(w, e, limit, mcr)] else [])
         + TasksFor(w', events[1..], limit, mcr, wallet)
  {
  }

  lemma OthersKeepUnderway(
      w: World, events: seq<Event>, limit: nat, mcr: nat, wallet: Wallet, batch: nat, ktas: seq<Kta>)
    requires events != [] && Enabled(w, events[0]) && events[0].wallet != wallet
    requires Underway(w, events, wallet, batch, ktas)
    ensures var w' := Next(w, events[0], limit, mcr);
      Underway(w', events[1..], wallet, batch, ktas) && w'.Balance(wallet) == w.Balance(wallet)
  {
    OthersDoNotTouch(w, events[0], limit, mcr, wallet);
    hide Next, Enabled;
  }

  lemma ChainUnrollsOnce(ktas: seq<Kta>, limit: nat, mcr: nat, balance: nat, batch: nat)
    requires limit > 0
    ensures var entities := BatchAt(ktas, limit, batch);
      var requeues := balance >= RENT_FLOOR + Fees(mcr, entities) && entities != [];
      Chain(ktas, limit, mcr, balance, batch) == [TaskInstructions(entities, batch + 1, balance, mcr)] +
        if requeues then Chain(ktas, limit, mcr, balance - Fees(mcr, entities), batch + 1) else []
  {
  }

  lemma UnderwayIsQueued(w: World, events: seq<Event>, wallet: Wallet, batch: nat, ktas: seq<Kta>)
    requires Underway(w, events, wallet, batch, ktas)
    ensures !NoneQueued(w, wallet)
  {
    assert w.queue[(wallet, batch)] == 1;
  }

  /** The tasks run for the wallet are those of its chain over the snapshot: all of them once none is queued. */
  lemma {:induction false} TasksAreTheChain(
      w: World, events: seq<Event>, limit: nat, mcr: nat, wallet: Wallet, batch: nat, ktas: seq<Kta>)
    requires limit > 0 && IsRun(w, events, limit, mcr) && LeftAlone(events, wallet)
    requires Underway(w, events, wallet, batch, ktas)
    ensures var tasks := TasksFor(w, events, limit, mcr, wallet);
      var chain := Chain(ktas, limit, mcr, w.Balance(wallet), batch);
      && tasks <= chain
      && (NoneQueued(After(w, events, limit, mcr), wallet) <==> tasks == chain)
    decreases |events|
  {
    hide Next, TaskInstructions, TaskRun, Fees, BatchAt, Underway, IsRun, NoneQueued, Chain, Enabled;
    ChainUnrollsOnce(ktas, limit, mcr, w.Balance(wallet), batch);
    if events == [] {
      UnderwayIsQueued(w, events, wallet, batch, ktas);
    } else {
      var w', rest := Next(w, events[0], limit, mcr), events[1..];
      RunUnrolls(w, events, limit, mcr, wallet);
      hide After, TasksFor;
      if events[0].wallet == wallet {
        OwnTask(w, events, limit, mcr, wallet, batch, ktas);
        var entities := BatchAt(ktas, limit, batch);
        if w.Balance(wallet) >= RENT_FLOOR + Fees(mcr, entities) && entities != [] {
          TasksAreTheChain(w', rest, limit, mcr, wallet, batch + 1, ktas);
        } else {
          NoMoreTasks(w', rest, limit, mcr, wallet);
        }
      } else {
        OthersKeepUnderway(w, events, limit, mcr, wallet, batch, ktas);
        TasksAreTheChain(w', rest, limit, mcr, wallet, batch, ktas);
      }
    }
  }

  lemma {:induction false} PrefixClaims(a: seq<seq<Instruction>>, b: seq<seq<Instruction>>)
    requires a <= b
    ensures AllClaimed(a) <= AllClaimed(b)
  {
    if a != [] {
      PrefixClaims(a[1..], b[1..]);
    }
  }

  /**
    The whole claim, from store to queue: a chain is queued at batch 0 for a wallet that is
    otherwise left alone, and its tasks run in any interleaving with all other wallets' events.
    Take the rows that the query returned at batch 0 and whose lifetime rewards exceed what was
    claimed.  The entity claims queued are always the first few of these, each once and in order,
    and there are at most ceil(n / limit) + 1 tasks.  When nothing is queued any more, the chain
    has come to its end exactly if the payer held the rent floor and the crank reward for n claims
    and ceil(n / limit) + 1 tasks, and then the claims queued are all n of them, in that many tasks.
   */
  lemma WalletClaimsUnclaimed(w: World, events: seq<Event>, limit: nat, mcr: nat, wallet: Wallet)
      returns (positions: seq<int>)
    requires limit > 0 && IsRun(w, events, limit, mcr) && LeftAlone(events, wallet)
    requires OnlyQueued(w, wallet, 0) && FirstRows(events, wallet).Some?
    ensures AreUnclaimed(FirstRows(events, wallet).value, positions)
    ensures var rows, n := FirstRows(events, wallet).value, |positions|;
      var tasks := TasksFor(w, events, limit, mcr, wallet);
      var needed := RENT_FLOOR + mcr * (n + ChunkCount(n, limit) + 1);
      && |AllClaimed(tasks)| <= n && |tasks| <= ChunkCount(n, limit) + 1
      && Lists(AllClaimed(tasks), rows, positions[..|AllClaimed(tasks)|])
      && (NoneQueued(After(w, events, limit, mcr), wallet) ==>
            && (RanOut(tasks) <==> w.Balance(wallet) >= needed)
            && (RanOut(tasks) ==> |AllClaimed(tasks)| == n && |tasks| == ChunkCount(n, limit) + 1))
  {
    hide RanOut, AllClaimed, IsRun, TasksFor, After, NoneQueued, Snapshot, ChunkCount, LeftAlone, OnlyQueued;
    positions := SnapshotIsTheUnclaimed(FirstRows(events, wallet).value);
    WalletClaimsSnapshot(w, events, limit, mcr, wallet);
  }

  /** The same in terms of the stored snapshot. */
  lemma WalletClaimsSnapshot(w: World, events: seq<Event>, limit: nat, mcr: nat, wallet: Wallet)
    requires limit > 0 && IsRun(w, events, limit, mcr) && LeftAlone(events, wallet)
    requires OnlyQueued(w, wallet, 0) && FirstRows(events, wallet).Some?
    ensures var snapshot := Snapshot(FirstRows(events, wallet).value);
      var tasks := TasksFor(w, events, limit, mcr, wallet);
      var needed := RENT_FLOOR + mcr * (|snapshot| + ChunkCount(|snapshot|, limit) + 1);
      && AllClaimed(tasks) <= snapshot && |tasks| <= ChunkCount(|snapshot|, limit) + 1
      && (NoneQueued(After(w, events, limit, mcr), wallet) ==>
            && (RanOut(tasks) <==> w.Balance(wallet) >= needed)
            && (RanOut(tasks) ==>
                  AllClaimed(tasks) == snapshot && |tasks| == ChunkCount(|snapshot|, limit) + 1))
  {
    hide RanOut, AllClaimed, Chain, IsRun, TasksFor, After, NoneQueued, Snapshot, ChunkCount;
    var snapshot := Snapshot(FirstRows(events, wallet).value);
    TasksAreTheChain(w, events, limit, mcr, wallet, 0, snapshot);
    ChainClaimsSnapshot(snapshot, limit, mcr, w.Balance(wallet));
    PrefixClaims(TasksFor(w, events, limit, mcr, wallet), Chain(snapshot, limit, mcr, w.Balance(wallet), 0));
  }

  /** Nobody else pays into the wallet's claim payer. */
  ghost predicate NotFunded(events: seq<Event>, wallet: Wallet) {
    forall e :: e in events && e.wallet == wallet ==> !e.Fund?
  }

  lemma OwnTaskMoney(w: World, e: Event, limit: nat, mcr: nat)
    requires e.RunTask?
    ensures var ixs, w' := TaskRun(w, e, limit, mcr), Next(w, e, limit, mcr);
      && w'.Balance(e.wallet) == w.Balance(e.wallet) - Moved(ixs)
      && Moved(ixs) == (if Transfers(ixs) then Price(mcr, |Claimed(ixs)| + 1) else 0)
      && (!Transfers(ixs) ==> Claimed(ixs) == [])
      && (Transfers(ixs) ==> w'.Balance(e.wallet) >= RENT_FLOOR)
  {
    var jobs := JobStep(w.jobs, e.wallet, e.batch, e.rows);
    TaskReads(BatchAt(jobs[e.wallet], limit, e.batch), e.batch + 1, w.Balance(e.wallet), mcr);
  }

  /** These tasks take the payer from one balance to another, paying for what they queue. */
  ghost predicate Paid(before: nat, after: nat, tasks: seq<seq<Instruction>>, mcr: nat) {
    && after == before - AllMoved(tasks)
    && AllMoved(tasks) == mcr * (|AllClaimed(tasks)| + TransferTasks(tasks))
    && (if TransferTasks(tasks) > 0 then after >= RENT_FLOOR else AllClaimed(tasks) == [])
  }

  lemma PaidTask(before: nat, between: nat, after: nat, ixs: seq<Instruction>, later: seq<seq<Instruction>>, mcr: nat)
    requires Paid(between, after, later, mcr)
    requires between == before - Moved(ixs) && (Transfers(ixs) ==> between >= RENT_FLOOR)
    requires Moved(ixs) == (if Transfers(ixs) then Price(mcr, |Claimed(ixs)| + 1) else 0)
    requires !Transfers(ixs) ==> Claimed(ixs) == []
    ensures Paid(before, after, [ixs] + later, mcr)
  {
    TotalsPrepend(ixs, later);
    hide Claimed, Moved, Transfers, AllClaimed, AllMoved, TransferTasks, Price;
    var a, b := |Claimed(ixs)| + 1, |AllClaimed(later)| + TransferTasks(later);
    PriceIsProduct(mcr, a);
    assert mcr * (a + b) == mcr * a + mcr * b;
    assert mcr * 0 == 0;
  }

  /**
    For any number of chains of a wallet and any interleaving, counting only its own transfers:
    the payer has paid the crank reward for each claim queued and each task that transferred, and
    once a transfer is made it holds at least the rent floor.
   */
  lemma {:induction false} WalletPaysForWhatItQueues(
      w: World, events: seq<Event>, limit: nat, mcr: nat, wallet: Wallet)
    requires IsRun(w, events, limit, mcr) && NotFunded(events, wallet)
    ensures Paid(w.Balance(wallet), After(w, events, limit, mcr).Balance(wallet),
                 TasksFor(w, events, limit, mcr, wallet), mcr)
    decreases |events|
  {
    if events != [] {
      hide Next, TaskRun, IsRun, Enabled, Paid, Transfers, Claimed, Moved;
      var e, w', rest := events[0], Next(w, events[0], limit, mcr), events[1..];
      RunUnrolls(w, events, limit, mcr, wallet);
      hide After, TasksFor;
      WalletPaysForWhatItQueues(w', rest, limit, mcr, wallet);
      var later := TasksFor(w', rest, limit, mcr, wallet);
      assert [] + later == later;
      if e.wallet != wallet {
        OthersDoNotTouch(w, e, limit, mcr, wallet);
      } else if e.RunTask? {
        OwnTaskMoney(w, e, limit, mcr);
        PaidTask(w.Balance(wallet), w'.Balance(wallet), After(w, events, limit, mcr).Balance(wallet),
                 TaskRun(w, e, limit, mcr), later, mcr);
      } else {
        StartCostsNothing(w, e, limit, mcr);
      }
    }
  }

  lemma StartCostsNothing(w: World, e: Event, limit: nat, mcr: nat)
    requires e.Start?
    ensures Next(w, e, limit, mcr).Balance(e.wallet) == w.Balance(e.wallet)
  {
  }

  lemma TotalsPrepend(ixs: seq<Instruction>, later: seq<seq<Instruction>>)
    ensures AllClaimed([ixs] + later) == Claimed(ixs) + AllClaimed(later)
    ensures AllMoved([ixs] + later) == Moved(ixs) + AllMoved(later)
    ensures TransferTasks([ixs] + later) == (if Transfers(ixs) then 1 else 0) + TransferTasks(later)
  {
    assert ([ixs] + later)[1..] == later;
  }

  /** With a limit of zero every batch is empty, so the first task ends the chain with nothing queued. */
  lemma LimitZeroClaimsNothing(ktas: seq<Kta>, balance: nat, minCrankReward: nat, batch: nat)
    ensures BatchAt(ktas, 0, batch) == []
    ensures var ixs := TaskInstructions(BatchAt(ktas, 0, batch), batch + 1, balance, minCrankReward);
      Claimed(ixs) == [] && RequeueWalletClaim(batch + 1) !in ixs
  {
    TaskReads([], batch + 1, balance, minCrankReward);
  }

  // ---------------------------------------------------------------------------------------------
  // The program
  // ---------------------------------------------------------------------------------------------

  /** The filter over the query's result. */
  method FilterUnclaimed(rows: seq<Row>) returns (allKtas: seq<Kta>)
    ensures allKtas == Snapshot(rows)
  {
    allKtas := [];
    for i := 0 to |rows|
      invariant allKtas == Snapshot(rows[..i])
    {
      SnapshotNext(rows, i);
      if rows[i].lifetime - rows[i].claimed > 0 {
        allKtas := allKtas + [rows[i].kta];
      }
    }
    assert rows[..|rows|] == rows;
  }

  class PgDatabase {
    var jobs: Jobs

    constructor ()
      ensures jobs == map[]
    {
      jobs := map[];
    }

    method GetOrCreateWalletClaimJob(wallet: Wallet, batchNumber: nat, rows: seq<Row>) returns (remainingKtas: seq<Kta>)
      modifies this
      ensures jobs == JobStep(old(jobs), wallet, batchNumber, rows)
      ensures wallet in jobs && remainingKtas == jobs[wallet]
      ensures batchNumber == 0 || wallet !in old(jobs) ==>
        forall positions :: AreUnclaimed(rows, positions) ==> Lists(remainingKtas, rows, positions)
    {
      hide AreUnclaimed, Lists, Snapshot;
      if batchNumber == 0 {
        jobs := jobs - {wallet};
      }
      if wallet !in jobs {
        var allKtas := FilterUnclaimed(rows);
        jobs := jobs[wallet := allKtas];
      }
      remainingKtas := jobs[wallet];
      SnapshotListsUnclaimed(rows);
    }

    method GetRewardableEntities(wallet: Wallet, limit: nat, batchNumber: nat, rows: seq<Row>)
        returns (entities: seq<Kta>, nextBatchNumber: nat)
      modifies this
      ensures jobs == JobStep(old(jobs), wallet, batchNumber, rows) && wallet in jobs
      ensures entities == BatchAt(jobs[wallet], limit, batchNumber)
      ensures nextBatchNumber == batchNumber + 1
    {
      var job := GetOrCreateWalletClaimJob(wallet, batchNumber, rows);
      entities := Slice(job, batchNumber * limit, batchNumber * limit + limit);
      nextBatchNumber := batchNumber + 1;
    }
  }

  /** handleTuktukWalletOrDestination: pushes the task's instructions. */
  method HandleTuktukWallet(entities: seq<Kta>, nextBatchNumber: nat, balance: nat, minCrankReward: nat)
      returns (instructions: seq<Instruction>)
    ensures instructions == TaskInstructions(entities, nextBatchNumber, balance, minCrankReward)
  {
    PriceIsProduct(minCrankReward, |entities| + 1);
    var fees := minCrankReward * (|entities| + 1);
    var neededBalance := RENT_FLOOR + fees;
    instructions := [];
    if balance < neededBalance {
      instructions := instructions + [Memo(OUT_OF_FUNDS)];
    } else {
      instructions := instructions + [Transfer(fees)];
      for i := 0 to |entities|
        invariant instructions == [Transfer(fees)] + EntityClaims(entities)[..i]
      {
        instructions := instructions + [RequeueEntityClaim(entities[i])];
      }
      if |entities| > 0 {
        instructions := instructions + [RequeueWalletClaim(nextBatchNumber)];
      } else {
        instructions := instructions + [Memo(FINISHED)];
      }
    }
  }

  /** tuktukWalletHandler: one task of a wallet, from the store to the instructions. */
  method TuktukWalletHandler(db: PgDatabase, wallet: Wallet, limit: nat, batchNumber: nat, rows: seq<Row>,
                             balance: nat, minCrankReward: nat)
      returns (instructions: seq<Instruction>)
    modifies db
    ensures var w := World(old(db.jobs), map[wallet := balance], multiset{(wallet, batchNumber)});
      var task := RunTask(wallet, batchNumber, rows);
      && instructions == TaskRun(w, task, limit, minCrankReward)
      && db.jobs == Next(w, task, limit, minCrankReward).jobs
  {
    var entities, nextBatchNumber := db.GetRewardableEntities(wallet, limit, batchNumber, rows);
    instructions := HandleTuktukWallet(entities, nextBatchNumber, balance, minCrankReward);
  }
}
