/**
  The proxy-vote task of packages/helium-vote-service/src/index.ts.  Each turn asks the indexer for
  positions whose vote may be missing, checks them against the chain, votes on the first that
  really differs and requeues itself, or ends, or asks to be retried.
 */
module ProxyVote {
  import opened Common

  type Asset = string
  type Choice = int

  const MAX_VOTES_PER_TASK := 1
  const MARKERS_TO_CHECK := 10

  /** What the indexer holds on one assignment: the proxy's position and its indexed vote marker, if any. */
  datatype IndexedMarker = IndexedMarker(proxyIndex: nat, choices: seq<Choice>)

  datatype Row = Row(asset: Asset, assignment: string, index: nat, expirationTime: int, marker: Option<IndexedMarker>)

  predicate Covers(a: seq<Choice>, b: seq<Choice>) {
    forall i :: 0 <= i < |b| ==> b[i] in a
  }

  /** The where clause of the query. */
  predicate IsOutstanding(row: Row, now: int, choices: seq<Choice>) {
    && row.index > 0 && row.expirationTime > now
    && (row.marker.None? ||
        (row.marker.value.proxyIndex >= row.index &&
         (!Covers(choices, row.marker.value.choices) || !Covers(row.marker.value.choices, choices))))
  }

  function Outstanding(rows: seq<Row>, now: int, choices: seq<Choice>): seq<Row> {
    if rows == [] then []
    else (if IsOutstanding(rows[0], now, choices) then [rows[0]] else []) + Outstanding(rows[1..], now, choices)
  }

  /** What a query with a limit and no order may return. */
  ghost predicate Limited(raw: seq<Row>, all: seq<Row>) {
    && |raw| == (if |all| <= MARKERS_TO_CHECK then |all| else MARKERS_TO_CHECK)
    && multiset(raw) <= multiset(all)
  }

  // ---------------------------------------------------------------------------------------------
  // arrayEquals
  // ---------------------------------------------------------------------------------------------

  lemma SortDecides(a: seq<Choice>, b: seq<Choice>)
    ensures |Sort(a)| == |a| && |Sort(b)| == |b|
    ensures Sort(a) == Sort(b) <==> multiset(a) == multiset(b)
  {
    SortFacts(a);
    SortFacts(b);
    if multiset(a) == multiset(b) {
      AscendingUnique(Sort(a), Sort(b));
    }
  }

  /** Equal up to order, counting repetitions. */
  method ArrayEquals(choices: seq<Choice>, choices1: seq<Choice>) returns (equal: bool)
    ensures equal <==> multiset(choices) == multiset(choices1)
  {
    SortDecides(choices, choices1);
    if |choices| != |choices1| {
      return false;
    }
    var sorted1, sorted2 := Sort(choices), Sort(choices1);
    for i := 0 to |sorted1|
      invariant forall j :: 0 <= j < i ==> sorted1[j] == sorted2[j]
    {
      if sorted1[i] != sorted2[i] {
        return false;
      }
    }
    assert sorted1 == sorted2;
    return true;
  }

  // ---------------------------------------------------------------------------------------------
  // One turn
  // ---------------------------------------------------------------------------------------------

  type Chain = map<Asset, seq<Choice>>  // the on-chain vote markers for the proposal

  /** The position's on-chain vote already says what the proxy says. */
  ghost predicate Matches(chain: Chain, row: Row, choices: seq<Choice>) {
    row.asset in chain && multiset(chain[row.asset]) == multiset(choices)
  }

  datatype Instruction =
    | Memo
    | Transfer(lamports: nat)
    | CountProxyVote(row: Row)
    | RequeueRelinquish(row: Row)
    | RequeueProxyVote

  datatype Reply = Retry | Instructions(instructions: seq<Instruction>)

  const Done := Instructions([Memo])

  function VoteOn(row: Row, minCrankReward: nat): Reply {
    Instructions([Transfer(2 * minCrankReward), CountProxyVote(row), RequeueRelinquish(row), RequeueProxyVote])
  }

  ghost predicate FirstDiffering(raw: seq<Row>, chain: Chain, choices: seq<Choice>, k: nat) {
    && k < |raw| && !Matches(chain, raw[k], choices)
    && forall j :: 0 <= j < k ==> Matches(chain, raw[j], choices)
  }

  ghost predicate AllMatch(raw: seq<Row>, chain: Chain, choices: seq<Choice>) {
    forall j :: 0 <= j < |raw| ==> Matches(chain, raw[j], choices)
  }

  /** The index of the first row whose on-chain vote differs. */
  ghost function FirstIndex(raw: seq<Row>, chain: Chain, choices: seq<Choice>): (k: nat)
    requires !AllMatch(raw, chain, choices)
    ensures FirstDiffering(raw, chain, choices, k)
  {
    if !Matches(chain, raw[0], choices) then 0
    else
      assert forall j :: 0 <= j < |raw[1..]| ==> raw[1..][j] == raw[j + 1];
      1 + FirstIndex(raw[1..], chain, choices)
  }

  /** What a turn answers to a page of rows. */
  ghost function ReplyTo(raw: seq<Row>, chain: Chain, choices: seq<Choice>, minCrankReward: nat): Reply {
    if !AllMatch(raw, chain, choices) then VoteOn(raw[FirstIndex(raw, chain, choices)], minCrankReward)
    else if |raw| == MARKERS_TO_CHECK then Retry
    else Done
  }

  /** Votes on the first row that differs; with none, retries on a full page and ends otherwise. */
  method ProxyVoteTask(raw: seq<Row>, chain: Chain, choices: seq<Choice>, minCrankReward: nat) returns (reply: Reply)
    ensures reply == ReplyTo(raw, chain, choices, minCrankReward)
  {
    var needsVote: seq<Row> := [];
    var i := 0;
    ghost var first := 0;
    while i < |raw| && |needsVote| < MAX_VOTES_PER_TASK
      invariant 0 <= i <= |raw|
      invariant needsVote == [] ==> forall j :: 0 <= j < i ==> Matches(chain, raw[j], choices)
      invariant needsVote != [] ==> FirstDiffering(raw, chain, choices, first) && needsVote == [raw[first]]
    {
      var vote := raw[i];
      var differs := true;
      if vote.asset in chain {
        var equal := ArrayEquals(chain[vote.asset], choices);
        differs := !equal;
      }
      if differs {
        first := i;
        needsVote := needsVote + [vote];
      }
      i := i + 1;
    }
    if |needsVote| == 0 && |raw| == MARKERS_TO_CHECK {
      return Retry;
    }
    if |needsVote| == 0 {
      return Instructions([Memo]);
    }
    var instructions := [Transfer(2 * minCrankReward * |needsVote|)];
    for v := 0 to |needsVote|
      invariant instructions == [Transfer(2 * minCrankReward)] +
        if v == 0 then [] else [CountProxyVote(raw[first]), RequeueRelinquish(raw[first])]
    {
      instructions := instructions + [CountProxyVote(needsVote[v]), RequeueRelinquish(needsVote[v])];
    }
    reply := Instructions(instructions + [RequeueProxyVote]);
    assert reply == VoteOn(raw[first], minCrankReward);
    assert FirstDiffering(raw, chain, choices, FirstIndex(raw, chain, choices));
  }

  /** How often an instruction is in a list of instructions. */
  ghost function Times(ixs: seq<Instruction>, ix: Instruction): nat { multiset(ixs)[ix] }

  /**
    With a row that differs, the reply counts the proxy's vote on the first such row and on no
    other, once; schedules the release of that marker, pays for two cranks, and requeues the task
    once.
   */
  lemma VoteReplyMeans(raw: seq<Row>, chain: Chain, choices: seq<Choice>, minCrankReward: nat, k: nat)
    requires FirstDiffering(raw, chain, choices, k)
    ensures var reply := ReplyTo(raw, chain, choices, minCrankReward);
      && reply.Instructions?
      && (forall row :: Times(reply.instructions, CountProxyVote(row)) == if row == raw[k] then 1 else 0)
      && (forall row :: Times(reply.instructions, RequeueRelinquish(row)) == if row == raw[k] then 1 else 0)
      && (forall n :: Times(reply.instructions, Transfer(n)) == if n == minCrankReward + minCrankReward then 1 else 0)
      && Times(reply.instructions, RequeueProxyVote) == 1 && Times(reply.instructions, Memo) == 0
  {
    var first := FirstIndex(raw, chain, choices);
    assert first == k;
  }

  /** A page that all matches gets no vote: the reply is a retry or the final memo. */
  lemma NoVoteWithoutDifference(raw: seq<Row>, chain: Chain, choices: seq<Choice>, minCrankReward: nat)
    requires AllMatch(raw, chain, choices)
    ensures var reply := ReplyTo(raw, chain, choices, minCrankReward);
      if |raw| == 10 then reply == Retry else reply == Instructions([Memo])
  {
  }

  /** The same choices, whatever their order and repetition. */
  ghost predicate SameChoices(a: seq<Choice>, b: seq<Choice>) {
    forall c :: c in a <==> c in b
  }

  /** A row that needs no vote: not delegated, expired, overridden, or already voted as the proxy did. */
  ghost predicate Settled(row: Row, now: int, choices: seq<Choice>) {
    || row.index == 0 || row.expirationTime <= now
    || (row.marker.Some? && (row.marker.value.proxyIndex < row.index || SameChoices(row.marker.value.choices, choices)))
  }

  lemma SameCovers(a: seq<Choice>, b: seq<Choice>)
    requires SameChoices(a, b)
    ensures Covers(a, b)
  {
    forall i | 0 <= i < |b|
      ensures b[i] in a
    {
      var c := b[i];
      assert c in b;
      assert c in a;
    }
  }

  lemma CoversIff(a: seq<Choice>, b: seq<Choice>)
    ensures Covers(a, b) && Covers(b, a) <==> SameChoices(a, b)
  {
    if SameChoices(a, b) {
      SameCovers(a, b);
      SameCovers(b, a);
    }
  }

  /** The query returns exactly the rows that are not settled. */
  lemma {:induction false} OutstandingIff(rows: seq<Row>, now: int, choices: seq<Choice>, row: Row)
    ensures row in Outstanding(rows, now, choices) <==> row in rows && !Settled(row, now, choices)
  {
    if rows != [] {
      OutstandingIff(rows[1..], now, choices, row);
      if rows[0].marker.Some? {
        CoversIff(rows[0].marker.value.choices, choices);
      }
    }
  }

  /** When the chain of tasks ends, every row the indexer holds is settled or has the proxy's choices on chain. */
  lemma DoneCoversEveryRow(
      rows: seq<Row>, now: int, raw: seq<Row>, chain: Chain, choices: seq<Choice>, minCrankReward: nat, row: Row)
    requires Limited(raw, Outstanding(rows, now, choices)) && row in rows
    requires ReplyTo(raw, chain, choices, minCrankReward) == Instructions([Memo])
    ensures Settled(row, now, choices) || Matches(chain, row, choices)
  {
    DoneMeansAllVoted(rows, now, raw, chain, choices, minCrankReward);
    OutstandingIff(rows, now, choices, row);
  }

  lemma SubMultisetOfSameSize(a: seq<Row>, b: seq<Row>)
    requires multiset(a) <= multiset(b) && |a| == |b|
    ensures multiset(a) == multiset(b)
  {
    var rest := multiset(b) - multiset(a);
    assert multiset(b) == multiset(a) + rest;
    assert |multiset(b)| == |multiset(a)| + |rest|;
    assert |multiset(a)| == |a| && |multiset(b)| == |b|;
  }

  /**
    A turn ends the chain of tasks exactly when the indexer holds less than a page of outstanding
    rows and every one of them, not only those on the page it returned, already has on-chain
    choices equal to the proxy's as a multiset.
   */
  lemma DoneMeansAllVoted(
      rows: seq<Row>, now: int, raw: seq<Row>, chain: Chain, choices: seq<Choice>, minCrankReward: nat)
    requires Limited(raw, Outstanding(rows, now, choices))
    ensures var all := Outstanding(rows, now, choices);
      ReplyTo(raw, chain, choices, minCrankReward) == Done <==>
        AllMatch(all, chain, choices) && |all| < MARKERS_TO_CHECK
  {
    var all := Outstanding(rows, now, choices);
    if AllMatch(raw, chain, choices) && |raw| < MARKERS_TO_CHECK {
      SubMultisetOfSameSize(raw, all);
      MatchesCarryOver(all, raw, chain, choices);
    }
    if AllMatch(all, chain, choices) {
      MatchesCarryOver(raw, all, chain, choices);
    }
  }

  lemma MatchesCarryOver(some: seq<Row>, all: seq<Row>, chain: Chain, choices: seq<Choice>)
    requires multiset(some) <= multiset(all) && AllMatch(all, chain, choices)
    ensures AllMatch(some, chain, choices)
  {
    forall j | 0 <= j < |some|
      ensures Matches(chain, some[j], choices)
    {
      assert some[j] in multiset(some) && some[j] in multiset(all);
      var i :| 0 <= i < |all| && all[i] == some[j];
    }
  }

  /** A turn asks for a retry exactly when its page is full and every row on it matches already. */
  lemma RetryMeansFullPage(raw: seq<Row>, chain: Chain, choices: seq<Choice>, minCrankReward: nat)
    ensures ReplyTo(raw, chain, choices, minCrankReward) == Retry <==>
      |raw| == MARKERS_TO_CHECK && AllMatch(raw, chain, choices)
    ensures !AllMatch(raw, chain, choices) ==>
      exists k: nat :: FirstDiffering(raw, chain, choices, k) &&
        ReplyTo(raw, chain, choices, minCrankReward) == VoteOn(raw[k], minCrankReward)
  {
    if !AllMatch(raw, chain, choices) {
      assert FirstDiffering(raw, chain, choices, FirstIndex(raw, chain, choices));
    }
  }

  // ---------------------------------------------------------------------------------------------
  // A chain of turns
  // ---------------------------------------------------------------------------------------------

  /** A turn that voted on a row: what the indexer returned, and which row it was. */
  datatype Turn = Turn(raw: seq<Row>, voted: Option<nat>)

  /**
    Turns and the chain states between them.  The indexer may be arbitrarily stale; a counted vote
    leaves the proxy's choices on chain, in some order, and nobody else writes these markers.
   */
  ghost predicate IsRun(chains: seq<Chain>, turns: seq<Turn>, choices: seq<Choice>) {
    && |chains| == |turns| + 1
    && forall i :: 0 <= i < |turns| ==> TurnTaken(chains[i], turns[i], chains[i + 1], choices)
  }

  ghost predicate TurnTaken(before: Chain, turn: Turn, after: Chain, choices: seq<Choice>) {
    if turn.voted.None? then after == before && AllMatch(turn.raw, before, choices)
    else
      && FirstDiffering(turn.raw, before, choices, turn.voted.value)
      && var asset := turn.raw[turn.voted.value].asset;
      && asset in after && multiset(after[asset]) == multiset(choices)
      && forall a :: a != asset ==> (a in after <==> a in before) && (a in after ==> after[a] == before[a])
  }

  ghost predicate VotedFor(chain: Chain, a: Asset, choices: seq<Choice>) {
    a in chain && multiset(chain[a]) == multiset(choices)
  }

  lemma {:induction false} VotesStay(
      chains: seq<Chain>, turns: seq<Turn>, choices: seq<Choice>, m: nat, n: nat, a: Asset)
    requires IsRun(chains, turns, choices) && m <= n < |chains| && VotedFor(chains[m], a, choices)
    ensures VotedFor(chains[n], a, choices)
    decreases n
  {
    if m < n {
      VotesStay(chains, turns, choices, m, n - 1, a);
      assert TurnTaken(chains[n - 1], turns[n - 1], chains[n], choices);
    }
  }

  /** However stale the indexer, no position is voted on twice along a chain of turns. */
  lemma NeverVotesTwice(chains: seq<Chain>, turns: seq<Turn>, choices: seq<Choice>, i: nat, j: nat)
    requires IsRun(chains, turns, choices) && i < j < |turns|
    requires turns[i].voted.Some? && turns[j].voted.Some?
    ensures turns[i].voted.value < |turns[i].raw| && turns[j].voted.value < |turns[j].raw|
    ensures turns[i].raw[turns[i].voted.value].asset != turns[j].raw[turns[j].voted.value].asset
  {
    assert TurnTaken(chains[i], turns[i], chains[i + 1], choices);
    assert TurnTaken(chains[j], turns[j], chains[j + 1], choices);
    VotesStay(chains, turns, choices, i + 1, j, turns[i].raw[turns[i].voted.value].asset);
  }
}
