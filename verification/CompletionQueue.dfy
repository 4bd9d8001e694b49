/**
  Waiting for transactions in packages/account-fetch-cache/src/transactionCompletionQueue.ts.  A wait
  is decided by whichever comes first: a websocket notification, a polled status, or a timeout.
  Callers asking for the same commitment and transaction share one promise.
 */
module CompletionQueue {
  import opened Common
  import opened Chunking

  type Commitment = string
  type Txid = string

  const STATUS_CHUNK := 200

  datatype Status = Status(err: Option<string>, slot: nat, confirmations: nat, confirmationStatus: Option<Commitment>)

  datatype Settlement =
    | Resolved(status: Status)
    | RejectedStatus(status: Status)  // websocket error
    | RejectedErr(err: string)        // polled error
    | TimedOut

  datatype Wait = Wait(commitment: Commitment, txid: Txid, result: Option<Settlement>) {
    function Pair(): (Commitment, Txid) { (commitment, txid) }
  }

  type Replies = seq<seq<Option<Status>>>  // one per chunk

  /** One poll: the transactions asked for, and the replies once they are in. */
  datatype Query = Query(commitment: Commitment, txids: seq<Txid>, replies: Option<Replies>) {
    /** The record built from the flattened replies; later positions overwrite earlier ones. */
    function Statuses(): map<Txid, Option<Status>> {
      if replies.None? then map[] else ByTxid(txids, Flatten(replies.value))
    }
  }

  function ByTxid(txids: seq<Txid>, statuses: seq<Option<Status>>): map<Txid, Option<Status>> {
    if statuses == [] then map[]
    else
      var n := |statuses| - 1;
      var before := ByTxid(txids, statuses[..n]);
      if n < |txids| then before[txids[n] := statuses[n]] else before
  }

  datatype State = State(
    waits: seq<Wait>,                      // every promise ever made, in order
    table: map<(Commitment, Txid), nat>,   // txPromises: the promise a new caller would be given
    known: map<Commitment, seq<Txid>>,     // the keys of txPromises[commitment], in insertion order
    queries: seq<Query>)

  const Initial := State([], map[], map[], [])

  datatype Event =
    | Call(commitment: Commitment, txid: Txid)
    | Signature(wait: nat, err: Option<string>, slot: nat)  // the websocket listener of this wait
    | Timeout(wait: nat)
    | Rest(wait: nat, query: nat)                           // a polled record reaches this wait
    | Ask(commitment: Commitment)                           // a poll is sent
    | Answer(query: nat, replies: Replies)                  // its replies are in

  function Keys(s: State, c: Commitment): seq<Txid> {
    if c in s.known then s.known[c] else []
  }

  ghost predicate Enabled(s: State, e: Event) {
    match e
    case Call(_, _) => true
    case Signature(w, _, _) => w < |s.waits|
    case Timeout(w) => w < |s.waits|
    case Rest(w, q) =>
      && w < |s.waits| && q < |s.queries|
      && s.queries[q].commitment == s.waits[w].commitment && s.queries[q].replies.Some?
    case Ask(_) => true
    case Answer(q, replies) =>
      && q < |s.queries| && s.queries[q].replies.None?
      && Answered(s.queries[q].txids, STATUS_CHUNK, replies)
  }

  /** What a polled status decides. */
  function RestDecision(status: Option<Status>, commitment: Commitment): Option<Settlement> {
    if status.None? then None
    else if status.value.err.Some? then Some(RejectedErr(status.value.err.value))
    else if status.value.confirmations == 0 && status.value.confirmationStatus.None? then None
    else if status.value.confirmationStatus.None? || status.value.confirmationStatus.value == commitment then
      Some(Resolved(status.value))
    else None
  }

  function SignatureDecision(err: Option<string>, slot: nat): Settlement {
    var status := Status(err, slot, 0, None);
    if err.Some? then RejectedStatus(status) else Resolved(status)
  }

  /** The status a query's record holds for a transaction; absent counts as null. */
  function Polled(q: Query, txid: Txid): Option<Status> {
    var m := q.Statuses();
    if txid in m then m[txid] else None
  }

  /** What an event, taken by itself, decides about a wait. */
  function Decision(s: State, e: Event, w: nat): Option<Settlement>
    requires w < |s.waits|
    requires e.Rest? ==> e.query < |s.queries|
  {
    match e
    case Signature(v, err, slot) => if v == w then Some(SignatureDecision(err, slot)) else None
    case Timeout(v) => if v == w then Some(TimedOut) else None
    case Rest(v, q) =>
      if v == w then RestDecision(Polled(s.queries[q], s.waits[w].txid), s.waits[w].commitment) else None
    case Call(_, _) => None
    case Ask(_) => None
    case Answer(_, _) => None
  }

  /** The promise a call is given. */
  function CallResult(s: State, c: Commitment, t: Txid): nat {
    if (c, t) in s.table then s.table[(c, t)] else |s.waits|
  }

  /** cleanup, then resolve or reject: the second has no effect on a settled promise. */
  function SetDone(s: State, w: nat, settlement: Settlement): State
    requires w < |s.waits|
  {
    var wait := s.waits[w];
    s.(table := s.table - {wait.Pair()},
       waits := s.waits[w := wait.(result := if wait.result.Some? then wait.result else Some(settlement))])
  }

  /** The poll for these transactions; with none to ask for, the record is empty at once. */
  function NewQuery(c: Commitment, txids: seq<Txid>): Query {
    Query(c, txids, if txids == [] then Some([]) else None)
  }

  ghost function Apply(s: State, e: Event): State
    requires Enabled(s, e)
  {
    match e
    case Call(c, t) =>
      if (c, t) in s.table then s
      else
        var keys := Keys(s, c);
        s.(waits := s.waits + [Wait(c, t, None)], table := s.table[(c, t) := |s.waits|],
           known := s.known[c := if t in keys then keys else keys + [t]])
    case Signature(w, err, slot) => SetDone(s, w, SignatureDecision(err, slot))  // not guarded by done
    case Timeout(w) => if s.waits[w].result.Some? then s else SetDone(s, w, TimedOut)
    case Rest(w, q) =>
      var d := Decision(s, e, w);
      if s.waits[w].result.Some? || d.None? then s else SetDone(s, w, d.value)
    case Ask(c) => s.(queries := s.queries + [NewQuery(c, Keys(s, c))])
    case Answer(q, replies) => s.(queries := s.queries[q := s.queries[q].(replies := Some(replies))])
  }

  ghost predicate IsRun(states: seq<State>, events: seq<Event>) {
    && |states| == |events| + 1
    && states[0] == Initial
    && forall i :: 0 <= i < |events| ==> Enabled(states[i], events[i]) && states[i + 1] == Apply(states[i], events[i])
  }

  // ---------------------------------------------------------------------------------------------
  // Each wait settles once, with the first deciding event
  // ---------------------------------------------------------------------------------------------

  /** The first decision about wait w among the first n events. */
  ghost function FirstDecision(states: seq<State>, events: seq<Event>, w: nat, n: nat): Option<Settlement>
    requires IsRun(states, events) && n <= |events|
  {
    if n == 0 then None
    else
      var earlier := FirstDecision(states, events, w, n - 1);
      if earlier.Some? || w >= |states[n - 1].waits| then earlier
      else Decision(states[n - 1], events[n - 1], w)
  }

  /**
    At every point of every interleaving, a wait's promise holds exactly the first decision made
    about it, and is unsettled exactly while there was none.
   */
  lemma {:induction false} SettlesWithFirstDecision(states: seq<State>, events: seq<Event>, w: nat, n: nat)
    requires IsRun(states, events) && n <= |events|
    ensures w < |states[n].waits| ==> states[n].waits[w].result == FirstDecision(states, events, w, n)
    ensures w >= |states[n].waits| ==> FirstDecision(states, events, w, n) == None
  {
    if n > 0 {
      SettlesWithFirstDecision(states, events, w, n - 1);
      var s, e := states[n - 1], events[n - 1];
      assert states[n] == Apply(s, e);
      assert |s.waits| <= |states[n].waits|;
    }
  }

  // ---------------------------------------------------------------------------------------------
  // Sharing
  // ---------------------------------------------------------------------------------------------

  ghost predicate TableOk(s: State) {
    forall p :: p in s.table ==>
      s.table[p] < |s.waits| && s.waits[s.table[p]].Pair() == p && s.waits[s.table[p]].result.None?
  }

  ghost predicate Pending(s: State, w: nat) {
    w < |s.waits| && s.waits[w].result.None?
  }

  /** A new caller for the wait's commitment and transaction would be given this wait. */
  ghost predicate Offered(s: State, w: nat)
    requires w < |s.waits|
  {
    s.waits[w].Pair() in s.table && s.table[s.waits[w].Pair()] == w
  }

  /** The event runs cleanup on behalf of wait v. */
  ghost predicate CleansUp(s: State, e: Event, v: nat)
    requires Enabled(s, e)
  {
    && v < |s.waits|
    && ((e.Signature? && e.wait == v) || (s.waits[v].result.None? && Decision(s, e, v).Some?))
  }

  lemma StepKeepsTable(s: State, e: Event)
    requires TableOk(s) && Enabled(s, e)
    ensures TableOk(Apply(s, e))
  {
  }

  /**
    A pending wait stops being offered, while still pending, exactly when cleanup runs on behalf
    of another wait for the same commitment and transaction.
   */
  lemma OfferLostIff(s: State, e: Event, w: nat)
    requires TableOk(s) && Enabled(s, e)
    requires Pending(s, w) && Offered(s, w) && Pending(Apply(s, e), w)
    ensures !Offered(Apply(s, e), w) <==>
      exists v: nat :: v != w && CleansUp(s, e, v) && s.waits[v].Pair() == s.waits[w].Pair()
  {
    var s' := Apply(s, e);
    if !Offered(s', w) {
      var v := e.wait;
      assert v != w && CleansUp(s, e, v) && s.waits[v].Pair() == s.waits[w].Pair();
    }
    if v: nat :| v != w && CleansUp(s, e, v) && s.waits[v].Pair() == s.waits[w].Pair() {
      assert s'.table == s.table - {s.waits[v].Pair()};
    }
  }

  /** Listeners of finished waits stay silent. */
  ghost predicate Silent(states: seq<State>, events: seq<Event>)
    requires IsRun(states, events)
  {
    forall i :: 0 <= i < |events| && events[i].Signature? ==> Pending(states[i], events[i].wait)
  }

  ghost predicate Shared(s: State) {
    TableOk(s) && forall w: nat :: Pending(s, w) ==> Offered(s, w)
  }

  lemma SilentStepKeepsShared(s: State, e: Event)
    requires Shared(s) && Enabled(s, e) && (e.Signature? ==> Pending(s, e.wait))
    ensures Shared(Apply(s, e))
  {
    var s' := Apply(s, e);
    StepKeepsTable(s, e);
    forall w: nat | Pending(s', w)
      ensures Offered(s', w)
    {
      if w < |s.waits| {
        assert Pending(s, w) && Offered(s, w);
        OfferLostIff(s, e, w);
        forall v: nat | v != w && CleansUp(s, e, v)
          ensures s.waits[v].Pair() != s.waits[w].Pair()
        {
          assert Pending(s, v) && Offered(s, v);
        }
      }
    }
  }

  lemma {:induction false} SilentRunsShare(states: seq<State>, events: seq<Event>, n: nat)
    requires IsRun(states, events) && Silent(states, events) && n <= |events|
    ensures Shared(states[n])
  {
    if n > 0 {
      SilentRunsShare(states, events, n - 1);
      SilentStepKeepsShared(states[n - 1], events[n - 1]);
    }
  }

  lemma {:induction false} WaitsKeepTheirPair(states: seq<State>, events: seq<Event>, m: nat, n: nat, w: nat)
    requires IsRun(states, events) && m <= n <= |events| && w < |states[m].waits|
    ensures w < |states[n].waits| && states[n].waits[w].Pair() == states[m].waits[w].Pair()
    decreases n
  {
    if m < n {
      WaitsKeepTheirPair(states, events, m, n - 1, w);
      assert states[n] == Apply(states[n - 1], events[n - 1]);
    }
  }

  /**
    As long as finished waits' listeners stay silent, two calls for the same commitment and
    transaction are given the same promise whenever the first one's is still unsettled.
   */
  lemma CallersShare(states: seq<State>, events: seq<Event>, m: nat, n: nat)
    requires IsRun(states, events) && Silent(states, events) && m < n < |events|
    requires events[m].Call? && events[n] == events[m]
    requires Pending(states[n], CallResult(states[m], events[m].commitment, events[m].txid))
    ensures CallResult(states[n], events[n].commitment, events[n].txid)
         == CallResult(states[m], events[m].commitment, events[m].txid)
  {
    var c, t := events[m].commitment, events[m].txid;
    var w := CallResult(states[m], c, t);
    SilentRunsShare(states, events, m);
    SilentRunsShare(states, events, n);
    assert states[m + 1] == Apply(states[m], events[m]);
    assert states[m + 1].waits[w].Pair() == (c, t);
    WaitsKeepTheirPair(states, events, m + 1, n, w);
  }

  /** Without that, a late notification for a finished wait takes a newer promise away from later callers. */
  lemma LateNotificationBreaksSharing(c: Commitment, t: Txid) returns (states: seq<State>, events: seq<Event>)
    ensures IsRun(states, events) && |events| == 5
    ensures events[2] == events[4] == Call(c, t)
    ensures Pending(states[4], CallResult(states[2], c, t))
    ensures CallResult(states[4], c, t) != CallResult(states[2], c, t)
  {
    hide Decision, Keys;
    var call := Call(c, t);
    events := [call, Timeout(0), call, Signature(0, None, 7), call];
    var s0 := Initial;
    var s1 := Apply(s0, call);
    assert s1.waits == [Wait(c, t, None)] && s1.table == map[(c, t) := 0];
    var s2 := Apply(s1, Timeout(0));
    assert s2.table == map[] && |s2.waits| == 1;
    var s3 := Apply(s2, call);
    assert |s3.waits| == 2 && s3.waits[1] == Wait(c, t, None);
    var s4 := Apply(s3, Signature(0, None, 7));
    assert s4.table == map[] && s4.waits[1] == s3.waits[1];
    var s5 := Apply(s4, call);
    states := [s0, s1, s2, s3, s4, s5];
  }

  // ---------------------------------------------------------------------------------------------
  // A polled outcome uses the status returned for that transaction
  // ---------------------------------------------------------------------------------------------

  ghost predicate QueryOk(q: Query) {
    Distinct(q.txids) && (q.replies.Some? ==> Answered(q.txids, STATUS_CHUNK, q.replies.value))
  }

  ghost predicate QueriesOk(s: State) {
    && (forall c :: c in s.known ==> Distinct(s.known[c]))
    && (forall q :: 0 <= q < |s.queries| ==> QueryOk(s.queries[q]))
  }

  lemma {:induction false} ByTxidEntry(txids: seq<Txid>, statuses: seq<Option<Status>>, n: nat, i: nat)
    requires Distinct(txids) && n <= |statuses| && n <= |txids| && i < |txids|
    ensures txids[i] in ByTxid(txids, statuses[..n]) <==> i < n
    ensures i < n ==> ByTxid(txids, statuses[..n])[txids[i]] == statuses[i]
    decreases n
  {
    if n > 0 {
      assert statuses[..n][..n - 1] == statuses[..n - 1];
      ByTxidEntry(txids, statuses, n - 1, i);
    }
  }

  lemma {:induction false} ByTxidKeys(txids: seq<Txid>, statuses: seq<Option<Status>>)
    ensures forall t :: t in ByTxid(txids, statuses) ==> t in txids
    decreases |statuses|
  {
    if statuses != [] {
      ByTxidKeys(txids, statuses[..|statuses| - 1]);
    }
  }

  /** The record holds, for the i-th transaction asked for, slot i % 200 of the reply to chunk i / 200. */
  lemma PolledFromSlot(q: Query, i: nat)
    requires QueryOk(q) && q.replies.Some? && i < |q.txids|
    ensures var replies := q.replies.value;
      && i / STATUS_CHUNK < |replies| && i % STATUS_CHUNK < |replies[i / STATUS_CHUNK]|
      && Polled(q, q.txids[i]) == replies[i / STATUS_CHUNK][i % STATUS_CHUNK]
  {
    var statuses := Flatten(q.replies.value);
    AnswerOfKey(q.txids, STATUS_CHUNK, q.replies.value, i);
    assert statuses[..|statuses|] == statuses;
    ByTxidEntry(q.txids, statuses, |statuses|, i);
  }

  lemma {:induction false} RunKeepsQueries(states: seq<State>, events: seq<Event>, n: nat)
    requires IsRun(states, events) && n <= |events|
    ensures QueriesOk(states[n])
  {
    if n > 0 {
      RunKeepsQueries(states, events, n - 1);
      assert states[n] == Apply(states[n - 1], events[n - 1]);
    }
  }

  /** The status stands in the reply slot of this transaction. */
  ghost predicate InOwnSlot(q: Query, txid: Txid, status: Status) {
    exists i :: 0 <= i < |q.txids| && q.txids[i] == txid && SlotIs(q, i, status)
  }

  ghost predicate SlotIs(q: Query, i: nat, status: Status) {
    var c, r := i / STATUS_CHUNK, i % STATUS_CHUNK;
    && q.replies.Some? && c < |q.replies.value|
    && r < |q.replies.value[c]| && q.replies.value[c][r] == Some(status)
  }

  /**
    Whatever a poll decides about a wait, to resolve it or to reject it, it decides on the status
    that stood in that transaction's own slot.
   */
  lemma RestUsesOwnStatus(states: seq<State>, events: seq<Event>, n: nat) returns (status: Status)
    requires IsRun(states, events) && n < |events| && events[n].Rest?
    requires Decision(states[n], events[n], events[n].wait).Some?
    ensures var s, e := states[n], events[n];
      && InOwnSlot(s.queries[e.query], s.waits[e.wait].txid, status)
      && Decision(s, e, e.wait) == RestDecision(Some(status), s.waits[e.wait].commitment)
  {
    RunKeepsQueries(states, events, n);
    var q := states[n].queries[events[n].query];
    var txid := states[n].waits[events[n].wait].txid;
    ByTxidKeys(q.txids, Flatten(q.replies.value));
    var i :| 0 <= i < |q.txids| && q.txids[i] == txid;
    PolledFromSlot(q, i);
    status := Polled(q, txid).value;
    assert SlotIs(q, i, status);
  }

  /** A polled status confirms a transaction at the commitment waited for. */
  predicate Confirms(status: Status, commitment: Commitment) {
    match status.confirmationStatus
    case Some(reached) => reached == commitment
    case None => status.confirmations > 0
  }

  /** A polled status rejects a wait exactly if it has an error, and else resolves it exactly if it confirms it. */
  lemma PollDecides(status: Option<Status>, c: Commitment)
    ensures var d := RestDecision(status, c);
      && (d.Some? <==> status.Some? && (status.value.err.Some? || Confirms(status.value, c)))
      && (status.Some? && status.value.err.Some? ==> d == Some(RejectedErr(status.value.err.value)))
      && (d.Some? && status.value.err.None? ==> d == Some(Resolved(status.value)))
  {
  }

  /**
    A poll that reaches an undecided wait settles it by the status in its transaction's own slot: an
    error rejects it, a confirmation resolves it with that status, anything else leaves it open.
   */
  lemma RestOutcome(states: seq<State>, events: seq<Event>, n: nat, i: nat)
    requires IsRun(states, events) && n < |events| && events[n].Rest? && Pending(states[n], events[n].wait)
    requires var q := states[n].queries[events[n].query];
      i < |q.txids| && q.txids[i] == states[n].waits[events[n].wait].txid
    ensures var w, replies := events[n].wait, states[n].queries[events[n].query].replies.value;
      && i / STATUS_CHUNK < |replies| && i % STATUS_CHUNK < |replies[i / STATUS_CHUNK]|
      && w < |states[n + 1].waits|
      && var status, result := replies[i / STATUS_CHUNK][i % STATUS_CHUNK], states[n + 1].waits[w].result;
      && (status.Some? && status.value.err.Some? ==> result == Some(RejectedErr(status.value.err.value)))
      && (status.Some? && status.value.err.None? && Confirms(status.value, states[n].waits[w].commitment) ==>
            result == Some(Resolved(status.value)))
      && (status.None? || (status.value.err.None? && !Confirms(status.value, states[n].waits[w].commitment)) ==>
            result == None)
  {
    RunKeepsQueries(states, events, n);
    PolledFromSlot(states[n].queries[events[n].query], i);
  }

  /** A notification settles an undecided wait: an error rejects it, anything else resolves it. */
  lemma NotificationOutcome(s: State, w: nat, err: Option<string>, slot: nat)
    requires Pending(s, w)
    ensures var result := Apply(s, Signature(w, err, slot)).waits[w].result;
      && result.Some?
      && (err.Some? ==> result.value.RejectedStatus? && result.value.status.err == err)
      && (err.None? ==> result.value.Resolved? && result.value.status.err == None && result.value.status.slot == slot)
  {
  }

  /** A timeout rejects an undecided wait as timed out, and changes nothing about a decided one. */
  lemma TimeoutOutcome(s: State, w: nat)
    requires w < |s.waits|
    ensures var s' := Apply(s, Timeout(w));
      if Pending(s, w) then s'.waits[w].result == Some(TimedOut) else s' == s
  {
  }

  /** Every transaction ever waited for is among those a poll asks about. */
  ghost predicate AllKnown(s: State) {
    forall w :: 0 <= w < |s.waits| ==> s.waits[w].txid in Keys(s, s.waits[w].commitment)
  }

  lemma StepKeepsKnown(s: State, e: Event)
    requires AllKnown(s) && Enabled(s, e)
    ensures AllKnown(Apply(s, e))
  {
    var s' := Apply(s, e);
    forall w | 0 <= w < |s'.waits|
      ensures s'.waits[w].txid in Keys(s', s'.waits[w].commitment)
    {
      if w < |s.waits| {
        assert s'.waits[w].Pair() == s.waits[w].Pair();
      }
    }
  }

  lemma {:induction false} PollsAskForEveryWait(states: seq<State>, events: seq<Event>, n: nat)
    requires IsRun(states, events) && n <= |events|
    ensures AllKnown(states[n])
    ensures n < |events| && events[n].Ask? ==>
      var q := states[n + 1].queries[|states[n].queries|];
      q.commitment == events[n].commitment &&
      forall w :: 0 <= w < |states[n].waits| && states[n].waits[w].commitment == q.commitment ==>
        states[n].waits[w].txid in q.txids
  {
    if n > 0 {
      PollsAskForEveryWait(states, events, n - 1);
      StepKeepsKnown(states[n - 1], events[n - 1]);
    }
  }

  // ---------------------------------------------------------------------------------------------
  // The program
  // ---------------------------------------------------------------------------------------------

  class TransactionCompletionQueue {
    var waits: seq<Wait>
    var txPromises: map<(Commitment, Txid), nat>
    var known: map<Commitment, seq<Txid>>
    var queries: seq<Query>
    var currentStatuses: map<Commitment, nat>  // which poll's record
    var lastQuery: int

    ghost function Abs(): State
      reads this
    {
      State(waits, txPromises, known, queries)
    }

    constructor (now: int)
      ensures Abs() == Initial && Cached()
    {
      waits, txPromises, known, queries := [], map[], map[], [];
      currentStatuses, lastQuery := map[], now;
    }

    method WaitFor(commitment: Commitment, txid: Txid) returns (promise: nat)
      modifies this`waits, `txPromises, `known
      ensures Abs() == Apply(old(Abs()), Call(commitment, txid))
      ensures promise == CallResult(old(Abs()), commitment, txid)
      ensures TableOk(old(Abs())) ==> promise < |waits| && waits[promise] == Wait(commitment, txid, None)
    {
      if (commitment, txid) in txPromises {
        return txPromises[(commitment, txid)];
      }
      promise := |waits|;
      waits := waits + [Wait(commitment, txid, None)];
      txPromises := txPromises[(commitment, txid) := promise];
      var keys := if commitment in known then known[commitment] else [];
      if txid !in keys {
        keys := keys + [txid];
      }
      known := known[commitment := keys];
    }

    method Finish(promise: nat, settlement: Settlement)
      requires promise < |waits|
      modifies this`waits, `txPromises
      ensures Abs() == SetDone(old(Abs()), promise, settlement)
    {
      var wait := waits[promise];
      txPromises := txPromises - {wait.Pair()};
      if wait.result.None? {
        waits := waits[promise := wait.(result := Some(settlement))];
      }
    }

    method OnTimeout(promise: nat)
      requires promise < |waits|
      modifies this`waits, `txPromises
      ensures Abs() == Apply(old(Abs()), Timeout(promise))
    {
      if waits[promise].result.Some? {
        return;
      }
      Finish(promise, TimedOut);
    }

    method OnSignature(promise: nat, err: Option<string>, slot: nat)
      requires promise < |waits|
      modifies this`waits, `txPromises
      ensures Abs() == Apply(old(Abs()), Signature(promise, err, slot))
    {
      var status := Status(err, slot, 0, None);
      if err.Some? {
        Finish(promise, RejectedStatus(status));
      } else {
        Finish(promise, Resolved(status));
      }
    }

    method OnStatuses(promise: nat, query: nat)
      requires promise < |waits| && query < |queries|
      requires queries[query].commitment == waits[promise].commitment && queries[query].replies.Some?
      modifies this`waits, `txPromises
      ensures Abs() == Apply(old(Abs()), Rest(promise, query))
    {
      var wait := waits[promise];
      var statuses := queries[query].Statuses();
      var found := if wait.txid in statuses then statuses[wait.txid] else None;
      if wait.result.None? {
        if found.None? {
        } else if found.value.err.Some? {
          Finish(promise, RejectedErr(found.value.err.value));
        } else if found.value.confirmations == 0 && found.value.confirmationStatus.None? {
        } else if found.value.confirmationStatus.None? || found.value.confirmationStatus.value == wait.commitment {
          Finish(promise, Resolved(found.value));
        }
      }
    }

    /**
      queryStatuses up to its await: a poll is begun when this commitment has no record, or when
      the last poll, of any commitment, is more than two seconds old; otherwise the last record is
      the answer.  With no transaction to ask for, the record is empty and there is no await.
     */
    method QueryStatuses(commitment: Commitment, now: int) returns (query: nat)
      requires Cached()
      modifies this`queries, `currentStatuses, `lastQuery
      ensures Cached()
      ensures query < |queries| && queries[query].commitment == commitment
      ensures var poll := commitment !in old(currentStatuses) || old(lastQuery) + 2000 < now;
        && Abs() == (if poll then Apply(old(Abs()), Ask(commitment)) else old(Abs()))
        && query == (if poll then old(|queries|) else old(currentStatuses)[commitment])
        && (poll && Keys(old(Abs()), commitment) != [] ==>
              unchanged(`currentStatuses) && unchanged(`lastQuery) && queries[query].replies.None?)
        && (poll && Keys(old(Abs()), commitment) == [] ==>
              currentStatuses == old(currentStatuses)[commitment := query] && lastQuery == now)
        && (!poll ==> unchanged(`currentStatuses) && unchanged(`lastQuery))
    {
      if commitment in currentStatuses && lastQuery + 2000 >= now {
        return currentStatuses[commitment];
      }
      var txids := if commitment in known then known[commitment] else [];
      query := |queries|;
      if |txids| > 0 {
        queries := queries + [Query(commitment, txids, None)];
      } else {
        queries := queries + [Query(commitment, txids, Some([]))];
        currentStatuses := currentStatuses[commitment := query];
        lastQuery := now;
      }
    }

    /** The rest of queryStatuses: the replies become the commitment's record. */
    method StatusesArrived(query: nat, replies: Replies, now: int)
      requires Cached() && Enabled(Abs(), Answer(query, replies))
      modifies this`queries, `currentStatuses, `lastQuery
      ensures Cached() && Abs() == Apply(old(Abs()), Answer(query, replies))
      ensures currentStatuses == old(currentStatuses)[queries[query].commitment := query] && lastQuery == now
    {
      queries := queries[query := queries[query].(replies := Some(replies))];
      currentStatuses := currentStatuses[queries[query].commitment := query];
      lastQuery := now;
    }

    ghost predicate Cached()
      reads this
    {
      forall c :: c in currentStatuses ==>
        && currentStatuses[c] < |queries|
        && queries[currentStatuses[c]].commitment == c && queries[currentStatuses[c]].replies.Some?
    }
  }
}
