/**
  The batching protocol of packages/account-fetch-cache/src/accountFetchCache.ts: requests join the
  open batch, a debounced timer or a flush seals it and sends it, searches first collect what is
  in flight and only then join a batch.  The code runs on one thread and gives way only at an
  await, so each run between awaits is one atomic event here.
 */
module FetchBatches {
  import opened Common
  import opened Chunking

  type Key = string
  datatype AccountInfo = AccountInfo(owner: string, data: seq<int>)

  /** How a sealed batch's promise settled.  A failed fetch resolves too: reject is bound to resolve. */
  datatype Outcome =
    | Unsettled
    | Failed
    | Fetched(replies: seq<seq<Option<AccountInfo>>>)  // one reply per chunk of keys

  datatype Batch = Batch(keys: seq<Key>, inFlight: bool, outcome: Outcome) {
    /** The record the batch's promise resolves to. */
    function Result(): map<Key, AccountInfo> {
      if outcome.Fetched? then Grouped(keys, Flatten(outcome.replies)) else map[]
    }
  }

  /**
    Batch objects are numbered as they are created.  An array of batches is an object too: pushing
    changes it in place, filtering makes a new one, and a loop keeps walking the one it started on.
   */
  datatype Core = Core(
    batches: seq<Batch>,
    arrays: seq<seq<nat>>,
    current: nat,           // which array activeBatches refers to
    timer: bool)            // is a timeout pending?
  {
    ghost predicate Wf() {
      && current < |arrays|
      && |batches| > 0
      && forall a, i :: 0 <= a < |arrays| && 0 <= i < |arrays[a]| ==> arrays[a][i] < |batches|
    }

    function Active(): seq<nat>
      requires current < |arrays|
    {
      arrays[current]
    }
  }

  const EmptyBatch := Batch([], false, Unsettled)

  function InitialCore(): Core {
    Core([EmptyBatch], [[0]], 0, false)
  }

  function Last(s: seq<nat>): nat
    requires s != []
  {
    s[|s| - 1]
  }

  /** Array.prototype.filter((b) => b != batch). */
  function Without(s: seq<nat>, b: nat): seq<nat> {
    if s == [] then []
    else
      var rest := Without(s[..|s| - 1], b);
      if Last(s) == b then rest else rest + [Last(s)]
  }

  function AddKey(keys: seq<Key>, key: Key): seq<Key> {
    if key in keys then keys else keys + [key]
  }

  ghost predicate CanUseLast(c: Core) {
    c.Wf() && c.Active() != []
  }

  /** addToBatch: the key joins the last batch and the timer is restarted. */
  ghost function Join(c: Core, key: Key): Core
    requires CanUseLast(c)
  {
    var b := Last(c.Active());
    c.(batches := c.batches[b := c.batches[b].(keys := AddKey(c.batches[b].keys, key))], timer := true)
  }

  /** fetchBatch up to its await: a new batch is pushed, the last one is sealed. */
  ghost function Seal(c: Core): Core
    requires CanUseLast(c)
  {
    var b := Last(c.Active());
    c.(batches := c.batches[b := c.batches[b].(inFlight := true)] + [EmptyBatch],
       arrays := c.arrays[c.current := c.Active() + [|c.batches|]])
  }

  /** activeBatches = activeBatches.filter((b) => b != batch) */
  ghost function Drop(c: Core, b: nat): Core
    requires c.Wf()
  {
    c.(arrays := c.arrays + [Without(c.Active(), b)], current := |c.arrays|)
  }

  ghost function Settle(c: Core, b: nat, outcome: Outcome): Core
    requires c.Wf() && b < |c.batches|
  {
    Drop(c.(batches := c.batches[b := c.batches[b].(outcome := outcome)]), b)
  }

  // ---------------------------------------------------------------------------------------------
  // Searches, events and runs
  // ---------------------------------------------------------------------------------------------

  datatype Search =
    | Collecting(key: Key, arr: nat, pos: nat, got: map<Key, AccountInfo>)  // inside awaitAllInFlight
    | Waiting(key: Key, batch: nat)
    | Done(key: Key, answer: Option<AccountInfo>)

  datatype State = State(core: Core, searches: map<nat, Search>)

  datatype Event =
    | Begin(id: nat, key: Key, forceRequery: bool)  // search on a key the cache does not hold
    | Visit(id: nat)                                // one turn of the loop in awaitAllInFlight
    | Finish(id: nat)                               // the loop is over
    | Deliver(id: nat)                              // the awaited batch has settled
    | TimerFires
    | Flush
    | Complete(batch: nat, outcome: Outcome)        // getMultipleAccounts returned or threw

  ghost predicate Enabled(s: State, e: Event)
    requires s.core.Wf()
  {
    var c := s.core;
    match e
    case Begin(id, _, _) => id !in s.searches && c.Active() != []
    case Visit(id) =>
      && id in s.searches && s.searches[id].Collecting?
      && var q := s.searches[id];
      && q.arr < |c.arrays| && q.pos < |c.arrays[q.arr]|
      && var b := c.batches[c.arrays[q.arr][q.pos]];
      && (b.inFlight ==> !b.outcome.Unsettled?)
    case Finish(id) =>
      && id in s.searches && s.searches[id].Collecting?
      && s.searches[id].arr < |c.arrays|
      && s.searches[id].pos == |c.arrays[s.searches[id].arr]|
      && c.Active() != []
    case Deliver(id) =>
      && id in s.searches && s.searches[id].Waiting?
      && s.searches[id].batch < |c.batches|
      && !c.batches[s.searches[id].batch].outcome.Unsettled?
    case TimerFires => c.timer && c.Active() != []
    case Flush => c.Active() != []
    case Complete(b, outcome) =>
      && b < |c.batches| && c.batches[b].inFlight && c.batches[b].outcome.Unsettled?
      && c.batches[b].keys != []
      && (outcome.Failed? || (outcome.Fetched? && Answered(c.batches[b].keys, MAX_CHUNK_SIZE, outcome.replies)))
  }

  ghost function Lookup(m: map<Key, AccountInfo>, key: Key): Option<AccountInfo> {
    if key in m then Some(m[key]) else None
  }

  ghost function Apply(s: State, e: Event): State
    requires s.core.Wf() && Enabled(s, e)
  {
    var c := s.core;
    match e
    case Begin(id, key, forceRequery) =>
      State(if forceRequery then Join(c, key) else c,
            s.searches[id := Collecting(key, c.current, 0, map[])])
    case Visit(id) =>
      var q := s.searches[id];
      var b := c.arrays[q.arr][q.pos];
      if c.batches[b].inFlight then
        State(Drop(c, b), s.searches[id := q.(pos := q.pos + 1, got := c.batches[b].Result() + q.got)])
      else
        s.(searches := s.searches[id := q.(pos := q.pos + 1)])
    case Finish(id) =>
      var q := s.searches[id];
      if q.key in q.got then
        s.(searches := s.searches[id := Done(q.key, Some(q.got[q.key]))])
      else
        State(Join(c, q.key), s.searches[id := Waiting(q.key, Last(c.Active()))])
    case Deliver(id) =>
      var q := s.searches[id];
      s.(searches := s.searches[id := Done(q.key, Lookup(c.batches[q.batch].Result(), q.key))])
    case TimerFires => s.(core := Seal(c.(timer := false)))
    case Flush => s.(core := Seal(c.(timer := false)))
    case Complete(b, outcome) => s.(core := Settle(c, b, outcome))
  }

  // ---------------------------------------------------------------------------------------------
  // What every event keeps
  // ---------------------------------------------------------------------------------------------

  /** The last active batch is the newest and the only open one; all other active ones are in flight. */
  ghost predicate OneOpen(c: Core) {
    && c.Wf()
    && c.Active() != []
    && Last(c.Active()) == |c.batches| - 1
    && (forall b :: 0 <= b < |c.batches| ==> (c.batches[b].inFlight <==> b < |c.batches| - 1))
    && (forall i :: 0 <= i < |c.Active()| - 1 ==>
          c.Active()[i] < |c.batches| - 1 && c.batches[c.Active()[i]].outcome.Unsettled?)
    && c.batches[|c.batches| - 1].outcome.Unsettled?
  }

  /** A batch that is in flight and not yet settled is still listed, so a search will wait for it. */
  ghost predicate UnsettledAreListed(c: Core)
    requires c.Wf()
  {
    forall b :: 0 <= b < |c.batches| && c.batches[b].outcome.Unsettled? ==> b in c.Active()
  }

  /** A timer is pending exactly while the open batch holds a key. */
  ghost predicate TimerPending(c: Core)
    requires c.Wf()
  {
    c.timer <==> c.batches[|c.batches| - 1].keys != []
  }

  ghost predicate BatchesOk(c: Core) {
    forall b :: 0 <= b < |c.batches| ==>
      && Distinct(c.batches[b].keys)
      && (c.batches[b].outcome.Fetched? ==>
            Answered(c.batches[b].keys, MAX_CHUNK_SIZE, c.batches[b].outcome.replies))
  }

  ghost predicate CoreInv(c: Core) {
    OneOpen(c) && UnsettledAreListed(c) && TimerPending(c) && BatchesOk(c)
  }

  /** The account is what some settled batch holding the key was answered in that key's own slot. */
  ghost predicate FromSlot(c: Core, key: Key, account: AccountInfo) {
    exists b :: 0 <= b < |c.batches| && SlotOf(c.batches[b], key, account)
  }

  ghost predicate SlotOf(b: Batch, key: Key, account: AccountInfo) {
    b.inFlight && b.outcome.Fetched? && AnsweredInSlot(b.keys, b.outcome.replies, key, account)
  }

  ghost predicate SearchOk(c: Core, q: Search) {
    match q
    case Collecting(_, arr, _, got) => arr < |c.arrays| && forall k :: k in got ==> FromSlot(c, k, got[k])
    case Waiting(key, b) => b < |c.batches| && key in c.batches[b].keys
    case Done(key, answer) => answer.Some? ==> FromSlot(c, key, answer.value)
  }

  ghost predicate Inv(s: State) {
    && CoreInv(s.core)
    && forall id :: id in s.searches ==> SearchOk(s.core, s.searches[id])
  }

  /** How batches and arrays may change: a sealed batch keeps its keys, a settled one its outcome. */
  ghost predicate Evolves(c: Core, d: Core) {
    && |c.batches| <= |d.batches|
    && |c.arrays| <= |d.arrays|
    && (forall b :: 0 <= b < |c.batches| ==> BatchEvolves(c.batches[b], d.batches[b]))
    && (forall a :: 0 <= a < |c.arrays| ==> c.arrays[a] <= d.arrays[a])
  }

  ghost predicate BatchEvolves(b: Batch, b': Batch) {
    && b.keys <= b'.keys
    && (b.inFlight ==> b'.inFlight && b'.keys == b.keys)
    && (!b.outcome.Unsettled? ==> b'.outcome == b.outcome)
  }

  // Filtering

  lemma {:induction false} WithoutMembers(s: seq<nat>, b: nat)
    ensures forall x :: x in Without(s, b) <==> x in s && x != b
  {
    if s != [] {
      WithoutMembers(s[..|s| - 1], b);
      assert forall x :: x in s <==> x in s[..|s| - 1] || x == Last(s);
    }
  }

  lemma WithoutKeepsLast(s: seq<nat>, b: nat)
    requires s != [] && Last(s) != b
    ensures Without(s, b) == Without(s[..|s| - 1], b) + [Last(s)]
  {
  }

  lemma JoinKeeps(c: Core, key: Key)
    requires CoreInv(c)
    ensures CoreInv(Join(c, key)) && Evolves(c, Join(c, key))
    ensures key in Join(c, key).batches[|c.batches| - 1].keys
  {
    var d := Join(c, key);
    assert d.Active() == c.Active();
    assert forall b :: 0 <= b < |c.batches| - 1 ==> d.batches[b] == c.batches[b];
  }

  lemma SealKeeps(c: Core, d: Core)
    requires CoreInv(c) && d == Seal(c.(timer := false))
    ensures CoreInv(d) && Evolves(c, d)
  {
    var n := |c.batches|;
    assert d.Active() == c.Active() + [n];
    assert forall b :: 0 <= b < n - 1 ==> d.batches[b] == c.batches[b];
    assert d.batches[n] == EmptyBatch;
    forall b | 0 <= b < |d.batches| && d.batches[b].outcome.Unsettled?
      ensures b in d.Active()
    {
      if b < n {
        assert b in c.Active();
      } else {
        assert d.Active()[|c.Active()|] == n;
      }
    }
  }

  lemma DropKeeps(c: Core, b: nat)
    requires OneOpen(c) && BatchesOk(c) && TimerPending(c)
    requires b < |c.batches| - 1
    ensures var d := Drop(c, b);
      && OneOpen(d) && TimerPending(d) && BatchesOk(d) && Evolves(c, d)
      && forall x :: x in d.Active() <==> x in c.Active() && x != b
  {
    var d := Drop(c, b);
    WithoutMembers(c.Active(), b);
    WithoutKeepsLast(c.Active(), b);
    var front := c.Active()[..|c.Active()| - 1];
    WithoutMembers(front, b);
    assert d.Active() == Without(front, b) + [Last(c.Active())];
    assert forall i :: 0 <= i < |d.Active()| ==> d.Active()[i] in d.Active();
    forall i | 0 <= i < |d.Active()| - 1
      ensures d.Active()[i] < |d.batches| - 1 && d.batches[d.Active()[i]].outcome.Unsettled?
    {
      assert d.Active()[i] in Without(front, b);
      assert d.Active()[i] in front;
    }
  }

  /** Settling a batch takes it, and only it, off the list. */
  lemma SettleKeeps(c: Core, b: nat, outcome: Outcome)
    requires CoreInv(c) && b < |c.batches| - 1 && c.batches[b].outcome.Unsettled?
    requires outcome.Failed? || (outcome.Fetched? && Answered(c.batches[b].keys, MAX_CHUNK_SIZE, outcome.replies))
    ensures CoreInv(Settle(c, b, outcome)) && Evolves(c, Settle(c, b, outcome))
  {
    var n := |c.batches|;
    var d := Settle(c, b, outcome);
    WithoutMembers(c.Active(), b);
    WithoutKeepsLast(c.Active(), b);
    var front := c.Active()[..|c.Active()| - 1];
    WithoutMembers(front, b);
    assert d.Active() == Without(front, b) + [Last(c.Active())];
    assert forall x :: 0 <= x < n && x != b ==> d.batches[x] == c.batches[x];
    assert forall i :: 0 <= i < |d.Active()| ==> d.Active()[i] in d.Active();
    forall i | 0 <= i < |d.Active()| - 1
      ensures d.Active()[i] < |d.batches| - 1 && d.batches[d.Active()[i]].outcome.Unsettled?
    {
      assert d.Active()[i] in Without(front, b);
      assert d.Active()[i] in front;
    }
  }

  lemma SearchStaysOk(c: Core, d: Core, q: Search)
    requires SearchOk(c, q) && Evolves(c, d)
    ensures SearchOk(d, q)
  {
    forall k, v | FromSlot(c, k, v)
      ensures FromSlot(d, k, v)
    {
      var b :| 0 <= b < |c.batches| && SlotOf(c.batches[b], k, v);
      assert BatchEvolves(c.batches[b], d.batches[b]);
      assert SlotOf(d.batches[b], k, v);
    }
    if q.Waiting? {
      assert BatchEvolves(c.batches[q.batch], d.batches[q.batch]);
    }
  }

  /** Whatever a settled batch's record holds came from that key's slot. */
  lemma ResultFromSlot(c: Core, b: nat, key: Key)
    requires BatchesOk(c) && b < |c.batches| && c.batches[b].inFlight
    ensures key in c.batches[b].Result() ==> FromSlot(c, key, c.batches[b].Result()[key])
  {
    var batch := c.batches[b];
    if key in batch.Result() {
      GroupedFromSlots(batch.keys, batch.outcome.replies, key, batch.Result()[key]);
      assert SlotOf(batch, key, batch.Result()[key]);
    }
  }

  lemma VisitKeeps(s: State, id: nat)
    requires Inv(s) && Enabled(s, Visit(id))
    ensures Inv(Apply(s, Visit(id))) && Evolves(s.core, Apply(s, Visit(id)).core)
  {
    var c, q := s.core, s.searches[id];
    var s' := Apply(s, Visit(id));
    var b := c.arrays[q.arr][q.pos];
    if c.batches[b].inFlight {
      DropKeeps(c, b);
      var got := c.batches[b].Result() + q.got;
      forall k | k in got
        ensures FromSlot(c, k, got[k])
      {
        ResultFromSlot(c, b, k);
      }
      assert SearchOk(c, q.(pos := q.pos + 1, got := got));
      SearchStaysOk(c, s'.core, q.(pos := q.pos + 1, got := got));
    }
    forall i | i in s.searches && i != id
      ensures SearchOk(s'.core, s'.searches[i])
    {
      SearchStaysOk(c, s'.core, s.searches[i]);
    }
  }

  lemma EvolvesReflexively(c: Core)
    ensures Evolves(c, c)
  {
    assert forall b :: 0 <= b < |c.batches| ==> BatchEvolves(c.batches[b], c.batches[b]);
  }

  lemma CoreStepKeeps(s: State, e: Event)
    requires Inv(s) && Enabled(s, e) && !e.Visit?
    ensures CoreInv(Apply(s, e).core) && Evolves(s.core, Apply(s, e).core)
  {
    if Apply(s, e).core == s.core {
      EvolvesReflexively(s.core);
    } else {
      match e
      case Begin(_, key, _) => JoinKeeps(s.core, key);
      case Finish(id) => JoinKeeps(s.core, s.searches[id].key);
      case TimerFires => SealKeeps(s.core, Apply(s, e).core);
      case Flush => SealKeeps(s.core, Apply(s, e).core);
      case Complete(b, outcome) => SettleKeeps(s.core, b, outcome);
    }
  }

  /** The search the event is about, after the event. */
  lemma OwnSearchOk(s: State, e: Event)
    requires Inv(s) && Enabled(s, e) && (e.Begin? || e.Finish? || e.Deliver?)
    ensures SearchOk(Apply(s, e).core, Apply(s, e).searches[e.id])
  {
    CoreStepKeeps(s, e);
    if e.Finish? {
      var q := s.searches[e.id];
      if q.key in q.got {
        SearchStaysOk(s.core, Apply(s, e).core, q);
      } else {
        JoinKeeps(s.core, q.key);
      }
    } else if e.Deliver? {
      var q := s.searches[e.id];
      var b := s.core.batches[q.batch];
      if b.inFlight {
        ResultFromSlot(s.core, q.batch, q.key);
      }
    }
  }

  /** Every event keeps the invariant, seals batches for good and settles them once. */
  lemma StepKeeps(s: State, e: Event)
    requires Inv(s) && Enabled(s, e)
    ensures Inv(Apply(s, e)) && Evolves(s.core, Apply(s, e).core)
  {
    if e.Visit? {
      VisitKeeps(s, e.id);
    } else {
      CoreStepKeeps(s, e);
      var s' := Apply(s, e);
      forall i | i in s'.searches
        ensures SearchOk(s'.core, s'.searches[i])
      {
        if (e.Begin? || e.Finish? || e.Deliver?) && i == e.id {
          OwnSearchOk(s, e);
        } else {
          SearchStaysOk(s.core, s'.core, s.searches[i]);
        }
      }
    }
  }

  // ---------------------------------------------------------------------------------------------
  // Runs
  // ---------------------------------------------------------------------------------------------

  function InitialState(): State { State(InitialCore(), map[]) }

  /** The states s0, s1, ... are linked by enabled events. */
  ghost predicate IsRun(states: seq<State>, events: seq<Event>) {
    && |states| == |events| + 1
    && forall i :: 0 <= i < |events| ==>
         states[i].core.Wf() && Enabled(states[i], events[i]) && states[i + 1] == Apply(states[i], events[i])
  }

  lemma EvolvesTransitively(c: Core, d: Core, e: Core)
    requires Evolves(c, d) && Evolves(d, e)
    ensures Evolves(c, e)
  {
    forall b | 0 <= b < |c.batches|
      ensures BatchEvolves(c.batches[b], e.batches[b])
    {
      assert BatchEvolves(c.batches[b], d.batches[b]) && BatchEvolves(d.batches[b], e.batches[b]);
    }
  }

  /**
    In every interleaving of searches, timer fires, flushes and fetch completions, from the initial
    state, each state satisfies the invariant: one open batch and it is the last, all others in
    flight; a timer pending exactly while the open batch has a key; every fetched answer from its
    key's own reply slot.
   */
  lemma {:induction false} RunKeepsInv(states: seq<State>, events: seq<Event>, n: nat)
    requires IsRun(states, events) && Inv(states[0]) && n < |states|
    ensures Inv(states[n])
  {
    if n > 0 {
      RunKeepsInv(states, events, n - 1);
      StepKeeps(states[n - 1], events[n - 1]);
    }
  }

  lemma InitiallyInv()
    ensures Inv(InitialState())
  {
  }

  /** Between any two points of a run, a sealed batch gains no key and a settled one keeps its answer. */
  lemma {:induction false} SealedForGood(states: seq<State>, events: seq<Event>, m: nat, n: nat)
    requires IsRun(states, events) && Inv(states[0]) && m <= n < |states|
    ensures Evolves(states[m].core, states[n].core)
    decreases n
  {
    if m == n {
      EvolvesReflexively(states[m].core);
    } else {
      SealedForGood(states, events, m, n - 1);
      RunKeepsInv(states, events, n - 1);
      StepKeeps(states[n - 1], events[n - 1]);
      EvolvesTransitively(states[m].core, states[n - 1].core, states[n].core);
    }
  }

  /** Every answer a search gives after fetching is the content of its key's slot in some reply. */
  lemma AnswersComeFromTheirSlot(states: seq<State>, events: seq<Event>, n: nat, id: nat)
    requires IsRun(states, events) && states[0] == InitialState() && n < |states|
    requires id in states[n].searches && states[n].searches[id].Done?
    requires states[n].searches[id].answer.Some?
    ensures FromSlot(states[n].core, states[n].searches[id].key, states[n].searches[id].answer.value)
  {
    InitiallyInv();
    RunKeepsInv(states, events, n);
  }

  /** A fetch's completion settles its batch with what was fetched. */
  lemma CompletionSettles(s: State, b: nat, outcome: Outcome)
    requires Inv(s) && Enabled(s, Complete(b, outcome))
    ensures var c := Apply(s, Complete(b, outcome)).core;
      b < |c.batches| && c.batches[b].outcome == outcome && c.batches[b].keys == s.core.batches[b].keys
  {
  }

  lemma OutcomeStep(s: State, e: Event, b: nat)
    requires Inv(s) && Enabled(s, e)
    requires b < |Apply(s, e).core.batches| && !Apply(s, e).core.batches[b].outcome.Unsettled?
    requires forall outcome :: e != Complete(b, outcome)
    ensures b < |s.core.batches| && s.core.batches[b].outcome == Apply(s, e).core.batches[b].outcome
  {
    if e.Complete? {
      assert e.batch != b;
    }
  }

  /** The outcome of a settled batch is the one its own fetch came to. */
  lemma {:induction false} OutcomeIsItsCompletion(states: seq<State>, events: seq<Event>, n: nat, b: nat)
      returns (i: nat)
    requires IsRun(states, events) && states[0] == InitialState() && n < |states|
    requires b < |states[n].core.batches| && !states[n].core.batches[b].outcome.Unsettled?
    ensures i < n && events[i] == Complete(b, states[n].core.batches[b].outcome)
  {
    InitiallyInv();
    RunKeepsInv(states, events, n - 1);
    var e := events[n - 1];
    if e.Complete? && e.batch == b {
      i := n - 1;
      CompletionSettles(states[n - 1], b, e.outcome);
    } else {
      hide Apply, Inv, Enabled;
      OutcomeStep(states[n - 1], e, b);
      i := OutcomeIsItsCompletion(states, events, n - 1, b);
    }
  }

  // Exactly which answer

  /** The batch has settled, and this is what it says about the key, in the key's own slot. */
  ghost predicate SaysOf(b: Batch, key: Key, answer: Option<AccountInfo>) {
    && !b.outcome.Unsettled?
    && (forall a :: answer == Some(a) <==> b.outcome.Fetched? && AnsweredInSlot(b.keys, b.outcome.replies, key, a))
    && (answer == None <==> b.outcome.Failed? || EmptyInSlot(b.keys, b.outcome.replies, key))
  }

  lemma DeliveredAnswer(c: Core, b: nat, key: Key)
    requires BatchesOk(c) && b < |c.batches| && key in c.batches[b].keys && !c.batches[b].outcome.Unsettled?
    ensures SaysOf(c.batches[b], key, Lookup(c.batches[b].Result(), key))
  {
    var batch := c.batches[b];
    if batch.outcome.Fetched? {
      var grouped := Grouped(batch.keys, Flatten(batch.outcome.replies));
      NotGroupedIff(batch.keys, batch.outcome.replies, key);
      forall a
        ensures Lookup(grouped, key) == Some(a) <==> AnsweredInSlot(batch.keys, batch.outcome.replies, key, a)
      {
        GroupedFromSlots(batch.keys, batch.outcome.replies, key, a);
      }
    }
  }

  /** What a batch says does not change. */
  lemma SaysForGood(c: Core, d: Core, b: nat, key: Key, answer: Option<AccountInfo>)
    requires OneOpen(c) && Evolves(c, d) && b < |c.batches| && SaysOf(c.batches[b], key, answer)
    ensures SaysOf(d.batches[b], key, answer)
  {
    assert BatchEvolves(c.batches[b], d.batches[b]);
    assert d.batches[b].keys == c.batches[b].keys && d.batches[b].outcome == c.batches[b].outcome;
  }

  /** This event is a turn of the search's loop that finds a batch in flight. */
  ghost predicate Collects(s: State, e: Event, id: nat)
    requires s.core.Wf() && Enabled(s, e)
  {
    e == Visit(id) && Visited(s, id).inFlight
  }

  ghost function Visited(s: State, id: nat): Batch
    requires s.core.Wf() && Enabled(s, Visit(id))
  {
    s.core.batches[s.core.arrays[s.searches[id].arr][s.searches[id].pos]]
  }

  /** What the key's own slot in the batch's replies holds. */
  ghost function SlotAnswer(b: Batch, key: Key): Option<AccountInfo> {
    if exists a :: SlotOf(b, key, a) then
      var a :| SlotOf(b, key, a);
      Some(a)
    else None
  }

  /** What the first batch that the search collected among the first n events and that has the key holds for it. */
  ghost function Found(states: seq<State>, events: seq<Event>, id: nat, n: nat, key: Key): Option<AccountInfo>
    requires IsRun(states, events) && n <= |events|
  {
    if n == 0 then None
    else
      var earlier := Found(states, events, id, n - 1, key);
      if earlier.Some? || !Collects(states[n - 1], events[n - 1], id) then earlier
      else SlotAnswer(Visited(states[n - 1], id), key)
  }

  lemma SlotAnswerIsResult(c: Core, b: nat, key: Key)
    requires BatchesOk(c) && b < |c.batches| && c.batches[b].inFlight
    ensures SlotAnswer(c.batches[b], key) == Lookup(c.batches[b].Result(), key)
  {
    var batch := c.batches[b];
    if batch.outcome.Fetched? {
      forall a
        ensures SlotOf(batch, key, a) <==> Lookup(batch.Result(), key) == Some(a)
      {
        GroupedFromSlots(batch.keys, batch.outcome.replies, key, a);
      }
      if key in batch.Result() {
        assert SlotOf(batch, key, batch.Result()[key]);
      }
    }
  }

  /** How one event changes what a collecting search has got so far. */
  lemma GotStep(s: State, e: Event, id: nat, key: Key)
    requires Inv(s) && Enabled(s, e) && id in Apply(s, e).searches && Apply(s, e).searches[id].Collecting?
    ensures id !in s.searches ==> Apply(s, e).searches[id].got == map[] && !Collects(s, e, id)
    ensures id in s.searches ==>
      && s.searches[id].Collecting?
      && Lookup(Apply(s, e).searches[id].got, key) ==
           if Lookup(s.searches[id].got, key).Some? || !Collects(s, e, id) then Lookup(s.searches[id].got, key)
           else SlotAnswer(Visited(s, id), key)
  {
    hide SlotAnswer;
    if id in s.searches && Collects(s, e, id) {
      CollectedStep(s, id, key);
    }
  }

  lemma CollectedStep(s: State, id: nat, key: Key)
    requires Inv(s) && Enabled(s, Visit(id)) && Visited(s, id).inFlight
    ensures Apply(s, Visit(id)).searches[id].Collecting?
    ensures Lookup(Apply(s, Visit(id)).searches[id].got, key) ==
      if Lookup(s.searches[id].got, key).Some? then Lookup(s.searches[id].got, key)
      else SlotAnswer(Visited(s, id), key)
  {
    var q := s.searches[id];
    SlotAnswerIsResult(s.core, s.core.arrays[q.arr][q.pos], key);
  }

  /** A collecting search has got, for every key, exactly what was found for it. */
  lemma {:induction false} GotIsFound(states: seq<State>, events: seq<Event>, n: nat, id: nat, key: Key)
    requires IsRun(states, events) && states[0] == InitialState() && n <= |events|
    ensures id !in states[n].searches ==> Found(states, events, id, n, key) == None
    ensures id in states[n].searches && states[n].searches[id].Collecting? ==>
      Lookup(states[n].searches[id].got, key) == Found(states, events, id, n, key)
  {
    if n > 0 {
      hide Inv, SlotAnswer, Lookup;
      GotIsFound(states, events, n - 1, id, key);
      InitiallyInv();
      RunKeepsInv(states, events, n - 1);
      if id in states[n].searches && states[n].searches[id].Collecting? {
        GotStep(states[n - 1], events[n - 1], id, key);
        NothingGot(key);
      }
    }
  }

  lemma NothingGot(key: Key)
    ensures Lookup(map[], key) == None
  {
  }

  /**
    When a search's loop is over, it is answered if and only if a batch it collected holds its key
    in the key's own slot, with what the first such batch holds; otherwise it joins the open batch.
   */
  lemma FinishDecides(states: seq<State>, events: seq<Event>, n: nat, id: nat)
    requires IsRun(states, events) && states[0] == InitialState() && n < |events| && events[n] == Finish(id)
    ensures id in states[n].searches && id in states[n + 1].searches
    ensures var q := states[n].searches[id];
      var found := Found(states, events, id, n, q.key);
      states[n + 1].searches[id] ==
        if found.Some? then Done(q.key, found) else Waiting(q.key, |states[n].core.batches| - 1)
  {
    InitiallyInv();
    RunKeepsInv(states, events, n);
    GotIsFound(states, events, n, id, states[n].searches[id].key);
  }

  lemma WaitingStep(s: State, e: Event, id: nat)
    requires Inv(s) && Enabled(s, e) && id in s.searches && s.searches[id].Waiting?
    ensures var q, s' := s.searches[id], Apply(s, e);
      id in s'.searches &&
      if e == Deliver(id)
      then s'.searches[id].Done? && s'.searches[id].key == q.key
           && SaysOf(s'.core.batches[q.batch], q.key, s'.searches[id].answer)
      else s'.searches[id] == q
  {
    hide SaysOf;
    if e == Deliver(id) {
      var q := s.searches[id];
      assert SearchOk(s.core, q);
      DeliveredAnswer(s.core, q.batch, q.key);
    }
  }

  lemma DoneStep(s: State, e: Event, id: nat)
    requires Inv(s) && Enabled(s, e) && id in s.searches && s.searches[id].Done?
    ensures id in Apply(s, e).searches && Apply(s, e).searches[id] == s.searches[id]
  {
  }

  /** A search that joined a batch is answered, if at all, with exactly what that batch says about its key. */
  lemma {:induction false} WaitingIsAnsweredByItsBatch(
      states: seq<State>, events: seq<Event>, m: nat, n: nat, id: nat)
    requires IsRun(states, events) && states[0] == InitialState() && m <= n < |states|
    requires id in states[m].searches && states[m].searches[id].Waiting?
    ensures id in states[n].searches
    ensures var q, q' := states[m].searches[id], states[n].searches[id];
      || q' == q
      || (q'.Done? && q'.key == q.key && q.batch < |states[n].core.batches|
          && SaysOf(states[n].core.batches[q.batch], q.key, q'.answer))
    decreases n
  {
    if m < n {
      hide SaysOf, Apply, Inv, Evolves, Enabled, SearchOk;
      WaitingIsAnsweredByItsBatch(states, events, m, n - 1, id);
      InitiallyInv();
      RunKeepsInv(states, events, n - 1);
      var q, now := states[m].searches[id], states[n - 1].searches[id];
      if now == q {
        WaitingStep(states[n - 1], events[n - 1], id);
        RunKeepsInv(states, events, n);
        JoinedBatchExists(states[n - 1], events[n - 1], id);
      } else {
        DoneStep(states[n - 1], events[n - 1], id);
        AnswerStays(states[n - 1], events[n - 1], q.batch, q.key, now.answer);
      }
    }
  }

  lemma JoinedBatchExists(s: State, e: Event, id: nat)
    requires Inv(s) && Enabled(s, e) && id in s.searches && s.searches[id].Waiting?
    ensures s.searches[id].batch < |Apply(s, e).core.batches|
  {
    assert SearchOk(s.core, s.searches[id]);
    StepKeeps(s, e);
  }

  lemma AnswerStays(s: State, e: Event, b: nat, key: Key, answer: Option<AccountInfo>)
    requires Inv(s) && Enabled(s, e) && b < |s.core.batches| && SaysOf(s.core.batches[b], key, answer)
    ensures b < |Apply(s, e).core.batches| && SaysOf(Apply(s, e).core.batches[b], key, answer)
  {
    hide SaysOf;
    StepKeeps(s, e);
    SaysForGood(s.core, Apply(s, e).core, b, key, answer);
  }

  /**
    The answer of a search whose loop ended with the f-th event: what the batches it collected hold
    in its key's slot, or else exactly what the batch it then joined says about its key.
   */
  ghost predicate Explained(states: seq<State>, events: seq<Event>, f: nat, n: nat, id: nat)
    requires IsRun(states, events) && n < |states|
  {
    && f < n && events[f] == Finish(id)
    && id in states[n].searches && states[n].searches[id].Done?
    && var q, answer := states[f].searches[id], states[n].searches[id].answer;
       var found, joined := Found(states, events, id, f, q.key), |states[f].core.batches| - 1;
    && states[n].searches[id].key == q.key
    && if found.Some? then answer == found
       else 0 <= joined < |states[n].core.batches| && SaysOf(states[n].core.batches[joined], q.key, answer)
  }

  /** Every answered search has exactly that answer, in every run. */
  lemma {:induction false} EveryAnswerIsExplained(states: seq<State>, events: seq<Event>, n: nat, id: nat)
      returns (f: nat)
    requires IsRun(states, events) && states[0] == InitialState() && n < |states|
    requires id in states[n].searches && states[n].searches[id].Done?
    ensures Explained(states, events, f, n, id)
  {
    hide SaysOf, Found, Apply, Inv;
    f := FinishedAt(states, events, n, id);
    FinishDecides(states, events, f, id);
    if states[f + 1].searches[id].Waiting? {
      WaitingIsAnsweredByItsBatch(states, events, f + 1, n, id);
    } else {
      DoneForGood(states, events, f + 1, n, id);
    }
  }

  /** A search that is past its loop has had its Finish event. */
  lemma {:induction false} FinishedAt(states: seq<State>, events: seq<Event>, n: nat, id: nat) returns (f: nat)
    requires IsRun(states, events) && states[0] == InitialState() && n < |states|
    requires id in states[n].searches && !states[n].searches[id].Collecting?
    ensures f < n && events[f] == Finish(id)
  {
    if id in states[n - 1].searches && !states[n - 1].searches[id].Collecting? {
      f := FinishedAt(states, events, n - 1, id);
    } else {
      f := n - 1;
    }
  }

  lemma {:induction false} DoneForGood(states: seq<State>, events: seq<Event>, m: nat, n: nat, id: nat)
    requires IsRun(states, events) && states[0] == InitialState() && m <= n < |states|
    requires id in states[m].searches && states[m].searches[id].Done?
    ensures id in states[n].searches && states[n].searches[id] == states[m].searches[id]
    decreases n
  {
    if m < n {
      hide Apply, Inv, Enabled;
      DoneForGood(states, events, m, n - 1, id);
      InitiallyInv();
      RunKeepsInv(states, events, n - 1);
      DoneStep(states[n - 1], events[n - 1], id);
    }
  }

  /** A forced search asks anew at once: its key is in the open batch, and a timer is pending for it. */
  lemma ForcedSearchAsksAnew(s: State, id: nat, key: Key)
    requires Inv(s) && Enabled(s, Begin(id, key, true))
    ensures var c := Apply(s, Begin(id, key, true)).core;
      key in c.batches[|c.batches| - 1].keys && c.timer
  {
    JoinKeeps(s.core, key);
  }

  /** Only keys that some search asked for are ever in a batch. */
  ghost predicate AllAsked(s: State) {
    forall b, k :: 0 <= b < |s.core.batches| && k in s.core.batches[b].keys ==> Asked(s, k)
  }

  ghost predicate Asked(s: State, key: Key) {
    exists id :: id in s.searches && s.searches[id].key == key
  }

  lemma AskedForGood(s: State, e: Event, key: Key)
    requires s.core.Wf() && Enabled(s, e) && Asked(s, key)
    ensures Asked(Apply(s, e), key)
  {
    var id :| id in s.searches && s.searches[id].key == key;
    assert id in Apply(s, e).searches && Apply(s, e).searches[id].key == key;
  }

  lemma AskedStep(s: State, e: Event)
    requires Inv(s) && Enabled(s, e) && AllAsked(s)
    ensures AllAsked(Apply(s, e))
  {
    var s' := Apply(s, e);
    forall b, k | 0 <= b < |s'.core.batches| && k in s'.core.batches[b].keys
      ensures Asked(s', k)
    {
      if b < |s.core.batches| && k in s.core.batches[b].keys {
        AskedForGood(s, e, k);
      } else {
        assert e.Begin? || e.Finish?;
        assert s'.searches[e.id].key == k;
      }
    }
  }

  lemma {:induction false} BatchKeysWereAsked(states: seq<State>, events: seq<Event>, n: nat)
    requires IsRun(states, events) && states[0] == InitialState() && n < |states|
    ensures AllAsked(states[n])
  {
    if n > 0 {
      hide Inv, AllAsked, Apply, Enabled;
      BatchKeysWereAsked(states, events, n - 1);
      InitiallyInv();
      RunKeepsInv(states, events, n - 1);
      AskedStep(states[n - 1], events[n - 1]);
    }
  }

  /** A search that joined a batch is never forgotten: its batch has settled, is being fetched, or has a timer. */
  lemma WaitingIsServed(states: seq<State>, events: seq<Event>, n: nat, id: nat)
    requires IsRun(states, events) && states[0] == InitialState() && n < |states|
    requires id in states[n].searches && states[n].searches[id].Waiting?
    ensures var c, b := states[n].core, states[n].searches[id].batch;
      && c.Wf() && b < |c.batches|
      && (|| Enabled(states[n], Deliver(id)) || Enabled(states[n], Complete(b, Failed))
          || (!c.batches[b].inFlight && c.timer))
  {
    InitiallyInv();
    RunKeepsInv(states, events, n);
    var q := states[n].searches[id];
    assert q.key in states[n].core.batches[q.batch].keys;
  }

  // ---------------------------------------------------------------------------------------------
  // A flush of an empty open batch seals a batch that nothing ever settles
  // ---------------------------------------------------------------------------------------------

  ghost predicate Stuck(c: Core, b: nat) {
    b < |c.batches| && c.batches[b].inFlight && c.batches[b].outcome.Unsettled? && c.batches[b].keys == []
  }

  ghost predicate FlushesNothing(s: State, e: Event)
    requires s.core.Wf()
  {
    e.Flush? && s.core.batches[|s.core.batches| - 1].keys == []
  }

  /** An event leaves a new stuck batch behind exactly when it is a flush of an empty open batch. */
  lemma StuckIffEmptyFlush(s: State, e: Event)
    requires Inv(s) && Enabled(s, e)
    ensures FlushesNothing(s, e) <==>
      exists b: nat :: Stuck(Apply(s, e).core, b) && !Stuck(s.core, b)
  {
    var c, d := s.core, Apply(s, e).core;
    var open := |c.batches| - 1;
    StepKeeps(s, e);
    if FlushesNothing(s, e) {
      assert Stuck(d, open) && !Stuck(c, open);
    } else {
      forall b: nat | Stuck(d, b)
        ensures Stuck(c, b)
      {
        if b < |c.batches| {
          assert BatchEvolves(c.batches[b], d.batches[b]);
        }
      }
    }
  }

  lemma StaysStuck(s: State, e: Event, b: nat)
    requires Inv(s) && Enabled(s, e) && Stuck(s.core, b)
    ensures Stuck(Apply(s, e).core, b)
  {
    StepKeeps(s, e);
    assert BatchEvolves(s.core.batches[b], Apply(s, e).core.batches[b]);
  }

  /** The search is collecting what is in flight, and its loop has not got past this batch. */
  ghost predicate StillBefore(s: State, id: nat, b: nat) {
    && id in s.searches && s.searches[id].Collecting?
    && s.searches[id].arr < |s.core.arrays|
    && exists j :: s.searches[id].pos <= j < |s.core.arrays[s.searches[id].arr]|
         && s.core.arrays[s.searches[id].arr][j] == b
  }

  /** A search that begins while a batch is stuck has that batch before it. */
  lemma BeginsBefore(s: State, e: Event, b: nat)
    requires Inv(s) && Enabled(s, e) && e.Begin? && Stuck(s.core, b)
    ensures StillBefore(Apply(s, e), e.id, b)
  {
    assert b in s.core.Active();
    var j :| 0 <= j < |s.core.Active()| && s.core.Active()[j] == b;
    assert Apply(s, e).core.arrays == s.core.arrays;
    assert Apply(s, e).core.arrays[s.core.current][j] == b;
  }

  /** No event lets a search's loop past a stuck batch. */
  lemma StuckSearchStays(s: State, e: Event, id: nat, b: nat)
    requires Inv(s) && Enabled(s, e) && Stuck(s.core, b) && StillBefore(s, id, b)
    ensures StillBefore(Apply(s, e), id, b)
  {
    var q, s' := s.searches[id], Apply(s, e);
    var j :| q.pos <= j < |s.core.arrays[q.arr]| && s.core.arrays[q.arr][j] == b;
    StepKeeps(s, e);
    assert s.core.arrays[q.arr] <= s'.core.arrays[q.arr];
    assert s'.core.arrays[q.arr][j] == b;
    if e.Visit? && e.id == id {
      assert s'.searches[id].pos == q.pos + 1 && q.pos != j;
    } else {
      assert s'.searches[id] == q;
    }
  }

  /** A search whose loop has such a batch before it never gets past it, whatever happens. */
  lemma {:induction false} StuckSearchHangs(states: seq<State>, events: seq<Event>, m: nat, n: nat, id: nat, b: nat)
    requires IsRun(states, events) && Inv(states[0]) && m <= n < |states|
    requires Stuck(states[m].core, b) && StillBefore(states[m], id, b)
    ensures StillBefore(states[n], id, b) && Stuck(states[n].core, b)
    decreases n
  {
    if m < n {
      hide Inv, Enabled, Stuck, Apply, StillBefore;
      StuckSearchHangs(states, events, m, n - 1, id, b);
      RunKeepsInv(states, events, n - 1);
      StaysStuck(states[n - 1], events[n - 1], b);
      StuckSearchStays(states[n - 1], events[n - 1], id, b);
    }
  }

  /** The search is neither answered nor waiting for a batch of its own. */
  ghost predicate Hangs(s: State, id: nat) {
    id in s.searches && s.searches[id].Collecting?
  }

  /**
    After a flush of an empty open batch, no search that has to fetch is ever answered: in every
    continuation of every run it is still collecting what is in flight.
   */
  lemma EmptyFlushHangsSearches(states: seq<State>, events: seq<Event>, flush: nat, begin: nat, n: nat)
    requires IsRun(states, events) && states[0] == InitialState() && flush < begin < n < |states|
    requires FlushesNothing(states[flush], events[flush]) && events[begin].Begin?
    ensures Hangs(states[n], events[begin].id)
  {
    InitiallyInv();
    var open := |states[flush].core.batches| - 1;
    RunKeepsInv(states, events, flush);
    assert Stuck(states[flush + 1].core, open);
    StuckForever(states, events, flush + 1, begin, open);
    RunKeepsInv(states, events, begin);
    BeginsBefore(states[begin], events[begin], open);
    StaysStuck(states[begin], events[begin], open);
    StuckSearchHangs(states, events, begin + 1, n, events[begin].id, open);
  }

  /** A stuck batch stays unsettled in every continuation. */
  lemma {:induction false} StuckForever(states: seq<State>, events: seq<Event>, m: nat, n: nat, b: nat)
    requires IsRun(states, events) && Inv(states[0]) && m <= n < |states| && Stuck(states[m].core, b)
    ensures Stuck(states[n].core, b)
    decreases n
  {
    if m < n {
      hide Inv, Enabled, Stuck, Apply;
      StuckForever(states, events, m, n - 1, b);
      RunKeepsInv(states, events, n - 1);
      StaysStuck(states[n - 1], events[n - 1], b);
    }
  }

  /** For example, flushing before anything was asked for: the first search begun then hangs for good. */
  lemma FlushOnFreshCacheHangs() returns (states: seq<State>, events: seq<Event>)
    ensures IsRun(states, events) && states[0] == InitialState()
    ensures events == [Flush, Begin(0, "key", false)]
    ensures forall ss, es, n :: IsRun(ss, es) && states <= ss && events <= es && 2 <= n < |ss| ==> Hangs(ss[n], 0)
  {
    events := [Flush, Begin(0, "key", false)];
    InitiallyInv();
    var s0 := InitialState();
    var s1 := Apply(s0, Flush);
    StepKeeps(s0, Flush);
    var s2 := Apply(s1, events[1]);
    states := [s0, s1, s2];
    forall ss, es, n | IsRun(ss, es) && states <= ss && events <= es && 2 <= n < |ss|
      ensures Hangs(ss[n], 0)
    {
      assert ss[0] == s0 && es[0] == Flush && es[1] == events[1];
      EmptyFlushHangsSearches(ss, es, 0, 1, n);
    }
  }

  // ---------------------------------------------------------------------------------------------
  // The program
  // ---------------------------------------------------------------------------------------------

  class AccountFetchCache {
    var batches: seq<Batch>
    var arrays: seq<seq<nat>>
    var current: nat
    var timer: bool

    ghost function Abs(): Core
      reads this
    {
      Core(batches, arrays, current, timer)
    }

    constructor ()
      ensures Abs() == InitialCore()
    {
      batches, arrays, current, timer := [EmptyBatch], [[0]], 0, false;
    }

    method AddToBatch(key: Key) returns (batcher: nat)
      requires CoreInv(Abs())
      modifies this
      ensures Abs() == Join(old(Abs()), key) && CoreInv(Abs())
      ensures batcher == |batches| - 1 && key in batches[batcher].keys
    {
      JoinKeeps(Abs(), key);
      var active := arrays[current];
      batcher := active[|active| - 1];
      batches := batches[batcher := batches[batcher].(keys := AddKey(batches[batcher].keys, key))];
      DebounceFetchBatch();
    }

    method DebounceFetchBatch()
      modifies this`timer
      ensures timer
    {
      timer := false;  // clearTimeout
      timer := true;   // setTimeout
    }

    /** fetchBatch up to its first await; the pending timer has fired or was cleared by the caller. */
    method FetchBatch() returns (batcher: nat)
      requires CoreInv(Abs().(timer := batches != [] && batches[|batches| - 1].keys != []))
      requires !timer
      modifies this
      ensures Abs() == Seal(old(Abs())) && CoreInv(Abs())
      ensures batcher == old(|batches|) - 1
    {
      SealKeeps(Abs().(timer := batches != [] && batches[|batches| - 1].keys != []), Seal(Abs()));
      var active := arrays[current];
      batcher := active[|active| - 1];
      arrays := arrays[current := active + [|batches|]];
      batches := batches + [EmptyBatch];
      batches := batches[batcher := batches[batcher].(inFlight := true)];
    }

    method FlushBatch() returns (batcher: nat)
      requires CoreInv(Abs())
      modifies this
      ensures Abs() == Seal(old(Abs()).(timer := false)) && CoreInv(Abs())
    {
      timer := false;
      batcher := FetchBatch();
    }

    /** The rest of fetchBatch, once the accounts are in or the call has thrown. */
    method FinishFetch(batcher: nat, outcome: Outcome)
      requires CoreInv(Abs()) && batcher < |batches| - 1 && batches[batcher].outcome.Unsettled?
      requires outcome.Failed? ||
        (outcome.Fetched? && Answered(batches[batcher].keys, MAX_CHUNK_SIZE, outcome.replies))
      modifies this
      ensures Abs() == Settle(old(Abs()), batcher, outcome) && CoreInv(Abs())
    {
      SettleKeeps(Abs(), batcher, outcome);
      batches := batches[batcher := batches[batcher].(outcome := outcome)];
      arrays := arrays + [Without(arrays[current], batcher)];
      current := |arrays| - 1;
    }
  }

  /** How the fetch of these keys comes out against an endpoint. */
  ghost function FetchOutcome(rpc: Rpc<Key, AccountInfo>, keys: seq<Key>): Outcome {
    var chunks := Chunks(keys, MAX_CHUNK_SIZE);
    if forall c :: 0 <= c < |chunks| ==> rpc(c, chunks[c]).Some? then Fetched(RepliesOf(rpc, chunks)) else Failed
  }

  /** The fetch between the two halves of fetchBatch, with its catch. */
  method FetchGrouped(rpc: Rpc<Key, AccountInfo>, keys: seq<Key>) returns (grouped: map<Key, AccountInfo>)
    ensures grouped == Batch(keys, true, FetchOutcome(rpc, keys)).Result()
  {
    var accounts := GetMultipleAccounts(rpc, keys);
    if accounts.Some? {
      grouped := Grouped(keys, accounts.value);
    } else {
      grouped := map[];
    }
  }
}
