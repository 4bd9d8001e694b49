/**
  Watching accounts in packages/account-fetch-cache/src/accountFetchCache.ts: watch counts the
  watchers of an address, subscribes on the connection (or polls an account that does not exist)
  and returns a disposer; delete drops a cached account and its subscription.
 */
module Watchers {
  import opened Common

  type Address = string
  type Parser = string

  datatype State = State(
    counts: map<Address, int>,                // accountWatchersCount
    listeners: map<Address, nat>,             // accountChangeListeners: the subscription id
    missing: map<Address, Option<Parser>>,    // missingAccounts: polled until they exist
    statics: set<Address>,
    cached: set<Address>,                     // keys of genericCache
    subscriptions: map<nat, Address>,         // what the connection is subscribed to
    disposers: map<nat, Address>,             // disposers handed out and not yet called
    failures: map<Address, nat>)              // watch calls that threw, so gave no disposer

  const Initial := State(map[], map[], map[], {}, {}, map[], map[], map[])

  function Count<T>(m: map<T, int>, a: T): int { if a in m then m[a] else 0 }

  function Failures(s: State, a: Address): nat { if a in s.failures then s.failures[a] else 0 }

  datatype Event =
    | Watch(address: Address, parser: Option<Parser>, exists_: bool, disposer: nat, subscribed: Option<nat>)
    | Dispose(disposer: nat)
    | Delete(address: Address)
    | SetStatic(address: Address, isStatic: bool)  // done by search
    | Cache(address: Address)                      // updateCache
    | Found(address: Address)                      // a polled account turned up

  /** Does this watch call open a subscription? */
  predicate Subscribes(s: State, address: Address, exists_: bool) {
    exists_ && address !in s.statics && address !in s.listeners
  }

  /**
    Disposers are called at most once.  The connection never reuses a live subscription id; a
    watch's subscribed field is what the connection answered, None when it threw.
   */
  ghost predicate Enabled(s: State, e: Event) {
    match e
    case Watch(_, _, _, d, sub) => d !in s.disposers && (sub.Some? ==> sub.value !in s.subscriptions)
    case Dispose(d) => d in s.disposers
    case _ => true
  }

  function Unsubscribe(s: State, a: Address): State {
    if a in s.listeners && s.listeners[a] != 0 then  // the source tests the id for truth
      s.(listeners := s.listeners - {a}, subscriptions := s.subscriptions - {s.listeners[a]})
    else s
  }

  function WatchStep(s: State, a: Address, parser: Option<Parser>, exists_: bool, d: nat, sub: Option<nat>): State {
    var opens := Subscribes(s, a, exists_);
    var counts := s.counts[a := Count(s.counts, a) + 1];
    if opens && sub.None? then  // the connection threw: the count stays raised, nobody gets a disposer
      s.(counts := counts, failures := s.failures[a := Failures(s, a) + 1])
    else
      State(counts,
            if opens then s.listeners[a := sub.value] else s.listeners,
            if exists_ then s.missing else s.missing[a := KeptParser(s.missing, a, parser)],
            s.statics, s.cached,
            if opens then s.subscriptions[sub.value := a] else s.subscriptions,
            s.disposers[d := a],
            s.failures)
  }

  function KeptParser(missing: map<Address, Option<Parser>>, a: Address, parser: Option<Parser>): Option<Parser> {
    if parser.None? && a in missing then missing[a] else parser
  }

  function DisposeStep(s: State, d: nat): State
    requires d in s.disposers
  {
    var a := s.disposers[d];
    var count := Count(s.counts, a) - 1;
    var s1 := s.(counts := s.counts[a := count], disposers := s.disposers - {d});
    if count <= 0 then Unsubscribe(s1, a).(missing := s.missing - {a}) else s1
  }

  function Apply(s: State, e: Event): State
    requires e.Dispose? ==> e.disposer in s.disposers
  {
    match e
    case Watch(a, parser, exists_, d, sub) => WatchStep(s, a, parser, exists_, d, sub)
    case Dispose(d) => DisposeStep(s, d)
    case Delete(a) => Unsubscribe(s, a).(cached := s.cached - {a})
    case SetStatic(a, isStatic) => s.(statics := if isStatic then s.statics + {a} else s.statics - {a})
    case Cache(a) => s.(cached := s.cached + {a})
    case Found(a) => s.(missing := s.missing - {a})
  }

  // ---------------------------------------------------------------------------------------------
  // The invariant
  // ---------------------------------------------------------------------------------------------

  /** The live disposers of an address. */
  ghost function Owned(disposers: map<nat, Address>, a: Address): set<nat> {
    set d | d in disposers && disposers[d] == a
  }

  ghost predicate CountedAt(s: State, a: Address) {
    Count(s.counts, a) == |Owned(s.disposers, a)| + Failures(s, a)
  }

  ghost predicate Counted(s: State) {
    forall a :: CountedAt(s, a)
  }

  /** The map and the connection agree, so an address has at most one live subscription. */
  ghost predicate Synced(s: State) {
    && (forall a :: a in s.listeners ==> s.listeners[a] in s.subscriptions && s.subscriptions[s.listeners[a]] == a)
    && (forall id :: id in s.subscriptions ==>
          s.subscriptions[id] in s.listeners && s.listeners[s.subscriptions[id]] == id)
  }

  /** An address whose count is zero is not polled, and not subscribed unless under id zero. */
  ghost predicate ReleasedAt(s: State, a: Address) {
    Count(s.counts, a) <= 0 ==> a !in s.missing && (a in s.listeners ==> s.listeners[a] == 0)
  }

  ghost predicate Released(s: State) {
    forall a :: ReleasedAt(s, a)
  }

  ghost predicate Inv(s: State) {
    Counted(s) && Synced(s) && Released(s)
  }

  lemma OwnedAdd(m: map<nat, Address>, d: nat, a: Address, b: Address)
    requires d !in m
    ensures |Owned(m[d := a], b)| == |Owned(m, b)| + if a == b then 1 else 0
  {
    assert Owned(m[d := a], b) == Owned(m, b) + if a == b then {d} else {};
  }

  lemma OwnedRemove(m: map<nat, Address>, d: nat, b: Address)
    requires d in m
    ensures |Owned(m - {d}, b)| == |Owned(m, b)| - if m[d] == b then 1 else 0
  {
    assert Owned(m - {d}, b) == Owned(m, b) - if m[d] == b then {d} else {};
    assert m[d] == b ==> d in Owned(m, b);
  }

  lemma UnsubscribeKeepsSynced(s: State, a: Address)
    requires Synced(s)
    ensures Synced(Unsubscribe(s, a))
  {
  }

  lemma WatchKeepsSynced(s: State, e: Event)
    requires Synced(s) && Enabled(s, e) && e.Watch?
    ensures Synced(Apply(s, e))
  {
    var s' := Apply(s, e);
    if Subscribes(s, e.address, e.exists_) && e.subscribed.Some? {
      assert s'.listeners == s.listeners[e.address := e.subscribed.value];
      assert s'.subscriptions == s.subscriptions[e.subscribed.value := e.address];
    } else {
      assert s'.listeners == s.listeners && s'.subscriptions == s.subscriptions;
    }
  }

  lemma WatchKeepsAt(s: State, e: Event, a: Address)
    requires Enabled(s, e) && e.Watch? && CountedAt(s, a) && ReleasedAt(s, a)
    ensures CountedAt(Apply(s, e), a) && ReleasedAt(Apply(s, e), a)
  {
    hide Owned;
    OwnedAdd(s.disposers, e.disposer, e.address, a);
    var s' := Apply(s, e);
    if a != e.address {
      assert Count(s'.counts, a) == Count(s.counts, a) && Failures(s', a) == Failures(s, a);
      assert a in s'.missing <==> a in s.missing;
      assert a in s'.listeners <==> a in s.listeners;
    }
  }

  lemma WatchKeeps(s: State, e: Event)
    requires Inv(s) && Enabled(s, e) && e.Watch?
    ensures Inv(Apply(s, e))
  {
    WatchKeepsSynced(s, e);
    forall a
      ensures CountedAt(Apply(s, e), a) && ReleasedAt(Apply(s, e), a)
    {
      assert CountedAt(s, a) && ReleasedAt(s, a);
      WatchKeepsAt(s, e, a);
    }
  }

  lemma DisposeKeepsAt(s: State, d: nat, a: Address)
    requires d in s.disposers && CountedAt(s, a) && ReleasedAt(s, a)
    ensures CountedAt(DisposeStep(s, d), a) && ReleasedAt(DisposeStep(s, d), a)
  {
    OwnedRemove(s.disposers, d, a);
    var s' := DisposeStep(s, d);
    if a != s.disposers[d] {
      assert Count(s'.counts, a) == Count(s.counts, a) && Failures(s', a) == Failures(s, a);
      assert a in s'.missing <==> a in s.missing;
      assert a in s'.listeners <==> a in s.listeners;
    }
  }

  lemma DisposeKeeps(s: State, d: nat)
    requires Inv(s) && d in s.disposers
    ensures Inv(DisposeStep(s, d))
  {
    var s' := DisposeStep(s, d);
    UnsubscribeKeepsSynced(s, s.disposers[d]);
    var u := Unsubscribe(s, s.disposers[d]);
    assert (s'.listeners == s.listeners && s'.subscriptions == s.subscriptions) ||
           (s'.listeners == u.listeners && s'.subscriptions == u.subscriptions);
    forall a
      ensures CountedAt(s', a) && ReleasedAt(s', a)
    {
      assert CountedAt(s, a) && ReleasedAt(s, a);
      DisposeKeepsAt(s, d, a);
    }
  }

  lemma OtherKeeps(s: State, e: Event)
    requires Inv(s) && !e.Watch? && !e.Dispose?
    ensures Inv(Apply(s, e))
  {
    if e.Delete? {
      UnsubscribeKeepsSynced(s, e.address);
    }
    forall a
      ensures CountedAt(Apply(s, e), a) && ReleasedAt(Apply(s, e), a)
    {
      assert CountedAt(s, a) && ReleasedAt(s, a);
    }
  }

  lemma StepKeeps(s: State, e: Event)
    requires Inv(s) && Enabled(s, e)
    ensures Inv(Apply(s, e))
  {
    if e.Watch? {
      WatchKeeps(s, e);
    } else if e.Dispose? {
      DisposeKeeps(s, e.disposer);
    } else {
      OtherKeeps(s, e);
    }
  }

  // ---------------------------------------------------------------------------------------------
  // Runs
  // ---------------------------------------------------------------------------------------------

  ghost predicate IsRun(s: State, events: seq<Event>)
    decreases |events|
  {
    events == [] || (Enabled(s, events[0]) && IsRun(Apply(s, events[0]), events[1..]))
  }

  ghost function Run(s: State, events: seq<Event>): State
    requires IsRun(s, events)
    decreases |events|
  {
    if events == [] then s else Run(Apply(s, events[0]), events[1..])
  }

  /** No watch call threw on subscribing, and no subscription was given id zero. */
  ghost predicate WellServed(events: seq<Event>) {
    forall i :: 0 <= i < |events| && events[i].Watch? ==> events[i].subscribed.Some? && events[i].subscribed.value != 0
  }

  ghost predicate Clean(s: State) {
    && (forall a :: Failures(s, a) == 0)
    && (forall a :: a in s.listeners ==> s.listeners[a] != 0)
  }

  lemma StepKeepsClean(s: State, e: Event)
    requires Clean(s) && Enabled(s, e)
    requires e.Watch? ==> e.subscribed.Some? && e.subscribed.value != 0
    ensures Clean(Apply(s, e))
  {
    assert Apply(s, e).failures == s.failures;
    forall a
      ensures Failures(Apply(s, e), a) == 0
    {
      assert Failures(s, a) == 0;
    }
  }

  lemma {:induction false} RunKeeps(s: State, events: seq<Event>)
    requires Inv(s) && IsRun(s, events)
    ensures Inv(Run(s, events))
    ensures Clean(s) && WellServed(events) ==> Clean(Run(s, events))
    decreases |events|
  {
    if events != [] {
      StepKeeps(s, events[0]);
      RunKeeps(Apply(s, events[0]), events[1..]);
      if Clean(s) && WellServed(events) {
        StepKeepsClean(s, events[0]);
        assert forall i :: 0 <= i < |events[1..]| ==> events[1..][i] == events[i + 1];
      }
    }
  }

  /** The address has no live disposer. */
  ghost predicate Unwatched(s: State, a: Address) {
    forall d :: d in s.disposers ==> s.disposers[d] != a
  }

  /**
    In every run of watches, disposals (each at most once) and deletes: the count of an address is
    the number of its live disposers plus the watch calls that threw; the connection holds exactly
    the subscriptions in the map, one per address.  An address without a live disposer can have a
    subscription only if its id is zero or a watch of the address threw, and a polling entry only
    if a watch of it threw; so with no throw and no zero id it has neither.
   */
  lemma WatchersAreTracked(events: seq<Event>, a: Address)
    requires IsRun(Initial, events)
    ensures var s := Run(Initial, events);
      && Count(s.counts, a) == |Owned(s.disposers, a)| + Failures(s, a)
      && Synced(s)
      && (Unwatched(s, a) ==>
            && (a in s.listeners ==> s.listeners[a] == 0 || Failures(s, a) > 0)
            && (a in s.missing ==> Failures(s, a) > 0))
      && (WellServed(events) ==>
            && Count(s.counts, a) == |Owned(s.disposers, a)|
            && (Unwatched(s, a) ==> a !in s.listeners && a !in s.missing && a !in s.subscriptions.Values))
  {
    assert Inv(Initial) by {
      assert forall b :: Owned(Initial.disposers, b) == {};
    }
    RunKeeps(Initial, events);
    var s := Run(Initial, events);
    assert CountedAt(s, a) && ReleasedAt(s, a);
    if Unwatched(s, a) {
      assert Owned(s.disposers, a) == {};
    }
    if WellServed(events) {
      assert Clean(s) && Failures(s, a) == 0;
    }
  }

  /**
    When the last live disposer of an address is called, its subscription survives exactly when
    the id is zero or an earlier watch of the address threw, and its polling entry exactly when an
    earlier watch of the address threw.
   */
  lemma LastDisposeLeaksIff(s: State, d: nat)
    requires Inv(s) && d in s.disposers
    requires Owned(s.disposers, s.disposers[d]) == {d}
    ensures var a, s' := s.disposers[d], DisposeStep(s, d);
      && Unwatched(s', a)
      && (a in s'.listeners <==> a in s.listeners && (s.listeners[a] == 0 || Failures(s, a) > 0))
      && (a in s'.missing <==> a in s.missing && Failures(s, a) > 0)
  {
    var a, s' := s.disposers[d], DisposeStep(s, d);
    assert CountedAt(s, a);
    forall x | x in s'.disposers
      ensures s'.disposers[x] != a
    {
      assert x in Owned(s.disposers, a) <==> s.disposers[x] == a;
    }
  }

  /** Nobody watches the address any more, but it is still subscribed or polled. */
  ghost predicate Leaked(s: State, a: Address) {
    Unwatched(s, a) && (a in s.listeners || a in s.missing)
  }

  /** Calling this disposer takes the address's last watcher away and leaves something behind. */
  ghost predicate LeavesBehind(s: State, d: nat, a: Address) {
    && d in s.disposers && Owned(s.disposers, a) == {d}
    && if Failures(s, a) > 0 then a in s.listeners || a in s.missing else a in s.listeners && s.listeners[a] == 0
  }

  /** No other event leaks: an address is leaked anew exactly by such a call of its last disposer. */
  lemma LeakIffLastDispose(s: State, e: Event, a: Address)
    requires Inv(s) && Enabled(s, e)
    ensures !Leaked(s, a) && Leaked(Apply(s, e), a) <==> e.Dispose? && LeavesBehind(s, e.disposer, a)
  {
    var s' := Apply(s, e);
    if e.Dispose? && s.disposers[e.disposer] == a {
      assert e.disposer in Owned(s.disposers, a);
      if Owned(s.disposers, a) == {e.disposer} {
        LastDisposeLeaksIff(s, e.disposer);
      } else {
        var d :| d in Owned(s.disposers, a) && d != e.disposer;
        assert d in s'.disposers && s'.disposers[d] == a;
      }
    } else if e.Dispose? {
      OtherStaysWatched(s, e.disposer, a);
    } else if e.Watch? {
      WatchLeaksNothing(s, e, a);
    } else {
      assert s'.disposers == s.disposers && (a in s'.listeners ==> a in s.listeners);
      assert a in s'.missing ==> a in s.missing;
    }
  }

  lemma OtherStaysWatched(s: State, d: nat, a: Address)
    requires d in s.disposers && s.disposers[d] != a
    ensures Leaked(DisposeStep(s, d), a) <==> Leaked(s, a)
    ensures d !in Owned(s.disposers, a)
  {
    var s' := DisposeStep(s, d);
    assert forall x :: x in s'.disposers <==> x in s.disposers && x != d;
    assert a in s'.listeners <==> a in s.listeners;
    assert a in s'.missing <==> a in s.missing;
  }

  lemma WatchLeaksNothing(s: State, e: Event, a: Address)
    requires Enabled(s, e) && e.Watch?
    ensures Leaked(Apply(s, e), a) ==> Leaked(s, a)
  {
    var s' := Apply(s, e);
    if Leaked(s', a) {
      assert forall x :: x in s.disposers ==> x in s'.disposers && s'.disposers[x] == s.disposers[x];
      if e.disposer in s'.disposers {
        assert s'.disposers[e.disposer] == e.address && e.address != a;
      }
      assert a in s'.listeners ==> a in s.listeners;
      assert a in s'.missing ==> a in s.missing;
    }
  }

  lemma RunOfThree(s: State, a: Event, b: Event, c: Event, s1: State, s2: State)
    requires Enabled(s, a) && s1 == Apply(s, a)
    requires Enabled(s1, b) && s2 == Apply(s1, b)
    requires Enabled(s2, c)
    ensures IsRun(s, [a, b, c]) && Run(s, [a, b, c]) == Apply(s2, c)
  {
    var events := [a, b, c];
    var last: seq<Event> := [c];
    assert events[1..] == [b, c] && [b, c][1..] == last && last[1..] == [];
    var s3 := Apply(s2, c);
    assert IsRun(s3, []) && IsRun(s2, last) && Run(s2, last) == Run(s3, []) == s3;
    assert IsRun(s1, [b, c]) && Run(s1, [b, c]) == Run(s2, last);
  }

  /** After a watch that threw, the next watcher's subscription outlives it, whatever its id. */
  lemma ThrownWatchLeaksSubscription()
    ensures var events := [Watch("a", None, true, 0, None), Watch("a", None, true, 1, Some(5)), Dispose(1)];
      IsRun(Initial, events) &&
      var s := Run(Initial, events);
      s.disposers == map[] && "a" in s.listeners && s.subscriptions == map[5 := "a"]
  {
    var failed, second := Watch("a", None, true, 0, None), Watch("a", None, true, 1, Some(5));
    var s1 := Apply(Initial, failed);
    var s2 := Apply(s1, second);
    assert s1.counts == map["a" := 1] && s2.counts == map["a" := 2];
    assert s2.disposers == map[1 := "a"] && s2.subscriptions == map[5 := "a"];
    RunOfThree(Initial, failed, second, Dispose(1), s1, s2);
    assert Apply(s2, Dispose(1)).disposers == map[];
  }

  /** The same for the polling entry of an account that does not exist. */
  lemma ThrownWatchLeaksPolling()
    ensures var events := [Watch("a", None, true, 0, None), Watch("a", None, false, 1, None), Dispose(1)];
      IsRun(Initial, events) &&
      var s := Run(Initial, events);
      s.disposers == map[] && "a" in s.missing
  {
    var failed, second := Watch("a", None, true, 0, None), Watch("a", None, false, 1, None);
    var s1 := Apply(Initial, failed);
    var s2 := Apply(s1, second);
    assert s1.counts == map["a" := 1] && s2.counts == map["a" := 2];
    assert s2.disposers == map[1 := "a"];
    RunOfThree(Initial, failed, second, Dispose(1), s1, s2);
    assert Apply(s2, Dispose(1)).disposers == map[];
  }

  /** A first subscription with id zero outlives its only watcher. */
  lemma IdZeroLeaks()
    ensures var events := [Watch("a", None, true, 0, Some(0)), Dispose(0)];
      IsRun(Initial, events) &&
      var s := Run(Initial, events);
      s.disposers == map[] && "a" in s.listeners && s.subscriptions == map[0 := "a"]
  {
    var events := [Watch("a", None, true, 0, Some(0)), Dispose(0)];
    var s1 := Apply(Initial, events[0]);
    assert s1.disposers == map[0 := "a"] && s1.counts == map["a" := 1];
    assert events[1..][0] == Dispose(0) && events[1..][1..] == [];
    var s2 := Apply(s1, Dispose(0));
    assert s2.disposers == map[];
    assert IsRun(s2, []) && IsRun(s1, events[1..]);
    assert Run(s1, events[1..]) == Run(s2, []) == s2;
  }

  // What a watch opens, and what ends it

  /** The connection threw on this watch. */
  ghost predicate Throws(s: State, e: Event) {
    e.Watch? && e.exists_ && e.address !in s.statics && e.address !in s.listeners && e.subscribed.None?
  }

  /**
    A watch that did not throw gives a live disposer, and leaves an existing account that is not
    static subscribed, under its old id if it had one, and a missing account polled with the parser
    given, or else the one from before.  A watch that threw opens nothing.
   */
  lemma WatchOpens(s: State, e: Event)
    requires Inv(s) && Enabled(s, e) && e.Watch?
    ensures var a, s' := e.address, Apply(s, e);
      && Count(s'.counts, a) == Count(s.counts, a) + 1
      && (Throws(s, e) ==> s'.disposers == s.disposers && s'.listeners == s.listeners
                           && s'.missing == s.missing && s'.subscriptions == s.subscriptions)
      && (!Throws(s, e) ==> s'.disposers == s.disposers[e.disposer := a])
      && (!Throws(s, e) && e.exists_ && a !in s.statics ==>
            && a in s'.listeners && s'.listeners[a] in s'.subscriptions && s'.subscriptions[s'.listeners[a]] == a
            && (a in s.listeners ==> s'.listeners == s.listeners))
      && (!e.exists_ ==> a in s'.missing && (e.parser.Some? ==> s'.missing[a] == e.parser)
                         && (e.parser.None? && a in s.missing ==> s'.missing[a] == s.missing[a]))
      && (e.exists_ ==> s'.missing == s.missing)
  {
    WatchKeepsSynced(s, e);
  }

  /** The event calls the disposer of the address's last counted watcher. */
  ghost predicate LastDisposed(s: State, e: Event, a: Address)
    requires Enabled(s, e)
  {
    e.Dispose? && s.disposers[e.disposer] == a && Count(s.counts, a) <= 1
  }

  /** A subscription ends exactly when its account is deleted or its last watcher disposed, unless its id is zero. */
  lemma SubscriptionEndsIff(s: State, e: Event, a: Address)
    requires Inv(s) && Enabled(s, e) && a in s.listeners
    ensures var s' := Apply(s, e);
      && (a !in s'.listeners <==> s.listeners[a] != 0 && (e == Delete(a) || LastDisposed(s, e, a)))
      && (a in s'.listeners ==> s'.listeners[a] == s.listeners[a])
      && (a !in s'.listeners ==> s.listeners[a] !in s'.subscriptions)
  {
  }

  /** Polling ends exactly when the account turns up or its last watcher is disposed. */
  lemma PollingEndsIff(s: State, e: Event, a: Address)
    requires Enabled(s, e) && a in s.missing
    ensures a !in Apply(s, e).missing <==> e == Found(a) || LastDisposed(s, e, a)
  {
  }

  /** An address is static exactly as the last search of it said. */
  lemma StaticAsSearched(s: State, e: Event, a: Address)
    requires Enabled(s, e)
    ensures a in Apply(s, e).statics <==>
      if e.SetStatic? && e.address == a then e.isStatic else a in s.statics
  {
  }

  /** A delete drops the cached account, and no other. */
  lemma DeleteDropsCached(s: State, a: Address)
    ensures Apply(s, Delete(a)).cached == s.cached - {a}
    ensures Apply(s, Delete(a)).disposers == s.disposers && Apply(s, Delete(a)).missing == s.missing
  {
  }

  // ---------------------------------------------------------------------------------------------
  // The program
  // ---------------------------------------------------------------------------------------------

  class AccountFetchCache {
    var accountWatchersCount: map<Address, int>
    var accountChangeListeners: map<Address, nat>
    var missingAccounts: map<Address, Option<Parser>>
    var statics: set<Address>
    var genericCache: set<Address>
    var connection: map<nat, Address>
    var disposers: map<nat, Address>
    ghost var failures: map<Address, nat>

    ghost function Abs(): State
      reads this
    {
      State(accountWatchersCount, accountChangeListeners, missingAccounts, statics, genericCache,
            connection, disposers, failures)
    }

    constructor ()
      ensures Abs() == Initial && Inv(Abs())
    {
      accountWatchersCount, accountChangeListeners, missingAccounts := map[], map[], map[];
      statics, genericCache, connection, disposers, failures := {}, {}, map[], map[], map[];
      new;
      assert forall b :: Owned(Abs().disposers, b) == {};
    }

    /** The watch method; returns false when the connection throws. */
    method Watch(address: Address, parser: Option<Parser>, exists_: bool, disposer: nat, subscribed: Option<nat>)
        returns (ok: bool)
      requires Inv(Abs()) && Enabled(Abs(), Event.Watch(address, parser, exists_, disposer, subscribed))
      modifies this
      ensures Abs() == WatchStep(old(Abs()), address, parser, exists_, disposer, subscribed) && Inv(Abs())
      ensures ok <==> disposer in disposers
    {
      hide Inv;
      WatchKeeps(Abs(), Event.Watch(address, parser, exists_, disposer, subscribed));
      var isStatic := address in statics;
      var oldCount := Count(accountWatchersCount, address) + 1;
      accountWatchersCount := accountWatchersCount[address := oldCount];
      if exists_ && !isStatic {
        if address !in accountChangeListeners {
          if subscribed.None? {
            failures := failures[address := (if address in failures then failures[address] else 0) + 1];
            return false;
          }
          accountChangeListeners := accountChangeListeners[address := subscribed.value];
          connection := connection[subscribed.value := address];
        }
      } else if !exists_ {
        missingAccounts := missingAccounts[address := KeptParser(missingAccounts, address, parser)];
      }
      disposers := disposers[disposer := address];
      return true;
    }

    method Dispose(disposer: nat)
      requires Inv(Abs()) && disposer in disposers
      modifies this
      ensures Abs() == DisposeStep(old(Abs()), disposer) && Inv(Abs())
    {
      DisposeKeeps(Abs(), disposer);
      var address := disposers[disposer];
      disposers := disposers - {disposer};
      var newCount := Count(accountWatchersCount, address) - 1;
      accountWatchersCount := accountWatchersCount[address := newCount];
      if newCount <= 0 {
        if address in accountChangeListeners && accountChangeListeners[address] != 0 {
          var subscriptionId := accountChangeListeners[address];
          accountChangeListeners := accountChangeListeners - {address};
          connection := connection - {subscriptionId};
        }
        missingAccounts := missingAccounts - {address};
      }
    }

    method Delete(key: Address) returns (deleted: bool)
      requires Inv(Abs())
      modifies this
      ensures Abs() == Apply(old(Abs()), Event.Delete(key)) && Inv(Abs())
      ensures deleted <==> key in old(genericCache)
    {
      StepKeeps(Abs(), Event.Delete(key));
      if key in accountChangeListeners && accountChangeListeners[key] != 0 {
        connection := connection - {accountChangeListeners[key]};
        accountChangeListeners := accountChangeListeners - {key};
      }
      deleted := key in genericCache;
      genericCache := genericCache - {key};
    }
  }
}
