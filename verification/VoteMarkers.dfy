/**
  Rebuilding vote markers from transaction history
  (packages/helium-admin-cli/src/dump-vote-markers.ts): vote, proxied vote, count-proxy-vote and
  relinquish instructions are replayed into a map of markers per proposal.
 */
module VoteMarkers {
  import opened Common

  type Proposal = string
  type MarkerKey = string
  type Choice = nat

  const DEFAULT_KEY := "11111111111111111111111111111111"

  /** Who a marker belongs to; set when the marker is created. */
  datatype Info = Info(voter: string, registrar: string, mint: string)

  datatype VoteMarker = VoteMarker(info: Info, choices: seq<Choice>, weight: nat)

  type Markers = map<MarkerKey, VoteMarker>
  type Votes = map<Proposal, Markers>  // votesByProposal; one entry per tracked proposal

  /** What an instruction does to one marker. */
  datatype Event =
    | Cast(proposal: Proposal, marker: MarkerKey, info: Info, choice: Choice, weight: nat)
    | Relinquished(proposal: Proposal, marker: MarkerKey, choice: Choice)

  function WithoutChoice(choices: seq<Choice>, choice: Choice): seq<Choice> {
    if choices == [] then []
    else
      var n := |choices| - 1;
      WithoutChoice(choices[..n], choice) + if choices[n] == choice then [] else [choices[n]]
  }

  function CastInto(markers: Markers, e: Event): Markers
    requires e.Cast?
  {
    var v := if e.marker in markers then markers[e.marker] else VoteMarker(e.info, [e.choice], e.weight);
    markers[e.marker := v.(choices := if e.choice in v.choices then v.choices else v.choices + [e.choice],
                           weight := e.weight)]
  }

  function RelinquishFrom(markers: Markers, e: Event): Markers
    requires e.Relinquished?
  {
    if e.marker !in markers then markers
    else
      var left := WithoutChoice(markers[e.marker].choices, e.choice);
      if left == [] then markers - {e.marker}
      else markers[e.marker := markers[e.marker].(choices := left)]
  }

  function ApplyTo(markers: Markers, e: Event): Markers {
    if e.Cast? then CastInto(markers, e) else RelinquishFrom(markers, e)
  }

  function Apply(votes: Votes, e: Event): Votes
    requires e.proposal in votes
  {
    votes[e.proposal := ApplyTo(votes[e.proposal], e)]
  }

  predicate Tracked(votes: Votes, events: seq<Event>) {
    forall i :: 0 <= i < |events| ==> events[i].proposal in votes
  }

  /** Replaying events one after the other. */
  function Replay(votes: Votes, events: seq<Event>): (r: Votes)
    requires Tracked(votes, events)
    ensures r.Keys == votes.Keys
  {
    if events == [] then votes
    else Apply(Replay(votes, events[..|events| - 1]), events[|events| - 1])
  }

  // ---------------------------------------------------------------------------------------------
  // The declarative result: the last event on a choice wins
  // ---------------------------------------------------------------------------------------------

  ghost predicate On(e: Event, p: Proposal, m: MarkerKey) {
    e.proposal == p && e.marker == m
  }

  /** The latest event on this choice of this marker is a vote. */
  ghost predicate Stands(events: seq<Event>, p: Proposal, m: MarkerKey, c: Choice) {
    events != [] &&
    var n := |events| - 1;
    if On(events[n], p, m) && events[n].choice == c then events[n].Cast? else Stands(events[..n], p, m, c)
  }

  ghost predicate Alive(events: seq<Event>, p: Proposal, m: MarkerKey) {
    exists c :: Stands(events, p, m, c)
  }

  /** The weight of the marker's latest vote. */
  ghost function LatestWeight(events: seq<Event>, p: Proposal, m: MarkerKey): nat {
    if events == [] then 0
    else
      var n := |events| - 1;
      if On(events[n], p, m) && events[n].Cast? then events[n].weight else LatestWeight(events[..n], p, m)
  }

  /** Who cast the vote that last brought the marker to life. */
  ghost function Creator(events: seq<Event>, p: Proposal, m: MarkerKey): Option<Info> {
    if events == [] then None
    else
      var n := |events| - 1;
      if On(events[n], p, m) && events[n].Cast? && !Alive(events[..n], p, m) then Some(events[n].info)
      else Creator(events[..n], p, m)
  }

  /** A marker is in the map exactly if some choice stands, with exactly those choices, once each. */
  ghost predicate Declared(markers: Markers, events: seq<Event>, p: Proposal, m: MarkerKey) {
    && (m in markers <==> Alive(events, p, m))
    && (m in markers ==>
          && Distinct(markers[m].choices)
          && (forall c :: c in markers[m].choices <==> Stands(events, p, m, c))
          && markers[m].weight == LatestWeight(events, p, m)
          && Creator(events, p, m) == Some(markers[m].info))
  }

  lemma {:induction false} WithoutChoiceFacts(choices: seq<Choice>, choice: Choice)
    requires Distinct(choices)
    ensures Distinct(WithoutChoice(choices, choice))
    ensures forall c :: c in WithoutChoice(choices, choice) <==> c in choices && c != choice
  {
    if choices != [] {
      var n := |choices| - 1;
      WithoutChoiceFacts(choices[..n], choice);
      assert forall c :: c in choices <==> c in choices[..n] || c == choices[n];
      var rest := WithoutChoice(choices[..n], choice);
      assert forall i :: 0 <= i < |rest| ==> rest[i] in rest;
    }
  }

  lemma SnocPrefix(events: seq<Event>, e: Event)
    ensures (events + [e])[..|events|] == events
  {
  }

  lemma CastDeclared(markers: Markers, events: seq<Event>, e: Event)
    requires e.Cast? && Declared(markers, events, e.proposal, e.marker)
    ensures Declared(CastInto(markers, e), events + [e], e.proposal, e.marker)
  {
    var p, m, more := e.proposal, e.marker, events + [e];
    SnocPrefix(events, e);
    assert Stands(more, p, m, e.choice);
    assert forall c :: c != e.choice ==> (Stands(more, p, m, c) <==> Stands(events, p, m, c));
    if m in markers {
      assert Alive(events, p, m);
    }
  }

  lemma RelinquishDeclared(markers: Markers, events: seq<Event>, e: Event)
    requires e.Relinquished? && Declared(markers, events, e.proposal, e.marker)
    ensures Declared(RelinquishFrom(markers, e), events + [e], e.proposal, e.marker)
  {
    var p, m, more := e.proposal, e.marker, events + [e];
    SnocPrefix(events, e);
    assert !Stands(more, p, m, e.choice);
    assert forall c :: c != e.choice ==> (Stands(more, p, m, c) <==> Stands(events, p, m, c));
    if m in markers {
      WithoutChoiceFacts(markers[m].choices, e.choice);
      var left := WithoutChoice(markers[m].choices, e.choice);
      assert forall c :: c in left <==> Stands(more, p, m, c);
      if left != [] {
        assert left[0] in left && Stands(more, p, m, left[0]);
      }
    }
  }

  lemma OtherMarkerDeclared(markers: Markers, events: seq<Event>, e: Event, p: Proposal, m: MarkerKey)
    requires !On(e, p, m) && Declared(markers, events, p, m)
    ensures Declared(markers, events + [e], p, m)
  {
    SnocPrefix(events, e);
    assert forall c :: Stands(events + [e], p, m, c) <==> Stands(events, p, m, c);
  }

  /**
    Replaying one chronological stream gives the declarative result for every marker of every
    tracked proposal: a marker exists exactly if some choice's latest event is a vote; its choices
    are exactly those, without repetition; its weight is that of its latest vote; and it belongs
    to whoever last brought it to life.
   */
  lemma {:induction false} LastEventWins(votes: Votes, events: seq<Event>, p: Proposal, m: MarkerKey)
    requires Tracked(votes, events) && p in votes && votes[p] == map[]
    ensures Declared(Replay(votes, events)[p], events, p, m)
  {
    if events != [] {
      var n := |events| - 1;
      var before, e := events[..n], events[n];
      LastEventWins(votes, before, p, m);
      assert events == before + [e];
      var markers := Replay(votes, before)[p];
      if On(e, p, m) {
        if e.Cast? {
          CastDeclared(markers, before, e);
        } else {
          RelinquishDeclared(markers, before, e);
        }
      } else {
        OtherMarkerDeclared(markers, before, e, p, m);
        if e.proposal == p {
          assert m in ApplyTo(markers, e) <==> m in markers;
        }
      }
    }
  }

  // ---------------------------------------------------------------------------------------------
  // One stream per proposal
  // ---------------------------------------------------------------------------------------------

  /** The events on one proposal, in order. */
  ghost function Only(events: seq<Event>, p: Proposal): seq<Event> {
    if events == [] then []
    else
      var n := |events| - 1;
      Only(events[..n], p) + if events[n].proposal == p then [events[n]] else []
  }

  lemma {:induction false} OnlyTracked(votes: Votes, events: seq<Event>, p: Proposal)
    requires p in votes
    ensures Tracked(votes, Only(events, p))
  {
    if events != [] {
      OnlyTracked(votes, events[..|events| - 1], p);
    }
  }

  lemma ReplaySnoc(votes: Votes, events: seq<Event>, e: Event, p: Proposal)
    requires Tracked(votes, events) && e.proposal in votes && p in votes
    ensures Tracked(votes, events + [e])
    ensures Replay(votes, events + [e])[p]
         == if e.proposal == p then ApplyTo(Replay(votes, events)[p], e) else Replay(votes, events)[p]
  {
    SnocPrefix(events, e);
  }

  /** Replay keeps proposals apart: the result for one depends only on its own events. */
  lemma {:induction false} ProposalsAreIndependent(votes: Votes, events: seq<Event>, p: Proposal)
    requires Tracked(votes, events) && p in votes
    ensures Tracked(votes, Only(events, p))
    ensures Replay(votes, events)[p] == Replay(votes, Only(events, p))[p]
  {
    OnlyTracked(votes, events, p);
    if events != [] {
      var n := |events| - 1;
      var before, e := events[..n], events[n];
      OnlyTracked(votes, before, p);
      ProposalsAreIndependent(votes, before, p);
      assert events == before + [e];
      ReplaySnoc(votes, before, e, p);
      if e.proposal == p {
        ReplaySnoc(votes, Only(before, p), e, p);
      } else {
        assert Only(events, p) == Only(before, p);
      }
    }
  }

  ghost predicate AllOn(events: seq<Event>, p: Proposal) {
    forall i :: 0 <= i < |events| ==> events[i].proposal == p
  }

  // The script replays one stream per proposal, one stream after the other, into the same map.  A
  // proposal's stream holds every transaction that touches the proposal, with all its events, so
  // events on one proposal can occur in the streams of others as well.

  /** Some event is about this choice of this marker. */
  ghost predicate Touched(events: seq<Event>, p: Proposal, m: MarkerKey, c: Choice) {
    exists e :: e in events && On(e, p, m) && e.choice == c
  }

  /** Some event is a vote with this marker. */
  ghost predicate Voted(events: seq<Event>, p: Proposal, m: MarkerKey) {
    exists e :: e in events && On(e, p, m) && e.Cast?
  }

  /** Who cast, among the later events, the last vote that found no choice standing. */
  ghost function BornIn(before: seq<Event>, events: seq<Event>, p: Proposal, m: MarkerKey): Option<Info> {
    if events == [] then None
    else
      var n := |events| - 1;
      if On(events[n], p, m) && events[n].Cast? && !Alive(before + events[..n], p, m) then Some(events[n].info)
      else BornIn(before, events[..n], p, m)
  }

  lemma AppendInit(a: seq<Event>, b: seq<Event>)
    requires b != []
    ensures var n := |b| - 1;
      && (a + b)[..|a + b| - 1] == a + b[..n] && (a + b)[|a + b| - 1] == b[n]
      && forall e :: e in b <==> e in b[..n] || e == b[n]
  {
  }

  lemma {:induction false} StandsAppend(a: seq<Event>, b: seq<Event>, p: Proposal, m: MarkerKey, c: Choice)
    ensures Stands(a + b, p, m, c) <==> if Touched(b, p, m, c) then Stands(b, p, m, c) else Stands(a, p, m, c)
    decreases |b|
  {
    if b == [] {
      assert a + b == a;
    } else {
      var n := |b| - 1;
      AppendInit(a, b);
      StandsAppend(a, b[..n], p, m, c);
      if On(b[n], p, m) && b[n].choice == c {
        assert b[n] in b;
      } else {
        assert Touched(b, p, m, c) <==> Touched(b[..n], p, m, c);
      }
    }
  }

  lemma {:induction false} WeightAppend(a: seq<Event>, b: seq<Event>, p: Proposal, m: MarkerKey)
    ensures LatestWeight(a + b, p, m) == if Voted(b, p, m) then LatestWeight(b, p, m) else LatestWeight(a, p, m)
    decreases |b|
  {
    if b == [] {
      assert a + b == a;
    } else {
      var n := |b| - 1;
      AppendInit(a, b);
      WeightAppend(a, b[..n], p, m);
      if On(b[n], p, m) && b[n].Cast? {
        assert b[n] in b;
      } else {
        assert Voted(b, p, m) <==> Voted(b[..n], p, m);
      }
    }
  }

  lemma {:induction false} CreatorAppend(a: seq<Event>, b: seq<Event>, p: Proposal, m: MarkerKey)
    ensures Creator(a + b, p, m) == if BornIn(a, b, p, m).Some? then BornIn(a, b, p, m) else Creator(a, p, m)
    decreases |b|
  {
    if b == [] {
      assert a + b == a;
    } else {
      AppendInit(a, b);
      CreatorAppend(a, b[..|b| - 1], p, m);
    }
  }

  lemma {:induction false} StandingWasVoted(events: seq<Event>, p: Proposal, m: MarkerKey, c: Choice)
    requires Stands(events, p, m, c)
    ensures Touched(events, p, m, c) && Voted(events, p, m)
  {
    var n := |events| - 1;
    if On(events[n], p, m) && events[n].choice == c {
      assert events[n] in events;
    } else {
      StandingWasVoted(events[..n], p, m, c);
    }
  }

  /** A proposal's own stream holds everything on the proposal. */
  ghost predicate OwnIsComplete(before: seq<Event>, own: seq<Event>, p: Proposal) {
    forall e :: e in before && e.proposal == p ==> e in own
  }

  ghost predicate FinallyStands(own: seq<Event>, after: seq<Event>, p: Proposal, m: MarkerKey, c: Choice) {
    if Touched(after, p, m, c) then Stands(after, p, m, c) else Stands(own, p, m, c)
  }

  ghost function FinalWeight(own: seq<Event>, after: seq<Event>, p: Proposal, m: MarkerKey): nat {
    if Voted(after, p, m) then LatestWeight(after, p, m) else LatestWeight(own, p, m)
  }

  /** Unlike choices and weight, the owner can also depend on the streams before. */
  ghost function FinalOwner(before: seq<Event>, own: seq<Event>, after: seq<Event>,
                            p: Proposal, m: MarkerKey): Option<Info> {
    if BornIn(before + own, after, p, m).Some? then BornIn(before + own, after, p, m)
    else if BornIn(before, own, p, m).Some? then BornIn(before, own, p, m)
    else Creator(before, p, m)
  }

  lemma WholeStands(before: seq<Event>, own: seq<Event>, after: seq<Event>, p: Proposal, m: MarkerKey, c: Choice)
    requires OwnIsComplete(before, own, p)
    ensures Stands(before + own + after, p, m, c) <==> FinallyStands(own, after, p, m, c)
  {
    StandsAppend(before + own, after, p, m, c);
    StandsAppend(before, own, p, m, c);
    if Stands(before, p, m, c) {
      StandingWasVoted(before, p, m, c);
      var e :| e in before && On(e, p, m) && e.choice == c;
      assert e in own;
    }
    if Stands(own, p, m, c) {
      StandingWasVoted(own, p, m, c);
    }
  }

  lemma WholeAlive(before: seq<Event>, own: seq<Event>, after: seq<Event>, p: Proposal, m: MarkerKey)
    requires OwnIsComplete(before, own, p)
    ensures Alive(before + own + after, p, m) <==> exists c :: FinallyStands(own, after, p, m, c)
  {
    forall c
      ensures Stands(before + own + after, p, m, c) <==> FinallyStands(own, after, p, m, c)
    {
      WholeStands(before, own, after, p, m, c);
    }
  }

  lemma WholeWeight(before: seq<Event>, own: seq<Event>, after: seq<Event>, p: Proposal, m: MarkerKey)
    requires Voted(own, p, m) || Voted(after, p, m)
    ensures LatestWeight(before + own + after, p, m) == FinalWeight(own, after, p, m)
  {
    WeightAppend(before + own, after, p, m);
    WeightAppend(before, own, p, m);
  }

  lemma WholeOwner(before: seq<Event>, own: seq<Event>, after: seq<Event>, p: Proposal, m: MarkerKey)
    ensures Creator(before + own + after, p, m) == FinalOwner(before, own, after, p, m)
  {
    CreatorAppend(before + own, after, p, m);
    CreatorAppend(before, own, p, m);
  }

  /** The marker as the streams of all proposals leave it. */
  ghost predicate FinallyDeclared(markers: Markers, before: seq<Event>, own: seq<Event>, after: seq<Event>,
                                  p: Proposal, m: MarkerKey) {
    && (m in markers <==> exists c :: FinallyStands(own, after, p, m, c))
    && (m in markers ==>
          && Distinct(markers[m].choices)
          && (forall c :: c in markers[m].choices <==> FinallyStands(own, after, p, m, c))
          && markers[m].weight == FinalWeight(own, after, p, m)
          && Some(markers[m].info) == FinalOwner(before, own, after, p, m))
  }

  /**
    What a proposal's markers are after the streams of all proposals, transactions on several
    proposals included: a choice is as in the latest later stream that touches it, and as in the
    proposal's own stream if none does; likewise the weight; and the owner is whoever cast the
    last vote that found no choice standing.
   */
  lemma StreamsReplayInTurn(votes: Votes, before: seq<Event>, own: seq<Event>, after: seq<Event>,
                            p: Proposal, m: MarkerKey)
    requires p in votes && votes[p] == map[] && Tracked(votes, before + own + after)
    requires OwnIsComplete(before, own, p)
    ensures FinallyDeclared(Replay(votes, before + own + after)[p], before, own, after, p, m)
  {
    hide FinalOwner, FinalWeight, FinallyStands;
    var whole := before + own + after;
    var markers := Replay(votes, whole)[p];
    LastEventWins(votes, whole, p, m);
    WholeAlive(before, own, after, p, m);
    WholeOwner(before, own, after, p, m);
    if m in markers {
      forall c
        ensures c in markers[m].choices <==> FinallyStands(own, after, p, m, c)
      {
        WholeStands(before, own, after, p, m, c);
      }
      FinalVoteExists(before, own, after, p, m);
      WholeWeight(before, own, after, p, m);
    }
  }

  lemma FinalVoteExists(before: seq<Event>, own: seq<Event>, after: seq<Event>, p: Proposal, m: MarkerKey)
    requires exists c :: FinallyStands(own, after, p, m, c)
    ensures Voted(own, p, m) || Voted(after, p, m)
  {
    var c :| FinallyStands(own, after, p, m, c);
    if Touched(after, p, m, c) {
      StandingWasVoted(after, p, m, c);
    } else {
      StandingWasVoted(own, p, m, c);
    }
  }

  /**
    The other streams leave the marker as its own stream has it: no choice's last event in the
    later streams is of another kind than in its own, and, for a marker that exists, their last
    vote has the same weight and the last vote to find no choice standing the same owner.
   */
  ghost predicate Undisturbed(before: seq<Event>, own: seq<Event>, after: seq<Event>, p: Proposal, m: MarkerKey) {
    && (forall c :: Touched(after, p, m, c) ==> (Stands(after, p, m, c) <==> Stands(own, p, m, c)))
    && (Alive(own, p, m) ==>
          && (Voted(after, p, m) ==> LatestWeight(after, p, m) == LatestWeight(own, p, m))
          && FinalOwner(before, own, after, p, m) == Creator(own, p, m))
  }

  /** A marker ends with the declarative result of its proposal's own stream exactly when undisturbed. */
  lemma OwnResultIff(votes: Votes, before: seq<Event>, own: seq<Event>, after: seq<Event>, p: Proposal, m: MarkerKey)
    requires p in votes && votes[p] == map[] && Tracked(votes, before + own + after)
    requires OwnIsComplete(before, own, p)
    ensures Declared(Replay(votes, before + own + after)[p], own, p, m) <==> Undisturbed(before, own, after, p, m)
  {
    hide FinalOwner, LatestWeight, Creator, Stands, Touched, Voted;
    var markers := Replay(votes, before + own + after)[p];
    StreamsReplayInTurn(votes, before, own, after, p, m);
    if Undisturbed(before, own, after, p, m) {
      assert forall c :: FinallyStands(own, after, p, m, c) <==> Stands(own, p, m, c);
      assert m in markers <==> Alive(own, p, m);
    }
    if Declared(markers, own, p, m) {
      forall c
        ensures FinallyStands(own, after, p, m, c) <==> Stands(own, p, m, c)
      {
      }
    }
  }

  /** The same, stream by stream. */
  lemma StreamsRightIff(votes: Votes, proposals: seq<Proposal>, streams: seq<seq<Event>>, k: nat, m: MarkerKey)
    requires |proposals| == |streams| && k < |proposals|
    requires Tracked(votes, Flatten(streams)) && proposals[k] in votes && votes[proposals[k]] == map[]
    requires forall i, e :: 0 <= i < |streams| && e in streams[i] && e.proposal == proposals[k] ==> e in streams[k]
    ensures Declared(Replay(votes, Flatten(streams))[proposals[k]], streams[k], proposals[k], m) <==>
      Undisturbed(Flatten(streams[..k]), streams[k], Flatten(streams[k + 1..]), proposals[k], m)
  {
    var before, own, after := Flatten(streams[..k]), streams[k], Flatten(streams[k + 1..]);
    StreamsInOrder(streams, k);
    forall e | e in before && e.proposal == proposals[k]
      ensures e in own
    {
      var i := InSomeStream(streams[..k], e);
    }
    OwnResultIff(votes, before, own, after, proposals[k], m);
  }

  lemma StreamsInOrder(streams: seq<seq<Event>>, k: nat)
    requires k < |streams|
    ensures Flatten(streams) == Flatten(streams[..k]) + streams[k] + Flatten(streams[k + 1..])
  {
    assert streams == streams[..k] + streams[k..];
    FlattenAppend(streams[..k], streams[k..]);
    assert streams[k..][1..] == streams[k + 1..];
  }

  lemma {:induction false} InSomeStream(streams: seq<seq<Event>>, e: Event) returns (i: nat)
    requires e in Flatten(streams)
    ensures i < |streams| && e in streams[i]
  {
    if e in streams[0] {
      i := 0;
    } else {
      var j := InSomeStream(streams[1..], e);
      i := j + 1;
    }
  }

  lemma {:induction false} NotTouched(events: seq<Event>, p: Proposal, m: MarkerKey)
    requires forall e :: e in events ==> e.proposal != p
    ensures !Voted(events, p, m) && Creator(events, p, m) == None
    ensures forall c :: !Touched(events, p, m, c) && !Stands(events, p, m, c)
  {
    if events != [] {
      NotTouched(events[..|events| - 1], p, m);
      assert events[|events| - 1] in events;
    }
  }

  lemma {:induction false} BornAfterNothing(before: seq<Event>, events: seq<Event>, p: Proposal, m: MarkerKey)
    requires forall e :: e in before ==> e.proposal != p
    ensures BornIn(before, events, p, m) == Creator(events, p, m)
    decreases |events|
  {
    if events != [] {
      var n := |events| - 1;
      BornAfterNothing(before, events[..n], p, m);
      NotTouched(before, p, m);
      assert OwnIsComplete(before, events[..n], p);
      forall c
        ensures Stands(before + events[..n], p, m, c) <==> Stands(events[..n], p, m, c)
      {
        StandsAppend(before, events[..n], p, m, c);
        if Stands(events[..n], p, m, c) {
          StandingWasVoted(events[..n], p, m, c);
        }
      }
    }
  }

  lemma {:induction false} NoneBorn(before: seq<Event>, events: seq<Event>, p: Proposal, m: MarkerKey)
    requires forall e :: e in events ==> e.proposal != p
    ensures BornIn(before, events, p, m) == None
    decreases |events|
  {
    if events != [] {
      assert events[|events| - 1] in events;
      NoneBorn(before, events[..|events| - 1], p, m);
    }
  }

  lemma {:induction false} NoneElsewhere(streams: seq<seq<Event>>, p: Proposal)
    requires forall i, e :: 0 <= i < |streams| && e in streams[i] ==> e.proposal != p
    ensures forall e :: e in Flatten(streams) ==> e.proposal != p
  {
    if streams != [] {
      NoneElsewhere(streams[1..], p);
    }
  }

  /**
    In particular, a proposal that shares no transaction with another one ends with the
    declarative result of its own stream, whatever the other streams hold.
   */
  lemma StreamsReplayIndependently(votes: Votes, proposals: seq<Proposal>, streams: seq<seq<Event>>,
                                   k: nat, m: MarkerKey)
    requires |proposals| == |streams| && k < |proposals|
    requires Tracked(votes, Flatten(streams)) && proposals[k] in votes && votes[proposals[k]] == map[]
    requires forall i, e :: 0 <= i < |streams| && i != k && e in streams[i] ==> e.proposal != proposals[k]
    ensures Declared(Replay(votes, Flatten(streams))[proposals[k]], streams[k], proposals[k], m)
  {
    var p := proposals[k];
    var before, own, after := Flatten(streams[..k]), streams[k], Flatten(streams[k + 1..]);
    NoneElsewhere(streams[..k], p);
    NoneElsewhere(streams[k + 1..], p);
    NotTouched(before, p, m);
    NotTouched(after, p, m);
    BornAfterNothing(before, own, p, m);
    NoneBorn(before + own, after, p, m);
    assert Undisturbed(before, own, after, p, m);
    StreamsRightIff(votes, proposals, streams, k, m);
  }

  /**
    A transaction that votes on two proposals is in both histories and is replayed twice; the
    second time, a vote relinquished in between comes back.
   */
  lemma SharedTransactionRevivesVote()
    ensures var info := Info("v", "r", "n");
      var onA, onB := Cast("A", "m", info, 0, 5), Cast("B", "k", info, 0, 5);
      var historyOfA := [onA, onB, Relinquished("A", "m", 0)];
      var historyOfB := [onA, onB];
      var votes: Votes := map["A" := map[], "B" := map[]];
      && Tracked(votes, historyOfA) && Tracked(votes, historyOfA + historyOfB)
      && "m" !in Replay(votes, historyOfA)["A"]
      && "m" in Replay(votes, historyOfA + historyOfB)["A"]
  {
    var info := Info("v", "r", "n");
    var onA, onB, off := Cast("A", "m", info, 0, 5), Cast("B", "k", info, 0, 5), Relinquished("A", "m", 0);
    var historyOfA, historyOfB := [onA, onB, off], [onA, onB];
    var votes: Votes := map["A" := map[], "B" := map[]];
    LastEventWins(votes, historyOfA, "A", "m");
    forall c
      ensures !Stands(historyOfA, "A", "m", c)
    {
      assert historyOfA[..2] == [onA, onB] && [onA, onB][..1] == [onA] && [onA][..0] == [];
      assert Stands(historyOfA, "A", "m", c) <==> c != 0 && Stands([onA, onB], "A", "m", c);
      assert Stands([onA, onB], "A", "m", c) <==> Stands([onA], "A", "m", c);
      assert Stands([onA], "A", "m", c) <==> c == 0;
    }
    var whole := historyOfA + historyOfB;
    LastEventWins(votes, whole, "A", "m");
    assert whole[..4] == historyOfA + [onA] && whole[4] == onB && whole[..4][3] == onA;
    assert Stands(whole[..4], "A", "m", 0);
    assert Stands(whole, "A", "m", 0);
  }

  /**
    An earlier stream can matter too: a vote of a later owner, replayed first, makes the marker
    that owner's, though the proposal's own stream starts with somebody else's vote.
   */
  lemma EarlierStreamTakesOwner(votes: Votes, onA: Event, onB: Event, early: Event)
    requires onA.proposal in votes && onB.proposal in votes && votes[onB.proposal] == map[]
    requires onA.proposal != onB.proposal && onB.Cast?
    requires early.Cast? && early == onB.(info := early.info)
    ensures var historyOfA, historyOfB := [onA, onB], [early, onA, onB];
      var b, m := onB.proposal, onB.marker;
      && Tracked(votes, historyOfB) && Tracked(votes, historyOfA + historyOfB)
      && Replay(votes, historyOfB)[b] == map[m := VoteMarker(early.info, [onB.choice], onB.weight)]
      && Replay(votes, historyOfA + historyOfB)[b] == map[m := VoteMarker(onB.info, [onB.choice], onB.weight)]
  {
    var b := onB.proposal;
    hide Replay, Tracked, Only;
    ReplayOne(votes, onA, b);
    ReplayOne(votes, early, b);
    ReplaySnoc(votes, [early], onA, b);
    ReplaySnoc(votes, [early] + [onA], onB, b);
    assert [early] + [onA] + [onB] == [early, onA, onB];
    var twice := [onA] + [onB];
    ReplaySnoc(votes, [onA], onB, b);
    ReplaySnoc(votes, twice, early, b);
    ReplaySnoc(votes, twice + [early], onA, b);
    ReplaySnoc(votes, twice + [early] + [onA], onB, b);
    assert twice + [early] + [onA] + [onB] == [onA, onB] + [early, onA, onB];
  }

  lemma ReplayOne(votes: Votes, e: Event, p: Proposal)
    requires e.proposal in votes && p in votes
    ensures Tracked(votes, [e])
    ensures Replay(votes, [e])[p] == if e.proposal == p then ApplyTo(votes[p], e) else votes[p]
  {
    ReplaySnoc(votes, [], e, p);
    assert [] + [e] == [e];
  }

  // ---------------------------------------------------------------------------------------------
  // Instructions
  // ---------------------------------------------------------------------------------------------

  /** The inner call to the proposal program; None when it cannot be decoded. */
  datatype Ballot = Ballot(weight: nat, choice: Choice)

  datatype Instruction =
    | VoteV0(proposal: Proposal, marker: MarkerKey, info: Info, inner: Option<Ballot>)
    | ProxiedVoteV0(proposal: Proposal, marker: MarkerKey, voter: string, registrar: string,
                    position: Option<string>, inner: Option<Ballot>)
    | CountProxyVoteV0(proposal: Proposal, marker: MarkerKey, voter: string, registrar: string,
                       position: Option<string>, inners: Option<seq<Option<Ballot>>>)
    | RelinquishVote(proposal: Proposal, marker: MarkerKey, choice: Choice)
    | OtherInstruction

  /** The mint of a position on chain; a position that is gone counts as the default key. */
  function MintOf(fetch: string -> Option<string>, position: Option<string>): string {
    if position.None? || fetch(position.value).None? then DEFAULT_KEY else fetch(position.value).value
  }

  function CastAll(p: Proposal, m: MarkerKey, info: Info, inners: seq<Option<Ballot>>): Option<seq<Event>> {
    if inners == [] then Some([])
    else
      var n := |inners| - 1;
      var before := CastAll(p, m, info, inners[..n]);
      if before.None? || inners[n].None? then None
      else Some(before.value + [Cast(p, m, info, inners[n].value.choice, inners[n].value.weight)])
  }

  /** What an instruction means as events; None when the script throws on it. */
  function EventsOf(ix: Instruction, fetch: string -> Option<string>): Option<seq<Event>> {
    match ix
    case VoteV0(p, m, info, inner) => CastAll(p, m, info, [inner])
    case ProxiedVoteV0(p, m, voter, registrar, position, inner) =>
      CastAll(p, m, Info(voter, registrar, MintOf(fetch, position)), [inner])
    case CountProxyVoteV0(p, m, voter, registrar, position, inners) =>
      if inners.None? then Some([])
      else CastAll(p, m, Info(voter, registrar, MintOf(fetch, position)), inners.value)
    case RelinquishVote(p, m, choice) => Some([Relinquished(p, m, choice)])
    case OtherInstruction => Some([])
  }

  /** The events of a list of instructions, None when the script throws on one. */
  ghost function AllEvents(ixs: seq<Instruction>, fetch: string -> Option<string>): Option<seq<Event>> {
    if ixs == [] then Some([])
    else
      var n := |ixs| - 1;
      var before, last := AllEvents(ixs[..n], fetch), EventsOf(ixs[n], fetch);
      if before.None? || last.None? then None else Some(before.value + last.value)
  }

  /** Does the script get through these events? */
  ghost predicate Replayable(votes: Votes, events: Option<seq<Event>>) {
    events.Some? && Tracked(votes, events.value)
  }

  lemma {:induction false} CastAllPrefix(p: Proposal, m: MarkerKey, info: Info, inners: seq<Option<Ballot>>, n: nat)
    requires n <= |inners| && CastAll(p, m, info, inners).Some?
    ensures CastAll(p, m, info, inners[..n]).Some?
    decreases |inners|
  {
    if n < |inners| {
      var k := |inners| - 1;
      CastAllPrefix(p, m, info, inners[..k], n);
      assert inners[..k][..n] == inners[..n];
    } else {
      assert inners[..n] == inners;
    }
  }

  lemma {:induction false} CastAllOn(p: Proposal, m: MarkerKey, info: Info, inners: seq<Option<Ballot>>)
    requires CastAll(p, m, info, inners).Some?
    ensures |CastAll(p, m, info, inners).value| == |inners|
    ensures AllOn(CastAll(p, m, info, inners).value, p)
  {
    if inners != [] {
      CastAllOn(p, m, info, inners[..|inners| - 1]);
    }
  }

  lemma {:induction false} ReplayAppend(votes: Votes, a: seq<Event>, b: seq<Event>)
    requires Tracked(votes, a) && Tracked(votes, b)
    ensures Tracked(votes, a + b) && Replay(votes, a + b) == Replay(Replay(votes, a), b)
    decreases |b|
  {
    if b == [] {
      assert a + b == a;
    } else {
      var n := |b| - 1;
      ReplayAppend(votes, a, b[..n]);
      assert (a + b)[..|a + b| - 1] == a + b[..n];
    }
  }

  lemma {:induction false} EventsAmongAll(ixs: seq<Instruction>, fetch: string -> Option<string>, i: nat)
    requires i < |ixs| && AllEvents(ixs, fetch).Some?
    ensures EventsOf(ixs[i], fetch).Some?
    ensures forall e :: e in EventsOf(ixs[i], fetch).value ==> e in AllEvents(ixs, fetch).value
  {
    var n := |ixs| - 1;
    if i < n {
      EventsAmongAll(ixs[..n], fetch, i);
    }
  }

  /** If the whole is replayable, so is each instruction, from any state that tracks the same proposals. */
  lemma PartReplayable(votes: Votes, now: Votes, ixs: seq<Instruction>, fetch: string -> Option<string>, i: nat)
    requires i < |ixs| && Replayable(votes, AllEvents(ixs, fetch)) && now.Keys == votes.Keys
    ensures Replayable(now, EventsOf(ixs[i], fetch))
  {
    EventsAmongAll(ixs, fetch, i);
    var events := EventsOf(ixs[i], fetch).value;
    forall j | 0 <= j < |events|
      ensures events[j].proposal in now
    {
      assert events[j] in events && events[j] in AllEvents(ixs, fetch).value;
      assert events[j].proposal in votes.Keys;
    }
  }

  // What an instruction means for the markers, in its own terms

  /** The ballots a voting instruction carries; none when the inner calls are missing. */
  ghost function Ballots(ix: Instruction): seq<Option<Ballot>> {
    match ix
    case VoteV0(_, _, _, inner) => [inner]
    case ProxiedVoteV0(_, _, _, _, _, inner) => [inner]
    case CountProxyVoteV0(_, _, _, _, _, inners) => if inners.Some? then inners.value else []
    case RelinquishVote(_, _, _) => []
    case OtherInstruction => []
  }

  /** Who a voting instruction's marker belongs to if it is new. */
  ghost function OwnerIn(ix: Instruction, fetch: string -> Option<string>): Info
    requires ix.VoteV0? || ix.ProxiedVoteV0? || ix.CountProxyVoteV0?
  {
    if ix.VoteV0? then ix.info
    else Info(ix.voter, ix.registrar,
              if ix.position.Some? && fetch(ix.position.value).Some? then fetch(ix.position.value).value
              else DEFAULT_KEY)
  }

  /** Some ballot is for this choice. */
  ghost predicate VotesFor(ballots: seq<Option<Ballot>>, c: Choice) {
    exists i :: 0 <= i < |ballots| && ballots[i].Some? && ballots[i].value.choice == c
  }

  /** The marker has its old choices and those voted for, the last ballot's weight, and its owner unless it is new. */
  ghost predicate BallotsCounted(
      before: Markers, after: Markers, m: MarkerKey, info: Info, ballots: seq<Option<Ballot>>)
    requires ballots != []
  {
    var n := |ballots| - 1;
    && m in after && ballots[n].Some? && after[m].weight == ballots[n].value.weight
    && (forall c :: c in after[m].choices <==> (m in before && c in before[m].choices) || VotesFor(ballots, c))
    && after[m].info == (if m in before then before[m].info else info)
  }

  /** The marker has its old choices without this one, and is gone if there are none. */
  ghost predicate ChoiceGone(before: Markers, after: Markers, m: MarkerKey, choice: Choice) {
    && (m in after <==> m in before && exists c :: c in before[m].choices && c != choice)
    && (m in after ==>
          && (forall c :: c in after[m].choices <==> c in before[m].choices && c != choice)
          && after[m].weight == before[m].weight && after[m].info == before[m].info)
  }

  /** Nothing but this marker of this proposal differs. */
  ghost predicate OnlyMarkerChanged(votes: Votes, votes': Votes, p: Proposal, m: MarkerKey) {
    && votes'.Keys == votes.Keys
    && forall q, k :: q in votes && (q != p || k != m) ==>
         && (k in votes'[q] <==> k in votes[q])
         && (k in votes[q] ==> votes'[q][k] == votes[q][k])
  }

  /** The effect of an instruction the script gets through. */
  ghost predicate HasEffect(votes: Votes, votes': Votes, ix: Instruction, fetch: string -> Option<string>) {
    match ix
    case OtherInstruction => votes' == votes
    case RelinquishVote(p, m, choice) =>
      && p in votes && OnlyMarkerChanged(votes, votes', p, m)
      && ChoiceGone(votes[p], votes'[p], m, choice)
    case _ =>
      if Ballots(ix) == [] then votes' == votes
      else
        && ix.proposal in votes && OnlyMarkerChanged(votes, votes', ix.proposal, ix.marker)
        && BallotsCounted(votes[ix.proposal], votes'[ix.proposal], ix.marker, OwnerIn(ix, fetch), Ballots(ix))
  }

  /** The script gets through an instruction exactly if its ballots can be decoded and its proposal is tracked. */
  ghost predicate GetsThrough(votes: Votes, ix: Instruction) {
    && (forall i :: 0 <= i < |Ballots(ix)| ==> Ballots(ix)[i].Some?)
    && (Ballots(ix) != [] || ix.RelinquishVote? ==> ix.proposal in votes)
  }

  lemma {:induction false} CastAllIff(p: Proposal, m: MarkerKey, info: Info, ballots: seq<Option<Ballot>>)
    ensures CastAll(p, m, info, ballots).Some? <==> forall i :: 0 <= i < |ballots| ==> ballots[i].Some?
  {
    if ballots != [] {
      CastAllIff(p, m, info, ballots[..|ballots| - 1]);
    }
  }

  /** A voting instruction's events are its ballots, cast for its owner. */
  lemma EventsAreBallots(ix: Instruction, fetch: string -> Option<string>)
    requires ix.VoteV0? || ix.ProxiedVoteV0? || ix.CountProxyVoteV0?
    ensures EventsOf(ix, fetch) == CastAll(ix.proposal, ix.marker, OwnerIn(ix, fetch), Ballots(ix))
  {
  }

  lemma GetsThroughIff(votes: Votes, ix: Instruction, fetch: string -> Option<string>)
    ensures Replayable(votes, EventsOf(ix, fetch)) <==> GetsThrough(votes, ix)
  {
    if ix.VoteV0? || ix.ProxiedVoteV0? || ix.CountProxyVoteV0? {
      hide Replayable, EventsOf, CastAll;
      EventsAreBallots(ix, fetch);
      VoteGetsThroughIff(votes, ix.proposal, ix.marker, OwnerIn(ix, fetch), Ballots(ix));
    } else if ix.RelinquishVote? {
      assert EventsOf(ix, fetch).value[0].proposal == ix.proposal;
    }
  }

  lemma VoteGetsThroughIff(votes: Votes, p: Proposal, m: MarkerKey, info: Info, ballots: seq<Option<Ballot>>)
    ensures Replayable(votes, CastAll(p, m, info, ballots)) <==>
      (forall i :: 0 <= i < |ballots| ==> ballots[i].Some?) && (ballots != [] ==> p in votes)
  {
    CastAllIff(p, m, info, ballots);
    if CastAll(p, m, info, ballots).Some? {
      CastAllOn(p, m, info, ballots);
      var events := CastAll(p, m, info, ballots).value;
      if ballots != [] {
        assert events[0].proposal == p;
      }
    }
  }

  lemma CastCounted(before: Markers, now: Markers, m: MarkerKey, e: Event, ballots: seq<Option<Ballot>>, ballot: Ballot)
    requires e.Cast? && e.marker == m && e.choice == ballot.choice && e.weight == ballot.weight
    requires if ballots == [] then now == before else BallotsCounted(before, now, m, e.info, ballots)
    ensures BallotsCounted(before, CastInto(now, e), m, e.info, ballots + [Some(ballot)])
  {
    var more, after := ballots + [Some(ballot)], CastInto(now, e);
    forall c
      ensures VotesFor(more, c) <==> VotesFor(ballots, c) || c == ballot.choice
    {
      assert more[|ballots|] == Some(ballot);
      assert forall i :: 0 <= i < |ballots| ==> more[i] == ballots[i];
    }
    assert forall c :: c in after[m].choices <==> (m in now && c in now[m].choices) || c == ballot.choice;
  }

  lemma ReplayLast(votes: Votes, events: seq<Event>, e: Event)
    requires Tracked(votes, events) && e.proposal in votes
    ensures Tracked(votes, events + [e])
    ensures Replay(votes, events + [e]) == Apply(Replay(votes, events), e)
  {
    SnocPrefix(events, e);
  }

  lemma CastChangesOnly(votes: Votes, now: Votes, e: Event)
    requires e.Cast? && e.proposal in votes && OnlyMarkerChanged(votes, now, e.proposal, e.marker)
    ensures e.proposal in now && OnlyMarkerChanged(votes, Apply(now, e), e.proposal, e.marker)
    ensures Apply(now, e)[e.proposal] == CastInto(now[e.proposal], e)
  {
    assert e.proposal in now.Keys;
  }

  lemma {:induction false} CastAllCounted(
      votes: Votes, p: Proposal, m: MarkerKey, info: Info, ballots: seq<Option<Ballot>>)
    requires Replayable(votes, CastAll(p, m, info, ballots)) && p in votes
    ensures var votes' := Replay(votes, CastAll(p, m, info, ballots).value);
      && OnlyMarkerChanged(votes, votes', p, m)
      && (if ballots == [] then votes' == votes else BallotsCounted(votes[p], votes'[p], m, info, ballots))
  {
    if ballots != [] {
      hide BallotsCounted, OnlyMarkerChanged, Replay, Apply, CastInto;
      var n := |ballots| - 1;
      CastAllPrefix(p, m, info, ballots, n);
      CastAllOn(p, m, info, ballots[..n]);
      CastAllCounted(votes, p, m, info, ballots[..n]);
      var events := CastAll(p, m, info, ballots[..n]).value;
      var e := Cast(p, m, info, ballots[n].value.choice, ballots[n].value.weight);
      ReplayLast(votes, events, e);
      CastChangesOnly(votes, Replay(votes, events), e);
      CastCounted(votes[p], Replay(votes, events)[p], m, e, ballots[..n], ballots[n].value);
      assert ballots == ballots[..n] + [Some(ballots[n].value)];
    }
  }

  lemma {:induction false} WithoutChoiceMembers(choices: seq<Choice>, choice: Choice)
    ensures forall c :: c in WithoutChoice(choices, choice) <==> c in choices && c != choice
  {
    if choices != [] {
      var n := |choices| - 1;
      WithoutChoiceMembers(choices[..n], choice);
      assert forall c :: c in choices <==> c in choices[..n] || c == choices[n];
    }
  }

  lemma RelinquishRemoves(markers: Markers, e: Event)
    requires e.Relinquished?
    ensures ChoiceGone(markers, RelinquishFrom(markers, e), e.marker, e.choice)
  {
    if e.marker in markers {
      var left := WithoutChoice(markers[e.marker].choices, e.choice);
      WithoutChoiceMembers(markers[e.marker].choices, e.choice);
      if left != [] {
        assert left[0] in left;
      }
    }
  }

  lemma RelinquishHasEffect(votes: Votes, p: Proposal, m: MarkerKey, choice: Choice)
    requires p in votes
    ensures Tracked(votes, [Relinquished(p, m, choice)])
    ensures var votes' := Replay(votes, [Relinquished(p, m, choice)]);
      OnlyMarkerChanged(votes, votes', p, m) && ChoiceGone(votes[p], votes'[p], m, choice)
  {
    var e := Relinquished(p, m, choice);
    ReplayNothing(votes);
    ReplayLast(votes, [], e);
    assert [] + [e] == [e];
    RelinquishRemoves(votes[p], e);
  }

  /** An instruction's events have its effect. */
  lemma EventsHaveEffect(votes: Votes, ix: Instruction, fetch: string -> Option<string>)
    requires Replayable(votes, EventsOf(ix, fetch))
    ensures HasEffect(votes, Replay(votes, EventsOf(ix, fetch).value), ix, fetch)
  {
    GetsThroughIff(votes, ix, fetch);
    hide OnlyMarkerChanged, BallotsCounted, ChoiceGone, Replay, CastAll;
    ReplayNothing(votes);
    if ix.RelinquishVote? {
      RelinquishHasEffect(votes, ix.proposal, ix.marker, ix.choice);
    } else if !ix.OtherInstruction? {
      EventsAreBallots(ix, fetch);
      if Ballots(ix) != [] {
        CastAllCounted(votes, ix.proposal, ix.marker, OwnerIn(ix, fetch), Ballots(ix));
      } else {
        NoBallots(ix.proposal, ix.marker, OwnerIn(ix, fetch));
      }
    }
  }

  lemma NoBallots(p: Proposal, m: MarkerKey, info: Info)
    ensures CastAll(p, m, info, []) == Some([])
  {
  }

  /** These are the markers before and after each instruction, in order. */
  ghost predicate InTurn(
      history: seq<Votes>, first: Votes, last: Votes, ixs: seq<Instruction>, fetch: string -> Option<string>)
  {
    && |history| == |ixs| + 1 && history[0] == first && history[|ixs|] == last
    && forall i :: 0 <= i < |ixs| ==> HasEffect(history[i], history[i + 1], ixs[i], fetch)
  }

  lemma TurnTaken(history: seq<Votes>, first: Votes, before: Votes, after: Votes,
                  ixs: seq<Instruction>, i: nat, fetch: string -> Option<string>)
    requires i < |ixs| && InTurn(history, first, before, ixs[..i], fetch) && HasEffect(before, after, ixs[i], fetch)
    ensures InTurn(history + [after], first, after, ixs[..i + 1], fetch)
  {
    hide HasEffect;
    var more := history + [after];
    forall k | 0 <= k < i + 1
      ensures HasEffect(more[k], more[k + 1], ixs[..i + 1][k], fetch)
    {
      if k < i {
        assert more[k] == history[k] && more[k + 1] == history[k + 1] && ixs[..i][k] == ixs[k];
      }
    }
  }

  lemma ReplayNothing(votes: Votes)
    ensures Replay(votes, []) == votes
  {
  }

  class Replayer {
    var votesByProposal: Votes
    var positionCache: map<string, string>
    const fetch: string -> Option<string>  // positionV0.fetchNullable

    /** Every cached mint is what the chain says. */
    ghost predicate Valid()
      reads this
    {
      forall position :: position in positionCache ==> positionCache[position] == MintOf(fetch, Some(position))
    }

    constructor (proposals: seq<Proposal>, fetch: string -> Option<string>)
      ensures Valid() && this.fetch == fetch
      ensures votesByProposal == map p | p in proposals :: map[]
    {
      this.fetch := fetch;
      positionCache := map[];
      var votes: Votes := map[];
      for i := 0 to |proposals|
        invariant votes == map p | p in proposals[..i] :: map[]
      {
        assert proposals[..i + 1] == proposals[..i] + [proposals[i]];
        votes := votes[proposals[i] := map[]];
      }
      assert proposals[..|proposals|] == proposals;
      votesByProposal := votes;
    }

    method LookupMint(position: Option<string>) returns (mint: string)
      requires Valid()
      modifies this`positionCache
      ensures Valid() && mint == MintOf(fetch, position)
    {
      if position.Some? {
        if position.value !in positionCache {
          var posData := fetch(position.value);
          positionCache := positionCache[position.value := if posData.Some? then posData.value else DEFAULT_KEY];
        }
        mint := positionCache[position.value];
      } else {
        mint := DEFAULT_KEY;
      }
    }

    /** The common tail of the three voting branches; false when the script throws. */
    method CastVote(p: Proposal, m: MarkerKey, info: Info, inner: Option<Ballot>) returns (ok: bool)
      modifies this`votesByProposal
      ensures ok <==> inner.Some? && p in old(votesByProposal)
      ensures votesByProposal == if !ok then old(votesByProposal)
        else Apply(old(votesByProposal), Cast(p, m, info, inner.value.choice, inner.value.weight))
    {
      if inner.None? || p !in votesByProposal {
        return false;
      }
      var Ballot(weight, choice) := inner.value;
      var propMap := votesByProposal[p];
      var voteMarker := if m in propMap then propMap[m] else VoteMarker(info, [choice], weight);
      if choice !in voteMarker.choices {
        voteMarker := voteMarker.(choices := voteMarker.choices + [choice]);
      }
      if voteMarker.weight != weight {
        voteMarker := voteMarker.(weight := weight);
      }
      votesByProposal := votesByProposal[p := propMap[m := voteMarker]];
      return true;
    }

    method Relinquish(p: Proposal, m: MarkerKey, choice: Choice) returns (ok: bool)
      modifies this`votesByProposal
      ensures ok <==> p in old(votesByProposal)
      ensures votesByProposal == if !ok then old(votesByProposal)
        else Apply(old(votesByProposal), Relinquished(p, m, choice))
    {
      if p !in votesByProposal {
        return false;
      }
      var propMap := votesByProposal[p];
      if m in propMap {
        var voteMarker := propMap[m].(choices := WithoutChoice(propMap[m].choices, choice));
        if |voteMarker.choices| == 0 {
          propMap := propMap - {m};
        } else {
          propMap := propMap[m := voteMarker];
        }
      }
      votesByProposal := votesByProposal[p := propMap];
      return true;
    }

    method CastVotes(p: Proposal, m: MarkerKey, info: Info, inners: seq<Option<Ballot>>) returns (ok: bool)
      modifies this`votesByProposal
      ensures ok <==> Replayable(old(votesByProposal), CastAll(p, m, info, inners))
      ensures ok ==> votesByProposal == Replay(old(votesByProposal), CastAll(p, m, info, inners).value)
    {
      ghost var votes := votesByProposal;
      for i := 0 to |inners|
        invariant Replayable(votes, CastAll(p, m, info, inners[..i]))
        invariant votesByProposal == Replay(votes, CastAll(p, m, info, inners[..i]).value)
      {
        assert inners[..i + 1][..i] == inners[..i];
        ghost var before := CastAll(p, m, info, inners[..i]).value;
        CastAllOn(p, m, info, inners[..i]);
        ok := CastVote(p, m, info, inners[i]);
        if !ok {
          if CastAll(p, m, info, inners).Some? {
            CastAllPrefix(p, m, info, inners, i + 1);
            CastAllOn(p, m, info, inners);
            assert CastAll(p, m, info, inners).value[i].proposal == p;
          }
          return;
        }
        ghost var e := Cast(p, m, info, inners[i].value.choice, inners[i].value.weight);
        SnocPrefix(before, e);
        assert Tracked(votes, before + [e]);
      }
      assert inners[..|inners|] == inners;
      return true;
    }

    /** The body of the innermost loop. */
    method ProcessInstruction(ix: Instruction) returns (ok: bool)
      requires Valid()
      modifies this
      ensures Valid()
      ensures ok <==> Replayable(old(votesByProposal), EventsOf(ix, fetch))
      ensures ok ==> votesByProposal == Replay(old(votesByProposal), EventsOf(ix, fetch).value)
      ensures ok <==> GetsThrough(old(votesByProposal), ix)
      ensures ok ==> HasEffect(old(votesByProposal), votesByProposal, ix, fetch)
    {
      hide HasEffect, GetsThrough;
      GetsThroughIff(votesByProposal, ix, fetch);
      if Replayable(votesByProposal, EventsOf(ix, fetch)) {
        EventsHaveEffect(votesByProposal, ix, fetch);
      }
      match ix
      case VoteV0(p, m, info, inner) =>
        ok := CastVotes(p, m, info, [inner]);
      case ProxiedVoteV0(p, m, voter, registrar, position, inner) =>
        var mint := LookupMint(position);
        ok := CastVotes(p, m, Info(voter, registrar, mint), [inner]);
      case CountProxyVoteV0(p, m, voter, registrar, position, inners) =>
        var mint := LookupMint(position);
        if inners.None? {
          return true;
        }
        ok := CastVotes(p, m, Info(voter, registrar, mint), inners.value);
      case RelinquishVote(p, m, choice) =>
        ghost var e := Relinquished(p, m, choice);
        ok := Relinquish(p, m, choice);
        assert [e][..0] == [] && [e][0] == e;
      case OtherInstruction =>
        return true;
    }

    /** The replay of one stream of instructions; false as soon as the script throws. */
    method ReplayStream(ixs: seq<Instruction>) returns (ok: bool)
      requires Valid()
      modifies this
      ensures Valid()
      ensures ok <==> Replayable(old(votesByProposal), AllEvents(ixs, fetch))
      ensures ok ==> votesByProposal == Replay(old(votesByProposal), AllEvents(ixs, fetch).value)
      ensures ok ==> exists history :: InTurn(history, old(votesByProposal), votesByProposal, ixs, fetch)
    {
      hide HasEffect, GetsThrough;
      ghost var votes := votesByProposal;
      ghost var history := [votes];
      for i := 0 to |ixs|
        invariant Valid()
        invariant Replayable(votes, AllEvents(ixs[..i], fetch))
        invariant votesByProposal == Replay(votes, AllEvents(ixs[..i], fetch).value)
        invariant InTurn(history, votes, votesByProposal, ixs[..i], fetch)
      {
        ghost var before := votesByProposal;
        ok := ProcessInstruction(ixs[i]);
        if !ok {
          if Replayable(votes, AllEvents(ixs, fetch)) {
            PartReplayable(votes, before, ixs, fetch, i);
          }
          return;
        }
        assert ixs[..i + 1][..i] == ixs[..i];
        ReplayAppend(votes, AllEvents(ixs[..i], fetch).value, EventsOf(ixs[i], fetch).value);
        TurnTaken(history, votes, before, votesByProposal, ixs, i, fetch);
        history := history + [votesByProposal];
      }
      assert ixs[..|ixs|] == ixs;
      return true;
    }
  }
}
