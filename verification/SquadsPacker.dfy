/**
  The greedy packer of packages/helium-admin-cli/src/squads-batch-optimizer.ts.

  Buckets of instructions are put, in order and without splitting a bucket, into messages whose
  serialized size must not exceed a limit.  The serialized size is a parameter: it is whatever
  calculateSerializedTxSize returns, which reports limit + 1 when serialization throws.
 */
module SquadsPacker {
  import opened Common

  const BATCH_ADD_MAX_SIZE_CHECK := 1100

  predicate Fits<T>(size: seq<T> -> int, ixs: seq<T>) {
    size(ixs) <= BATCH_ADD_MAX_SIZE_CHECK
  }

  /** Any contiguous part of a list that fits also fits. */
  ghost predicate Monotone<T(!new)>(size: seq<T> -> int) {
    forall ixs: seq<T>, i, j :: 0 <= i <= j <= |ixs| && Fits(size, ixs) ==> Fits(size, ixs[i..j])
  }

  // ---------------------------------------------------------------------------------------------
  // The loop's state, and what one bucket does to it
  // ---------------------------------------------------------------------------------------------

  datatype Packing<T> = Packing(
    messages: seq<seq<T>>,  // transactionMessages
    current: seq<T>,        // currentMessage.instructions
    failed: seq<int>,       // failedBuckets
    indexes: seq<int>)      // bucketTxMessageIndexes
  {
    /** The messages as they stand if the loop ended here. */
    function Closed(): seq<seq<T>> {
      if current == [] then messages else messages + [current]
    }
  }

  function Step<T(==)>(size: seq<T> -> int, s: Packing<T>, bucket: seq<T>, index: nat): Packing<T> {
    if bucket == [] then
      s.(failed := s.failed + [index], indexes := s.indexes + [-1])
    else if Fits(size, s.current + bucket) then
      s.(current := s.current + bucket, indexes := s.indexes + [|s.messages|])
    else
      var closed := s.Closed();
      if Fits(size, bucket) then
        Packing(closed, bucket, s.failed, s.indexes + [|closed|])
      else
        Packing(closed, [], s.failed + [index], s.indexes + [-1])
  }

  function PackFrom<T(==)>(size: seq<T> -> int, s: Packing<T>, buckets: seq<seq<T>>, index: nat): Packing<T>
    decreases |buckets|
  {
    if buckets == [] then s
    else PackFrom(size, Step(size, s, buckets[0], index), buckets[1..], index + 1)
  }

  function Pack<T(==)>(size: seq<T> -> int, buckets: seq<seq<T>>): Packing<T> {
    PackFrom(size, Packing([], [], [], []), buckets, 0)
  }

  // ---------------------------------------------------------------------------------------------
  // Conservation, the index map and the failure set, for every bucket list
  // ---------------------------------------------------------------------------------------------

  /** The buckets recorded as placed, in order. */
  function Placed<T>(buckets: seq<seq<T>>, indexes: seq<int>): seq<seq<T>>
    requires |buckets| == |indexes|
  {
    if buckets == [] then []
    else
      var n := |buckets| - 1;
      Placed(buckets[..n], indexes[..n]) + if indexes[n] == -1 then [] else [buckets[n]]
  }

  ghost predicate Splits<T>(whole: seq<T>, front: seq<T>, part: seq<T>, back: seq<T>) {
    whole == front + part + back
  }

  /** The part occurs contiguously in the whole. */
  ghost predicate LiesIn<T(!new)>(part: seq<T>, whole: seq<T>) {
    exists front, back :: Splits(whole, front, part, back)
  }

  ghost predicate Conserved<T>(s: Packing<T>, buckets: seq<seq<T>>) {
    && |s.indexes| == |buckets|
    && Flatten(s.messages) + s.current == Flatten(Placed(buckets, s.indexes))
  }

  ghost predicate MessagesFit<T>(size: seq<T> -> int, s: Packing<T>) {
    && (forall m :: 0 <= m < |s.messages| ==> s.messages[m] != [] && Fits(size, s.messages[m]))
    && (s.current == [] || Fits(size, s.current))
  }

  ghost predicate IndexesPoint<T(!new)>(s: Packing<T>, buckets: seq<seq<T>>) {
    && |s.indexes| == |buckets|
    && (forall k :: 0 <= k < |buckets| && s.indexes[k] != -1 ==>
          && buckets[k] != []
          && 0 <= s.indexes[k] < |s.Closed()|
          && LiesIn(buckets[k], s.Closed()[s.indexes[k]]))
    && (forall j, k :: 0 <= j < k < |buckets| && s.indexes[j] != -1 && s.indexes[k] != -1 ==>
          s.indexes[j] <= s.indexes[k])
  }

  /** The buckets recorded for one message, in order. */
  ghost function RecordedFor<T>(buckets: seq<seq<T>>, indexes: seq<int>, m: nat): seq<seq<T>>
    requires |buckets| == |indexes|
  {
    if buckets == [] then []
    else
      var n := |buckets| - 1;
      RecordedFor(buckets[..n], indexes[..n], m) + if indexes[n] == m then [buckets[n]] else []
  }

  /** Every message is made of exactly the buckets recorded for it, in order. */
  ghost predicate MessagesAreRecorded<T>(s: Packing<T>, buckets: seq<seq<T>>) {
    && |s.indexes| == |buckets|
    && (forall k :: 0 <= k < |buckets| ==> -1 <= s.indexes[k] < |s.Closed()|)
    && (forall m :: 0 <= m < |s.Closed()| ==> s.Closed()[m] == Flatten(RecordedFor(buckets, s.indexes, m)))
  }

  ghost predicate FailedMatches<T>(s: Packing<T>, n: nat) {
    && |s.indexes| == n
    && StrictlyAscending(s.failed)
    && (forall k :: k in s.failed <==> 0 <= k < n && s.indexes[k] == -1)
  }

  /** What holds of the state after the given buckets were processed. */
  ghost predicate PackedSoFar<T(!new)>(size: seq<T> -> int, s: Packing<T>, buckets: seq<seq<T>>) {
    && Conserved(s, buckets) && MessagesFit(size, s) && IndexesPoint(s, buckets)
    && MessagesAreRecorded(s, buckets) && FailedMatches(s, |buckets|)
  }

  lemma LiesInExtended<T(!new)>(part: seq<T>, whole: seq<T>, more: seq<T>)
    requires LiesIn(part, whole)
    ensures LiesIn(part, whole + more)
  {
    var front, back :| Splits(whole, front, part, back);
    assert Splits(whole + more, front, part, back + more);
  }

  lemma LiesAtEnd<T(!new)>(front: seq<T>, part: seq<T>)
    ensures LiesIn(part, front + part)
  {
    assert Splits(front + part, front, part, []);
  }

  lemma LiesInItself<T(!new)>(part: seq<T>)
    ensures LiesIn(part, part)
  {
    assert Splits(part, [], part, []);
  }

  lemma StepKeepsFailed<T>(size: seq<T> -> int, s: Packing<T>, n: nat, bucket: seq<T>)
    requires FailedMatches(s, n)
    ensures FailedMatches(Step(size, s, bucket, n), n + 1)
  {
    var s' := Step(size, s, bucket, n);
    assert forall i :: 0 <= i < |s.failed| ==> s.failed[i] in s.failed;
    assert forall k :: 0 <= k < n ==> s'.indexes[k] == s.indexes[k];
    if |s'.failed| > |s.failed| {
      assert s'.failed == s.failed + [n];
      assert forall k :: k in s'.failed <==> k in s.failed || k == n;
    }
  }

  lemma PlacedSnoc<T>(buckets: seq<seq<T>>, indexes: seq<int>, bucket: seq<T>, index: int)
    requires |buckets| == |indexes|
    ensures Placed(buckets + [bucket], indexes + [index])
         == Placed(buckets, indexes) + if index == -1 then [] else [bucket]
  {
    assert (buckets + [bucket])[..|buckets|] == buckets;
    assert (indexes + [index])[..|indexes|] == indexes;
  }

  lemma ClosedConcatenated<T>(s: Packing<T>)
    ensures Flatten(s.Closed()) == Flatten(s.messages) + s.current
  {
    FlattenSnoc(s.messages, s.current);
  }

  lemma StepContent<T>(size: seq<T> -> int, s: Packing<T>, bucket: seq<T>, index: nat)
    ensures var s' := Step(size, s, bucket, index);
      && |s'.indexes| == |s.indexes| + 1
      && s'.indexes[..|s.indexes|] == s.indexes
      && Flatten(s'.messages) + s'.current
         == Flatten(s.messages) + s.current + if s'.indexes[|s.indexes|] == -1 then [] else bucket
  {
    ClosedConcatenated(s);
    var content := Flatten(s.messages) + s.current;
    assert content + [] == content;
  }

  lemma StepConserves<T>(size: seq<T> -> int, s: Packing<T>, buckets: seq<seq<T>>, bucket: seq<T>)
    requires Conserved(s, buckets)
    ensures Conserved(Step(size, s, bucket, |buckets|), buckets + [bucket])
  {
    var indexes := Step(size, s, bucket, |buckets|).indexes;
    StepContent(size, s, bucket, |buckets|);
    assert indexes == s.indexes + [indexes[|buckets|]];
    PlacedSnoc(buckets, s.indexes, bucket, indexes[|buckets|]);
    var placed := Placed(buckets, s.indexes);
    FlattenSnoc(placed, bucket);
    assert placed + [] == placed;
  }

  lemma StepKeepsIndexes<T(!new)>(size: seq<T> -> int, s: Packing<T>, buckets: seq<seq<T>>, bucket: seq<T>)
    requires IndexesPoint(s, buckets)
    ensures IndexesPoint(Step(size, s, bucket, |buckets|), buckets + [bucket])
  {
    hide Fits, LiesIn;
    var s' := Step(size, s, bucket, |buckets|);
    var all := buckets + [bucket];
    var n := |buckets|;
    assert forall k :: 0 <= k < n ==> s'.indexes[k] == s.indexes[k] && all[k] == buckets[k];
    forall k | 0 <= k < n && s'.indexes[k] != -1
      ensures 0 <= s'.indexes[k] < |s'.Closed()|
      ensures LiesIn(all[k], s'.Closed()[s'.indexes[k]])
    {
      var m := s.indexes[k];
      LiesInExtended(buckets[k], s.Closed()[m], bucket);
      assert s'.Closed()[m] == s.Closed()[m] || s'.Closed()[m] == s.Closed()[m] + bucket;
    }
    if s'.indexes[n] != -1 {
      LiesAtEnd(s.current, bucket);
      LiesInItself(bucket);
      assert s'.indexes[n] == |s'.messages| && |s'.Closed()| == |s'.messages| + 1;
    }
  }

  lemma RecordedSnoc<T>(buckets: seq<seq<T>>, indexes: seq<int>, bucket: seq<T>, index: int, m: nat)
    requires |buckets| == |indexes|
    ensures RecordedFor(buckets + [bucket], indexes + [index], m)
         == RecordedFor(buckets, indexes, m) + if index == m then [bucket] else []
  {
    assert (buckets + [bucket])[..|buckets|] == buckets;
    assert (indexes + [index])[..|indexes|] == indexes;
  }

  lemma {:induction false} NoneRecorded<T>(buckets: seq<seq<T>>, indexes: seq<int>, m: nat)
    requires |buckets| == |indexes| && forall k :: 0 <= k < |indexes| ==> indexes[k] != m
    ensures RecordedFor(buckets, indexes, m) == []
  {
    if buckets != [] {
      NoneRecorded(buckets[..|buckets| - 1], indexes[..|buckets| - 1], m);
    }
  }

  /** What a step does to one message: it is left alone, or gets the bucket at its end. */
  lemma StepMessage<T>(size: seq<T> -> int, s: Packing<T>, bucket: seq<T>, index: nat, m: nat)
    requires m < |Step(size, s, bucket, index).Closed()|
    ensures var s' := Step(size, s, bucket, index);
      && |s.Closed()| <= |s'.Closed()| <= |s.Closed()| + 1
      && |s'.indexes| == |s.indexes| + 1
      && s'.Closed()[m] == (if m < |s.Closed()| then s.Closed()[m] else [])
                           + (if s'.indexes[|s.indexes|] == m then bucket else [])
  {
    hide Fits;
    var s' := Step(size, s, bucket, index);
    if m < |s.Closed()| {
      assert s.Closed()[m] + [] == s.Closed()[m];
    } else {
      assert [] + bucket == bucket;
    }
  }

  lemma StepKeepsRecorded<T>(size: seq<T> -> int, s: Packing<T>, buckets: seq<seq<T>>, bucket: seq<T>)
    requires MessagesAreRecorded(s, buckets)
    ensures MessagesAreRecorded(Step(size, s, bucket, |buckets|), buckets + [bucket])
  {
    hide Fits;
    var s', n := Step(size, s, bucket, |buckets|), |buckets|;
    var index := s'.indexes[n];
    assert s'.indexes == s.indexes + [index] && -1 <= index < |s'.Closed()|;
    forall m | 0 <= m < |s'.Closed()|
      ensures s'.Closed()[m] == Flatten(RecordedFor(buckets + [bucket], s'.indexes, m))
    {
      hide Step, RecordedFor;
      StepMessage(size, s, bucket, n, m);
      var recorded := RecordedFor(buckets, s.indexes, m);
      RecordedSnoc(buckets, s.indexes, bucket, index, m);
      FlattenSnoc(recorded, bucket);
      if m >= |s.Closed()| {
        NoneRecorded(buckets, s.indexes, m);
      }
      assert recorded + [] == recorded && Flatten(recorded) + [] == Flatten(recorded);
    }
  }

  lemma StepKeepsFit<T>(size: seq<T> -> int, s: Packing<T>, bucket: seq<T>, index: nat)
    requires MessagesFit(size, s)
    ensures MessagesFit(size, Step(size, s, bucket, index))
  {
  }

  lemma StepKeepsPacked<T(!new)>(size: seq<T> -> int, s: Packing<T>, buckets: seq<seq<T>>, bucket: seq<T>)
    requires PackedSoFar(size, s, buckets)
    ensures PackedSoFar(size, Step(size, s, bucket, |buckets|), buckets + [bucket])
  {
    hide Step, Conserved, MessagesFit, IndexesPoint, MessagesAreRecorded, FailedMatches;
    StepConserves(size, s, buckets, bucket);
    StepKeepsFit(size, s, bucket, |buckets|);
    StepKeepsIndexes(size, s, buckets, bucket);
    StepKeepsRecorded(size, s, buckets, bucket);
    StepKeepsFailed(size, s, |buckets|, bucket);
  }

  /** What every bucket keeps, the whole run keeps. */
  lemma {:induction false} PackInduction<T(!new)>(
      size: seq<T> -> int, s: Packing<T>, done: seq<seq<T>>, rest: seq<seq<T>>,
      inv: (Packing<T>, seq<seq<T>>) -> bool)
    requires forall p, bs, b :: inv(p, bs) ==> inv(Step(size, p, b, |bs|), bs + [b])
    requires inv(s, done)
    ensures inv(PackFrom(size, s, rest, |done|), done + rest)
    decreases |rest|
  {
    if rest == [] {
      assert done + rest == done;
    } else {
      PackInduction(size, Step(size, s, rest[0], |done|), done + [rest[0]], rest[1..], inv);
      assert done + [rest[0]] + rest[1..] == done + rest;
    }
  }

  /**
    For every bucket list and every size function: the messages concatenated are the placed
    buckets concatenated in order, each message is nonempty and fits, each message is exactly the
    buckets whose index names it, in order, indexes never go back, and the failed list is, in
    ascending order, exactly the positions recorded as -1.
   */
  lemma PackIsFaithful<T(!new)>(size: seq<T> -> int, buckets: seq<seq<T>>)
    ensures PackedSoFar(size, Pack(size, buckets), buckets)
    ensures var p := Pack(size, buckets);
      Flatten(p.Closed()) == Flatten(Placed(buckets, p.indexes))
  {
    forall p, bs, b | PackedSoFar(size, p, bs)
      ensures PackedSoFar(size, Step(size, p, b, |bs|), bs + [b])
    {
      StepKeepsPacked(size, p, bs, b);
    }
    PackInduction(size, Packing([], [], [], []), [], buckets, (p, bs) => PackedSoFar(size, p, bs));
    assert [] + buckets == buckets;
    ClosedConcatenated(Pack(size, buckets));
  }

  // The failure set

  ghost predicate FailedByNature<T>(size: seq<T> -> int, s: Packing<T>, buckets: seq<seq<T>>) {
    && |s.indexes| == |buckets|
    && forall k :: 0 <= k < |buckets| ==> (s.indexes[k] == -1 <==> buckets[k] == [] || !Fits(size, buckets[k]))
  }

  lemma StepFailsByNature<T(!new)>(size: seq<T> -> int, s: Packing<T>, buckets: seq<seq<T>>, bucket: seq<T>)
    requires Monotone(size) && FailedByNature(size, s, buckets)
    ensures FailedByNature(size, Step(size, s, bucket, |buckets|), buckets + [bucket])
  {
    var joined := s.current + bucket;
    assert joined[|s.current|..|joined|] == bucket;
  }

  /** With a monotone size, the failed buckets are exactly the empty ones and the ones too big alone. */
  lemma FailedExactly<T(!new)>(size: seq<T> -> int, buckets: seq<seq<T>>)
    requires Monotone(size)
    ensures forall k :: k in Pack(size, buckets).failed <==>
      0 <= k < |buckets| && (buckets[k] == [] || !Fits(size, buckets[k]))
  {
    PackIsFaithful(size, buckets);
    forall p, bs, b | FailedByNature(size, p, bs)
      ensures FailedByNature(size, Step(size, p, b, |bs|), bs + [b])
    {
      StepFailsByNature(size, p, bs, b);
    }
    PackInduction(size, Packing([], [], [], []), [], buckets, (p, bs) => FailedByNature(size, p, bs));
    assert [] + buckets == buckets;
  }

  // ---------------------------------------------------------------------------------------------
  // Optimality
  // ---------------------------------------------------------------------------------------------

  function NonEmpty<T(==)>(buckets: seq<seq<T>>): seq<seq<T>> {
    if buckets == [] then []
    else if buckets[0] == [] then NonEmpty(buckets[1..])
    else [buckets[0]] + NonEmpty(buckets[1..])
  }

  /** An order-preserving cut of a bucket list into groups that each fit in one message. */
  ghost predicate IsCut<T>(size: seq<T> -> int, buckets: seq<seq<T>>, groups: seq<seq<seq<T>>>) {
    && Flatten(groups) == buckets
    && forall g :: 0 <= g < |groups| ==> Fits(size, Flatten(groups[g]))
  }

  /** How many messages are still to come, given what the open message holds. */
  ghost function Pending<T>(size: seq<T> -> int, current: seq<T>, rest: seq<seq<T>>): nat
    decreases |rest|
  {
    var open := if current == [] then 0 else 1;
    if rest == [] then open
    else if Fits(size, current + rest[0]) then Pending(size, current + rest[0], rest[1..])
    else open + Pending(size, rest[0], rest[1..])
  }

  ghost predicate AllFit<T>(size: seq<T> -> int, buckets: seq<seq<T>>) {
    forall k :: 0 <= k < |buckets| ==> buckets[k] != [] && Fits(size, buckets[k])
  }

  /** The nonempty buckets, cut into the runs between the buckets that are too big alone. */
  function Runs<T(==)>(size: seq<T> -> int, buckets: seq<seq<T>>): (runs: seq<seq<seq<T>>>)
    ensures runs != []
  {
    if buckets == [] then [[]]
    else
      var rest := Runs(size, buckets[1..]);
      if buckets[0] == [] then rest
      else if !Fits(size, buckets[0]) then [[]] + rest
      else [[buckets[0]] + rest[0]] + rest[1..]
  }

  lemma {:induction false} RunsFit<T>(size: seq<T> -> int, buckets: seq<seq<T>>)
    ensures forall r :: r in Runs(size, buckets) ==> AllFit(size, r)
  {
    if buckets != [] {
      RunsFit(size, buckets[1..]);
      var rest := Runs(size, buckets[1..]);
      assert rest[0] in rest && forall r :: r in rest[1..] ==> r in rest;
    }
  }

  /** With no bucket too big alone there is one run: all nonempty buckets. */
  lemma {:induction false} OneRun<T>(size: seq<T> -> int, buckets: seq<seq<T>>)
    requires AllFit(size, NonEmpty(buckets))
    ensures Runs(size, buckets) == [NonEmpty(buckets)]
  {
    if buckets != [] {
      var todo := NonEmpty(buckets);
      if buckets[0] != [] {
        assert todo[0] == buckets[0] && todo[1..] == NonEmpty(buckets[1..]);
        assert forall k :: 0 <= k < |todo[1..]| ==> todo[1..][k] == todo[k + 1];
      }
      OneRun(size, buckets[1..]);
    }
  }

  /** The messages for several runs, each started afresh. */
  ghost function PendingAll<T>(size: seq<T> -> int, runs: seq<seq<seq<T>>>): nat {
    if runs == [] then 0 else Pending(size, [], runs[0]) + PendingAll(size, runs[1..])
  }

  /** What does not fit alone does not fit at the end of something longer. */
  ghost predicate StaysTooBig<T(!new)>(size: seq<T> -> int, buckets: seq<seq<T>>) {
    forall k, front: seq<T> :: 0 <= k < |buckets| && Fits(size, front + buckets[k]) ==> Fits(size, buckets[k])
  }

  lemma MonotoneStaysTooBig<T(!new)>(size: seq<T> -> int, buckets: seq<seq<T>>)
    requires Monotone(size)
    ensures StaysTooBig(size, buckets)
  {
    forall k, front: seq<T> | 0 <= k < |buckets| && Fits(size, front + buckets[k])
      ensures Fits(size, buckets[k])
    {
      var whole := front + buckets[k];
      assert whole[|front|..|whole|] == buckets[k];
    }
  }

  lemma {:induction false} FittingStaysFitting<T(!new)>(size: seq<T> -> int, buckets: seq<seq<T>>)
    requires AllFit(size, NonEmpty(buckets))
    ensures forall k :: 0 <= k < |buckets| && buckets[k] != [] ==> Fits(size, buckets[k])
  {
    if buckets != [] {
      var todo := NonEmpty(buckets);
      if buckets[0] != [] {
        assert todo[0] == buckets[0] && todo[1..] == NonEmpty(buckets[1..]);
        assert forall k :: 0 <= k < |todo[1..]| ==> todo[1..][k] == todo[k + 1];
      }
      FittingStaysFitting(size, buckets[1..]);
      assert forall k :: 0 < k < |buckets| ==> buckets[k] == buckets[1..][k - 1];
    }
  }

  /** The number of messages, run by run. */
  lemma {:induction false} PackFromCounts<T(!new)>(
      size: seq<T> -> int, s: Packing<T>, buckets: seq<seq<T>>, index: nat)
    requires forall k :: 0 <= k < |buckets| && buckets[k] != [] ==> StaysTooBig(size, [buckets[k]])
    ensures var runs := Runs(size, buckets);
      |PackFrom(size, s, buckets, index).Closed()|
      == |s.messages| + Pending(size, s.current, runs[0]) + PendingAll(size, runs[1..])
    decreases |buckets|
  {
    if buckets != [] {
      var b := buckets[0];
      var rest, runs := Runs(size, buckets[1..]), Runs(size, buckets);
      assert forall k :: 0 <= k < |buckets[1..]| ==> buckets[1..][k] == buckets[k + 1];
      PackFromCounts(size, Step(size, s, b, index), buckets[1..], index + 1);
      if b != [] {
        if Fits(size, b) {
          assert runs[0] == [b] + rest[0] && runs[0][1..] == rest[0] && runs[1..] == rest[1..];
        } else {
          assert StaysTooBig(size, [b]) && [b][0] == b;
          assert !Fits(size, s.current + b);
          assert runs[0] == [] && runs[1..] == rest;
        }
      }
    }
  }

  lemma PackCounts<T(!new)>(size: seq<T> -> int, buckets: seq<seq<T>>)
    requires Monotone(size) || AllFit(size, NonEmpty(buckets))
    ensures |Pack(size, buckets).Closed()| == PendingAll(size, Runs(size, buckets))
  {
    forall k | 0 <= k < |buckets| && buckets[k] != []
      ensures StaysTooBig(size, [buckets[k]])
    {
      if Monotone(size) {
        MonotoneStaysTooBig(size, [buckets[k]]);
      } else {
        FittingStaysFitting(size, buckets);
      }
    }
    PackFromCounts(size, Packing([], [], [], []), buckets, 0);
  }

  /** Holding more in front costs at most one message ... */
  lemma {:induction false} LongerCostsAtMostOne<T(!new)>(
      size: seq<T> -> int, front: seq<T>, back: seq<T>, rest: seq<seq<T>>)
    requires Monotone(size) && AllFit(size, rest)
    ensures Pending(size, front + back, rest) <= 1 + Pending(size, back, rest)
    decreases |rest|, 0
  {
    if rest != [] {
      var b := rest[0];
      var whole := front + back + b;
      assert whole[|front|..|whole|] == back + b;
      assert front + (back + b) == whole;
      assert AllFit(size, rest[1..]);
      if Fits(size, whole) {
        LongerCostsAtMostOne(size, front, back + b, rest[1..]);
      } else if Fits(size, back + b) {
        LongerCostsNoLess(size, back, b, rest[1..]);
      }
    }
  }

  /** ... and never saves one. */
  lemma {:induction false} LongerCostsNoLess<T(!new)>(
      size: seq<T> -> int, front: seq<T>, back: seq<T>, rest: seq<seq<T>>)
    requires Monotone(size) && AllFit(size, rest) && back != []
    ensures Pending(size, back, rest) <= Pending(size, front + back, rest)
    decreases |rest|, 1
  {
    if rest != [] {
      var b := rest[0];
      var whole := front + back + b;
      assert whole[|front|..|whole|] == back + b;
      assert front + (back + b) == whole;
      assert AllFit(size, rest[1..]);
      if Fits(size, whole) {
        LongerCostsNoLess(size, front, back + b, rest[1..]);
      } else if Fits(size, back + b) {
        LongerCostsAtMostOne(size, back, b, rest[1..]);
      }
    }
  }

  /** A group that fits is taken whole into the open message. */
  lemma {:induction false} TakesFittingGroup<T(!new)>(
      size: seq<T> -> int, current: seq<T>, group: seq<seq<T>>, rest: seq<seq<T>>)
    requires Monotone(size)
    requires Fits(size, current + Flatten(group))
    ensures Pending(size, current, group + rest) == Pending(size, current + Flatten(group), rest)
    decreases |group|
  {
    if group == [] {
      assert group + rest == rest;
      assert current + [] == current;
    } else {
      var b := group[0];
      var whole := current + Flatten(group);
      assert whole[0..|current + b|] == current + b;
      assert whole == (current + b) + Flatten(group[1..]);
      assert (group + rest)[1..] == group[1..] + rest;
      TakesFittingGroup(size, current + b, group[1..], rest);
    }
  }

  lemma {:induction false} PendingIsMinimal<T(!new)>(
      size: seq<T> -> int, buckets: seq<seq<T>>, groups: seq<seq<seq<T>>>)
    requires Monotone(size) && AllFit(size, buckets) && IsCut(size, buckets, groups)
    ensures Pending(size, [], buckets) <= |groups|
    decreases |groups|
  {
    if groups != [] {
      var group, rest := groups[0], Flatten(groups[1..]);
      assert buckets == group + rest;
      assert forall k :: 0 <= k < |rest| ==> rest[k] == buckets[|group| + k];
      assert [] + Flatten(group) == Flatten(group);
      TakesFittingGroup(size, [], group, rest);
      assert Flatten(group) + [] == Flatten(group);
      LongerCostsAtMostOne(size, Flatten(group), [], rest);
      PendingIsMinimal(size, rest, groups[1..]);
    }
  }

  /** A cut of the placed buckets in which no group spans a bucket that is too big alone. */
  ghost predicate CutsAround<T>(size: seq<T> -> int, buckets: seq<seq<T>>, cuts: seq<seq<seq<seq<T>>>>) {
    var runs := Runs(size, buckets);
    && |cuts| == |runs|
    && forall r :: 0 <= r < |runs| ==> IsCut(size, runs[r], cuts[r])
  }

  lemma {:induction false} PendingAllIsMinimal<T(!new)>(
      size: seq<T> -> int, runs: seq<seq<seq<T>>>, cuts: seq<seq<seq<seq<T>>>>)
    requires Monotone(size) && |runs| == |cuts|
    requires forall r :: 0 <= r < |runs| ==> AllFit(size, runs[r]) && IsCut(size, runs[r], cuts[r])
    ensures PendingAll(size, runs) <= |Flatten(cuts)|
  {
    if runs != [] {
      PendingIsMinimal(size, runs[0], cuts[0]);
      PendingAllIsMinimal(size, runs[1..], cuts[1..]);
    }
  }

  /**
    With a monotone size, for every bucket list: the packer produces no more messages than any
    order-preserving cut of the placed buckets into groups that fit and do not span a bucket that
    is too big alone.
   */
  lemma PackIsOptimalAroundOversize<T(!new)>(
      size: seq<T> -> int, buckets: seq<seq<T>>, cuts: seq<seq<seq<seq<T>>>>)
    requires Monotone(size) && CutsAround(size, buckets, cuts)
    ensures |Pack(size, buckets).Closed()| <= |Flatten(cuts)|
  {
    var runs := Runs(size, buckets);
    PackCounts(size, buckets);
    RunsFit(size, buckets);
    assert forall r :: 0 <= r < |runs| ==> runs[r] in runs;
    PendingAllIsMinimal(size, runs, cuts);
  }

  /**
    In particular, with no bucket too big alone, it produces no more messages than any
    order-preserving cut of the nonempty buckets into groups that fit.
   */
  lemma PackIsOptimal<T(!new)>(size: seq<T> -> int, buckets: seq<seq<T>>, groups: seq<seq<seq<T>>>)
    requires Monotone(size)
    requires AllFit(size, NonEmpty(buckets))
    requires IsCut(size, NonEmpty(buckets), groups)
    ensures |Pack(size, buckets).Closed()| <= |groups|
  {
    OneRun(size, buckets);
    PackIsOptimalAroundOversize(size, buckets, [groups]);
    FlattenSnoc([], groups);
    assert [] + [groups] == [groups];
  }

  /** The cut the greedy packer makes, group by group. */
  ghost function Groups<T>(size: seq<T> -> int, open: seq<seq<T>>, rest: seq<seq<T>>): seq<seq<seq<T>>>
    decreases |rest|
  {
    var closed := if open == [] then [] else [open];
    if rest == [] then closed
    else if Fits(size, Flatten(open) + rest[0]) then Groups(size, open + [rest[0]], rest[1..])
    else closed + Groups(size, [rest[0]], rest[1..])
  }

  lemma {:induction false} GroupsKeepOrder<T>(size: seq<T> -> int, open: seq<seq<T>>, rest: seq<seq<T>>)
    ensures Flatten(Groups(size, open, rest)) == open + rest
    decreases |rest|
  {
    FlattenSnoc([], open);
    assert [] + [open] == [open];
    if rest == [] {
      assert open + rest == open;
    } else if Fits(size, Flatten(open) + rest[0]) {
      GroupsKeepOrder(size, open + [rest[0]], rest[1..]);
      assert open + [rest[0]] + rest[1..] == open + rest;
    } else {
      GroupsKeepOrder(size, [rest[0]], rest[1..]);
      assert [rest[0]] + rest[1..] == rest;
      FlattenAppend(if open == [] then [] else [open], Groups(size, [rest[0]], rest[1..]));
    }
  }

  lemma {:induction false} GroupsFit<T>(size: seq<T> -> int, open: seq<seq<T>>, rest: seq<seq<T>>)
    requires AllFit(size, rest)
    requires open == [] || (Fits(size, Flatten(open)) && Flatten(open) != [])
    ensures forall g :: g in Groups(size, open, rest) ==> Fits(size, Flatten(g))
    ensures |Groups(size, open, rest)| == Pending(size, Flatten(open), rest)
    decreases |rest|
  {
    if rest != [] {
      var b := rest[0];
      assert AllFit(size, rest[1..]);
      FlattenSnoc([], b);
      assert [] + [b] == [b] && Flatten([b]) == b;
      FlattenSnoc(open, b);
      if Fits(size, Flatten(open) + b) {
        GroupsFit(size, open + [b], rest[1..]);
      } else {
        GroupsFit(size, [b], rest[1..]);
      }
    }
  }

  lemma RunIsCut<T(!new)>(size: seq<T> -> int, run: seq<seq<T>>) returns (groups: seq<seq<seq<T>>>)
    requires AllFit(size, run)
    ensures IsCut(size, run, groups) && |groups| == Pending(size, [], run)
  {
    groups := Groups(size, [], run);
    GroupsKeepOrder(size, [], run);
    GroupsFit(size, [], run);
    assert [] + run == run;
  }

  lemma {:induction false} RunsAreCut<T(!new)>(size: seq<T> -> int, runs: seq<seq<seq<T>>>)
      returns (cuts: seq<seq<seq<seq<T>>>>)
    requires forall r :: r in runs ==> AllFit(size, r)
    ensures |cuts| == |runs| && |Flatten(cuts)| == PendingAll(size, runs)
    ensures forall r :: 0 <= r < |runs| ==> IsCut(size, runs[r], cuts[r])
  {
    cuts := [];
    if runs != [] {
      assert runs[0] in runs;
      var groups := RunIsCut(size, runs[0]);
      var more := RunsAreCut(size, runs[1..]);
      cuts := [groups] + more;
      assert cuts[1..] == more;
    }
  }

  /** The bound is attained: some such cut has exactly as many groups as the packer makes messages. */
  lemma PackIsACut<T(!new)>(size: seq<T> -> int, buckets: seq<seq<T>>)
    requires Monotone(size) || AllFit(size, NonEmpty(buckets))
    ensures exists cuts :: CutsAround(size, buckets, cuts) && |Flatten(cuts)| == |Pack(size, buckets).Closed()|
  {
    PackCounts(size, buckets);
    RunsFit(size, buckets);
    var cuts := RunsAreCut(size, Runs(size, buckets));
    assert CutsAround(size, buckets, cuts);
  }

  // What an oversize bucket costs

  lemma {:induction false} PackFromAppend<T>(
      size: seq<T> -> int, s: Packing<T>, xs: seq<seq<T>>, ys: seq<seq<T>>, index: nat)
    ensures PackFrom(size, s, xs + ys, index) == PackFrom(size, PackFrom(size, s, xs, index), ys, index + |xs|)
    decreases |xs|
  {
    if xs == [] {
      assert xs + ys == ys;
    } else {
      assert (xs + ys)[1..] == xs[1..] + ys;
      PackFromAppend(size, Step(size, s, xs[0], index), xs[1..], ys, index + 1);
    }
  }

  /** Messages already closed, and positions already counted, do not matter to what follows. */
  lemma {:induction false} PackFromOffset<T>(
      size: seq<T> -> int, closed: seq<seq<T>>, s: Packing<T>, t: Packing<T>, buckets: seq<seq<T>>, i: nat, j: nat)
    requires s.messages == closed + t.messages && s.current == t.current
    ensures PackFrom(size, s, buckets, i).Closed() == closed + PackFrom(size, t, buckets, j).Closed()
    decreases |buckets|
  {
    if buckets == [] {
      assert closed + t.messages + [t.current] == closed + (t.messages + [t.current]);
    } else {
      var s', t' := Step(size, s, buckets[0], i), Step(size, t, buckets[0], j);
      assert closed + t.messages + [t.current] == closed + (t.messages + [t.current]);
      assert s'.messages == closed + t'.messages;
      PackFromOffset(size, closed, s', t', buckets[1..], i + 1, j + 1);
    }
  }

  /** Around a bucket that is too big alone, the two sides are packed as if the other were not there. */
  lemma OversizeBucketSplits<T(!new)>(size: seq<T> -> int, xs: seq<seq<T>>, big: seq<T>, ys: seq<seq<T>>)
    requires Monotone(size) && big != [] && !Fits(size, big)
    ensures Pack(size, xs + [big] + ys).Closed() == Pack(size, xs).Closed() + Pack(size, ys).Closed()
  {
    var s0: Packing<T> := Packing([], [], [], []);
    var s := Pack(size, xs);
    MonotoneStaysTooBig(size, [big]);
    assert [big][0] == big && !Fits(size, s.current + big);
    var s' := Step(size, s, big, |xs|);
    assert s'.messages == s.Closed() + [] && s'.current == [];
    PackFromAppend(size, s0, xs, [big] + ys, 0);
    assert xs + [big] + ys == xs + ([big] + ys);
    assert ([big] + ys)[1..] == ys;
    PackFromOffset(size, s.Closed(), s', s0, ys, |xs| + 1, 0);
  }

  /** How many messages follow when the open message holds this. */
  ghost function Following<T>(size: seq<T> -> int, open: seq<T>, ys: seq<seq<T>>): nat {
    |PackFrom(size, Packing([], open, [], []), ys, 0).Closed()|
  }

  /** An open message costs whatever follows one message or none. */
  lemma OpenCostsAtMostOne<T(!new)>(size: seq<T> -> int, open: seq<T>, ys: seq<seq<T>>)
    requires Monotone(size)
    ensures Following(size, [], ys) <= Following(size, open, ys) <= 1 + Following(size, [], ys)
  {
    var run := Runs(size, ys)[0];
    assert run in Runs(size, ys);
    RunsFit(size, ys);
    forall k | 0 <= k < |ys| && ys[k] != []
      ensures StaysTooBig(size, [ys[k]])
    {
      MonotoneStaysTooBig(size, [ys[k]]);
    }
    PackFromCounts(size, Packing([], [], [], []), ys, 0);
    PackFromCounts(size, Packing([], open, [], []), ys, 0);
    assert open + [] == open;
    LongerCostsAtMostOne(size, open, [], run);
    if run != [] {
      assert [] + run[0] == run[0] && AllFit(size, run[1..]);
      LongerCostsNoLess(size, open, run[0], run[1..]);
    }
  }

  lemma PackAppendCounts<T(!new)>(size: seq<T> -> int, xs: seq<seq<T>>, ys: seq<seq<T>>)
    ensures |Pack(size, xs + ys).Closed()|
         == |Pack(size, xs).messages| + Following(size, Pack(size, xs).current, ys)
  {
    hide PackFrom;
    var s := Pack(size, xs);
    PackFromAppend(size, Packing([], [], [], []), xs, ys, 0);
    assert s.messages == s.messages + [];
    PackFromOffset(size, s.messages, s, Packing([], s.current, [], []), ys, |xs|, 0);
  }

  lemma OpenedByFirst<T(!new)>(size: seq<T> -> int, open: seq<T>, ys: seq<seq<T>>)
    requires open != [] && Fits(size, open)
    ensures |Pack(size, [open] + ys).Closed()| == Following(size, open, ys)
  {
    var s0: Packing<T> := Packing([], [], [], []);
    var s := Step(size, s0, open, 0);
    assert [] + open == open;
    assert s.messages == [] + [] && s.current == open;
    PackFromAppend(size, s0, [open], ys, 0);
    assert PackFrom(size, s0, [open], 0) == s by {
      assert [open][1..] == [];
    }
    PackFromOffset(size, [], s, Packing([], open, [], []), ys, 1, 0);
  }

  /**
    A bucket that is too big alone costs at most one message, and it costs one exactly when the
    message it closes could have gone in front of the later buckets without an extra message.
   */
  lemma OversizeBucketCostsIff<T(!new)>(size: seq<T> -> int, xs: seq<seq<T>>, big: seq<T>, ys: seq<seq<T>>)
    requires Monotone(size) && big != [] && !Fits(size, big)
    ensures var cost := |Pack(size, xs + [big] + ys).Closed()| - |Pack(size, xs + ys).Closed()|;
      var open := Pack(size, xs).current;
      && 0 <= cost <= 1
      && (cost == 1 <==> open != [] && |Pack(size, [open] + ys).Closed()| == |Pack(size, ys).Closed()|)
  {
    var open := Pack(size, xs).current;
    PackIsFaithful(size, xs);
    assert MessagesFit(size, Pack(size, xs)) && Following(size, [], ys) == |Pack(size, ys).Closed()|;
    hide Pack, Following, Monotone, PackedSoFar, Fits;
    OversizeBucketSplits(size, xs, big, ys);
    PackAppendCounts(size, xs, ys);
    OpenCostsAtMostOne(size, open, ys);
    if open != [] {
      OpenedByFirst(size, open, ys);
    }
  }

  /** For example, two buckets that fit together end in two messages. */
  lemma OversizeBucketCostsAMessage()
    ensures var size := (s: seq<int>) => if 0 in s then 2000 else |s|;
      var p := Pack(size, [[1], [0], [2]]);
      && p.Closed() == [[1], [2]]
      && p.failed == [1]
      && Fits(size, [1] + [2])
  {
    var size := (s: seq<int>) => if 0 in s then 2000 else |s|;
    var s0: Packing<int> := Packing([], [], [], []);
    var s1 := Step(size, s0, [1], 0);
    assert [] + [1] == [1];
    assert s1 == Packing([], [1], [], [0]);
    var s2 := Step(size, s1, [0], 1);
    assert 0 in [1] + [0] && 0 in [0];
    assert s2 == Packing([[1]], [], [1], [0, -1]);
    var s3 := Step(size, s2, [2], 2);
    assert [] + [2] == [2];
    assert s3 == Packing([[1]], [2], [1], [0, -1, 1]);
    assert [[1], [0], [2]][1..] == [[0], [2]] && [[0], [2]][1..] == [[2]];
    assert PackFrom(size, s1, [[0], [2]], 1) == s3 by {
      assert PackFrom(size, s2, [[2]], 2) == PackFrom(size, s3, [], 3);
    }
  }

  // ---------------------------------------------------------------------------------------------
  // The program: messages are objects that are extended and reverted in place
  // ---------------------------------------------------------------------------------------------

  class TransactionMessage<T> {
    var instructions: seq<T>

    constructor ()
      ensures instructions == []
    {
      instructions := [];
    }
  }

  ghost function Contents<T>(messages: seq<TransactionMessage<T>>): seq<seq<T>>
    reads messages
  {
    if messages == [] then []
    else
      var n := |messages| - 1;
      Contents(messages[..n]) + [messages[n].instructions]
  }

  lemma ContentsSnoc<T>(messages: seq<TransactionMessage<T>>, message: TransactionMessage<T>)
    ensures Contents(messages + [message]) == Contents(messages) + [message.instructions]
  {
    assert (messages + [message])[..|messages|] == messages;
  }

  method TryAddBucket<T>(message: TransactionMessage<T>, bucket: seq<T>, size: seq<T> -> int)
      returns (added: bool)
    modifies message
    ensures added == Fits(size, old(message.instructions) + bucket)
    ensures added <==> size(old(message.instructions) + bucket) <= 1100
    ensures message.instructions == if added then old(message.instructions) + bucket else old(message.instructions)
  {
    var originalInstructions := message.instructions;
    message.instructions := message.instructions + bucket;
    if size(message.instructions) > BATCH_ADD_MAX_SIZE_CHECK {
      message.instructions := originalInstructions;
      return false;
    }
    return true;
  }

  ghost function Snapshot<T>(messages: seq<TransactionMessage<T>>, current: TransactionMessage<T>,
                             failed: seq<int>, indexes: seq<int>): Packing<T>
    reads messages, current
  {
    Packing(Contents(messages), current.instructions, failed, indexes)
  }

  lemma {:induction false} ContentsLength<T>(messages: seq<TransactionMessage<T>>)
    ensures |Contents(messages)| == |messages|
  {
    if messages != [] {
      ContentsLength(messages[..|messages| - 1]);
    }
  }

  /** The second branch of the callback: close the open message and try a new one. */
  method StartMessage<T(==)>(messages: seq<TransactionMessage<T>>, current: TransactionMessage<T>,
                             bucket: seq<T>, size: seq<T> -> int)
      returns (messages': seq<TransactionMessage<T>>, current': TransactionMessage<T>, added: bool)
    requires current !in messages
    ensures fresh(current')
    ensures messages' == if current.instructions == [] then messages else messages + [current]
    ensures added == Fits(size, bucket)
    ensures current'.instructions == if added then bucket else []
  {
    messages' := messages;
    if |current.instructions| > 0 {
      messages' := messages + [current];
    }
    current' := new TransactionMessage();
    added := TryAddBucket(current', bucket, size);
    assert [] + bucket == bucket;
  }

  /** The callback run on each bucket. */
  method AddBucket<T(==)>(messages: seq<TransactionMessage<T>>, current: TransactionMessage<T>,
                          failed: seq<int>, indexes: seq<int>,
                          bucket: seq<T>, index: nat, size: seq<T> -> int)
      returns (messages': seq<TransactionMessage<T>>, current': TransactionMessage<T>,
               failed': seq<int>, indexes': seq<int>)
    requires current !in messages
    modifies current
    ensures current' == current || fresh(current')
    ensures messages' == messages || messages' == messages + [current]
    ensures current' !in messages'
    ensures Snapshot(messages', current', failed', indexes')
         == Step(size, old(Snapshot(messages, current, failed, indexes)), bucket, index)
  {
    messages', current', failed', indexes' := messages, current, failed, indexes;
    if |bucket| == 0 {
      failed', indexes' := failed + [index], indexes + [-1];
      return;
    }
    ContentsLength(messages);
    var added := TryAddBucket(current, bucket, size);
    if !added {
      ContentsSnoc(messages, current);
      messages', current', added := StartMessage(messages, current, bucket, size);
      if !added {
        failed', indexes' := failed + [index], indexes + [-1];
      } else {
        indexes' := indexes + [|messages'|];
      }
    } else {
      indexes' := indexes + [|messages|];
    }
  }

  lemma PackFromNext<T>(size: seq<T> -> int, s: Packing<T>, buckets: seq<seq<T>>, index: nat)
    requires index < |buckets|
    ensures PackFrom(size, s, buckets[index..], index)
         == PackFrom(size, Step(size, s, buckets[index], index), buckets[index + 1..], index + 1)
  {
    assert buckets[index..][1..] == buckets[index + 1..];
  }

  method PackageInstructions<T(==)>(buckets: seq<seq<T>>, size: seq<T> -> int)
      returns (transactionMessages: seq<TransactionMessage<T>>, failedBuckets: seq<int>,
               bucketTxMessageIndexes: seq<int>)
    ensures fresh(transactionMessages)
    ensures Contents(transactionMessages) == Pack(size, buckets).Closed()
    ensures failedBuckets == Pack(size, buckets).failed
    ensures bucketTxMessageIndexes == Pack(size, buckets).indexes
  {
    transactionMessages, failedBuckets, bucketTxMessageIndexes := [], [], [];
    var currentMessage := new TransactionMessage();
    assert buckets[0..] == buckets;
    for index := 0 to |buckets|
      invariant fresh(currentMessage) && fresh(transactionMessages)
      invariant currentMessage !in transactionMessages
      invariant Pack(size, buckets) == PackFrom(size,
        Snapshot(transactionMessages, currentMessage, failedBuckets, bucketTxMessageIndexes),
        buckets[index..], index)
    {
      PackFromNext(size, Snapshot(transactionMessages, currentMessage, failedBuckets, bucketTxMessageIndexes),
                   buckets, index);
      transactionMessages, currentMessage, failedBuckets, bucketTxMessageIndexes :=
        AddBucket(transactionMessages, currentMessage, failedBuckets, bucketTxMessageIndexes,
                  buckets[index], index, size);
    }
    if |currentMessage.instructions| > 0 {
      ContentsSnoc(transactionMessages, currentMessage);
      transactionMessages := transactionMessages + [currentMessage];
    }
  }
}
