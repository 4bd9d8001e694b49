/**
  Free task ids: the bitmap scan of packages/hpl-crons-sdk/src/index.ts, and the loop of
  packages/helium-admin-cli/src/repair-all-position-claims.ts that hands them out to bots.
 */
module TaskIds {
  import opened Common
  import opened Chunking

  /** The given bit of a byte is zero. */
  predicate BitClear(byte: bv8, bit: nat)
    requires bit < 8
  {
    if bit == 0 then byte & 1 == 0 else BitClear(byte >> 1, bit - 1)
  }

  lemma MaskTestsBitLow(byte: bv8)
    ensures byte & (1 << 0) == 0 <==> BitClear(byte, 0)
    ensures byte & (1 << 1) == 0 <==> BitClear(byte, 1)
    ensures byte & (1 << 2) == 0 <==> BitClear(byte, 2)
    ensures byte & (1 << 3) == 0 <==> BitClear(byte, 3)
  {
    var b1 := byte >> 1;
    var b2 := b1 >> 1;
    var b3 := b2 >> 1;
    assert BitClear(byte, 1) == BitClear(b1, 0);
    assert BitClear(byte, 2) == BitClear(b1, 1) == BitClear(b2, 0);
    assert BitClear(byte, 3) == BitClear(b1, 2) == BitClear(b2, 1) == BitClear(b3, 0);
  }

  lemma ShiftedFour(byte: bv8, bit: nat)
    requires 4 <= bit < 8
    ensures BitClear(byte, bit) == BitClear(byte >> 1 >> 1 >> 1 >> 1, bit - 4)
  {
    var b1 := byte >> 1;
    var b2 := b1 >> 1;
    var b3 := b2 >> 1;
    assert BitClear(byte, bit) == BitClear(b1, bit - 1);
    assert BitClear(b1, bit - 1) == BitClear(b2, bit - 2);
    assert BitClear(b2, bit - 2) == BitClear(b3, bit - 3);
    assert BitClear(b3, bit - 3) == BitClear(b3 >> 1, bit - 4);
  }

  lemma MaskTestsBitHigh(byte: bv8)
    ensures byte & (1 << 4) == 0 <==> BitClear(byte, 4)
    ensures byte & (1 << 5) == 0 <==> BitClear(byte, 5)
    ensures byte & (1 << 6) == 0 <==> BitClear(byte, 6)
    ensures byte & (1 << 7) == 0 <==> BitClear(byte, 7)
  {
    var b4 := byte >> 1 >> 1 >> 1 >> 1;
    ShiftedFour(byte, 4);
    ShiftedFour(byte, 5);
    ShiftedFour(byte, 6);
    ShiftedFour(byte, 7);
    MaskTestsBitLow(b4);
  }

  /** The scan's own test for a clear bit: mask and compare with zero. */
  predicate MaskedZero(byte: bv8, bit: nat)
    requires bit < 8
  {
    byte & (1 << bit) == 0
  }

  /** The mask tests exactly that bit. */
  lemma MaskTestsBit(byte: bv8, bit: nat)
    requires bit < 8
    ensures MaskedZero(byte, bit) <==> BitClear(byte, bit)
  {
    hide BitClear;
    MaskTestsBitLow(byte);
    MaskTestsBitHigh(byte);
  }

  /** Task id i is free: its bit, in byte i / 8 at position i % 8, is clear. */
  predicate IsFree(bitmap: seq<bv8>, id: nat)
    requires id < 8 * |bitmap|
  {
    BitClear(bitmap[id / 8], id % 8)
  }

  /** The free ids below a bound, ascending. */
  ghost function FreeBelow(bitmap: seq<bv8>, bound: nat): seq<int>
    requires bound <= 8 * |bitmap|
  {
    if bound == 0 then []
    else FreeBelow(bitmap, bound - 1) + if IsFree(bitmap, bound - 1) then [bound - 1] else []
  }

  ghost function FreeIds(bitmap: seq<bv8>): seq<int> { FreeBelow(bitmap, 8 * |bitmap|) }

  /** All of a list if it has no more than n elements (or n is negative), else its first n. */
  ghost function FirstN(s: seq<int>, n: int): seq<int> {
    if 0 <= n < |s| then s[..n] else s
  }

  /** That list is exactly the free ids in ascending order. */
  lemma {:induction false} FreeBelowExact(bitmap: seq<bv8>, bound: nat)
    requires bound <= 8 * |bitmap|
    ensures StrictlyAscending(FreeBelow(bitmap, bound))
    ensures forall id :: id in FreeBelow(bitmap, bound) <==> 0 <= id < bound && IsFree(bitmap, id)
  {
    if bound > 0 {
      FreeBelowExact(bitmap, bound - 1);
      var before := FreeBelow(bitmap, bound - 1);
      assert forall i :: 0 <= i < |before| ==> before[i] in before;
    }
  }

  lemma {:induction false} FreeBelowGrows(bitmap: seq<bv8>, a: nat, b: nat)
    requires a <= b <= 8 * |bitmap|
    ensures FreeBelow(bitmap, a) <= FreeBelow(bitmap, b)
    decreases b
  {
    if a < b {
      FreeBelowGrows(bitmap, a, b - 1);
    }
  }

  lemma FullByteHasNoClearBit(bit: nat)
    requires bit < 8
    ensures !BitClear(0xff, bit)
  {
    MaskTestsBitLow(0xff);
    MaskTestsBitHigh(0xff);
  }

  /** Skipping a byte of all ones skips no free id. */
  lemma {:induction false} FullByteSkipped(bitmap: seq<bv8>, byteIdx: nat, bits: nat)
    requires byteIdx < |bitmap| && bitmap[byteIdx] == 0xff && bits <= 8
    ensures FreeBelow(bitmap, 8 * byteIdx + bits) == FreeBelow(bitmap, 8 * byteIdx)
  {
    if bits > 0 {
      FullByteSkipped(bitmap, byteIdx, bits - 1);
      BitPosition(byteIdx, bits - 1);
      FullByteHasNoClearBit(bits - 1);
    }
  }

  lemma BitPosition(byteIdx: nat, bit: nat)
    requires bit < 8
    ensures (8 * byteIdx + bit) / 8 == byteIdx && (8 * byteIdx + bit) % 8 == bit
  {
  }

  /** One bit further, the list of free ids grows by that bit's id if the mask finds it clear. */
  lemma ScanStep(bitmap: seq<bv8>, byteIdx: nat, bit: nat)
    requires byteIdx < |bitmap| && bit < 8
    ensures FreeBelow(bitmap, 8 * byteIdx + bit + 1) == FreeBelow(bitmap, 8 * byteIdx + bit)
      + if MaskedZero(bitmap[byteIdx], bit) then [byteIdx * 8 + bit] else []
  {
    hide BitClear, MaskedZero;
    BitPosition(byteIdx, bit);
    MaskTestsBit(bitmap[byteIdx], bit);
  }

  /** Returns the first n free ids in ascending order, or all of them if there are fewer. */
  method NextAvailableTaskIds(taskBitmap: seq<bv8>, n: int) returns (availableTaskIds: seq<int>)
    ensures availableTaskIds == FirstN(FreeIds(taskBitmap), n)
  {
    hide BitClear, MaskedZero, IsFree;
    if n == 0 {
      return [];
    }
    availableTaskIds := [];
    for byteIdx := 0 to |taskBitmap|
      invariant availableTaskIds == FreeBelow(taskBitmap, 8 * byteIdx)
      invariant n < 0 || |availableTaskIds| < n
    {
      hide FreeBelow;
      var byte := taskBitmap[byteIdx];
      if byte != 0xff {
        for bitIdx := 0 to 8
          invariant availableTaskIds == FreeBelow(taskBitmap, 8 * byteIdx + bitIdx)
          invariant n < 0 || |availableTaskIds| < n
        {
          ScanStep(taskBitmap, byteIdx, bitIdx);
          if MaskedZero(byte, bitIdx) {
            availableTaskIds := availableTaskIds + [byteIdx * 8 + bitIdx];
            if |availableTaskIds| == n {
              FreeBelowGrows(taskBitmap, 8 * byteIdx + bitIdx + 1, 8 * |taskBitmap|);
              return;
            }
          }
        }
      } else {
        FullByteSkipped(taskBitmap, byteIdx, 8);
      }
    }
  }

  // ---------------------------------------------------------------------------------------------
  // Handing ids out
  // ---------------------------------------------------------------------------------------------

  /** A bot whose claim is to be restarted; without a delegated position it is left alone. */
  datatype Bot = Bot(name: string, hasDelegatedPosition: bool)

  datatype Grant =
    | NotNeeded
    | Granted(id: int)
    | Undefined   // pop() on the empty list

  function Pop(ids: seq<int>): Grant {
    if ids == [] then Undefined else Granted(ids[|ids| - 1])
  }

  function AfterPop(ids: seq<int>): seq<int> {
    if ids == [] then [] else ids[..|ids| - 1]
  }

  ghost function Delegated(bots: seq<Bot>): nat {
    if bots == [] then 0
    else Delegated(bots[..|bots| - 1]) + if bots[|bots| - 1].hasDelegatedPosition then 1 else 0
  }

  /** What the k-th bot gets: the j-th delegated bot takes the j-th id from the end. */
  ghost function GrantOf(bots: seq<Bot>, ids: seq<int>, k: nat): Grant
    requires k < |bots|
  {
    var j := Delegated(bots[..k]);
    if !bots[k].hasDelegatedPosition then NotNeeded
    else if j < |ids| then Granted(ids[|ids| - 1 - j])
    else Undefined
  }

  lemma {:induction false} DelegatedGrows(bots: seq<Bot>, a: nat, b: nat)
    requires a <= b <= |bots|
    ensures Delegated(bots[..a]) <= Delegated(bots[..b]) <= b
    decreases b
  {
    if b > 0 {
      assert bots[..b][..b - 1] == bots[..b - 1];
      if a < b {
        DelegatedGrows(bots, a, b - 1);
      } else {
        DelegatedGrows(bots, b - 1, b - 1);
      }
    }
  }

  lemma DelegatedStep(bots: seq<Bot>, k: nat)
    requires k < |bots|
    ensures Delegated(bots[..k + 1]) == Delegated(bots[..k]) + if bots[k].hasDelegatedPosition then 1 else 0
  {
    assert bots[..k + 1][..k] == bots[..k];
  }

  /** The first n bots were given their grants, and these ids are left. */
  ghost predicate Handed(bots: seq<Bot>, ids: seq<int>, grants: seq<Grant>, nextAvailable: seq<int>) {
    && |grants| <= |bots|
    && (forall k :: 0 <= k < |grants| ==> grants[k] == GrantOf(bots, ids, k))
    && nextAvailable == Unused(ids, Delegated(bots[..|grants|]))
  }

  /** The callback run on each bot of a chunk. */
  method PopTaskId(bots: seq<Bot>, ids: seq<int>, bot: Bot, grants: seq<Grant>, nextAvailable: seq<int>)
      returns (grants': seq<Grant>, nextAvailable': seq<int>)
    requires Handed(bots, ids, grants, nextAvailable) && |grants| < |bots| && bot == bots[|grants|]
    ensures Handed(bots, ids, grants', nextAvailable') && |grants'| == |grants| + 1
  {
    DelegatedStep(bots, |grants|);
    if bot.hasDelegatedPosition {
      grants', nextAvailable' := grants + [Pop(nextAvailable)], AfterPop(nextAvailable);
    } else {
      grants', nextAvailable' := grants + [NotNeeded], nextAvailable;
    }
  }

  /** The repair loop: chunks of two bots, popping one id per bot with a delegated position. */
  method PopTaskIds(bots: seq<Bot>, ids: seq<int>) returns (grants: seq<Grant>)
    ensures |grants| == |bots|
    ensures forall k :: 0 <= k < |bots| ==> grants[k] == GrantOf(bots, ids, k)
  {
    var nextAvailable := ids;
    var botChunks := Chunks(bots, 2);
    grants := [];
    assert bots[0..] == bots;
    for c := 0 to |botChunks|
      invariant Handed(bots, ids, grants, nextAvailable)
      invariant Chunks(bots[|grants|..], 2) == botChunks[c..]
    {
      ghost var start := |grants|;
      var chunk := botChunks[c];
      assert chunk == botChunks[c..][0] && chunk == bots[start..][..|chunk|];
      for i := 0 to |chunk|
        invariant |grants| == start + i && Handed(bots, ids, grants, nextAvailable)
      {
        grants, nextAvailable := PopTaskId(bots, ids, chunk[i], grants, nextAvailable);
      }
      assert bots[start..][|chunk|..] == bots[|grants|..];
      assert botChunks[c..][1..] == botChunks[c + 1..];
    }
    assert Chunks(bots[|grants|..], 2) == [];
  }

  method AssignTaskIds(bots: seq<Bot>, taskBitmap: seq<bv8>) returns (grants: seq<Grant>)
    ensures grants == Grants(bots, FirstN(FreeIds(taskBitmap), |bots|), |bots|)
  {
    var nextAvailable := NextAvailableTaskIds(taskBitmap, |bots|);
    grants := PopTaskIds(bots, nextAvailable);
  }

  ghost function Unused(ids: seq<int>, used: nat): seq<int> {
    if used <= |ids| then ids[..|ids| - used] else []
  }

  ghost function Grants(bots: seq<Bot>, ids: seq<int>, n: nat): seq<Grant>
    requires n <= |bots|
  {
    seq(n, (k: int) requires 0 <= k < n => GrantOf(bots, ids, k))
  }

  /** Every bot with a delegated position got one of these ids, all of them different. */
  ghost predicate AllServed(bots: seq<Bot>, free: seq<int>, grants: seq<Grant>)
    requires |grants| == |bots|
  {
    && (forall k :: 0 <= k < |bots| && bots[k].hasDelegatedPosition ==>
          grants[k].Granted? && grants[k].id in free)
    && (forall j, k :: 0 <= j < k < |bots| && bots[j].hasDelegatedPosition && bots[k].hasDelegatedPosition ==>
          grants[j] != grants[k])
  }

  lemma EnoughIdsServeAll(bots: seq<Bot>, ids: seq<int>)
    requires StrictlyAscending(ids) && Delegated(bots) <= |ids|
    ensures AllServed(bots, ids, Grants(bots, ids, |bots|))
  {
    var grants := Grants(bots, ids, |bots|);
    assert bots[..|bots|] == bots;
    forall k | 0 <= k < |bots| && bots[k].hasDelegatedPosition
      ensures Delegated(bots[..k]) < |ids|
    {
      DelegatedStep(bots, k);
      DelegatedGrows(bots, k + 1, |bots|);
    }
    forall j, k | 0 <= j < k < |bots| && bots[j].hasDelegatedPosition && bots[k].hasDelegatedPosition
      ensures GrantOf(bots, ids, j) != GrantOf(bots, ids, k)
    {
      GrantsDiffer(bots, ids, j, k);
    }
  }

  lemma GrantsDiffer(bots: seq<Bot>, ids: seq<int>, j: nat, k: nat)
    requires StrictlyAscending(ids) && j < k < |bots|
    requires bots[j].hasDelegatedPosition && bots[k].hasDelegatedPosition
    requires GrantOf(bots, ids, k).Granted?
    ensures GrantOf(bots, ids, j) != GrantOf(bots, ids, k)
  {
    DelegatedStep(bots, j);
    DelegatedGrows(bots, j + 1, k);
  }

  lemma TooFewIdsFailOne(bots: seq<Bot>, ids: seq<int>)
    requires Delegated(bots) > |ids|
    ensures !AllServed(bots, ids, Grants(bots, ids, |bots|))
  {
    assert bots[..|bots|] == bots;
    var k := OverflowingBot(bots, |bots|, |ids|);
    assert Grants(bots, ids, |bots|)[k] == Undefined;
  }

  /**
    The repair gives every bot with a delegated position its own free id exactly when there are at
    least as many free ids as such bots.
   */
  lemma AllServedIff(bots: seq<Bot>, bitmap: seq<bv8>)
    ensures var ids := FirstN(FreeIds(bitmap), |bots|);
      && AllServed(bots, ids, Grants(bots, ids, |bots|)) <==> Delegated(bots) <= |FreeIds(bitmap)|
    ensures forall id :: id in FirstN(FreeIds(bitmap), |bots|) ==> 0 <= id < 8 * |bitmap| && IsFree(bitmap, id)
  {
    var ids := FirstN(FreeIds(bitmap), |bots|);
    FreeBelowExact(bitmap, 8 * |bitmap|);
    assert forall id :: id in ids ==> id in FreeIds(bitmap);
    assert bots[..|bots|] == bots;
    DelegatedGrows(bots, |bots|, |bots|);
    if Delegated(bots) <= |ids| {
      EnoughIdsServeAll(bots, ids);
    } else {
      TooFewIdsFailOne(bots, ids);
    }
  }

  /** Among the first n bots, the one that comes after exactly m delegated ones. */
  lemma {:induction false} OverflowingBot(bots: seq<Bot>, n: nat, m: nat) returns (k: nat)
    requires n <= |bots| && Delegated(bots[..n]) > m
    ensures k < n && bots[k].hasDelegatedPosition && Delegated(bots[..k]) == m
  {
    DelegatedStep(bots, n - 1);
    if bots[n - 1].hasDelegatedPosition && Delegated(bots[..n - 1]) == m {
      k := n - 1;
    } else {
      k := OverflowingBot(bots, n - 1, m);
    }
  }
}
