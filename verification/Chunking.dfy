/**
  Splitting a key list into fixed-size chunks, asking for one chunk at a time, and putting the
  answers back together by position
  (packages/account-fetch-cache/src/getMultipleAccounts.ts, and the same shape with chunks of 200
  in transactionCompletionQueue.ts).
 */
module Chunking {
  import opened Common

  const MAX_CHUNK_SIZE := 99

  function Min(a: int, b: int): int { if a <= b then a else b }

  /** Array.prototype.slice for bounds that are not negative. */
  function Slice<T>(s: seq<T>, lo: nat, hi: nat): seq<T>
    requires lo <= hi
  {
    s[Min(lo, |s|)..Min(hi, |s|)]
  }

  function ChunkCount(length: nat, size: nat): nat
    requires size > 0
  {
    (length + size - 1) / size
  }

  /** The source's form: chunk number c is the slice from c * size to (c + 1) * size. */
  function SlicedChunks<T>(s: seq<T>, size: nat): seq<seq<T>>
    requires size > 0
  {
    seq(ChunkCount(|s|, size), (c: nat) => Slice(s, c * size, c * size + size))
  }

  /** The reference form: cut off one chunk after the other. */
  function Chunks<T>(s: seq<T>, size: nat): seq<seq<T>>
    requires size > 0
    decreases |s|
  {
    if s == [] then [] else [s[..Min(size, |s|)]] + Chunks(s[Min(size, |s|)..], size)
  }

  lemma MulMonotone(a: int, b: int, d: nat)
    requires a <= b
    ensures a * d <= b * d
  {
  }

  lemma MulStep(c: nat, d: nat)
    requires c > 0
    ensures c * d == (c - 1) * d + d && (c - 1) * d >= 0
  {
  }

  lemma DivModUnique(n: int, d: nat, q: int, r: int)
    requires d > 0 && n == q * d + r && 0 <= r < d
    ensures n / d == q && n % d == r
  {
    var q' := n / d;
    assert q' * d <= n < q' * d + d;
    if q' < q {
      MulMonotone(q' + 1, q, d);
    } else if q < q' {
      MulMonotone(q + 1, q', d);
    }
  }

  lemma DivModStep(n: int, d: nat)
    requires d > 0
    ensures (n + d) / d == n / d + 1 && (n + d) % d == n % d
  {
    var q, r := n / d, n % d;
    assert (q + 1) * d == q * d + d;
    DivModUnique(n + d, d, q + 1, r);
  }

  lemma ChunkCountStep(length: nat, size: nat)
    requires size > 0 && length > 0
    ensures ChunkCount(length, size) == 1 + ChunkCount(if length <= size then 0 else length - size, size)
  {
    DivModUnique(size - 1, size, 0, size - 1);
    if length <= size {
      DivModUnique(length + size - 1, size, 1, length - 1);
    } else {
      DivModStep(length - 1, size);
    }
  }

  lemma {:induction false} ChunkIsSlice<T>(s: seq<T>, size: nat, c: nat, lo: nat)
    requires size > 0 && c < |Chunks(s, size)| && lo == c * size
    ensures Chunks(s, size)[c] == Slice(s, lo, lo + size)
    decreases c
  {
    var m := Min(size, |s|);
    if c > 0 {
      MulStep(c, size);
      ChunkIsSlice(s[m..], size, c - 1, lo - size);
      assert Slice(s[m..], lo - size, lo) == Slice(s, lo, lo + size);
    }
  }

  lemma {:induction false} ChunksCounted<T>(s: seq<T>, size: nat)
    requires size > 0
    ensures |Chunks(s, size)| == ChunkCount(|s|, size)
    decreases |s|
  {
    if s == [] {
      DivModUnique(size - 1, size, 0, size - 1);
    } else {
      ChunkCountStep(|s|, size);
      ChunksCounted(s[Min(size, |s|)..], size);
    }
  }

  /** The two forms agree. */
  lemma SlicedChunksAreChunks<T>(s: seq<T>, size: nat)
    requires size > 0
    ensures SlicedChunks(s, size) == Chunks(s, size)
  {
    ChunksCounted(s, size);
    forall c | 0 <= c < |Chunks(s, size)|
      ensures SlicedChunks(s, size)[c] == Chunks(s, size)[c]
    {
      ChunkIsSlice(s, size, c, c * size);
    }
  }

  /** Nothing is lost or reordered by chunking, and no chunk is empty or too long. */
  lemma {:induction false} ChunksPartition<T>(s: seq<T>, size: nat)
    requires size > 0
    ensures Flatten(Chunks(s, size)) == s
    ensures forall c :: 0 <= c < |Chunks(s, size)| ==> 0 < |Chunks(s, size)[c]| <= size
    decreases |s|
  {
    if s != [] {
      ChunksPartition(s[Min(size, |s|)..], size);
    }
  }

  /** Every chunk was answered, with as many entries as it had keys. */
  ghost predicate Answered<K, R>(keys: seq<K>, size: nat, replies: seq<seq<R>>)
    requires size > 0
  {
    && |replies| == |Chunks(keys, size)|
    && forall c :: 0 <= c < |replies| ==> |replies[c]| == |Chunks(keys, size)[c]|
  }

  lemma AnsweredTail<K, R>(keys: seq<K>, size: nat, replies: seq<seq<R>>)
    requires size > 0 && Answered(keys, size, replies) && keys != []
    ensures var m := Min(size, |keys|);
      && replies != [] && |replies[0]| == m
      && Chunks(keys, size)[0] == keys[..m]
      && Chunks(keys, size)[1..] == Chunks(keys[m..], size)
      && Answered(keys[m..], size, replies[1..])
  {
  }

  lemma {:induction false} AnsweredLength<K, R>(keys: seq<K>, size: nat, replies: seq<seq<R>>)
    requires size > 0 && Answered(keys, size, replies)
    ensures |Flatten(replies)| == |keys|
    decreases |keys|
  {
    if keys != [] {
      AnsweredTail(keys, size, replies);
      AnsweredLength(keys[Min(size, |keys|)..], size, replies[1..]);
    }
  }

  lemma {:induction false} AnswerAt<K, R>(keys: seq<K>, size: nat, replies: seq<seq<R>>, c: nat, r: nat, i: nat)
    requires size > 0 && Answered(keys, size, replies)
    requires r < size && i == c * size + r < |keys|
    ensures c < |replies| && r < |replies[c]| && i < |Flatten(replies)|
    ensures Flatten(replies)[i] == replies[c][r]
    ensures Chunks(keys, size)[c][r] == keys[i]
    decreases c
  {
    AnsweredTail(keys, size, replies);
    AnsweredLength(keys, size, replies);
    if c > 0 {
      MulStep(c, size);
      AnswerAt(keys[size..], size, replies[1..], c - 1, r, i - size);
    }
  }

  /** The i-th merged answer is slot i % size of the reply to chunk i / size, which asked for key i there. */
  lemma AnswerOfKey<K, R>(keys: seq<K>, size: nat, replies: seq<seq<R>>, i: nat)
    requires size > 0 && Answered(keys, size, replies) && i < |keys|
    ensures |Flatten(replies)| == |keys|
    ensures i / size < |replies| && i % size < |replies[i / size]|
    ensures Flatten(replies)[i] == replies[i / size][i % size]
    ensures Chunks(keys, size)[i / size][i % size] == keys[i]
  {
    hide Flatten, Chunks;
    AnsweredLength(keys, size, replies);
    AnswerAt(keys, size, replies, i / size, i % size, i);
  }

  /** Where the reply to chunk c starts in the merged answers. */
  ghost function StartOf<R>(replies: seq<seq<R>>, c: nat): nat
    requires c <= |replies|
  {
    |Flatten(replies[..c])|
  }

  lemma StartOfNext<R>(replies: seq<seq<R>>, c: nat)
    requires c < |replies|
    ensures StartOf(replies, c + 1) == StartOf(replies, c) + |replies[c]|
  {
    assert replies[..c + 1] == replies[..c] + [replies[c]];
    FlattenSnoc(replies[..c], replies[c]);
  }

  lemma {:induction false} FullRepliesStartInPlace<R>(replies: seq<seq<R>>, size: nat, c: nat)
    requires c < |replies|
    requires forall d :: 0 <= d < |replies| - 1 ==> |replies[d]| == size
    ensures StartOf(replies, c) == c * size
  {
    if c > 0 {
      StartOfNext(replies, c - 1);
      FullRepliesStartInPlace(replies, size, c - 1);
    }
  }

  /**
    Merging by position is right for every chunk exactly when every reply but the last is as long
    as a full chunk: one short reply shifts all later answers.
   */
  lemma RepliesAlignedIff<R>(replies: seq<seq<R>>, size: nat)
    ensures (forall c :: 0 <= c < |replies| ==> StartOf(replies, c) == c * size)
        <==> (forall d :: 0 <= d < |replies| - 1 ==> |replies[d]| == size)
  {
    if forall c :: 0 <= c < |replies| ==> StartOf(replies, c) == c * size {
      forall d | 0 <= d < |replies| - 1
        ensures |replies[d]| == size
      {
        StartOfNext(replies, d);
        assert StartOf(replies, d + 1) == (d + 1) * size == d * size + size;
      }
    }
    if forall d :: 0 <= d < |replies| - 1 ==> |replies[d]| == size {
      forall c | 0 <= c < |replies|
        ensures StartOf(replies, c) == c * size
      {
        FullRepliesStartInPlace(replies, size, c);
      }
    }
  }

  // ---------------------------------------------------------------------------------------------
  // getMultipleAccounts
  // ---------------------------------------------------------------------------------------------

  /** The endpoint: given the call's number and its keys, the accounts found, or None when it throws. */
  type Rpc<!K, A> = (nat, seq<K>) -> Option<seq<Option<A>>>

  /** What the endpoint answers to each chunk, when it answers them all. */
  ghost function RepliesOf<K, A>(rpc: Rpc<K, A>, chunks: seq<seq<K>>): seq<seq<Option<A>>> {
    seq(|chunks|, (c: int) requires 0 <= c < |chunks| =>
      var reply := rpc(c, chunks[c]); if reply.Some? then reply.value else [])
  }

  lemma CountCovers(length: nat, size: nat, c: nat)
    requires size > 0
    ensures c < ChunkCount(length, size) <==> c * size < length
  {
    var n := ChunkCount(length, size);
    assert n * size <= length + size - 1 < n * size + size;
    if c < n {
      MulMonotone(c, n - 1, size);
      assert (n - 1) * size == n * size - size;
    } else {
      MulMonotone(n, c, size);
    }
  }

  lemma StrideIsChunk<T>(s: seq<T>, size: nat, c: nat)
    requires size > 0
    ensures c < |Chunks(s, size)| <==> c * size < |s|
    ensures c < |Chunks(s, size)| ==> Chunks(s, size)[c] == Slice(s, c * size, c * size + size)
  {
    ChunksCounted(s, size);
    CountCovers(|s|, size, c);
    if c < |Chunks(s, size)| {
      ChunkIsSlice(s, size, c, c * size);
    }
  }

  /** Asks chunk by chunk; fails as soon as one call throws. */
  method GetMultipleAccounts<K, A>(rpc: Rpc<K, A>, keys: seq<K>) returns (accounts: Option<seq<Option<A>>>)
    ensures var chunks := Chunks(keys, MAX_CHUNK_SIZE);
      && (accounts.Some? <==> forall c :: 0 <= c < |chunks| ==> rpc(c, chunks[c]).Some?)
      && (accounts.Some? ==> accounts.value == Flatten(RepliesOf(rpc, chunks)))
  {
    ghost var chunks := Chunks(keys, MAX_CHUNK_SIZE);
    ghost var replies := RepliesOf(rpc, chunks);
    var merged: seq<Option<A>> := [];
    var i, call := 0, 0;
    while i < |keys|
      invariant i == call * MAX_CHUNK_SIZE && call <= |chunks|
      invariant forall c :: 0 <= c < call ==> rpc(c, chunks[c]).Some?
      invariant merged == Flatten(replies[..call])
    {
      StrideIsChunk(keys, MAX_CHUNK_SIZE, call);
      var chunk := Slice(keys, i, i + MAX_CHUNK_SIZE);
      var reply := rpc(call, chunk);
      if reply.None? {
        return None;
      }
      assert replies[..call + 1] == replies[..call] + [replies[call]];
      FlattenSnoc(replies[..call], replies[call]);
      merged := merged + reply.value;
      i, call := i + MAX_CHUNK_SIZE, call + 1;
    }
    StrideIsChunk(keys, MAX_CHUNK_SIZE, call);
    assert replies[..call] == replies;
    return Some(merged);
  }

  // ---------------------------------------------------------------------------------------------
  // Grouping the answers by key (accountFetchCache.ts, fetchBatch)
  // ---------------------------------------------------------------------------------------------

  /** the accounts found, by key; entries past the end count as not found. */
  function Grouped<K, A>(keys: seq<K>, accounts: seq<Option<A>>): map<K, A> {
    if keys == [] then map[]
    else
      var n := |keys| - 1;
      var before := Grouped(keys[..n], accounts);
      if n < |accounts| && accounts[n].Some? then before[keys[n] := accounts[n].value] else before
  }

  lemma {:induction false} GroupedEntry<K, A>(keys: seq<K>, accounts: seq<Option<A>>, i: nat)
    requires Distinct(keys) && i < |keys|
    ensures keys[i] in Grouped(keys, accounts) <==> i < |accounts| && accounts[i].Some?
    ensures keys[i] in Grouped(keys, accounts) ==> Grouped(keys, accounts)[keys[i]] == accounts[i].value
    decreases |keys|
  {
    var n := |keys| - 1;
    if i < n {
      GroupedEntry(keys[..n], accounts, i);
    } else {
      GroupedKeys(keys[..n], accounts);
    }
  }

  lemma {:induction false} GroupedKeys<K, A>(keys: seq<K>, accounts: seq<Option<A>>)
    ensures forall k :: k in Grouped(keys, accounts) ==> k in keys
    decreases |keys|
  {
    if keys != [] {
      GroupedKeys(keys[..|keys| - 1], accounts);
    }
  }

  /** The i-th key was answered with this account in its own slot of its own chunk's reply. */
  ghost predicate AnsweredInSlot<K, A>(keys: seq<K>, replies: seq<seq<Option<A>>>, key: K, account: A) {
    exists i :: 0 <= i < |keys| && keys[i] == key && SlotHolds(replies, i, account)
  }

  ghost predicate SlotHolds<A>(replies: seq<seq<Option<A>>>, i: nat, account: A) {
    var c, r := i / MAX_CHUNK_SIZE, i % MAX_CHUNK_SIZE;
    c < |replies| && r < |replies[c]| && replies[c][r] == Some(account)
  }

  /** A key is grouped with an account exactly when its own slot holds that account. */
  lemma GroupedFromSlots<K, A>(keys: seq<K>, replies: seq<seq<Option<A>>>, key: K, account: A)
    requires Distinct(keys) && Answered(keys, MAX_CHUNK_SIZE, replies)
    ensures var grouped := Grouped(keys, Flatten(replies));
      (key in grouped && grouped[key] == account) <==> AnsweredInSlot(keys, replies, key, account)
  {
    var accounts := Flatten(replies);
    GroupedKeys(keys, accounts);
    if key in keys {
      var i :| 0 <= i < |keys| && keys[i] == key;
      GroupedEntry(keys, accounts, i);
      AnswerOfKey(keys, MAX_CHUNK_SIZE, replies, i);
      assert SlotHolds(replies, i, account) <==> accounts[i] == Some(account);
    }
  }

  /** The key was asked for, and its own slot of its own chunk's reply is empty. */
  ghost predicate EmptyInSlot<K, A>(keys: seq<K>, replies: seq<seq<Option<A>>>, key: K) {
    exists i :: 0 <= i < |keys| && keys[i] == key && SlotEmpty(replies, i)
  }

  ghost predicate SlotEmpty<A>(replies: seq<seq<Option<A>>>, i: nat) {
    var c, r := i / MAX_CHUNK_SIZE, i % MAX_CHUNK_SIZE;
    c < |replies| && r < |replies[c]| && replies[c][r].None?
  }

  /** A key that was asked for is grouped with nothing exactly when its own slot is empty. */
  lemma NotGroupedIff<K, A>(keys: seq<K>, replies: seq<seq<Option<A>>>, key: K)
    requires Distinct(keys) && Answered(keys, MAX_CHUNK_SIZE, replies) && key in keys
    ensures key !in Grouped(keys, Flatten(replies)) <==> EmptyInSlot(keys, replies, key)
  {
    var i :| 0 <= i < |keys| && keys[i] == key;
    GroupedEntry(keys, Flatten(replies), i);
    AnswerOfKey(keys, MAX_CHUNK_SIZE, replies, i);
    assert SlotEmpty(replies, i) <==> Flatten(replies)[i].None?;
  }
}
