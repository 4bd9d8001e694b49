/**
  The reward a client takes from several oracles: the element in the middle of the sorted reports
  (getPendingRewards and getPendingAndLifetimeRewards in packages/distributor-oracle/src/client.ts).
 */
module OracleMedian {
  import opened Common

  /** An oracle that does not list the entity counts as reporting zero. */
  function Reported(reports: seq<Option<nat>>): seq<int> {
    seq(|reports|, (i: int) requires 0 <= i < |reports| => if reports[i].Some? then reports[i].value else 0)
  }

  /** The element at floor(n / 2) of the sorted reports; with no oracle at all, zero. */
  function Median(values: seq<int>): int {
    SortFacts(values);
    if values == [] then 0 else Sort(values)[|values| / 2]
  }

  // ---------------------------------------------------------------------------------------------
  // Counting
  // ---------------------------------------------------------------------------------------------

  ghost function Count(s: seq<int>, p: int -> bool): nat {
    if s == [] then 0 else Count(s[..|s| - 1], p) + if p(s[|s| - 1]) then 1 else 0
  }

  lemma {:induction false} CountAppend(a: seq<int>, b: seq<int>, p: int -> bool)
    ensures Count(a + b, p) == Count(a, p) + Count(b, p)
    decreases |b|
  {
    if b == [] {
      assert a + b == a;
    } else {
      assert (a + b)[..|a + b| - 1] == a + b[..|b| - 1];
      CountAppend(a, b[..|b| - 1], p);
    }
  }

  lemma CountOne(x: int, p: int -> bool)
    ensures Count([x], p) == if p(x) then 1 else 0
  {
    assert [x][..0] == [];
  }

  lemma {:induction false} CountInsert(x: int, s: seq<int>, p: int -> bool)
    ensures Count(Insert(x, s), p) == Count(s, p) + if p(x) then 1 else 0
  {
    CountOne(x, p);
    CountAppend([x], s, p);
    if s != [] && x >= s[0] {
      CountInsert(x, s[1..], p);
      CountAppend([s[0]], Insert(x, s[1..]), p);
      CountAppend([s[0]], s[1..], p);
      assert s == [s[0]] + s[1..];
    }
  }

  /** Sorting does not change how many reports satisfy a condition. */
  lemma {:induction false} CountSort(s: seq<int>, p: int -> bool)
    ensures Count(Sort(s), p) == Count(s, p)
  {
    if s != [] {
      CountSort(s[..|s| - 1], p);
      CountInsert(s[|s| - 1], Sort(s[..|s| - 1]), p);
    }
  }

  lemma {:induction false} CountAll(s: seq<int>, p: int -> bool)
    requires forall i :: 0 <= i < |s| ==> p(s[i])
    ensures Count(s, p) == |s|
  {
    if s != [] {
      CountAll(s[..|s| - 1], p);
    }
  }

  ghost function Wrong(correct: seq<bool>): nat {
    if correct == [] then 0
    else Wrong(correct[..|correct| - 1]) + if correct[|correct| - 1] then 0 else 1
  }

  /** More reports satisfy a condition than there are wrong ones, so a correct one satisfies it. */
  lemma {:induction false} SomeCorrectOne(values: seq<int>, correct: seq<bool>, p: int -> bool)
    requires |values| == |correct| && Count(values, p) > Wrong(correct)
    ensures exists i :: 0 <= i < |values| && correct[i] && p(values[i])
  {
    var n := |values| - 1;
    if !(correct[n] && p(values[n])) {
      SomeCorrectOne(values[..n], correct[..n], p);
      var i :| 0 <= i < n && correct[..n][i] && p(values[..n][i]);
      assert correct[i] && p(values[i]);
    }
  }

  ghost function AtMost(m: int): int -> bool { x => x <= m }

  ghost function AtLeast(m: int): int -> bool { x => x >= m }

  lemma AscendingCountsBelow(s: seq<int>, k: nat)
    requires Ascending(s) && k < |s|
    ensures Count(s, AtMost(s[k])) >= k + 1
  {
    hide Count;
    assert s[..k + 1] + s[k + 1..] == s;
    CountAppend(s[..k + 1], s[k + 1..], AtMost(s[k]));
    CountAll(s[..k + 1], AtMost(s[k]));
  }

  lemma AscendingCountsAbove(s: seq<int>, k: nat)
    requires Ascending(s) && k < |s|
    ensures Count(s, AtLeast(s[k])) >= |s| - k
  {
    hide Count;
    assert s[..k] + s[k..] == s;
    CountAppend(s[..k], s[k..], AtLeast(s[k]));
    CountAll(s[k..], AtLeast(s[k]));
  }

  lemma MedianCounts(values: seq<int>)
    requires values != []
    ensures Count(values, AtMost(Median(values))) >= |values| / 2 + 1
    ensures Count(values, AtLeast(Median(values))) >= |values| - |values| / 2
    ensures Median(values) in values
  {
    hide Count, Sort, AtMost, AtLeast;
    SortFacts(values);
    AscendingCountsBelow(Sort(values), |values| / 2);
    AscendingCountsAbove(Sort(values), |values| / 2);
    CountSort(values, AtMost(Median(values)));
    CountSort(values, AtLeast(Median(values)));
    assert Median(values) in multiset(Sort(values));
  }

  // ---------------------------------------------------------------------------------------------
  // The theorem
  // ---------------------------------------------------------------------------------------------

  ghost predicate Bracketed(values: seq<int>, correct: seq<bool>)
    requires |values| == |correct|
  {
    && (exists i :: 0 <= i < |values| && correct[i] && values[i] <= Median(values))
    && (exists i :: 0 <= i < |values| && correct[i] && values[i] >= Median(values))
  }

  /**
    While fewer than half of the oracles report wrong values, the chosen reward lies between two
    correct reports, for any number of oracles, odd or even.
   */
  lemma MedianIsBracketed(values: seq<int>, correct: seq<bool>)
    requires |values| == |correct| && 2 * Wrong(correct) < |values|
    ensures Bracketed(values, correct)
  {
    MedianCounts(values);
    SomeCorrectOne(values, correct, AtMost(Median(values)));
    SomeCorrectOne(values, correct, AtLeast(Median(values)));
  }

  /** All correct oracles report low, all wrong ones high. */
  ghost function Split(correct: seq<bool>, low: int, high: int): seq<int> {
    seq(|correct|, (i: int) requires 0 <= i < |correct| => if correct[i] then low else high)
  }

  lemma {:induction false} SplitCount(correct: seq<bool>, low: int, high: int)
    requires low < high
    ensures Count(Split(correct, low, high), AtMost(low)) == |correct| - Wrong(correct)
  {
    if correct != [] {
      var n := |correct| - 1;
      assert Split(correct, low, high)[..n] == Split(correct[..n], low, high);
      SplitCount(correct[..n], low, high);
    }
  }

  /** From half on, the wrong oracles can move it: the bound on wrong reports is exact. */
  lemma MedianBracketedIff(correct: seq<bool>)
    requires correct != []
    ensures (forall values: seq<int> :: |values| == |correct| ==> Bracketed(values, correct))
        <==> 2 * Wrong(correct) < |correct|
  {
    if 2 * Wrong(correct) < |correct| {
      forall values: seq<int> | |values| == |correct|
        ensures Bracketed(values, correct)
      {
        MedianIsBracketed(values, correct);
      }
    } else {
      var values := Split(correct, 0, 1);
      SplitCount(correct, 0, 1);
      MedianCounts(values);
      assert Median(values) == 1;
      assert !Bracketed(values, correct);
    }
  }

  // ---------------------------------------------------------------------------------------------
  // The program
  // ---------------------------------------------------------------------------------------------

  const SAFE_INTEGER := 0x20_0000_0000_0000  // 2^53: BN.toNumber throws from here on

  /** The comparator: the difference as a number; None when it throws. */
  function Compare(a: int, b: int): Option<int> {
    if -SAFE_INTEGER < a - b < SAFE_INTEGER then Some(a - b) else None
  }

  ghost predicate Comparable(values: seq<int>) {
    forall i, j :: 0 <= i < |values| && 0 <= j < |values| ==> Compare(values[i], values[j]).Some?
  }

  lemma {:induction false} InsertAt(x: int, s: seq<int>, k: nat)
    requires k <= |s| && (forall i :: 0 <= i < k ==> s[i] <= x) && (k < |s| ==> x < s[k])
    ensures Insert(x, s) == s[..k] + [x] + s[k..]
  {
    if k > 0 {
      InsertAt(x, s[1..], k - 1);
      assert s[1..][..k - 1] == s[1..k] && s[1..][k - 1..] == s[k..];
      assert s[..k] == [s[0]] + s[1..k];
    } else {
      assert s[..0] + [x] + s[0..] == [x] + s;
    }
  }

  /** Where x goes in a sorted list, by the comparator; None when the comparator throws. */
  method InsertionPoint(x: int, s: seq<int>) returns (k: Option<nat>)
    ensures k.Some? ==> k.value <= |s| && Insert(x, s) == s[..k.value] + [x] + s[k.value..]
    ensures k.Some? && k.value > 0 ==> Compare(x, s[k.value - 1]).Some?
    ensures k.Some? && k.value < |s| ==> Compare(x, s[k.value]).Some?
    ensures k.None? ==> exists i :: 0 <= i < |s| && Compare(x, s[i]).None?
  {
    hide Insert;
    var n := 0;
    while n < |s|
      invariant 0 <= n <= |s|
      invariant forall i :: 0 <= i < n ==> s[i] <= x
      invariant n > 0 ==> Compare(x, s[n - 1]).Some?
    {
      var c := Compare(x, s[n]);
      if c.None? {
        return None;
      }
      if c.value < 0 {
        assert Compare(x, s[n]).Some?;
        break;
      }
      n := n + 1;
    }
    InsertAt(x, s, n);
    return Some(n);
  }

  lemma GapsInserted(x: int, s: seq<int>, k: nat)
    requires NoWideGap(s) && k <= |s|
    requires (k > 0 ==> Compare(x, s[k - 1]).Some?) && (k < |s| ==> Compare(x, s[k]).Some?)
    ensures NoWideGap(s[..k] + [x] + s[k..])
  {
    var t := s[..k] + [x] + s[k..];
    forall i | 0 < i < |t|
      ensures Compare(t[i], t[i - 1]).Some?
    {
      if i < k {
        assert t[i] == s[i] && t[i - 1] == s[i - 1];
      } else if i > k + 1 {
        assert t[i] == s[i - 1] && t[i - 1] == s[i - 2];
      }
    }
  }

  lemma SortedPrefixReports(values: seq<int>, n: nat)
    requires n < |values|
    ensures Sort(values[..n + 1]) == Insert(values[n], Sort(values[..n]))
    ensures forall i :: 0 <= i < |Sort(values[..n])| ==> Sort(values[..n])[i] in values
  {
    assert values[..n + 1][..n] == values[..n];
    SortFacts(values[..n]);
    forall i | 0 <= i < |Sort(values[..n])|
      ensures Sort(values[..n])[i] in values
    {
      assert Sort(values[..n])[i] in multiset(Sort(values[..n]));
      assert Sort(values[..n])[i] in values[..n];
    }
  }

  /** Neighbours in the list can be compared. */
  ghost predicate NoWideGap(s: seq<int>) {
    forall i :: 0 < i < |s| ==> Compare(s[i], s[i - 1]).Some?
  }

  /** Throws only if two reports are 2^53 or more apart, and always if two neighbours in order are. */
  method SortReports(values: seq<int>) returns (sorted: Option<seq<int>>)
    ensures sorted.Some? ==> sorted.value == Sort(values)
    ensures Comparable(values) ==> sorted.Some?
    ensures sorted.Some? ==> NoWideGap(Sort(values))
  {
    hide Insert, Compare;
    var s: seq<int> := [];
    for n := 0 to |values|
      invariant s == Sort(values[..n]) && NoWideGap(s)
    {
      hide Sort;
      SortedPrefixReports(values, n);
      var k := InsertionPoint(values[n], s);
      if k.None? {
        return None;
      }
      GapsInserted(values[n], s, k.value);
      s := s[..k.value] + [values[n]] + s[k.value..];
    }
    assert values[..|values|] == values;
    return Some(s);
  }

  /** What an oracle's report counts for. */
  function Worth(report: Option<nat>): int {
    match report
    case Some(amount) => amount
    case None => 0
  }

  /** The amount lies between the reports of two correct oracles. */
  ghost predicate BetweenCorrect(reports: seq<Option<nat>>, correct: seq<bool>, amount: int)
    requires |reports| == |correct|
  {
    && (exists i :: 0 <= i < |reports| && correct[i] && Worth(reports[i]) <= amount)
    && (exists i :: 0 <= i < |reports| && correct[i] && Worth(reports[i]) >= amount)
  }

  /** Fewer than half of the oracles are wrong. */
  ghost predicate MostCorrect(reports: seq<Option<nat>>, correct: seq<bool>) {
    |correct| == |reports| && 2 * Wrong(correct) < |reports|
  }

  lemma ReportsBracketed(reports: seq<Option<nat>>, correct: seq<bool>)
    requires MostCorrect(reports, correct)
    ensures BetweenCorrect(reports, correct, Median(Reported(reports)))
  {
    var values := Reported(reports);
    MedianIsBracketed(values, correct);
    var i :| 0 <= i < |values| && correct[i] && values[i] <= Median(values);
    var j :| 0 <= j < |values| && correct[j] && values[j] >= Median(values);
    assert Worth(reports[i]) == values[i] && Worth(reports[j]) == values[j];
  }

  /** The pending reward: the median minus what the recipient has already been paid. */
  method PendingReward(reports: seq<Option<nat>>, totalRewards: nat) returns (pending: Option<int>)
    ensures pending.Some? ==> pending.value == Median(Reported(reports)) - totalRewards
    ensures Comparable(Reported(reports)) ==> pending.Some?
    ensures pending.Some? ==> NoWideGap(Sort(Reported(reports)))
    ensures pending.Some? ==> forall correct: seq<bool> :: MostCorrect(reports, correct) ==>
      BetweenCorrect(reports, correct, pending.value + totalRewards)
    ensures pending.Some? && |reports| == 1 ==> pending.value == Worth(reports[0]) - totalRewards
    ensures pending.Some? && reports == [] ==> pending.value + totalRewards == 0
  {
    var values := Reported(reports);
    var sorted := SortReports(values);
    if sorted.None? {
      return None;
    }
    SortFacts(values);
    forall correct: seq<bool> | MostCorrect(reports, correct)
      ensures BetweenCorrect(reports, correct, Median(values))
    {
      ReportsBracketed(reports, correct);
    }
    if |reports| == 1 {
      assert MostCorrect(reports, [true]) by {
        assert [true][..0] == [];
      }
    }
    var oracleMedian := if |values| == 0 then 0 else sorted.value[|values| / 2];
    return Some(oracleMedian - totalRewards);
  }
}
