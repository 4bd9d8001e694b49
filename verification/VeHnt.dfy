/**
  The veHNT figures computed by the query in packages/helium-admin-cli/src/update-subdao-vehnt.ts:
  each position's ve-tokens and fall rate, and the two sums stored on chain, from which the total
  at a later time is predicted as total minus elapsed time times rate.  Times are seconds and all
  arithmetic is exact; the query's numeric type rounds quotients, which is not modelled.
 */
module VeHnt {

  const DAY := 86400.0

  datatype Position = Position(
    isConstant: bool,            // lockup_kind = 'constant'
    amount: real,
    startTs: real,
    endTs: real,
    genesisEnd: real,
    saturation: real,            // lockup_saturation_seconds
    maxExtra: real,              // max_extra_lockup_vote_weight_scaled_factor
    genesisFactor: real,         // genesisVotePowerMultiplier
    expirationTs: real)          // of the delegation
  {
    predicate Valid() {
      amount >= 0.0 && saturation > 0.0 && maxExtra >= 0.0 && genesisFactor >= 0.0
    }
  }

  function Min(a: real, b: real): real { if a <= b then a else b }

  function Max(a: real, b: real): real { if a >= b then a else b }

  /** The start of the day a time is in. */
  function FloorDay(t: real): real { (t / DAY).Floor as real * DAY }

  predicate InGenesis(p: Position, now: real) { now < FloorDay(p.genesisEnd) }

  function Multiplier(p: Position, now: real): real {
    if FloorDay(p.genesisEnd) > now then p.genesisFactor else 1.0
  }

  function SecondsRemaining(p: Position, now: real): real {
    Max(p.endTs - (if p.isConstant then p.startTs else now), 0.0)
  }

  function VeTokens(p: Position, now: real): real
    requires p.Valid()
  {
    p.amount * (p.maxExtra * Multiplier(p, now) * Min(SecondsRemaining(p, now) / p.saturation, 1.0))
  }

  /** The query divides by the time to the end, so that must not be zero. */
  function FallRate(p: Position, now: real): real
    requires p.Valid() && (!p.isConstant && !InGenesis(p, now) ==> p.endTs != now)
    requires InGenesis(p, now) ==> p.genesisEnd != now
  {
    if p.isConstant then 0.0
    else if now < FloorDay(p.genesisEnd) then
      (VeTokens(p, now) -
       p.amount * (Min((p.endTs - p.genesisEnd) / p.saturation, 1.0) * p.maxExtra * Multiplier(p, now)))
      / (p.genesisEnd - now)
    else VeTokens(p, now) / (p.endTs - now)
  }

  /** The where clause: positions and delegations that outlive the current day. */
  predicate Counted(p: Position, now: real) {
    && (p.isConstant || p.endTs >= FloorDay(now) + DAY)
    && p.expirationTs >= FloorDay(now) + DAY
  }

  // ---------------------------------------------------------------------------------------------
  // Facts about days
  // ---------------------------------------------------------------------------------------------

  lemma FloorDayBounds(t: real)
    ensures FloorDay(t) <= t < FloorDay(t) + DAY
  {
    var q := t / DAY;
    assert q.Floor as real <= q < q.Floor as real + 1.0;
    assert q * DAY == t;
  }

  /** For a counted position the fall rate is defined. */
  lemma CountedIsDefined(p: Position, now: real)
    requires Counted(p, now)
    ensures p.isConstant || p.endTs > now
    ensures InGenesis(p, now) ==> p.genesisEnd > now
  {
    FloorDayBounds(now);
    FloorDayBounds(p.genesisEnd);
  }

  // ---------------------------------------------------------------------------------------------
  // The chord of a saturating line
  // ---------------------------------------------------------------------------------------------

  /** The share of the maximum a lockup ending at the given time has at time t. */
  function Share(end: real, saturation: real, t: real): real
    requires saturation > 0.0
  {
    Min((end - t) / saturation, 1.0)
  }

  lemma MulLe(a: real, b: real, c: real)
    requires a <= b && c >= 0.0
    ensures c * a <= c * b
  {
  }

  lemma MulLt(a: real, b: real, c: real)
    requires a < b && c > 0.0
    ensures c * a < c * b
  {
  }

  /** A point of a straight line is the weighted mean of two others. */
  lemma LineMean(end: real, sat: real, t0: real, x: real, d: real)
    requires sat > 0.0
    ensures d * ((end - (t0 + x)) / sat) == (d - x) * ((end - t0) / sat) + x * ((end - (t0 + d)) / sat)
  {
    var u0, u1, u := (end - t0) / sat, (end - (t0 + d)) / sat, (end - (t0 + x)) / sat;
    assert u0 * sat == end - t0 && u1 * sat == end - t0 - d && u * sat == end - t0 - x;
    assert (d * u) * sat == d * (end - t0 - x);
    assert ((d - x) * u0 + x * u1) * sat == (d - x) * (u0 * sat) + x * (u1 * sat);
    assert (d - x) * (end - t0) + x * (end - t0 - d) == d * (end - t0 - x);
  }

  /** The weighted mean of two shares is at most the share in between ... */
  lemma MeanBelowShare(end: real, sat: real, t0: real, x: real, d: real)
    requires sat > 0.0 && 0.0 <= x <= d
    ensures (d - x) * Share(end, sat, t0) + x * Share(end, sat, t0 + d) <= d * Share(end, sat, t0 + x)
  {
    var u0, u1, u := (end - t0) / sat, (end - (t0 + d)) / sat, (end - (t0 + x)) / sat;
    var m0, m1 := Min(u0, 1.0), Min(u1, 1.0);
    LineMean(end, sat, t0, x, d);
    MulLe(m0, u0, d - x);
    MulLe(m1, u1, x);
    MulLe(m0, 1.0, d - x);
    MulLe(m1, 1.0, x);
  }

  lemma MeanOfCutValues(u0: real, u: real, u1: real, x: real, d: real)
    requires 0.0 < x < d && u1 <= u <= u0 && d * u == (d - x) * u0 + x * u1
    ensures (d - x) * Min(u0, 1.0) + x * Min(u1, 1.0) == d * Min(u, 1.0) <==> u0 <= 1.0 || u1 >= 1.0
  {
    if u0 > 1.0 && u1 < 1.0 {
      MulLt(u1, 1.0, x);
      MulLt(1.0, u0, d - x);
    }
  }

  lemma DivLe(a: real, b: real, c: real)
    requires c > 0.0
    ensures a <= b <==> a / c <= b / c
    ensures c / c == 1.0
  {
    var q, r := a / c, b / c;
    assert c * q == a && c * r == b;
    CancelFactor(q, r, c);
  }

  /** ... and, strictly between, equal to it exactly when the line is not cut off in between. */
  lemma MeanIsShareIff(end: real, sat: real, t0: real, x: real, d: real)
    requires sat > 0.0 && 0.0 < x < d
    ensures (d - x) * Share(end, sat, t0) + x * Share(end, sat, t0 + d) == d * Share(end, sat, t0 + x)
       <==> end - t0 <= sat || end - (t0 + d) >= sat
  {
    LineMean(end, sat, t0, x, d);
    DivLe(end - t0, sat, sat);
    DivLe(sat, end - (t0 + d), sat);
    DivLe(end - (t0 + d), end - (t0 + x), sat);
    DivLe(end - (t0 + x), end - t0, sat);
    MeanOfCutValues((end - t0) / sat, (end - (t0 + x)) / sat, (end - (t0 + d)) / sat, x, d);
  }

  // ---------------------------------------------------------------------------------------------
  // One position
  // ---------------------------------------------------------------------------------------------

  /** What the figures stored at time t0 predict for a position at time t. */
  function Predicted(p: Position, t0: real, t: real): real
    requires p.Valid() && Counted(p, t0)
  {
    CountedIsDefined(p, t0);
    VeTokens(p, t0) - (t - t0) * FallRate(p, t0)
  }

  /** Time t is before the position's end and its genesis multiplier, if it has one at t0, still applies. */
  predicate InHorizon(p: Position, t0: real, t: real) {
    t0 <= t && (p.isConstant || t < p.endTs) && (InGenesis(p, t0) ==> InGenesis(p, t))
  }

  /** The ve-tokens of a saturated position. */
  ghost function Full(p: Position, t: real): real { p.amount * p.maxExtra * Multiplier(p, t) }

  /** Where the stored line meets the true curve again. */
  ghost function Far(p: Position, t0: real): real { if InGenesis(p, t0) then p.genesisEnd else p.endTs }

  lemma Associate(a: real, b: real, c: real, m: real)
    ensures a * (b * c * m) == a * b * c * m && a * (m * b * c) == a * b * c * m
  {
    assert b * c * m == m * b * c;
  }

  lemma FullIsPositive(p: Position, t: real)
    requires p.Valid()
    ensures Full(p, t) >= 0.0
  {
    MulLe(0.0, p.maxExtra, p.amount);
    MulLe(0.0, Multiplier(p, t), p.amount * p.maxExtra);
  }

  lemma VeIsShare(p: Position, t: real)
    requires p.Valid() && !p.isConstant && t <= p.endTs
    ensures VeTokens(p, t) == Full(p, t) * Share(p.endTs, p.saturation, t)
  {
    Associate(p.amount, p.maxExtra, Multiplier(p, t), Share(p.endTs, p.saturation, t));
  }

  lemma RateIsSlope(p: Position, t0: real)
    requires p.Valid() && Counted(p, t0) && !p.isConstant
    ensures Far(p, t0) > t0 && p.endTs > t0
    ensures (InGenesis(p, t0) ==> p.genesisEnd != t0) && (!InGenesis(p, t0) ==> p.endTs != t0)
    ensures FallRate(p, t0) * (Far(p, t0) - t0)
         == Full(p, t0) * Share(p.endTs, p.saturation, t0) - Full(p, t0) * Share(p.endTs, p.saturation, Far(p, t0))
  {
    CountedIsDefined(p, t0);
    VeIsShare(p, t0);
    if InGenesis(p, t0) {
      Associate(p.amount, p.maxExtra, Multiplier(p, t0), Share(p.endTs, p.saturation, p.genesisEnd));
    } else {
      assert 0.0 / p.saturation == 0.0;
    }
  }

  lemma ChordScaled(k: real, m0: real, m1: real, r: real, x: real, d: real)
    requires r * d == k * m0 - k * m1
    ensures d * (k * m0 - x * r) == k * ((d - x) * m0 + x * m1)
  {
    assert d * (k * m0 - x * r) == d * (k * m0) - x * (r * d);
    assert x * (r * d) == x * (k * m0) - x * (k * m1);
    assert k * ((d - x) * m0 + x * m1) == k * ((d - x) * m0) + k * (x * m1);
    assert k * ((d - x) * m0) == d * (k * m0) - x * (k * m0);
    assert k * (x * m1) == x * (k * m1);
  }

  lemma ScaledChord(k: real, m0: real, m1: real, m: real, r: real, x: real, d: real)
    requires k >= 0.0 && d > 0.0 && r * d == k * m0 - k * m1
    requires (d - x) * m0 + x * m1 <= d * m
    ensures k * m0 - x * r <= k * m
    ensures k * m0 - x * r == k * m <==> k == 0.0 || (d - x) * m0 + x * m1 == d * m
  {
    var low, high := (d - x) * m0 + x * m1, d * m;
    ChordScaled(k, m0, m1, r, x, d);
    assert d * (k * m) == k * high;
    MulLe(low, high, k);
    CancelFactor(k * m0 - x * r, k * m, d);
    if k > 0.0 && low < high {
      MulLt(low, high, k);
    }
  }

  /** The chord from t0 to far of k times the share lies below the curve, and meets it just where stated. */
  lemma ChordBelowCurve(end: real, sat: real, t0: real, t: real, far: real, k: real, r: real)
    requires sat > 0.0 && k >= 0.0 && t0 <= t < far
    requires r * (far - t0) == k * Share(end, sat, t0) - k * Share(end, sat, far)
    ensures k * Share(end, sat, t0) - (t - t0) * r <= k * Share(end, sat, t)
    ensures k * Share(end, sat, t0) - (t - t0) * r == k * Share(end, sat, t) <==>
      t == t0 || k == 0.0 || end - t0 <= sat || end - far >= sat
  {
    var x, d := t - t0, far - t0;
    assert t0 + x == t && t0 + d == far;
    MeanBelowShare(end, sat, t0, x, d);
    ScaledChord(k, Share(end, sat, t0), Share(end, sat, far), Share(end, sat, t), r, x, d);
    if t0 < t {
      MeanIsShareIff(end, sat, t0, x, d);
    }
  }

  lemma CancelFactor(a: real, b: real, d: real)
    requires d > 0.0
    ensures d * a <= d * b <==> a <= b
    ensures d * a == d * b <==> a == b
  {
    if a < b {
      MulLt(a, b, d);
    } else if b < a {
      MulLt(b, a, d);
    }
  }

  /** The stored line is exact for the position: it does not decay, or nothing is cut off by saturation. */
  ghost predicate Exact(p: Position, t0: real, t: real) {
    || p.isConstant || t == t0 || Full(p, t0) == 0.0
    || p.endTs - t0 <= p.saturation                  // not saturated at t0
    || p.endTs - Far(p, t0) >= p.saturation          // still saturated at the end of genesis
  }

  lemma SameMultiplier(p: Position, t0: real, t: real)
    requires InHorizon(p, t0, t)
    ensures Multiplier(p, t) == Multiplier(p, t0)
  {
  }

  /** The prediction for a decaying position is a point of that chord. */
  lemma PredictedOnChord(p: Position, t0: real, t: real)
    requires p.Valid() && Counted(p, t0) && !p.isConstant && t0 <= t < Far(p, t0)
    ensures var line := Full(p, t0) * Share(p.endTs, p.saturation, t);
      && Predicted(p, t0, t) <= line
      && (Predicted(p, t0, t) == line <==> Exact(p, t0, t))
  {
    hide FallRate, VeTokens, Share, Full;
    RateIsSlope(p, t0);
    FullIsPositive(p, t0);
    VeIsShare(p, t0);
    ChordBelowCurve(p.endTs, p.saturation, t0, t, Far(p, t0), Full(p, t0), FallRate(p, t0));
  }

  /** A decaying position is never predicted too high, and is predicted exactly just in those cases. */
  lemma DecayingPredicted(p: Position, t0: real, t: real)
    requires p.Valid() && Counted(p, t0) && InHorizon(p, t0, t) && !p.isConstant
    ensures Predicted(p, t0, t) <= VeTokens(p, t)
    ensures Predicted(p, t0, t) == VeTokens(p, t) <==> Exact(p, t0, t)
  {
    hide FallRate, VeTokens, Share, Predicted, Exact;
    FloorDayBounds(p.genesisEnd);
    PredictedOnChord(p, t0, t);
    SameMultiplier(p, t0, t);
    VeIsShare(p, t);
  }

  lemma PositionPredicted(p: Position, t0: real, t: real)
    requires p.Valid() && Counted(p, t0) && InHorizon(p, t0, t)
    ensures Predicted(p, t0, t) <= VeTokens(p, t)
    ensures Predicted(p, t0, t) == VeTokens(p, t) <==> Exact(p, t0, t)
  {
    if p.isConstant {
      SameMultiplier(p, t0, t);
    } else {
      DecayingPredicted(p, t0, t);
    }
  }

  // ---------------------------------------------------------------------------------------------
  // The aggregate
  // ---------------------------------------------------------------------------------------------

  ghost predicate AllCounted(ps: seq<Position>, t0: real) {
    forall i :: 0 <= i < |ps| ==> ps[i].Valid() && Counted(ps[i], t0)
  }

  /** SUM(ve_tokens) recomputed over these positions at a given time. */
  function TotalVe(ps: seq<Position>, t: real): real
    requires forall i :: 0 <= i < |ps| ==> ps[i].Valid()
  {
    if ps == [] then 0.0 else TotalVe(ps[..|ps| - 1], t) + VeTokens(ps[|ps| - 1], t)
  }

  /** SUM(fall_rate) */
  function TotalRate(ps: seq<Position>, t0: real): real
    requires forall i :: 0 <= i < |ps| ==> ps[i].Valid() && Counted(ps[i], t0)
  {
    if ps == [] then 0.0
    else
      CountedIsDefined(ps[|ps| - 1], t0);
      TotalRate(ps[..|ps| - 1], t0) + FallRate(ps[|ps| - 1], t0)
  }

  /** The aggregate prediction: one total and one rate for all positions. */
  function Aggregate(ps: seq<Position>, t0: real, t: real): real
    requires forall i :: 0 <= i < |ps| ==> ps[i].Valid() && Counted(ps[i], t0)
  {
    TotalVe(ps, t0) - (t - t0) * TotalRate(ps, t0)
  }

  lemma AggregateAdds(ps: seq<Position>, t0: real, t: real)
    requires AllCounted(ps, t0) && ps != []
    ensures Aggregate(ps, t0, t) == Aggregate(ps[..|ps| - 1], t0, t) + Predicted(ps[|ps| - 1], t0, t)
  {
    hide VeTokens, FallRate;
    var rest, last := ps[..|ps| - 1], ps[|ps| - 1];
    CountedIsDefined(last, t0);
    var a, b, x := TotalRate(rest, t0), FallRate(last, t0), t - t0;
    assert x * (a + b) == x * a + x * b;
  }

  /**
    The aggregate prediction never exceeds the sum of the ve-tokens recomputed at any later time
    within the horizon of every counted position, and equals it exactly when the stored line is
    exact for each of them; constant lockups do not decay.
   */
  lemma {:induction false} AggregateNeverOverestimates(ps: seq<Position>, t0: real, t: real)
    requires AllCounted(ps, t0)
    requires forall i :: 0 <= i < |ps| ==> InHorizon(ps[i], t0, t)
    ensures Aggregate(ps, t0, t) <= TotalVe(ps, t)
    ensures Aggregate(ps, t0, t) == TotalVe(ps, t) <==> forall i :: 0 <= i < |ps| ==> Exact(ps[i], t0, t)
  {
    if ps != [] {
      var n := |ps| - 1;
      AggregateNeverOverestimates(ps[..n], t0, t);
      AggregateAdds(ps, t0, t);
      PositionPredicted(ps[n], t0, t);
      assert (forall i :: 0 <= i < |ps| ==> Exact(ps[i], t0, t)) <==>
        (forall i :: 0 <= i < n ==> Exact(ps[..n][i], t0, t)) && Exact(ps[n], t0, t);
    }
  }

  // The query over all delegated positions, its where clause included

  /** SUM(ve_tokens) over the rows that pass the where clause at t0, with the ve-tokens as of time t. */
  function QueryVe(rows: seq<Position>, t0: real, t: real): real
    requires forall i :: 0 <= i < |rows| ==> rows[i].Valid()
  {
    if rows == [] then 0.0
    else
      var last := rows[|rows| - 1];
      QueryVe(rows[..|rows| - 1], t0, t) + if Counted(last, t0) then VeTokens(last, t) else 0.0
  }

  /** SUM(fall_rate) over the same rows. */
  function QueryRate(rows: seq<Position>, t0: real): real
    requires forall i :: 0 <= i < |rows| ==> rows[i].Valid()
  {
    if rows == [] then 0.0
    else
      var last := rows[|rows| - 1];
      QueryRate(rows[..|rows| - 1], t0) +
      if Counted(last, t0) then
        CountedIsDefined(last, t0);
        FallRate(last, t0)
      else 0.0
  }

  /** The rows that pass. */
  ghost function Passing(rows: seq<Position>, t0: real): seq<Position> {
    if rows == [] then []
    else
      var last := rows[|rows| - 1];
      Passing(rows[..|rows| - 1], t0) + if Counted(last, t0) then [last] else []
  }

  /** A row passes exactly if its lockup is constant or lasts past the next midnight, and its delegation does too. */
  lemma {:induction false} PassingIff(rows: seq<Position>, t0: real, day: int, p: Position)
    requires day as real * DAY <= t0 < (day + 1) as real * DAY
    ensures p in Passing(rows, t0) <==>
      p in rows && (p.isConstant || p.endTs >= (day + 1) as real * DAY) && p.expirationTs >= (day + 1) as real * DAY
  {
    if rows != [] {
      FloorDayIs(t0, day);
      PassingIff(rows[..|rows| - 1], t0, day, p);
    }
  }

  lemma TotalsSnoc(ps: seq<Position>, p: Position, t0: real, t: real)
    requires AllCounted(ps, t0) && p.Valid() && Counted(p, t0)
    ensures (!p.isConstant && !InGenesis(p, t0) ==> p.endTs != t0) && (InGenesis(p, t0) ==> p.genesisEnd != t0)
    ensures AllCounted(ps + [p], t0)
    ensures TotalVe(ps + [p], t) == TotalVe(ps, t) + VeTokens(p, t)
    ensures TotalRate(ps + [p], t0) == TotalRate(ps, t0) + FallRate(p, t0)
  {
    hide VeTokens, FallRate, Counted, InGenesis;
    CountedIsDefined(p, t0);
    assert (ps + [p])[..|ps|] == ps;
  }

  lemma {:induction false} QuerySums(rows: seq<Position>, t0: real, t: real)
    requires forall i :: 0 <= i < |rows| ==> rows[i].Valid()
    ensures AllCounted(Passing(rows, t0), t0)
    ensures QueryVe(rows, t0, t) == TotalVe(Passing(rows, t0), t)
    ensures QueryRate(rows, t0) == TotalRate(Passing(rows, t0), t0)
  {
    if rows != [] {
      hide VeTokens, FallRate, Counted, InGenesis, TotalVe, TotalRate;
      var n := |rows| - 1;
      QuerySums(rows[..n], t0, t);
      var before := Passing(rows[..n], t0);
      if Counted(rows[n], t0) {
        TotalsSnoc(before, rows[n], t0, t);
      } else {
        assert Passing(rows, t0) == before;
      }
    }
  }

  /**
    The stored pair over all delegated positions: the total minus elapsed time times rate never
    exceeds the ve-tokens of the rows that passed, recomputed at any later time within the horizon
    of each, and equals them exactly when the stored line is exact for each.
   */
  lemma QueryNeverOverestimates(rows: seq<Position>, t0: real, t: real)
    requires forall i :: 0 <= i < |rows| ==> rows[i].Valid()
    requires forall p :: p in Passing(rows, t0) ==> InHorizon(p, t0, t)
    ensures var predicted := QueryVe(rows, t0, t0) - (t - t0) * QueryRate(rows, t0);
      && predicted <= QueryVe(rows, t0, t)
      && (predicted == QueryVe(rows, t0, t) <==> forall p :: p in Passing(rows, t0) ==> Exact(p, t0, t))
  {
    hide VeTokens, FallRate, Counted, Passing, QueryVe, QueryRate, Exact, InHorizon;
    var ps := Passing(rows, t0);
    QuerySums(rows, t0, t0);
    QuerySums(rows, t0, t);
    assert forall i :: 0 <= i < |ps| ==> ps[i] in ps;
    AggregateNeverOverestimates(ps, t0, t);
  }

  // What the formula comes to

  /** The multiplier is the genesis factor until the midnight before the genesis end, and one from then on. */
  lemma MultiplierIs(p: Position, t: real, day: int)
    requires day as real * DAY <= p.genesisEnd < (day + 1) as real * DAY
    ensures Multiplier(p, t) == if t < day as real * DAY then p.genesisFactor else 1.0
  {
    FloorDayIs(p.genesisEnd, day);
  }

  /** The time a position counts as locked at time t. */
  function Locked(p: Position, t: real): real { if p.isConstant then p.endTs - p.startTs else p.endTs - t }

  /**
    A position is worth its amount times both factors while locked for at least the saturation
    time, nothing when not locked, and in proportion in between.
   */
  lemma VeTokensAre(p: Position, t: real)
    requires p.Valid()
    ensures var full := p.amount * p.maxExtra * Multiplier(p, t);
      && (Locked(p, t) >= p.saturation ==> VeTokens(p, t) == full)
      && (Locked(p, t) <= 0.0 ==> VeTokens(p, t) == 0.0)
      && (0.0 <= Locked(p, t) <= p.saturation ==> VeTokens(p, t) * p.saturation == full * Locked(p, t))
  {
    var left, full := Locked(p, t), Full(p, t);
    VeIsFullShare(p, t);
    if left <= 0.0 {
      assert SecondsRemaining(p, t) == 0.0 && 0.0 / p.saturation == 0.0 && full * 0.0 == 0.0;
    } else {
      DivLe(p.saturation, left, p.saturation);
      DivLe(left, p.saturation, p.saturation);
      if left <= p.saturation {
        ProportionOf(full, left, p.saturation);
      }
    }
  }

  lemma ProportionOf(full: real, left: real, sat: real)
    requires sat > 0.0
    ensures full * (left / sat) * sat == full * left
  {
    var q := left / sat;
    assert q * sat == left;
    assert full * q * sat == full * (q * sat);
  }

  /** The stored line of a position outside genesis reaches zero at its end. */
  lemma PredictedZeroAtEnd(p: Position, t0: real)
    requires p.Valid() && Counted(p, t0) && !p.isConstant && !InGenesis(p, t0)
    ensures Predicted(p, t0, p.endTs) == 0.0
  {
    CountedIsDefined(p, t0);
    hide VeTokens, Counted;
    var d, v := p.endTs - t0, VeTokens(p, t0);
    assert d * (v / d) == v;
  }

  /** At the genesis end, the stored line of a decaying position is what it is then worth, factor included. */
  lemma PredictedAtGenesisEnd(p: Position, t0: real)
    requires p.Valid() && Counted(p, t0) && !p.isConstant && InGenesis(p, t0) && p.genesisEnd <= p.endTs
    ensures var left, full := p.endTs - p.genesisEnd, p.amount * p.maxExtra * p.genesisFactor;
      && (left >= p.saturation ==> Predicted(p, t0, p.genesisEnd) == full)
      && (left <= p.saturation ==> Predicted(p, t0, p.genesisEnd) * p.saturation == full * left)
  {
    hide FallRate, VeTokens, Share, Counted;
    var left, far := p.endTs - p.genesisEnd, Share(p.endTs, p.saturation, p.genesisEnd);
    RateIsSlope(p, t0);
    VeIsShare(p, t0);
    assert Predicted(p, t0, p.genesisEnd) == Full(p, t0) * far;
    ShareIs(p.endTs, p.saturation, p.genesisEnd);
    ProportionOf(Full(p, t0), left, p.saturation);
  }

  lemma ShareIs(end: real, sat: real, t: real)
    requires sat > 0.0
    ensures end - t >= sat ==> Share(end, sat, t) == 1.0
    ensures end - t <= sat ==> Share(end, sat, t) == (end - t) / sat
  {
    DivLe(sat, end - t, sat);
    DivLe(end - t, sat, sat);
  }

  // ---------------------------------------------------------------------------------------------
  // The horizon ends at the day, not at the genesis end itself
  // ---------------------------------------------------------------------------------------------

  /**
    For a position in genesis whose stored line is exact, because it is not saturated or because
    it is saturated throughout, up to its end and its genesis end: the prediction stays below the
    recomputed value exactly while the day of the genesis end has not begun.  From then on the
    multiplier is gone but the stored line still includes it.
   */
  lemma GenesisHorizonIsTheDay(p: Position, t0: real, t: real)
    requires p.Valid() && Counted(p, t0) && !p.isConstant && InGenesis(p, t0) && Exact(p, t0, t)
    requires p.amount > 0.0 && p.maxExtra > 0.0 && p.genesisFactor > 1.0
    requires t0 <= t < p.endTs && t < p.genesisEnd
    ensures Predicted(p, t0, t) <= VeTokens(p, t) <==> t < FloorDay(p.genesisEnd)
  {
    if t < FloorDay(p.genesisEnd) {
      PositionPredicted(p, t0, t);
    } else {
      GenesisLapsed(p, t0, t);
    }
  }

  lemma GenesisLapsed(p: Position, t0: real, t: real)
    requires p.Valid() && Counted(p, t0) && !p.isConstant && InGenesis(p, t0) && Exact(p, t0, t)
    requires p.amount > 0.0 && p.maxExtra > 0.0 && p.genesisFactor > 1.0
    requires FloorDay(p.genesisEnd) <= t < p.endTs && t < p.genesisEnd
    ensures Predicted(p, t0, t) > VeTokens(p, t)
  {
    hide FallRate, VeTokens, Share, Predicted, Counted, FloorDay, Exact;
    PredictedOnChord(p, t0, t);
    VeIsShare(p, t);
    SharePositive(p.endTs, p.saturation, t);
    MulLt(0.0, p.maxExtra, p.amount);
    GenesisWorthMore(p.amount * p.maxExtra, p.genesisFactor, Share(p.endTs, p.saturation, t));
  }

  /** For example: on the day its genesis period ends, but before it ends, this position is predicted too high. */
  lemma GenesisDayOverestimates()
    ensures var p := Position(false, 1.0, 0.0, 2000000.0, 1000000.0, 10000000.0, 1.0, 3.0, 2000000.0);
      && p.Valid() && Counted(p, 0.0) && 960000.0 < p.genesisEnd < p.endTs
      && Predicted(p, 0.0, 960000.0) > VeTokens(p, 960000.0)
  {
    var p := Position(false, 1.0, 0.0, 2000000.0, 1000000.0, 10000000.0, 1.0, 3.0, 2000000.0);
    FloorDayIs(0.0, 0);
    FloorDayIs(1000000.0, 11);
    assert Exact(p, 0.0, 960000.0);
    GenesisLapsed(p, 0.0, 960000.0);
  }

  lemma FloorDayIs(t: real, day: int)
    requires day as real * DAY <= t < (day + 1) as real * DAY
    ensures FloorDay(t) == day as real * DAY
  {
    var q := t / DAY;
    assert q * DAY == t;
    assert day as real <= q < day as real + 1.0;
    assert q.Floor == day;
  }

  lemma LapsedChord(base: real, factor: real, m0: real, m1: real, m: real, r: real, x: real, d: real)
    requires base > 0.0 && d > 0.0 && r * d == base * factor * m0 - base * factor * m1
    ensures base * factor * m0 - x * r <= base * m <==> factor * ((d - x) * m0 + x * m1) <= d * m
  {
    var k, mean := base * factor, (d - x) * m0 + x * m1;
    ChordScaled(k, m0, m1, r, x, d);
    CancelFactor(k * m0 - x * r, base * m, d);
    CancelFactor(factor * mean, d * m, base);
    assert k * mean == base * (factor * mean);
    assert d * (base * m) == base * (d * m);
  }

  /**
    For every decaying position in genesis, saturated or not, once that day has begun: the
    prediction is still below the recomputed value exactly if the genesis factor times the mean of
    the shares at t0 and at the genesis end, weighted by time, is at most the share now.
   */
  lemma LapsedGenesisIff(p: Position, t0: real, t: real)
    requires p.Valid() && Counted(p, t0) && !p.isConstant && InGenesis(p, t0) && !InGenesis(p, t)
    requires p.amount > 0.0 && p.maxExtra > 0.0 && t < p.endTs
    ensures var d, x := p.genesisEnd - t0, t - t0;
      var start, far := Share(p.endTs, p.saturation, t0), Share(p.endTs, p.saturation, p.genesisEnd);
      Predicted(p, t0, t) <= VeTokens(p, t) <==>
        p.genesisFactor * ((d - x) * start + x * far) <= d * Share(p.endTs, p.saturation, t)
  {
    hide FallRate, VeTokens, Share, Counted, FloorDay;
    RateIsSlope(p, t0);
    VeIsShare(p, t0);
    VeIsShare(p, t);
    MulLt(0.0, p.maxExtra, p.amount);
    var base := p.amount * p.maxExtra;
    assert Full(p, t0) == base * p.genesisFactor && Full(p, t) == base * 1.0;
    LapsedChord(base, p.genesisFactor, Share(p.endTs, p.saturation, t0),
                Share(p.endTs, p.saturation, p.genesisEnd), Share(p.endTs, p.saturation, t),
                FallRate(p, t0), t - t0, p.genesisEnd - t0);
  }

  /** The same for a constant lockup: it does not decay, but it loses the multiplier on that day. */
  lemma ConstantHorizonIsTheDay(p: Position, t0: real, t: real)
    requires p.Valid() && Counted(p, t0) && p.isConstant && InGenesis(p, t0)
    requires p.startTs < p.endTs && p.amount > 0.0 && p.maxExtra > 0.0 && p.genesisFactor > 1.0 && t0 <= t
    ensures Predicted(p, t0, t) <= VeTokens(p, t) <==> t < FloorDay(p.genesisEnd)
  {
    hide VeTokens, Share, FloorDay, Counted;
    var share := Share(p.endTs, p.saturation, p.startTs);
    SharePositive(p.endTs, p.saturation, p.startTs);
    ConstantVe(p, t0, share);
    ConstantVe(p, t, share);
    MulLt(0.0, p.maxExtra, p.amount);
    GenesisWorthMore(p.amount * p.maxExtra, p.genesisFactor, share);
  }

  lemma ConstantVe(p: Position, t: real, share: real)
    requires p.Valid() && p.isConstant && p.startTs < p.endTs && share == Share(p.endTs, p.saturation, p.startTs)
    ensures VeTokens(p, t) == Full(p, t) * share
  {
    Associate(p.amount, p.maxExtra, Multiplier(p, t), share);
  }

  // The same for the aggregate

  /** The share of the maximum a position has at time t. */
  ghost function ShareOf(p: Position, t: real): real
    requires p.Valid()
  {
    Min(SecondsRemaining(p, t) / p.saturation, 1.0)
  }

  /** Constant, or decaying without saturation and not yet ended. */
  ghost predicate Linear(p: Position, t0: real, t: real) {
    p.isConstant || (p.endTs - t0 <= p.saturation && t < p.endTs)
  }

  /** The position is worth something and its genesis multiplier has lapsed since t0. */
  ghost predicate Lapsed(p: Position, t0: real, t: real) {
    && InGenesis(p, t0) && !InGenesis(p, t)
    && p.amount > 0.0 && p.maxExtra > 0.0 && SecondsRemaining(p, t) > 0.0
  }

  lemma VeIsFullShare(p: Position, t: real)
    requires p.Valid()
    ensures VeTokens(p, t) == Full(p, t) * ShareOf(p, t)
  {
    Associate(p.amount, p.maxExtra, Multiplier(p, t), ShareOf(p, t));
  }

  lemma UnsaturatedShare(end: real, sat: real, t0: real, t: real)
    requires sat > 0.0 && end - t0 <= sat && t0 <= t
    ensures Share(end, sat, t) == (end - t) / sat
  {
    DivLe(end - t, sat, sat);
  }

  lemma StraightLine(end: real, sat: real, t0: real, t: real, far: real, k: real, r: real)
    requires sat > 0.0 && k >= 0.0 && end - t0 <= sat && t0 <= t && t0 < far
    requires r * (far - t0) == k * Share(end, sat, t0) - k * Share(end, sat, far)
    ensures k * Share(end, sat, t0) - (t - t0) * r == k * Share(end, sat, t)
  {
    hide Share;
    var x, d := t - t0, far - t0;
    UnsaturatedShare(end, sat, t0, t0);
    UnsaturatedShare(end, sat, t0, t);
    UnsaturatedShare(end, sat, t0, far);
    assert t0 + x == t && t0 + d == far;
    LineMean(end, sat, t0, x, d);
    ScaledChord(k, Share(end, sat, t0), Share(end, sat, far), Share(end, sat, t), r, x, d);
  }

  /** Without saturation the stored line is the true one with the multiplier of t0, for good. */
  lemma LinearPredicted(p: Position, t0: real, t: real)
    requires p.Valid() && Counted(p, t0) && Linear(p, t0, t) && t0 <= t
    ensures Predicted(p, t0, t) == Full(p, t0) * ShareOf(p, t)
  {
    if p.isConstant {
      VeIsFullShare(p, t0);
    } else {
      DecayingLinear(p, t0, t);
    }
  }

  lemma DecayingLinear(p: Position, t0: real, t: real)
    requires p.Valid() && Counted(p, t0) && Linear(p, t0, t) && t0 <= t && !p.isConstant
    ensures Predicted(p, t0, t) == Full(p, t0) * ShareOf(p, t)
  {
    hide FallRate, VeTokens, Full, Counted, Share;
    RateIsSlope(p, t0);
    FullIsPositive(p, t0);
    VeIsShare(p, t0);
    StraightLine(p.endTs, p.saturation, t0, t, Far(p, t0), Full(p, t0), FallRate(p, t0));
    DecayingShareOf(p, t);
  }

  lemma DecayingShareOf(p: Position, t: real)
    requires p.Valid() && !p.isConstant && t <= p.endTs
    ensures ShareOf(p, t) == Share(p.endTs, p.saturation, t)
  {
  }

  lemma ShareOfPositive(p: Position, t: real)
    requires p.Valid()
    ensures ShareOf(p, t) >= 0.0 && (ShareOf(p, t) > 0.0 <==> SecondsRemaining(p, t) > 0.0)
  {
    DivLe(0.0, SecondsRemaining(p, t), p.saturation);
    DivLe(SecondsRemaining(p, t), 0.0, p.saturation);
    assert 0.0 / p.saturation == 0.0;
  }

  /** Such a position is never predicted too low, and too high exactly if its multiplier lapsed. */
  lemma LinearSurplus(p: Position, t0: real, t: real)
    requires p.Valid() && Counted(p, t0) && Linear(p, t0, t) && t0 <= t
    requires InGenesis(p, t0) ==> p.genesisFactor > 1.0
    ensures Predicted(p, t0, t) >= VeTokens(p, t)
    ensures Predicted(p, t0, t) == VeTokens(p, t) <==> !Lapsed(p, t0, t)
  {
    hide VeTokens, Predicted, ShareOf, Counted, FloorDay;
    LinearPredicted(p, t0, t);
    VeIsFullShare(p, t);
    ShareOfPositive(p, t);
    var base, share := p.amount * p.maxExtra, ShareOf(p, t);
    if Multiplier(p, t) != Multiplier(p, t0) {
      BaseValue(p.amount, p.maxExtra);
      if base > 0.0 && share > 0.0 {
        GenesisWorthMore(base, p.genesisFactor, share);
      }
    }
  }

  lemma BaseValue(amount: real, extra: real)
    requires amount >= 0.0 && extra >= 0.0
    ensures amount * extra >= 0.0 && (amount * extra > 0.0 <==> amount > 0.0 && extra > 0.0)
  {
    MulLe(0.0, extra, amount);
    if amount > 0.0 && extra > 0.0 {
      MulLt(0.0, extra, amount);
    }
  }

  /**
    For constant and unsaturated positions together: the aggregate stays at or below the
    recomputed sum exactly while no position of positive value has seen the day of its genesis end
    begin.
   */
  lemma {:induction false} AggregateHorizonIsTheDay(ps: seq<Position>, t0: real, t: real)
    requires AllCounted(ps, t0) && t0 <= t
    requires forall i :: 0 <= i < |ps| ==>
      Linear(ps[i], t0, t) && (InGenesis(ps[i], t0) ==> ps[i].genesisFactor > 1.0)
    ensures Aggregate(ps, t0, t) >= TotalVe(ps, t)
    ensures Aggregate(ps, t0, t) <= TotalVe(ps, t) <==> forall i :: 0 <= i < |ps| ==> !Lapsed(ps[i], t0, t)
  {
    if ps != [] {
      hide VeTokens, FallRate, Predicted, Lapsed, Linear;
      var n := |ps| - 1;
      AggregateHorizonIsTheDay(ps[..n], t0, t);
      AggregateAdds(ps, t0, t);
      LinearSurplus(ps[n], t0, t);
      assert (forall i :: 0 <= i < |ps| ==> !Lapsed(ps[i], t0, t)) <==>
        (forall i :: 0 <= i < n ==> !Lapsed(ps[..n][i], t0, t)) && !Lapsed(ps[n], t0, t);
    }
  }

  lemma SharePositive(end: real, sat: real, t: real)
    requires sat > 0.0 && t < end
    ensures Share(end, sat, t) > 0.0
  {
    var q := (end - t) / sat;
    assert q * sat == end - t;
    if q <= 0.0 {
      MulLe(q, 0.0, sat);
    }
  }

  lemma GenesisWorthMore(base: real, factor: real, share: real)
    requires base > 0.0 && factor > 1.0 && share > 0.0
    ensures base * factor * share > base * 1.0 * share
  {
    MulLt(1.0, factor, base);
    MulLt(base * 1.0, base * factor, share);
  }

  // ---------------------------------------------------------------------------------------------
  // The stored integers
  // ---------------------------------------------------------------------------------------------

  const PRECISION := 1000000000000.0

  /** Both sums are scaled and cut to whole units before they are stored. */
  function Stored(x: real): int { (x * PRECISION).Floor }

  lemma ShareFalls(end: real, sat: real, t: real, t': real)
    requires sat > 0.0 && t <= t'
    ensures Share(end, sat, t') <= Share(end, sat, t)
  {
    DivLe(end - t', end - t, sat);
  }

  lemma FallRateNotNegative(p: Position, t0: real)
    requires p.Valid() && Counted(p, t0)
    ensures (p.isConstant || InGenesis(p, t0) || p.endTs != t0) && (InGenesis(p, t0) ==> p.genesisEnd != t0)
    ensures FallRate(p, t0) >= 0.0
  {
    CountedIsDefined(p, t0);
    if !p.isConstant {
      hide FallRate, VeTokens, Full, Counted, Share;
      RateIsSlope(p, t0);
      FullIsPositive(p, t0);
      ShareFalls(p.endTs, p.saturation, t0, Far(p, t0));
      MulLe(Share(p.endTs, p.saturation, Far(p, t0)), Share(p.endTs, p.saturation, t0), Full(p, t0));
      NotNegativeFactor(FallRate(p, t0), Far(p, t0) - t0);
    }
  }

  lemma NotNegativeFactor(r: real, d: real)
    requires d > 0.0 && r * d >= 0.0
    ensures r >= 0.0
  {
    if r < 0.0 {
      MulLt(r, 0.0, d);
    }
  }

  /** Neither sum is negative, so cutting at the decimal point is rounding down. */
  lemma {:induction false} SumsNotNegative(ps: seq<Position>, t0: real)
    requires AllCounted(ps, t0)
    ensures TotalRate(ps, t0) >= 0.0 && TotalVe(ps, t0) >= 0.0
  {
    if ps != [] {
      hide FallRate, VeTokens;
      var last := ps[|ps| - 1];
      SumsNotNegative(ps[..|ps| - 1], t0);
      FallRateNotNegative(last, t0);
      VeNotNegative(last, t0);
    }
  }

  lemma VeNotNegative(p: Position, t: real)
    requires p.Valid()
    ensures VeTokens(p, t) >= 0.0
  {
    var share := Min(SecondsRemaining(p, t) / p.saturation, 1.0);
    DivLe(0.0, SecondsRemaining(p, t), p.saturation);
    FullIsPositive(p, t);
    MulLe(0.0, share, Full(p, t));
    Associate(p.amount, p.maxExtra, Multiplier(p, t), share);
  }

  /** Cutting off can raise the prediction by less than one unit per second and lower it by less than one unit. */
  lemma StoredPredictionBounds(ps: seq<Position>, t0: real, t: real)
    requires AllCounted(ps, t0) && t0 < t
    requires forall i :: 0 <= i < |ps| ==> InHorizon(ps[i], t0, t)
    ensures var stored := Stored(TotalVe(ps, t0)) as real - (t - t0) * Stored(TotalRate(ps, t0)) as real;
      && Aggregate(ps, t0, t) * PRECISION - 1.0 < stored < Aggregate(ps, t0, t) * PRECISION + (t - t0)
      && stored < TotalVe(ps, t) * PRECISION + (t - t0)
  {
    hide TotalVe, TotalRate, VeTokens, FallRate, Stored;
    AggregateNeverOverestimates(ps, t0, t);
    CutBounds(TotalVe(ps, t0), TotalRate(ps, t0), t - t0);
    MulLe(Aggregate(ps, t0, t), TotalVe(ps, t), PRECISION);
  }

  lemma CutBounds(total: real, rate: real, x: real)
    requires x > 0.0
    ensures (total - x * rate) * PRECISION - 1.0 < Stored(total) as real - x * Stored(rate) as real
    ensures Stored(total) as real - x * Stored(rate) as real < (total - x * rate) * PRECISION + x
  {
    var a, b := total * PRECISION, rate * PRECISION;
    CutError(a, a.Floor as real, b, b.Floor as real, x);
    assert (total - x * rate) * PRECISION == a - x * b;
  }

  lemma Part(x: real, d: real) returns (lost: real)
    requires x > 0.0 && 0.0 <= d < 1.0
    ensures 0.0 <= lost < x && lost == x * d
  {
    lost := x * d;
    MulLt(d, 1.0, x);
  }

  lemma MulSub(x: real, b: real, b': real, d: real)
    requires d == b - b'
    ensures x * d == x * b - x * b'
  {
  }

  lemma CutError(a: real, a': real, b: real, b': real, x: real)
    requires x > 0.0 && a - 1.0 < a' <= a && b - 1.0 < b' <= b
    ensures a - x * b - 1.0 < a' - x * b' < a - x * b + x
  {
    var lost := Part(x, b - b');
    MulSub(x, b, b', b - b');
    assert x * b' == x * b - lost;
  }
}
