/** Fixed-point voter reputation: a rounded moving average of scores, and its tiers. */
module Reputation {
  import opened Money

  const UNIT := 1_000_000

  datatype HalfLife = H10 | H20 | H40 {
    /** The weight kept per step, in parts per million. */
    function Kept(): nat { match this case H10 => 933_033 case H20 => 965_936 case H40 => 982_821 }
  }

  // ---------------------------------------------------------------- the coefficients

  function Power(x: nat, n: nat): nat { if n == 0 then 1 else x * Power(x, n - 1) }

  function Steps(h: HalfLife): nat { match h case H10 => 10 case H20 => 20 case H40 => 40 }

  lemma {:induction false} PowerAdd(x: nat, m: nat, n: nat)
    ensures Power(x, m + n) == Power(x, m) * Power(x, n)
  {
    if m == 0 {
      assert Power(x, 0) == 1;
    } else {
      PowerAdd(x, m - 1, n);
      assert x * (Power(x, m - 1) * Power(x, n)) == (x * Power(x, m - 1)) * Power(x, n);
    }
  }

  lemma FifthPower(x: nat)
    ensures Power(x, 5) == x * (x * (x * (x * x)))
  {
    assert Power(x, 1) == x && Power(x, 2) == x * x && Power(x, 3) == x * (x * x);
    assert Power(x, 4) == x * (x * (x * x));
  }

  /** The power of a number by its fifth power, squared once, twice or three times. */
  lemma PowerBySquares(x: nat, h: HalfLife, fifth: nat)
    requires fifth == x * (x * (x * (x * x)))
    ensures var tenth := fifth * fifth;
            var twentieth := tenth * tenth;
            Power(x, Steps(h)) == match h case H10 => tenth case H20 => twentieth case H40 => twentieth * twentieth
  {
    FifthPower(x);
    PowerAdd(x, 5, 5);
    PowerAdd(x, 10, 10);
    PowerAdd(x, 20, 20);
  }

  /** Each weight is UNIT * 2^(-1/H), rounded half up: raised to the H-th power it brackets one half. */
  lemma WeightHalves(h: HalfLife)
    ensures var k := h.Kept();
            2 * Power(2 * k - 1, Steps(h)) <= Power(2 * UNIT, Steps(h)) < 2 * Power(2 * k + 1, Steps(h))
  {
    var low, unit, high := 2 * h.Kept() - 1, 2 * UNIT, 2 * h.Kept() + 1;
    PowerBySquares(low, h, low * (low * (low * (low * low))));
    PowerBySquares(unit, h, unit * (unit * (unit * (unit * unit))));
    PowerBySquares(high, h, high * (high * (high * (high * high))));
    match h
    case H10 =>
    case H20 =>
    case H40 =>
  }

  datatype RepError = OperandOutOfRange

  predicate InRange(x: int) { 0 <= x <= UNIT }

  function Numerator(rep: int, score: int, h: HalfLife): int { rep * h.Kept() + score * (UNIT - h.Kept()) }

  function UpdateRep(rep: I64, score: I64, h: HalfLife): (r: Result<I64, RepError>)
    ensures r.Ok? <==> InRange(rep) && InRange(score)
    ensures r.Ok? ==> InRange(r.value)
  {
    if !InRange(rep) || !InRange(score) then Err(OperandOutOfRange)
    else
      AverageInRange(rep, score, h);
      Ok((Numerator(rep, score, h) + UNIT / 2) / UNIT)
  }

  lemma AverageInRange(rep: int, score: int, h: HalfLife)
    requires InRange(rep) && InRange(score)
    ensures 0 <= Numerator(rep, score, h) <= UNIT * UNIT
  {
    match h { case H10 => case H20 => case H40 => }
  }

  /** A step never passes the score, and moves only toward it. */
  lemma NeverOvershoots(rep: I64, score: I64, h: HalfLife)
    requires InRange(rep) && InRange(score)
    ensures var next := UpdateRep(rep, score, h).value;
            if rep <= score then rep <= next <= score else score <= next <= rep
  {
    match h { case H10 => case H20 => case H40 => }
  }

  /** The same score keeps two users in order, and a better score never does worse. */
  lemma KeepsOrder(a: I64, b: I64, low: I64, high: I64, h: HalfLife)
    requires InRange(a) && InRange(b) && InRange(low) && InRange(high) && a <= b && low <= high
    ensures UpdateRep(a, low, h).value <= UpdateRep(b, high, h).value
  {
    match h { case H10 => case H20 => case H40 => }
  }

  /**
   When a step moves at all: up once the weighted gap reaches half a unit, down
   once it falls below minus half a unit. Inside that band reputation stands
   still, short of its score.
   */
  lemma MovesIff(rep: I64, score: I64, h: HalfLife)
    requires InRange(rep) && InRange(score)
    ensures var next := UpdateRep(rep, score, h).value;
            var pull := (score - rep) * (UNIT - h.Kept());
            && (next > rep <==> pull >= UNIT / 2)
            && (next < rep <==> pull < 0 - UNIT / 2)
  {
    match h { case H10 => case H20 => case H40 => }
  }

  // ---------------------------------------------------------------- whole histories

  predicate AllInRange(scores: seq<I64>) { forall i :: 0 <= i < |scores| ==> InRange(scores[i]) }

  function After(rep: I64, scores: seq<I64>, h: HalfLife): (r: I64)
    requires InRange(rep) && AllInRange(scores)
    ensures InRange(r)
  {
    if scores == [] then rep
    else UpdateRep(After(rep, scores[..|scores| - 1], h), scores[|scores| - 1], h).value
  }

  lemma {:induction false} OrderIsKept(a: I64, b: I64, scores: seq<I64>, h: HalfLife)
    requires InRange(a) && InRange(b) && a <= b && AllInRange(scores)
    ensures After(a, scores, h) <= After(b, scores, h)
    decreases |scores|
  {
    if scores != [] {
      var init, last := scores[..|scores| - 1], scores[|scores| - 1];
      OrderIsKept(a, b, init, h);
      KeepsOrder(After(a, init, h), After(b, init, h), last, last, h);
    }
  }

  /** How far from either end rounding stops all movement. */
  function Margin(h: HalfLife): nat { match h case H10 => 7 case H20 => 14 case H40 => 29 }

  /**
   The ends of the scale are out of reach: whoever starts within the margins
   stays within them, whatever the scores; and the margins are themselves
   reached and held.
   */
  lemma {:induction false} EndsAreOutOfReach(rep: I64, scores: seq<I64>, h: HalfLife)
    requires Margin(h) <= rep <= UNIT - Margin(h) && AllInRange(scores)
    ensures Margin(h) <= After(rep, scores, h) <= UNIT - Margin(h)
    ensures UpdateRep(UNIT - Margin(h), UNIT, h) == UpdateRep(UNIT - Margin(h) - 1, UNIT, h) == Ok(UNIT - Margin(h))
    ensures UpdateRep(Margin(h), 0, h) == UpdateRep(Margin(h) + 1, 0, h) == Ok(Margin(h))
    decreases |scores|
  {
    MarginsHold(h);
    if scores != [] {
      var init, last := scores[..|scores| - 1], scores[|scores| - 1];
      EndsAreOutOfReach(rep, init, h);
      KeepsOrder(After(rep, init, h), UNIT - Margin(h), last, UNIT, h);
      KeepsOrder(Margin(h), After(rep, init, h), 0, last, h);
    }
  }

  lemma MarginsHold(h: HalfLife)
    ensures UpdateRep(UNIT - Margin(h), UNIT, h) == UpdateRep(UNIT - Margin(h) - 1, UNIT, h) == Ok(UNIT - Margin(h))
    ensures UpdateRep(Margin(h), 0, h) == UpdateRep(Margin(h) + 1, 0, h) == Ok(Margin(h))
  {
    match h { case H10 => case H20 => case H40 => }
  }

  /** The recurrence in exact arithmetic. */
  function Exact(rep: real, score: real, h: HalfLife): real {
    (rep * h.Kept() as real + score * (UNIT - h.Kept()) as real) / UNIT as real
  }

  function ExactAfter(rep: real, scores: seq<I64>, h: HalfLife): real {
    if scores == [] then rep
    else Exact(ExactAfter(rep, scores[..|scores| - 1], h), scores[|scores| - 1] as real, h)
  }

  /** Half a unit over the weight given away per step. */
  function Drift(h: HalfLife): real { UNIT as real / (2 * (UNIT - h.Kept())) as real }

  function Distance(a: real, b: real): real { if a <= b then b - a else a - b }

  lemma StepRoundsByHalf(rep: I64, score: I64, h: HalfLife)
    requires InRange(rep) && InRange(score)
    ensures Distance(UpdateRep(rep, score, h).value as real, Exact(rep as real, score as real, h)) <= 0.5
  {
    var n := Numerator(rep, score, h);
    var next := UpdateRep(rep, score, h).value;
    assert next * UNIT <= n + UNIT / 2 < next * UNIT + UNIT;
    assert Exact(rep as real, score as real, h) == n as real / UNIT as real by {
      match h { case H10 => case H20 => case H40 => }
    }
  }

  /** The errors of all steps together stay within half a unit over the weight given away. */
  lemma DriftIsStable(x: real, y: real, score: real, h: HalfLife)
    requires Distance(x, y) <= Drift(h)
    ensures Distance(Exact(x, score, h), Exact(y, score, h)) + 0.5 <= Drift(h)
  {
    match h { case H10 => case H20 => case H40 => }
  }

  lemma {:induction false} RoundingNeverDriftsFar(rep: I64, scores: seq<I64>, h: HalfLife)
    requires InRange(rep) && AllInRange(scores)
    ensures Distance(After(rep, scores, h) as real, ExactAfter(rep as real, scores, h)) <= Drift(h)
    decreases |scores|
  {
    if scores == [] {
      match h { case H10 => case H20 => case H40 => }
    } else {
      var init, last := scores[..|scores| - 1], scores[|scores| - 1];
      RoundingNeverDriftsFar(rep, init, h);
      StepRoundsByHalf(After(rep, init, h), last, h);
      DriftIsStable(After(rep, init, h) as real, ExactAfter(rep as real, init, h), last as real, h);
    }
  }

  // ---------------------------------------------------------------- tiers

  /** How many of the thresholds are reached. */
  function TierFor(rep: I64, thresholds: seq<I64>): (tier: nat)
    ensures tier <= |thresholds|
  {
    if thresholds == [] then 0
    else TierFor(rep, thresholds[..|thresholds| - 1]) + (if rep >= thresholds[|thresholds| - 1] then 1 else 0)
  }

  predicate Rising(thresholds: seq<I64>) {
    forall i, j :: 0 <= i < j < |thresholds| ==> thresholds[i] < thresholds[j]
  }

  /** With rising thresholds the tier is the last one reached, lower bounds included. */
  lemma {:induction false} TierIsLastReached(rep: I64, thresholds: seq<I64>, i: nat)
    requires Rising(thresholds) && i < |thresholds|
    ensures rep >= thresholds[i] <==> i < TierFor(rep, thresholds)
    decreases |thresholds|
  {
    var init := thresholds[..|thresholds| - 1];
    if i < |init| {
      TierIsLastReached(rep, init, i);
    } else if |init| > 0 {
      TierIsLastReached(rep, init, |init| - 1);
    }
  }
}
