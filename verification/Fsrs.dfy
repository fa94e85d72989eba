/**
 The FSRS-5 review scheduler over exact real numbers.

 The exponential and the power function are whatever two functions obey the laws listed
 in `Lawful`; nothing else about them is used. Rounding is not modelled.
 */
module Fsrs {
  import opened Wrappers

  const S_MIN := 0.001
  const S_MAX := 36500.0
  const D_MIN := 1.0
  const D_MAX := 10.0
  const DECAY := -0.5
  const FACTOR := 0.234567901234568

  const W: seq<real> := [
    0.212, 1.2931, 2.3065, 8.2956, 6.4133, 0.8334, 3.0194, 0.001, 1.8722, 0.1666,
    0.796, 1.4835, 0.0614, 0.2629, 1.6483, 0.6014, 1.8729, 0.5425, 0.0912]

  datatype Math = Math(exp: real -> real, pow: (real, real) -> real)

  ghost predicate Lawful(m: Math) {
    && (forall x :: m.exp(x) > 0.0)
    && m.exp(0.0) == 1.0
    && (forall x, y :: x <= y ==> m.exp(x) <= m.exp(y))
    && (forall b, e :: b > 0.0 ==> m.pow(b, e) > 0.0)
    && (forall b :: b > 0.0 ==> m.pow(b, DECAY) * m.pow(b, DECAY) * b == 1.0)
    && Exponential(m) && Powers(m)
  }

  function Sum(x: real, y: real): real { x + y }

  /** The exponential turns sums into products and lies above its tangent. */
  ghost predicate Exponential(m: Math) {
    && (forall x :: m.exp(x) >= 1.0 + x)
    && (forall x, y {:trigger Sum(x, y)} :: m.exp(Sum(x, y)) == m.exp(x) * m.exp(y))
  }

  ghost predicate Based(b: real, c: real, e: real) { 0.0 < b <= c }

  /** The tangent of a power at base one. */
  ghost function Tangent(b: real, e: real): real { 1.0 + e * (b - 1.0) }

  /** A power grows or falls with its base as the exponent's sign says, and for exponents up
      to one it lies below its tangent. */
  ghost predicate Powers(m: Math) {
    && (forall e :: m.pow(1.0, e) == 1.0)
    && (forall b, c, e {:trigger Based(b, c, e)} :: Based(b, c, e) && 0.0 <= e ==> m.pow(b, e) <= m.pow(c, e))
    && (forall b, c, e {:trigger Based(b, c, e)} :: Based(b, c, e) && e <= 0.0 ==> m.pow(c, e) <= m.pow(b, e))
    && (forall b, e {:trigger Tangent(b, e)} :: 1.0 <= b && 0.0 <= e <= 1.0 ==> m.pow(b, e) <= Tangent(b, e))
  }

  datatype Rating = Again | Hard | Good | Easy

  function Value(r: Rating): int {
    match r case Again => 1 case Hard => 2 case Good => 3 case Easy => 4
  }

  datatype CardState = New | Learning | Review | Relearning

  datatype Memory = Memory(stability: real, difficulty: real)

  datatype Output = Output(memory: Memory, scheduledDays: real, nextState: CardState)

  /** `clamp` needs its bounds in order. */
  function Clamp(x: real, lo: real, hi: real): (r: real)
    requires lo <= hi
    ensures lo <= r <= hi
    ensures lo <= x <= hi ==> r == x
  {
    if x < lo then lo else if x > hi then hi else x
  }

  function Max(x: real, y: real): real { if x < y then y else x }

  /** Stability scaled by a factor, kept in range. */
  function Grown(s: real, factor: real): real { Clamp(s * factor, S_MIN, S_MAX) }

  /** A scheduler with the default weights; target recall and longest interval may vary. */
  datatype Scheduler = Scheduler(m: Math, retention: real, maximum: real) {

    ghost predicate Valid() {
      Lawful(m) && 0.0 < retention <= 1.0 && maximum >= 1.0
    }

    function Retrievability(stability: real, elapsed: real): real {
      var s := Clamp(stability, S_MIN, S_MAX);
      m.pow(FACTOR * elapsed / s + 1.0, DECAY)
    }

    /** The interval before it is clamped. */
    function RawInterval(stability: real): real
      requires retention > 0.0
    {
      var s := Clamp(stability, S_MIN, S_MAX);
      s / FACTOR * (1.0 / (retention * retention) - 1.0)
    }

    function NextInterval(stability: real): real
      requires retention > 0.0 && maximum >= 1.0
    {
      Clamp(RawInterval(stability), 1.0, maximum)
    }

    function InitStability(r: Rating): real { Max(W[Value(r) - 1], S_MIN) }

    function InitDifficulty(r: Rating): real {
      Clamp(W[4] - m.exp(W[5] * (Value(r) as real - 1.0)) + 1.0, D_MIN, D_MAX)
    }

    function NextDifficulty(d: real, r: Rating): real {
      var delta := -W[6] * (Value(r) as real - 3.0);
      var newD := d + delta * (10.0 - d) / 9.0;
      var initD := InitDifficulty(Easy);
      Clamp(W[7] * (initD - newD) + newD, D_MIN, D_MAX)
    }

    /** The growth of stability before the bonus for an easy recall. */
    function Growth(s: real, d: real, recall: real, r: Rating): real {
      m.exp(W[8]) * (11.0 - d) * m.pow(s, -W[9]) * (m.exp((1.0 - recall) * W[10]) - 1.0)
      * (if r.Hard? then W[15] else 1.0)
    }

    function StabilityAfterSuccess(s: real, d: real, recall: real, r: Rating): real {
      Grown(s, Growth(s, d, recall, r) * (if r.Easy? then W[16] else 1.0) + 1.0)
    }

    function StabilityAfterFailure(s: real, d: real, recall: real): real {
      Clamp(W[11] * m.pow(d, -W[12]) * (m.pow(s + 1.0, W[13]) - 1.0) * m.exp((1.0 - recall) * W[14]), S_MIN, S_MAX)
    }

    function StabilityShortTerm(s: real, r: Rating): real {
      var raw := m.exp(W[17] * (Value(r) as real - 3.0 + W[18]));
      Grown(s, if Value(r) >= 2 then Max(raw, 1.0) else raw)
    }

    function NewStability(memory: Memory, elapsed: real, r: Rating): real {
      var s := Clamp(memory.stability, S_MIN, S_MAX);
      var d := Clamp(memory.difficulty, D_MIN, D_MAX);
      if elapsed < 0.5 then StabilityShortTerm(s, r)
      else
        var recall := Retrievability(s, elapsed);
        if r.Again? then StabilityAfterFailure(s, d, recall) else StabilityAfterSuccess(s, d, recall, r)
    }

    function Schedule(memory: Option<Memory>, elapsed: real, r: Rating): Output
      requires retention > 0.0 && maximum >= 1.0
    {
      match memory
      case None =>
        var s := InitStability(r);
        Output(Memory(s, InitDifficulty(r)), NextInterval(s), if r.Again? then Learning else Review)
      case Some(mem) =>
        var s := NewStability(mem, elapsed, r);
        var d := Clamp(mem.difficulty, D_MIN, D_MAX);
        Output(Memory(s, NextDifficulty(d, r)), NextInterval(s), if r.Again? then Relearning else Review)
    }
  }

  // ----------------------------------------------------------------------
  // Whole histories
  // ----------------------------------------------------------------------

  datatype Answer = Answer(elapsed: real, rating: Rating)

  ghost predicate InRange(o: Output, maximum: real) {
    && S_MIN <= o.memory.stability <= S_MAX
    && D_MIN <= o.memory.difficulty <= D_MAX
    && 1.0 <= o.scheduledDays <= maximum
  }

  /** The card after a sequence of reviews. */
  function History(sch: Scheduler, answers: seq<Answer>): Option<Output>
    requires sch.retention > 0.0 && sch.maximum >= 1.0
  {
    if answers == [] then None
    else
      var last := answers[|answers| - 1];
      match History(sch, answers[..|answers| - 1])
      case None => Some(sch.Schedule(None, last.elapsed, last.rating))
      case Some(o) => Some(sch.Schedule(Some(o.memory), last.elapsed, last.rating))
  }

  /** Over every history the memory and the interval stay in their ranges, and the card is
      in relearning or learning exactly after a lapse. */
  lemma HistoryInRange(sch: Scheduler, answers: seq<Answer>)
    requires sch.Valid() && answers != []
    ensures History(sch, answers).Some? && InRange(History(sch, answers).value, sch.maximum)
    ensures History(sch, answers).value.nextState == Review <==> !answers[|answers| - 1].rating.Again?
  {
    var last := answers[|answers| - 1];
    assert forall r :: S_MIN <= sch.InitStability(r) <= S_MAX;
  }

  // ----------------------------------------------------------------------
  // The forgetting curve
  // ----------------------------------------------------------------------

  lemma StrictlyDown(p: real, q: real, x: real, y: real)
    requires p > 0.0 && q > 0.0 && 0.0 < x < y
    requires p * p * x == 1.0 && q * q * y == 1.0
    ensures p > q
  {
    if p <= q {
      ProductOrder(p, q, p, q);
      ScaleOrder(p * p, q * q, x);
      StrictScale(x, y, q * q);
    }
  }

  lemma OneRoot(p: real, q: real, x: real)
    requires p > 0.0 && q > 0.0 && x > 0.0
    requires p * p * x == 1.0 && q * q * x == 1.0
    ensures p == q
  {
    if p < q {
      ProductStrict(p, q);
      StrictScale(p * p, q * q, x);
    } else if q < p {
      ProductStrict(q, p);
      StrictScale(q * q, p * p, x);
    }
  }

  /** Inverse square roots reverse the order. */
  lemma SquareOrder(p: real, q: real, x: real, y: real)
    requires p > 0.0 && q > 0.0 && x > 0.0 && y > 0.0
    requires p * p * x == 1.0 && q * q * y == 1.0
    ensures x < y <==> p > q
    ensures x == y <==> p == q
  {
    if x < y {
      StrictlyDown(p, q, x, y);
    } else if y < x {
      StrictlyDown(q, p, y, x);
    } else {
      OneRoot(p, q, x);
    }
  }

  lemma ScaleOrder(a: real, b: real, c: real)
    requires a <= b && c >= 0.0
    ensures a * c <= b * c && c * a <= c * b
  {
    assert (b - a) * c >= 0.0;
  }

  lemma StrictScale(a: real, b: real, c: real)
    requires a < b && c > 0.0
    ensures a * c < b * c && c * a < c * b
  {
    assert (b - a) * c > 0.0;
  }

  lemma ProductOrder(a: real, b: real, c: real, d: real)
    requires 0.0 <= a <= b && 0.0 <= c <= d
    ensures a * c <= b * d
  {
    ScaleOrder(a, b, c);
    ScaleOrder(c, d, b);
  }

  lemma ProductStrict(a: real, b: real)
    requires 0.0 < a < b
    ensures a * a < b * b
  {
    StrictScale(a, b, a);
    StrictScale(a, b, b);
  }

  /** How far out on the forgetting curve an elapsed time lies. */
  ghost function Spread(stability: real, elapsed: real): real {
    FACTOR * elapsed / Clamp(stability, S_MIN, S_MAX) + 1.0
  }

  lemma SpreadGrows(stability: real, t: real, u: real)
    requires 0.0 <= t <= u
    ensures 1.0 <= Spread(stability, t) <= Spread(stability, u)
    ensures t < u ==> Spread(stability, t) < Spread(stability, u)
  {
    var s := Clamp(stability, S_MIN, S_MAX);
    var k := FACTOR / s;
    assert k > 0.0;
    SpreadScales(stability, t);
    SpreadScales(stability, u);
    ScaleOrder(0.0, t, k);
    ScaleOrder(t, u, k);
    if t < u { StrictScale(t, u, k); }
  }

  lemma SpreadScales(stability: real, t: real)
    ensures Spread(stability, t) == FACTOR / Clamp(stability, S_MIN, S_MAX) * t + 1.0
  {
  }

  /** Recall lies in (0, 1], is 1 at once, and strictly falls with time. */
  lemma RecallFalls(sch: Scheduler, stability: real, t: real, u: real)
    requires sch.Valid() && 0.0 <= t <= u
    ensures 0.0 < sch.Retrievability(stability, u) <= sch.Retrievability(stability, t) <= 1.0
    ensures t < u ==> sch.Retrievability(stability, u) < sch.Retrievability(stability, t)
    ensures sch.Retrievability(stability, 0.0) == 1.0
  {
    var p, q := sch.Retrievability(stability, t), sch.Retrievability(stability, u);
    SpreadGrows(stability, t, u);
    SpreadGrows(stability, 0.0, t);
    var x, y := Spread(stability, t), Spread(stability, u);
    assert p == sch.m.pow(x, DECAY) && q == sch.m.pow(y, DECAY);
    SquareOrder(p, q, x, y);
    assert Spread(stability, 0.0) == 1.0;
    var one := sch.m.pow(1.0, DECAY);
    assert sch.Retrievability(stability, 0.0) == one;
    SquareOrder(one, 1.0, 1.0, 1.0);
    SquareOrder(p, 1.0, x, 1.0);
  }

  /** The raw interval sits where the curve has spread to the inverse square of the target. */
  lemma RawIntervalSpread(sch: Scheduler, stability: real)
    requires sch.Valid()
    ensures sch.RawInterval(stability) >= 0.0
    ensures Spread(stability, sch.RawInterval(stability)) == 1.0 / (sch.retention * sch.retention)
  {
    var s := Clamp(stability, S_MIN, S_MAX);
    var c := 1.0 / (sch.retention * sch.retention);
    assert c >= 1.0 by {
      ProductOrder(sch.retention, 1.0, sch.retention, 1.0);
      assert sch.retention * sch.retention > 0.0;
      Reciprocal(sch.retention * sch.retention, 1.0);
    }
    var i := sch.RawInterval(stability);
    assert i == s / FACTOR * (c - 1.0);
    assert s / FACTOR > 0.0;
    ScaleOrder(0.0, c - 1.0, s / FACTOR);
    Cancel(s, c - 1.0);
  }

  lemma Cancel(s: real, c: real)
    requires s > 0.0
    ensures FACTOR * (s / FACTOR * c) / s == c
  {
    assert FACTOR * (s / FACTOR * c) == s * c by {
      assert FACTOR * (s / FACTOR) == s;
      assert FACTOR * (s / FACTOR * c) == (FACTOR * (s / FACTOR)) * c;
    }
    assert s * c / s == c;
  }

  /** Recall at the raw interval is the target exactly. */
  lemma RecallAtRawInterval(sch: Scheduler, stability: real)
    requires sch.Valid()
    ensures sch.Retrievability(stability, sch.RawInterval(stability)) == sch.retention
  {
    RawIntervalSpread(sch, stability);
    var r := sch.retention;
    var x := 1.0 / (r * r);
    assert r * r > 0.0;
    assert r * r * x == 1.0;
    var p := sch.m.pow(x, DECAY);
    assert x > 0.0;
    SquareOrder(p, r, x, x);
  }

  /** The schedule inverts the forgetting curve: recall when the card comes up again
      equals the target exactly when neither clamp acted. A card held back to one day comes up
      below target, one cut to the longest interval above it. */
  lemma ScheduleInvertsForgetting(sch: Scheduler, stability: real)
    requires sch.Valid()
    ensures var recall := sch.Retrievability(stability, sch.NextInterval(stability));
            var raw := sch.RawInterval(stability);
            && (recall == sch.retention <==> 1.0 <= raw <= sch.maximum)
            && (recall < sch.retention <==> raw < 1.0)
            && (recall > sch.retention <==> raw > sch.maximum)
  {
    var raw, i := sch.RawInterval(stability), sch.NextInterval(stability);
    RecallAtRawInterval(sch, stability);
    RawIntervalSpread(sch, stability);
    if raw < 1.0 {
      RecallFalls(sch, stability, raw, i);
    } else if raw > sch.maximum {
      RecallFalls(sch, stability, i, raw);
    }
  }

  lemma ClampOrder(x: real, y: real, lo: real, hi: real)
    requires lo <= hi && x <= y
    ensures Clamp(x, lo, hi) <= Clamp(y, lo, hi)
  {
  }

  /** More stability never shortens the interval; a higher target never lengthens it. */
  lemma IntervalMonotone(sch: Scheduler, other: Scheduler, s: real, t: real)
    requires sch.Valid() && other.Valid() && sch.maximum == other.maximum
    requires s <= t && other.retention <= sch.retention
    ensures sch.NextInterval(s) <= other.NextInterval(t)
  {
    var a, b := Clamp(s, S_MIN, S_MAX), Clamp(t, S_MIN, S_MAX);
    ClampOrder(s, t, S_MIN, S_MAX);
    RawIntervalSpread(sch, s);
    var p, q := sch.retention * sch.retention, other.retention * other.retention;
    ProductOrder(other.retention, sch.retention, other.retention, sch.retention);
    assert q > 0.0 && q <= p <= 1.0 by { ProductOrder(sch.retention, 1.0, sch.retention, 1.0); }
    Reciprocal(q, p);
    Reciprocal(p, 1.0);
    assert a / FACTOR <= b / FACTOR;
    ProductOrder(a / FACTOR, b / FACTOR, 1.0 / p - 1.0, 1.0 / q - 1.0);
    ClampOrder(sch.RawInterval(s), other.RawInterval(t), 1.0, sch.maximum);
  }

  lemma Reciprocal(q: real, p: real)
    requires 0.0 < q <= p
    ensures 1.0 / p <= 1.0 / q
  {
    var x, y := 1.0 / p, 1.0 / q;
    assert x * p == 1.0 && y * q == 1.0;
    if x > y {
      ProductOrder(y, x, q, p);
      StrictScale(y, x, q);
      ScaleOrder(q, p, x);
    }
  }

  // ----------------------------------------------------------------------
  // Ratings compared
  // ----------------------------------------------------------------------

  lemma NonNegativeProduct(a: real, b: real)
    requires a >= 0.0 && b >= 0.0
    ensures a * b >= 0.0
  {
  }

  lemma GrowthOrder(sch: Scheduler, s: real, d: real, recall: real)
    requires sch.Valid() && s > 0.0 && d <= D_MAX && recall <= 1.0
    ensures 0.0 <= sch.Growth(s, d, recall, Hard) <= sch.Growth(s, d, recall, Good) == sch.Growth(s, d, recall, Easy)
  {
    var g := GrowthBase(sch, s, d, recall);
    ScaleOrder(W[15], 1.0, g);
    NonNegativeProduct(g, W[15]);
  }

  lemma GrowthBase(sch: Scheduler, s: real, d: real, recall: real) returns (g: real)
    requires sch.Valid() && s > 0.0 && d <= D_MAX && recall <= 1.0
    ensures g >= 0.0 && forall r :: sch.Growth(s, d, recall, r) == g * (if r.Hard? then W[15] else 1.0)
  {
    var x := (1.0 - recall) * W[10];
    NonNegativeProduct(1.0 - recall, W[10]);
    assert sch.m.exp(0.0) <= sch.m.exp(x);
    var a := sch.m.exp(W[8]) * (11.0 - d);
    NonNegativeProduct(sch.m.exp(W[8]), 11.0 - d);
    var b := a * sch.m.pow(s, -W[9]);
    NonNegativeProduct(a, sch.m.pow(s, -W[9]));
    g := b * (sch.m.exp(x) - 1.0);
    NonNegativeProduct(b, sch.m.exp(x) - 1.0);
  }

  /** Scaling stability by at least one, then clamping, does not lower it; scaling by more
      does not give less. */
  lemma GrownOrder(s: real, x: real, y: real)
    requires S_MIN <= s <= S_MAX && 1.0 <= x <= y
    ensures s <= Grown(s, x) <= Grown(s, y)
  {
    ScaleOrder(1.0, x, s);
    ScaleOrder(x, y, s);
  }

  /** The factor by which a successful recall scales stability. */
  ghost function SuccessFactor(sch: Scheduler, s: real, d: real, recall: real, r: Rating): real {
    sch.Growth(s, d, recall, r) * (if r.Easy? then W[16] else 1.0) + 1.0
  }

  lemma SuccessFactors(sch: Scheduler, s: real, d: real, recall: real)
    requires sch.Valid() && s > 0.0 && d <= D_MAX && recall <= 1.0
    ensures 1.0 <= SuccessFactor(sch, s, d, recall, Hard) <= SuccessFactor(sch, s, d, recall, Good) <= SuccessFactor(sch, s, d, recall, Easy)
  {
    GrowthOrder(sch, s, d, recall);
    ScaleOrder(1.0, W[16], sch.Growth(s, d, recall, Good));
  }

  lemma SuccessIsGrown(sch: Scheduler, s: real, d: real, recall: real, r: Rating)
    ensures sch.StabilityAfterSuccess(s, d, recall, r) == Grown(s, SuccessFactor(sch, s, d, recall, r))
  {
  }

  /** The factor of a second review on the same day. */
  ghost function ShortFactor(sch: Scheduler, r: Rating): real {
    Max(sch.m.exp(W[17] * (Value(r) as real - 3.0 + W[18])), 1.0)
  }

  lemma ShortFactors(sch: Scheduler)
    requires sch.Valid()
    ensures 1.0 <= ShortFactor(sch, Hard) <= ShortFactor(sch, Good) <= ShortFactor(sch, Easy)
  {
    var x := (r: Rating) => W[17] * (Value(r) as real - 3.0 + W[18]);
    assert x(Hard) <= x(Good) <= x(Easy);
    assert sch.m.exp(x(Hard)) <= sch.m.exp(x(Good)) <= sch.m.exp(x(Easy));
  }

  lemma ShortIsGrown(sch: Scheduler, s: real, r: Rating)
    requires !r.Again?
    ensures sch.StabilityShortTerm(s, r) == Grown(s, ShortFactor(sch, r))
  {
  }

  /** The factor a review other than Again scales the stored stability by. */
  ghost function FactorOf(sch: Scheduler, memory: Memory, elapsed: real, r: Rating): real {
    var s := Clamp(memory.stability, S_MIN, S_MAX);
    if elapsed < 0.5 then ShortFactor(sch, r)
    else SuccessFactor(sch, s, Clamp(memory.difficulty, D_MIN, D_MAX), sch.Retrievability(s, elapsed), r)
  }

  lemma FactorsOrdered(sch: Scheduler, memory: Memory, elapsed: real)
    requires sch.Valid()
    ensures 1.0 <= FactorOf(sch, memory, elapsed, Hard) <= FactorOf(sch, memory, elapsed, Good) <= FactorOf(sch, memory, elapsed, Easy)
  {
    var s := Clamp(memory.stability, S_MIN, S_MAX);
    if elapsed < 0.5 {
      ShortFactors(sch);
    } else {
      RecallFalls(sch, s, elapsed, elapsed);
      SuccessFactors(sch, s, Clamp(memory.difficulty, D_MIN, D_MAX), sch.Retrievability(s, elapsed));
    }
  }

  lemma NewStabilityIsGrown(sch: Scheduler, memory: Memory, elapsed: real, r: Rating)
    requires !r.Again?
    ensures sch.NewStability(memory, elapsed, r) == Grown(Clamp(memory.stability, S_MIN, S_MAX), FactorOf(sch, memory, elapsed, r))
  {
    var s := Clamp(memory.stability, S_MIN, S_MAX);
    if elapsed < 0.5 {
      ShortIsGrown(sch, s, r);
    } else {
      SuccessIsGrown(sch, s, Clamp(memory.difficulty, D_MIN, D_MAX), sch.Retrievability(s, elapsed), r);
    }
  }

  /** No rating but Again lowers stability, and a better rating does not give less. */
  lemma StabilityOrder(sch: Scheduler, memory: Memory, elapsed: real)
    requires sch.Valid()
    ensures Clamp(memory.stability, S_MIN, S_MAX)
         <= sch.NewStability(memory, elapsed, Hard)
         <= sch.NewStability(memory, elapsed, Good)
         <= sch.NewStability(memory, elapsed, Easy)
  {
    var s := Clamp(memory.stability, S_MIN, S_MAX);
    NewStabilityIsGrown(sch, memory, elapsed, Hard);
    NewStabilityIsGrown(sch, memory, elapsed, Good);
    NewStabilityIsGrown(sch, memory, elapsed, Easy);
    FactorsOrdered(sch, memory, elapsed);
    GrownOrder(s, FactorOf(sch, memory, elapsed, Hard), FactorOf(sch, memory, elapsed, Good));
    GrownOrder(s, FactorOf(sch, memory, elapsed, Good), FactorOf(sch, memory, elapsed, Easy));
  }

  /** For the same memory and elapsed time, new cards included, a better rating never
      brings the card up earlier. */
  lemma BetterRatingsWaitLonger(sch: Scheduler, memory: Option<Memory>, elapsed: real)
    requires sch.Valid()
    ensures sch.Schedule(memory, elapsed, Hard).scheduledDays
         <= sch.Schedule(memory, elapsed, Good).scheduledDays
         <= sch.Schedule(memory, elapsed, Easy).scheduledDays
  {
    var h := sch.Schedule(memory, elapsed, Hard).memory.stability;
    var g := sch.Schedule(memory, elapsed, Good).memory.stability;
    var e := sch.Schedule(memory, elapsed, Easy).memory.stability;
    if memory.Some? { StabilityOrder(sch, memory.value, elapsed); }
    IntervalMonotone(sch, sch, h, g);
    IntervalMonotone(sch, sch, g, e);
  }

  /** Difficulty before mean reversion. */
  ghost function Damped(d: real, r: Rating): real {
    d + (-W[6] * (Value(r) as real - 3.0)) * (10.0 - d) / 9.0
  }

  lemma DampedOrder(d: real, e: real, q: Rating, r: Rating)
    requires d <= e <= D_MAX && Value(q) >= Value(r)
    ensures Damped(d, q) <= Damped(e, r)
  {
    var k, l := -W[6] * (Value(q) as real - 3.0), -W[6] * (Value(r) as real - 3.0);
    assert k <= l && l / 9.0 < 1.0;
    assert Damped(d, q) == d + k / 9.0 * (10.0 - d) && Damped(e, r) == e + l / 9.0 * (10.0 - e);
    ScaleOrder(k / 9.0, l / 9.0, 10.0 - d);
    ScaleOrder(d, e, 1.0 - l / 9.0);
    assert d + l / 9.0 * (10.0 - d) == d * (1.0 - l / 9.0) + l / 9.0 * 10.0;
    assert e + l / 9.0 * (10.0 - e) == e * (1.0 - l / 9.0) + l / 9.0 * 10.0;
  }

  /** Next difficulty grows with the current one and falls with a better rating. */
  lemma DifficultyOrder(sch: Scheduler, d: real, e: real, q: Rating, r: Rating)
    requires sch.Valid() && d <= e <= D_MAX && Value(q) >= Value(r)
    ensures sch.NextDifficulty(d, q) <= sch.NextDifficulty(e, r)
  {
    DampedOrder(d, e, q, r);
    RevertedOrder(sch.InitDifficulty(Easy), Damped(d, q), Damped(e, r));
    NextIsReverted(sch, d, q);
    NextIsReverted(sch, e, r);
  }

  /** Difficulty drawn towards that of an easy card. */
  ghost function Reverted(initD: real, x: real): real { Clamp(W[7] * (initD - x) + x, D_MIN, D_MAX) }

  lemma NextIsReverted(sch: Scheduler, d: real, r: Rating)
    ensures sch.NextDifficulty(d, r) == Reverted(sch.InitDifficulty(Easy), Damped(d, r))
  {
  }

  lemma RevertedOrder(initD: real, x: real, y: real)
    requires x <= y
    ensures Reverted(initD, x) <= Reverted(initD, y)
  {
    ScaleOrder(x, y, 1.0 - W[7]);
    assert W[7] * (initD - x) + x == W[7] * initD + x * (1.0 - W[7]);
    assert W[7] * (initD - y) + y == W[7] * initD + y * (1.0 - W[7]);
  }

  // ----------------------------------------------------------------------
  // When Again raises difficulty
  // ----------------------------------------------------------------------

  /** How far mean reversion pulls down from the top. */
  ghost function Pull(sch: Scheduler): real { W[7] * (10.0 - sch.InitDifficulty(Easy)) }

  /** Far enough below the top for Again to outweigh mean reversion. */
  ghost predicate CanRise(sch: Scheduler, d: real) {
    (10.0 - d) * (W[6] * 2.0 / 9.0 * (1.0 - W[7]) + W[7]) > Pull(sch)
  }

  /** Difficulty after Again, before it is clamped, measured from the top. */
  lemma AgainFromTop(sch: Scheduler, d: real)
    ensures 10.0 - (W[7] * (sch.InitDifficulty(Easy) - Damped(d, Again)) + Damped(d, Again))
         == Pull(sch) + (10.0 - d) * ((1.0 - W[7]) * (1.0 - W[6] * 2.0 / 9.0))
  {
    var newD := Damped(d, Again);
    assert 10.0 - newD == (10.0 - d) * (1.0 - W[6] * 2.0 / 9.0);
  }

  lemma InitBelowTop(sch: Scheduler, r: Rating)
    requires sch.Valid()
    ensures D_MIN <= sch.InitDifficulty(r) < 7.4133
  {
    assert sch.m.exp(W[5] * (Value(r) as real - 1.0)) > 0.0;
  }

  /** Again raises difficulty exactly when the card is far enough below the top; very close
      to the top mean reversion wins. */
  lemma AgainRaisesExactly(sch: Scheduler, d: real)
    requires sch.Valid() && D_MIN <= d <= D_MAX
    ensures sch.NextDifficulty(d, Again) > d <==> CanRise(sch, d)
  {
    AgainFromTop(sch, d);
    InitBelowTop(sch, Easy);
    assert Pull(sch) > 0.0;
  }

  /** At the top itself Again lowers difficulty. */
  lemma AgainCanLowerDifficulty(sch: Scheduler)
    requires sch.Valid()
    ensures sch.NextDifficulty(D_MAX, Again) < D_MAX
  {
    var initD := sch.InitDifficulty(Easy);
    InitBelowTop(sch, Easy);
    assert Damped(D_MAX, Again) == 10.0;
    StrictScale(initD, 10.0, W[7]);
  }

  lemma FirstCanRise(sch: Scheduler, r: Rating)
    requires sch.Valid()
    ensures CanRise(sch, sch.InitDifficulty(r))
  {
    InitBelowTop(sch, r);
    InitBelowTop(sch, Easy);
  }

  /** No review takes a card so near the top that Again would lower it. */
  lemma StillCanRise(sch: Scheduler, d: real, r: Rating)
    requires sch.Valid() && D_MIN <= d <= D_MAX && CanRise(sch, d)
    ensures CanRise(sch, sch.NextDifficulty(d, r))
  {
    var next := sch.NextDifficulty(d, Again);
    DifficultyOrder(sch, d, d, r, Again);
    AgainFromTop(sch, d);
    InitBelowTop(sch, Easy);
    FixedPoint(10.0 - d, Pull(sch));
    assert CanRise(sch, next);
  }

  /** The map of `AgainFromTop` moves nothing across its fixed point. */
  lemma FixedPoint(x: real, pull: real)
    requires x * (W[6] * 2.0 / 9.0 * (1.0 - W[7]) + W[7]) > pull
    ensures (pull + x * ((1.0 - W[7]) * (1.0 - W[6] * 2.0 / 9.0))) * (W[6] * 2.0 / 9.0 * (1.0 - W[7]) + W[7]) > pull
  {
  }

  lemma {:induction false} HistoryCanRise(sch: Scheduler, answers: seq<Answer>)
    requires sch.Valid() && answers != []
    ensures History(sch, answers).Some? && CanRise(sch, History(sch, answers).value.memory.difficulty)
  {
    var front, last := answers[..|answers| - 1], answers[|answers| - 1];
    if front == [] {
      FirstCanRise(sch, last.rating);
    } else {
      HistoryCanRise(sch, front);
      HistoryInRange(sch, front);
      StillCanRise(sch, History(sch, front).value.memory.difficulty, last.rating);
    }
  }

  /** A lapse raises the difficulty of every card the scheduler itself has brought there:
      the exception concerns only memory from outside. */
  lemma LapseRaisesDifficulty(sch: Scheduler, answers: seq<Answer>, elapsed: real)
    requires sch.Valid() && answers != []
    ensures var before, after := History(sch, answers), History(sch, answers + [Answer(elapsed, Again)]);
            before.Some? && after.Some? && before.value.memory.difficulty < after.value.memory.difficulty
  {
    var all := answers + [Answer(elapsed, Again)];
    assert all[..|all| - 1] == answers;
    HistoryCanRise(sch, answers);
    HistoryInRange(sch, answers);
    AgainRaisesExactly(sch, History(sch, answers).value.memory.difficulty);
  }
}
