/** What the scheduler's numbers amount to: what stability stands for, and what a review does
    to it. */
module FsrsNumbers {
  import opened Wrappers
  import opened Fsrs

  // ----------------------------------------------------------------------
  // Stability is the time after which recall is nine in ten
  // ----------------------------------------------------------------------

  /** As many days after a review as the card's stability, recall is 0.9. */
  lemma RecallAtStability(sch: Scheduler, s: real)
    requires sch.Valid() && S_MIN <= s <= S_MAX
    ensures 0.9 - 0.000000000001 < sch.Retrievability(s, s) <= 0.9
  {
    var p := sch.Retrievability(s, s);
    Ratio(s);
    assert p == sch.m.pow(FACTOR + 1.0, DECAY);
    NineInTen(p);
  }

  lemma Ratio(s: real)
    requires s > 0.0
    ensures FACTOR * s / s == FACTOR
  {
  }

  lemma NineInTen(p: real)
    requires p > 0.0 && p * p * (FACTOR + 1.0) == 1.0
    ensures 0.9 - 0.000000000001 < p <= 0.9
  {
    var low := 0.9 - 0.000000000001;
    var x, y, z := FACTOR + 1.0, 1.0 / (0.9 * 0.9), 1.0 / (low * low);
    assert y < x < z;
    SquareOrder(p, 0.9, x, y);
    SquareOrder(p, low, x, z);
  }

  /** So at a target of 0.9 the interval, before it is clamped, is the stability itself. */
  lemma IntervalAtDefault(sch: Scheduler, s: real)
    requires sch.Valid() && sch.retention == 0.9 && S_MIN <= s <= S_MAX
    ensures s * (1.0 - 0.000000000001) <= sch.RawInterval(s) <= s * (1.0 + 0.000000000001)
  {
    var k := (1.0 / (0.9 * 0.9) - 1.0) / FACTOR;
    assert 1.0 - 0.000000000001 <= k <= 1.0 + 0.000000000001;
    assert sch.RawInterval(s) == s * k;
    ScaleOrder(1.0 - 0.000000000001, k, s);
    ScaleOrder(k, 1.0 + 0.000000000001, s);
  }

  // ----------------------------------------------------------------------
  // After a lapse
  // ----------------------------------------------------------------------

  /** Stability after a lapse, before it is clamped. */
  ghost function Lapsed(sch: Scheduler, s: real, d: real, recall: real): real {
    W[11] * sch.m.pow(d, -W[12]) * (sch.m.pow(s + 1.0, W[13]) - 1.0) * sch.m.exp((1.0 - recall) * W[14])
  }

  lemma ProductOfFour(a: real, b: real, c: real, x: real, y: real, z: real)
    requires 0.0 <= a <= x && 0.0 <= b <= y && 0.0 <= c <= z
    ensures 0.0 <= W[11] * a * b * c <= W[11] * x * y * z
  {
    ScaleOrder(a, x, W[11]);
    ProductOrder(W[11] * a, W[11] * x, b, y);
    NonNegativeProduct(W[11], a);
    NonNegativeProduct(W[11] * a, b);
    ProductOrder(W[11] * a * b, W[11] * x * y, c, z);
    NonNegativeProduct(W[11] * a * b, c);
  }

  /** A lapse leaves more stability the more there was, the easier the card, and the less it
      was likely to be recalled. */
  lemma LapseMonotone(sch: Scheduler, s: real, d: real, recall: real, s': real, d': real, recall': real)
    requires sch.Valid() && S_MIN <= s <= s' && D_MIN <= d' <= d && recall' <= recall
    ensures sch.StabilityAfterFailure(s, d, recall) <= sch.StabilityAfterFailure(s', d', recall')
  {
    var m := sch.m;
    assert Based(1.0, s + 1.0, W[13]) && Based(s + 1.0, s' + 1.0, W[13]) && Based(d', d, -W[12]);
    ScaleOrder(1.0 - recall, 1.0 - recall', W[14]);
    ProductOfFour(m.pow(d, -W[12]), m.pow(s + 1.0, W[13]) - 1.0, m.exp((1.0 - recall) * W[14]),
                  m.pow(d', -W[12]), m.pow(s' + 1.0, W[13]) - 1.0, m.exp((1.0 - recall') * W[14]));
    ClampOrder(Lapsed(sch, s, d, recall), Lapsed(sch, s', d', recall'), S_MIN, S_MAX);
  }

  lemma ExpBelow(m: Math, x: real)
    requires Lawful(m) && x < 1.0
    ensures m.exp(x) * (1.0 - x) <= 1.0
  {
    assert Sum(x, -x) == 0.0;
    assert m.exp(-x) >= 1.0 - x;
    InverseBelow(m.exp(x), m.exp(-x), 1.0 - x);
  }

  lemma InverseBelow(y: real, z: real, c: real)
    requires y > 0.0 && y * z == 1.0 && c <= z
    ensures y * c <= 1.0
  {
    ScaleOrder(c, z, y);
  }

  lemma Doubled(m: Math, x: real, bound: real, square: real)
    requires Lawful(m) && m.exp(x) <= bound && bound * bound <= square
    ensures m.exp(2.0 * x) <= square
  {
    assert Sum(x, x) == 2.0 * x;
    ProductOrder(m.exp(x), bound, m.exp(x), bound);
  }

  /** A bound on the exponential factor of a lapse: the tenth of the exponent is below one,
      and the tenth power of its bound is below 6.06. */
  lemma ExpBound(m: Math)
    requires Lawful(m)
    ensures m.exp(W[14]) <= 6.06
  {
    ExpBelow(m, 0.16483);
    assert m.exp(0.16483) <= 1.19737;
    Doubled(m, 0.16483, 1.19737, 1.4337);
    Doubled(m, 0.32966, 1.4337, 2.0555);
    Doubled(m, 0.65932, 2.0555, 4.2251);
    EightAndTwo(m);
  }

  lemma EightAndTwo(m: Math)
    requires Lawful(m) && m.exp(1.31864) <= 4.2251 && m.exp(0.32966) <= 1.4337
    ensures m.exp(W[14]) <= 6.06
  {
    var a, b := m.exp(1.31864), m.exp(0.32966);
    assert Sum(1.31864, 0.32966) == W[14];
    assert m.exp(W[14]) == a * b;
    ProductOrder(a, 4.2251, b, 1.4337);
  }

  /** A lapse on a later day leaves at most 2.37 times the stability there was, unless that is
      below the least there can be. */
  lemma LapseBounded(sch: Scheduler, memory: Memory, elapsed: real)
    requires sch.Valid() && elapsed >= 0.5
    ensures sch.NewStability(memory, elapsed, Again) <= Max(S_MIN, 2.37 * Clamp(memory.stability, S_MIN, S_MAX))
  {
    var s, d := Clamp(memory.stability, S_MIN, S_MAX), Clamp(memory.difficulty, D_MIN, D_MAX);
    var recall := sch.Retrievability(s, elapsed);
    RecallFalls(sch, s, elapsed, elapsed);
    LapsedBounded(sch, s, d, recall);
  }

  lemma LapsedBounded(sch: Scheduler, s: real, d: real, recall: real)
    requires sch.Valid() && S_MIN <= s <= S_MAX && D_MIN <= d && 0.0 <= recall
    ensures Lapsed(sch, s, d, recall) <= 2.37 * s
  {
    var m := sch.m;
    assert Based(1.0, d, -W[12]) && Based(1.0, s + 1.0, W[13]);
    assert Tangent(s + 1.0, W[13]) == 1.0 + W[13] * s;
    ScaleOrder(1.0 - recall, 1.0, W[14]);
    ExpBound(m);
    assert m.exp((1.0 - recall) * W[14]) <= m.exp(W[14]);
    ProductOfFour(m.pow(d, -W[12]), m.pow(s + 1.0, W[13]) - 1.0, m.exp((1.0 - recall) * W[14]), 1.0, W[13] * s, 6.06);
    assert W[11] * 1.0 * (W[13] * s) * 6.06 == W[11] * W[13] * 6.06 * s;
    ScaleOrder(W[11] * W[13] * 6.06, 2.37, s);
  }

  /** A lapse on the day of the last review never raises stability. */
  lemma SameDayLapse(sch: Scheduler, memory: Memory, elapsed: real)
    requires sch.Valid() && elapsed < 0.5
    ensures sch.NewStability(memory, elapsed, Again) <= Clamp(memory.stability, S_MIN, S_MAX)
  {
    ShortAgain(sch, Clamp(memory.stability, S_MIN, S_MAX));
  }

  lemma ShortAgain(sch: Scheduler, s: real)
    requires sch.Valid() && S_MIN <= s <= S_MAX
    ensures sch.StabilityShortTerm(s, Again) <= s
  {
    var x := W[17] * (Value(Again) as real - 3.0 + W[18]);
    assert x <= 0.0;
    var y := sch.m.exp(x);
    assert y <= sch.m.exp(0.0);
    assert sch.StabilityShortTerm(s, Again) == Grown(s, y);
    GrownDown(s, y);
  }

  lemma GrownDown(s: real, y: real)
    requires S_MIN <= s <= S_MAX && y <= 1.0
    ensures Grown(s, y) <= s
  {
    ScaleOrder(y, 1.0, s);
  }

  // ----------------------------------------------------------------------
  // After a success
  // ----------------------------------------------------------------------

  /** The three factors of the growth of stability. */
  ghost function Ease(sch: Scheduler, s: real, d: real): real { sch.m.exp(W[8]) * (11.0 - d) * sch.m.pow(s, -W[9]) }

  ghost function Surprise(sch: Scheduler, recall: real): real { sch.m.exp((1.0 - recall) * W[10]) - 1.0 }

  ghost function Penalty(r: Rating): real { if r.Hard? then W[15] else 1.0 }

  lemma EaseOrder(sch: Scheduler, s: real, d: real, d': real)
    requires sch.Valid() && s > 0.0 && d' <= d <= D_MAX
    ensures 0.0 <= Ease(sch, s, d) <= Ease(sch, s, d')
  {
    var e, p := sch.m.exp(W[8]), sch.m.pow(s, -W[9]);
    NonNegativeProduct(e, 11.0 - d);
    ScaleOrder(11.0 - d, 11.0 - d', e);
    NonNegativeProduct(e * (11.0 - d), p);
    ScaleOrder(e * (11.0 - d), e * (11.0 - d'), p);
  }

  lemma SurpriseOrder(sch: Scheduler, recall: real, recall': real)
    requires sch.Valid() && recall' <= recall <= 1.0
    ensures 0.0 <= Surprise(sch, recall) <= Surprise(sch, recall')
  {
    NonNegativeProduct(1.0 - recall, W[10]);
    ScaleOrder(1.0 - recall, 1.0 - recall', W[10]);
    assert sch.m.exp(0.0) <= sch.m.exp((1.0 - recall) * W[10]) <= sch.m.exp((1.0 - recall') * W[10]);
  }

  lemma GrowthMonotone(sch: Scheduler, s: real, d: real, recall: real, d': real, recall': real, r: Rating)
    requires sch.Valid() && s > 0.0 && d' <= d <= D_MAX && recall' <= recall <= 1.0
    ensures 0.0 <= sch.Growth(s, d, recall, r) <= sch.Growth(s, d', recall', r)
  {
    var e, e', g, g' := GrowthParts(sch, s, d, recall, d', recall', r);
    ThreeFactors(e, e', g, g', Penalty(r));
  }

  lemma GrowthParts(sch: Scheduler, s: real, d: real, recall: real, d': real, recall': real, r: Rating)
    returns (e: real, e': real, g: real, g': real)
    requires sch.Valid() && s > 0.0 && d' <= d <= D_MAX && recall' <= recall <= 1.0
    ensures 0.0 <= e <= e' && 0.0 <= g <= g'
    ensures sch.Growth(s, d, recall, r) == e * g * Penalty(r) && sch.Growth(s, d', recall', r) == e' * g' * Penalty(r)
  {
    EaseOrder(sch, s, d, d');
    SurpriseOrder(sch, recall, recall');
    e, e', g, g' := Ease(sch, s, d), Ease(sch, s, d'), Surprise(sch, recall), Surprise(sch, recall');
    GrowthIs(sch, s, d, recall, r, e, g);
    GrowthIs(sch, s, d', recall', r, e', g');
  }

  lemma GrowthIs(sch: Scheduler, s: real, d: real, recall: real, r: Rating, e: real, g: real)
    requires e == Ease(sch, s, d) && g == Surprise(sch, recall)
    ensures sch.Growth(s, d, recall, r) == e * g * Penalty(r)
  {
  }

  lemma ThreeFactors(e: real, e': real, g: real, g': real, k: real)
    requires 0.0 <= e <= e' && 0.0 <= g <= g' && k >= 0.0
    ensures 0.0 <= e * g * k <= e' * g' * k
  {
    ProductOrder(e, e', g, g');
    NonNegativeProduct(e, g);
    ScaleOrder(e * g, e' * g', k);
    NonNegativeProduct(e * g, k);
  }

  /** A recall leaves more stability the easier the card and the less it was likely. */
  lemma SuccessMonotone(sch: Scheduler, s: real, d: real, recall: real, d': real, recall': real, r: Rating)
    requires sch.Valid() && S_MIN <= s <= S_MAX && d' <= d <= D_MAX && recall' <= recall <= 1.0
    ensures s <= sch.StabilityAfterSuccess(s, d, recall, r) <= sch.StabilityAfterSuccess(s, d', recall', r)
  {
    var bonus := if r.Easy? then W[16] else 1.0;
    GrowthMonotone(sch, s, d, recall, d', recall', r);
    ScaleOrder(sch.Growth(s, d, recall, r), sch.Growth(s, d', recall', r), bonus);
    NonNegativeProduct(sch.Growth(s, d, recall, r), bonus);
    GrownOrder(s, SuccessFactor(sch, s, d, recall, r), SuccessFactor(sch, s, d', recall', r));
  }

  lemma PositiveProduct(a: real, b: real)
    requires a > 0.0 && b > 0.0
    ensures a * b > 0.0
  {
  }

  lemma GrowthPositive(sch: Scheduler, s: real, d: real, recall: real, r: Rating)
    requires sch.Valid() && s > 0.0 && d <= D_MAX && recall < 1.0
    ensures sch.Growth(s, d, recall, r) > 0.0
  {
    EasePositive(sch, s, d);
    SurprisePositive(sch, recall);
    GrowthIs(sch, s, d, recall, r, Ease(sch, s, d), Surprise(sch, recall));
    ThreePositive(Ease(sch, s, d), Surprise(sch, recall), Penalty(r));
  }

  lemma ThreePositive(a: real, b: real, c: real)
    requires a > 0.0 && b > 0.0 && c > 0.0
    ensures a * b * c > 0.0
  {
    PositiveProduct(a, b);
    PositiveProduct(a * b, c);
  }

  lemma EasePositive(sch: Scheduler, s: real, d: real)
    requires sch.Valid() && s > 0.0 && d <= D_MAX
    ensures Ease(sch, s, d) > 0.0
  {
    ThreePositive(sch.m.exp(W[8]), 11.0 - d, sch.m.pow(s, -W[9]));
  }

  lemma SurprisePositive(sch: Scheduler, recall: real)
    requires sch.Valid() && recall < 1.0
    ensures Surprise(sch, recall) > 0.0
  {
    PositiveProduct(1.0 - recall, W[10]);
    var x := (1.0 - recall) * W[10];
    assert sch.m.exp(x) >= 1.0 + x;
  }

  /** Every recall on a later day makes the memory more stable, up to the most there can be. */
  lemma SuccessRaises(sch: Scheduler, memory: Memory, elapsed: real, r: Rating)
    requires sch.Valid() && elapsed >= 0.5 && !r.Again? && memory.stability < S_MAX
    ensures sch.NewStability(memory, elapsed, r) > Clamp(memory.stability, S_MIN, S_MAX)
  {
    var s, d := Clamp(memory.stability, S_MIN, S_MAX), Clamp(memory.difficulty, D_MIN, D_MAX);
    var recall := sch.Retrievability(s, elapsed);
    RecallFalls(sch, s, 0.0, elapsed);
    GrowthPositive(sch, s, d, recall, r);
    PositiveProduct(sch.Growth(s, d, recall, r), if r.Easy? then W[16] else 1.0);
    NewStabilityIsGrown(sch, memory, elapsed, r);
    GrownUp(s, SuccessFactor(sch, s, d, recall, r));
  }

  lemma GrownUp(s: real, factor: real)
    requires S_MIN <= s < S_MAX && factor > 1.0
    ensures Grown(s, factor) > s
  {
    StrictScale(1.0, factor, s);
  }

  // ----------------------------------------------------------------------
  // The first review
  // ----------------------------------------------------------------------

  /** Again, Hard, Good, Easy. */
  ghost predicate Worse(q: Rating, r: Rating) {
    || (q.Again? && !r.Again?) || (q.Hard? && (r.Good? || r.Easy?)) || (q.Good? && r.Easy?)
  }

  /** A better first rating starts with more stability and no more difficulty, and a card
      forgotten at first starts at the base difficulty. */
  lemma FirstReview(sch: Scheduler, q: Rating, r: Rating)
    requires sch.Valid() && Worse(q, r)
    ensures sch.InitStability(q) < sch.InitStability(r)
    ensures sch.InitDifficulty(r) <= sch.InitDifficulty(q) <= sch.InitDifficulty(Again) == 6.4133
  {
    assert W[5] * (Value(Again) as real - 1.0) == 0.0;
    ExpOfRating(sch, q, r);
    ExpOfRating(sch, Again, q);
  }

  /** The four stabilities a card can start with, in days, and about where a card rated hard
      at first starts in difficulty. */
  lemma FirstNumbers(sch: Scheduler)
    requires sch.Valid()
    ensures sch.InitStability(Again) == 0.212 && sch.InitStability(Hard) == 1.2931
    ensures sch.InitStability(Good) == 2.3065 && sch.InitStability(Easy) == 8.2956
    ensures 4.47 <= sch.InitDifficulty(Hard) <= 5.41
  {
    var y := sch.m.exp(0.4167);
    ExpBelow(sch.m, 0.4167);
    assert 1.4167 <= y <= 1.7144;
    assert Sum(0.4167, 0.4167) == 0.8334;
    assert sch.m.exp(0.8334) == y * y;
    ProductOrder(1.4167, y, 1.4167, y);
    ProductOrder(y, 1.7144, y, 1.7144);
    assert W[5] * (Value(Hard) as real - 1.0) == 0.8334;
  }

  lemma ExpOfRating(sch: Scheduler, q: Rating, r: Rating)
    requires sch.Valid() && Value(q) <= Value(r)
    ensures sch.m.exp(W[5] * (Value(q) as real - 1.0)) <= sch.m.exp(W[5] * (Value(r) as real - 1.0))
  {
    ScaleOrder(Value(q) as real - 1.0, Value(r) as real - 1.0, W[5]);
  }
}
