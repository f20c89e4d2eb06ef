/** The estimation of the offset between stream time and system time (app/src/clock.c). */
module Clock {
  import opened Common

  const RANGE := 32

  datatype State = State(range: nat, offset: int)

  /** The weighted average of the previous estimation and of an observed offset. */
  function Update(s: State, observed: int): (r: State)
    requires s.range <= RANGE
    ensures r.range == Min(s.range + 1, RANGE)
  {
    var range := if s.range < RANGE then s.range + 1 else s.range;
    State(range, TruncDiv(s.offset * (range - 1) + observed * (RANGE - range + 1), RANGE))
  }

  function Run(observed: seq<int>): (s: State)
    ensures s.range == Min(|observed|, RANGE)
  {
    if observed == [] then State(0, 0) else Update(Run(DropLast(observed)), Last(observed))
  }

  class ClockEstimator {
    var range: nat
    var offset: int
    ghost var observed: seq<int>    // history: the offsets observed

    ghost function View(): State
      reads this
    {
      State(range, offset)
    }

    ghost predicate Valid()
      reads this
    {
      View() == Run(observed)
    }

    constructor ()
      ensures Valid() && observed == []
    {
      range, offset, observed := 0, 0, [];
    }

    method UpdateClock(system: int, stream: int)
      requires Valid()
      modifies this
      ensures View() == Update(old(View()), system - stream)
      ensures Valid() && observed == old(observed) + [system - stream]
    {
      ghost var before := View();
      assert DropLast(observed + [system - stream]) == observed;
      if range < RANGE {
        range := range + 1;
      }
      var value := system - stream;
      var clockWeight := range - 1;
      var valueWeight := RANGE - range + 1;
      offset := TruncDiv(offset * clockWeight + value * valueWeight, RANGE);
      observed := observed + [value];
    }

    /**
     * An estimation needs at least one update. The system time is that of the stream, later by what
     * lies between the offsets observed, and by exactly their value if they are all the same.
     */
    method ToSystemTime(stream: int) returns (system: int)
      requires Valid() && range > 0
      ensures Within(system - stream, observed)
      ensures forall d | AllAre(observed, d) :: system == stream + d
      ensures system == stream + offset
    {
      system := stream + offset;
      StaysWithinObserved(observed);
    }
  }

  ghost predicate AllAre(s: seq<int>, d: int) {
    forall i | 0 <= i < |s| :: s[i] == d
  }

  ghost predicate Within(x: int, s: seq<int>) {
    && (exists i | 0 <= i < |s| :: s[i] <= x)
    && (exists i | 0 <= i < |s| :: x <= s[i])
  }

  lemma SplitWeight(a: int, w: nat)
    requires w <= RANGE
    ensures a * w + a * (RANGE - w) == a * RANGE
  {
  }

  lemma TruncationIsBetween(total: int, lo: int, hi: int)
    requires lo * RANGE <= total <= hi * RANGE
    ensures lo <= TruncDiv(total, RANGE) <= hi
  {
  }

  lemma AverageIsBetween(a: int, b: int, w: nat, lo: int, hi: int)
    requires w <= RANGE && lo <= a <= hi && lo <= b <= hi
    ensures lo <= TruncDiv(a * w + b * (RANGE - w), RANGE) <= hi
  {
    hide TruncDiv;
    MulMonotone(lo, a, w);
    MulMonotone(a, hi, w);
    MulMonotone(lo, b, RANGE - w);
    MulMonotone(b, hi, RANGE - w);
    SplitWeight(lo, w);
    SplitWeight(hi, w);
    TruncationIsBetween(a * w + b * (RANGE - w), lo, hi);
  }

  /**
   * Despite the truncation, the estimation stays between the least and the greatest
   * offset observed so far.
   */
  lemma {:induction false} StaysWithinObserved(observed: seq<int>)
    requires observed != []
    ensures Within(Run(observed).offset, observed)
  {
    var before, o := DropLast(observed), Last(observed);
    var s, r := Run(before), Run(observed);
    var n := |observed|;
    if before == [] {
      assert r.offset == o;
      assert observed[n - 1] == o;
    } else {
      StaysWithinObserved(before);
      var i :| 0 <= i < |before| && before[i] <= s.offset;
      var j :| 0 <= j < |before| && s.offset <= before[j];
      assert observed[i] == before[i] && observed[j] == before[j];
      AverageIsBetween(s.offset, o, r.range - 1, Min(s.offset, o), Max(s.offset, o));
      assert observed[n - 1] == o;
    }
  }

  function Abs(x: int): nat {
    if x < 0 then -x else x
  }

  /** The truncated quotient of a sum whose weighted error is `x`. */
  lemma TruncatedError(true_: int, e: int, x: int)
    requires e >= 0 ==> 0 <= x <= e * (RANGE - 1)
    requires e <= 0 ==> e * (RANGE - 1) <= x <= 0
    ensures var e' := TruncDiv(true_ * RANGE + x, RANGE) - true_;
            && (e >= 0 ==> 0 <= e' <= e)
            && (e <= 0 ==> e <= e' <= 0)
            && (Abs(e) >= RANGE ==> Abs(e') < Abs(e))
  {
  }

  /** Where an update leaves the error, when the observed offset is the true one. */
  lemma ErrorAfter(s: State, true_: int)
    requires s.range <= RANGE
    ensures var e, e' := s.offset - true_, Update(s, true_).offset - true_;
            && (e >= 0 ==> 0 <= e' <= e)
            && (e <= 0 ==> e <= e' <= 0)
            && (Abs(e) >= RANGE ==> Abs(e') < Abs(e))
  {
    hide TruncDiv;
    var w := Min(s.range + 1, RANGE) - 1;
    var e := s.offset - true_;
    WeightedError(s.offset, true_, w);
    if e >= 0 {
      MulMonotone(0, e, w);
      MulMonotoneWeight(e, w);
    } else {
      MulMonotone(e, 0, w);
      MulMonotoneWeight(-e, w);
    }
    TruncatedError(true_, e, e * w);
  }

  lemma WeightedError(offset: int, true_: int, w: nat)
    requires w <= RANGE
    ensures offset * w + true_ * (RANGE - w) == true_ * RANGE + (offset - true_) * w
  {
  }

  lemma MulMonotoneWeight(e: nat, w: nat)
    requires w <= RANGE - 1
    ensures e * w <= e * (RANGE - 1)
    ensures (0 - e) * w == -(e * w)
  {
  }

  /** The weight of an observation is 32/32 for the first one, 31/32 for the second, down to 1/32 from the 32nd on. */
  lemma UpdateMoves(s: State, observed: int)
    requires s.range <= RANGE
    ensures var weight := Max(RANGE - s.range, 1);
            var moved := Update(s, observed).offset - s.offset;
            -RANGE < RANGE * moved - weight * (observed - s.offset) < RANGE
  {
    hide TruncDiv;
    var n := Min(s.range + 1, RANGE);
    var total := s.offset * (n - 1) + observed * (RANGE - n + 1);
    WeightedDifference(s.offset, observed, RANGE - n + 1);
    TruncatedQuotient(total);
  }

  lemma WeightedDifference(a: int, b: int, w: nat)
    requires w <= RANGE
    ensures a * (RANGE - w) + b * w == RANGE * a + w * (b - a)
  {
  }

  lemma TruncatedQuotient(total: int)
    ensures -RANGE < RANGE * TruncDiv(total, RANGE) - total < RANGE
  {
  }

  /** Once 32 offsets have been observed, another one moves the estimation by a 32nd of its distance at most. */
  lemma {:induction false} OutliersAreDamped(observed: seq<int>, outlier: int)
    requires |observed| >= RANGE
    ensures var before, after := Run(observed).offset, Run(observed + [outlier]).offset;
            RANGE * Abs(after - before) < Abs(outlier - before) + RANGE
  {
    hide Update;
    assert DropLast(observed + [outlier]) == observed;
    UpdateMoves(Run(observed), outlier);
  }

  function Repeat(s: State, true_: int, k: nat): (r: State)
    requires s.range <= RANGE
    ensures r.range <= RANGE
  {
    if k == 0 then s else Update(Repeat(s, true_, k - 1), true_)
  }

  /**
   * Under a constant true offset, from any state: the error never changes sign nor grows,
   * and it is below 32 after as many updates as its initial magnitude, at the latest.
   */
  lemma {:induction false} ErrorShrinks(s: State, true_: int, k: nat)
    requires s.range <= RANGE
    ensures var e, e' := s.offset - true_, Repeat(s, true_, k).offset - true_;
            && (e >= 0 ==> 0 <= e' <= e)
            && (e <= 0 ==> e <= e' <= 0)
            && Abs(e') <= Max(RANGE - 1, Abs(e) - k)
  {
    if k > 0 {
      ErrorShrinks(s, true_, k - 1);
      ErrorAfter(Repeat(s, true_, k - 1), true_);
    }
  }

  /** A fresh clock is exact from its first update on, as long as the true offset is constant. */
  lemma {:induction false} ConstantOffsetIsExact(observed: seq<int>, true_: int)
    requires observed != [] && AllAre(observed, true_)
    ensures Run(observed).offset == true_
  {
    if |observed| > 1 {
      ConstantOffsetIsExact(DropLast(observed), true_);
      ErrorAfter(Run(DropLast(observed)), true_);
    }
  }
}
