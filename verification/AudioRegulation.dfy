/**
 * The audio regulator (app/src/audio_regulator.c) as one thread executes it.
 * RegulatorConcurrency has the interleavings of its two threads.
 *
 * swr_convert() and swr_set_compensation() are foreign calls: their results are parameters.
 */
module AudioRegulation {
  import opened Common
  import opened Memory
  import opened AudioBuffer
  import RegulatorConcurrency

  const DISCONTINUITY_US := 100000
  const AVERAGE_RANGE := 128

  /** Silence samples written when a frame comes after a discontinuity. */
  function GapSilence(buffered: nat, capacity: nat, target: nat, inputSamples: nat): (n: nat)
    requires buffered <= capacity
    ensures buffered + n <= capacity
  {
    if U32(inputSamples + buffered) < target then Min(U32(target - buffered - inputSamples), capacity - buffered) else 0
  }

  lemma KeepLastOfSum<T>(old_: seq<T>, added: seq<T>, n: nat)
    ensures KeepLast(old_ + KeepLast(added, n), n) == KeepLast(old_ + added, n)
  {
  }

  /** Dropping what is missing and appending the rest keeps the last samples. */
  lemma DropThenAppend<T>(q: seq<T>, chunk: seq<T>, written: nat, cap: nat)
    requires written <= |chunk| <= cap && |q| + written <= cap
    requires written == |chunk| || |q| + written == cap
    ensures var remaining := |chunk| - written;
            remaining <= |q| + written
            && (q + chunk[..written])[remaining..] + chunk[written..] == KeepLast(q + chunk, cap)
  {
  }

  lemma FillTail<T>(front: seq<T>, rest: seq<T>, fill: seq<T>)
    requires |fill| == |rest|
    ensures Splice(front + rest, |front|, fill) == front + fill
  {
  }

  lemma ClippedChunk<T>(s: seq<T>, samples: nat, cap: nat)
    requires samples <= |s|
    ensures var off := if samples > cap then samples - cap else 0;
            s[off..off + Min(samples, cap)] == KeepLast(s[..samples], cap)
  {
  }

  /** sc_average_push(): the average of the last `count` values, approximately. */
  function Rolling(avg: real, count: nat, value: nat): (r: real)
    requires count > 0 && avg >= 0.0
    ensures r >= 0.0
  {
    assert (count - 1) as real * avg >= 0.0;
    ((count - 1) as real * avg + value as real) / count as real
  }

  /** The average once these values have been pushed. */
  function AverageOf(values: seq<nat>): (avg: real)
    ensures avg >= 0.0
  {
    if values == [] then 0.0
    else Rolling(AverageOf(DropLast(values)), Min(|values|, AVERAGE_RANGE), Last(values))
  }

  function Sum(values: seq<nat>): nat {
    if values == [] then 0 else Sum(DropLast(values)) + Last(values)
  }

  lemma RollingTimesCount(avg: real, count: nat, value: nat)
    requires count > 0 && avg >= 0.0
    ensures Rolling(avg, count, value) * count as real == (count - 1) as real * avg + value as real
  {
  }

  /** It is the exact mean as long as there are no more than 128 values. */
  lemma {:induction false} AverageIsMean(values: seq<nat>)
    requires |values| <= AVERAGE_RANGE
    ensures AverageOf(values) * |values| as real == Sum(values) as real
  {
    hide Rolling;
    if values != [] {
      AverageIsMean(DropLast(values));
      RollingTimesCount(AverageOf(DropLast(values)), |values|, Last(values));
    }
  }

  lemma MeanIsBetween(r: real, n: real, avg: real, v: real, lo: real, hi: real)
    requires n >= 0.0 && lo <= avg <= hi && lo <= v <= hi
    requires r * (n + 1.0) == n * avg + v
    ensures lo <= r <= hi
  {
    RealMulAtMost(lo, avg, n);
    RealMulAtMost(avg, hi, n);
    assert lo * (n + 1.0) == lo * n + lo;
    assert hi * (n + 1.0) == hi * n + hi;
    assert avg * n == n * avg;
    assert lo * (n + 1.0) <= r * (n + 1.0) <= hi * (n + 1.0);
    if r < lo {
      RealMulBelow(r, lo, n + 1.0);
      assert false;
    }
    if r > hi {
      RealMulBelow(hi, r, n + 1.0);
      assert false;
    }
  }

  lemma RollingIsBetween(avg: real, count: nat, value: nat, lo: nat, hi: nat)
    requires count > 0 && avg >= 0.0
    requires lo as real <= avg <= hi as real && lo <= value <= hi
    ensures lo as real <= Rolling(avg, count, value) <= hi as real
  {
    hide Rolling;
    RollingTimesCount(avg, count, value);
    MeanIsBetween(Rolling(avg, count, value), (count - 1) as real, avg, value as real, lo as real, hi as real);
  }

  /** Whatever their number, it stays between the least and the greatest value. */
  lemma {:induction false} AverageIsBetween(values: seq<nat>, lo: nat, hi: nat)
    requires values != [] && forall i | 0 <= i < |values| :: lo <= values[i] <= hi
    ensures lo as real <= AverageOf(values) <= hi as real
  {
    hide Rolling;
    if |values| == 1 {
      RollingTimesCount(0.0, 1, values[0]);
      assert AverageOf(DropLast(values)) == 0.0;
    } else {
      AverageIsBetween(DropLast(values), lo, hi);
      RollingIsBetween(AverageOf(DropLast(values)), Min(|values|, AVERAGE_RANGE), Last(values), lo, hi);
    }
  }

  /** The silence after a discontinuity brings the buffering to the target, as far as it fits. */
  lemma GapReachesTarget(buffered: nat, capacity: nat, target: nat, inputSamples: nat)
    requires buffered <= capacity && target < U32_MODULUS && inputSamples + buffered < U32_MODULUS
    ensures var after := buffered + GapSilence(buffered, capacity, target, inputSamples);
            after == Max(buffered, Min(target - inputSamples, capacity))
  {
  }

  /**
   * The number of samples to add, or to remove if negative, over four seconds. It never
   * moves the average away from the target, and is at most 2%.
   */
  function Correction(target: nat, avg: real, canRead: nat, rate: nat, active: bool): (d: int)
    ensures -(4 * rate / 50) <= d <= 4 * rate / 50
    ensures d > 0 ==> avg < target as real
    ensures d < 0 ==> avg > target as real && canRead >= target
  {
    var diff := Truncate(target as real - avg);
    var threshold := if active then rate / 1000 else U32(rate * 4) / 1000;
    var kept := if -threshold < diff < threshold || (diff < 0 && canRead < target) then 0 else diff;
    var absMaxDiff := 4 * rate / 50;
    Min(Max(kept, -absMaxDiff), absMaxDiff)
  }

  /**
   * Gaps under 1 ms while compensating, or under 4 ms otherwise, are ignored, and so is an excess on
   * average that the current buffering does not show. Any other gap is compensated, up to 2%.
   */
  lemma CorrectionIs(target: nat, avg: real, canRead: nat, rate: nat, active: bool)
    requires 4 * rate < U32_MODULUS
    ensures var gap, ignored := target as real - avg, ((if active then 1 else 4) * rate / 1000) as real;
            var most := 4 * rate / 50;
            var d := Correction(target, avg, canRead, rate, active);
            if -1.0 < gap < 1.0 || -ignored < gap < ignored || (gap <= -1.0 && canRead < target) then d == 0
            else if gap > 0.0 then if gap < most as real then d as real <= gap < d as real + 1.0 else d == most
            else if gap > -(most as real) then d as real - 1.0 < gap <= d as real else d == -most
  {
  }

  /** What is known of the buffering, and the compensation in progress. */
  datatype Estimation = Estimation(avg: real, count: nat, since: nat, active: bool, compensation: int)

  /** The estimation after a discontinuity. */
  function Reset(e: Estimation, target: nat): Estimation {
    e.(avg := target as real, since := 0, active := false, compensation := 0)
  }

  /**
   * The estimation after a push. change: what was added to the buffering at once, or removed from
   * it if negative; accepted: the resampler accepts a compensation.
   */
  function Estimate(e: Estimation, target: nat, rate: nat, canRead: nat, change: int, written: nat, accepted: bool): Estimation {
    var count := Min(e.count + 1, AVERAGE_RANGE);
    var avg := Rolling(NonNegative(e.avg + change as real), count, canRead);
    Resync(e.(avg := avg, count := count), target, rate, canRead, written, accepted)
  }

  /** The compensation is recomputed once per second of audio. */
  function Resync(e: Estimation, target: nat, rate: nat, canRead: nat, written: nat, accepted: bool): Estimation {
    if e.since + written < rate then e.(since := e.since + written)
    else if !accepted then e.(since := 0)
    else
      var diff := Correction(target, e.avg, canRead, rate, e.active);
      e.(since := 0, active := diff != 0, compensation := diff)
  }

  /** The same, for `samples` samples pushed after `before` ones in a buffer of capacity cap. */
  function EstimatePush(e: Estimation, target: nat, rate: nat, before: nat, samples: nat, cap: nat, limit: nat,
                        inputSamples: nat, underflow: nat, accepted: bool): Estimation
    requires before <= cap
  {
    var fitting, stored := Min(samples, cap), Min(before + samples, cap);
    var skipped := before + fitting - stored;
    var written := fitting - skipped;
    var dropped := skipped + stored - Min(stored, limit);
    Estimate(e, target, rate, stored, written - inputSamples + underflow - dropped, written, accepted)
  }

  /**
   * The average moves at once with the buffering, but for the samples played and for those skipped for
   * want of room, which are subtracted twice; then the buffering before the limit is averaged in.
   */
  lemma EstimationFollows(e: Estimation, target: nat, rate: nat, before: nat, samples: nat, cap: nat, limit: nat,
                          inputSamples: nat, underflow: nat, accepted: bool)
    requires before <= cap && e.avg >= 0.0
    ensures var stored := Min(before + samples, cap);
            var skipped := before + Min(samples, cap) - stored;
            var moved := e.avg + (Min(stored, limit) - before - inputSamples + underflow - skipped) as real;
            var r := EstimatePush(e, target, rate, before, samples, cap, limit, inputSamples, underflow, accepted);
            && r.count == Min(e.count + 1, AVERAGE_RANGE)
            && r.avg * r.count as real == (r.count - 1) as real * (if moved < 0.0 then 0.0 else moved) + stored as real
  {
    hide Estimate;
    var fitting, stored := Min(samples, cap), Min(before + samples, cap);
    var skipped := before + fitting - stored;
    var change := Min(stored, limit) - before - inputSamples + underflow - skipped;
    assert change == fitting - skipped - inputSamples + underflow - (skipped + stored - Min(stored, limit));
    EstimateAverages(e, target, rate, stored, change, fitting - skipped, accepted);
  }

  lemma EstimateAverages(e: Estimation, target: nat, rate: nat, canRead: nat, change: int, written: nat, accepted: bool)
    requires e.avg >= 0.0
    ensures var moved := e.avg + change as real;
            var r := Estimate(e, target, rate, canRead, change, written, accepted);
            && r.count == Min(e.count + 1, AVERAGE_RANGE)
            && r.avg * r.count as real == (r.count - 1) as real * (if moved < 0.0 then 0.0 else moved) + canRead as real
  {
    hide Rolling, Correction;
    RollingTimesCount(NonNegative(e.avg + change as real), Min(e.count + 1, AVERAGE_RANGE), canRead);
  }

  /** One push, as the estimation sees it. */
  datatype Observed = Observed(canRead: nat, change: int, written: nat, accepted: bool)

  function EstimateAll(e: Estimation, target: nat, rate: nat, pushes: seq<Observed>): Estimation {
    if pushes == [] then e
    else
      var p := Last(pushes);
      Estimate(EstimateAll(e, target, rate, DropLast(pushes)), target, rate, p.canRead, p.change, p.written, p.accepted)
  }

  function Written(pushes: seq<Observed>): nat {
    if pushes == [] then 0 else Written(DropLast(pushes)) + Last(pushes).written
  }

  /** The compensation stays until one second of audio has been written, by however many pushes. */
  lemma {:induction false} CompensationStays(e: Estimation, target: nat, rate: nat, pushes: seq<Observed>)
    requires e.since + Written(pushes) < rate
    ensures var r := EstimateAll(e, target, rate, pushes);
            r.since == e.since + Written(pushes) && r.active == e.active && r.compensation == e.compensation
  {
    hide Rolling, Correction;
    if pushes != [] {
      CompensationStays(e, target, rate, DropLast(pushes));
    }
  }

  /** The push that completes it starts a new second, with the correction of the average if the resampler accepts it. */
  lemma CompensationChanges(e: Estimation, target: nat, rate: nat, pushes: seq<Observed>)
    requires pushes != [] && e.since + Written(DropLast(pushes)) < rate <= e.since + Written(pushes)
    ensures var p, r := Last(pushes), EstimateAll(e, target, rate, pushes);
            && r.since == 0
            && r.compensation == (if p.accepted then Correction(target, r.avg, p.canRead, rate, e.active) else e.compensation)
            && r.active == (if p.accepted then r.compensation != 0 else e.active)
  {
    hide Rolling, Correction;
    CompensationStays(e, target, rate, DropLast(pushes));
  }

  /** After a discontinuity nothing is compensated for a second of audio, and the average starts from the target. */
  lemma ResetStaysQuiet(e: Estimation, target: nat, rate: nat, pushes: seq<Observed>)
    requires Written(pushes) < rate
    ensures Reset(e, target).avg == target as real && Reset(e, target).count == e.count
    ensures var r := EstimateAll(Reset(e, target), target, rate, pushes); !r.active && r.compensation == 0
  {
    CompensationStays(Reset(e, target), target, rate, pushes);
  }

  /**
   * left is what a push leaves of the samples stored: all of them up to a tenth of the target and 60 ms above the
   * target, or 10 ms before the playback starts, and exactly that many beyond; in any case no less than the target.
   */
  predicate LeavesMost(stored: seq<Sample>, left: seq<Sample>, target: nat, rate: nat, played: bool) {
    var most := target + (if played then target / 10 + 60 * rate / 1000 else 10 * rate / 1000);
    && (|stored| <= most ==> left == stored)
    && (|stored| > most ==> left == stored[|stored| - most..])
    && (|stored| >= target ==> |left| >= target)
  }

  lemma LimitLeaves(stored: seq<Sample>, target: nat, rate: nat, played: bool)
    requires RegulatorConcurrency.NoWrap(target, rate)
    ensures LeavesMost(stored, KeepLast(stored, RegulatorConcurrency.Limit(target, rate, played)), target, rate, played)
  {
    hide RegulatorConcurrency.Limit;
    RegulatorConcurrency.LimitIs(target, rate, played);
  }

  class AudioRegulator {
    var buf: AudioBuf
    var targetBuffering: nat
    var sampleRate: nat
    var played: bool
    var received: bool
    var underflow: nat
    var underflowReport: nat
    var avg: real
    var avgCount: nat
    var samplesSinceResync: nat
    var compensationActive: bool
    var nextExpectedPts: int
    var compensation: int    // the sample difference last accepted by swr_set_compensation()

    ghost predicate Valid()
      reads this, buf
    {
      && buf.Valid()
      && buf.Capacity() == targetBuffering + sampleRate
      && sampleRate > 0
      && avg >= 0.0
      && avgCount <= AVERAGE_RANGE
    }

    ghost function Estimated(): Estimation
      reads this
    {
      Estimation(avg, avgCount, samplesSinceResync, compensationActive, compensation)
    }

    /** The buffered samples, oldest first. */
    ghost function Buffered(): (s: seq<Sample>)
      requires Valid()
      reads this, buf, buf.data
    {
      buf.Contents()
    }

    /** A frame with this PTS comes more than 100 ms after the end of the previous one. */
    ghost predicate AfterGap(pts: int)
      reads this
    {
      nextExpectedPts != 0 && pts - nextExpectedPts > DISCONTINUITY_US
    }

    /** What is buffered once silence has been inserted for this frame. */
    ghost function Filled(pts: int, inputSamples: nat): seq<Sample>
      requires Valid()
      reads this, buf, buf.data
    {
      Buffered() + (if AfterGap(pts) then Silence(GapSilence(|Buffered()|, buf.Capacity(), targetBuffering, inputSamples)) else [])
    }

    constructor (target: nat, rate: nat)
      requires rate > 0 && target + rate < U32_MODULUS
      ensures !played && !received && Estimated() == Estimation(0.0, 0, 0, false, 0)
      ensures Valid() <==> target + rate < MAX_ALLOC
      ensures Valid() ==> Buffered() == []
    {
      buf := new AudioBuf(target + rate);
      targetBuffering, sampleRate := target, rate;
      played, received, compensationActive := false, false, false;
      underflow, underflowReport, avgCount, samplesSinceResync := 0, 0, 0, 0;
      avg := 0.0;
      nextExpectedPts, compensation := 0, 0;
    }

    /** Fills the whole of `out`: with buffered samples first, with silence after them. */
    method Pull(out: array<Sample>)
      requires Valid() && out.Length > 0 && out != buf.data
      modifies this`underflow, this`played, buf`tail, out
      ensures Valid()
      ensures if !old(played) && |old(Buffered())| < targetBuffering then
                && out[..] == Silence(out.Length)
                && Buffered() == old(Buffered())
                && !played && underflow == old(underflow)
              else
                var r := Min(out.Length, |old(Buffered())|);
                && out[..] == old(Buffered())[..r] + Silence(out.Length - r)
                && Buffered() == old(Buffered())[r..]
                && played
                && underflow == (if received && r < out.Length then U32(old(underflow) + out.Length - r) else old(underflow))
    {
      hide AudioBuf.Contents, Splice;
      ghost var was := out[..];
      ghost var queued := buf.Contents();
      if !played {
        var bufferedSamples := buf.CountReadable();
        if bufferedSamples < targetBuffering {
          FillTail([], was, Silence(out.Length));
          assert [] + was == was && [] + Silence(out.Length) == Silence(out.Length);
          FillSilence(out, 0, out.Length);
          return;
        }
      }
      var read := buf.Read(out, out.Length);
      if read < out.Length {
        var silence := out.Length - read;
        FillTail(queued[..read], was[read..], Silence(silence));
        FillSilence(out, read, silence);
        if received {
          underflow := U32(underflow + silence);
        }
      }
      played := true;
    }

    /** The start of a push: after a discontinuity, the buffering is completed with silence. */
    method HandleDiscontinuity(pts: int, inputSamples: nat)
      requires Valid()
      modifies this`avg, this`compensationActive, this`samplesSinceResync, this`underflow, this`nextExpectedPts,
               this`compensation, buf`head, buf.data
      ensures Valid()
      ensures nextExpectedPts == pts + inputSamples * 1000000 / sampleRate
      ensures buf.data == old(buf.data)
      ensures Buffered() == old(Filled(pts, inputSamples))
      ensures Estimated() == if old(AfterGap(pts)) then Reset(old(Estimated()), targetBuffering) else old(Estimated())
      ensures underflow == if old(AfterGap(pts)) then 0 else old(underflow)
      // A frame that is not more than 100 ms late inserts nothing.
      ensures old(nextExpectedPts) == 0 || pts <= old(nextExpectedPts) + 100000 ==>
                Buffered() == old(Buffered()) && Estimated() == old(Estimated()) && underflow == old(underflow)
      ensures old(nextExpectedPts) != 0 && pts > old(nextExpectedPts) + 100000 ==> avg == targetBuffering as real && underflow == 0
    {
      hide AudioBuf.Contents, AudioBuf.Capacity, GapSilence, Silence;
      assert Buffered() + [] == Buffered();
      if nextExpectedPts != 0 && pts - nextExpectedPts > DISCONTINUITY_US {
        FillGap(inputSamples);
        ResetEstimation();
        underflow := 0;
      }
      nextExpectedPts := pts + inputSamples * 1000000 / sampleRate;
    }

    method FillGap(inputSamples: nat)
      requires Valid()
      modifies buf`head, buf.data
      ensures Valid() && buf.data == old(buf.data)
      ensures Buffered() == old(Buffered())
                + Silence(GapSilence(|old(Buffered())|, buf.Capacity(), targetBuffering, inputSamples))
    {
      hide AudioBuf.Contents;
      var canRead := buf.CountReadable();
      if U32(inputSamples + canRead) < targetBuffering {
        var silence := U32(targetBuffering - canRead - inputSamples);
        var _ := buf.WriteSilence(silence);
      } else {
        assert Buffered() == Buffered() + Silence(0);
      }
    }

    method ResetEstimation()
      modifies `avg, `samplesSinceResync, `compensationActive, `compensation
      ensures Estimated() == Reset(old(Estimated()), targetBuffering)
    {
      avg := targetBuffering as real;
      samplesSinceResync, compensationActive, compensation := 0, false, 0;
    }

    /** Writes a chunk that fits in the empty buffer, dropping the oldest samples to make room. */
    method Store(swrBuf: array<Sample>, off: nat, samples: nat) returns (written: nat, skippedSamples: nat)
      requires Valid() && swrBuf != buf.data && off + samples <= swrBuf.Length && samples <= buf.Capacity()
      modifies buf`head, buf`tail, buf.data
      ensures Valid() && buf.data == old(buf.data)
      ensures Buffered() == KeepLast(old(Buffered()) + swrBuf[..][off..off + samples], buf.Capacity())
      ensures skippedSamples == |old(Buffered())| + samples - |Buffered()|
      ensures written == samples - skippedSamples
    {
      hide AudioBuf.Contents, KeepLast;
      ghost var source := swrBuf[..];
      ghost var before := buf.Contents();
      skippedSamples := 0;
      written := buf.Write(swrBuf, off, samples);
      SliceOfSlice(source, off, samples, written);
      DropThenAppend(before, source[off..off + samples], written, buf.Capacity());
      if written < samples {
        var more;
        more, skippedSamples := StoreLocked(swrBuf, off + written, samples - written);
        written := written + more;
      }
    }

    /** The same when the buffer is full: the lock is taken to drop the oldest samples. */
    method StoreLocked(swrBuf: array<Sample>, off: nat, remaining: nat) returns (more: nat, skippedSamples: nat)
      requires Valid() && swrBuf != buf.data && off + remaining <= swrBuf.Length
      requires 0 < remaining <= |Buffered()| == buf.Capacity()
      modifies buf`head, buf`tail, buf.data
      ensures Valid() && buf.data == old(buf.data)
      ensures Buffered() == old(Buffered())[remaining..] + swrBuf[..][off..off + remaining]
      ensures more == 0 && skippedSamples == remaining
    {
      hide AudioBuf.Contents;
      // Retry with the lock: no room appeared, since nobody else runs here.
      more := buf.Write(swrBuf, off, remaining);
      assert more == 0 && Buffered() == old(Buffered());
      skippedSamples := buf.Read(null, remaining);
      assert skippedSamples == remaining;
      var w := buf.Write(swrBuf, off + more, remaining);
      assert w == remaining;
    }

    /** Drops the oldest samples beyond max_buffered_samples. */
    method DropExcess(maxBuffered: nat) returns (canRead: nat, skipSamples: nat)
      requires Valid()
      modifies buf`tail
      ensures Valid()
      ensures canRead == |old(Buffered())|
      ensures Buffered() == KeepLast(old(Buffered()), maxBuffered)
      ensures skipSamples == canRead - |Buffered()|
    {
      hide AudioBuf.Contents;
      skipSamples := 0;
      canRead := buf.CountReadable();
      if canRead > maxBuffered {
        skipSamples := canRead - maxBuffered;
        var r := buf.Read(null, skipSamples);
        assert r == skipSamples;
      }
    }

    /**
     * The estimation of the buffering and, once per second of audio, of the number of
     * samples to add or remove over the next four seconds.
     */
    method Compensate(canRead: nat, instantCompensation: int, insertedSilence: nat, dropped: nat, written: nat, accepted: bool)
      requires Valid()
      modifies `avg, `avgCount, `samplesSinceResync, `compensationActive, `compensation, `underflowReport
      ensures Valid()
      ensures Estimated() == Estimate(old(Estimated()), targetBuffering, sampleRate, canRead,
                                      instantCompensation + insertedSilence - dropped, written, accepted)
    {
      hide Correction, Rolling, AudioBuf.Contents, AudioBuf.Valid, AudioBuf.Capacity;
      PushAverage(canRead, instantCompensation + insertedSilence - dropped);
      Resynchronize(canRead, written, accepted);
    }

    /** The part of the change that applies instantly, then the smoothed one. */
    method PushAverage(canRead: nat, change: int)
      requires avg >= 0.0 && avgCount <= AVERAGE_RANGE
      modifies `avg, `avgCount
      ensures avg >= 0.0 && avgCount == Min(old(avgCount) + 1, AVERAGE_RANGE)
      ensures avg == Rolling(NonNegative(old(avg) + change as real), avgCount, canRead)
    {
      hide Rolling;
      avg := avg + change as real;
      if avg < 0.0 {
        avg := 0.0; // the buffering cannot be negative
      }
      if avgCount < AVERAGE_RANGE {
        avgCount := avgCount + 1;
      }
      avg := Rolling(avg, avgCount, canRead);
    }

    /** Once per second of audio, the compensation is computed again. */
    method Resynchronize(canRead: nat, written: nat, accepted: bool)
      modifies `samplesSinceResync, `compensationActive, `compensation, `underflowReport
      ensures Estimated() == Resync(old(Estimated()), targetBuffering, sampleRate, canRead, written, accepted)
    {
      hide Correction;
      samplesSinceResync := samplesSinceResync + written;
      if samplesSinceResync >= sampleRate {
        samplesSinceResync := 0;
        var diff := Correction(targetBuffering, avg, canRead, sampleRate, compensationActive);
        underflowReport := 0;
        if accepted {
          compensation := diff;
          compensationActive := diff != 0;
        }
      }
    }

    /** Only the end of a chunk that exceeds the capacity is stored. */
    method StoreResampled(swrBuf: array<Sample>, samples: nat) returns (written: nat, skippedSamples: nat)
      requires Valid() && swrBuf != buf.data && samples <= swrBuf.Length
      modifies buf`head, buf`tail, buf.data
      ensures Valid() && buf.data == old(buf.data)
      ensures Buffered() == KeepLast(old(Buffered()) + swrBuf[..][..samples], buf.Capacity())
      ensures skippedSamples == |old(Buffered())| + Min(samples, buf.Capacity()) - |Buffered()|
      ensures written == Min(samples, buf.Capacity()) - skippedSamples
    {
      hide AudioBuf.Contents, KeepLast;
      var off := 0;
      var count := samples;
      var cap := buf.allocSize - 1;
      if samples > cap {
        off := samples - cap;
        count := cap;
      }
      ClippedChunk(swrBuf[..], samples, cap);
      KeepLastOfSum(Buffered(), swrBuf[..][..samples], cap);
      written, skippedSamples := Store(swrBuf, off, count);
    }

    /** The silence that the player inserted since the last push, once it plays. */
    method TakeUnderflow() returns (silence: nat)
      modifies `underflow, `underflowReport
      ensures silence == (if played then old(underflow) else 0)
      ensures underflow == (if played then 0 else old(underflow))
    {
      silence := 0;
      if played {
        silence := underflow;
        underflow := 0;
        underflowReport := underflowReport + silence;
      }
    }

    /** The part of a push that follows a successful resampling. */
    method Ingest(swrBuf: array<Sample>, samples: nat, inputSamples: nat, accepted: bool)
      requires Valid() && swrBuf != buf.data && samples <= swrBuf.Length
      modifies `avg, `avgCount, `samplesSinceResync, `compensationActive, `compensation, `underflow, `underflowReport,
               `received, buf`head, buf`tail, buf.data
      ensures Valid() && buf.data == old(buf.data) && received
      ensures Buffered() == KeepLast(KeepLast(old(Buffered()) + swrBuf[..][..samples], buf.Capacity()),
                                     RegulatorConcurrency.Limit(targetBuffering, sampleRate, played))
      ensures Estimated() == if played then
                               EstimatePush(old(Estimated()), targetBuffering, sampleRate, |old(Buffered())|, samples,
                                            buf.Capacity(), RegulatorConcurrency.Limit(targetBuffering, sampleRate, played),
                                            inputSamples, old(underflow), accepted)
                             else old(Estimated())
      ensures underflow == if played then 0 else old(underflow)
    {
      hide AudioBuf.Contents, RegulatorConcurrency.Limit, KeepLast, Estimate;
      var written, skippedSamples := StoreResampled(swrBuf, samples);
      var silence := TakeUnderflow();
      var canRead, skipSamples := DropExcess(RegulatorConcurrency.Limit(targetBuffering, sampleRate, played));
      received := true;
      if played {
        Compensate(canRead, written - inputSamples, silence, skippedSamples + skipSamples, written, accepted);
      }
    }

    /**
     * sc_audio_regulator_push(). The resampled frame is the first `samples` samples of
     * swrBuf, or swrBuf is null when the resampling failed.
     */
    method Push(pts: int, inputSamples: nat, swrBuf: array?<Sample>, samples: nat, accepted: bool) returns (ok: bool)
      requires Valid() && pts >= 0
      requires swrBuf != null ==> swrBuf != buf.data && samples <= swrBuf.Length
      modifies this, buf`head, buf`tail, buf.data
      ensures Valid() && buf == old(buf) && buf.data == old(buf.data)
      ensures targetBuffering == old(targetBuffering) && sampleRate == old(sampleRate) && played == old(played)
      ensures ok <==> swrBuf != null
      ensures var limit := RegulatorConcurrency.Limit(targetBuffering, sampleRate, played);
              var filled := old(Filled(pts, inputSamples));
              Buffered() == if ok then KeepLast(KeepLast(filled + swrBuf[..][..samples], buf.Capacity()), limit) else filled
      ensures ok && RegulatorConcurrency.NoWrap(targetBuffering, sampleRate) ==>
                LeavesMost(KeepLast(old(Filled(pts, inputSamples)) + swrBuf[..][..samples], buf.Capacity()), Buffered(),
                           targetBuffering, sampleRate, played)
      ensures ok ==> received
      ensures nextExpectedPts == pts + inputSamples * 1000000 / sampleRate
      ensures underflow == if (ok && played) || old(AfterGap(pts)) then 0 else old(underflow)
      ensures var start := if old(AfterGap(pts)) then Reset(old(Estimated()), targetBuffering) else old(Estimated());
              Estimated() ==
                if ok && played then
                  EstimatePush(start, targetBuffering, sampleRate, |old(Filled(pts, inputSamples))|, samples, buf.Capacity(),
                               RegulatorConcurrency.Limit(targetBuffering, sampleRate, played),
                               inputSamples, if old(AfterGap(pts)) then 0 else old(underflow), accepted)
                else start
    {
      hide AudioBuf.Contents, AudioRegulator.Filled, RegulatorConcurrency.Limit, RegulatorConcurrency.NoWrap, LeavesMost,
           KeepLast, EstimatePush;
      HandleDiscontinuity(pts, inputSamples);
      ghost var filled := Buffered();
      if swrBuf == null {
        return false;
      }
      ghost var stored := KeepLast(filled + swrBuf[..][..samples], buf.Capacity());
      Ingest(swrBuf, samples, inputSamples, accepted);
      if RegulatorConcurrency.NoWrap(targetBuffering, sampleRate) {
        LimitLeaves(stored, targetBuffering, sampleRate, played);
      }
      ok := true;
    }
  }
}
