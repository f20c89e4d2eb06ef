/**
 * The repair of timestamps that do not increase, in sc_recorder_write_stream()
 * (app/src/recorder.c). Timestamps are int64_t values; overflow of `++last_pts` is not modelled.
 */
module PtsRepair {
  import opened Common

  // AV_NOPTS_VALUE: the least int64_t value. It also marks the configuration packets.
  const NOPTS: int := -0x8000_0000_0000_0000

  class RecorderStream {
    var lastPts: int

    constructor ()
      ensures lastPts == NOPTS
    {
      lastPts := NOPTS;
    }

    /** The timestamp to write for a packet whose rescaled timestamp is `pts`. */
    method NextPts(pts: int) returns (out: int)
      modifies this
      ensures out == lastPts == RepairStep(old(lastPts), pts)
    {
      if lastPts != NOPTS && pts <= lastPts {
        lastPts := lastPts + 1;
        out := lastPts;
      } else {
        lastPts := pts;
        out := pts;
      }
    }
  }

  function RepairStep(last: int, pts: int): int {
    if last != NOPTS && pts <= last then last + 1 else pts
  }

  /** The timestamps written for a whole stream. */
  function Repair(ins: seq<int>): (outs: seq<int>)
    ensures |outs| == |ins|
  {
    if ins == [] then []
    else
      var before := Repair(DropLast(ins));
      before + [RepairStep(if before == [] then NOPTS else Last(before), Last(ins))]
  }

  /** Writing the packets of a stream one after the other computes Repair. */
  method WriteAll(ins: seq<int>) returns (outs: seq<int>)
    ensures outs == Repair(ins)
  {
    var stream := new RecorderStream();
    outs := [];
    for i := 0 to |ins|
      invariant outs == Repair(ins[..i])
      invariant stream.lastPts == if i == 0 then NOPTS else Last(outs)
    {
      var out := stream.NextPts(ins[i]);
      assert DropLast(ins[..i + 1]) == ins[..i];
      outs := outs + [out];
    }
    assert ins[..|ins|] == ins;
  }

  ghost predicate StrictlyIncreasing(s: seq<int>) {
    forall i | 0 <= i && i + 1 < |s| :: s[i] < s[i + 1]
  }

  ghost predicate AtLeast(s: seq<int>, t: seq<int>) {
    |s| == |t| && forall i | 0 <= i < |s| :: s[i] >= t[i]
  }

  ghost predicate Int64s(s: seq<int>) {
    forall i | 0 <= i < |s| :: NOPTS <= s[i]
  }

  /** The sentinel is taken for "no timestamp yet" when the stream starts with it. */
  predicate StartsWithTwoSentinels(ins: seq<int>) {
    |ins| >= 2 && ins[0] == NOPTS && ins[1] == NOPTS
  }

  lemma {:induction false} RepairPrefix(ins: seq<int>, n: nat)
    requires n <= |ins|
    ensures Repair(ins)[..n] == Repair(ins[..n])
    decreases |ins| - n
  {
    if n < |ins| {
      RepairPrefix(ins, n + 1);
      assert DropLast(ins[..n + 1]) == ins[..n];
      assert Repair(ins)[..n] == Repair(ins)[..n + 1][..n];
    } else {
      assert ins[..n] == ins;
    }
  }

  /** The written value at place n, from the one before it. */
  lemma RepairAt(ins: seq<int>, n: nat)
    requires n < |ins|
    ensures Repair(ins)[n] == RepairStep(if n == 0 then NOPTS else Repair(ins)[n - 1], ins[n])
  {
    RepairPrefix(ins, n + 1);
    RepairPrefix(ins, n);
    assert DropLast(ins[..n + 1]) == ins[..n];
    assert Repair(ins)[n] == Repair(ins)[..n + 1][n];
    if n > 0 {
      assert Repair(ins)[n - 1] == Repair(ins)[..n][n - 1];
    }
  }

  lemma {:induction false} AboveSentinel(ins: seq<int>, n: nat)
    requires Int64s(ins) && !StartsWithTwoSentinels(ins) && 0 < n < |ins|
    ensures Repair(ins)[n] > NOPTS
    ensures Repair(ins)[n] > Repair(ins)[n - 1]
  {
    RepairAt(ins, n);
    RepairAt(ins, n - 1);
    if n > 1 {
      AboveSentinel(ins, n - 1);
    }
  }

  /** The written timestamps strictly increase exactly when the stream does not start with two sentinels. */
  lemma IncreasesIff(ins: seq<int>)
    requires Int64s(ins)
    ensures StrictlyIncreasing(Repair(ins)) <==> !StartsWithTwoSentinels(ins)
  {
    if StartsWithTwoSentinels(ins) {
      RepairAt(ins, 0);
      RepairAt(ins, 1);
      assert !(Repair(ins)[0] < Repair(ins)[0 + 1]);
    } else {
      forall i | 0 <= i && i + 1 < |ins|
        ensures Repair(ins)[i] < Repair(ins)[i + 1]
      {
        AboveSentinel(ins, i + 1);
      }
    }
  }

  /** out[n] = max over k <= n of in[k] + (n - k). */
  lemma {:induction false} IsMaximum(ins: seq<int>, n: nat) returns (k: nat)
    requires Int64s(ins) && !StartsWithTwoSentinels(ins) && n < |ins|
    ensures k <= n && Repair(ins)[n] == ins[k] + (n - k)
    ensures forall j | 0 <= j <= n :: Repair(ins)[n] >= ins[j] + (n - j)
  {
    RepairAt(ins, n);
    if n == 0 {
      k := 0;
    } else {
      k := IsMaximum(ins, n - 1);
      AboveSentinel(ins, n);
      if Repair(ins)[n - 1] == NOPTS {
        assert ins[n - 1] <= NOPTS;
      }
      if Repair(ins)[n] == ins[n] {
        k := n;
      }
      forall j | 0 <= j <= n
        ensures Repair(ins)[n] >= ins[j] + (n - j)
      {
        assert j < n ==> Repair(ins)[n - 1] >= ins[j] + (n - 1 - j);
      }
    }
  }

  lemma {:induction false} GrowsByOne(s: seq<int>, i: nat, j: nat)
    requires StrictlyIncreasing(s) && i <= j < |s|
    ensures s[j] >= s[i] + (j - i)
  {
    if i < j {
      GrowsByOne(s, i, j - 1);
      assert s[j - 1] < s[j - 1 + 1];
    }
  }

  /**
   * The repair is the pointwise least strictly increasing sequence that is nowhere
   * below its input.
   */
  lemma IsLeast(ins: seq<int>, other: seq<int>)
    requires Int64s(ins) && !StartsWithTwoSentinels(ins)
    ensures StrictlyIncreasing(Repair(ins)) && AtLeast(Repair(ins), ins)
    ensures StrictlyIncreasing(other) && AtLeast(other, ins) ==> AtLeast(other, Repair(ins))
  {
    IncreasesIff(ins);
    forall n | 0 <= n < |ins|
      ensures Repair(ins)[n] >= ins[n]
      ensures StrictlyIncreasing(other) && AtLeast(other, ins) ==> other[n] >= Repair(ins)[n]
    {
      var k := IsMaximum(ins, n);
      if StrictlyIncreasing(other) && AtLeast(other, ins) {
        GrowsByOne(other, k, n);
      }
    }
  }
}
