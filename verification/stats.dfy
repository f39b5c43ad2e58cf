/**
 * The `CountUp` counter of the statistics strip (components/Stats.tsx). Once
 * visible it adds `end / (duration / 16)` to an accumulator every 16 ms tick
 * and shows the floor of the accumulator, until the accumulator reaches `end`.
 * Arithmetic is exact (`real`), not IEEE.
 */
module Stats {

  /** `ceil(duration / 16)` for a positive `duration`. */
  function TickBound(duration: int): int
    requires duration > 0
  {
    (duration + 15) / 16
  }

  /** `increment` of the component: what one tick adds to the accumulator. */
  function Increment(end: nat, duration: int): (inc: real)
    requires duration > 0
    ensures inc >= 0.0 && inc * duration as real == 16.0 * end as real
  {
    end as real / (duration as real / 16.0)
  }

  /** The accumulator `start` after `k` ticks, in exact arithmetic. */
  function Accumulated(end: nat, duration: int, k: nat): real
    requires duration > 0
  {
    k as real * Increment(end, duration)
  }

  /** The accumulator grows by one increment per tick, never decreases, and has reached a positive `end` exactly when `16 k >= duration`. */
  lemma {:induction false} AccumulatedFacts(end: nat, duration: int, k: nat)
    requires duration > 0
    ensures Accumulated(end, duration, k + 1) == Accumulated(end, duration, k) + Increment(end, duration)
    ensures 0.0 <= Accumulated(end, duration, k) <= Accumulated(end, duration, k + 1)
    ensures end == 0 ==> Accumulated(end, duration, k) == 0.0
    ensures end > 0 ==> (Accumulated(end, duration, k) >= end as real <==> 16 * k >= duration)
  {
    var inc := Increment(end, duration);
    assert inc == 16.0 * end as real / duration as real;
    assert inc >= 0.0;
    assert Accumulated(end, duration, k) == (16 * k) as real * end as real / duration as real;
    if end > 0 {
      if 16 * k >= duration {
        assert (16 * k) as real >= duration as real;
        assert (16 * k) as real * end as real >= duration as real * end as real;
      } else {
        assert (16 * k) as real < duration as real;
        assert (16 * k) as real * end as real < duration as real * end as real;
      }
    }
  }

  lemma TickBoundIsCeiling(duration: int, k: nat)
    requires duration > 0
    ensures 16 * k >= duration <==> k >= TickBound(duration)
  {
  }

  /**
   * The values `setCount` receives, one per tick, for a counter of `end` over
   * `duration` ms; nothing ticks while the element is not visible (`count` stays 0).
   */
  method CountUp(end: nat, duration: int, visible: bool) returns (counts: seq<int>)
    requires duration > 0
    ensures !visible ==> counts == []
    ensures visible ==> |counts| == if end == 0 then 1 else TickBound(duration)
    ensures visible ==> counts[|counts| - 1] == end
    ensures forall i | 0 <= i < |counts| :: 0 <= counts[i] <= end
    ensures forall i | 0 <= i < |counts| - 1 :: counts[i] < end
    ensures forall i, j | 0 <= i <= j < |counts| :: counts[i] <= counts[j]
    ensures forall i | 0 <= i < |counts| - 1 :: counts[i] == Accumulated(end, duration, i + 1).Floor
  {
    counts := [];
    if !visible {
      return;
    }
    var expected := if end == 0 then 1 else TickBound(duration);
    var start: real := 0.0;
    var increment: real := end as real / (duration as real / 16.0);
    var done := false;
    while !done
      invariant start == Accumulated(end, duration, |counts|)
      invariant |counts| <= expected
      invariant done ==> |counts| == expected && counts[|counts| - 1] == end
      invariant !done ==> |counts| < expected
      invariant !done && |counts| > 0 ==> counts[|counts| - 1] == start.Floor && start < end as real
      invariant forall i | 0 <= i < |counts| :: 0 <= counts[i] <= end
      invariant forall i | 0 <= i < |counts| - 1 :: counts[i] < end
      invariant forall i, j | 0 <= i <= j < |counts| :: counts[i] <= counts[j]
      invariant forall i | 0 <= i < |counts| && (i < |counts| - 1 || !done) :: counts[i] == Accumulated(end, duration, i + 1).Floor
      decreases expected - |counts|
    {
      AccumulatedFacts(end, duration, |counts|);
      AccumulatedFacts(end, duration, |counts| + 1);
      TickBoundIsCeiling(duration, |counts| + 1);
      start := start + increment;
      if start >= end as real {
        counts := counts + [end];
        done := true;
      } else {
        counts := counts + [start.Floor];
      }
    }
  }
}
