/** CheckTimeout of IA32FamilyCpuPkg/CpuMpDxe/MpService.c (lines 1114-1149): the ticks accumulated from readings
    of a wrapping counter. */
module Timeouts {
  import opened Arithmetic

  const TWO64: int := 0x1_0000_0000_0000_0000
  const TWO63: int := 0x8000_0000_0000_0000

  /** The value of a 64-bit word read as a signed number. */
  function ToInt64(x: int): int {
    var w := x % 0x1_0000_0000_0000_0000;
    if w < TWO63 then w else w - TWO64
  }

  /** The performance counter starts at start, counts up or down to end, and starts again. */
  datatype Counter = Counter(start: nat, end: nat)
  {
    ghost predicate Valid() { start < TWO64 && end < TWO64 && Range() < TWO63 }

    function Range(): nat { (if start > end then start - end else end - start) + 1 }

    /** The reading after t ticks. */
    function Reading(t: nat): int {
      if start > end then start - Lap(t, Range()) else start + Lap(t, Range())
    }
  }

  /** The ticks since the counter last started again. */
  function Lap(t: nat, range: nat): (r: nat)
    requires range > 0
    ensures r < range && r <= t
  {
    if t < range then t else Lap(t - range, range)
  }

  lemma {:induction false} LapIsRemainder(t: nat, range: nat)
    requires range > 0
    ensures Lap(t, range) == t % range
  {
    if t >= range {
      LapIsRemainder(t - range, range);
      var q := (t - range) / range;
      assert t - range == q * range + (t - range) % range;
      assert t == (q + 1) * range + (t - range) % range;
      ModUnique(t, q + 1, (t - range) % range, range);
    }
  }

  /** The difference of two readings, brought back into range, is the time between them, whole cycles apart. */
  lemma LapDifference(t0: nat, t1: nat, range: nat)
    requires range > 0 && t0 <= t1
    ensures var d := Lap(t1, range) - Lap(t0, range); (if d < 0 then d + range else d) == Lap(t1 - t0, range)
  {
    LapIsRemainder(t0, range);
    LapIsRemainder(t1, range);
    LapIsRemainder(t1 - t0, range);
    ModDifference(t0, t1, range);
  }

  // ---- polling ----

  /** An unsigned 64-bit sum. */
  function Wrap(x: nat): nat { Lap(x, TWO64) }

  lemma WrapSum(a: nat, b: nat)
    ensures Wrap(Wrap(a) + b) == Wrap(a + b)
  {
    LapIsRemainder(a, TWO64);
    LapIsRemainder(a + b, TWO64);
    LapIsRemainder(a % TWO64 + b, TWO64);
    ModSum(a, b, TWO64);
  }

  lemma SmallToInt64(x: int)
    requires -TWO63 <= x < TWO63
    ensures ToInt64(x) == x
  {
  }

  /** The tick of the poll before poll i. */
  function Previous(ticks: seq<nat>, t0: nat, i: nat): nat
    requires i <= |ticks|
  {
    if i == 0 then t0 else ticks[i - 1]
  }

  /** The two fields that CheckTimeout keeps up to date. */
  class Timer {
    const counter: Counter
    var previousTime: int
    var totalTime: nat

    /** CheckTimeout, when the counter shows the reading of tick t1 and was last read at tick t0. */
    method CheckTimeout(timeout: nat, currentTime: int, ghost t0: nat, ghost t1: nat) returns (expired: bool)
      requires counter.Valid() && totalTime < TWO64 && timeout < TWO64
      requires previousTime == counter.Reading(t0) && currentTime == counter.Reading(t1) && t0 <= t1
      modifies this
      ensures timeout == 0 ==> !expired && totalTime == old(totalTime) && previousTime == old(previousTime)
      ensures timeout > 0 ==>
        && previousTime == counter.Reading(t1)
        && totalTime == Wrap(old(totalTime) + Lap(t1 - t0, counter.Range()))
        && expired == (totalTime > timeout)
    {
      if timeout == 0 { return false; }
      LapDifference(t0, t1, counter.Range());
      SmallToInt64(counter.end - counter.start);
      SmallToInt64(currentTime - previousTime);
      var cycle := ToInt64(counter.end - counter.start);
      if cycle < 0 { cycle := -cycle; }
      cycle := cycle + 1;
      var delta := ToInt64(currentTime - previousTime);
      if counter.start > counter.end { delta := -delta; }
      if delta < 0 { delta := delta + cycle; }
      totalTime := Wrap(totalTime + delta);
      previousTime := currentTime;
      return totalTime > timeout;
    }

    /** One of a series of polls: the total is `total0` plus the time since tick t0, before and after. */
    method PollOnce(timeout: nat, tick: nat, ghost last: nat, ghost t0: nat, ghost total0: nat) returns (expired: bool)
      requires counter.Valid() && 0 < timeout < TWO64 && previousTime == counter.Reading(last)
      requires t0 <= last <= tick < last + counter.Range() && totalTime == Wrap(total0 + (last - t0))
      modifies this
      ensures previousTime == counter.Reading(tick) && totalTime == Wrap(total0 + (tick - t0))
      ensures expired == (Wrap(total0 + (tick - t0)) > timeout)
    {
      WrapSum(total0 + (last - t0), tick - last);
      ExactIffWithinCycle(counter, last, tick);
      expired := CheckTimeout(timeout, counter.Reading(tick), last, tick);
    }

    /** Polls less than one counter cycle apart add up to the true elapsed time, whatever the total was before
        (nothing resets it), until the 64-bit total overflows; and each poll reports exactly whether the total
        exceeds the timeout. */
    method PollAt(ticks: seq<nat>, timeout: nat, ghost t0: nat) returns (expired: seq<bool>)
      requires counter.Valid() && totalTime < TWO64 && 0 < timeout < TWO64 && previousTime == counter.Reading(t0)
      requires forall i :: 0 <= i < |ticks| ==>
        Previous(ticks, t0, i) <= ticks[i] < Previous(ticks, t0, i) + counter.Range()
      modifies this
      ensures |expired| == |ticks|
      ensures |ticks| > 0 ==> t0 <= ticks[|ticks| - 1] && totalTime == Wrap(old(totalTime) + (ticks[|ticks| - 1] - t0))
      ensures forall i :: 0 <= i < |ticks| ==>
        t0 <= ticks[i] && expired[i] == (Wrap(old(totalTime) + (ticks[i] - t0)) > timeout)
    {
      expired := [];
      ghost var last, total0 := t0, totalTime;
      for i := 0 to |ticks|
        invariant |expired| == i && last == Previous(ticks, t0, i) >= t0
        invariant previousTime == counter.Reading(last) && totalTime == Wrap(total0 + (last - t0))
        invariant forall j :: 0 <= j < i ==> t0 <= ticks[j] && expired[j] == (Wrap(total0 + (ticks[j] - t0)) > timeout)
      {
        var e := PollOnce(timeout, ticks[i], last, t0, total0);
        expired := expired + [e];
        last := ticks[i];
      }
    }
  }

  /** One poll adds the true elapsed ticks exactly when less than one counter cycle has passed. */
  lemma ExactIffWithinCycle(c: Counter, t0: nat, t1: nat)
    requires c.Valid() && t0 <= t1
    ensures Lap(t1 - t0, c.Range()) == t1 - t0 <==> t1 - t0 < c.Range()
  {
  }
}
