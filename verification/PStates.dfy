/** The P-state table of IA32FamilyCpuPkg/CpuMpDxe/Eist.c (lines 339-459; Sandy Bridge, Ivy Bridge, Haswell). */
module PStates {
  import opened Arithmetic

  const TWO64: nat := 0x1_0000_0000_0000_0000

  /** FVID_ENTRY */
  datatype Fvid = Fvid(ratio: nat, vid: nat, transitionLatency: nat, busMasterLatency: nat, power: nat)

  function Turbo(on: bool): nat { if on then 1 else 0 }

  function NumberOfPStates(range: nat, step: nat, turbo: bool): nat
    requires step > 0
  {
    range / step + 1 + Turbo(turbo)
  }

  // ---- power, in fixed point ----

  /** A 64-bit word. */
  function Wrap(x: int): (r: nat)
    ensures r < 0x1_0000_0000_0000_0000 && (x - r) % 0x1_0000_0000_0000_0000 == 0
  {
    if 0 <= x < TWO64 then x else x % TWO64
  }

  /** Line 447: it wraps when the ratio is too far below P1. */
  function Slope0(below: nat): nat { Wrap(110000 - below * 625) }

  /** A 64-bit product and quotient. */
  function Scaled(a: nat, b: nat, divisor: nat): nat
    requires divisor > 0
  {
    Wrap(a * b) / divisor
  }

  function Slope(below: nat): nat {
    var s := Scaled(Slope0(below), 100, 110);
    Scaled(s, s, 100000)
  }

  /** Lines 452-456: (ratio / maxRatio) * slope * packageTdp. */
  function Power(maxRatio: nat, ratio: nat, packageTdp: nat): nat
    requires ratio <= maxRatio && maxRatio > 0
  {
    Scaled(Scaled(Scaled(ratio, 100, maxRatio), Slope(maxRatio - ratio), 100), packageTdp, 100000)
  }

  /** The subtraction of line 447 does not underflow exactly up to 176 steps below P1; then it wraps. */
  lemma SlopeExactIff(below: nat)
    ensures Slope0(below) == 110000 - below * 625 <==> below <= 176
    ensures below > 176 && below * 625 < TWO64 ==> Slope0(below) == 0x1_0000_0000_0000_0000 + 110000 - below * 625
  {
  }

  lemma ScaledMonotone(a: nat, b: nat, c: nat, d: nat, divisor: nat)
    requires a <= b && c <= d && divisor > 0 && b * d < TWO64
    ensures Scaled(a, c, divisor) <= Scaled(b, d, divisor)
  {
    MulMonotone(a, b, c, d);
    DivMonotone(a * c, b * d, divisor);
  }

  lemma ScaledExact(a: nat, divisor: nat)
    requires divisor > 0 && divisor * a < TWO64
    ensures Scaled(divisor, a, divisor) == a
  {
    ModUnique(divisor * a, a, 0, divisor);
    assert (divisor * a / divisor - a) * divisor == 0;
    MulAtLeast(divisor * a / divisor - a, divisor);
  }

  lemma SlopeMonotone(below: nat, less: nat)
    requires less <= below <= 176
    ensures Slope(below) <= Slope(less) <= 100000
  {
    var s, t := Scaled(Slope0(below), 100, 110), Scaled(Slope0(less), 100, 110);
    ScaledMonotone(Slope0(below), Slope0(less), 100, 100, 110);
    assert t <= 100000;
    MulMonotone(t, 100000, t, 100000);
    ScaledMonotone(s, t, s, t, 100000);
    ScaledMonotone(t, 100000, t, 100000, 100000);
  }

  /** No underflow and no overflow: P1 at most 176 ratios above the lowest state, and sizes that 64 bits can hold. */
  predicate Fits(maxRatio: nat, minRatio: nat, packageTdp: nat) {
    minRatio <= maxRatio <= minRatio + 176 && maxRatio * 100 < TWO64 && packageTdp * 100000 < TWO64
  }

  /** Power does not decrease with the ratio, and never exceeds the TDP. */
  lemma PowerMonotone(maxRatio: nat, low: nat, high: nat, packageTdp: nat)
    requires low <= high <= maxRatio && maxRatio > 0 && Fits(maxRatio, low, packageTdp)
    ensures Power(maxRatio, low, packageTdp) <= Power(maxRatio, high, packageTdp) <= packageTdp
  {
    var s, t := Slope(maxRatio - low), Slope(maxRatio - high);
    SlopeMonotone(maxRatio - low, maxRatio - high);
    var a, b := Scaled(low, 100, maxRatio), Scaled(high, 100, maxRatio);
    ScaledMonotone(low, high, 100, 100, maxRatio);
    ScaledMonotone(high, maxRatio, 100, 100, maxRatio);
    ScaledExact(100, maxRatio);
    MulMonotone(b, 100, t, 100000);
    ScaledMonotone(a, b, s, t, 100);
    ScaledMonotone(b, 100, t, 100000, 100);
    ScaledExact(100000, 100);
    var c, d := Scaled(a, s, 100), Scaled(b, t, 100);
    MulMonotone(d, 100000, packageTdp, packageTdp);
    ScaledMonotone(c, d, packageTdp, packageTdp, 100000);
    ScaledMonotone(d, 100000, packageTdp, packageTdp, 100000);
    ScaledExact(packageTdp, 100000);
  }

  // ---- the power is what the formula says, up to truncation ----

  lemma Squares(s: nat, u: nat)
    requires 11 * s <= 6250 * u <= 11 * s + 10
    ensures 121 * (s * s) <= 39062500 * (u * u) <= 121 * (s * s) + 220 * s + 100
  {
    MulMonotone(11 * s, 6250 * u, 11 * s, 6250 * u);
    MulMonotone(6250 * u, 11 * s + 10, 6250 * u, 11 * s + 10);
    assert (11 * s) * (11 * s) == 121 * (s * s);
    assert (6250 * u) * (6250 * u) == 39062500 * (u * u);
    assert (11 * s + 10) * (11 * s + 10) == 121 * (s * s) + 220 * s + 100;
  }

  lemma RootNear(below: nat)
    requires below <= 176
    ensures var u, s := 176 - below, Scaled(Slope0(below), 100, 110); 11 * s <= 6250 * u <= 11 * s + 10 && s <= 100000
  {
    assert Scaled(Slope0(below), 100, 110) == 62500 * (176 - below) / 110;
  }

  lemma SquareIs(s: nat)
    requires s <= 100000
    ensures Scaled(s, s, 100000) * 100000 <= s * s < Scaled(s, s, 100000) * 100000 + 100000
  {
    MulMonotone(s, 100000, s, 100000);
    DivBounds(s * s, 100000);
  }

  lemma QuotientNear(r: nat, s: nat, sSquare: nat, uSquare: nat)
    requires s <= 100000 && r * 100000 <= sSquare < r * 100000 + 100000
    requires 121 * sSquare <= 39062500 * uSquare <= 121 * sSquare + 220 * s + 100
    ensures r * 968 <= 3125 * uSquare < (r + 3) * 968
  {
  }

  /** (1.1 - below * 0.00625) / 1.1, which is (176 - below) / 176, squared, in units of 0.00001: less than 3 too low. */
  lemma SlopeNear(below: nat)
    requires below <= 176
    ensures var u := 176 - below; Slope(below) * 968 <= 3125 * (u * u) < (Slope(below) + 3) * 968
  {
    var u, s := 176 - below, Scaled(Slope0(below), 100, 110);
    RootNear(below);
    Squares(s, u);
    SquareIs(s);
    assert Slope(below) == Scaled(s, s, 100000);
    hide Scaled, Slope, Slope0;
    QuotientNear(Slope(below), s, s * s, u * u);
  }

  /** power is percent / 100 * ((176 - below) / 176)^2 * TDP, where percent is the ratio in whole percent of
      maxRatio: never more, and less by at most TDP * 0.00004 and one unit. */
  ghost predicate IsNear(power: nat, maxRatio: nat, ratio: nat, packageTdp: nat)
    requires maxRatio > 0
  {
    var percent, u := 100 * ratio / maxRatio, 176 - (maxRatio - ratio);
    var ideal := percent * (u * u) * packageTdp;
    && power * (100 * 176 * 176) <= ideal
    && ideal * 100000 <= (100000 * (power + 1) + 4 * packageTdp) * (100 * 176 * 176)
  }

  /** power is at most ratio / maxRatio * ((176 - below) / 176)^2 * TDP. */
  ghost predicate IsBelowIdeal(power: nat, maxRatio: nat, ratio: nat, packageTdp: nat) {
    var u := 176 - (maxRatio - ratio);
    power * maxRatio * (176 * 176) <= ratio * (u * u * packageTdp)
  }

  /** The factor of the TDP. */
  lemma FactorNear(percent: nat, slope: nat, square: nat, c: nat)
    requires percent <= 100 && slope * 968 <= 3125 * square < (slope + 3) * 968
    requires c * 100 <= percent * slope < c * 100 + 100
    ensures 96800 * c <= 3125 * (percent * square) <= 96800 * (c + 4)
  {
    MulMonotone(percent, percent, slope * 968, 3125 * square);
    MulMonotone(percent, percent, 3125 * square, (slope + 3) * 968);
    assert percent * (slope * 968) == 968 * (percent * slope);
    assert percent * ((slope + 3) * 968) == 968 * (percent * slope) + 2904 * percent;
    assert percent * (3125 * square) == 3125 * (percent * square);
  }

  lemma ProductNear(c: nat, factor: nat, packageTdp: nat, power: nat)
    requires 96800 * c <= 3125 * factor <= 96800 * (c + 4)
    requires power * 100000 <= c * packageTdp < power * 100000 + 100000
    ensures power * 3097600 <= factor * packageTdp
    ensures factor * packageTdp * 100000 <= (100000 * (power + 1) + 4 * packageTdp) * 3097600
  {
    MulMonotone(96800 * c, 3125 * factor, packageTdp, packageTdp);
    MulMonotone(3125 * factor, 96800 * (c + 4), packageTdp, packageTdp);
    assert 96800 * c * packageTdp == 96800 * (c * packageTdp);
    assert 96800 * (c + 4) * packageTdp == 96800 * (c * packageTdp) + 387200 * packageTdp;
    assert 3125 * factor * packageTdp == 3125 * (factor * packageTdp);
  }

  lemma ScaledBounds(a: nat, b: nat, divisor: nat)
    requires divisor > 0 && a * b < TWO64
    ensures Scaled(a, b, divisor) * divisor <= a * b < Scaled(a, b, divisor) * divisor + divisor
  {
    DivBounds(a * b, divisor);
  }

  lemma PercentIs(maxRatio: nat, ratio: nat)
    requires ratio <= maxRatio && maxRatio > 0 && maxRatio * 100 < TWO64
    ensures Scaled(ratio, 100, maxRatio) == 100 * ratio / maxRatio <= 100
  {
    ScaledMonotone(ratio, maxRatio, 100, 100, maxRatio);
    ScaledExact(100, maxRatio);
  }

  lemma PowerNear(maxRatio: nat, ratio: nat, packageTdp: nat)
    requires ratio <= maxRatio && maxRatio > 0 && Fits(maxRatio, ratio, packageTdp)
    ensures IsNear(Power(maxRatio, ratio, packageTdp), maxRatio, ratio, packageTdp)
  {
    var below := maxRatio - ratio;
    var percent, slope := Scaled(ratio, 100, maxRatio), Slope(below);
    var c := Scaled(percent, slope, 100);
    hide Scaled, Slope;
    PercentIs(maxRatio, ratio);
    SlopeMonotone(below, 0);
    SlopeNear(below);
    MulMonotone(percent, 100, slope, 100000);
    ScaledBounds(percent, slope, 100);
    FactorNear(percent, slope, (176 - below) * (176 - below), c);
    MulMonotone(c, 100000, packageTdp, packageTdp);
    ScaledBounds(c, packageTdp, 100000);
    ProductNear(c, percent * ((176 - below) * (176 - below)), packageTdp, Power(maxRatio, ratio, packageTdp));
  }

  lemma WholePercent(power: nat, percent: nat, maxRatio: nat, ratio: nat, k: nat)
    requires power * 3097600 <= percent * k && percent * maxRatio <= 100 * ratio
    ensures power * maxRatio * 30976 <= ratio * k
  {
    MulMonotone(power * 3097600, percent * k, maxRatio, maxRatio);
    MulMonotone(percent * maxRatio, 100 * ratio, k, k);
    assert percent * k * maxRatio == percent * maxRatio * k;
    assert 100 * ratio * k == 100 * (ratio * k);
    assert power * 3097600 * maxRatio == 3097600 * (power * maxRatio);
  }

  /** With the exact quotient of the ratios instead of whole percent, the power is at most that. */
  lemma PowerBelowIdeal(power: nat, maxRatio: nat, ratio: nat, packageTdp: nat)
    requires maxRatio > 0 && IsNear(power, maxRatio, ratio, packageTdp)
    ensures IsBelowIdeal(power, maxRatio, ratio, packageTdp)
  {
    var percent, u := 100 * ratio / maxRatio, 176 - (maxRatio - ratio);
    DivBounds(100 * ratio, maxRatio);
    SquareIsNat(u);
    Regroup(percent, u * u, packageTdp);
    WholePercent(power, percent, maxRatio, ratio, u * u * packageTdp);
  }

  lemma SquareIsNat(u: int)
    ensures u * u >= 0
  {
  }

  lemma Regroup(a: int, b: int, c: int)
    ensures a * b * c == a * (b * c)
  {
  }

  // ---- the table ----

  /** The least step that gives at most 16 states. */
  ghost predicate LeastStep(range: nat, step: nat, turbo: bool) {
    && step >= 1 && NumberOfPStates(range, step, turbo) <= 16
    && forall s :: 1 <= s < step ==> NumberOfPStates(range, s, turbo) > 16
  }

  /** Lines 342-362 */
  method FindStep(range: nat, turbo: bool) returns (step: nat)
    ensures LeastStep(range, step, turbo)
  {
    step := 1;
    while NumberOfPStates(range, step, turbo) > 16
      invariant step >= 1 && forall s :: 1 <= s < step ==> NumberOfPStates(range, s, turbo) > 16
      decreases range - step
    {
      SmallStep(range, step);
      step := step + 1;
    }
  }

  lemma SmallStep(range: nat, step: nat)
    requires step > 0 && range / step > 1
    ensures step < range
  {
  }

  /** k steps */
  function Steps(step: nat, k: nat): nat { if k == 0 then 0 else Steps(step, k - 1) + step }

  lemma {:induction false} StepsProduct(step: nat, k: nat)
    ensures Steps(step, k) == k * step
  {
    if k > 0 { StepsProduct(step, k - 1); }
  }

  lemma {:induction false} StepsMonotone(step: nat, j: nat, k: nat)
    requires j <= k
    ensures Steps(step, j) <= Steps(step, k)
  {
    if j < k { StepsMonotone(step, j, k - 1); }
  }

  /** As many steps as fit go up to less than one step below the range. */
  lemma StepsFit(range: nat, step: nat, k: nat)
    requires step > 0 && k <= range / step
    ensures Steps(step, k) <= range && range < Steps(step, range / step) + step
  {
    var q := range / step;
    DivBounds(range, step);
    StepsProduct(step, q);
    StepsMonotone(step, k, q);
  }

  /** Entry e is the state k steps above MinRatio, at least one step below MaxRatio. */
  ghost predicate IsState(e: Fvid, maxRatio: nat, minRatio: nat, step: nat, packageTdp: nat, k: nat)
    requires maxRatio > 0
  {
    && e.ratio == minRatio + Steps(step, k) && e.ratio + step <= maxRatio
    && e == Fvid(e.ratio, 0, 10, 10, Power(maxRatio, e.ratio, packageTdp))
  }

  /** Lines 423-458: the states below P1, from the lowest up. */
  method FillBelow(t: array<Fvid>, index: nat, maxRatio: nat, minRatio: nat, step: nat, packageTdp: nat)
    requires minRatio <= maxRatio && maxRatio > 0 && step > 0 && 0 < index
      && t.Length == index + (maxRatio - minRatio) / step
    modifies t
    ensures forall i :: 0 <= i < index ==> t[i] == old(t[i])
    ensures forall i :: index <= i < t.Length ==> IsState(t[i], maxRatio, minRatio, step, packageTdp, t.Length - 1 - i)
  {
    var currentRatio := minRatio;
    var tableIndex := t.Length - 1;
    ghost var k, q := 0, (maxRatio - minRatio) / step;
    while tableIndex >= index
      invariant k + tableIndex == t.Length - 1 && 0 <= k <= q && currentRatio == minRatio + Steps(step, k)
      invariant forall i :: 0 <= i < index ==> t[i] == old(t[i])
      invariant forall i :: tableIndex < i < t.Length ==>
        IsState(t[i], maxRatio, minRatio, step, packageTdp, t.Length - 1 - i)
    {
      StepsFit(maxRatio - minRatio, step, k + 1);
      t[tableIndex] := Fvid(currentRatio, 0, 10, 10, Power(maxRatio, currentRatio, packageTdp));
      currentRatio := currentRatio + step;
      tableIndex := tableIndex - 1;
      k := k + 1;
    }
  }

  /** CalculateFvidTable: `p1` is the index of the state P1, the highest ratio that is not a turbo ratio. */
  method CalculateFvidTable(maxRatio: nat, minRatio: nat, turbo: bool, maxTurboRatio: nat, packageTdp: nat)
    returns (t: array<Fvid>, step: nat, p1: nat)
    requires minRatio <= maxRatio && maxRatio > 0
    ensures LeastStep(maxRatio - minRatio, step, turbo) && t.Length == NumberOfPStates(maxRatio - minRatio, step, turbo)
    ensures p1 == Turbo(turbo) < t.Length && t[p1] == Fvid(maxRatio, 0, 10, 10, packageTdp)
    ensures turbo ==> t[0] == Fvid(maxTurboRatio, 0, 10, 10, packageTdp)
    ensures RatiosDescend(t[..], p1, minRatio, step)
    ensures forall i :: p1 < i < t.Length ==>
      t[i].vid == 0 && t[i].transitionLatency == 10 && t[i].busMasterLatency == 10
    ensures Fits(maxRatio, minRatio, packageTdp) ==> PowersDescend(t[..], packageTdp)
    ensures Fits(maxRatio, minRatio, packageTdp) ==> PowersFollow(t[..], p1, maxRatio, packageTdp)
  {
    hide IsState, PowersDescend, PowersFollow, RatiosDescend;
    step := FindStep(maxRatio - minRatio, turbo);
    t := new Fvid[NumberOfPStates(maxRatio - minRatio, step, turbo)];
    var index := 0;
    if turbo {
      t[index] := Fvid(maxTurboRatio, 0, 10, 10, packageTdp);
      index := index + 1;
    }
    p1 := index;
    t[index] := Fvid(maxRatio, 0, 10, 10, packageTdp);
    index := index + 1;
    FillBelow(t, index, maxRatio, minRatio, step, packageTdp);
    TableOrder(t[..], p1, maxRatio, minRatio, step, packageTdp);
    TablePowers(t[..], p1, maxRatio, minRatio, step, packageTdp);
  }

  /** Below P1 the ratios go down to MinRatio in equal steps, after a first gap of at least one step and less than
      two. */
  ghost predicate RatiosDescend(t: seq<Fvid>, p1: nat, minRatio: nat, step: nat) {
    && p1 < |t|
    && (p1 + 1 < |t| ==> t[|t| - 1].ratio == minRatio && step <= t[p1].ratio - t[p1 + 1].ratio < 2 * step)
    && forall i :: p1 < i < |t| - 1 ==> t[i].ratio == t[i + 1].ratio + step
  }

  /** Power never increases down the table, and never exceeds the TDP. */
  ghost predicate PowersDescend(t: seq<Fvid>, packageTdp: nat) {
    forall i, j :: 0 <= i < j < |t| ==> t[j].power <= t[i].power <= packageTdp
  }

  /** Below P1 every power is the one of the formula, up to truncation. */
  ghost predicate PowersFollow(t: seq<Fvid>, p1: nat, maxRatio: nat, packageTdp: nat)
    requires maxRatio > 0
  {
    forall i :: p1 < i < |t| ==>
      && IsNear(t[i].power, maxRatio, t[i].ratio, packageTdp)
      && IsBelowIdeal(t[i].power, maxRatio, t[i].ratio, packageTdp)
  }

  /** The table as it is filled: P1 and above with the TDP, below it one state for every step from the lowest up. */
  ghost predicate Filled(t: seq<Fvid>, p1: nat, maxRatio: nat, minRatio: nat, step: nat, packageTdp: nat) {
    && minRatio <= maxRatio && maxRatio > 0 && step > 0 && |t| == p1 + 1 + (maxRatio - minRatio) / step
    && t[p1].ratio == maxRatio && (forall i :: 0 <= i <= p1 ==> t[i].power == packageTdp)
    && forall i :: p1 < i < |t| ==> IsState(t[i], maxRatio, minRatio, step, packageTdp, |t| - 1 - i)
  }

  lemma FirstGap(t: seq<Fvid>, p1: nat, maxRatio: nat, minRatio: nat, step: nat, packageTdp: nat)
    requires Filled(t, p1, maxRatio, minRatio, step, packageTdp) && p1 + 1 < |t|
    ensures t[|t| - 1].ratio == minRatio && step <= maxRatio - t[p1 + 1].ratio < 2 * step
  {
    var range := maxRatio - minRatio;
    assert IsState(t[|t| - 1], maxRatio, minRatio, step, packageTdp, |t| - 1 - (|t| - 1));
    assert IsState(t[p1 + 1], maxRatio, minRatio, step, packageTdp, |t| - 1 - (p1 + 1));
    StepsFit(range, step, range / step);
  }

  lemma EqualSteps(t: seq<Fvid>, p1: nat, maxRatio: nat, minRatio: nat, step: nat, packageTdp: nat, i: nat)
    requires Filled(t, p1, maxRatio, minRatio, step, packageTdp) && p1 < i < |t| - 1
    ensures t[i].ratio == t[i + 1].ratio + step
  {
  }

  lemma PowerPair(t: seq<Fvid>, p1: nat, maxRatio: nat, minRatio: nat, step: nat, packageTdp: nat, i: nat, j: nat)
    requires Filled(t, p1, maxRatio, minRatio, step, packageTdp) && i < j < |t| && Fits(maxRatio, minRatio, packageTdp)
    ensures t[j].power <= t[i].power <= packageTdp
  {
    if j > p1 {
      var l := |t| - 1 - j;
      assert IsState(t[j], maxRatio, minRatio, step, packageTdp, |t| - 1 - j);
      PowerMonotone(maxRatio, minRatio + Steps(step, l), maxRatio, packageTdp);
      if i > p1 {
        var k := |t| - 1 - i;
        assert IsState(t[i], maxRatio, minRatio, step, packageTdp, |t| - 1 - i);
        StepsMonotone(step, l, k);
        PowerMonotone(maxRatio, minRatio + Steps(step, l), minRatio + Steps(step, k), packageTdp);
      }
    }
  }

  lemma TableOrder(t: seq<Fvid>, p1: nat, maxRatio: nat, minRatio: nat, step: nat, packageTdp: nat)
    requires Filled(t, p1, maxRatio, minRatio, step, packageTdp)
    ensures RatiosDescend(t, p1, minRatio, step)
    ensures Fits(maxRatio, minRatio, packageTdp) ==> PowersDescend(t, packageTdp)
  {
    if p1 + 1 < |t| { FirstGap(t, p1, maxRatio, minRatio, step, packageTdp); }
    forall i | p1 < i < |t| - 1 ensures t[i].ratio == t[i + 1].ratio + step {
      EqualSteps(t, p1, maxRatio, minRatio, step, packageTdp, i);
    }
    forall i, j | 0 <= i < j < |t| && Fits(maxRatio, minRatio, packageTdp)
      ensures t[j].power <= t[i].power <= packageTdp
    {
      PowerPair(t, p1, maxRatio, minRatio, step, packageTdp, i, j);
    }
  }

  lemma TablePowers(t: seq<Fvid>, p1: nat, maxRatio: nat, minRatio: nat, step: nat, packageTdp: nat)
    requires Filled(t, p1, maxRatio, minRatio, step, packageTdp)
    ensures forall i :: p1 < i < |t| ==>
      t[i].vid == 0 && t[i].transitionLatency == 10 && t[i].busMasterLatency == 10
    ensures Fits(maxRatio, minRatio, packageTdp) ==> PowersFollow(t, p1, maxRatio, packageTdp)
  {
    hide IsNear, IsBelowIdeal, Power;
    forall i | p1 < i < |t|
      ensures t[i].vid == 0 && t[i].transitionLatency == 10 && t[i].busMasterLatency == 10
      ensures Fits(maxRatio, minRatio, packageTdp) ==>
        && IsNear(t[i].power, maxRatio, t[i].ratio, packageTdp)
        && IsBelowIdeal(t[i].power, maxRatio, t[i].ratio, packageTdp)
    {
      assert IsState(t[i], maxRatio, minRatio, step, packageTdp, |t| - 1 - i);
      if Fits(maxRatio, minRatio, packageTdp) {
        PowerNear(maxRatio, t[i].ratio, packageTdp);
        PowerBelowIdeal(t[i].power, maxRatio, t[i].ratio, packageTdp);
      }
    }
  }
}
