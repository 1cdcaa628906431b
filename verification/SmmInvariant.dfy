/** The invariant of the rendezvous.  A round is gathering (nobody elected yet), led by an elected BSP b,
    or draining (the BSP has reset Counter and processors are leaving). */
module SmmInvariant {
  import opened Counting
  import opened SmmState

  // ---- where the BSP and an AP stand among the barriers ----

  /** Barriers the BSP at line l has completed; 1, 2 and 4 exist only when MTRRs are configured. */
  ghost function Waits(l: nat): nat {
    if IsStartup(l) then 3
    else if l < 263 || 357 < l then 0
    else if l < 283 then 1
    else if l < 301 then 2
    else if l < 331 then 3
    else if l < 349 then 4
    else 5
  }

  /** Barriers an AP at line l has signalled. */
  ghost function Level(l: nat): nat {
    if l <= 418 || 752 <= l <= 790 then 0
    else if l <= 434 then 1
    else if l <= 449 then 2
    else if l <= 493 then 3
    else if l <= 510 then 4
    else 5
  }

  /** How many of the four release tokens the BSP at line l (loop counter k) has given to AP i. */
  ghost function Granted(c: Config, l: nat, k: nat, i: nat): nat {
    if l == 263 then (if i >= k then 1 else 0)
    else if l == 283 then (if i >= k then 2 else 1)
    else if l == 320 then (if i >= k then 3 else 2)
    else if l == 331 then (if i >= k then 4 else 3)
    else if IsStartup(l) then 2
    else if l < 263 || 357 < l then (if c.needMtrrs then 0 else 2)
    else if l < 283 then 1
    else if l < 320 then 2
    else if l < 331 then 3
    else if c.needMtrrs then 4
    else 3
  }

  /** How many of them an AP at line l has consumed. */
  ghost function Taken(c: Config, l: nat, inside: bool): nat {
    if l <= 418 || 752 <= l <= 790 then (if c.needMtrrs then 0 else 2)
    else if l == 424 then 0
    else if l <= 439 then 1
    else if l <= 461 then 2
    else if l == 466 then (if inside then 2 else 3)
    else if l <= 487 then 2
    else if l <= 499 then 3
    else if l <= 510 || c.needMtrrs then 4
    else 3
  }

  /** A token posted to AP i by SmmStartupThisAp and not yet consumed. */
  ghost predicate HasTaskToken(s: State, b: nat, i: nat)
    requires b < |s.at.line| && i < |s.at.line| && i < |s.cpu.busy|
  {
    s.at.line[b] == 719 && s.uc.call.cpu == i && s.at.line[i] == 461 && s.cpu.busy[i].Acquired?
  }

  // ---- shape: positions, presence flags and the shared scalars ----

  /** The lines of the BSP after its election that exist in this configuration. */
  ghost predicate BspLine(c: Config, l: nat) {
    || l == 790 || l == 202 || l == 207 || l == 212 || l == 236 || l == 247 || l == 252 || l == 257
    || l == 301 || l == 302 || l == 307 || l == 319 || l == 320 || l == 325 || l == 349 || l == 352
    || l == 707 || l == 710 || l == 714 || l == 715 || l == 716 || l == 719 || l == 720
    || (c.needMtrrs && (l == 263 || l == 273 || l == 278 || l == 283 || l == 290 || l == 295
                        || l == 331 || l == 337 || l == 342))
  }

  ghost predicate BspLoop(c: Config, l: nat, k: nat, apCount: nat) {
    && (IsWait(l) ==> k <= apCount)
    && (IsRelease(l) ==> k <= c.n)
    && (l == 273 || l == 290 || l == 337 ==> k <= c.Regs())
  }

  ghost predicate Inside(l: nat) {
    207 <= l <= 319 || IsStartup(l)
  }

  /** The BSP has not yet locked Counter. */
  ghost predicate BeforeLock(l: nat) {
    l <= 252 || l == 790
  }

  ghost predicate ApLine(c: Config, l: nat) {
    || l == 752 || l == 780 || l == 790 || l == 375 || l == 418 || l == 455 || l == 461 || l == 466 || l == 474
    || l == 480 || l == 487 || l == 493 || l == 814 || l == 815 || l == 821
    || (c.needMtrrs && (l == 424 || l == 429 || l == 434 || l == 439 || l == 444 || l == 449
                        || l == 499 || l == 505 || l == 510))
  }

  /** A processor i other than the BSP b. */
  ghost predicate ShapeAp(c: Config, s: State, b: nat, i: nat)
    requires Typed(c, s) && b < c.n && i < c.n
  {
    var l := s.at.line[i];
    if s.loc.counted[i] then
      && ApLine(c, l)
      && s.cpu.present[i] == (l != 752 && l != 815 && l != 821)
      && (418 <= l <= 510 ==> s.loc.bsp[i] == b)
      && (l == 429 || l == 444 || l == 505 ==> s.at.loop[i] <= c.Regs())
    else
      && !s.cpu.present[i] && s.cpu.run[i] == 0
      && (l == OUTSIDE || l == 815 || l == 821)
  }

  ghost predicate ShapeBsp(c: Config, s: State, b: nat)
    requires Typed(c, s) && b < c.n
  {
    var l := s.at.line[b];
    && s.loc.counted[b] && s.cpu.present[b] && BspLine(c, l) && BspLoop(c, l, s.at.loop[b], s.loc.apCount[b])
    && s.uc.bspIndex == (if l == 352 then MAX32 else b)
    && s.uc.insideSmm == Inside(l)
    && (212 <= l != 790 ==> s.uc.current == b)
    && s.uc.inSync == (252 <= l != 790)
    && (if BeforeLock(l) then s.uc.counter == Ones(s.loc.counted)
        else s.uc.counter == MAX32 && s.loc.apCount[b] == Ones(s.loc.counted) - 1)
  }

  ghost predicate Shape(c: Config, s: State, b: nat) {
    && c.Valid() && Typed(c, s) && b < c.n
    && ShapeBsp(c, s, b)
    && forall i :: 0 <= i < c.n && i != b ==> ShapeAp(c, s, b, i)
  }

  // ---- tokens ----

  ghost predicate TokenAp(c: Config, s: State, b: nat, i: nat)
    requires Typed(c, s) && b < c.n && i < c.n
  {
    s.loc.counted[i] ==>
      && Level(s.at.line[i]) >= Waits(s.at.line[b])
      && s.cpu.run[i] + Taken(c, s.at.line[i], s.uc.insideSmm)
         == Granted(c, s.at.line[b], s.at.loop[b], i) + (if HasTaskToken(s, b, i) then 1 else 0)
  }

  ghost predicate IsAhead(s: State, b: nat, i: nat)
    requires b < |s.at.line| == |s.loc.counted| && i < |s.at.line|
  {
    i != b && s.loc.counted[i] && Level(s.at.line[i]) > Waits(s.at.line[b])
  }

  /** The APs that have signalled the barrier the BSP will wait for next, or is waiting for. */
  ghost function Ahead(s: State, b: nat): (m: seq<bool>)
    requires b < |s.at.line| == |s.loc.counted|
    ensures |m| == |s.at.line|
  {
    seq(|s.at.line|, i requires 0 <= i < |s.at.line| => IsAhead(s, b, i))
  }

  /** Run[b] and the signals of the current barrier that WaitForAllAPs has consumed are the APs ahead. */
  ghost predicate TokenBsp(c: Config, s: State, b: nat)
    requires Typed(c, s) && b < c.n
  {
    s.cpu.run[b] + (if IsWait(s.at.line[b]) then s.loc.apCount[b] as int - s.at.loop[b] else 0) == Ones(Ahead(s, b))
  }

  ghost predicate Tokens(c: Config, s: State, b: nat) {
    && Typed(c, s) && b < c.n
    && TokenBsp(c, s, b)
    && forall i :: 0 <= i < c.n && i != b ==> TokenAp(c, s, b, i)
  }

  // ---- tasks ----

  ghost predicate TaskBsp(c: Config, s: State, b: nat)
    requires Typed(c, s) && b < c.n
  {
    var l, t := s.at.line[b], s.uc.call.cpu;
    && (l == 302 ==> s.cpu.busy[b] == Released) && (InStartup(l) ==> s.cpu.busy[b] == Acquired)
    && (710 <= l <= 720 ==> t < c.n && t != b && s.loc.counted[t])
    && (l == 710 ==> s.cpu.present[t])
    && (714 <= l <= 716 || l == 720 ==> s.at.line[t] == 461 && s.cpu.busy[t].Acquired?)
    && (715 <= l <= 719 ==> s.cpu.procedure[t] == s.uc.call.procedure)
    && (716 <= l <= 719 ==> s.cpu.parameter[t] == s.uc.call.parameter)
    && (l == 719 ==>
      && !s.cpu.busy[t].Unset?
      && (s.at.line[t] == 461 || (466 <= s.at.line[t] <= 487 && s.cpu.busy[t].Acquired?)))
    && s.log.posted == (if 714 <= l <= 716 || (l == 719 && s.cpu.busy[t].Acquired? && s.at.line[t] != 487)
                    then s.log.executed + [s.uc.call] else s.log.executed)
  }

  /** A task is being started on AP i: from the acquisition of its Busy lock to the final release. */
  ghost predicate IsTarget(s: State, b: nat, i: nat)
    requires b < |s.at.line|
  {
    714 <= s.at.line[b] <= 720 && s.uc.call.cpu == i
  }

  /** Only the target of a task runs one, and the Busy lock of every other AP past line 455 is free. */
  ghost predicate TaskAp(c: Config, s: State, b: nat, i: nat)
    requires Typed(c, s) && b < c.n && i < c.n
  {
    s.loc.counted[i] ==>
      && (466 <= s.at.line[i] <= 487 ==>
        (s.at.line[b] == 719 && s.uc.call.cpu == i) || (!s.uc.insideSmm && s.at.line[i] == 466))
      && (461 <= s.at.line[i] <= 510 && !IsTarget(s, b, i) ==> s.cpu.busy[i] == Released)
  }

  ghost predicate Tasks(c: Config, s: State, b: nat) {
    && Typed(c, s) && b < c.n
    && TaskBsp(c, s, b)
    && forall i :: 0 <= i < c.n && i != b ==> TaskAp(c, s, b, i)
  }

  // ---- MTRRs: how far a participant has backed up, replaced and restored ----

  /** A processor at the loop line `at`, counter k, having passed it exactly when `past`. */
  ghost function Progress(c: Config, past: bool, here: bool, k: nat): nat {
    if !c.needMtrrs then 0 else if past then c.Regs() else if here then k else 0
  }

  /** Registers processor i has copied into its Mtrrs variable. */
  ghost function SavedTo(c: Config, s: State, i: nat): nat
    requires Typed(c, s) && i < c.n
  {
    var l := s.at.line[i];
    if !s.loc.counted[i] then 0
    else Progress(c, 278 <= l <= 357 || 434 <= l <= 720 || 814 <= l, l == 273 || l == 429, s.at.loop[i])
  }

  /** Registers processor i has replaced with the SMI values. */
  ghost function ReplacedTo(c: Config, s: State, i: nat): nat
    requires Typed(c, s) && i < c.n
  {
    var l := s.at.line[i];
    if !s.loc.counted[i] then 0
    else Progress(c, 295 <= l <= 357 || 449 <= l <= 720 || 814 <= l, l == 290 || l == 444, s.at.loop[i])
  }

  /** Registers processor i has restored. */
  ghost function RestoredTo(c: Config, s: State, i: nat): nat
    requires Typed(c, s) && i < c.n
  {
    var l := s.at.line[i];
    if !s.loc.counted[i] then 0
    else Progress(c, 342 <= l <= 357 || l == 510 || 814 <= l, l == 337 || l == 505, s.at.loop[i])
  }

  ghost predicate NoneRestored(c: Config, s: State, x: nat, r: nat)
    requires c.Valid() && Typed(c, s)
  {
    forall i :: 0 <= i < c.n && c.core[i] == x ==> r >= RestoredTo(c, s, i)
  }

  ghost predicate NoneReplaced(c: Config, s: State, x: nat, r: nat)
    requires c.Valid() && Typed(c, s)
  {
    forall i :: 0 <= i < c.n && c.core[i] == x ==> r >= ReplacedTo(c, s, i)
  }

  /** Every register saved so far holds the value from before the round. */
  ghost predicate SavedOk(c: Config, s: State, i: nat)
    requires c.Valid() && Typed(c, s) && i < c.n
  {
    SavedTo(c, s, i) > 0 || (s.loc.counted[i] && (s.at.line[i] == 273 || s.at.line[i] == 429)) ==>
      |s.loc.saved[i]| == SavedTo(c, s, i) && s.loc.saved[i] <= s.hw.os[c.core[i]]
  }

  /** The value of register r of core x, from the progress of the participants on that core. */
  ghost predicate RegOk(c: Config, s: State, x: nat, r: nat)
    requires c.Valid() && Typed(c, s) && x < c.cores && r < c.Regs()
  {
    s.hw.mtrr[x][r] == (if NoneReplaced(c, s, x, r) || !NoneRestored(c, s, x, r) then s.hw.os[x][r] else c.smi[r])
  }

  ghost predicate Mtrrs(c: Config, s: State) {
    && c.Valid() && Typed(c, s)
    && (forall i :: 0 <= i < c.n ==> SavedOk(c, s, i))
    && (forall x, r :: 0 <= x < c.cores && 0 <= r < c.Regs() ==> RegOk(c, s, x, r))
  }

  // ---- the three kinds of state ----

  ghost predicate Led(c: Config, s: State, b: nat) {
    Shape(c, s, b) && Tokens(c, s, b) && Tasks(c, s, b) && Mtrrs(c, s)
  }

  ghost predicate Quiet(c: Config, s: State) {
    && c.Valid() && Typed(c, s)
    && s.uc.bspIndex == MAX32 && !s.uc.insideSmm
    && s.log.posted == s.log.executed && s.hw.mtrr == s.hw.os
    && (forall i :: 0 <= i < c.n ==> s.cpu.run[i] == 0)
  }

  ghost predicate GatherCpu(c: Config, s: State, i: nat)
    requires Typed(c, s) && i < c.n
  {
    var l := s.at.line[i];
    && (l == OUTSIDE || l == 752 || l == 780 || l == 815 || l == 821)
    && s.loc.counted[i] == (l == 752 || l == 780)
    && s.cpu.present[i] == (l == 780)
  }

  /** Nobody elected: each processor is outside, or on its way out of the previous round, or has incremented
      Counter and not yet tried the election. */
  ghost predicate Gather(c: Config, s: State) {
    && Quiet(c, s) && !s.uc.inSync
    && s.uc.counter == Ones(s.loc.counted)
    && forall i :: 0 <= i < c.n ==> GatherCpu(c, s, i)
  }

  ghost predicate DrainCpu(c: Config, s: State, i: nat)
    requires Typed(c, s) && i < c.n
  {
    var l := s.at.line[i];
    && (l == OUTSIDE || l == 357 || l == 814 || l == 815 || l == 821)
    && !s.loc.counted[i]
    && s.cpu.present[i] == (l == 357 || l == 814)
  }

  /** Counter is 0 again: the round is over and processors are leaving. */
  ghost predicate Drain(c: Config, s: State) {
    && Quiet(c, s) && Draining(s)
    && (forall i :: 0 <= i < c.n ==> DrainCpu(c, s, i))
    && (s.uc.inSync ==> exists i :: 0 <= i < c.n && s.at.line[i] == 357)
    && (!s.uc.inSync ==> forall i :: 0 <= i < c.n ==> s.at.line[i] != 357)
    && (forall i, j :: 0 <= i < c.n && 0 <= j < c.n && s.at.line[i] == 357 && s.at.line[j] == 357 ==> i == j)
  }

  ghost predicate Inv(c: Config, s: State) {
    Gather(c, s) || Drain(c, s) || exists b :: Led(c, s, b)
  }
}
