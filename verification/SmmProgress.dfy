/** Every round ends: outside of entering and of starting tasks, each step uses up a bounded budget. */
module SmmProgress {
  import opened Counting
  import opened SmmState
  import opened SmmInvariant
  import opened SmmPreserve
  import opened SmmTheorems

  function Left(bound: nat, k: nat): nat {
    if k < bound then bound - k else 0
  }

  /** An upper bound on the steps an AP at line l has still to take in this round, tasks apart. */
  function ApRank(c: Config, l: nat, k: nat): nat {
    var m := c.Regs() + 2;
    if l == 375 then 21 + 3 * m
    else if l == 418 then 20 + 3 * m
    else if l == 424 then 19 + 3 * m
    else if l == 429 then 18 + 2 * m + Left(m, k)
    else if l == 434 then 17 + 2 * m
    else if l == 439 then 16 + 2 * m
    else if l == 444 then 15 + m + Left(m, k)
    else if l == 449 then 14 + m
    else if l == 455 then 13 + m
    else if l == 461 then 12 + m
    else if l == 466 then 11 + m
    else if l == 474 then 10 + m
    else if l == 480 then 9 + m
    else if l == 487 then 8 + m
    else if l == 493 then 7 + m
    else if l == 499 then 6 + m
    else if l == 505 then 5 + Left(m, k)
    else 4
  }

  function BspRank(c: Config, l: nat, k: nat): nat {
    var m, n := c.Regs() + 2, c.n + 2;
    if l == 202 then 28 + 9 * n + 3 * m
    else if l == 207 then 27 + 9 * n + 3 * m
    else if l == 212 then 26 + 9 * n + 3 * m
    else if l == 236 then 25 + 9 * n + 3 * m
    else if l == 247 then 24 + 9 * n + 3 * m
    else if l == 252 then 23 + 9 * n + 3 * m
    else if l == 257 then 22 + 8 * n + 3 * m + k
    else if l == 263 then 21 + 7 * n + 3 * m + k
    else if l == 273 then 20 + 7 * n + 2 * m + Left(m, k)
    else if l == 278 then 19 + 6 * n + 2 * m + k
    else if l == 283 then 18 + 5 * n + 2 * m + k
    else if l == 290 then 17 + 5 * n + m + Left(m, k)
    else if l == 295 then 16 + 4 * n + m + k
    else if l == 301 then 15 + 4 * n + m
    else if l == 302 then 14 + 4 * n + m
    else if l == 307 then 13 + 4 * n + m
    else if l == 319 then 12 + 4 * n + m
    else if l == 320 then 11 + 3 * n + m + k
    else if l == 325 then 10 + 2 * n + m + k
    else if l == 331 then 9 + n + m + k
    else if l == 337 then 8 + n + Left(m, k)
    else if l == 342 then 7 + k
    else if l == 349 then 6
    else if l == 352 then 5
    else if l == 357 then 4
    else if l == 707 then 32 + 4 * n + m
    else if l == 710 then 31 + 4 * n + m
    else if l == 714 then 30 + 4 * n + m
    else if l == 715 then 29 + 4 * n + m
    else if l == 716 then 28 + 4 * n + m
    else if l == 719 then 15 + 4 * n + m
    else 14 + 4 * n + m
  }

  function Rank(c: Config, l: nat, k: nat): nat {
    if l == OUTSIDE then 0
    else if l == 752 then 31 + 9 * (c.n + 2) + 3 * (c.Regs() + 2)
    else if l == 780 then 30 + 9 * (c.n + 2) + 3 * (c.Regs() + 2)
    else if l == 790 then 29 + 9 * (c.n + 2) + 3 * (c.Regs() + 2)
    else if l == 814 then 3
    else if l == 815 then 2
    else if l == 821 then 1
    else if InTask(l) || InArrive(l) || InDepart(l) then ApRank(c, l, k)
    else BspRank(c, l, k)
  }

  ghost function Total(c: Config, line: seq<nat>, loop: seq<nat>): nat
    requires |line| == |loop|
  {
    if |line| == 0 then 0 else Rank(c, line[0], loop[0]) + Total(c, line[1..], loop[1..])
  }

  lemma {:induction false} TotalUpdate(c: Config, line: seq<nat>, loop: seq<nat>, i: nat, l: nat, k: nat)
    requires |line| == |loop| && i < |line|
    ensures Total(c, line[i := l], loop[i := k])
         == Total(c, line, loop) - Rank(c, line[i], loop[i]) + Rank(c, l, k)
  {
    if i == 0 {
      assert line[i := l][1..] == line[1..] && loop[i := k][1..] == loop[1..];
    } else {
      assert line[i := l][1..] == line[1..][i - 1 := l] && loop[i := k][1..] == loop[1..][i - 1 := k];
      TotalUpdate(c, line[1..], loop[1..], i - 1, l, k);
    }
  }

  /** A task that has been posted and not finished will take its AP once more round the work loop. */
  ghost predicate TaskPending(s: State) {
    (exists b :: 0 <= b < |s.at.line| && s.at.line[b] == 719) && At(s.cpu.busy, s.uc.call.cpu, Unset) == Acquired
  }

  ghost function Budget(c: Config, s: State): nat
    requires Typed(c, s)
  {
    Total(c, s.at.line, s.at.loop) + (if TaskPending(s) then 8 else 0)
  }

  // ---- the rank of the processor that steps goes down ----

  lemma ArriveRank(c: Config, s: State, i: nat)
    requires c.Valid() && Typed(c, s) && i < c.n && (InArrive(s.at.line[i]) || InDepart(s.at.line[i]))
    requires ApLine(c, s.at.line[i])
    ensures var s' := if InArrive(s.at.line[i]) then StepArrive(c, s, i) else StepDepart(c, s, i);
      Rank(c, s'.at.line[i], s'.at.loop[i]) < Rank(c, s.at.line[i], s.at.loop[i])
  {
  }

  lemma WaitRank(c: Config, s: State, i: nat)
    requires c.Valid() && Typed(c, s) && i < c.n && IsWait(s.at.line[i])
    ensures var s' := StepBarrier(c, s, i);
      Rank(c, s'.at.line[i], s'.at.loop[i]) < Rank(c, s.at.line[i], s.at.loop[i])
  {
  }

  lemma ReleaseRank(c: Config, s: State, i: nat)
    requires c.Valid() && Typed(c, s) && i < c.n && IsRelease(s.at.line[i]) && s.loc.apCount[i] < c.n
    ensures var s' := StepBarrier(c, s, i);
      Rank(c, s'.at.line[i], s'.at.loop[i]) < Rank(c, s.at.line[i], s.at.loop[i])
  {
    hide AfterWait, Take, WriteMtrr;
  }

  lemma AccessRank(c: Config, s: State, i: nat)
    requires c.Valid() && Typed(c, s) && i < c.n && s.loc.apCount[i] < c.n
    requires s.at.line[i] == 273 || s.at.line[i] == 290 || s.at.line[i] == 337
    ensures var s' := StepBarrier(c, s, i);
      Rank(c, s'.at.line[i], s'.at.loop[i]) < Rank(c, s.at.line[i], s.at.loop[i])
  {
    hide AfterWait, Take, Post, WriteMtrr;
  }

  lemma BspLineRank(c: Config, s: State, i: nat)
    requires c.Valid() && Typed(c, s) && i < c.n && (BspLine(c, s.at.line[i]) || s.at.line[i] == 357)
    requires !InBarrier(s.at.line[i]) && !InStartup(s.at.line[i]) && s.at.line[i] != 790
    requires s.at.line[i] == 252 ==> 0 < s.uc.counter <= c.n
    ensures var s' := StepBsp(c, s, i);
      Rank(c, s'.at.line[i], s'.at.loop[i]) < Rank(c, s.at.line[i], s.at.loop[i])
  {
  }

  /** The rank of an AP goes up by 4 when it has done a task ... */
  lemma TaskRank(c: Config, s: State, i: nat)
    requires c.Valid() && Typed(c, s) && i < c.n && InTask(s.at.line[i]) && ApLine(c, s.at.line[i])
    ensures var s' := StepTask(c, s, i);
      Rank(c, s'.at.line[i], s'.at.loop[i])
      < Rank(c, s.at.line[i], s.at.loop[i]) + (if s.at.line[i] == 487 then 5 else 0)
  {
  }

  /** ... and that of the BSP goes down by more than 8 when it posts one. */
  lemma StartupRank(c: Config, s: State, i: nat)
    requires c.Valid() && Typed(c, s) && i < c.n && InStartup(s.at.line[i]) && BspLine(c, s.at.line[i])
    ensures var s' := StepStartup(c, s, i, Return);
      Rank(c, s'.at.line[i], s'.at.loop[i])
      < Rank(c, s.at.line[i], s.at.loop[i]) + (if s.at.line[i] == 716 then -8 else 0)
  {
  }

  lemma RendezvousRank(c: Config, s: State, i: nat)
    requires c.Valid() && Typed(c, s) && i < c.n && InRendezvous(s.at.line[i]) && s.at.line[i] != OUTSIDE
    requires ApLine(c, s.at.line[i])
    ensures var s' := StepRendezvous(c, s, i);
      Rank(c, s'.at.line[i], s'.at.loop[i]) < Rank(c, s.at.line[i], s.at.loop[i])
  {
  }

  // ---- so does the budget ----

  /** A step inside SMM, other than the SMM core deciding to start one more task. */
  ghost predicate Advances(c: Config, s: State, s': State, i: nat) {
    TimelySteps(c, s, s', i, Return) && s.at.line[i] != OUTSIDE
  }

  ghost predicate MovesOnly(s: State, s': State, i: nat)
    requires |s.at.line| == |s'.at.line| == |s.at.loop| == |s'.at.loop| && i < |s.at.line|
  {
    s'.at.line == s.at.line[i := s'.at.line[i]] && s'.at.loop == s.at.loop[i := s'.at.loop[i]]
  }

  lemma ApMovesOnly(c: Config, s: State, i: nat)
    requires c.Valid() && Typed(c, s) && i < c.n
    ensures MovesOnly(s, StepRendezvous(c, s, i), i) && MovesOnly(s, StepTask(c, s, i), i)
    ensures MovesOnly(s, StepArrive(c, s, i), i) && MovesOnly(s, StepDepart(c, s, i), i)
  {
  }

  lemma BspMovesOnly(c: Config, s: State, i: nat, ch: Choice)
    requires c.Valid() && Typed(c, s) && i < c.n
    ensures MovesOnly(s, StepBsp(c, s, i), i) && MovesOnly(s, StepStartup(c, s, i, ch), i)
    ensures MovesOnly(s, StepBarrier(c, s, i), i)
  {
  }

  lemma OnlyOneMoves(c: Config, s: State, i: nat, ch: Choice)
    requires c.Valid() && Typed(c, s) && i < c.n
    ensures var s' := Step(c, s, i, ch);
      s'.at.line == s.at.line[i := s'.at.line[i]] && s'.at.loop == s.at.loop[i := s'.at.loop[i]]
  {
    hide StepRendezvous, StepTask, StepArrive, StepDepart, StepBsp, StepStartup, StepBarrier;
    ApMovesOnly(c, s, i);
    BspMovesOnly(c, s, i, ch);
  }

  /** How much the rank of the processor at line l may go up. */
  function Slack(l: nat): int {
    if l == 487 then 5 else if l == 716 then -8 else 0
  }

  lemma DispatchRank(c: Config, s: State, i: nat)
    requires c.Valid() && Typed(c, s) && i < c.n && s.at.line[i] == 790
    ensures var s' := StepRendezvous(c, s, i);
      Rank(c, s'.at.line[i], s'.at.loop[i]) < Rank(c, s.at.line[i], s.at.loop[i])
  {
  }

  lemma BspRanks(c: Config, s: State, b: nat)
    requires Led(c, s, b)
    ensures var s' := Step(c, s, b, Return);
      Rank(c, s'.at.line[b], s'.at.loop[b]) < Rank(c, s.at.line[b], s.at.loop[b]) + Slack(s.at.line[b])
  {
    hide Rank, StepBarrier, StepBsp, StepRendezvous, StepStartup, TaskBsp, TokenBsp, Tokens;
    OnesBound(s.loc.counted);
    if s.at.line[b] == 790 {
      DispatchRank(c, s, b);
    } else if InStartup(s.at.line[b]) {
      StartupRank(c, s, b);
    } else if IsWait(s.at.line[b]) {
      WaitRank(c, s, b);
    } else if IsRelease(s.at.line[b]) {
      ReleaseRank(c, s, b);
    } else if InBarrier(s.at.line[b]) {
      AccessRank(c, s, b);
    } else {
      OnesUpdate(s.loc.counted, b, false);
      BspLineRank(c, s, b);
    }
  }

  lemma ApRanks(c: Config, s: State, i: nat)
    requires c.Valid() && Typed(c, s) && i < c.n && s.at.line[i] != OUTSIDE && ApLine(c, s.at.line[i])
    ensures var s' := Step(c, s, i, Return);
      Rank(c, s'.at.line[i], s'.at.loop[i]) < Rank(c, s.at.line[i], s.at.loop[i]) + Slack(s.at.line[i])
  {
    if InRendezvous(s.at.line[i]) { RendezvousRank(c, s, i); }
    else if InTask(s.at.line[i]) { TaskRank(c, s, i); }
    else { ArriveRank(c, s, i); }
  }

  lemma Ranks(c: Config, s: State, i: nat)
    requires Inv(c, s) && i < c.n && s.at.line[i] != OUTSIDE
    ensures var s' := Step(c, s, i, Return);
      Rank(c, s'.at.line[i], s'.at.loop[i]) < Rank(c, s.at.line[i], s.at.loop[i]) + Slack(s.at.line[i])
  {
    Whereabouts(c, s, i);
    if Drain(c, s) { assert DrainCpu(c, s, i); }
    if Gather(c, s) { assert GatherCpu(c, s, i); }
    if Led(c, s, i) {
      BspRanks(c, s, i);
    } else if s.at.line[i] == 357 {
      BspLineRank(c, s, i);
    } else {
      ApRanks(c, s, i);
    }
  }

  /** While the BSP waits for a task, a processor that releases its Busy lock is the one that has finished it. */
  lemma OthersPending(c: Config, s: State, b: nat, i: nat)
    requires Shape(c, s, b) && Tasks(c, s, b) && s.at.line[b] == 719 && i < c.n && i != b && s.at.line[i] != OUTSIDE
    ensures Step(c, s, i, Return).uc.call == s.uc.call
    ensures At(Step(c, s, i, Return).cpu.busy, s.uc.call.cpu, Unset) == Acquired ==>
      At(s.cpu.busy, s.uc.call.cpu, Unset) == Acquired
  {
    assert ShapeAp(c, s, b, i);
  }

  lemma OnlyPostingWaits(c: Config, s: State, i: nat)
    requires c.Valid() && Typed(c, s) && i < c.n && s.at.line[i] != 716
    ensures Step(c, s, i, Return).at.line[i] != 719
  {
  }

  /** No step but line 716 makes a task pending. */
  lemma NoNewPending(c: Config, s: State, i: nat)
    requires Inv(c, s) && i < c.n && s.at.line[i] != OUTSIDE && s.at.line[i] != 716
    requires TaskPending(Step(c, s, i, Return))
    ensures TaskPending(s)
  {
    var s' := Step(c, s, i, Return);
    var b :| 0 <= b < |s'.at.line| && s'.at.line[b] == 719;
    OnlyOneMoves(c, s, i, Return);
    OnlyPostingWaits(c, s, i);
    BspLeads(c, s, b);
    OthersPending(c, s, b, i);
  }

  lemma FinishesTask(c: Config, s: State, b: nat, i: nat)
    requires Shape(c, s, b) && Tasks(c, s, b) && i < c.n && s.at.line[i] == 487
    ensures TaskPending(s) && !TaskPending(StepTask(c, s, i))
  {
    assert i != b;
    assert ShapeAp(c, s, b, i) && TaskAp(c, s, b, i);
  }

  /** Every step uses up some of the budget. */
  lemma BudgetStep(c: Config, s: State, s': State, i: nat)
    requires Inv(c, s) && Advances(c, s, s', i)
    ensures Budget(c, s') < Budget(c, s)
  {
    TotalUpdate(c, s.at.line, s.at.loop, i, s'.at.line[i], s'.at.loop[i]);
    OnlyOneMoves(c, s, i, Return);
    Ranks(c, s, i);
    if s.at.line[i] == 487 {
      Whereabouts(c, s, i);
      var b :| Led(c, s, b);
      FinishesTask(c, s, b, i);
    } else if s.at.line[i] != 716 && TaskPending(s') {
      NoNewPending(c, s, i);
    }
  }

  /** Some processor inside SMM can always take a step that the SMM core's timing rule allows. */
  lemma SomebodyAdvances(c: Config, r: seq<State>, k: nat)
    requires IsRun(c, r) && k < |r| && !AllOutside(r[k])
    ensures exists s', i :: Advances(c, r[k], s', i)
  {
    var s := r[k];
    NoStateIsStuck(c, r, k);
    var i :| 0 <= i < c.n && s.at.line[i] != OUTSIDE && Enabled(s, i);
    var j: nat := if Timely(s, i) then i else s.uc.call.cpu;
    InvAlways(c, r, k);
    assert Advances(c, s, Step(c, s, j, Return), j);
  }

  ghost predicate AdvancesTo(c: Config, s: State, s': State) {
    exists i :: Advances(c, s, s', i)
  }

  /** Every round ends: after at most Budget steps inside SMM everybody has left, unless processors keep
      entering or the SMM core keeps starting tasks. */
  lemma {:induction false} RoundsEnd(c: Config, r: seq<State>, k: nat)
    requires IsRun(c, r) && k < |r|
    requires forall m :: k <= m < |r| - 1 ==> AdvancesTo(c, r[m], r[m + 1])
    ensures |r| - 1 - k <= Budget(c, r[k])
    decreases |r| - k
  {
    if k < |r| - 1 {
      var i :| Advances(c, r[k], r[k + 1], i);
      InvAlways(c, r, k);
      BudgetStep(c, r[k], r[k + 1], i);
      RoundsEnd(c, r, k + 1);
    }
  }

  lemma Extends(c: Config, r: seq<State>, s': State, i: nat, ch: Choice)
    requires IsRun(c, r) && TimelySteps(c, r[|r| - 1], s', i, ch)
    ensures IsRun(c, r + [s'])
  {
    var q := r + [s'];
    assert TimelyNext(c, r[|r| - 1], s');
    forall k | 0 <= k < |q| - 1 ensures TimelyNext(c, q[k], q[k + 1]) {
      if k < |r| - 1 { assert q[k] == r[k] && q[k + 1] == r[k + 1]; }
    }
  }

  /** From every state of every run the round can be completed: everybody leaves, nobody else has to enter. */
  lemma {:induction false} RoundCanComplete(c: Config, r: seq<State>) returns (q: seq<State>)
    requires IsRun(c, r)
    ensures IsRun(c, q) && r <= q && AllOutside(q[|q| - 1])
    decreases Budget(c, r[|r| - 1])
  {
    hide Inv, Step, Enabled, Total, TaskPending, Timely;
    if AllOutside(r[|r| - 1]) {
      q := r;
    } else {
      SomebodyAdvances(c, r, |r| - 1);
      var s', i :| Advances(c, r[|r| - 1], s', i);
      InvAlways(c, r, |r| - 1);
      BudgetStep(c, r[|r| - 1], s', i);
      Extends(c, r, s', i, Return);
      q := RoundCanComplete(c, r + [s']);
    }
  }
}
