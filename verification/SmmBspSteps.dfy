/** A step of the BSP keeps the invariant. */
module SmmBspSteps {
  import opened Counting
  import opened SmmState
  import opened SmmInvariant
  import opened SmmApSteps

  /** What a step of the BSP b outside SmmStartupThisAp leaves alone, Run apart. */
  ghost predicate BspFrame(s: State, s': State, b: nat) {
    && SameBut(s.at.line, s'.at.line, b) && SameBut(s.at.loop, s'.at.loop, b)
    && s'.loc.counted == s.loc.counted && s'.loc.bsp == s.loc.bsp && SameBut(s.loc.saved, s'.loc.saved, b)
    && s'.cpu.present == s.cpu.present && SameBut(s.cpu.busy, s'.cpu.busy, b) && |s'.cpu.run| == |s.cpu.run|
    && s'.log == s.log && s'.hw.os == s.hw.os
  }

  /** The BSP moves within one barrier and outside SmmStartupThisAp, and every AP's balance of granted and consumed
      tokens stays as it is. */
  ghost predicate KeepsBalance(c: Config, s: State, s': State, b: nat)
    requires Typed(c, s) && Typed(c, s') && b < c.n
  {
    && BspFrame(s, s', b) && !IsStartup(s.at.line[b]) && !IsStartup(s'.at.line[b])
    && (BeforeLock(s'.at.line[b]) ==> BeforeLock(s.at.line[b]))
    && Waits(s'.at.line[b]) == Waits(s.at.line[b])
    && (s'.uc.insideSmm == s.uc.insideSmm
        || forall j :: 0 <= j < c.n && j != b && s.loc.counted[j] ==> s.at.line[j] != 466)
    && forall j :: 0 <= j < c.n && j != b ==>
      if s.loc.counted[j] then s'.cpu.run[j] as int - Granted(c, s'.at.line[b], s'.at.loop[b], j)
                               == s.cpu.run[j] as int - Granted(c, s.at.line[b], s.at.loop[b], j)
      else s'.cpu.run[j] == s.cpu.run[j]
  }

  lemma BspKeepsAp(c: Config, s: State, s': State, b: nat, j: nat)
    requires Shape(c, s, b) && Tokens(c, s, b) && Tasks(c, s, b) && Typed(c, s') && KeepsBalance(c, s, s', b)
    requires j < c.n && j != b
    ensures ShapeAp(c, s', b, j) && TokenAp(c, s', b, j) && TaskAp(c, s', b, j)
  {
    hide Ahead, ShapeBsp, TaskBsp, TokenBsp;
    assert ShapeAp(c, s, b, j) && TokenAp(c, s, b, j) && TaskAp(c, s, b, j);
  }

  lemma BspOthers(c: Config, s: State, s': State, b: nat)
    requires Shape(c, s, b) && Tokens(c, s, b) && Tasks(c, s, b) && Typed(c, s') && KeepsBalance(c, s, s', b)
    requires s'.at.line[b] == 302 ==> s'.cpu.busy[b] == Released
    requires s'.at.line[b] == 307 ==> s'.cpu.busy[b] == Acquired
    ensures forall j :: 0 <= j < c.n && j != b ==>
      ShapeAp(c, s', b, j) && TokenAp(c, s', b, j) && TaskAp(c, s', b, j)
    ensures Ahead(s', b) == Ahead(s, b)
    ensures TaskBsp(c, s', b)
  {
    hide ShapeAp, TaskAp, TokenAp;
    forall j | 0 <= j < c.n && j != b
      ensures ShapeAp(c, s', b, j) && TokenAp(c, s', b, j) && TaskAp(c, s', b, j)
    {
      BspKeepsAp(c, s, s', b, j);
    }
  }

  /** Nobody looks at InsideSmm while the BSP changes it. */
  lemma NobodyChecks(c: Config, s: State, b: nat, j: nat)
    requires Shape(c, s, b) && Tokens(c, s, b) && Tasks(c, s, b) && j < c.n && j != b && s.loc.counted[j]
    requires s.at.line[b] == 202 || s.at.line[b] == 319
    ensures s.at.line[j] != 466
  {
    assert TokenAp(c, s, b, j) && TaskAp(c, s, b, j);
  }

  // ---- before the first barrier ----

  lemma GatherShape(c: Config, s: State, b: nat)
    requires Shape(c, s, b) && BeforeLock(s.at.line[b]) && s.at.line[b] != 790
    ensures ShapeBsp(c, StepBsp(c, s, b), b)
  {
    hide ShapeAp;
    OnesUpdate(s.loc.counted, b, false);
  }

  lemma GatherSteps(c: Config, s: State, b: nat)
    requires Shape(c, s, b) && Tokens(c, s, b) && Tasks(c, s, b) && BeforeLock(s.at.line[b]) && s.at.line[b] != 790
    ensures var s' := StepBsp(c, s, b); BspFrame(s, s', b) && Shape(c, s', b) && Tokens(c, s', b) && Tasks(c, s', b)
  {
    hide Ahead, ShapeAp, TaskAp, TaskBsp;
    forall j | 0 <= j < c.n && j != b && s.loc.counted[j] && s.at.line[b] == 202 ensures s.at.line[j] != 466 {
      NobodyChecks(c, s, b, j);
    }
    GatherShape(c, s, b);
    BspOthers(c, s, StepBsp(c, s, b), b);
  }

  lemma DispatchStep(c: Config, s: State, b: nat)
    requires Shape(c, s, b) && Tokens(c, s, b) && Tasks(c, s, b) && s.at.line[b] == 790
    ensures var s' := StepRendezvous(c, s, b);
      BspFrame(s, s', b) && Shape(c, s', b) && Tokens(c, s', b) && Tasks(c, s', b)
  {
    BspOthers(c, s, StepRendezvous(c, s, b), b);
  }

  // ---- inside, and the end of the round ----

  /** Lines 301-302: the BSP acquires its own Busy lock. */
  lemma OwnBusy(c: Config, s: State, b: nat, ch: Choice)
    requires Tasks(c, s, b) && c.Valid() && (s.at.line[b] == 301 || s.at.line[b] == 302)
    ensures var s' := Step(c, s, b, ch);
      && s'.at.line[b] == (if s.at.line[b] == 301 then 302 else 307)
      && s'.cpu.busy[b] == (if s.at.line[b] == 301 then Released else Acquired)
  {
  }

  lemma InsideBalance(c: Config, s: State, b: nat, ch: Choice)
    requires Shape(c, s, b) && Tokens(c, s, b) && Tasks(c, s, b)
    requires s.at.line[b] == 301 || s.at.line[b] == 302 || s.at.line[b] == 319 || s.at.line[b] == 349
    ensures var s' := Step(c, s, b, ch);
      && KeepsBalance(c, s, s', b) && ShapeBsp(c, s', b) && s'.cpu.run == s.cpu.run
      && !IsWait(s'.at.line[b]) && (s.at.line[b] > 302 ==> s'.at.line[b] > 307)
  {
    forall j | 0 <= j < c.n && j != b && s.loc.counted[j] && s.at.line[b] == 319 ensures s.at.line[j] != 466 {
      NobodyChecks(c, s, b, j);
    }
    hide Ahead, ShapeAp, TaskAp, TaskBsp, TokenAp;
  }

  lemma InsideSteps(c: Config, s: State, b: nat, ch: Choice)
    requires Shape(c, s, b) && Tokens(c, s, b) && Tasks(c, s, b)
    requires s.at.line[b] == 301 || s.at.line[b] == 302 || s.at.line[b] == 319 || s.at.line[b] == 349
    ensures var s' := Step(c, s, b, ch); BspFrame(s, s', b) && Shape(c, s', b) && Tokens(c, s', b) && Tasks(c, s', b)
  {
    InsideBalance(c, s, b, ch);
    if s.at.line[b] <= 302 { OwnBusy(c, s, b, ch); }
    hide Ahead, ShapeAp, ShapeBsp, Step, TaskAp, TaskBsp, TokenAp;
    BspOthers(c, s, Step(c, s, b, ch), b);
  }

  // ---- barriers ----

  lemma WaitOne(c: Config, s: State, b: nat)
    requires Shape(c, s, b) && Tokens(c, s, b) && Tasks(c, s, b) && Enabled(s, b)
    requires IsWait(s.at.line[b]) && s.at.loop[b] > 0
    ensures var s' := StepBarrier(c, s, b);
      BspFrame(s, s', b) && Shape(c, s', b) && Tokens(c, s', b) && Tasks(c, s', b)
  {
    BspOthers(c, s, StepBarrier(c, s, b), b);
  }

  /** When WaitForAllAPs ends, every AP has signalled this barrier and no token is left in Run[b]. */
  lemma AllArrived(c: Config, s: State, b: nat)
    requires Shape(c, s, b) && Tokens(c, s, b) && IsWait(s.at.line[b]) && s.at.loop[b] == 0
    ensures s.cpu.run[b] == 0
    ensures forall j :: 0 <= j < c.n && j != b && s.loc.counted[j] ==> Level(s.at.line[j]) > Waits(s.at.line[b])
  {
    var others := s.loc.counted[b := false];
    OnesUpdate(s.loc.counted, b, false);
    OnesSubset(Ahead(s, b), others);
    assert Ahead(s, b) == others;
    forall j | 0 <= j < c.n && j != b && s.loc.counted[j] ensures Level(s.at.line[j]) > Waits(s.at.line[b]) {
      assert Ahead(s, b)[j] == others[j];
    }
  }

  lemma WaitDoneAp(c: Config, s: State, b: nat, j: nat)
    requires Shape(c, s, b) && Tokens(c, s, b) && Tasks(c, s, b)
    requires IsWait(s.at.line[b]) && s.at.loop[b] == 0 && j < c.n && j != b
    requires s.loc.counted[j] ==> Level(s.at.line[j]) > Waits(s.at.line[b])
    ensures var s' := StepBarrier(c, s, b);
      ShapeAp(c, s', b, j) && TokenAp(c, s', b, j) && TaskAp(c, s', b, j) && !Ahead(s', b)[j]
  {
    hide Inside, Post, ShapeBsp;
    assert ShapeAp(c, s, b, j) && TokenAp(c, s, b, j) && TaskAp(c, s, b, j);
  }

  lemma WaitDone(c: Config, s: State, b: nat)
    requires Shape(c, s, b) && Tokens(c, s, b) && Tasks(c, s, b)
    requires IsWait(s.at.line[b]) && s.at.loop[b] == 0
    ensures var s' := StepBarrier(c, s, b);
      BspFrame(s, s', b) && Shape(c, s', b) && Tokens(c, s', b) && Tasks(c, s', b)
  {
    var s' := StepBarrier(c, s, b);
    AllArrived(c, s, b);
    forall j | 0 <= j < c.n && j != b
      ensures ShapeAp(c, s', b, j) && TokenAp(c, s', b, j) && TaskAp(c, s', b, j) && !Ahead(s', b)[j]
    {
      WaitDoneAp(c, s, b, j);
    }
    OnesNone(Ahead(s', b));
  }

  /** Of the processors ReleaseAllAPs has still to visit, exactly the counted APs are present. */
  lemma ReleasePresent(c: Config, s: State, b: nat, j: nat)
    requires Shape(c, s, b) && Tokens(c, s, b) && IsRelease(s.at.line[b]) && j < s.at.loop[b] && j != b
    ensures s.cpu.present[j] == s.loc.counted[j]
    ensures s.loc.counted[j] ==> s.cpu.run[j] < 5
  {
    assert ShapeAp(c, s, b, j) && TokenAp(c, s, b, j);
  }

  /** Visiting processor k gives it a token exactly when it is a participant other than the BSP. */
  ghost predicate Releases(s: State, s': State, b: nat, k: nat) {
    && |s'.cpu.run| == |s.cpu.run| && |s.loc.counted| == |s.cpu.run| && b < |s.cpu.run| == |s.at.loop|
    && s' == s.(at := s.at.(loop := s.at.loop[b := k]), cpu := s.cpu.(run := s'.cpu.run))
    && forall j :: 0 <= j < |s.cpu.run| ==>
      s'.cpu.run[j] == s.cpu.run[j] + (if j == k && j != b && s.loc.counted[j] then 1 else 0)
  }

  lemma ReleaseVisits(c: Config, s: State, b: nat)
    requires Shape(c, s, b) && Tokens(c, s, b) && IsRelease(s.at.line[b]) && s.at.loop[b] > 0
    ensures Releases(s, StepBarrier(c, s, b), b, s.at.loop[b] - 1)
  {
    hide BspLine, TokenBsp;
    if s.at.loop[b] - 1 != b { ReleasePresent(c, s, b, s.at.loop[b] - 1); }
  }

  lemma ReleaseKeeps(c: Config, s: State, s': State, b: nat)
    requires Shape(c, s, b) && Tokens(c, s, b) && Tasks(c, s, b) && IsRelease(s.at.line[b]) && s.at.loop[b] > 0
    requires Typed(c, s') && Releases(s, s', b, s.at.loop[b] - 1)
    ensures BspFrame(s, s', b) && Shape(c, s', b) && Tokens(c, s', b) && Tasks(c, s', b)
  {
    BspOthers(c, s, s', b);
  }

  lemma ReleaseOne(c: Config, s: State, b: nat)
    requires Shape(c, s, b) && Tokens(c, s, b) && Tasks(c, s, b) && IsRelease(s.at.line[b]) && s.at.loop[b] > 0
    ensures var s' := StepBarrier(c, s, b);
      BspFrame(s, s', b) && Shape(c, s', b) && Tokens(c, s', b) && Tasks(c, s', b)
  {
    ReleaseVisits(c, s, b);
    ReleaseKeeps(c, s, StepBarrier(c, s, b), b);
  }

  lemma BarrierBalance(c: Config, s: State, b: nat)
    requires Shape(c, s, b) && Tokens(c, s, b) && InBarrier(s.at.line[b])
    requires !IsWait(s.at.line[b]) && (IsRelease(s.at.line[b]) ==> s.at.loop[b] == 0)
    ensures var s' := StepBarrier(c, s, b);
      && KeepsBalance(c, s, s', b) && ShapeBsp(c, s', b) && s'.cpu.run == s.cpu.run
      && (IsWait(s'.at.line[b]) ==> s'.at.loop[b] == s'.loc.apCount[b])
      && s'.at.line[b] != 302 && s'.at.line[b] != 307
  {
    hide AfterWait, Ahead, ShapeAp, TokenAp;
  }

  lemma ReleaseDoneAndMtrrs(c: Config, s: State, b: nat)
    requires Shape(c, s, b) && Tokens(c, s, b) && Tasks(c, s, b)
    requires InBarrier(s.at.line[b]) && !IsWait(s.at.line[b]) && (IsRelease(s.at.line[b]) ==> s.at.loop[b] == 0)
    ensures var s' := StepBarrier(c, s, b);
      BspFrame(s, s', b) && Shape(c, s', b) && Tokens(c, s', b) && Tasks(c, s', b)
  {
    BarrierBalance(c, s, b);
    hide Ahead, ShapeAp, ShapeBsp, StepBarrier, TaskAp, TaskBsp, TokenAp;
    BspOthers(c, s, StepBarrier(c, s, b), b);
  }

  lemma BarrierSteps(c: Config, s: State, b: nat)
    requires Shape(c, s, b) && Tokens(c, s, b) && Tasks(c, s, b) && Enabled(s, b) && InBarrier(s.at.line[b])
    ensures var s' := StepBarrier(c, s, b);
      BspFrame(s, s', b) && Shape(c, s', b) && Tokens(c, s', b) && Tasks(c, s', b)
  {
    if IsWait(s.at.line[b]) {
      if s.at.loop[b] > 0 { WaitOne(c, s, b); } else { WaitDone(c, s, b); }
    } else if IsRelease(s.at.line[b]) && s.at.loop[b] > 0 {
      ReleaseOne(c, s, b);
    } else {
      ReleaseDoneAndMtrrs(c, s, b);
    }
  }

  // ---- SmmStartupThisAp ----

  /** What a step of SmmStartupThisAp leaves alone. */
  ghost predicate StartupFrame(s: State, s': State, b: nat) {
    && SameBut(s.at.line, s'.at.line, b) && s'.at.loop == s.at.loop && s'.loc == s.loc
    && s'.cpu.present == s.cpu.present && s'.hw == s.hw && s'.log.executed == s.log.executed
    && s'.uc == s.uc.(call := s'.uc.call)
  }

  lemma StartupFrames(c: Config, s: State, b: nat, ch: Choice)
    requires Shape(c, s, b) && InStartup(s.at.line[b])
    ensures StartupFrame(s, StepStartup(c, s, b, ch), b)
  {
  }

  lemma StartupShape(c: Config, s: State, b: nat, ch: Choice)
    requires Shape(c, s, b) && Tasks(c, s, b) && InStartup(s.at.line[b])
    ensures Shape(c, StepStartup(c, s, b, ch), b)
  {
    var s' := StepStartup(c, s, b, ch);
    StartupFrames(c, s, b, ch);
    forall j | 0 <= j < c.n && j != b ensures ShapeAp(c, s', b, j) {
      assert ShapeAp(c, s, b, j);
    }
  }

  lemma StartupToken(c: Config, s: State, b: nat, j: nat, ch: Choice)
    requires Shape(c, s, b) && Tokens(c, s, b) && TaskBsp(c, s, b) && InStartup(s.at.line[b]) && Enabled(s, b)
    requires j < c.n && j != b
    ensures TokenAp(c, StepStartup(c, s, b, ch), b, j)
  {
    hide Ahead, BspLine, TokenBsp;
    assert TokenAp(c, s, b, j);
  }

  lemma StartupTokens(c: Config, s: State, b: nat, ch: Choice)
    requires Shape(c, s, b) && Tokens(c, s, b) && Tasks(c, s, b) && InStartup(s.at.line[b]) && Enabled(s, b)
    ensures Tokens(c, StepStartup(c, s, b, ch), b)
  {
    hide TokenAp;
    var s' := StepStartup(c, s, b, ch);
    StartupFrames(c, s, b, ch);
    assert Ahead(s', b) == Ahead(s, b);
    forall j | 0 <= j < c.n && j != b ensures TokenAp(c, s', b, j) {
      StartupToken(c, s, b, j, ch);
    }
  }

  /** A task is started only on an AP that is waiting for one. */
  lemma TargetWaits(c: Config, s: State, b: nat)
    requires Shape(c, s, b) && Tokens(c, s, b) && Tasks(c, s, b) && s.at.line[b] == 710
    requires At(s.at.line, s.uc.call.cpu, 0) != 455
    ensures s.at.line[s.uc.call.cpu] == 461
  {
    var t := s.uc.call.cpu;
    assert ShapeAp(c, s, b, t) && TokenAp(c, s, b, t) && TaskAp(c, s, b, t);
  }

  lemma StartupTasks(c: Config, s: State, b: nat, ch: Choice)
    requires Shape(c, s, b) && Tokens(c, s, b) && Tasks(c, s, b) && InStartup(s.at.line[b])
    requires Enabled(s, b) && Timely(s, b)
    ensures Tasks(c, StepStartup(c, s, b, ch), b)
  {
    var s' := StepStartup(c, s, b, ch);
    StartupFrames(c, s, b, ch);
    if s.at.line[b] == 710 && At(s.cpu.busy, s.uc.call.cpu, Unset) == Released {
      TargetWaits(c, s, b);
    }
    if s.at.line[b] == 707 && s.uc.call.cpu < c.n && s.uc.call.cpu != b {
      assert ShapeAp(c, s, b, s.uc.call.cpu);
    }
    forall j | 0 <= j < c.n && j != b ensures TaskAp(c, s', b, j) {
      assert TaskAp(c, s, b, j);
    }
  }
}
