/** Every timely step keeps the invariant, so it holds in every state of every run. */
module SmmPreserve {
  import opened Counting
  import opened SmmState
  import opened SmmInvariant
  import opened SmmApSteps
  import opened SmmBspSteps
  import opened SmmMtrrs

  // ---- gathering ----

  /** The first processor to reach line 780 becomes the BSP. */
  lemma Elected(c: Config, s: State, i: nat)
    requires Gather(c, s) && i < c.n && s.at.line[i] == 780
    ensures Led(c, StepRendezvous(c, s, i), i)
  {
    var s' := StepRendezvous(c, s, i);
    assert GatherCpu(c, s, i);
    OnesBound(s.loc.counted);
    forall j | 0 <= j < c.n ensures !Ahead(s', i)[j] {
      assert GatherCpu(c, s, j);
    }
    OnesNone(Ahead(s', i));
    forall j | 0 <= j < c.n && j != i ensures ShapeAp(c, s', i, j) && TokenAp(c, s', i, j) && TaskAp(c, s', i, j) {
      assert GatherCpu(c, s, j);
    }
    forall j | 0 <= j < c.n ensures SavedOk(c, s', j) && ReplacedTo(c, s', j) == 0 {
      assert GatherCpu(c, s, j);
    }
    forall x, r | 0 <= x < c.cores && 0 <= r < c.Regs() ensures RegOk(c, s', x, r) {
      assert NoneReplaced(c, s', x, r);
    }
  }

  lemma GatherStep(c: Config, s: State, i: nat, ch: Choice)
    requires Gather(c, s) && i < c.n && Enabled(s, i)
    ensures Inv(c, Step(c, s, i, ch))
  {
    var s' := Step(c, s, i, ch);
    assert GatherCpu(c, s, i);
    if s.at.line[i] == 780 {
      Elected(c, s, i);
    } else {
      OnesUpdate(s.loc.counted, i, s'.loc.counted[i]);
      OnesBound(s.loc.counted);
      forall j | 0 <= j < c.n ensures GatherCpu(c, s', j) {
        assert GatherCpu(c, s, j);
      }
      assert Gather(c, s');
    }
  }

  // ---- led ----

  lemma BarrierStep(c: Config, s: State, b: nat)
    requires Led(c, s, b) && Enabled(s, b) && InBarrier(s.at.line[b])
    ensures Led(c, StepBarrier(c, s, b), b)
  {
    hide Shape, ShapeBsp;
    BarrierSteps(c, s, b);
    if IsAccess(c, s, b) { AccessStep(c, s, b, b, Return); } else { BarrierOther(c, s, b); }
  }

  lemma StartupStep(c: Config, s: State, b: nat, ch: Choice)
    requires Led(c, s, b) && Enabled(s, b) && Timely(s, b) && InStartup(s.at.line[b])
    ensures Led(c, StepStartup(c, s, b, ch), b)
  {
    StartupShape(c, s, b, ch);
    StartupTokens(c, s, b, ch);
    StartupTasks(c, s, b, ch);
    StartupOther(c, s, b, ch);
  }

  lemma PlainStep(c: Config, s: State, b: nat, ch: Choice)
    requires Led(c, s, b) && s.at.line[b] != 352 && !InStartup(s.at.line[b]) && !InBarrier(s.at.line[b])
    ensures Led(c, Step(c, s, b, ch), b)
  {
    if s.at.line[b] == 790 { DispatchStep(c, s, b); }
    else if BeforeLock(s.at.line[b]) { GatherSteps(c, s, b); }
    else { InsideSteps(c, s, b, ch); }
    BspOther(c, s, b, ch);
  }

  lemma BspStep(c: Config, s: State, b: nat, ch: Choice)
    requires Led(c, s, b) && Enabled(s, b) && Timely(s, b) && s.at.line[b] != 352
    ensures Led(c, Step(c, s, b, ch), b)
  {
    hide Mtrrs, Tokens, Tasks;
    if InStartup(s.at.line[b]) {
      StartupStep(c, s, b, ch);
    } else if InBarrier(s.at.line[b]) {
      BarrierStep(c, s, b);
    } else {
      PlainStep(c, s, b, ch);
    }
  }

  /** When the BSP has passed its last barrier, the MTRRs of every core are those from before the round. */
  lemma AllRestored(c: Config, s: State, b: nat)
    requires Led(c, s, b) && Waits(s.at.line[b]) == 5
    ensures s.hw.mtrr == s.hw.os
  {
    forall x, r | 0 <= x < c.cores && 0 <= r < c.Regs() ensures s.hw.mtrr[x][r] == s.hw.os[x][r] {
      assert RegOk(c, s, x, r);
      if i :| 0 <= i < c.n && c.core[i] == x && s.loc.counted[i] && c.needMtrrs {
        if i != b { assert ShapeAp(c, s, b, i) && TokenAp(c, s, b, i); }
        assert RestoredTo(c, s, i) == c.Regs();
      } else {
        assert NoneReplaced(c, s, x, r);
      }
    }
    assert forall x :: 0 <= x < c.cores ==> s.hw.mtrr[x] == s.hw.os[x];
  }

  lemma RoundEnds(c: Config, s: State, b: nat)
    requires Led(c, s, b) && s.at.line[b] == 352
    ensures Drain(c, StepBsp(c, s, b))
  {
    var s' := StepBsp(c, s, b);
    AllRestored(c, s, b);
    forall j | 0 <= j < c.n ensures DrainCpu(c, s', j) && s'.cpu.run[j] == 0 && (j != b ==> s'.at.line[j] != 357) {
      if j != b {
        assert ShapeAp(c, s, b, j) && TokenAp(c, s, b, j);
      } else {
        OnesNone(Ahead(s, b));
      }
    }
    assert s'.at.line[b] == 357 && s'.cpu.present[b];
  }

  lemma LedStep(c: Config, s: State, b: nat, i: nat, ch: Choice)
    requires Led(c, s, b) && i < c.n && Enabled(s, i) && Timely(s, i)
    ensures Inv(c, Step(c, s, i, ch))
  {
    if i != b {
      ApStep(c, s, b, i, ch);
      ApMtrrs(c, s, b, i, ch);
      assert Led(c, Step(c, s, i, ch), b);
    } else if s.at.line[b] == 352 {
      RoundEnds(c, s, b);
    } else {
      BspStep(c, s, b, ch);
    }
  }

  // ---- draining ----

  lemma DrainStep(c: Config, s: State, i: nat, ch: Choice)
    requires Drain(c, s) && i < c.n && Enabled(s, i)
    ensures Inv(c, Step(c, s, i, ch))
  {
    hide Led, TokenAp;
    var s' := Step(c, s, i, ch);
    assert DrainCpu(c, s, i);
    forall j | 0 <= j < c.n ensures DrainCpu(c, s', j) {
      assert DrainCpu(c, s, j);
    }
    if s.uc.inSync && s.at.line[i] != 357 {
      var b :| 0 <= b < c.n && s.at.line[b] == 357;
      assert DrainCpu(c, s', b);
      assert Drain(c, s');
    } else if Draining(s') {
      assert Drain(c, s');
    } else {
      forall j | 0 <= j < c.n ensures GatherCpu(c, s', j) && !s'.loc.counted[j] {
        assert DrainCpu(c, s', j);
        assert !s'.cpu.present[j];
      }
      OnesNone(s'.loc.counted);
      assert Gather(c, s');
    }
  }

  lemma OsStep(c: Config, s: State, s': State)
    requires Inv(c, s) && OsWrites(c, s, s')
    ensures Inv(c, s')
  {
    forall b: nat ensures !Led(c, s, b) {
      assert b < |s.at.line| ==> s.at.line[b] == OUTSIDE;
    }
    forall j | 0 <= j < c.n && Drain(c, s) ensures !s.cpu.present[j] {
      assert DrainCpu(c, s, j);
    }
    forall j | 0 <= j < c.n ensures GatherCpu(c, s', j) {
      assert GatherCpu(c, s, j);
    }
    assert Gather(c, s');
  }

  lemma InvStep(c: Config, s: State, s': State)
    requires Inv(c, s) && TimelyNext(c, s, s')
    ensures Inv(c, s')
  {
    if OsWrites(c, s, s') {
      OsStep(c, s, s');
    } else {
      var i, ch :| TimelySteps(c, s, s', i, ch);
      if Gather(c, s) {
        GatherStep(c, s, i, ch);
      } else if Drain(c, s) {
        DrainStep(c, s, i, ch);
      } else {
        var b :| Led(c, s, b);
        LedStep(c, s, b, i, ch);
      }
    }
  }

  lemma {:induction false} InvAlways(c: Config, r: seq<State>, k: nat)
    requires IsRun(c, r) && k < |r|
    ensures Inv(c, r[k])
  {
    if k == 0 {
      OnesNone(r[0].loc.counted);
      assert Gather(c, r[0]);
    } else {
      InvAlways(c, r, k - 1);
      assert TimelyNext(c, r[k - 1], r[k - 1 + 1]);
      InvStep(c, r[k - 1], r[k]);
    }
  }
}
