/** What the rendezvous guarantees in every state of every run.  A run may contain any number of rounds. */
module SmmTheorems {
  import opened Counting
  import opened SmmState
  import opened SmmInvariant
  import opened SmmBspSteps
  import opened SmmMtrrs
  import opened SmmPreserve

  /** The elected processor, inside BSPHandler. */
  ghost predicate IsBsp(s: State, b: nat) {
    b < |s.at.line| && (202 <= s.at.line[b] <= 357 || IsStartup(s.at.line[b]))
  }

  /** The BSP is executing the SMM core. */
  ghost predicate InCore(s: State, b: nat) {
    b < |s.at.line| && InStartup(s.at.line[b])
  }

  /** Where a processor can be in each kind of state. */
  lemma Whereabouts(c: Config, s: State, i: nat)
    requires Inv(c, s) && i < c.n
    ensures Gather(c, s) ==>
      s.at.line[i] == OUTSIDE || s.at.line[i] == 752 || s.at.line[i] == 780 || 815 <= s.at.line[i]
    ensures Drain(c, s) ==> s.at.line[i] == OUTSIDE || s.at.line[i] == 357 || 814 <= s.at.line[i]
    ensures forall b: nat :: Led(c, s, b) && b != i ==>
      ApLine(c, s.at.line[i]) || s.at.line[i] == OUTSIDE || s.at.line[i] == 821
    ensures forall b: nat :: Led(c, s, b) ==> b < c.n && BspLine(c, s.at.line[b])
  {
    if Gather(c, s) { assert GatherCpu(c, s, i); }
    if Drain(c, s) { assert DrainCpu(c, s, i); }
    forall b: nat | Led(c, s, b) && b != i
      ensures ApLine(c, s.at.line[i]) || s.at.line[i] == OUTSIDE || s.at.line[i] == 821
    {
      assert ShapeAp(c, s, b, i);
    }
  }

  lemma BspLeads(c: Config, s: State, b: nat)
    requires Inv(c, s) && IsBsp(s, b) && s.at.line[b] != 357
    ensures Led(c, s, b)
  {
    Whereabouts(c, s, b);
  }

  /** At line 357 the round is already draining. */
  lemma BspDrains(c: Config, s: State, b: nat)
    requires Inv(c, s) && IsBsp(s, b) && s.at.line[b] == 357
    ensures Drain(c, s)
  {
    Whereabouts(c, s, b);
  }

  // ---- participants ----

  /** At most one processor is the BSP. */
  lemma OneBsp(c: Config, r: seq<State>, k: nat, a: nat, b: nat)
    requires IsRun(c, r) && k < |r| && IsBsp(r[k], a) && IsBsp(r[k], b)
    ensures a == b
  {
    hide Led, TokenBsp;
    InvAlways(c, r, k);
    Whereabouts(c, r[k], a);
    Whereabouts(c, r[k], b);
    if r[k].at.line[a] != 357 { BspLeads(c, r[k], a); } else { BspDrains(c, r[k], a); }
  }

  /** After the lock, ApCount is the number of processors, the BSP apart, that got a nonzero Counter. */
  lemma LockCountsParticipants(c: Config, r: seq<State>, k: nat, b: nat)
    requires IsRun(c, r) && k < |r| && IsBsp(r[k], b) && 257 <= r[k].at.line[b] != 357
    ensures r[k].uc.counter == 0xFFFF_FFFF
    ensures r[k].loc.apCount[b] == Ones(r[k].loc.counted[b := false])
  {
    InvAlways(c, r, k);
    BspLeads(c, r[k], b);
    OnesUpdate(r[k].loc.counted, b, false);
  }

  /** Whenever ReleaseAllAPs looks at a processor, it is present exactly when it is a participant. */
  lemma ReleaseFindsParticipants(c: Config, r: seq<State>, k: nat, b: nat)
    requires IsRun(c, r) && k < |r| && IsBsp(r[k], b) && IsRelease(r[k].at.line[b]) && r[k].at.loop[b] > 0
    ensures r[k].uc.current == b
    ensures var j := r[k].at.loop[b] - 1; j < c.n && (j != b ==> r[k].cpu.present[j] == r[k].loc.counted[j])
  {
    InvAlways(c, r, k);
    BspLeads(c, r[k], b);
    if r[k].at.loop[b] - 1 != b { ReleasePresent(c, r[k], b, r[k].at.loop[b] - 1); }
  }

  lemma UncountedLines(c: Config, s: State, i: nat)
    requires Inv(c, s) && i < c.n && !s.loc.counted[i] && s.uc.counter == MAX32
    ensures s.at.line[i] == OUTSIDE || s.at.line[i] == 815 || s.at.line[i] == 821
  {
    if Gather(c, s) { OnesBound(s.loc.counted); }
    if b: nat :| Led(c, s, b) {
      assert ShapeAp(c, s, b, i);
    }
  }

  /** While Counter is locked, a processor that is not a participant (it came too late, or is still on its way
      out of the previous round) changes nothing but its own position. */
  lemma LateTouchesNothing(c: Config, r: seq<State>, k: nat, i: nat, ch: Choice)
    requires IsRun(c, r) && k < |r| && i < c.n && Enabled(r[k], i)
    requires !r[k].loc.counted[i] && r[k].uc.counter == MAX32
    ensures var s' := Step(c, r[k], i, ch);
      && s'.cpu == r[k].cpu && s'.hw == r[k].hw && s'.uc == r[k].uc && s'.log == r[k].log && s'.loc == r[k].loc
      && (s'.at.line[i] == 821 || s'.at.line[i] == OUTSIDE)
  {
    InvAlways(c, r, k);
    UncountedLines(c, r[k], i);
  }

  /** Between the lock and line 357 nobody passes line 821. */
  lemma NobodyLeavesEarly(c: Config, r: seq<State>, k: nat, b: nat, i: nat)
    requires IsRun(c, r) && k < |r| && IsBsp(r[k], b) && 257 <= r[k].at.line[b]
    requires i < c.n && r[k].at.line[i] == 821
    ensures !Enabled(r[k], i)
  {
    InvAlways(c, r, k);
    if r[k].at.line[b] != 357 { BspLeads(c, r[k], b); } else { BspDrains(c, r[k], b); }
  }

  // ---- tokens ----

  /** The tokens in Run[Bsp] all belong to the barrier the BSP is waiting for: together with those it has
      already consumed they are the APs that have signalled that barrier, and no AP is further ahead. */
  lemma BarriersDoNotMix(c: Config, r: seq<State>, k: nat, b: nat)
    requires IsRun(c, r) && k < |r| && IsBsp(r[k], b) && IsWait(r[k].at.line[b])
    ensures var s, w := r[k], Waits(r[k].at.line[b]);
      && s.cpu.run[b] + (s.loc.apCount[b] as int - s.at.loop[b]) == Ones(Ahead(s, b))
      && forall i :: 0 <= i < c.n && i != b && s.loc.counted[i] ==>
        w <= Level(s.at.line[i]) <= (if c.needMtrrs then w + 1 else if w == 0 then 3 else 5)
  {
    InvAlways(c, r, k);
    BspLeads(c, r[k], b);
    forall i | 0 <= i < c.n && i != b && r[k].loc.counted[i]
      ensures Waits(r[k].at.line[b]) <= Level(r[k].at.line[i])
        <= (if c.needMtrrs then Waits(r[k].at.line[b]) + 1 else if Waits(r[k].at.line[b]) == 0 then 3 else 5)
    {
      LevelBounds(c, r[k], b, i);
    }
  }

  lemma LevelBounds(c: Config, s: State, b: nat, i: nat)
    requires Shape(c, s, b) && Tokens(c, s, b) && IsWait(s.at.line[b]) && i < c.n && i != b && s.loc.counted[i]
    ensures Waits(s.at.line[b]) <= Level(s.at.line[i])
      <= (if c.needMtrrs then Waits(s.at.line[b]) + 1 else if Waits(s.at.line[b]) == 0 then 3 else 5)
  {
    assert ShapeAp(c, s, b, i) && TokenAp(c, s, b, i);
  }

  /** The assertion of line 815, and more: no semaphore keeps a token once its processor is done. */
  lemma NoTokenLeaks(c: Config, r: seq<State>, k: nat, i: nat)
    requires IsRun(c, r) && k < |r| && i < c.n && (r[k].at.line[i] == OUTSIDE || 814 <= r[k].at.line[i])
    ensures r[k].cpu.run[i] == 0
  {
    InvAlways(c, r, k);
    Whereabouts(c, r[k], i);
    if b: nat :| Led(c, r[k], b) {
      DoneHasNoToken(c, r[k], b, i);
    }
  }

  lemma DoneHasNoToken(c: Config, s: State, b: nat, i: nat)
    requires Shape(c, s, b) && Tokens(c, s, b) && i < c.n && i != b && (s.at.line[i] == OUTSIDE || 814 <= s.at.line[i])
    ensures s.cpu.run[i] == 0
  {
    assert ShapeAp(c, s, b, i) && TokenAp(c, s, b, i);
  }

  /** When everybody has left, mSmmUcData is back in its initial state (Busy locks apart) and the MTRRs of
      every core hold what they held before the round. */
  lemma RoundsAreClean(c: Config, r: seq<State>, k: nat)
    requires IsRun(c, r) && k < |r| && AllOutside(r[k])
    ensures r[k].uc.counter == 0 && r[k].uc.bspIndex == MAX32 && !r[k].uc.insideSmm && !r[k].uc.inSync
    ensures forall i :: 0 <= i < c.n ==> r[k].cpu.run[i] == 0 && !r[k].cpu.present[i]
    ensures r[k].hw.mtrr == r[k].hw.os && r[k].log.posted == r[k].log.executed
  {
    InvAlways(c, r, k);
    forall b: nat ensures !Led(c, r[k], b) {
      assert b < |r[k].at.line| ==> r[k].at.line[b] == OUTSIDE;
    }
    forall i | 0 <= i < c.n && Drain(c, r[k]) ensures !r[k].cpu.present[i] {
      assert DrainCpu(c, r[k], i);
    }
    forall i | 0 <= i < c.n ensures !r[k].cpu.present[i] && !r[k].loc.counted[i] {
      assert GatherCpu(c, r[k], i);
    }
    OnesNone(r[k].loc.counted);
  }

  // ---- nothing is stuck ----

  /** An AP the BSP is waiting for can step. */
  lemma MissingApEnabled(c: Config, s: State, b: nat, i: nat)
    requires Shape(c, s, b) && Tokens(c, s, b) && i < c.n && i != b && s.loc.counted[i] && IsWait(s.at.line[b])
    requires Level(s.at.line[i]) <= Waits(s.at.line[b])
    ensures s.at.line[i] != OUTSIDE && Enabled(s, i)
  {
    assert ShapeAp(c, s, b, i) && TokenAp(c, s, b, i);
  }

  /** So can the AP whose task the BSP is waiting for. */
  lemma TargetEnabled(c: Config, s: State, b: nat)
    requires Shape(c, s, b) && Tokens(c, s, b) && Tasks(c, s, b) && s.at.line[b] == 719 && !Enabled(s, b)
    ensures s.at.line[s.uc.call.cpu] != OUTSIDE && Enabled(s, s.uc.call.cpu)
  {
    assert ShapeAp(c, s, b, s.uc.call.cpu) && TokenAp(c, s, b, s.uc.call.cpu);
  }

  /** A BSP that waits at a barrier waits for an AP that can step. */
  lemma WaitsFor(c: Config, s: State, b: nat) returns (i: nat)
    requires Led(c, s, b) && !Enabled(s, b) && s.at.line[b] != 719
    ensures i < c.n && i != b && s.loc.counted[i] && IsWait(s.at.line[b])
    ensures Level(s.at.line[i]) <= Waits(s.at.line[b]) && s.at.line[i] != OUTSIDE && Enabled(s, i)
  {
    hide TaskBsp, Tasks;
    var others := s.loc.counted[b := false];
    OnesUpdate(s.loc.counted, b, false);
    assert Ahead(s, b) != others;
    i :| 0 <= i < c.n && Ahead(s, b)[i] != others[i];
    MissingApEnabled(c, s, b, i);
  }

  lemma LedNotStuck(c: Config, s: State, b: nat)
    requires Led(c, s, b)
    ensures exists i :: 0 <= i < c.n && s.at.line[i] != OUTSIDE && Enabled(s, i)
  {
    if Enabled(s, b) {
      assert s.at.line[b] != OUTSIDE;
    } else if s.at.line[b] == 719 {
      TargetEnabled(c, s, b);
    } else {
      var i := WaitsFor(c, s, b);
    }
  }

  /** Until everybody has left, some processor inside SMM has an enabled step. */
  lemma NoStateIsStuck(c: Config, r: seq<State>, k: nat)
    requires IsRun(c, r) && k < |r| && !AllOutside(r[k])
    ensures exists i :: 0 <= i < c.n && r[k].at.line[i] != OUTSIDE && Enabled(r[k], i)
  {
    var s := r[k];
    InvAlways(c, r, k);
    if b: nat :| Led(c, s, b) {
      LedNotStuck(c, s, b);
    } else if Gather(c, s) {
      var i :| 0 <= i < c.n && s.at.line[i] != OUTSIDE;
      assert GatherCpu(c, s, i);
      assert Enabled(s, i);
    } else {
      var i :| 0 <= i < c.n && s.at.line[i] != OUTSIDE && (s.uc.inSync ==> s.at.line[i] == 357);
      assert DrainCpu(c, s, i);
      assert Enabled(s, i);
    }
  }

  // ---- MTRRs ----

  lemma AllSaved(c: Config, s: State, b: nat, i: nat, j: nat)
    requires Shape(c, s, b) && Tokens(c, s, b) && i < c.n && j < c.n
    requires IsReplace(s.at.line[i]) && s.loc.counted[i] && s.loc.counted[j]
    ensures SavedTo(c, s, j) == c.Regs() && c.needMtrrs
  {
    if i != b { assert ShapeAp(c, s, b, i) && TokenAp(c, s, b, i); }
    if j != b { assert ShapeAp(c, s, b, j) && TokenAp(c, s, b, j); }
  }

  /** Nobody replaces a register before every participant has backed up all of its own, and each copy holds
      the values from before the round. */
  lemma NobodyReplacesEarly(c: Config, r: seq<State>, k: nat, i: nat, j: nat)
    requires IsRun(c, r) && k < |r| && i < c.n && j < c.n && c.Regs() > 0
    requires IsReplace(r[k].at.line[i]) && r[k].loc.counted[i] && r[k].loc.counted[j]
    ensures r[k].loc.saved[j] == r[k].hw.os[c.core[j]]
  {
    InvAlways(c, r, k);
    Whereabouts(c, r[k], i);
    var b :| Led(c, r[k], b);
    AllSaved(c, r[k], b, i, j);
    assert SavedOk(c, r[k], j);
  }

  lemma CoreProgress(c: Config, s: State, b: nat, j: nat)
    requires Shape(c, s, b) && Tokens(c, s, b) && InCore(s, b) && c.needMtrrs && j < c.n
    ensures RestoredTo(c, s, j) == 0
    ensures s.loc.counted[j] ==> ReplacedTo(c, s, j) == c.Regs()
  {
    if j != b { assert ShapeAp(c, s, b, j) && TokenAp(c, s, b, j); }
  }

  /** While the SMM core runs, every participating core has the SMI values in all its MTRRs. */
  lemma CoreRunsOnSmiMtrrs(c: Config, r: seq<State>, k: nat, b: nat, i: nat)
    requires IsRun(c, r) && k < |r| && InCore(r[k], b) && c.needMtrrs && i < c.n && r[k].loc.counted[i]
    ensures r[k].hw.mtrr[c.core[i]] == c.smi
  {
    var s := r[k];
    InvAlways(c, r, k);
    BspLeads(c, s, b);
    forall q | 0 <= q < c.Regs() ensures s.hw.mtrr[c.core[i]][q] == c.smi[q] {
      assert RegOk(c, s, c.core[i], q);
      forall j | 0 <= j < c.n ensures RestoredTo(c, s, j) == 0 {
        CoreProgress(c, s, b, j);
      }
      CoreProgress(c, s, b, i);
      assert NoneRestored(c, s, c.core[i], q);
    }
  }

  /** When the BSP ends the round, the MTRRs of every core hold what they held before it. */
  lemma MtrrsRestored(c: Config, r: seq<State>, k: nat, b: nat)
    requires IsRun(c, r) && k < |r| && IsBsp(r[k], b) && 349 <= r[k].at.line[b] <= 357
    ensures r[k].hw.mtrr == r[k].hw.os
  {
    InvAlways(c, r, k);
    if r[k].at.line[b] != 357 {
      BspLeads(c, r[k], b);
      AllRestored(c, r[k], b);
    } else {
      BspDrains(c, r[k], b);
    }
  }

  // ---- tasks ----

  /** Whenever no SmmStartupThisAp is in progress, every task it accepted has been executed exactly once, in
      order, by the AP it was meant for, with its procedure and parameter. */
  lemma TasksRunExactlyOnce(c: Config, r: seq<State>, k: nat, b: nat)
    requires IsRun(c, r) && k < |r| && IsBsp(r[k], b) && !IsStartup(r[k].at.line[b])
    ensures r[k].log.executed == r[k].log.posted
  {
    InvAlways(c, r, k);
    if r[k].at.line[b] != 357 { BspLeads(c, r[k], b); } else { BspDrains(c, r[k], b); }
  }

  /** From the moment SmmStartupThisAp accepts a task until the AP has run it, the AP's Busy lock is held. */
  lemma BusyIsHeld(c: Config, r: seq<State>, k: nat)
    requires IsRun(c, r) && k < |r| && r[k].log.posted != r[k].log.executed
    ensures r[k].log.posted == r[k].log.executed + [r[k].uc.call]
    ensures At(r[k].cpu.busy, r[k].uc.call.cpu, Unset) == Acquired
  {
    InvAlways(c, r, k);
    var b :| Led(c, r[k], b);
  }

  lemma WokenIsBusy(c: Config, s: State, b: nat, i: nat)
    requires Shape(c, s, b) && Tasks(c, s, b) && i < c.n && i != b && 474 <= s.at.line[i] <= 487
    ensures s.cpu.busy[i] == Acquired
  {
    assert ShapeAp(c, s, b, i) && TaskAp(c, s, b, i);
  }

  /** The assertion of line 474: an AP that has been woken for a task finds its Busy lock acquired. */
  lemma WokenApIsBusy(c: Config, r: seq<State>, k: nat, i: nat)
    requires IsRun(c, r) && k < |r| && i < c.n && 474 <= r[k].at.line[i] <= 487
    ensures r[k].cpu.busy[i] == Acquired
  {
    InvAlways(c, r, k);
    Whereabouts(c, r[k], i);
    var b :| Led(c, r[k], b);
    WokenIsBusy(c, r[k], b, i);
  }
}
