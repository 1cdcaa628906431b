/** Backing up, replacing and restoring the MTRRs that the threads of a core share. */
module SmmMtrrs {
  import opened SmmState
  import opened SmmInvariant
  import opened SmmApSteps
  import opened SmmBspSteps

  // ---- the barriers keep the three phases apart ----

  predicate IsSave(l: nat) { l == 273 || l == 429 }

  predicate IsReplace(l: nat) { l == 290 || l == 444 }

  predicate IsRestore(l: nat) { l == 337 || l == 505 }

  /** While any participant backs up, none has replaced anything; while any replaces, none has restored. */
  lemma Apart(c: Config, s: State, b: nat, i: nat, j: nat)
    requires Shape(c, s, b) && Tokens(c, s, b) && i < c.n && j < c.n && s.loc.counted[i]
    ensures IsSave(s.at.line[i]) ==> ReplacedTo(c, s, j) == 0
    ensures IsReplace(s.at.line[i]) ==> RestoredTo(c, s, j) == 0
  {
    if i != b { assert ShapeAp(c, s, b, i) && TokenAp(c, s, b, i); }
    if j != b { assert ShapeAp(c, s, b, j) && TokenAp(c, s, b, j); }
  }

  // ---- what the steps do to the registers ----

  ghost predicate SameProgress(c: Config, s: State, s': State, j: nat)
    requires Typed(c, s) && Typed(c, s') && j < c.n
  {
    && SavedTo(c, s', j) == SavedTo(c, s, j)
    && ReplacedTo(c, s', j) == ReplacedTo(c, s, j)
    && RestoredTo(c, s', j) == RestoredTo(c, s, j)
  }

  /** A step of processor i that accesses no MTRR. */
  lemma NoAccess(c: Config, s: State, s': State, i: nat)
    requires Mtrrs(c, s) && Typed(c, s') && s'.hw == s.hw && i < c.n
    requires SameBut(s.at.line, s'.at.line, i) && SameBut(s.at.loop, s'.at.loop, i)
    requires SameBut(s.loc.counted, s'.loc.counted, i) && SameBut(s.loc.saved, s'.loc.saved, i)
    requires SameProgress(c, s, s', i)
    requires if IsSave(s'.at.line[i]) then SavedTo(c, s', i) == 0 && s'.loc.saved[i] == []
             else s'.loc.saved[i] == s.loc.saved[i]
    ensures Mtrrs(c, s')
  {
    forall j | 0 <= j < c.n ensures SavedOk(c, s', j) && SameProgress(c, s, s', j) {
      assert SavedOk(c, s, j);
    }
    forall x, r | 0 <= x < c.cores && 0 <= r < c.Regs() ensures RegOk(c, s', x, r) {
      assert RegOk(c, s, x, r);
      forall j | 0 <= j < c.n
        ensures ReplacedTo(c, s', j) == ReplacedTo(c, s, j) && RestoredTo(c, s', j) == RestoredTo(c, s, j)
      {
        assert SameProgress(c, s, s', j);
      }
      assert NoneReplaced(c, s', x, r) == NoneReplaced(c, s, x, r);
      assert NoneRestored(c, s', x, r) == NoneRestored(c, s, x, r);
    }
  }

  /** Processor i accesses register k; everybody else stays where it is. */
  ghost predicate Accesses(c: Config, s: State, s': State, i: nat, k: nat)
    requires Typed(c, s) && Typed(c, s') && i < c.n
  {
    && SameBut(s.at.line, s'.at.line, i) && SameBut(s.at.loop, s'.at.loop, i) && s'.loc.counted == s.loc.counted
    && s'.at.line[i] == s.at.line[i] && s.at.loop[i] == k && s'.at.loop[i] == k + 1
    && c.needMtrrs && k < c.Regs() && s.loc.counted[i] && s'.hw.os == s.hw.os
  }

  lemma SaveAccess(c: Config, s: State, s': State, i: nat, k: nat)
    requires Mtrrs(c, s) && Typed(c, s') && i < c.n && Accesses(c, s, s', i, k) && IsSave(s.at.line[i])
    requires forall j :: 0 <= j < c.n ==> ReplacedTo(c, s, j) == 0
    requires s'.hw == s.hw && s'.loc.saved == s.loc.saved[i := s.loc.saved[i] + [s.hw.mtrr[c.core[i]][k]]]
    ensures Mtrrs(c, s')
  {
    assert RegOk(c, s, c.core[i], k);
    forall j | 0 <= j < c.n ensures SavedOk(c, s', j) {
      assert SavedOk(c, s, j);
    }
    forall x, r | 0 <= x < c.cores && 0 <= r < c.Regs() ensures RegOk(c, s', x, r) {
      assert RegOk(c, s, x, r);
      assert forall j :: 0 <= j < c.n ==> ReplacedTo(c, s', j) == ReplacedTo(c, s, j);
      assert NoneReplaced(c, s', x, r) && NoneReplaced(c, s, x, r);
    }
  }

  lemma ReplaceAccess(c: Config, s: State, s': State, i: nat, k: nat)
    requires Mtrrs(c, s) && Typed(c, s') && i < c.n && Accesses(c, s, s', i, k) && IsReplace(s.at.line[i])
    requires forall j :: 0 <= j < c.n ==> RestoredTo(c, s, j) == 0
    requires s'.hw.mtrr == WriteMtrr(c, s.hw.mtrr, i, k, c.smi[k]) && s'.loc.saved == s.loc.saved
    ensures Mtrrs(c, s')
  {
    forall j | 0 <= j < c.n ensures SavedOk(c, s', j) {
      assert SavedOk(c, s, j);
    }
    forall x, r | 0 <= x < c.cores && 0 <= r < c.Regs() ensures RegOk(c, s', x, r) {
      assert RegOk(c, s, x, r);
      assert forall j :: 0 <= j < c.n && j != i ==> SameProgress(c, s, s', j);
      assert RestoredTo(c, s', i) == 0;
      assert NoneRestored(c, s', x, r) && NoneRestored(c, s, x, r);
      if x == c.core[i] && r == k {
        assert ReplacedTo(c, s', i) == k + 1;
      } else {
        assert NoneReplaced(c, s', x, r) == NoneReplaced(c, s, x, r);
      }
    }
  }

  lemma RestoreAccess(c: Config, s: State, s': State, i: nat, k: nat)
    requires Mtrrs(c, s) && Typed(c, s') && i < c.n && Accesses(c, s, s', i, k) && IsRestore(s.at.line[i])
    requires s'.hw.mtrr == WriteMtrr(c, s.hw.mtrr, i, k, At(s.loc.saved[i], k, 0)) && s'.loc.saved == s.loc.saved
    ensures Mtrrs(c, s')
  {
    forall j | 0 <= j < c.n ensures SavedOk(c, s', j) {
      assert SavedOk(c, s, j);
    }
    assert SavedOk(c, s, i);
    assert s'.hw.mtrr[c.core[i]][k] == s.hw.os[c.core[i]][k];
    forall x, r | 0 <= x < c.cores && 0 <= r < c.Regs() ensures RegOk(c, s', x, r) {
      assert RegOk(c, s, x, r);
      assert forall j :: 0 <= j < c.n && j != i ==> SameProgress(c, s, s', j);
      assert ReplacedTo(c, s', i) == ReplacedTo(c, s, i);
      assert NoneReplaced(c, s', x, r) == NoneReplaced(c, s, x, r);
      if x == c.core[i] && r == k {
        assert RestoredTo(c, s', i) == k + 1;
      } else {
        assert NoneRestored(c, s', x, r) == NoneRestored(c, s, x, r);
      }
    }
  }

  // ---- the steps ----

  /** Is the next step of processor i an MTRR access? */
  predicate IsAccess(c: Config, s: State, i: nat)
    requires i < |s.at.line| && i < |s.at.loop|
  {
    (IsSave(s.at.line[i]) || IsReplace(s.at.line[i]) || IsRestore(s.at.line[i])) && s.at.loop[i] < c.Regs()
  }

  lemma AccessFrame(c: Config, s: State, b: nat, i: nat, ch: Choice)
    requires Shape(c, s, b) && i < c.n && IsAccess(c, s, i)
    ensures Accesses(c, s, Step(c, s, i, ch), i, s.at.loop[i])
  {
    hide Ahead, Goto;
    if i != b { assert ShapeAp(c, s, b, i); }
  }

  lemma AccessStep(c: Config, s: State, b: nat, i: nat, ch: Choice)
    requires Led(c, s, b) && i < c.n && IsAccess(c, s, i)
    ensures Mtrrs(c, Step(c, s, i, ch))
  {
    var s' := Step(c, s, i, ch);
    AccessFrame(c, s, b, i, ch);
    forall j | 0 <= j < c.n
      ensures IsSave(s.at.line[i]) ==> ReplacedTo(c, s, j) == 0
      ensures IsReplace(s.at.line[i]) ==> RestoredTo(c, s, j) == 0
    {
      Apart(c, s, b, i, j);
    }
    if IsSave(s.at.line[i]) {
      SaveAccess(c, s, s', i, s.at.loop[i]);
    } else if IsReplace(s.at.line[i]) {
      ReplaceAccess(c, s, s', i, s.at.loop[i]);
    } else {
      RestoreAccess(c, s, s', i, s.at.loop[i]);
    }
  }

  lemma TaskOther(c: Config, s: State, b: nat, i: nat)
    requires Led(c, s, b) && i < c.n && i != b && InTask(s.at.line[i])
    ensures Mtrrs(c, StepTask(c, s, i))
  {
    TaskFrame(c, s, b, i);
    assert ShapeAp(c, s, b, i);
    NoAccess(c, s, StepTask(c, s, i), i);
  }

  lemma ArriveOther(c: Config, s: State, b: nat, i: nat)
    requires Led(c, s, b) && i < c.n && i != b && InArrive(s.at.line[i]) && !IsAccess(c, s, i)
    ensures Mtrrs(c, StepArrive(c, s, i))
  {
    ArriveFrame(c, s, b, i);
    assert ShapeAp(c, s, b, i);
    NoAccess(c, s, StepArrive(c, s, i), i);
  }

  lemma DepartOther(c: Config, s: State, b: nat, i: nat)
    requires Led(c, s, b) && i < c.n && i != b && InDepart(s.at.line[i]) && !IsAccess(c, s, i)
    ensures Mtrrs(c, StepDepart(c, s, i))
  {
    DepartFrame(c, s, b, i);
    assert ShapeAp(c, s, b, i);
    NoAccess(c, s, StepDepart(c, s, i), i);
  }

  lemma RendezvousProgress(c: Config, s: State, b: nat, i: nat)
    requires Shape(c, s, b) && Tokens(c, s, b) && i < c.n && i != b && InRendezvous(s.at.line[i]) && Enabled(s, i)
    ensures var s' := StepRendezvous(c, s, i);
      SameProgress(c, s, s', i) && s'.hw == s.hw && s'.loc.saved == s.loc.saved && !IsSave(s'.at.line[i])
  {
    hide Ahead, TokenBsp;
    assert ShapeAp(c, s, b, i) && TokenAp(c, s, b, i);
  }

  lemma RendezvousOther(c: Config, s: State, b: nat, i: nat)
    requires Led(c, s, b) && i < c.n && i != b && InRendezvous(s.at.line[i]) && Enabled(s, i)
    ensures Mtrrs(c, StepRendezvous(c, s, i))
  {
    RendezvousFrame(c, s, b, i);
    RendezvousProgress(c, s, b, i);
    hide Enabled, Mtrrs, RestoredTo, ReplacedTo, SavedTo, Shape, StepRendezvous, Tasks, Tokens;
    NoAccess(c, s, StepRendezvous(c, s, i), i);
  }

  lemma ApMtrrs(c: Config, s: State, b: nat, i: nat, ch: Choice)
    requires Led(c, s, b) && i < c.n && i != b && Enabled(s, i)
    ensures Mtrrs(c, Step(c, s, i, ch))
  {
    hide ShapeBsp, Tokens;
    assert ShapeAp(c, s, b, i);
    if IsAccess(c, s, i) {
      AccessStep(c, s, b, i, ch);
    } else if InRendezvous(s.at.line[i]) {
      RendezvousOther(c, s, b, i);
    } else if InTask(s.at.line[i]) {
      TaskOther(c, s, b, i);
    } else if InArrive(s.at.line[i]) {
      ArriveOther(c, s, b, i);
    } else {
      DepartOther(c, s, b, i);
    }
  }

  lemma BspOther(c: Config, s: State, b: nat, ch: Choice)
    requires Led(c, s, b) && !InBarrier(s.at.line[b]) && !InStartup(s.at.line[b]) && s.at.line[b] != 352
    requires BspFrame(s, Step(c, s, b, ch), b)
    ensures Mtrrs(c, Step(c, s, b, ch))
  {
    hide Ahead, StepStartup, Tasks, TokenBsp, Tokens;
    NoAccess(c, s, Step(c, s, b, ch), b);
  }

  /** What NoAccess asks of processor b itself. */
  ghost predicate NoProgress(c: Config, s: State, s': State, b: nat)
    requires Typed(c, s) && Typed(c, s') && b < c.n
  {
    && s'.hw == s.hw && SameProgress(c, s, s', b)
    && (if IsSave(s'.at.line[b]) then SavedTo(c, s', b) == 0 && s'.loc.saved[b] == []
        else s'.loc.saved[b] == s.loc.saved[b])
  }

  lemma WaitProgress(c: Config, s: State, b: nat)
    requires Shape(c, s, b) && IsWait(s.at.line[b])
    ensures NoProgress(c, s, StepBarrier(c, s, b), b)
  {
  }

  lemma BarrierProgress(c: Config, s: State, b: nat)
    requires Shape(c, s, b) && !IsAccess(c, s, b) && InBarrier(s.at.line[b])
    ensures NoProgress(c, s, StepBarrier(c, s, b), b)
  {
    if IsWait(s.at.line[b]) {
      WaitProgress(c, s, b);
    } else {
      hide AfterWait, ShapeAp, Take, WriteMtrr;
      assert NoProgress(c, s, StepBarrier(c, s, b), b);
    }
  }

  lemma BarrierOther(c: Config, s: State, b: nat)
    requires Led(c, s, b) && !IsAccess(c, s, b) && InBarrier(s.at.line[b])
    requires BspFrame(s, StepBarrier(c, s, b), b)
    ensures Mtrrs(c, StepBarrier(c, s, b))
  {
    BarrierProgress(c, s, b);
    NoAccess(c, s, StepBarrier(c, s, b), b);
  }

  lemma StartupOther(c: Config, s: State, b: nat, ch: Choice)
    requires Led(c, s, b) && InStartup(s.at.line[b])
    ensures Mtrrs(c, StepStartup(c, s, b, ch))
  {
    StartupFrames(c, s, b, ch);
    NoAccess(c, s, StepStartup(c, s, b, ch), b);
  }
}
