/** A step of an AP, or of a late processor, while b leads keeps the invariant. */
module SmmApSteps {
  import opened Counting
  import opened SmmState
  import opened SmmInvariant

  ghost predicate SameBut<T>(a: seq<T>, a': seq<T>, i: nat) {
    |a'| == |a| && forall j :: 0 <= j < |a| && j != i ==> a'[j] == a[j]
  }

  /** What a step of processor i leaves alone: everybody but itself, and of the BSP everything but Run. */
  ghost predicate ApFrame(s: State, s': State, b: nat, i: nat) {
    && SameBut(s.at.line, s'.at.line, i) && SameBut(s.at.loop, s'.at.loop, i)
    && SameBut(s.loc.counted, s'.loc.counted, i) && SameBut(s.loc.bsp, s'.loc.bsp, i)
    && SameBut(s.loc.saved, s'.loc.saved, i) && s'.loc.apCount == s.loc.apCount
    && SameBut(s.cpu.present, s'.cpu.present, i) && SameBut(s.cpu.busy, s'.cpu.busy, i)
    && |s'.cpu.run| == |s.cpu.run|
    && (forall j :: 0 <= j < |s.cpu.run| && j != i && j != b ==> s'.cpu.run[j] == s.cpu.run[j])
    && s'.cpu.procedure == s.cpu.procedure && s'.cpu.parameter == s.cpu.parameter
    && s'.uc == s.uc.(counter := s'.uc.counter)
    && s'.hw.os == s.hw.os && s'.log.posted == s.log.posted
  }

  lemma ApOthers(c: Config, s: State, s': State, b: nat, i: nat)
    requires Shape(c, s, b) && Tokens(c, s, b) && Tasks(c, s, b) && i < c.n && i != b
    requires Typed(c, s') && ApFrame(s, s', b, i)
    requires ShapeBsp(c, s', b) && TokenBsp(c, s', b) && TaskBsp(c, s', b)
    requires ShapeAp(c, s', b, i) && TokenAp(c, s', b, i) && TaskAp(c, s', b, i)
    ensures Shape(c, s', b) && Tokens(c, s', b) && Tasks(c, s', b)
  {
    forall j | 0 <= j < c.n && j != b
      ensures ShapeAp(c, s', b, j) && TokenAp(c, s', b, j) && TaskAp(c, s', b, j)
    {
      assert ShapeAp(c, s, b, j) && TokenAp(c, s, b, j) && TaskAp(c, s, b, j);
    }
  }

  /** Signalling a barrier moves exactly one AP ahead; the token pays for it. */
  lemma ApSignal(c: Config, s: State, s': State, b: nat, i: nat)
    requires Shape(c, s, b) && Tokens(c, s, b) && i < c.n && i != b && Typed(c, s') && ApFrame(s, s', b, i)
    requires s'.loc.counted == s.loc.counted && s.loc.counted[i]
    requires Level(s.at.line[i]) == Waits(s.at.line[b]) < Level(s'.at.line[i])
    requires s'.cpu.run == Post(s.cpu.run, b)
    ensures TokenBsp(c, s', b)
  {
    hide ShapeAp, TokenAp;
    assert Ahead(s', b) == Ahead(s, b)[i := true];
    OnesUpdate(Ahead(s, b), i, true);
    OnesBound(Ahead(s, b));
  }

  /** Every other step leaves the APs that are ahead as they were. */
  lemma ApNoSignal(c: Config, s: State, s': State, b: nat, i: nat)
    requires Tokens(c, s, b) && i < c.n && i != b && Typed(c, s') && ApFrame(s, s', b, i)
    requires IsAhead(s', b, i) == IsAhead(s, b, i) && s'.cpu.run[b] == s.cpu.run[b]
    ensures TokenBsp(c, s', b)
  {
    assert Ahead(s', b) == Ahead(s, b);
  }

  /** A step of an AP that is not in the work loop is none of SmmStartupThisAp's business. */
  lemma ApNoTask(c: Config, s: State, s': State, b: nat, i: nat)
    requires Tasks(c, s, b) && i < c.n && i != b && Typed(c, s') && ApFrame(s, s', b, i)
    requires s'.log == s.log && s'.cpu.busy == s.cpu.busy
    requires s.loc.counted[i] ==> s'.loc.counted[i] && s'.cpu.present[i] == s.cpu.present[i]
    requires !(461 <= s.at.line[i] <= 487)
    ensures TaskBsp(c, s', b)
  {
  }

  lemma BspUntouched(c: Config, s: State, s': State, b: nat, i: nat)
    requires Shape(c, s, b) && i < c.n && i != b && Typed(c, s') && ApFrame(s, s', b, i)
    requires s'.loc.counted == s.loc.counted && s'.uc.counter == s.uc.counter
    ensures ShapeBsp(c, s', b)
  {
  }

  // ---- the work loop ----

  lemma TaskFrame(c: Config, s: State, b: nat, i: nat)
    requires c.Valid() && Typed(c, s) && b < c.n && i < c.n && i != b && InTask(s.at.line[i])
    ensures ApFrame(s, StepTask(c, s, i), b, i)
  {
  }

  lemma TaskShapeAp(c: Config, s: State, b: nat, i: nat)
    requires Shape(c, s, b) && Tokens(c, s, b) && i < c.n && i != b && InTask(s.at.line[i]) && Enabled(s, i)
    ensures ShapeAp(c, StepTask(c, s, i), b, i)
    ensures StepTask(c, s, i).loc.counted == s.loc.counted && StepTask(c, s, i).uc.counter == s.uc.counter
  {
    hide Ahead, ShapeBsp, TokenBsp;
    assert ShapeAp(c, s, b, i) && TokenAp(c, s, b, i);
  }

  lemma TaskShape(c: Config, s: State, b: nat, i: nat)
    requires Shape(c, s, b) && Tokens(c, s, b) && i < c.n && i != b && InTask(s.at.line[i]) && Enabled(s, i)
    ensures ShapeBsp(c, StepTask(c, s, i), b) && ShapeAp(c, StepTask(c, s, i), b, i)
  {
    TaskShapeAp(c, s, b, i);
    TaskFrame(c, s, b, i);
    hide StepTask, ShapeAp, ShapeBsp, Tokens, Enabled;
    BspUntouched(c, s, StepTask(c, s, i), b, i);
  }

  lemma TaskToken(c: Config, s: State, b: nat, i: nat)
    requires Shape(c, s, b) && Tokens(c, s, b) && Tasks(c, s, b) && i < c.n && i != b
    requires InTask(s.at.line[i]) && Enabled(s, i)
    ensures TokenAp(c, StepTask(c, s, i), b, i)
  {
    hide Ahead, BspLine, TaskBsp;
    assert ShapeAp(c, s, b, i) && TokenAp(c, s, b, i) && TaskAp(c, s, b, i);
  }

  lemma TaskTokens(c: Config, s: State, b: nat, i: nat)
    requires Shape(c, s, b) && Tokens(c, s, b) && Tasks(c, s, b) && i < c.n && i != b
    requires InTask(s.at.line[i]) && Enabled(s, i)
    ensures TokenAp(c, StepTask(c, s, i), b, i) && TokenBsp(c, StepTask(c, s, i), b)
  {
    TaskToken(c, s, b, i);
    assert ShapeAp(c, s, b, i);
    TaskFrame(c, s, b, i);
    ApNoSignal(c, s, StepTask(c, s, i), b, i);
  }

  /** An AP is woken for a procedure, or to leave. */
  lemma WokenFor(c: Config, s: State, b: nat, i: nat)
    requires Shape(c, s, b) && Tokens(c, s, b) && i < c.n && i != b && s.at.line[i] == 461 && s.cpu.run[i] > 0
    ensures HasTaskToken(s, b, i) || !s.uc.insideSmm
  {
    hide Ahead, TokenBsp;
    assert ShapeAp(c, s, b, i) && TokenAp(c, s, b, i);
  }

  /** Waiting: lines 455 and 461. */
  lemma WaitTasks(c: Config, s: State, b: nat, i: nat)
    requires Shape(c, s, b) && Tasks(c, s, b) && i < c.n && i != b && 455 <= s.at.line[i] <= 461
    requires s.at.line[i] == 461 ==> HasTaskToken(s, b, i) || !s.uc.insideSmm
    ensures TaskBsp(c, StepTask(c, s, i), b) && TaskAp(c, StepTask(c, s, i), b, i)
  {
    assert ShapeAp(c, s, b, i) && TaskAp(c, s, b, i);
  }

  /** Running it: lines 466 to 487. */
  lemma RunTasks(c: Config, s: State, b: nat, i: nat)
    requires Shape(c, s, b) && Tasks(c, s, b) && i < c.n && i != b && 466 <= s.at.line[i] <= 487
    ensures TaskBsp(c, StepTask(c, s, i), b) && TaskAp(c, StepTask(c, s, i), b, i)
  {
    assert ShapeAp(c, s, b, i) && TaskAp(c, s, b, i);
  }

  lemma TaskTasks(c: Config, s: State, b: nat, i: nat)
    requires Shape(c, s, b) && Tokens(c, s, b) && Tasks(c, s, b) && i < c.n && i != b
    requires InTask(s.at.line[i]) && Enabled(s, i)
    ensures TaskBsp(c, StepTask(c, s, i), b) && TaskAp(c, StepTask(c, s, i), b, i)
  {
    assert ShapeAp(c, s, b, i);
    if s.at.line[i] == 461 { WokenFor(c, s, b, i); }
    hide TaskBsp, TaskAp, Tokens, ShapeBsp, StepTask, Enabled;
    if s.at.line[i] <= 461 { WaitTasks(c, s, b, i); } else { RunTasks(c, s, b, i); }
  }

  // ---- barriers and MTRR accesses ----

  predicate IsSignal(l: nat) { l == 418 || l == 434 || l == 449 || l == 493 || l == 510 }

  lemma ArriveFrame(c: Config, s: State, b: nat, i: nat)
    requires Shape(c, s, b) && Tokens(c, s, b) && i < c.n && i != b && InArrive(s.at.line[i])
    ensures ApFrame(s, StepArrive(c, s, i), b, i)
  {
    hide Ahead, ShapeBsp;
    assert ShapeAp(c, s, b, i) && TokenAp(c, s, b, i);
  }

  lemma ArriveShapeAp(c: Config, s: State, b: nat, i: nat)
    requires Shape(c, s, b) && Tokens(c, s, b) && i < c.n && i != b && InArrive(s.at.line[i]) && Enabled(s, i)
    ensures ShapeAp(c, StepArrive(c, s, i), b, i)
    ensures StepArrive(c, s, i).loc.counted == s.loc.counted && StepArrive(c, s, i).uc.counter == s.uc.counter
  {
    hide Ahead, TokenBsp;
    assert ShapeAp(c, s, b, i) && TokenAp(c, s, b, i);
  }

  lemma ArriveShape(c: Config, s: State, b: nat, i: nat)
    requires Shape(c, s, b) && Tokens(c, s, b) && i < c.n && i != b && InArrive(s.at.line[i]) && Enabled(s, i)
    ensures ShapeBsp(c, StepArrive(c, s, i), b) && ShapeAp(c, StepArrive(c, s, i), b, i)
  {
    ArriveShapeAp(c, s, b, i);
    ArriveFrame(c, s, b, i);
    hide StepArrive, ShapeAp, ShapeBsp, Tokens, Enabled;
    BspUntouched(c, s, StepArrive(c, s, i), b, i);
  }

  /** A signal goes to the elected BSP, and it belongs to the barrier the BSP has reached. */
  lemma ArriveSignals(c: Config, s: State, b: nat, i: nat)
    requires Shape(c, s, b) && Tokens(c, s, b) && i < c.n && i != b && s.loc.counted[i] && InArrive(s.at.line[i])
      && IsSignal(s.at.line[i])
    ensures Level(s.at.line[i]) == Waits(s.at.line[b])
    ensures Level(s.at.line[i]) < Level(StepArrive(c, s, i).at.line[i])
    ensures StepArrive(c, s, i).cpu.run == Post(s.cpu.run, b)
  {
    assert ShapeAp(c, s, b, i) && TokenAp(c, s, b, i);
  }

  lemma ArriveTokens(c: Config, s: State, b: nat, i: nat)
    requires Shape(c, s, b) && Tokens(c, s, b) && i < c.n && i != b && InArrive(s.at.line[i]) && Enabled(s, i)
    ensures TokenAp(c, StepArrive(c, s, i), b, i) && TokenBsp(c, StepArrive(c, s, i), b)
  {
    hide Ahead, IsStartup, ShapeBsp, TokenBsp, WriteMtrr;
    assert ShapeAp(c, s, b, i) && TokenAp(c, s, b, i);
    ArriveFrame(c, s, b, i);
    if IsSignal(s.at.line[i]) {
      ArriveSignals(c, s, b, i);
      ApSignal(c, s, StepArrive(c, s, i), b, i);
    } else {
      ApNoSignal(c, s, StepArrive(c, s, i), b, i);
    }
  }

  lemma ArriveTasks(c: Config, s: State, b: nat, i: nat)
    requires Shape(c, s, b) && Tokens(c, s, b) && Tasks(c, s, b) && i < c.n && i != b && InArrive(s.at.line[i])
    ensures TaskBsp(c, StepArrive(c, s, i), b) && TaskAp(c, StepArrive(c, s, i), b, i)
  {
    hide Ahead, BspLine, Inside, TaskBsp, Tokens;
    assert ShapeAp(c, s, b, i);
    ArriveFrame(c, s, b, i);
    ApNoTask(c, s, StepArrive(c, s, i), b, i);
  }

  lemma DepartFrame(c: Config, s: State, b: nat, i: nat)
    requires Shape(c, s, b) && Tokens(c, s, b) && i < c.n && i != b && InDepart(s.at.line[i])
    ensures ApFrame(s, StepDepart(c, s, i), b, i)
  {
    assert ShapeAp(c, s, b, i) && TokenAp(c, s, b, i);
  }

  lemma DepartShapeAp(c: Config, s: State, b: nat, i: nat)
    requires Shape(c, s, b) && Tokens(c, s, b) && i < c.n && i != b && InDepart(s.at.line[i]) && Enabled(s, i)
    ensures ShapeAp(c, StepDepart(c, s, i), b, i)
    ensures StepDepart(c, s, i).loc.counted == s.loc.counted && StepDepart(c, s, i).uc.counter == s.uc.counter
  {
    hide Ahead, ShapeBsp, TokenBsp;
    assert ShapeAp(c, s, b, i) && TokenAp(c, s, b, i);
  }

  lemma DepartShape(c: Config, s: State, b: nat, i: nat)
    requires Shape(c, s, b) && Tokens(c, s, b) && i < c.n && i != b && InDepart(s.at.line[i]) && Enabled(s, i)
    ensures ShapeBsp(c, StepDepart(c, s, i), b) && ShapeAp(c, StepDepart(c, s, i), b, i)
  {
    DepartShapeAp(c, s, b, i);
    DepartFrame(c, s, b, i);
    hide StepDepart, ShapeAp, ShapeBsp, Tokens, Enabled;
    BspUntouched(c, s, StepDepart(c, s, i), b, i);
  }

  /** A signal goes to the elected BSP, and it belongs to the barrier the BSP has reached. */
  lemma DepartSignals(c: Config, s: State, b: nat, i: nat)
    requires Shape(c, s, b) && Tokens(c, s, b) && i < c.n && i != b && s.loc.counted[i] && InDepart(s.at.line[i])
      && IsSignal(s.at.line[i])
    ensures Level(s.at.line[i]) == Waits(s.at.line[b])
    ensures Level(s.at.line[i]) < Level(StepDepart(c, s, i).at.line[i])
    ensures StepDepart(c, s, i).cpu.run == Post(s.cpu.run, b)
  {
    assert ShapeAp(c, s, b, i) && TokenAp(c, s, b, i);
  }

  lemma DepartTokens(c: Config, s: State, b: nat, i: nat)
    requires Shape(c, s, b) && Tokens(c, s, b) && i < c.n && i != b && InDepart(s.at.line[i]) && Enabled(s, i)
    ensures TokenAp(c, StepDepart(c, s, i), b, i) && TokenBsp(c, StepDepart(c, s, i), b)
  {
    hide Ahead, ShapeBsp, TokenBsp, WriteMtrr;
    assert ShapeAp(c, s, b, i) && TokenAp(c, s, b, i);
    DepartFrame(c, s, b, i);
    if IsSignal(s.at.line[i]) {
      DepartSignals(c, s, b, i);
      ApSignal(c, s, StepDepart(c, s, i), b, i);
    } else {
      ApNoSignal(c, s, StepDepart(c, s, i), b, i);
    }
  }

  lemma DepartTasks(c: Config, s: State, b: nat, i: nat)
    requires Shape(c, s, b) && Tokens(c, s, b) && Tasks(c, s, b) && i < c.n && i != b && InDepart(s.at.line[i])
    ensures TaskBsp(c, StepDepart(c, s, i), b) && TaskAp(c, StepDepart(c, s, i), b, i)
  {
    hide ShapeBsp, TaskBsp, Tokens;
    assert ShapeAp(c, s, b, i) && TaskAp(c, s, b, i);
    DepartFrame(c, s, b, i);
    ApNoTask(c, s, StepDepart(c, s, i), b, i);
  }

  // ---- entering and leaving ----

  lemma RendezvousFrame(c: Config, s: State, b: nat, i: nat)
    requires Shape(c, s, b) && Tokens(c, s, b) && i < c.n && i != b && InRendezvous(s.at.line[i])
    ensures ApFrame(s, StepRendezvous(c, s, i), b, i)
  {
    assert ShapeAp(c, s, b, i) && TokenAp(c, s, b, i);
  }

  lemma EnterShape(c: Config, s: State, b: nat, i: nat)
    requires Shape(c, s, b) && i < c.n && i != b && s.at.line[i] == OUTSIDE && Enabled(s, i)
    ensures ShapeBsp(c, StepRendezvous(c, s, i), b) && ShapeAp(c, StepRendezvous(c, s, i), b, i)
  {
    assert ShapeAp(c, s, b, i);
    OnesUpdate(s.loc.counted, i, true);
    OnesBound(s.loc.counted);
  }

  /** No participant can pass line 821. */
  lemma OnlyOthersPass(c: Config, s: State, b: nat, i: nat)
    requires Shape(c, s, b) && Tokens(c, s, b) && i < c.n && i != b && s.at.line[i] == 821 && Enabled(s, i)
    ensures !s.loc.counted[i]
  {
    hide Ahead, TokenBsp;
    assert ShapeAp(c, s, b, i) && TokenAp(c, s, b, i);
  }

  lemma LeaveShape(c: Config, s: State, b: nat, i: nat)
    requires Shape(c, s, b) && Tokens(c, s, b) && i < c.n && i != b && 752 <= s.at.line[i] && Enabled(s, i)
    ensures ShapeAp(c, StepRendezvous(c, s, i), b, i)
    ensures var s' := StepRendezvous(c, s, i); s'.loc.counted == s.loc.counted && s'.uc.counter == s.uc.counter
  {
    if s.at.line[i] == 821 { OnlyOthersPass(c, s, b, i); }
    hide Ahead, Enabled, TokenBsp;
    assert ShapeAp(c, s, b, i) && TokenAp(c, s, b, i);
  }

  lemma RendezvousShape(c: Config, s: State, b: nat, i: nat)
    requires Shape(c, s, b) && Tokens(c, s, b) && i < c.n && i != b && InRendezvous(s.at.line[i]) && Enabled(s, i)
    ensures ShapeBsp(c, StepRendezvous(c, s, i), b) && ShapeAp(c, StepRendezvous(c, s, i), b, i)
  {
    if s.at.line[i] == OUTSIDE {
      EnterShape(c, s, b, i);
    } else {
      LeaveShape(c, s, b, i);
      RendezvousFrame(c, s, b, i);
      hide StepRendezvous, ShapeAp, ShapeBsp, Tokens, Enabled;
      BspUntouched(c, s, StepRendezvous(c, s, i), b, i);
    }
  }

  ghost predicate NoToken(c: Config, s: State, s': State, b: nat, i: nat)
    requires Typed(c, s) && Typed(c, s') && b < c.n && i < c.n
  {
    TokenAp(c, s', b, i) && IsAhead(s', b, i) == IsAhead(s, b, i) && s'.cpu.run == s.cpu.run
  }

  lemma EnterToken(c: Config, s: State, b: nat, i: nat)
    requires Shape(c, s, b) && i < c.n && i != b && s.at.line[i] == OUTSIDE
    ensures NoToken(c, s, StepRendezvous(c, s, i), b, i)
  {
    assert ShapeAp(c, s, b, i);
  }

  lemma ElectToken(c: Config, s: State, b: nat, i: nat)
    requires Shape(c, s, b) && Tokens(c, s, b) && i < c.n && i != b && 752 <= s.at.line[i] <= 790
    ensures NoToken(c, s, StepRendezvous(c, s, i), b, i)
  {
    hide Ahead, TokenBsp;
    assert ShapeAp(c, s, b, i) && TokenAp(c, s, b, i);
  }

  lemma LeaveToken(c: Config, s: State, b: nat, i: nat)
    requires Shape(c, s, b) && Tokens(c, s, b) && i < c.n && i != b && 790 < s.at.line[i] && Enabled(s, i)
    ensures NoToken(c, s, StepRendezvous(c, s, i), b, i)
  {
    if s.at.line[i] == 821 { OnlyOthersPass(c, s, b, i); }
    hide Ahead, Enabled, TokenBsp;
    assert ShapeAp(c, s, b, i) && TokenAp(c, s, b, i);
  }

  lemma RendezvousToken(c: Config, s: State, b: nat, i: nat)
    requires Shape(c, s, b) && Tokens(c, s, b) && i < c.n && i != b && InRendezvous(s.at.line[i]) && Enabled(s, i)
    ensures NoToken(c, s, StepRendezvous(c, s, i), b, i)
  {
    hide Enabled, NoToken, ShapeAp, ShapeBsp, StepRendezvous, Tokens;
    if s.at.line[i] == OUTSIDE {
      EnterToken(c, s, b, i);
    } else if s.at.line[i] <= 790 {
      ElectToken(c, s, b, i);
    } else {
      LeaveToken(c, s, b, i);
    }
  }

  lemma RendezvousTokens(c: Config, s: State, b: nat, i: nat)
    requires Shape(c, s, b) && Tokens(c, s, b) && i < c.n && i != b && InRendezvous(s.at.line[i]) && Enabled(s, i)
    ensures TokenAp(c, StepRendezvous(c, s, i), b, i) && TokenBsp(c, StepRendezvous(c, s, i), b)
  {
    RendezvousToken(c, s, b, i);
    RendezvousFrame(c, s, b, i);
    hide Ahead, Enabled, Level, ShapeAp, ShapeBsp, StepRendezvous, TokenAp, TokenBsp, Waits;
    ApNoSignal(c, s, StepRendezvous(c, s, i), b, i);
  }

  lemma RendezvousTasks(c: Config, s: State, b: nat, i: nat)
    requires Shape(c, s, b) && Tokens(c, s, b) && Tasks(c, s, b) && i < c.n && i != b
    requires InRendezvous(s.at.line[i]) && Enabled(s, i)
    ensures TaskBsp(c, StepRendezvous(c, s, i), b) && TaskAp(c, StepRendezvous(c, s, i), b, i)
  {
    assert ShapeAp(c, s, b, i) && TokenAp(c, s, b, i);
  }

  lemma ApStep(c: Config, s: State, b: nat, i: nat, ch: Choice)
    requires Shape(c, s, b) && Tokens(c, s, b) && Tasks(c, s, b) && i < c.n && i != b && Enabled(s, i)
    ensures var s' := Step(c, s, i, ch);
      ApFrame(s, s', b, i) && Shape(c, s', b) && Tokens(c, s', b) && Tasks(c, s', b)
  {
    hide ShapeBsp, TaskBsp, Tokens;
    assert ShapeAp(c, s, b, i);
    var s' := Step(c, s, i, ch);
    if InRendezvous(s.at.line[i]) {
      RendezvousFrame(c, s, b, i);
      RendezvousShape(c, s, b, i);
      RendezvousTokens(c, s, b, i);
      RendezvousTasks(c, s, b, i);
    } else if InTask(s.at.line[i]) {
      TaskFrame(c, s, b, i);
      TaskShape(c, s, b, i);
      TaskTokens(c, s, b, i);
      TaskTasks(c, s, b, i);
    } else if InArrive(s.at.line[i]) {
      ArriveFrame(c, s, b, i);
      ArriveShape(c, s, b, i);
      ArriveTokens(c, s, b, i);
      ArriveTasks(c, s, b, i);
    } else {
      DepartFrame(c, s, b, i);
      DepartShape(c, s, b, i);
      DepartTokens(c, s, b, i);
      DepartTasks(c, s, b, i);
    }
    ApOthers(c, s, s', b, i);
  }
}
