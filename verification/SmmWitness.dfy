/** Runs that end where the two rules of the rendezvous matter: a round that drains while a processor is still inside,
    and a call of SmmStartupThisAp that is not timely. */
module SmmWitness {
  import opened SmmState
  import opened SmmInvariant
  import opened SmmApSteps
  import opened SmmMtrrs
  import opened SmmPreserve
  import opened SmmTheorems
  import opened SmmProgress

  ghost function Last(r: seq<State>): State
    requires |r| > 0
  {
    r[|r| - 1]
  }

  /** The state InitializeUcData leaves, with all MTRRs zero. */
  ghost function InitialState(c: Config): (s: State)
    requires c.Valid()
    ensures Init(c, s)
  {
    var zeros: seq<nat> := seq(c.n, _ => 0);
    var none := Nobody(c.n);
    var mtrr := seq(c.cores, _ => seq(c.Regs(), _ => 0));
    State(Place(zeros, zeros), CpuData(zeros, none, seq(c.n, _ => Unset), zeros, zeros),
          Locals(none, zeros, zeros, seq(c.n, _ => [])), UcData(0, MAX32, false, false, 0, Task(0, 0, 0)),
          Hw(mtrr, mtrr), Log([], []))
  }

  /** One more step of a run. */
  lemma StepOn(c: Config, r: seq<State>, i: nat, ch: Choice) returns (q: seq<State>)
    requires IsRun(c, r) && c.Valid() && i < c.n && Enabled(Last(r), i) && Timely(Last(r), i)
    ensures IsRun(c, q) && r <= q && Last(q) == Step(c, Last(r), i, ch)
  {
    assert TimelySteps(c, Last(r), Step(c, Last(r), i, ch), i, ch);
    Extends(c, r, Step(c, Last(r), i, ch), i, ch);
    q := r + [Step(c, Last(r), i, ch)];
  }

  ghost predicate OthersOutside(s: State, b: nat, t: nat) {
    forall i :: 0 <= i < |s.at.line| && i != b && i != t ==> s.at.line[i] == OUTSIDE
  }

  // ---- one processor enters, and is elected ----

  lemma AtElection(c: Config, s: State, b: nat)
    requires Inv(c, s) && b < c.n && OthersOutside(s, b, b) && s.at.line[b] == 780
    ensures Gather(c, s)
  {
    Whereabouts(c, s, b);
  }

  lemma EnterAlone(c: Config, r: seq<State>, b: nat) returns (q: seq<State>)
    requires c.Valid() && IsRun(c, r) && AllOutside(Last(r)) && b < c.n
    ensures IsRun(c, q) && r <= q && Led(c, Last(q), b) && Last(q).uc.counter == 1
    ensures Last(q).at.line == Last(r).at.line[b := 790] && Last(q).cpu.busy == Last(r).cpu.busy
  {
    hide Inv, Led, Gather;
    RoundsAreClean(c, r, |r| - 1);
    var q1 := StepOn(c, r, b, Return);
    var q2 := StepOn(c, q1, b, Return);
    InvAlways(c, q2, |q2| - 1);
    AtElection(c, Last(q2), b);
    q := StepOn(c, q2, b, Return);
    Elected(c, Last(q2), b);
  }

  // ---- a round of one processor, until it drains ----

  /** Alone inside, the BSP can always step. */
  lemma AloneMoves(c: Config, r: seq<State>, i: nat)
    requires c.Valid() && IsRun(c, r) && Led(c, Last(r), i) && OthersOutside(Last(r), i, i)
    ensures Enabled(Last(r), i) && Timely(Last(r), i) && Last(r).at.line[i] != OUTSIDE
  {
    NoStateIsStuck(c, r, |r| - 1);
  }

  lemma AloneStep(c: Config, s: State, i: nat)
    requires Led(c, s, i) && OthersOutside(s, i, i) && Enabled(s, i) && Timely(s, i)
    ensures var s' := Step(c, s, i, Return);
      && OthersOutside(s', i, i)
      && if s.at.line[i] == 352 then Drain(c, s') && s'.at.line[i] == 357 else Led(c, s', i)
  {
    OnlyOneMoves(c, s, i, Return);
    hide Tasks, Tokens, Mtrrs, Shape, Drain;
    if s.at.line[i] == 352 { RoundEnds(c, s, i); } else { BspStep(c, s, i, Return); }
  }

  lemma {:induction false} RunsToDrain(c: Config, r: seq<State>, i: nat) returns (q: seq<State>)
    requires c.Valid() && IsRun(c, r) && Led(c, Last(r), i) && OthersOutside(Last(r), i, i)
    ensures IsRun(c, q) && r <= q && OthersOutside(Last(q), i, i) && Drain(c, Last(q)) && Last(q).at.line[i] == 357
    decreases Budget(c, Last(r))
  {
    hide Tokens, Tasks, Mtrrs, Drain, Enabled, Timely, Step, OthersOutside, Total, TaskPending;
    var s := Last(r);
    AloneMoves(c, r, i);
    AloneStep(c, s, i);
    q := StepOn(c, r, i, Return);
    if s.at.line[i] != 352 {
      assert Advances(c, s, Last(q), i);
      BudgetStep(c, s, Last(q), i);
      q := RunsToDrain(c, q, i);
    }
  }

  /** For any processor i there is a run whose last round is draining, with i at line 357 or at line 814 and all the
      others outside. */
  lemma DrainIsReachable(c: Config, i: nat, l: nat) returns (r: seq<State>)
    requires c.Valid() && i < c.n && (l == 357 || l == 814)
    ensures IsRun(c, r) && Drain(c, Last(r)) && Last(r).at.line[i] == l && OthersOutside(Last(r), i, i)
  {
    hide Ahead, Led;
    r := [InitialState(c)];
    r := EnterAlone(c, r, i);
    r := RunsToDrain(c, r, i);
    if l == 814 {
      var s := Last(r);
      r := StepOn(c, r, i, Return);
      assert DrainCpu(c, s, i);
      DrainStep(c, s, i, Return);
      Whereabouts(c, Last(r), i);
    }
  }

  // ---- a second processor enters ----

  lemma EnterSecond(c: Config, r: seq<State>, b: nat, t: nat) returns (q: seq<State>)
    requires c.Valid() && IsRun(c, r) && Led(c, Last(r), b) && Last(r).uc.counter == 1 && b < c.n && t < c.n && t != b
    requires Last(r).at.line[b] == 790 && OthersOutside(Last(r), b, b)
    ensures IsRun(c, q) && r <= q && Led(c, Last(q), b) && Last(q).loc.counted[t]
    ensures Last(q).at.line == Last(r).at.line[t := 752] && Last(q).cpu.busy == Last(r).cpu.busy
  {
    hide Tasks, Tokens, Mtrrs, Shape;
    q := StepOn(c, r, t, Return);
    ApStep(c, Last(r), b, t, Return);
    ApMtrrs(c, Last(r), b, t, Return);
  }

  // ---- a round that starts no procedure leaves Busy of an AP released ----

  predicate IsLeaving(l: nat) { l == OUTSIDE || l == 357 || l == 814 || l == 815 || l == 821 }

  /** An AP at line l has executed line 455. */
  predicate IsPast(l: nat) { l == OUTSIDE || l == 357 || 461 <= l <= 510 || 814 <= l }

  ghost predicate Calm(c: Config, s: State, b: nat, t: nat) {
    && Inv(c, s) && b < c.n && t < c.n && b != t && Typed(c, s)
    && ((Led(c, s, b) && !IsStartup(s.at.line[b])) || forall i :: 0 <= i < c.n ==> IsLeaving(s.at.line[i]))
    && (IsPast(s.at.line[t]) ==> s.cpu.busy[t] == Released)
  }

  /** Without a choice to call, a BSP outside SmmStartupThisAp stays outside it, and touches only its own Busy lock. */
  ghost predicate StaysOut(c: Config, s: State, s': State, b: nat)
    requires Typed(c, s) && Typed(c, s') && b < c.n
  {
    && !IsStartup(s'.at.line[b]) && s'.cpu.busy == s.cpu.busy[b := s'.cpu.busy[b]]
    && (s.at.line[b] < 307 || s.at.line[b] == 790 ==> s'.at.line[b] <= 307 && s'.loc.counted == s.loc.counted)
  }

  lemma BarrierStaysOut(c: Config, s: State, b: nat)
    requires Shape(c, s, b) && InBarrier(s.at.line[b])
    ensures StaysOut(c, s, StepBarrier(c, s, b), b)
  {
  }

  lemma BspStaysOut(c: Config, s: State, b: nat)
    requires Shape(c, s, b) && !IsStartup(s.at.line[b])
    ensures StaysOut(c, s, Step(c, s, b, Return), b)
  {
    if InBarrier(s.at.line[b]) {
      BarrierStaysOut(c, s, b);
    } else {
      hide StepBarrier;
      assert StaysOut(c, s, Step(c, s, b, Return), b);
    }
  }

  lemma CalmBsp(c: Config, s: State, b: nat, t: nat)
    requires Calm(c, s, b, t) && Led(c, s, b) && !IsStartup(s.at.line[b]) && Enabled(s, b)
    ensures Calm(c, Step(c, s, b, Return), b, t)
  {
    var s' := Step(c, s, b, Return);
    BspStaysOut(c, s, b);
    OnlyOneMoves(c, s, b, Return);
    hide Tasks, Tokens, Mtrrs, Shape, Step, Enabled;
    if s.at.line[b] == 352 {
      RoundEnds(c, s, b);
      forall i | 0 <= i < c.n ensures IsLeaving(s'.at.line[i]) { assert DrainCpu(c, s', i); }
    } else {
      BspStep(c, s, b, Return);
    }
  }

  lemma CalmBusy(c: Config, s: State, b: nat, t: nat)
    requires Shape(c, s, b) && Tasks(c, s, b) && !IsStartup(s.at.line[b]) && t < c.n && t != b
    requires IsPast(s.at.line[t]) ==> s.cpu.busy[t] == Released
    requires s.at.line[t] != OUTSIDE
    ensures var s' := Step(c, s, t, Return); IsPast(s'.at.line[t]) ==> s'.cpu.busy[t] == Released
  {
    assert ShapeAp(c, s, b, t) && TaskAp(c, s, b, t);
  }

  lemma CalmAp(c: Config, s: State, b: nat, t: nat, i: nat)
    requires Calm(c, s, b, t) && Led(c, s, b) && !IsStartup(s.at.line[b]) && i < c.n && i != b
    requires Enabled(s, i) && s.at.line[i] != OUTSIDE
    ensures Calm(c, Step(c, s, i, Return), b, t)
  {
    var s' := Step(c, s, i, Return);
    if i == t { CalmBusy(c, s, b, t); }
    hide Tasks, Tokens, Mtrrs, Shape;
    ApStep(c, s, b, i, Return);
    ApMtrrs(c, s, b, i, Return);
    assert Led(c, s', b);
    assert s'.at.line[b] == s.at.line[b];
    assert i != t ==> s'.at.line[t] == s.at.line[t] && s'.cpu.busy[t] == s.cpu.busy[t];
  }

  lemma CalmLeaving(c: Config, s: State, s': State, b: nat, t: nat, i: nat)
    requires Calm(c, s, b, t) && Advances(c, s, s', i) && forall j :: 0 <= j < c.n ==> IsLeaving(s.at.line[j])
    ensures Calm(c, s', b, t)
  {
    hide Inv, Led;
    assert TimelySteps(c, s, s', i, Return);
    InvStep(c, s, s');
  }

  lemma CalmStep(c: Config, s: State, s': State, b: nat, t: nat, i: nat)
    requires Calm(c, s, b, t) && Advances(c, s, s', i)
    ensures Calm(c, s', b, t)
  {
    hide Inv, Led;
    if Led(c, s, b) && !IsStartup(s.at.line[b]) {
      if i == b { CalmBsp(c, s, b, t); } else { CalmAp(c, s, b, t, i); }
    } else {
      CalmLeaving(c, s, s', b, t, i);
    }
  }

  lemma StartsCalm(c: Config, s: State, b: nat, t: nat)
    requires Led(c, s, b) && t < c.n && t != b && s.at.line[b] == 790 && s.at.line[t] == 752
    ensures Calm(c, s, b, t)
  {
  }

  lemma CalmEnds(c: Config, s: State, b: nat, t: nat)
    requires Calm(c, s, b, t)
    ensures Inv(c, s) && t < |s.cpu.busy| && (AllOutside(s) ==> s.cpu.busy[t] == Released)
  {
  }

  lemma {:induction false} CompletesCalmly(c: Config, r: seq<State>, b: nat, t: nat) returns (q: seq<State>)
    requires IsRun(c, r) && Calm(c, Last(r), b, t)
    ensures IsRun(c, q) && r <= q && AllOutside(Last(q)) && Last(q).cpu.busy[t] == Released
    decreases Budget(c, Last(r))
  {
    hide Calm, Inv, Step, Enabled, Timely, Total, TaskPending;
    CalmEnds(c, Last(r), b, t);
    if AllOutside(Last(r)) {
      q := r;
    } else {
      SomebodyAdvances(c, r, |r| - 1);
      var s', i :| Advances(c, Last(r), s', i);
      BudgetStep(c, Last(r), s', i);
      CalmStep(c, Last(r), s', b, t, i);
      Extends(c, r, s', i, Return);
      q := CompletesCalmly(c, r + [s'], b, t);
    }
  }

  // ---- the BSP reaches the SMM core while the AP is at line 455 ----

  predicate IsApproach(l: nat) { 375 <= l <= 455 || 752 <= l <= 790 }

  ghost predicate Approaching(c: Config, s: State, b: nat, t: nat) {
    && Led(c, s, b) && t < c.n && t != b && s.loc.counted[t] && OthersOutside(s, b, t)
    && IsApproach(s.at.line[t]) && (s.at.line[b] <= 307 || s.at.line[b] == 790) && s.cpu.busy[t] == Released
  }

  lemma ApproachBsp(c: Config, s: State, b: nat, t: nat)
    requires Approaching(c, s, b, t) && Enabled(s, b) && s.at.line[b] != 307
    ensures Approaching(c, Step(c, s, b, Return), b, t)
  {
    BspStaysOut(c, s, b);
    OnlyOneMoves(c, s, b, Return);
    hide Tasks, Tokens, Mtrrs, Shape, Step, Enabled;
    BspStep(c, s, b, Return);
  }

  lemma ApproachApLine(c: Config, s: State, b: nat, t: nat)
    requires Shape(c, s, b) && t < c.n && t != b && s.loc.counted[t] && IsApproach(s.at.line[t]) && s.at.line[t] != 455
    requires s.at.line[b] <= 307 || s.at.line[b] == 790
    ensures var s' := Step(c, s, t, Return);
      IsApproach(s'.at.line[t]) && s'.cpu.busy == s.cpu.busy && s'.loc.counted == s.loc.counted
  {
    assert ShapeAp(c, s, b, t);
  }

  lemma ApproachAp(c: Config, s: State, b: nat, t: nat)
    requires Approaching(c, s, b, t) && Enabled(s, t) && s.at.line[t] != 455
    ensures Approaching(c, Step(c, s, t, Return), b, t)
  {
    ApproachApLine(c, s, b, t);
    OnlyOneMoves(c, s, t, Return);
    hide Tasks, Tokens, Mtrrs, Shape;
    ApStep(c, s, b, t, Return);
    ApMtrrs(c, s, b, t, Return);
  }

  /** In the SMM core every AP has signalled the barriers before it. */
  lemma CoreMeets(c: Config, s: State, b: nat, t: nat)
    requires Approaching(c, s, b, t) && s.at.line[b] == 307
    ensures s.at.line[t] == 455
  {
    assert ShapeAp(c, s, b, t) && TokenAp(c, s, b, t);
  }

  lemma ApproachWaits(c: Config, s: State, b: nat, t: nat)
    requires Approaching(c, s, b, t) && !Enabled(s, b)
    ensures Enabled(s, t) && s.at.line[t] != 455 && s.at.line[t] != OUTSIDE
  {
    var i := WaitsFor(c, s, b);
    assert i == t;
  }

  lemma ApproachStep(c: Config, s: State, b: nat, t: nat) returns (i: nat)
    requires Approaching(c, s, b, t) && s.at.line[b] != 307
    ensures i < c.n && Enabled(s, i) && Timely(s, i) && s.at.line[i] != OUTSIDE
    ensures Approaching(c, Step(c, s, i, Return), b, t)
  {
    hide Tasks, Tokens, Mtrrs, Enabled;
    if Enabled(s, b) {
      ApproachBsp(c, s, b, t);
      i := b;
    } else {
      ApproachWaits(c, s, b, t);
      ApproachAp(c, s, b, t);
      i := t;
    }
  }

  lemma {:induction false} RunsToCore(c: Config, r: seq<State>, b: nat, t: nat) returns (q: seq<State>)
    requires IsRun(c, r) && Approaching(c, Last(r), b, t)
    ensures IsRun(c, q) && r <= q && Approaching(c, Last(q), b, t)
    ensures Last(q).at.line[b] == 307 && Last(q).at.line[t] == 455
    decreases Budget(c, Last(r))
  {
    hide Tokens, Tasks, Mtrrs, Enabled, Timely, Step, Total, TaskPending;
    var s := Last(r);
    if s.at.line[b] == 307 {
      CoreMeets(c, s, b, t);
      q := r;
    } else {
      var i := ApproachStep(c, s, b, t);
      q := StepOn(c, r, i, Return);
      assert Advances(c, s, Last(q), i);
      BudgetStep(c, s, Last(q), i);
      q := RunsToCore(c, q, b, t);
    }
  }

  // ---- the untimely call ----

  /** From the SMM core the BSP calls SmmStartupThisAp for t, and gets to line 710. */
  lemma Calls(c: Config, r: seq<State>, b: nat, task: Task) returns (q: seq<State>)
    requires IsRun(c, r) && Approaching(c, Last(r), b, task.cpu)
    requires Last(r).at.line[b] == 307 && Last(r).at.line[task.cpu] == 455
    ensures IsRun(c, q) && r <= q && Led(c, Last(q), b) && Last(q).at.line == Last(r).at.line[b := 710]
    ensures Last(q).uc.call == task && Last(q).cpu == Last(r).cpu
  {
    hide Inside, Tokens;
    var s := Last(r);
    assert ShapeAp(c, s, b, task.cpu);
    q := StepOn(c, r, b, Call(task));
    q := StepOn(c, q, b, Return);
    assert Last(q).at.line == s.at.line[b := 710];
    InvAlways(c, q, |q| - 1);
    BspLeads(c, Last(q), b);
  }

  /** For any two processors there is a run in which b is about to start a procedure on t, and t, whose lock was
      left released by the round before, is still at line 455. */
  lemma UntimelyIsReachable(c: Config, b: nat, task: Task) returns (r: seq<State>)
    requires c.Valid() && b < c.n && task.cpu < c.n && task.cpu != b
    ensures IsRun(c, r) && Led(c, Last(r), b) && Last(r).at.line[b] == 710 && Last(r).uc.call == task
    ensures !Timely(Last(r), b)
  {
    hide Led, Inv, Init;
    var t := task.cpu;
    r := [InitialState(c)];
    r := EnterAlone(c, r, b);
    r := EnterSecond(c, r, b, t);
    StartsCalm(c, Last(r), b, t);
    r := CompletesCalmly(c, r, b, t);
    r := EnterAlone(c, r, b);
    r := EnterSecond(c, r, b, t);
    r := RunsToCore(c, r, b, t);
    r := Calls(c, r, b, task);
  }
}
