/** Calls of SmmStartupThisAp, one after the other: the Busy lock of an AP that waits for work is free whenever the SMM
    core is about to call, so the call is accepted, and it has run when it returns. */
module SmmCalls {
  import opened SmmState
  import opened SmmInvariant
  import opened SmmApSteps
  import opened SmmMtrrs
  import opened SmmPreserve
  import opened SmmTheorems

  /** The BSP is in the SMM core, or at one of the checks of SmmStartupThisAp. */
  predicate BeforeCall(l: nat) { l == 307 || l == 707 || l == 710 }

  lemma WaitsForWork(c: Config, s: State, b: nat, i: nat)
    requires Shape(c, s, b) && Tokens(c, s, b) && Tasks(c, s, b) && BeforeCall(s.at.line[b])
    requires i < c.n && i != b && s.at.line[i] == 461
    ensures s.cpu.busy[i] == Released && s.cpu.present[i] && s.cpu.run[i] == 0
  {
    assert ShapeAp(c, s, b, i) && TokenAp(c, s, b, i) && TaskAp(c, s, b, i);
  }

  /** Whenever the SMM core is about to call, the Busy lock of an AP that waits for work is free; that of the BSP is
      held. */
  lemma IdleApIsFree(c: Config, r: seq<State>, k: nat, b: nat, i: nat)
    requires IsRun(c, r) && k < |r| && IsBsp(r[k], b) && BeforeCall(r[k].at.line[b])
    requires i < c.n && i != b && r[k].at.line[i] == 461
    ensures r[k].cpu.busy[i] == Released && r[k].cpu.busy[b] == Acquired
  {
    InvAlways(c, r, k);
    BspLeads(c, r[k], b);
    WaitsForWork(c, r[k], b, i);
  }

  lemma Rejected(c: Config, s: State, b: nat)
    requires Led(c, s, b) && s.at.line[b] == 710 && Timely(s, b) && s.at.line[s.uc.call.cpu] != 461
    ensures s.cpu.busy[s.uc.call.cpu] != Released
  {
    var t := s.uc.call.cpu;
    assert ShapeAp(c, s, b, t) && TokenAp(c, s, b, t) && TaskAp(c, s, b, t);
  }

  /** A timely call is accepted exactly if its AP waits for work. */
  lemma AcceptedIffWaiting(c: Config, r: seq<State>, k: nat, b: nat)
    requires IsRun(c, r) && k < |r| && IsBsp(r[k], b) && r[k].at.line[b] == 710 && Timely(r[k], b)
    ensures var s, s', t := r[k], Step(c, r[k], b, Return), r[k].uc.call.cpu;
      && t < c.n && (s.at.line[t] == 461 <==> s'.at.line[b] == 714)
      && (if s'.at.line[b] == 714 then s'.log.posted == s.log.posted + [s.uc.call] && s'.cpu.busy[t] == Acquired
          else s'.at.line[b] == 307 && s'.log == s.log && s'.cpu == s.cpu)
  {
    var s := r[k];
    InvAlways(c, r, k);
    BspLeads(c, s, b);
    if s.at.line[s.uc.call.cpu] == 461 { WaitsForWork(c, s, b, s.uc.call.cpu); } else { Rejected(c, s, b); }
  }

  // ---- from the call to its return ----

  /** The BSP b has called for task; before the call the tasks in `done` had been accepted and executed. */
  ghost predicate InCall(c: Config, s: State, b: nat, task: Task, done: seq<Task>) {
    && Led(c, s, b) && s.uc.call == task && task.cpu < c.n && task.cpu != b
    && (if BeforeCall(s.at.line[b]) then s.at.line[b] != 307 && s.log.posted == done && s.at.line[task.cpu] == 461
        else IsStartup(s.at.line[b]) && s.log.posted == done + [task])
  }

  ghost predicate Returned(c: Config, s: State, b: nat, task: Task, done: seq<Task>) {
    && Led(c, s, b) && s.at.line[b] == 307 && task.cpu < c.n && task.cpu != b && s.at.line[task.cpu] == 461
    && s.log.executed == s.log.posted == done + [task]
  }

  lemma CallBsp(c: Config, s: State, b: nat, ch: Choice, task: Task, done: seq<Task>)
    requires InCall(c, s, b, task, done) && Enabled(s, b) && Timely(s, b)
    ensures var s' := Step(c, s, b, ch); InCall(c, s', b, task, done) || Returned(c, s', b, task, done)
  {
    if BeforeCall(s.at.line[b]) { WaitsForWork(c, s, b, task.cpu); }
    var s' := Step(c, s, b, ch);
    assert IsStartup(s'.at.line[b]) || (s.at.line[b] == 720 && s'.at.line[b] == 307);
    assert s'.uc.call == task;
    assert s'.log.posted == if s.at.line[b] == 710 then s.log.posted + [task] else s.log.posted;
    assert s'.at.line[task.cpu] == s.at.line[task.cpu];
    hide Shape, Tokens, Mtrrs, Step, Enabled, Timely;
    BspStep(c, s, b, ch);
  }

  lemma CallAp(c: Config, s: State, b: nat, i: nat, ch: Choice, task: Task, done: seq<Task>)
    requires InCall(c, s, b, task, done) && i < c.n && i != b && Enabled(s, i)
    ensures InCall(c, Step(c, s, i, ch), b, task, done)
  {
    if BeforeCall(s.at.line[b]) { WaitsForWork(c, s, b, task.cpu); }
    assert BeforeCall(s.at.line[b]) ==> i != task.cpu;
    hide Shape, Tokens, Mtrrs, Tasks, Step, Enabled;
    ApStep(c, s, b, i, ch);
    ApMtrrs(c, s, b, i, ch);
  }

  lemma CallOn(c: Config, s: State, s': State, b: nat, task: Task, done: seq<Task>)
    requires InCall(c, s, b, task, done) && TimelyNext(c, s, s')
    ensures InCall(c, s', b, task, done) || Returned(c, s', b, task, done)
  {
    assert !OsWrites(c, s, s');
    hide InCall, Returned;
    var i, ch :| TimelySteps(c, s, s', i, ch);
    if i == b { CallBsp(c, s, b, ch, task, done); } else { CallAp(c, s, b, i, ch, task, done); }
  }

  /** In run r the SMM core calls SmmStartupThisAp for task in state k, and is back in state m. */
  ghost predicate IsCallOf(c: Config, r: seq<State>, k: nat, m: nat, b: nat, task: Task) {
    && IsRun(c, r) && k < m < |r| && IsBsp(r[k], b) && CpuSteps(c, r[k], r[k + 1], b, Call(task))
    && r[k].at.line[b] == r[m].at.line[b] == 307
    && forall x :: k < x < m ==> |r[x].at.line| == c.n && r[x].at.line[b] != 307
  }

  lemma CallStarts(c: Config, s: State, b: nat, task: Task)
    requires Led(c, s, b) && s.at.line[b] == 307 && task.cpu < c.n && s.at.line[task.cpu] == 461
    ensures InCall(c, Step(c, s, b, Call(task)), b, task, s.log.executed)
  {
    hide Shape, Tokens, Mtrrs;
    BspStep(c, s, b, Call(task));
  }

  lemma NotReturned(c: Config, s: State, b: nat, task: Task, done: seq<Task>)
    requires b < |s.at.line| && s.at.line[b] != 307
    ensures !Returned(c, s, b, task, done)
  {
  }

  lemma StillCalling(c: Config, s: State, b: nat, task: Task, done: seq<Task>)
    requires b < |s.at.line| && s.at.line[b] == 307
    ensures !InCall(c, s, b, task, done)
  {
  }

  lemma LeavesTheCore(c: Config, s: State, b: nat, task: Task)
    requires c.Valid() && Typed(c, s) && b < c.n && s.at.line[b] == 307
    ensures Step(c, s, b, Call(task)).at.line[b] == 707
  {
  }

  lemma {:induction false} CallKeepsOn(c: Config, r: seq<State>, k: nat, m: nat, b: nat, task: Task, x: nat)
    requires IsCallOf(c, r, k, m, b, task) && k < x < m && task.cpu < c.n && r[k].at.line[task.cpu] == 461
    ensures InCall(c, r[x], b, task, r[k].log.executed)
    decreases x
  {
    hide InCall, Returned, Led, Inv, Step, Enabled;
    if x == k + 1 {
      InvAlways(c, r, k);
      BspLeads(c, r[k], b);
      CallStarts(c, r[k], b, task);
    } else {
      CallKeepsOn(c, r, k, m, b, task, x - 1);
      assert TimelyNext(c, r[x - 1], r[x - 1 + 1]);
      CallOn(c, r[x - 1], r[x], b, task, r[k].log.executed);
      NotReturned(c, r[x], b, task, r[k].log.executed);
    }
  }

  /** A call to an AP that waits for work has run its procedure, once, when it returns, and the AP waits for work
      again, whatever the others have done in between. */
  lemma CallRuns(c: Config, r: seq<State>, k: nat, m: nat, b: nat, task: Task)
    requires IsCallOf(c, r, k, m, b, task) && task.cpu < c.n && r[k].at.line[task.cpu] == 461
    ensures r[m].log.executed == r[k].log.executed + [task] && r[m].at.line[task.cpu] == 461
  {
    hide InCall, Led, Inv, Step, Enabled;
    LeavesTheCore(c, r[k], b, task);
    CallKeepsOn(c, r, k, m, b, task, m - 1);
    assert TimelyNext(c, r[m - 1], r[m - 1 + 1]);
    CallOn(c, r[m - 1], r[m], b, task, r[k].log.executed);
    StillCalling(c, r[m], b, task, r[k].log.executed);
  }

  /** So two calls to the same AP, one right after the other, both run. */
  lemma TwoCallsBothRun(c: Config, r: seq<State>, k: nat, l: nat, m: nat, b: nat, task1: Task, task2: Task)
    requires IsCallOf(c, r, k, l, b, task1) && IsCallOf(c, r, l, m, b, task2) && task1.cpu == task2.cpu < c.n
    requires r[k].at.line[task1.cpu] == 461
    ensures r[m].log.executed == r[k].log.executed + [task1, task2]
  {
    CallRuns(c, r, k, l, b, task1);
    CallRuns(c, r, l, m, b, task2);
  }
}
