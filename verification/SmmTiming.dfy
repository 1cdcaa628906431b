/** Exactly when SmmStartupThisAp is safe to call: a task is lost if and only if it is accepted for an AP that
    has not yet executed line 455. */
module SmmTiming {
  import opened SmmState
  import opened SmmInvariant
  import opened SmmApSteps
  import opened SmmMtrrs
  import opened SmmPreserve
  import opened SmmWitness

  /** A run of one SmmStartupThisAp under any interleaving, from line 710 until the BSP is back in the SMM core. */
  ghost predicate IsCall(c: Config, s: State, b: nat, r: seq<State>) {
    Path(c, b, r) && r[0] == s && r[|r| - 1].at.line[b] == 307
  }

  ghost predicate Path(c: Config, b: nat, r: seq<State>) {
    && |r| > 0 && b < c.n
    && (forall k :: 0 <= k < |r| ==> Typed(c, r[k]))
    && (forall k :: 0 <= k < |r| - 1 ==> Next(c, r[k], r[k + 1]))
    && (forall k :: 0 <= k < |r| - 1 ==> r[k].at.line[b] != 307)
  }

  lemma Join(c: Config, b: nat, p: seq<State>, q: seq<State>)
    requires Path(c, b, p) && Path(c, b, q)
    requires p[|p| - 1].at.line[b] != 307 && Next(c, p[|p| - 1], q[0])
    ensures Path(c, b, p + q)
  {
  }

  /** Consecutive steps, without interruption, of the BSP b in SmmStartupThisAp. */
  lemma StartupMoves(c: Config, s: State, b: nat)
    requires c.Valid() && Typed(c, s) && b < c.n && IsStartup(s.at.line[b]) && Enabled(s, b)
    ensures Next(c, s, StepStartup(c, s, b, Return))
  {
    assert CpuSteps(c, s, StepStartup(c, s, b, Return), b, Return);
  }

  /** Lines 710-716: the BSP takes the Busy lock and posts the procedure. */
  lemma Posts(c: Config, s: State, b: nat) returns (r: seq<State>)
    requires c.Valid() && Typed(c, s) && b < c.n && s.at.line[b] == 710
    requires s.uc.call.cpu < c.n && s.cpu.busy[s.uc.call.cpu] == Released
    ensures Path(c, b, r) && r[0] == s && r[|r| - 1].at.line == s.at.line[b := 719]
    ensures r[|r| - 1].log == s.log.(posted := s.log.posted + [s.uc.call]) && r[|r| - 1].uc == s.uc
  {
    var s1 := StepStartup(c, s, b, Return);
    StartupMoves(c, s, b);
    var s2 := StepStartup(c, s1, b, Return);
    StartupMoves(c, s1, b);
    var rest := Stores(c, s2, b);
    Join(c, b, [s, s1], rest);
    r := [s, s1] + rest;
  }

  /** Lines 715-716 */
  lemma Stores(c: Config, s: State, b: nat) returns (r: seq<State>)
    requires c.Valid() && Typed(c, s) && b < c.n && s.at.line[b] == 715
    ensures Path(c, b, r) && r[0] == s && r[|r| - 1].at.line == s.at.line[b := 719]
    ensures r[|r| - 1].log == s.log && r[|r| - 1].uc == s.uc
  {
    var s1 := StepStartup(c, s, b, Return);
    StartupMoves(c, s, b);
    var s2 := StepStartup(c, s1, b, Return);
    StartupMoves(c, s1, b);
    r := [s, s1, s2];
  }

  /** Lines 719-720: the lock is free, so SmmStartupThisAp returns. */
  lemma Returns(c: Config, s: State, b: nat) returns (r: seq<State>)
    requires c.Valid() && Typed(c, s) && b < c.n && s.at.line[b] == 719
    requires s.uc.call.cpu < c.n && s.cpu.busy[s.uc.call.cpu] == Released
    ensures Path(c, b, r) && |r| == 3 && r[0] == s && r[2].at.line == s.at.line[b := 307] && r[2].log == s.log
  {
    var s1 := StepStartup(c, s, b, Return);
    StartupMoves(c, s, b);
    var s2 := StepStartup(c, s1, b, Return);
    StartupMoves(c, s1, b);
    r := [s, s1, s2];
  }

  lemma Initialises(c: Config, s: State, t: nat)
    requires c.Valid() && Typed(c, s) && t < c.n && s.at.line[t] == 455
    ensures Next(c, s, StepTask(c, s, t)) && StepTask(c, s, t).at.line == s.at.line[t := 461]
    ensures StepTask(c, s, t).cpu.busy[t] == Released && StepTask(c, s, t).log == s.log && StepTask(c, s, t).uc == s.uc
  {
    assert CpuSteps(c, s, StepTask(c, s, t), t, Return);
  }

  /** The failing interleaving: the BSP acquires Busy and posts the procedure, the AP initialises the lock to
      Released, and the BSP finds it released. */
  lemma TaskIsLost(c: Config, s: State, b: nat) returns (r: seq<State>)
    requires Led(c, s, b) && s.at.line[b] == 710 && !Timely(s, b)
    ensures IsCall(c, s, b, r)
    ensures r[|r| - 1].log.executed == s.log.executed && r[|r| - 1].log.posted == s.log.posted + [s.uc.call]
  {
    var post := Posts(c, s, b);
    var posted := post[|post| - 1];
    var ap := StepTask(c, posted, s.uc.call.cpu);
    Initialises(c, posted, s.uc.call.cpu);
    var back := Returns(c, ap, b);
    Join(c, b, post, back);
    r := post + back;
  }

  /** Once an AP is past line 455 it stays past it, so waiting keeps a call timely. */
  lemma StaysTimely(c: Config, s: State, b: nat, i: nat, ch: Choice)
    requires Shape(c, s, b) && Tokens(c, s, b) && Tasks(c, s, b) && s.at.line[b] == 710 && Timely(s, b)
    requires i < c.n && i != b && Enabled(s, i)
    ensures Timely(Step(c, s, i, ch), b)
  {
    hide Ahead, ShapeAp, StepDepart;
    assert ShapeAp(c, s, b, i) && TokenAp(c, s, b, i);
    assert i == s.uc.call.cpu ==> Step(c, s, i, ch).at.line[i] != 455;
    ApStep(c, s, b, i, ch);
  }

  lemma OtherStep(c: Config, s: State, b: nat, i: nat, ch: Choice)
    requires Led(c, s, b) && 710 <= s.at.line[b] <= 720 && Timely(s, b)
    requires i < c.n && i != b && Enabled(s, i)
    ensures Led(c, Step(c, s, i, ch), b) && Timely(Step(c, s, i, ch), b)
    ensures Step(c, s, i, ch).at.line[b] == s.at.line[b]
  {
    ApStep(c, s, b, i, ch);
    ApMtrrs(c, s, b, i, ch);
    if s.at.line[b] == 710 { StaysTimely(c, s, b, i, ch); }
  }

  lemma BspLines(c: Config, s: State, b: nat, ch: Choice)
    requires c.Valid() && Typed(c, s) && b < c.n && 710 <= s.at.line[b] <= 720
    ensures Step(c, s, b, ch).at.line[b] == 307 || 714 <= Step(c, s, b, ch).at.line[b] <= 720
  {
  }

  lemma CallStep(c: Config, s: State, s': State, b: nat)
    requires Led(c, s, b) && 710 <= s.at.line[b] <= 720 && Timely(s, b) && Next(c, s, s')
    ensures Led(c, s', b) && Timely(s', b)
    ensures s'.at.line[b] == 307 || 710 <= s'.at.line[b] <= 720
  {
    assert !OsWrites(c, s, s');
    var i, ch :| CpuSteps(c, s, s', i, ch);
    if i != b {
      OtherStep(c, s, b, i, ch);
    } else {
      BspLines(c, s, b, ch);
      BspStep(c, s, b, ch);
    }
  }

  lemma {:induction false} CallKeeps(c: Config, s: State, b: nat, r: seq<State>, k: nat)
    requires Led(c, s, b) && s.at.line[b] == 710 && Timely(s, b) && IsCall(c, s, b, r) && k < |r|
    ensures Led(c, r[k], b) && Timely(r[k], b) && (r[k].at.line[b] == 307 || 710 <= r[k].at.line[b] <= 720)
  {
    if k > 0 {
      CallKeeps(c, s, b, r, k - 1);
      assert Next(c, r[k - 1], r[k - 1 + 1]) && r[k - 1].at.line[b] != 307;
      CallStep(c, r[k - 1], r[k], b);
    }
  }

  /** Whatever the other processors do, the call has run its task by the time it returns: this is so exactly
      when, at line 710, Busy is not free or the AP is not at line 455. */
  lemma CallIsSafeIffTimely(c: Config, s: State, b: nat)
    requires Led(c, s, b) && s.at.line[b] == 710
    ensures Timely(s, b) <==>
      forall r: seq<State> :: IsCall(c, s, b, r) ==> r[|r| - 1].log.executed == r[|r| - 1].log.posted
  {
    if Timely(s, b) {
      forall r: seq<State> | IsCall(c, s, b, r) ensures r[|r| - 1].log.executed == r[|r| - 1].log.posted {
        CallKeeps(c, s, b, r, |r| - 1);
      }
    } else {
      var r := TaskIsLost(c, s, b);
      assert IsCall(c, s, b, r) && |r[|r| - 1].log.executed| != |r[|r| - 1].log.posted|;
    }
  }

  /** So the rule on calls is necessary: a run by the rules gets to a call for which it fails, between any two
      processors, and from there the procedure can be lost. */
  lemma CallRuleIsNecessary(c: Config, b: nat, task: Task) returns (r: seq<State>, q: seq<State>)
    requires c.Valid() && b < c.n && task.cpu < c.n && task.cpu != b
    ensures IsRun(c, r) && IsCall(c, Last(r), b, q)
    ensures Last(q).log.executed == Last(r).log.executed == Last(r).log.posted
    ensures Last(q).log.posted == Last(r).log.posted + [task]
  {
    r := UntimelyIsReachable(c, b, task);
    q := TaskIsLost(c, Last(r), b);
  }
}
