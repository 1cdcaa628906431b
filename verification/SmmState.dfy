/** The SMM rendezvous of IA32FamilyCpuPkg/PiSmmCpuDxeSmm/MpService.c as a step system.

    Every processor is a sequential program; its position is the line of MpService.c it executes next.
    One step is one access to shared memory (a compare-exchange loop that succeeds is one step), so a run
    of the system is any interleaving of these accesses.  Two steps are coarser: ReleaseAllAPs reads a
    Present flag and posts in one step, and line 493 reads BspIndex and posts in one step.  MTRRs are read
    and written one register at a time, and the threads of a core share the registers.  Sync timeouts and the
    behaviour of the SMM core (which tasks it starts, when it returns) are left open. */
module SmmState {

  /** (UINT32)-1: the locked Counter, and the BspIndex that means "not elected". */
  const MAX32: nat := 0xFFFF_FFFF

  /** The position of a processor that is not in SMM. */
  const OUTSIDE: nat := 0

  /** A spin lock: the zero left by InitializeUcData is neither of the two defined values. */
  datatype Lock = Unset | Released | Acquired

  /** One use of SmmStartupThisAp: which processor runs what. */
  datatype Task = Task(cpu: nat, procedure: nat, parameter: nat)

  /** n processors; `core[i]` is the core whose MTRRs processor i uses; `smi` is gSmiMtrrs. */
  datatype Config = Config(n: nat, needMtrrs: bool, core: seq<nat>, cores: nat, smi: seq<int>)
  {
    ghost predicate Valid() {
      0 < n < MAX32 && |core| == n && forall i :: 0 <= i < n ==> core[i] < cores
    }

    function Regs(): nat { |smi| }
  }

  /** Where each processor is: the line it executes next, and the counter of the loop at that line
      (signals still to wait for, processors still to release, or the MTRR to access next). */
  datatype Place = Place(line: seq<nat>, loop: seq<nat>)

  /** mSmmUcData->CpuData */
  datatype CpuData = CpuData(run: seq<nat>, present: seq<bool>, busy: seq<Lock>, procedure: seq<nat>,
                             parameter: seq<nat>)

  /** History: who takes part in the current round (the branch taken at line 742).  The local variables
      BspIndex, ApCount and Mtrrs of each processor. */
  datatype Locals = Locals(counted: seq<bool>, bsp: seq<nat>, apCount: seq<nat>, saved: seq<seq<int>>)

  /** The scalars of mSmmUcData, CurrentlyExecutingCpu and the arguments of SmmStartupThisAp. */
  datatype UcData = UcData(counter: nat, bspIndex: nat, insideSmm: bool, inSync: bool, current: nat, call: Task)

  /** The MTRRs of each core now, and (history) before the round. */
  datatype Hw = Hw(mtrr: seq<seq<int>>, os: seq<seq<int>>)

  /** History: the tasks SmmStartupThisAp accepted, and the tasks APs ran. */
  datatype Log = Log(posted: seq<Task>, executed: seq<Task>)

  datatype State = State(at: Place, cpu: CpuData, loc: Locals, uc: UcData, hw: Hw, log: Log)

  ghost predicate WellFormedMtrrs(c: Config, m: seq<seq<int>>) {
    |m| == c.cores && forall x :: 0 <= x < |m| ==> |m[x]| == c.Regs()
  }

  ghost predicate Typed(c: Config, s: State) {
    && |s.at.line| == c.n && |s.at.loop| == c.n && |s.cpu.run| == c.n && |s.cpu.present| == c.n && |s.cpu.busy| == c.n
    && |s.cpu.procedure| == c.n && |s.cpu.parameter| == c.n && |s.loc.counted| == c.n && |s.loc.bsp| == c.n
    && |s.loc.apCount| == c.n && |s.loc.saved| == c.n
    && WellFormedMtrrs(c, s.hw.mtrr) && WellFormedMtrrs(c, s.hw.os)
  }

  /** What the SMM core does next on the BSP: return, or call SmmStartupThisAp. */
  datatype Choice = Return | Call(task: Task)

  // ---- the semaphore primitives, lines 42-112 ----

  function ReleaseValue(v: nat): nat {
    if v == MAX32 then v else v + 1
  }

  function Decrement32(v: nat): nat {
    if v == 0 then MAX32 else v - 1
  }

  // ---- array accesses; a write outside the array changes nothing ----

  /** ReleaseSemaphore (&Run[t]) */
  function Post(run: seq<nat>, t: nat): (r: seq<nat>)
    ensures |r| == |run|
  {
    if t < |run| then run[t := ReleaseValue(run[t])] else run
  }

  /** WaitForSemaphore (&Run[t]), once it can succeed */
  function Take(run: seq<nat>, t: nat): (r: seq<nat>)
    ensures |r| == |run|
  {
    if t < |run| then run[t := Decrement32(run[t])] else run
  }

  function At<T>(a: seq<T>, t: nat, default: T): T {
    if t < |a| then a[t] else default
  }

  function Set<T>(a: seq<T>, t: nat, v: T): (r: seq<T>)
    ensures |r| == |a|
  {
    if t < |a| then a[t := v] else a
  }

  /** Write register k of processor i's core. */
  function WriteMtrr(c: Config, m: seq<seq<int>>, i: nat, k: nat, v: int): (r: seq<seq<int>>)
    requires c.Valid() && WellFormedMtrrs(c, m) && i < c.n && k < c.Regs()
    ensures WellFormedMtrrs(c, r)
  {
    m[c.core[i] := m[c.core[i]][k := v]]
  }

  // ---- control ----

  ghost predicate AllOutside(s: State) {
    forall i :: 0 <= i < |s.at.line| ==> s.at.line[i] == OUTSIDE
  }

  /** The BSP has ended the round (line 352), but some processor has not yet cleared its Present flag. */
  ghost predicate Draining(s: State) {
    s.uc.counter == 0 && exists i :: 0 <= i < |s.cpu.present| && s.cpu.present[i]
  }

  /** WaitForAllAPs */
  predicate IsWait(l: nat) { l == 257 || l == 278 || l == 295 || l == 325 || l == 342 }

  /** ReleaseAllAPs */
  predicate IsRelease(l: nat) { l == 263 || l == 283 || l == 320 || l == 331 }

  /** SmmStartupThisAp, running on the BSP inside line 307 */
  predicate IsStartup(l: nat) { 707 <= l <= 720 }

  /** Processor i can take its next step: it is not waiting for a semaphore, a lock or AllCpusInSync.
      A processor outside enters only when the previous round has drained. */
  ghost predicate Enabled(s: State, i: nat)
    requires i < |s.at.line|
  {
    var l := s.at.line[i];
    && (l == OUTSIDE ==> !Draining(s))
    && (IsWait(l) && At(s.at.loop, i, 0) > 0 ==> At(s.cpu.run, s.uc.current, 0) > 0)
    && (l == 424 || l == 439 || l == 461 || l == 499 ==> At(s.cpu.run, i, 0) > 0)
    && (l == 719 ==> At(s.cpu.busy, s.uc.call.cpu, Unset) == Released)
    && (l == 821 ==> !s.uc.inSync)
  }

  function Goto(s: State, i: nat, l: nat): (r: State)
    requires i < |s.at.line|
    ensures |r.at.line| == |s.at.line|
  {
    s.(at := s.at.(line := s.at.line[i := l]))
  }

  /** Go to the loop at line l. */
  function Loop(s: State, i: nat, l: nat, k: nat): (r: State)
    requires i < |s.at.line| && i < |s.at.loop|
    ensures |r.at.line| == |s.at.line| && |r.at.loop| == |s.at.loop|
  {
    s.(at := s.at.(line := s.at.line[i := l], loop := s.at.loop[i := k]))
  }

  // ---- one step, statement by statement ----

  /** SmiRendezvous, lines 734-826. */
  function StepRendezvous(c: Config, s: State, i: nat): (r: State)
    requires c.Valid() && Typed(c, s) && i < c.n
    ensures Typed(c, r)
  {
    match s.at.line[i]
    case 0 =>
      if s.uc.counter == MAX32 then Goto(s, i, 821)
      else
        var counted := s.loc.counted[i := true];
        Goto(s.(uc := s.uc.(counter := s.uc.counter + 1), loc := s.loc.(counted := counted)), i, 752)
    case 752 => Goto(s.(cpu := s.cpu.(present := s.cpu.present[i := true])), i, 780)
    case 780 => Goto(s.(uc := s.uc.(bspIndex := if s.uc.bspIndex == MAX32 then i else s.uc.bspIndex)), i, 790)
    case 790 => Goto(s, i, if s.uc.bspIndex == i then 202 else 375)
    case 814 => Goto(s.(cpu := s.cpu.(present := s.cpu.present[i := false])), i, 815)
    case 815 => Goto(s, i, 821)
    case _ => Goto(s, i, OUTSIDE)
  }

  function Nobody(n: nat): (m: seq<bool>)
    ensures |m| == n && forall i :: 0 <= i < n ==> !m[i]
  {
    seq(n, _ => false)
  }

  /** BSPHandler up to the first barrier, and its end. */
  function StepBsp(c: Config, s: State, i: nat): (r: State)
    requires c.Valid() && Typed(c, s) && i < c.n
    ensures Typed(c, r)
  {
    match s.at.line[i]
    case 202 => Goto(s.(uc := s.uc.(insideSmm := true)), i, 207)
    case 207 => Goto(s.(uc := s.uc.(current := i)), i, 212)
    case 212 => Goto(s, i, if s.uc.counter < c.n then 236 else 247)
    case 236 => Goto(s, i, 247)
    case 247 => Goto(s.(uc := s.uc.(inSync := true)), i, 252)
    case 252 =>
      var ap := Decrement32(s.uc.counter);
      Loop(s.(uc := s.uc.(counter := MAX32), loc := s.loc.(apCount := s.loc.apCount[i := ap])), i, 257, ap)
    case 301 => Goto(s.(cpu := s.cpu.(busy := s.cpu.busy[i := Released])), i, 302)
    case 302 =>
      var busy := if s.cpu.busy[i] == Released then s.cpu.busy[i := Acquired] else s.cpu.busy;
      Goto(s.(cpu := s.cpu.(busy := busy)), i, 307)
    case 319 => Loop(s.(uc := s.uc.(insideSmm := false)), i, 320, c.n)
    case 349 => Goto(s.(uc := s.uc.(bspIndex := MAX32)), i, 352)
    case 352 => Goto(s.(uc := s.uc.(counter := 0), loc := s.loc.(counted := Nobody(c.n))), i, 357)
    case _ => Goto(s.(uc := s.uc.(inSync := false)), i, 814)
  }

  /** Where BSPHandler goes after a wait. */
  function AfterWait(c: Config, l: nat): nat {
    if l == 257 then (if c.needMtrrs then 263 else 301)
    else if l == 278 then 283
    else if l == 295 then 301
    else if l == 325 && c.needMtrrs then 331
    else 349
  }

  /** The barriers of BSPHandler and the MTRR accesses between them. */
  function StepBarrier(c: Config, s: State, i: nat): (r: State)
    requires c.Valid() && Typed(c, s) && i < c.n
    ensures Typed(c, r)
  {
    var l, k := s.at.line[i], s.at.loop[i];
    if IsWait(l) then
      if k == 0 then Loop(s, i, AfterWait(c, l), c.n)
      else Loop(s.(cpu := s.cpu.(run := Take(s.cpu.run, s.uc.current))), i, l, k - 1)
    else if IsRelease(l) then
      if k == 0 then
        if l == 263 then Loop(s.(loc := s.loc.(saved := s.loc.saved[i := []])), i, 273, 0)
        else if l == 283 then Loop(s, i, 290, 0)
        else if l == 320 then Loop(s, i, 325, s.loc.apCount[i])
        else Loop(s, i, 337, 0)
      else
        var post := k - 1 != s.uc.current && At(s.cpu.present, k - 1, false);
        Loop(s.(cpu := s.cpu.(run := if post then Post(s.cpu.run, k - 1) else s.cpu.run)), i, l, k - 1)
    else if k >= c.Regs() then Loop(s, i, if l == 273 then 278 else if l == 290 then 295 else 342, s.loc.apCount[i])
    else if l == 273 then
      var saved := s.loc.saved[i] + [s.hw.mtrr[c.core[i]][k]];
      Loop(s.(loc := s.loc.(saved := s.loc.saved[i := saved])), i, l, k + 1)
    else if l == 290 then Loop(s.(hw := s.hw.(mtrr := WriteMtrr(c, s.hw.mtrr, i, k, c.smi[k]))), i, l, k + 1)
    else Loop(s.(hw := s.hw.(mtrr := WriteMtrr(c, s.hw.mtrr, i, k, At(s.loc.saved[i], k, 0)))), i, l, k + 1)
  }

  /** The SMM core on the BSP and SmmStartupThisAp, lines 307 and 701-723. */
  function StepStartup(c: Config, s: State, i: nat, ch: Choice): (r: State)
    requires c.Valid() && Typed(c, s) && i < c.n
    ensures Typed(c, r)
  {
    var t := s.uc.call.cpu;
    match s.at.line[i]
    case 307 => if ch.Return? then Goto(s, i, 319) else Goto(s.(uc := s.uc.(call := ch.task)), i, 707)
    case 707 => Goto(s, i, if t < c.n && t != s.uc.current && s.cpu.present[t] then 710 else 307)
    case 710 =>
      if At(s.cpu.busy, t, Unset) == Released then
        var posted := s.log.posted + [s.uc.call];
        Goto(s.(log := s.log.(posted := posted), cpu := s.cpu.(busy := Set(s.cpu.busy, t, Acquired))), i, 714)
      else Goto(s, i, 307)
    case 714 => Goto(s.(cpu := s.cpu.(procedure := Set(s.cpu.procedure, t, s.uc.call.procedure))), i, 715)
    case 715 => Goto(s.(cpu := s.cpu.(parameter := Set(s.cpu.parameter, t, s.uc.call.parameter))), i, 716)
    case 716 => Goto(s.(cpu := s.cpu.(run := Post(s.cpu.run, t))), i, 719)
    case 719 => Goto(s.(cpu := s.cpu.(busy := Set(s.cpu.busy, t, Acquired))), i, 720)
    case _ => Goto(s.(cpu := s.cpu.(busy := Set(s.cpu.busy, t, Released))), i, 307)
  }

  /** APHandler up to the work loop: lines 375-449. */
  function StepArrive(c: Config, s: State, i: nat): (r: State)
    requires c.Valid() && Typed(c, s) && i < c.n
    ensures Typed(c, r)
  {
    var k := s.at.loop[i];
    match s.at.line[i]
    case 375 => Goto(s.(loc := s.loc.(bsp := s.loc.bsp[i := s.uc.bspIndex])), i, 418)
    case 418 => Goto(s.(cpu := s.cpu.(run := Post(s.cpu.run, s.loc.bsp[i]))), i, if c.needMtrrs then 424 else 455)
    case 424 =>
      Loop(s.(cpu := s.cpu.(run := Take(s.cpu.run, i)), loc := s.loc.(saved := s.loc.saved[i := []])), i, 429, 0)
    case 429 =>
      if k >= c.Regs() then Goto(s, i, 434)
      else Loop(s.(loc := s.loc.(saved := s.loc.saved[i := s.loc.saved[i] + [s.hw.mtrr[c.core[i]][k]]])), i, 429, k + 1)
    case 434 => Goto(s.(cpu := s.cpu.(run := Post(s.cpu.run, s.loc.bsp[i]))), i, 439)
    case 439 => Loop(s.(cpu := s.cpu.(run := Take(s.cpu.run, i))), i, 444, 0)
    case 444 =>
      if k >= c.Regs() then Goto(s, i, 449)
      else Loop(s.(hw := s.hw.(mtrr := WriteMtrr(c, s.hw.mtrr, i, k, c.smi[k]))), i, 444, k + 1)
    case _ => Goto(s.(cpu := s.cpu.(run := Post(s.cpu.run, s.loc.bsp[i]))), i, 455)
  }

  /** APHandler after the work loop: lines 493-511. */
  function StepDepart(c: Config, s: State, i: nat): (r: State)
    requires c.Valid() && Typed(c, s) && i < c.n
    ensures Typed(c, r)
  {
    var k := s.at.loop[i];
    match s.at.line[i]
    case 493 => Goto(s.(cpu := s.cpu.(run := Post(s.cpu.run, s.uc.bspIndex))), i, if c.needMtrrs then 499 else 814)
    case 499 => Loop(s.(cpu := s.cpu.(run := Take(s.cpu.run, i))), i, 505, 0)
    case 505 =>
      if k >= c.Regs() then Goto(s, i, 510)
      else
        Loop(s.(hw := s.hw.(mtrr := WriteMtrr(c, s.hw.mtrr, i, k, At(s.loc.saved[i], k, 0)))), i, 505, k + 1)
    case _ => Goto(s.(cpu := s.cpu.(run := Post(s.cpu.run, s.loc.bsp[i]))), i, 814)
  }

  /** The work loop of APHandler, lines 455-488. */
  function StepTask(c: Config, s: State, i: nat): (r: State)
    requires c.Valid() && Typed(c, s) && i < c.n
    ensures Typed(c, r)
  {
    match s.at.line[i]
    case 455 => Goto(s.(cpu := s.cpu.(busy := s.cpu.busy[i := Released])), i, 461)
    case 461 => Goto(s.(cpu := s.cpu.(run := Take(s.cpu.run, i))), i, 466)
    case 466 => Goto(s, i, if s.uc.insideSmm then 474 else 493)
    case 474 => Goto(s, i, 480)
    case 480 =>
      Goto(s.(log := s.log.(executed := s.log.executed + [Task(i, s.cpu.procedure[i], s.cpu.parameter[i])])), i, 487)
    case _ => Goto(s.(cpu := s.cpu.(busy := s.cpu.busy[i := Released])), i, 461)
  }

  predicate InTask(l: nat) { 455 <= l <= 487 }

  predicate InArrive(l: nat) { 375 <= l <= 449 }

  predicate InDepart(l: nat) { 493 <= l <= 510 }

  predicate InBarrier(l: nat) { IsWait(l) || IsRelease(l) || l == 273 || l == 290 || l == 337 }

  predicate InStartup(l: nat) { l == 307 || IsStartup(l) }

  predicate InRendezvous(l: nat) { l == OUTSIDE || 752 <= l }

  /** The step of processor i; `ch` matters only in the SMM core. */
  function Step(c: Config, s: State, i: nat, ch: Choice): (r: State)
    requires c.Valid() && Typed(c, s) && i < c.n
    ensures Typed(c, r)
  {
    var l := s.at.line[i];
    if InRendezvous(l) then StepRendezvous(c, s, i)
    else if InTask(l) then StepTask(c, s, i)
    else if InArrive(l) then StepArrive(c, s, i)
    else if InDepart(l) then StepDepart(c, s, i)
    else if InBarrier(l) then StepBarrier(c, s, i)
    else if InStartup(l) then StepStartup(c, s, i, ch)
    else StepBsp(c, s, i)
  }

  /** The one obligation on the SMM core: do not start a task on an AP that has not yet executed line 455,
      which re-initialises the Busy lock. */
  ghost predicate Timely(s: State, i: nat)
    requires i < |s.at.line|
  {
    s.at.line[i] == 710 && At(s.cpu.busy, s.uc.call.cpu, Unset) == Released ==> At(s.at.line, s.uc.call.cpu, 0) != 455
  }

  /** The state InitializeUcData leaves: mSmmUcData zeroed, nobody elected. */
  ghost predicate Init(c: Config, s: State) {
    && c.Valid() && Typed(c, s)
    && (forall i :: 0 <= i < c.n ==>
      s.at.line[i] == OUTSIDE && s.cpu.run[i] == 0 && !s.cpu.present[i] && s.cpu.busy[i] == Unset && !s.loc.counted[i])
    && s.uc.counter == 0 && s.uc.bspIndex == MAX32 && !s.uc.insideSmm && !s.uc.inSync
    && s.hw.os == s.hw.mtrr && s.log.posted == [] && s.log.executed == []
  }

  /** Outside SMM the operating system may reprogram the MTRRs. */
  ghost predicate OsWrites(c: Config, s: State, s': State) {
    AllOutside(s) && WellFormedMtrrs(c, s'.hw.mtrr) && s' == s.(hw := s.hw.(mtrr := s'.hw.mtrr, os := s'.hw.mtrr))
  }

  ghost predicate CpuSteps(c: Config, s: State, s': State, i: nat, ch: Choice) {
    c.Valid() && Typed(c, s) && i < c.n && Enabled(s, i) && s' == Step(c, s, i, ch)
  }

  /** Any interleaving, any SMM core. */
  ghost predicate Next(c: Config, s: State, s': State) {
    OsWrites(c, s, s') || exists i, ch :: CpuSteps(c, s, s', i, ch)
  }

  ghost predicate TimelySteps(c: Config, s: State, s': State, i: nat, ch: Choice) {
    CpuSteps(c, s, s', i, ch) && Timely(s, i)
  }

  /** Any interleaving, an SMM core that starts tasks in time. */
  ghost predicate TimelyNext(c: Config, s: State, s': State) {
    OsWrites(c, s, s') || exists i, ch :: TimelySteps(c, s, s', i, ch)
  }

  ghost predicate IsRun(c: Config, r: seq<State>) {
    && |r| > 0 && Init(c, r[0])
    && (forall k :: 0 <= k < |r| ==> Typed(c, r[k]))
    && (forall k :: 0 <= k < |r| - 1 ==> TimelyNext(c, r[k], r[k + 1]))
  }
}
