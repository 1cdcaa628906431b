/** StartupAllAPs and CheckAllAPs of IA32FamilyCpuPkg/CpuMpDxe/MpService.c, with the application processors
    running concurrently: before the BSP looks at the state of an AP, and before it wakes or resets one, the APs take
    any number of steps.  Taking an AP off the list (which only the BSP reads) and setting it idle is one step. */
module Dispatch {
  import opened Counting

  datatype CpuState = Idle | Ready | Busy | Finished | Disabled

  /** Where an AP is: waiting to be woken; woken, before line 1308; before the procedure; after it. */
  datatype Phase = Waiting | Woken | Started | Executed

  /** CPU_DATA_BLOCK.State, the position of the AP in ApProcWrapper, and (history) how often it has run the
      procedure of the current dispatch. */
  datatype Ap = Ap(state: CpuState, phase: Phase, runs: nat)

  datatype Status = Success | NotStarted | NotReady | Timeout

  const END_OF_CPU_LIST: nat := 0xFFFF_FFFF

  /** The positions of the true elements, in ascending order. */
  function Indices(m: seq<bool>): (r: seq<nat>)
    ensures forall j :: 0 <= j < |r| ==> r[j] < |m| && m[r[j]]
    ensures forall i, j :: 0 <= i < j < |r| ==> r[i] < r[j]
    ensures forall k :: 0 <= k < |m| && m[k] ==> k in r
  {
    if |m| == 0 then [] else
    var r := Indices(m[..|m| - 1]);
    if m[|m| - 1] then r + [|m| - 1] else r
  }

  lemma {:induction false} IndicesCount(m: seq<bool>)
    ensures |Indices(m)| == Ones(m)
  {
    if |m| > 0 {
      IndicesCount(m[..|m| - 1]);
      OnesLast(m);
    }
  }

  lemma {:induction false} OnesLast(m: seq<bool>)
    requires |m| > 0
    ensures Ones(m) == Ones(m[..|m| - 1]) + (if m[|m| - 1] then 1 else 0)
  {
    if |m| > 1 {
      OnesLast(m[1..]);
      assert m[1..][..|m| - 2] == m[..|m| - 1][1..];
    }
  }

  /** One step of an AP in ApProcWrapper. */
  function ApStep(a: Ap): Ap {
    match a.phase
    case Waiting => a
    case Woken => Ap(Busy, Started, a.runs)
    case Started => Ap(a.state, Executed, a.runs + 1)
    case Executed => Ap(Finished, Waiting, a.runs)
  }

  /** An AP of the list: still to be woken, or on its way to having run the procedure once. */
  predicate Outstanding(a: Ap, active: bool) {
    match a.phase
    case Waiting => if active then a.state == Finished && a.runs == 1 else a.state == Ready && a.runs == 0
    case Woken => active && a.state == Ready && a.runs == 0
    case Started => active && a.state == Busy && a.runs == 0
    case Executed => active && a.state == Busy && a.runs == 1
  }

  /** Of the APs on the list, those that have been woken: all of them, or in single-thread mode only the first
      (and while `gap`, none). */
  predicate Active(list: seq<bool>, single: bool, gap: bool, i: nat)
    requires i <= |list|
  {
    !single || (!gap && forall j :: 0 <= j < i ==> !list[j])
  }

  /** A dispatch: the fields of mMPSystemData, and (history) which APs were started and the order in which they
      have run. */
  datatype Call = Call(single: bool, list: seq<bool>, aps: seq<Ap>, startCount: nat, finishCount: nat,
                       started: seq<bool>, order: seq<nat>)

  ghost predicate Sized(c: Call) { |c.list| == |c.aps| == |c.started| }

  /** Processor i, when the APs below k have been dispatched. */
  ghost predicate ApOk(c: Call, k: nat, gap: bool, i: nat)
    requires Sized(c) && i < |c.list|
  {
    var a := c.aps[i];
    if c.list[i] then
      && c.started[i]
      && if i < k then Outstanding(a, Active(c.list, c.single, gap, i)) else a == Ap(Idle, Waiting, 0)
    else a.phase == Waiting && a.runs == (if c.started[i] then 1 else 0) && (c.started[i] ==> a.state == Idle)
  }

  /** Which processors have run the procedure. */
  function Ran(aps: seq<Ap>): (m: seq<bool>)
    ensures |m| == |aps|
  {
    seq(|aps|, (i: nat) requires i < |aps| => aps[i].runs > 0)
  }

  /** The invariant of a pending dispatch.  In single-thread mode the acknowledged APs come before the
      outstanding ones, and the APs run in ascending order. */
  ghost predicate Pending(c: Call, k: nat, gap: bool) {
    && Sized(c) && k <= |c.list|
    && c.startCount == c.finishCount + Ones(c.list[..k])
    && (forall i :: 0 <= i < |c.list| ==> ApOk(c, k, gap, i))
    && (c.single ==>
      && (forall i, j :: 0 <= i < j < |c.list| && c.list[i] && c.started[j] ==> c.list[j])
      && c.order == Indices(Ran(c.aps)))
  }

  /** AP i takes a step. */
  function StepOf(c: Call, i: nat): Call
    requires i < |c.aps|
  {
    c.(aps := c.aps[i := ApStep(c.aps[i])], order := if c.aps[i].phase == Started then c.order + [i] else c.order)
  }

  lemma {:induction false} IndicesAppend(m: seq<bool>, i: nat)
    requires i < |m| && forall j :: i <= j < |m| ==> !m[j]
    ensures Indices(m[i := true]) == Indices(m) + [i]
  {
    var m' := m[i := true];
    if i == |m| - 1 {
      assert m'[..|m| - 1] == m[..|m| - 1];
    } else {
      assert m'[..|m| - 1] == m[..|m| - 1][i := true];
      IndicesAppend(m[..|m| - 1], i);
    }
  }

  lemma ApStepPending(c: Call, k: nat, gap: bool, i: nat)
    requires Pending(c, k, gap) && i < |c.aps| && c.aps[i].phase != Waiting
    ensures Pending(StepOf(c, i), k, gap)
  {
    var c' := StepOf(c, i);
    forall j | 0 <= j < |c.list| ensures ApOk(c', k, gap, j) {
      assert ApOk(c, k, gap, j);
    }
    if c.single {
      assert ApOk(c, k, gap, i);
      if c.aps[i].phase == Started {
        forall j | i <= j < |c.aps| ensures !Ran(c.aps)[j] { assert ApOk(c, k, gap, j); }
        IndicesAppend(Ran(c.aps), i);
        assert Ran(c'.aps) == Ran(c.aps)[i := true];
      } else {
        assert Ran(c'.aps) == Ran(c.aps);
      }
    }
  }

  function Acknowledged(c: Call, i: nat): Call
    requires i < |c.list| && i < |c.aps|
  {
    c.(list := c.list[i := false], aps := c.aps[i := c.aps[i].(state := Idle)], finishCount := c.finishCount + 1)
  }

  /** The BSP acknowledges AP i, which has finished. */
  lemma Acknowledges(c: Call, i: nat)
    requires Pending(c, |c.list|, false) && i < |c.aps| && c.list[i] && c.aps[i].state == Finished
    ensures Pending(Acknowledged(c, i), |c.list|, true)
  {
    var c' := Acknowledged(c, i);
    assert ApOk(c, |c.list|, false, i);
    forall j | 0 <= j < |c.list| ensures ApOk(c', |c.list|, true, j) {
      assert ApOk(c, |c.list|, false, j);
    }
    OnesUpdate(c.list, i, false);
    assert c.list[..|c.list|] == c.list && c'.list[..|c.list|] == c'.list;
    assert Ran(c'.aps) == Ran(c.aps);
  }

  /** Waking the first AP of the list ends the gap. */
  lemma Wakes(c: Call, i: nat)
    requires Pending(c, |c.list|, true) && c.single && i < |c.list| && c.list[i]
    requires forall j :: 0 <= j < i ==> !c.list[j]
    ensures Pending(c.(aps := c.aps[i := c.aps[i].(phase := Woken)]), |c.list|, false)
  {
    var c' := c.(aps := c.aps[i := c.aps[i].(phase := Woken)]);
    forall j | 0 <= j < |c.list| ensures ApOk(c', |c.list|, false, j) {
      assert ApOk(c, |c.list|, true, j);
    }
    assert Ran(c'.aps) == Ran(c.aps);
  }

  lemma NoGap(c: Call)
    requires Pending(c, |c.list|, true) && (!c.single || forall j :: 0 <= j < |c.list| ==> !c.list[j])
    ensures Pending(c, |c.list|, false)
  {
    forall j | 0 <= j < |c.list| ensures ApOk(c, |c.list|, false, j) {
      assert ApOk(c, |c.list|, true, j);
    }
  }

  /** While a dispatch is pending, at most one AP is between being woken and being acknowledged in single-thread
      mode; and everybody who is not on the list any more has run the procedure exactly once. */
  lemma SingleThreadSerialises(c: Call, i: nat, j: nat)
    requires Pending(c, |c.list|, false) && c.single && i < |c.aps| && j < |c.aps|
    requires c.list[i] && c.list[j] && c.aps[i].(runs := 0) != Ap(Ready, Waiting, 0)
      && c.aps[j].(runs := 0) != Ap(Ready, Waiting, 0)
    ensures i == j
  {
    assert ApOk(c, |c.list|, false, i) && ApOk(c, |c.list|, false, j);
  }

  lemma {:induction false} IndicesGrow(m: seq<bool>, k: nat)
    requires k <= |m|
    ensures |Indices(m[..k])| <= |Indices(m)|
    decreases |m|
  {
    if k < |m| {
      IndicesGrow(m[..|m| - 1], k);
      assert m[..|m| - 1][..k] == m[..k];
    } else {
      assert m[..k] == m;
    }
  }

  lemma IndicesNext(m: seq<bool>, i: nat)
    requires i < |m|
    ensures Indices(m[..i + 1]) == Indices(m[..i]) + (if m[i] then [i] else [])
    ensures |Indices(m[..i + 1])| <= |Indices(m)|
  {
    assert m[..i + 1][..i] == m[..i];
    IndicesGrow(m, i + 1);
  }

  /** FinishCount reaches StartCount exactly when the list is empty, and then everybody has run once. */
  lemma AllAcknowledged(c: Call)
    requires Pending(c, |c.list|, false)
    ensures c.startCount == c.finishCount + Ones(c.list)
    ensures c.finishCount == c.startCount <==> forall i :: 0 <= i < |c.list| ==> !c.list[i]
    ensures forall i :: 0 <= i < |c.list| && !c.list[i] ==>
      c.aps[i].phase == Waiting && if c.started[i] then c.aps[i] == Ap(Idle, Waiting, 1) else c.aps[i].runs == 0
  {
    assert c.list[..|c.list|] == c.list;
    OnesZero(c.list);
    forall i | 0 <= i < |c.list| && !c.list[i]
      ensures c.aps[i].phase == Waiting && if c.started[i] then c.aps[i] == Ap(Idle, Waiting, 1) else c.aps[i].runs == 0
    {
      assert ApOk(c, |c.list|, false, i);
    }
  }

  /** One more processor has been dispatched: AP i, if it is on the list, is ready and perhaps woken. */
  lemma Starts(c: Call, i: nat, wake: bool, gap: bool)
    requires i < |c.list| && Pending(c, i, gap)
    requires c.list[i] ==> wake == (!c.single || gap)
    requires gap ==> c.single
    requires c.single ==> (gap <==> forall j :: 0 <= j < i ==> !c.list[j])
    ensures !c.list[i] ==> Pending(c, i + 1, gap)
    ensures c.list[i] ==>
      var a := Ap(Ready, if wake then Woken else Waiting, 0);
      Pending(c.(startCount := c.startCount + 1, aps := c.aps[i := a]), i + 1, false)
  {
    var a := Ap(Ready, if wake then Woken else Waiting, 0);
    var c' := if c.list[i] then c.(startCount := c.startCount + 1, aps := c.aps[i := a]) else c;
    var gap', k' := gap && !c.list[i], i + 1;
    OnesLast(c.list[..i + 1]);
    assert c.list[..i + 1][..i] == c.list[..i];
    forall j | 0 <= j < |c.list| ensures ApOk(c', k', gap', j) {
      assert ApOk(c, i, gap, j);
    }
    assert ApOk(c, i, gap, i);
    assert Ran(c'.aps) == Ran(c.aps);
  }

  lemma Undispatched(c: Call, gap: bool)
    requires Sized(c) && c.started == c.list && c.startCount == c.finishCount == 0 && c.order == []
    requires forall i :: 0 <= i < |c.list| ==>
      if c.list[i] then c.aps[i] == Ap(Idle, Waiting, 0) else c.aps[i].phase == Waiting && c.aps[i].runs == 0
    ensures Pending(c, 0, gap)
  {
    IndicesCount(Ran(c.aps));
    OnesNone(Ran(c.aps));
  }

  /** The list after the check for idle APs (lines 292-310), which stops at the first busy AP, k. */
  function Marked(list: seq<bool>, aps: seq<Ap>, bsp: nat, k: nat): seq<bool>
    requires |list| == |aps|
  {
    seq(|list|, (i: nat) requires i < |list| => if i < k then i != bsp && aps[i].state == Idle else i != k && list[i])
  }

  predicate IsBusy(aps: seq<Ap>, bsp: nat, i: nat)
    requires i < |aps|
  {
    i != bsp && aps[i].state != Disabled && aps[i].state != Idle
  }

  /** The first busy AP, or the number of processors. */
  function FirstBusy(aps: seq<Ap>, bsp: nat, i: nat): (k: nat)
    requires i <= |aps|
    ensures i <= k <= |aps| && (k < |aps| ==> IsBusy(aps, bsp, k)) && forall j :: i <= j < k ==> !IsBusy(aps, bsp, j)
    decreases |aps| - i
  {
    if i == |aps| || IsBusy(aps, bsp, i) then i else FirstBusy(aps, bsp, i + 1)
  }

  /** mMPSystemData, with the APs beside it. */
  class MpServices {
    const n: nat
    const bsp: nat
    var aps: seq<Ap>
    var cpuList: seq<bool>
    var startCount: nat
    var finishCount: nat
    var singleThread: bool
    ghost var started: seq<bool>
    ghost var order: seq<nat>

    ghost predicate Valid()
      reads this
    {
      |aps| == |cpuList| == |started| == n && bsp < n
    }

    ghost function Contents(single: bool): Call
      reads this
    {
      Call(single, cpuList, aps, startCount, finishCount, started, order)
    }

    /** Interference: the APs take any number of steps. */
    method RunAps(ghost single: bool, ghost k: nat, ghost gap: bool)
      requires Valid()
      modifies this`aps, this`order
      ensures Valid()
      ensures old(Pending(Contents(single), k, gap)) ==> Pending(Contents(single), k, gap)
      ensures forall i :: 0 <= i < n && old(aps[i]).phase == Waiting ==> aps[i] == old(aps[i])
    {
      var steps: int := *;
      for s := 0 to if steps < 0 then 0 else steps
        invariant Valid()
        invariant old(Pending(Contents(single), k, gap)) ==> Pending(Contents(single), k, gap)
        invariant forall i :: 0 <= i < n && old(aps[i]).phase == Waiting ==> aps[i] == old(aps[i])
      {
        var i: int := *;
        if 0 <= i < n && aps[i].phase != Waiting {
          if Pending(Contents(single), k, gap) { ApStepPending(Contents(single), k, gap, i); }
          if aps[i].phase == Started { order := order + [i]; }
          aps := aps[i := ApStep(aps[i])];
        }
      }
    }

    /** WakeUpAp */
    method WakeUpAp(i: nat)
      requires Valid() && i < n
      modifies this`aps
      ensures Valid() && aps == old(aps)[i := old(aps[i]).(phase := Woken)]
    {
      aps := aps[i := aps[i].(phase := Woken)];
    }

    /** ResetProcessorToIdleState: INIT aborts whatever the AP is doing. */
    method ResetProcessorToIdleState(i: nat)
      requires Valid() && i < n
      modifies this`aps
      ensures Valid() && aps == old(aps)[i := Ap(Idle, Waiting, old(aps[i]).runs)]
    {
      aps := aps[i := aps[i].(phase := Waiting)];
      aps := aps[i := aps[i].(state := Idle)];
    }

    /** GetNextWaitingProcessorNumber */
    method GetNextWaitingProcessorNumber() returns (found: bool, next: nat)
      requires Valid()
      ensures found ==> next < n && cpuList[next] && forall j :: 0 <= j < next ==> !cpuList[j]
      ensures !found ==> forall j :: 0 <= j < n ==> !cpuList[j]
    {
      next := 0;
      for i := 0 to n
        invariant forall j :: 0 <= j < i ==> !cpuList[j]
      {
        if cpuList[i] { return true, i; }
      }
      return false, 0;
    }

    /** Lines 918-938: the BSP acknowledges AP i and, in single-thread mode, wakes the next one. */
    method Acknowledge(i: nat)
      requires Valid() && i < n && Pending(Contents(singleThread), n, false) && cpuList[i] && aps[i].state == Finished
      modifies this`aps, this`order, this`cpuList, this`finishCount
      ensures Valid() && Pending(Contents(singleThread), n, false) && cpuList == old(cpuList)[i := false]
      ensures forall j :: 0 <= j < n && j != i && old(aps[j]).phase == Waiting ==> aps[j].state == old(aps[j]).state
    {
      hide Pending;
      Acknowledges(Contents(singleThread), i);
      finishCount := finishCount + 1;
      cpuList := cpuList[i := false];
      aps := aps[i := aps[i].(state := Idle)];
      RunAps(singleThread, n, true);
      var found, next := false, 0;
      if singleThread { found, next := GetNextWaitingProcessorNumber(); }
      if found {
        Wakes(Contents(singleThread), next);
        WakeUpAp(next);
      } else {
        NoGap(Contents(singleThread));
      }
    }

    /** Lines 902-939 for one processor. */
    method CheckOneAp(i: nat)
      requires Valid() && i < n && Pending(Contents(singleThread), n, false)
      modifies this`aps, this`order, this`cpuList, this`finishCount
      ensures Valid() && Pending(Contents(singleThread), n, false)
      ensures cpuList == old(cpuList) || (old(cpuList[i]) && cpuList == old(cpuList)[i := false])
      ensures forall j :: 0 <= j < n && old(cpuList[j]) && old(aps[j]).state == Finished ==>
        if j == i then !cpuList[j] else aps[j].state == Finished
    {
      if cpuList[i] {
        forall j | 0 <= j < n && cpuList[j] && aps[j].state == Finished ensures aps[j].phase == Waiting {
          assert ApOk(Contents(singleThread), n, false, j);
        }
        RunAps(singleThread, n, false);
        if aps[i].state == Finished { Acknowledge(i); }
      }
    }

    /** CheckAllAPs.  `expired` is the answer of CheckTimeout, `wanted` tells whether the caller asked for
        FailedCpuList; `outstanding` (ghost) are the APs on the list when the timeout is handled. */
    method CheckAllAPs(expired: bool, wanted: bool)
      returns (status: Status, failed: array?<nat>, ghost outstanding: seq<bool>)
      requires Valid() && Pending(Contents(singleThread), n, false)
      modifies this`aps, this`order, this`cpuList, this`finishCount
      ensures Valid() && |outstanding| == n
      ensures status == Success || status == NotReady || status == Timeout
      ensures forall i :: 0 <= i < n && outstanding[i] ==> old(cpuList[i]) && old(aps[i]).state != Finished
      // success: every AP that was started has run the procedure exactly once and is idle again
      ensures status == Success ==>
        forall i :: 0 <= i < n ==> !cpuList[i] && (started[i] ==> aps[i] == Ap(Idle, Waiting, 1))
      ensures status == Success && singleThread ==> order == Indices(started)
      // not ready: still pending, with somebody outstanding
      ensures status == NotReady ==> !expired && cpuList == outstanding && Pending(Contents(singleThread), n, false)
      ensures status != Success ==> exists i :: 0 <= i < n && outstanding[i]
      // timeout: the outstanding APs are aborted and reported, everybody else has finished
      ensures status == Timeout ==> expired && forall i :: 0 <= i < n ==>
        && !cpuList[i]
        && (started[i] ==> aps[i].state == Idle && aps[i].phase == Waiting && (!outstanding[i] ==> aps[i].runs == 1))
      ensures failed == null <==> status != Timeout || !wanted
      ensures failed != null ==> failed[..] == Indices(outstanding) + [0xFFFF_FFFF]
    {
      failed := null;
      for i := 0 to n
        invariant Valid() && Pending(Contents(singleThread), n, false)
        invariant forall j :: 0 <= j < n && cpuList[j] ==> old(cpuList[j])
        invariant forall j :: 0 <= j < i && cpuList[j] ==> old(aps[j]).state != Finished
        invariant forall j :: 0 <= j < n && old(cpuList[j]) && old(aps[j]).state == Finished && cpuList[j] ==>
          aps[j].state == Finished
      {
        CheckOneAp(i);
      }
      outstanding := cpuList;
      AllAcknowledged(Contents(singleThread));
      assert finishCount == startCount ==> Ran(aps) == started;
      if finishCount == startCount { return Success, null, outstanding; }
      if !expired { return NotReady, null, outstanding; }
      status := Timeout;
      IndicesCount(cpuList);
      failed := ReportFailures(wanted);
    }

    /** Of the processors in `list`, those below i are idle again and off the list; the others are as they were. */
    ghost predicate Reset(list: seq<bool>, before: seq<Ap>, i: nat)
      reads this
    {
      && |list| == |before| == |aps| == |cpuList| && i <= |list|
      && (forall j :: 0 <= j < i ==> !cpuList[j] && (list[j] ==> aps[j].state == Idle && aps[j].phase == Waiting))
      && (forall j :: 0 <= j < |list| && !list[j] ==> aps[j] == before[j] && aps[j].phase == Waiting)
    }

    /** Lines 966-971 for one processor. */
    method AbortAp(i: nat, ghost list: seq<bool>, ghost before: seq<Ap>) returns (listed: bool)
      requires Valid() && i < n && Reset(list, before, i) && forall j :: i <= j < n ==> cpuList[j] == list[j]
      modifies this`aps, this`order, this`cpuList
      ensures Valid() && Reset(list, before, i + 1) && forall j :: i < j < n ==> cpuList[j] == list[j]
      ensures listed == list[i]
    {
      RunAps(singleThread, n, false);
      listed := cpuList[i];
      if listed {
        ResetProcessorToIdleState(i);
        cpuList := cpuList[i := false];
      }
    }

    /** Lines 956-980: the outstanding APs are listed in ascending order, filling the allocated list exactly. */
    method ReportFailures(wanted: bool) returns (failed: array?<nat>)
      requires Valid() && Reset(cpuList, aps, 0) && startCount == finishCount + |Indices(cpuList)|
      modifies this`aps, this`order, this`cpuList
      ensures Valid() && Reset(old(cpuList), old(aps), n)
      ensures failed == null <==> !wanted
      ensures failed != null ==> fresh(failed) && failed[..] == Indices(old(cpuList)) + [END_OF_CPU_LIST]
    {
      ghost var list := cpuList;
      var capacity := if wanted then startCount - finishCount + 1 else 0;
      var a := new nat[capacity];
      var listIndex := 0;
      for i := 0 to n
        invariant Valid() && Reset(list, old(aps), i) && forall j :: i <= j < n ==> cpuList[j] == list[j]
        invariant wanted ==> listIndex < a.Length && a[..listIndex] == Indices(list[..i])
      {
        IndicesNext(list, i);
        var listed := AbortAp(i, list, old(aps));
        if listed && wanted {
          a[listIndex] := i;
          assert a[..listIndex + 1] == Indices(list[..i]) + [i];
          listIndex := listIndex + 1;
        }
      }
      assert list[..n] == list;
      if wanted {
        a[listIndex] := END_OF_CPU_LIST;
        assert a[..listIndex + 1] == Indices(list) + [END_OF_CPU_LIST];
      }
      failed := if wanted then a else null;
    }

    /** Idle and disabled processors, and the BSP, are not running a procedure. */
    ghost predicate Settled()
      reads this
    {
      Valid() && forall i :: 0 <= i < n && !IsBusy(aps, bsp, i) ==> aps[i].phase == Waiting
    }

    /** Lines 292-310 */
    method MarkIdleAps() returns (ready: bool)
      requires Valid()
      modifies this`cpuList
      ensures Valid() && cpuList == Marked(old(cpuList), aps, bsp, FirstBusy(aps, bsp, 0))
      ensures ready <==> FirstBusy(aps, bsp, 0) == n
    {
      ghost var list := cpuList;
      for i := 0 to n
        invariant Valid() && FirstBusy(aps, bsp, 0) == FirstBusy(aps, bsp, i)
        invariant forall j :: 0 <= j < n ==> cpuList[j] == if j < i then j != bsp && aps[j].state == Idle else list[j]
      {
        cpuList := cpuList[i := false];
        if i != bsp {
          if aps[i].state != Disabled {
            if aps[i].state != Idle { return false; }
            cpuList := cpuList[i := true];
          }
        }
      }
      return true;
    }

    /** Lines 321-344 for one processor. */
    method StartOneAp(i: nat, single: bool, blocking: bool) returns (blocking': bool)
      requires Valid() && i < n && Pending(Contents(single), i, single && !blocking)
      requires if single then blocking <==> exists j :: 0 <= j < i && cpuList[j] else !blocking
      modifies this`aps, this`order, this`startCount
      ensures Valid() && Pending(Contents(single), i + 1, single && !blocking')
      ensures if single then blocking' <==> exists j :: 0 <= j <= i && cpuList[j] else !blocking'
      ensures startCount == old(startCount) + (if cpuList[i] then 1 else 0)
    {
      RunAps(single, i, single && !blocking);
      blocking' := blocking;
      Starts(Contents(single), i, !blocking, single && !blocking);
      if cpuList[i] {
        assert ApOk(Contents(single), i, single && !blocking, i);
        ghost var next := aps[i := Ap(Ready, if !blocking then Woken else Waiting, 0)];
        startCount := startCount + 1;
        aps := aps[i := aps[i].(state := Ready)];
        if !blocking { WakeUpAp(i); }
        assert aps == next;
        if single { blocking' := true; }
      }
    }

    /** Lines 312-345: every AP of the list is made ready and, except in single-thread mode for all but the
        first, woken. */
    method DispatchAll(single: bool)
      requires Valid() && forall i :: 0 <= i < n ==> aps[i].phase == Waiting && (cpuList[i] ==> aps[i].state == Idle)
      modifies this
      ensures Valid() && Pending(Contents(single), n, false) && cpuList == old(cpuList) && started == old(cpuList)
      ensures finishCount == 0 && startCount == Ones(cpuList)
    {
      finishCount, startCount := 0, 0;
      started, order := cpuList, [];
      aps := seq(n, i requires 0 <= i < n <= |aps| reads this => aps[i].(runs := 0));
      var blocking := false;
      Undispatched(Contents(single), single);
      hide Pending, Indices;
      for i := 0 to n
        invariant Valid() && Pending(Contents(single), i, single && !blocking)
        invariant if single then blocking <==> exists j :: 0 <= j < i && cpuList[j] else !blocking
        invariant finishCount == 0 && cpuList == started == old(cpuList)
      {
        blocking := StartOneAp(i, single, blocking);
      }
      if single && !blocking { NoGap(Contents(single)); }
      AllAcknowledged(Contents(single));
    }

    /** StartupAllAPs up to line 370.  When an AP is busy nothing is dispatched, but the list has already been
        overwritten up to that AP. */
    method StartupAllAPs(single: bool) returns (status: Status)
      requires Settled()
      modifies this
      ensures Valid()
      ensures status == NotReady || status == NotStarted || status == Success
      ensures status == NotReady <==> FirstBusy(old(aps), bsp, 0) < n
      ensures status == NotReady ==>
        Contents(singleThread)
        == old(Contents(singleThread).(list := Marked(cpuList, aps, bsp, FirstBusy(aps, bsp, 0))))
      ensures status == NotStarted <==> forall i :: 0 <= i < n && i != bsp ==> old(aps[i]).state == Disabled
      ensures status == Success ==> singleThread == single && Pending(Contents(single), n, false)
      ensures status == Success ==>
        started == cpuList == old(Marked(cpuList, aps, bsp, n)) && startCount == Ones(cpuList)
    {
      var ready := MarkIdleAps();
      if !ready { return NotReady; }
      DispatchAll(single);
      OnesZero(cpuList);
      forall i | 0 <= i < n && i != bsp ensures cpuList[i] <==> old(aps[i]).state != Disabled {
        assert !IsBusy(old(aps), bsp, i);
      }
      assert !cpuList[bsp];
      if startCount == 0 { return NotStarted; }
      singleThread := single;
      return Success;
    }

    /** Lines 380-384: poll until the dispatch is over; `expiries` are the answers of CheckTimeout, `outstanding`
        (ghost) the APs on the list when the timeout is handled. */
    method WaitForAllAPs(expiries: seq<bool>, wanted: bool)
      returns (status: Status, failed: array?<nat>, ghost outstanding: seq<bool>)
      requires Valid() && Pending(Contents(singleThread), n, false)
      modifies this`aps, this`order, this`cpuList, this`finishCount
      ensures Valid() && |outstanding| == n
      ensures status == Success ==> forall i :: 0 <= i < n && started[i] ==> aps[i] == Ap(Idle, Waiting, 1)
      ensures status == Success && singleThread ==> order == Indices(started)
      // not ready: no timeout so far, and still pending
      ensures status == NotReady ==>
        Pending(Contents(singleThread), n, false) && forall k :: 0 <= k < |expiries| ==> !expiries[k]
      // timeout: at the first poll that finds the timer expired; the outstanding APs are aborted and reported, and
      // everybody else has run exactly once
      ensures status == Timeout ==>
        exists k :: 0 <= k < |expiries| && expiries[k] && forall j :: 0 <= j < k ==> !expiries[j]
      ensures status == Timeout ==>
        (exists i :: 0 <= i < n && outstanding[i]) && forall i :: 0 <= i < n && outstanding[i] ==> old(cpuList[i])
      ensures status == Timeout ==> forall i :: 0 <= i < n && started[i] ==>
        aps[i].state == Idle && aps[i].phase == Waiting && (!outstanding[i] ==> aps[i].runs == 1)
      ensures failed != null <==> status == Timeout && wanted
      ensures failed != null ==> failed[..] == Indices(outstanding) + [0xFFFF_FFFF]
    {
      hide Pending, Indices;
      status, failed, outstanding := NotReady, null, cpuList;
      for poll := 0 to |expiries|
        invariant Valid() && Pending(Contents(singleThread), n, false) && status == NotReady && failed == null
        invariant forall k :: 0 <= k < poll ==> !expiries[k]
        invariant forall i :: 0 <= i < n && cpuList[i] ==> old(cpuList[i])
        invariant |outstanding| == n
      {
        status, failed, outstanding := CheckAllAPs(expiries[poll], wanted);
        if status != NotReady { return; }
      }
    }
  }

  // ---- a second StartupAllAPs while one is pending ----

  lemma {:induction false} OnesDisjoint(a: seq<bool>, b: seq<bool>, u: seq<bool>)
    requires |a| == |b| == |u| && forall i :: 0 <= i < |a| ==> u[i] == (a[i] || b[i]) && !(a[i] && b[i])
    ensures Ones(u) == Ones(a) + Ones(b)
  {
    if |a| > 0 { OnesDisjoint(a[1..], b[1..], u[1..]); }
  }

  /** The idle APs before processor k. */
  function IdleBelow(aps: seq<Ap>, bsp: nat, k: nat): (m: seq<bool>)
    ensures |m| == |aps|
  {
    seq(|aps|, (i: nat) requires i < |aps| => i < k && i != bsp && aps[i].state == Idle)
  }

  /** It is refused, but the first outstanding AP falls off the list, so that its end is never acknowledged; the
      count of processors comes out right only if exactly one idle AP takes its place. */
  lemma SecondStartLosesAnAp(c: Call, bsp: nat)
    requires Pending(c, |c.list|, false) && (exists i :: 0 <= i < |c.list| && c.list[i]) && bsp < |c.list|
      && !c.list[bsp]
    requires forall i :: 0 <= i < |c.list| && IsBusy(c.aps, bsp, i) ==> c.list[i]
    ensures var k := FirstBusy(c.aps, bsp, 0);
      && k < |c.list| && c.list[k] && !Marked(c.list, c.aps, bsp, k)[k]
      && (c.startCount == c.finishCount + Ones(Marked(c.list, c.aps, bsp, k)) <==> Ones(IdleBelow(c.aps, bsp, k)) == 1)
  {
    var k := FirstBusy(c.aps, bsp, 0);
    forall i | 0 <= i < |c.list| && c.list[i] ensures IsBusy(c.aps, bsp, i) { assert ApOk(c, |c.list|, false, i); }
    OnesUpdate(c.list, k, false);
    OnesDisjoint(IdleBelow(c.aps, bsp, k), c.list[k := false], Marked(c.list, c.aps, bsp, k));
    assert c.list[..|c.list|] == c.list;
  }
}
