/** Why a round may start only when the previous one has drained: a processor that enters earlier leaks a token to
    a processor that has not cleared its Present flag yet, and the assertion of line 815 fails. */
module SmmOverlap {
  import opened SmmState
  import opened SmmInvariant
  import opened SmmProgress
  import opened SmmWitness

  /** Processor j, alone in a new round, is on its way to its first ReleaseAllAPs; processor i is still at line 814
      of the previous round. */
  ghost predicate Leaking(c: Config, s: State, i: nat, j: nat) {
    && c.Valid() && Typed(c, s) && i < c.n && j < c.n && i != j
    && s.at.line[i] == 814 && s.cpu.present[i] && s.cpu.run[i] == 0
    && (Early(c, s, j) || Late(c, s, i, j))
  }

  /** Up to the lock of Counter. */
  ghost predicate Early(c: Config, s: State, j: nat)
    requires Typed(c, s) && j < c.n
  {
    var l := s.at.line[j];
    && s.uc.counter == 1
    && (l == 752 || l == 780 || l == 790 || l == 202 || l == 207 || l == 212 || l == 236 || l == 247 || l == 252)
    && s.uc.bspIndex == (if l == 752 || l == 780 then MAX32 else j)
    && (212 <= l <= 252 ==> s.uc.current == j)
  }

  ghost predicate Late(c: Config, s: State, i: nat, j: nat)
    requires Typed(c, s) && j < c.n
  {
    var l := s.at.line[j];
    && s.uc.current == j && s.loc.apCount[j] == 0
    && ((l == 257 && s.at.loop[j] == 0) || l == 301 || l == 302 || l == 307 || l == 319
        || ((l == 263 || l == 320) && i < s.at.loop[j] <= c.n))
  }

  ghost predicate AboutToPost(s: State, i: nat, j: nat)
    requires j < |s.at.line| == |s.at.loop|
  {
    (s.at.line[j] == 263 || s.at.line[j] == 320) && s.at.loop[j] == i + 1
  }

  lemma EarlyStep(c: Config, s: State, i: nat, j: nat)
    requires Leaking(c, s, i, j) && Early(c, s, j)
    ensures Enabled(s, j) && Leaking(c, Step(c, s, j, Return), i, j)
    ensures var s' := Step(c, s, j, Return); Rank(c, s'.at.line[j], s'.at.loop[j]) < Rank(c, s.at.line[j], s.at.loop[j])
  {
    hide Draining, WriteMtrr;
    if s.at.line[j] == 752 || s.at.line[j] == 780 {
      RendezvousRank(c, s, j);
    } else if s.at.line[j] != 790 {
      BspLineRank(c, s, j);
    }
  }

  lemma LateStep(c: Config, s: State, i: nat, j: nat)
    requires Leaking(c, s, i, j) && !Early(c, s, j) && !AboutToPost(s, i, j)
    ensures Enabled(s, j) && Leaking(c, Step(c, s, j, Return), i, j)
    ensures var s' := Step(c, s, j, Return); Rank(c, s'.at.line[j], s'.at.loop[j]) < Rank(c, s.at.line[j], s.at.loop[j])
  {
    hide Ahead, StepRendezvous;
    if s.at.line[j] == 257 {
      WaitRank(c, s, j);
    } else if s.at.line[j] == 307 {
      StartupRank(c, s, j);
    } else if IsRelease(s.at.line[j]) {
      ReleaseRank(c, s, j);
    } else {
      BspLineRank(c, s, j);
    }
  }

  /** A run by the rules, from any state. */
  ghost predicate Follows(c: Config, r: seq<State>) {
    && |r| > 0
    && (forall k :: 0 <= k < |r| ==> Typed(c, r[k]))
    && (forall k :: 0 <= k < |r| - 1 ==> TimelyNext(c, r[k], r[k + 1]))
  }

  lemma FollowsCons(c: Config, s: State, i: nat, r: seq<State>)
    requires c.Valid() && Typed(c, s) && i < c.n && Enabled(s, i) && Timely(s, i)
    requires Follows(c, r) && r[0] == Step(c, s, i, Return)
    ensures Follows(c, [s] + r)
  {
    hide Enabled, Timely, Step;
    assert TimelySteps(c, s, r[0], i, Return);
    var q := [s] + r;
    forall k | 0 <= k < |q| - 1 ensures TimelyNext(c, q[k], q[k + 1]) {
      if k > 0 { assert TimelyNext(c, r[k - 1], r[k - 1 + 1]); }
    }
  }

  /** In ReleaseAllAPs j posts to i, whose Present flag is still set, and i gets to line 815. */
  lemma Posted(c: Config, s: State, i: nat, j: nat) returns (r: seq<State>)
    requires Leaking(c, s, i, j) && AboutToPost(s, i, j)
    ensures Follows(c, r) && r[0] == s && Last(r).at.line[i] == 815 && Last(r).cpu.run[i] == 1
  {
    var s1 := Step(c, s, j, Return);
    assert s1.at.line[i] == 814 && s1.cpu.run[i] == 1;
    var s2 := Step(c, s1, i, Return);
    FollowsCons(c, s1, i, [s2]);
    FollowsCons(c, s, j, [s1] + [s2]);
    r := [s] + ([s1] + [s2]);
  }

  lemma {:induction false} RunsToLeak(c: Config, s: State, i: nat, j: nat) returns (r: seq<State>)
    requires Leaking(c, s, i, j)
    ensures Follows(c, r) && r[0] == s && Last(r).at.line[i] == 815 && Last(r).cpu.run[i] == 1
    decreases Rank(c, s.at.line[j], s.at.loop[j])
  {
    if AboutToPost(s, i, j) {
      r := Posted(c, s, i, j);
    } else {
      if Early(c, s, j) { EarlyStep(c, s, i, j); } else { LateStep(c, s, i, j); }
      assert Timely(s, j);
      hide Step, Enabled, Timely, Early, Late, AboutToPost, Rank;
      r := RunsToLeak(c, Step(c, s, j, Return), i, j);
      FollowsCons(c, s, j, r);
      r := [s] + r;
    }
  }

  /** Line 357: the BSP goes on to line 814. */
  lemma BspGoesOn(c: Config, s: State, i: nat, j: nat)
    requires c.Valid() && Typed(c, s) && i < c.n && j < c.n && i != j && Early(c, s, j)
    requires s.at.line[i] == 357 && s.cpu.present[i] && s.cpu.run[i] == 0
    ensures Enabled(s, i) && Timely(s, i) && Leaking(c, Step(c, s, i, Return), i, j)
  {
  }

  /** Whenever a round is draining, any processor j that entered now could, by steps that are all according to the
      rules, give a token to any processor i that has not cleared its Present flag, so that i fails the assertion of
      line 815. */
  lemma EarlyEntryLeaks(c: Config, s: State, i: nat, j: nat) returns (r: seq<State>)
    requires Drain(c, s) && i < c.n && s.cpu.present[i] && j < c.n && s.at.line[j] == OUTSIDE
    ensures !Enabled(s, j)
    ensures Follows(c, r) && r[0] == Step(c, s, j, Return)
    ensures Last(r).at.line[i] == 815 && Last(r).cpu.run[i] == 1
  {
    assert DrainCpu(c, s, i) && DrainCpu(c, s, j);
    var s' := Step(c, s, j, Return);
    assert Early(c, s', j);
    if s.at.line[i] == 814 {
      r := RunsToLeak(c, s', i, j);
    } else {
      BspGoesOn(c, s', i, j);
      r := RunsToLeak(c, Step(c, s', i, Return), i, j);
      FollowsCons(c, s', i, r);
      r := [s'] + r;
    }
  }

  /** So the rule on entering is necessary: a run by the rules gets to such a state, be i at line 357 or at line 814,
      and from there one entry against the rule makes the assertion fail. */
  lemma EntryRuleIsNecessary(c: Config, i: nat, j: nat, l: nat) returns (r: seq<State>, q: seq<State>)
    requires c.Valid() && i < c.n && j < c.n && i != j && (l == 357 || l == 814)
    ensures IsRun(c, r) && Last(r).at.line[i] == l && Last(r).at.line[j] == OUTSIDE && !Enabled(Last(r), j)
    ensures Follows(c, q) && q[0] == Step(c, Last(r), j, Return)
    ensures Last(q).at.line[i] == 815 && Last(q).cpu.run[i] == 1
  {
    r := DrainIsReachable(c, i, l);
    assert DrainCpu(c, Last(r), i);
    q := EarlyEntryLeaks(c, Last(r), i, j);
  }
}
