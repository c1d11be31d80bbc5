/** Making schedules: letting one worker go on while the others wait. */
module Schedules {
  import opened TransferPool
  import opened TransferProofs
  import opened AnyPlan

  lemma {:induction false} RunConcat(p: Plan, s: State, a: seq<nat>, b: seq<nat>)
    requires |p.io| == |p.files|
    ensures Run(p, s, a + b) == Run(p, Run(p, s, a), b)
    decreases |b|
  {
    hide Step;
    if b == [] {
      assert a + b == a;
    } else {
      var n, all := |b| - 1, a + b;
      RunConcat(p, s, a, b[..n]);
      assert all[..|all| - 1] == a + b[..n] && all[|all| - 1] == b[n];
    }
  }

  lemma RunOnce(p: Plan, s: State, w: nat)
    requires |p.io| == |p.files|
    ensures Run(p, s, [w]) == Step(p, s, w)
  {
    var one: seq<nat> := [w];
    assert one[..0] == [] && Run(p, s, one[..0]) == s;
  }

  lemma RunThen(p: Plan, s: State, w: nat, rest: seq<nat>)
    requires |p.io| == |p.files|
    ensures Run(p, s, [w] + rest) == Run(p, Step(p, s, w), rest)
  {
    hide Run, Step;
    RunOnce(p, s, w);
    RunConcat(p, s, [w], rest);
  }

  /** What every reachable state has, and what makes runs end. */
  ghost predicate Bounded(p: Plan, s: State, bound: nat) {
    |p.io| == |p.files| && Claims(p, s) && Short(s.fs, bound)
  }

  /** `t` differs from `s` in worker `w` only, as far as workers go. */
  predicate OnlyWorker(s: State, t: State, w: nat) {
    |t.workers| == |s.workers| && w < |s.workers| && t.workers == s.workers[w := t.workers[w]]
  }

  lemma StepBounded(p: Plan, s: State, w: nat, bound: nat)
    requires Bounded(p, s, bound) && w < |s.workers|
    ensures Bounded(p, Step(p, s, w), bound) && OnlyWorker(s, Step(p, s, w), w)
    ensures var ph, ph1 := s.workers[w], Step(p, s, w).workers[w];
            && (Idx(ph) >= 0 ==>
                  && Step(p, s, w).next == s.next && (ph1 == Claiming <==> ph.Tallying?)
                  && (ph1 == Claiming || Idx(ph1) == Idx(ph)) && PhaseRank(bound, ph1) < PhaseRank(bound, ph))
            && (ph.Claiming? && s.next < |p.files| ==> ph1 == Statting(s.next) && Step(p, s, w).next == s.next + 1)
  {
    KeepsClaims(p, s, w);
    if Idx(s.workers[w]) >= 0 {
      ActionShort(p, s, s.workers[w], bound);
      ActionRank(p, s, s.workers[w], bound);
      ActionKeeps(p, s, s.workers[w]);
    }
    hide FileAction, JobAction, Short, Claims;
  }

  /** The steps of worker `w` on the file it holds keep `inv`, whatever else is so. */
  ghost predicate KeptAlone(p: Plan, s: State, w: nat, inv: State -> bool)
    requires |p.io| == |p.files| && w < |s.workers|
  {
    forall t: State ::
      inv(t) && Claims(p, t) && OnlyWorker(s, t, w) && Idx(t.workers[w]) == Idx(s.workers[w]) && t.next == s.next
      ==> inv(Step(p, t, w))
  }

  /** One worker goes on until it has tallied its file. */
  lemma Alone(p: Plan, s: State, w: nat, inv: State -> bool, bound: nat) returns (schedule: seq<nat>)
    requires Bounded(p, s, bound) && w < |s.workers| && Idx(s.workers[w]) >= 0
    requires inv(s) && KeptAlone(p, s, w, inv)
    ensures var t := Run(p, s, schedule);
            Bounded(p, t, bound) && inv(t) && t.workers == s.workers[w := Claiming] && t.next == s.next
    decreases PhaseRank(bound, s.workers[w])
  {
    var s1 := Step(p, s, w);
    StepBounded(p, s, w, bound);
    hide Step, Run, Short, PhaseRank;
    assert OnlyWorker(s, s, w);
    assert inv(s1);
    if s.workers[w].Tallying? {
      schedule := [w];
      RunOnce(p, s, w);
    } else {
      assert KeptAlone(p, s1, w, inv) by {
        forall t: State | inv(t) && Claims(p, t) && OnlyWorker(s1, t, w)
          && Idx(t.workers[w]) == Idx(s1.workers[w]) && t.next == s1.next
          ensures inv(Step(p, t, w))
        {
          assert OnlyWorker(s, t, w);
        }
      }
      var rest := Alone(p, s1, w, inv, bound);
      schedule := [w] + rest;
      RunThen(p, s, w, rest);
    }
  }

  /** The same for the steps of worker `w` as long as it claims files below `n`. */
  ghost predicate KeptBelow(p: Plan, s: State, w: nat, n: nat, inv: State -> bool)
    requires |p.io| == |p.files| && w < |s.workers|
  {
    forall t: State ::
      inv(t) && Claims(p, t) && OnlyWorker(s, t, w) && s.next <= t.next <= n && Goes(s, t, w, n) ==> inv(Step(p, t, w))
  }

  /** In `t` the worker is at a file it claimed after `s`, or about to claim one below `n`. */
  predicate Goes(s: State, t: State, w: nat, n: nat)
    requires w < |t.workers|
  {
    && !t.workers[w].Stopped? && (t.workers[w].Claiming? ==> t.next < n)
    && (Idx(t.workers[w]) >= 0 ==> s.next <= Idx(t.workers[w]))
  }

  /** One worker claims and handles all files up to `n`. */
  lemma Sweep(p: Plan, s: State, w: nat, n: nat, inv: State -> bool, bound: nat) returns (schedule: seq<nat>)
    requires Bounded(p, s, bound) && w < |s.workers| && s.workers[w] == Claiming && s.next <= n <= |p.files|
    requires inv(s) && KeptBelow(p, s, w, n, inv)
    ensures var t := Run(p, s, schedule);
            Bounded(p, t, bound) && inv(t) && t.workers == s.workers && t.next == n
    decreases n - s.next
  {
    if s.next == n {
      schedule := [];
    } else {
      var s1 := Step(p, s, w);
      StepBounded(p, s, w, bound);
      hide Step, Run, Short;
      assert OnlyWorker(s, s, w);
      assert inv(s1);
      assert KeptAlone(p, s1, w, inv) by {
        forall t: State | inv(t) && Claims(p, t) && OnlyWorker(s1, t, w)
          && Idx(t.workers[w]) == Idx(s1.workers[w]) && t.next == s1.next
          ensures inv(Step(p, t, w))
        {
          assert OnlyWorker(s, t, w);
        }
      }
      var one := Alone(p, s1, w, inv, bound);
      var s2 := Run(p, s1, one);
      assert s2.workers == s.workers;
      assert KeptBelow(p, s2, w, n, inv) by {
        forall t: State |
          inv(t) && Claims(p, t) && OnlyWorker(s2, t, w) && s2.next <= t.next <= n && Goes(s2, t, w, n)
          ensures inv(Step(p, t, w))
        {
          assert OnlyWorker(s, t, w);
        }
      }
      var rest := Sweep(p, s2, w, n, inv, bound);
      schedule := [w] + (one + rest);
      RunThen(p, s, w, one + rest);
      RunConcat(p, s1, one, rest);
    }
  }

  /** Every step of every worker keeps `inv`. */
  ghost predicate KeptAlways(p: Plan, inv: State -> bool)
    requires |p.io| == |p.files|
  {
    forall t: State, w: nat :: inv(t) && Claims(p, t) && w < |t.workers| ==> inv(Step(p, t, w))
  }

  /** However far a run has come, it can be brought to its end. */
  lemma Finish(p: Plan, s: State, inv: State -> bool, bound: nat) returns (schedule: seq<nat>)
    requires Bounded(p, s, bound) && inv(s) && KeptAlways(p, inv)
    ensures var t := Run(p, s, schedule);
            Bounded(p, t, bound) && inv(t) && AllStopped(t) && |t.workers| == |s.workers|
    decreases Unclaimed(p, s), Ranks(bound, s.workers)
  {
    if w: nat :| w < |s.workers| && !s.workers[w].Stopped? {
      StepDecreases(p, s, w, bound);
      StepBounded(p, s, w, bound);
      hide Step, Run, Short, Ranks, Unclaimed;
      var rest := Finish(p, Step(p, s, w), inv, bound);
      schedule := [w] + rest;
      RunThen(p, s, w, rest);
    } else {
      schedule := [];
    }
  }

  // ----- which of two files is handled first -----

  /** The first worker has claimed `lo` and done nothing for it yet, the others hold nothing. */
  predicate Waits(s: State, lo: nat) {
    |s.workers| >= 2 && s.workers[0] == Statting(lo) && forall w :: 0 < w < |s.workers| ==> s.workers[w] == Claiming
  }

  predicate Idle(s: State) {
    forall w :: 0 <= w < |s.workers| ==> s.workers[w] == Claiming
  }

  /** One worker handles the files up to and including `lo`. */
  lemma FirstDone(p: Plan, s: State, lo: nat, inv: State -> bool, bound: nat) returns (schedule: seq<nat>)
    requires Bounded(p, s, bound) && |s.workers| > 0 && Idle(s) && s.next == 0 && lo < |p.files|
    requires inv(s) && KeptBelow(p, s, 0, lo + 1, inv)
    ensures var t := Run(p, s, schedule);
            Bounded(p, t, bound) && inv(t) && Idle(t) && |t.workers| == |s.workers| && t.next == lo + 1
  {
    schedule := Sweep(p, s, 0, lo + 1, inv, bound);
  }

  /** The steps on all files below `n` but `lo` keep `inv`. */
  ghost predicate KeptWithout(p: Plan, lo: nat, n: nat, inv: State -> bool)
    requires |p.io| == |p.files|
  {
    forall t: State, w: nat ::
      inv(t) && Claims(p, t) && w < |t.workers| && Idx(t.workers[w]) != lo
      && t.next <= n && !t.workers[w].Stopped? && (t.workers[w].Claiming? ==> t.next < n)
      ==> inv(Step(p, t, w))
  }

  /** A first worker claims `lo` and waits, while a second handles all others below `n`. */
  lemma OthersDone(p: Plan, s: State, lo: nat, n: nat, inv: State -> bool, bound: nat) returns (schedule: seq<nat>)
    requires Bounded(p, s, bound) && |s.workers| >= 2 && Idle(s) && s.next == 0 && lo < n <= |p.files|
    requires inv(s) && KeptWithout(p, lo, n, inv)
    ensures var t := Run(p, s, schedule);
            Bounded(p, t, bound) && inv(t) && Waits(t, lo) && |t.workers| == |s.workers| && t.next == n
  {
    hide Step, Run, Short;
    var a := Sweep(p, s, 0, lo, inv, bound);
    var s1 := Run(p, s, a);
    var s2 := Step(p, s1, 0);
    StepBounded(p, s1, 0, bound);
    assert inv(s2) && Waits(s2, lo);
    assert KeptBelow(p, s2, 1, n, inv);
    var b := Sweep(p, s2, 1, n, inv, bound);
    schedule := a + ([0] + b);
    RunThen(p, s1, 0, b);
    RunConcat(p, s, a, [0] + b);
  }
}
