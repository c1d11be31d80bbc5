/** Moves along whose way files come to the places of others: what arrives outside the
    source. */
module Chains {
  import opened FileSystem
  import opened Jobs
  import opened TransferPool
  import opened TransferProofs
  import opened AnyPlan
  import opened TransferTheorems
  import opened Schedules
  import opened Collisions
  import opened Determinism
  import opened ByteCount

  /** What is moved from the place of `k` on its own, and then from where it went, may come
      to lie outside the source. */
  ghost predicate LeadsOut(p: Plan, k: nat)
    decreases if k < |p.files| then |p.files[k]| else 0
  {
    && k < |p.files|
    && (!Under(p.src, Target(p, k)) || exists m: nat :: Follows(p, k, m) && LeadsOut(p, m))
  }

  /** File `k` goes to the place of `m`, which is nearer to the root of the walk. */
  predicate Follows(p: Plan, k: nat, m: nat) {
    Collides(p, k, m) && |p.files[m]| < |p.files[k]|
  }

  /** Where files come to the places of such others, they are the same. */
  ghost predicate Matching(p: Plan) {
    forall i: nat, k: nat :: Collides(p, i, k) && LeadsOut(p, k) ==> Own(p, i) == Own(p, k)
  }

  lemma NoWayOut(p: Plan, k: nat)
    requires Under(p.src, p.dst)
    ensures !LeadsOut(p, k)
  {
    if k < |p.files| {
      TargetPathInjective(p.dst, p.files[k], p.files[k]);
      assert Under(p.dst, Target(p, k));
      UnderTransitive(p.src, p.dst, Target(p, k));
      forall m: nat ensures !Follows(p, k, m) {}
    }
  }

  lemma CollidesUp(p: Plan, i: nat, k: nat)
    requires Collides(p, i, k) && LeadsOut(p, k)
    ensures Follows(p, i, k) && LeadsOut(p, i)
  {
    TargetPathInjective(p.dst, p.files[i], p.files[i]);
    var q := Target(p, i);
    assert Under(p.dst, q) && Under(p.src, q) && |q| == |p.src| + |p.files[k]| == |p.dst| + |p.files[i]|;
    if |p.src| <= |p.dst| {
      assert p.src == q[..|p.src|] == p.dst[..|p.src|];
      NoWayOut(p, k);
    }
  }

  // ----- if they match, the schedule does not show outside -----

  /** All files are renamed. */
  ghost predicate AllRenamed(p: Plan)
    requires |p.io| == |p.files|
  {
    Renames(p) && forall i: nat :: i < |p.files| ==> p.io[i].rename.Renamed?
  }

  predicate OnlyRenames(ph: Phase) {
    !ph.Opening? && !ph.Copying? && !ph.Removing?
  }

  /** At the places from which a way leads out there is what was there, or nothing; and what
      has arrived outside is that. */
  ghost predicate OnTheWayOut(p: Plan, s: State) {
    && (forall k: nat :: k < |p.files| && LeadsOut(p, k) && IsFile(s.fs, Source(p, k)) ==>
          s.fs[Source(p, k)] == File(Own(p, k)))
    && (forall k: nat :: k < |p.files| && !Under(p.src, Target(p, k)) && Fin(s, k) ==>
          HasContent(s.fs, Target(p, k), Own(p, k)))
    && (forall w :: 0 <= w < |s.workers| ==> OnlyRenames(s.workers[w]))
    && (forall w :: 0 <= w < |s.workers| ==> Arrived(p, s.fs, s.workers[w]))
  }

  predicate Arrived(p: Plan, fs: FS, ph: Phase) {
    ph.Tallying? && ph.i < |p.files| && !Under(p.src, Target(p, ph.i)) ==> HasContent(fs, Target(p, ph.i), Own(p, ph.i))
  }

  lemma OutsideLasts(p: Plan, k: nat)
    requires k < |p.files| && !Under(p.src, Target(p, k))
    ensures Lasting(p, k) && LeadsOut(p, k)
  {
    forall m | 0 <= m < |p.files| ensures Source(p, m) != Target(p, k) {
      assert Under(p.src, Source(p, m));
    }
  }

  /** What a rename of file `m` makes of the filesystem. */
  function Moved(p: Plan, fs: FS, m: nat): FS
    requires m < |p.files| && Source(p, m) in fs
  {
    (fs - {Source(p, m)})[Target(p, m) := fs[Source(p, m)]]
  }

  /** That is the only thing a worker does to it then. */
  lemma ActionRenames(p: Plan, s: State, ph: Phase)
    requires |p.io| == |p.files| && 0 <= Idx(ph) < |p.files| && AllRenamed(p) && OnlyRenames(ph)
    ensures var (m, fs1, ph1) := (Idx(ph), FileAction(p, s, ph).0, FileAction(p, s, ph).1);
            && OnlyRenames(ph1)
            && (fs1 == s.fs || (ph.Renaming? && IsFile(s.fs, Source(p, m)) && fs1 == Moved(p, s.fs, m)))
            && (ph1.Tallying? && ph1.ok ==> ph.Renaming? && IsFile(s.fs, Source(p, m)) && fs1 == Moved(p, s.fs, m))
  {
  }

  lemma PlaceOnTheWay(p: Plan, j0: Job, s: State, w: nat, k: nat)
    requires Sound(p, j0, s) && AllRenamed(p) && Matching(p) && OnTheWayOut(p, s) && w < |s.workers|
    requires k < |p.files| && LeadsOut(p, k) && IsFile(Step(p, s, w).fs, Source(p, k))
    ensures Step(p, s, w).fs[Source(p, k)] == File(Own(p, k))
  {
    StepParts(p, j0, s, w);
    var s', m := Step(p, s, w), Idx(s.workers[w]);
    if m >= 0 {
      ActionRenames(p, s, s.workers[w]);
      if Target(p, m) == Source(p, k) && m != k {
        assert Collides(p, m, k);
        CollidesUp(p, m, k);
      }
      if Target(p, m) == Source(p, k) && m == k {
        StaysIn(p, k);
      }
    }
    hide Step, FileAction, Sound, AllRenamed, LeadsOut, Source, Target;
  }

  lemma StaysIn(p: Plan, k: nat)
    requires k < |p.files| && Target(p, k) == Source(p, k)
    ensures !LeadsOut(p, k)
  {
    TargetPathInjective(p.dst, p.files[k], p.files[k]);
    SamePrefix(p.src, p.dst, p.files[k]);
    NoWayOut(p, k);
  }

  lemma ArrivedOnTheWay(p: Plan, j0: Job, s: State, w: nat, k: nat)
    requires Sound(p, j0, s) && AllRenamed(p) && OnTheWayOut(p, s) && w < |s.workers|
    requires k < |p.files| && !Under(p.src, Target(p, k))
    ensures var s' := Step(p, s, w);
            && (Fin(s', k) ==> HasContent(s'.fs, Target(p, k), Own(p, k)))
            && forall v :: 0 <= v < |s'.workers| && Idx(s'.workers[v]) == k ==> Arrived(p, s'.fs, s'.workers[v])
  {
    StepParts(p, j0, s, w);
    FinStep(p, s, w, k);
    OutsideLasts(p, k);
    var s', m := Step(p, s, w), Idx(s.workers[w]);
    assert Fitting(p, s.workers[w]);
    if m >= 0 {
      ActionRenames(p, s, s.workers[w]);
      if m != k { ActionDelivered(p, s, s.workers[w], k); }
    }
    assert m >= 0 ==> forall v :: 0 <= v < |s.workers| && v != w ==> Idx(s.workers[v]) != m;
    hide Step, FileAction, Sound, AllRenamed, LeadsOut, Fin, Source;
    forall v | 0 <= v < |s'.workers| && Idx(s'.workers[v]) == k ensures Arrived(p, s'.fs, s'.workers[v]) {
      if v != w { assert s'.workers[v] == s.workers[v]; }
    }
  }

  lemma StepOnTheWay(p: Plan, j0: Job, s: State, w: nat)
    requires Sound(p, j0, s) && AllRenamed(p) && Matching(p) && OnTheWayOut(p, s) && w < |s.workers|
    ensures OnTheWayOut(p, Step(p, s, w))
  {
    StepParts(p, j0, s, w);
    var s' := Step(p, s, w);
    assert OnlyRenames(s'.workers[w]) by { if Idx(s.workers[w]) >= 0 { ActionRenames(p, s, s.workers[w]); } }
    hide Step, FileAction, Sound, AllRenamed, LeadsOut, Matching, Fin, Arrived;
    forall k: nat | k < |p.files| && LeadsOut(p, k) && IsFile(s'.fs, Source(p, k))
      ensures s'.fs[Source(p, k)] == File(Own(p, k))
    {
      PlaceOnTheWay(p, j0, s, w, k);
    }
    forall k: nat | k < |p.files| && !Under(p.src, Target(p, k)) && Fin(s', k)
      ensures HasContent(s'.fs, Target(p, k), Own(p, k))
    {
      ArrivedOnTheWay(p, j0, s, w, k);
    }
    forall v | 0 <= v < |s'.workers| ensures Arrived(p, s'.fs, s'.workers[v]) {
      AllArrived(p, j0, s, w, v);
    }
  }

  lemma AllArrived(p: Plan, j0: Job, s: State, w: nat, v: nat)
    requires Sound(p, j0, s) && AllRenamed(p) && OnTheWayOut(p, s) && w < |s.workers| && v < |s.workers|
    ensures Arrived(p, Step(p, s, w).fs, Step(p, s, w).workers[v])
  {
    StepParts(p, j0, s, w);
    var ph := Step(p, s, w).workers[v];
    if ph.Tallying? && ph.i < |p.files| && !Under(p.src, Target(p, ph.i)) {
      hide Step, Sound, AllRenamed, OnTheWayOut, Arrived;
      ArrivedOnTheWay(p, j0, s, w, ph.i);
    }
  }

  lemma {:induction false} RunOnTheWay(p: Plan, j0: Job, threads: nat, schedule: seq<nat>)
    requires Smooth(p) && j0.error.None? && |j0.current| <= CURRENT_LIMIT && AllRenamed(p) && Matching(p)
    ensures OnTheWayOut(p, Run(p, Start(p, j0, threads), schedule))
    decreases |schedule|
  {
    if schedule != [] {
      var n := |schedule| - 1;
      var s := Run(p, Start(p, j0, threads), schedule[..n]);
      RunOnTheWay(p, j0, threads, schedule[..n]);
      RunSound(p, j0, threads, schedule[..n]);
      hide OnTheWayOut, Sound, Matching, AllRenamed, Smooth;
      if schedule[n] < |s.workers| { StepOnTheWay(p, j0, s, schedule[n]); }
    }
  }

  /** What is at a place outside the source in the end. */
  ghost predicate OutsideAt(p: Plan, fs: FS, q: Path) {
    && (forall i: nat :: i < |p.files| && q == Target(p, i) ==> HasContent(fs, q, Own(p, i)))
    && ((forall i: nat :: i < |p.files| ==> q != Target(p, i)) ==> Agree(fs, p.fs, q))
  }

  lemma MatchingSettles(p: Plan, j0: Job, threads: nat, schedule: seq<nat>, q: Path)
    requires Smooth(p) && j0.error.None? && |j0.current| <= CURRENT_LIMIT && threads > 0
    requires AllRenamed(p) && Matching(p) && !Under(p.src, q)
    requires AllStopped(Run(p, Start(p, j0, threads), schedule))
    ensures OutsideAt(p, Run(p, Start(p, j0, threads), schedule).fs, q)
  {
    var s := Run(p, Start(p, j0, threads), schedule);
    RunOnTheWay(p, j0, threads, schedule);
    RunSound(p, j0, threads, schedule);
    RunWorkers(p, Start(p, j0, threads), schedule);
    hide Run, Smooth, Matching, AllRenamed;
    forall i: nat | i < |p.files| && q == Target(p, i) ensures HasContent(s.fs, q, Own(p, i)) {
      AllFin(p, s, i);
    }
    assert forall i :: 0 <= i < |p.files| ==> Under(p.src, Source(p, i));
    assert (forall i: nat :: i < |p.files| ==> q != Target(p, i)) ==> Untouched(p, q);
  }

  // ----- if they do not, it does -----

  /** Where the way out ends. */
  ghost function Exit(p: Plan, k: nat): (e: nat)
    requires LeadsOut(p, k)
    ensures e < |p.files| && !Under(p.src, Target(p, e))
    decreases |p.files[k]|
  {
    if !Under(p.src, Target(p, k)) then k
    else
      var m: nat :| Follows(p, k, m) && LeadsOut(p, m);
      Exit(p, m)
  }

  /** Every worker has its own file, and those as near to the root as `k` have not been
      touched. */
  ghost predicate Untried(p: Plan, s: State, k: nat) {
    && k < |p.files| <= |s.workers| && |p.files| <= s.next
    && forall m: nat :: m < |p.files| && |p.files[m]| <= |p.files[k]| ==>
         Idx(s.workers[m]) == m && (s.workers[m].Statting? || s.workers[m].Announcing?)
  }

  lemma UntriedCarries(p: Plan, s: State, k: nat, c: Bytes)
    requires |p.io| == |p.files| && Claims(p, s) && Untried(p, s, k) && HasContent(s.fs, Source(p, k), c)
    ensures Carries(p, s, k, c)
  {
    assert Idx(s.workers[k]) == k;
    assert Held(s.workers, k);
  }

  lemma Carried(p: Plan, s: State, k: nat, c: Bytes)
    requires Carries(p, s, k, c) && Fin(s, k)
    ensures HasContent(s.fs, Target(p, k), c)
  {
  }

  /** One worker takes what is at the place of `k` to its target. */
  lemma TakesAlong(p: Plan, j0: Job, s: State, k: nat, c: Bytes, bound: nat) returns (schedule: seq<nat>)
    requires Sound(p, j0, s) && Bounded(p, s, bound) && k < |p.files| <= |s.workers| && |p.files| <= s.next
    requires Idx(s.workers[k]) == k && Carries(p, s, k, c) && Source(p, k) != Target(p, k)
    ensures var t := Run(p, s, schedule);
            && Sound(p, j0, t) && Bounded(p, t, bound) && t.workers == s.workers[k := Claiming] && t.next == s.next
            && Delivered(p, t, k, c)
  {
    var inv: State -> bool := t => Sound(p, j0, t) && Carries(p, t, k, c);
    forall t: State | inv(t) && OnlyWorker(s, t, k) && Idx(t.workers[k]) == k ensures inv(Step(p, t, k)) {
      StepSound(p, j0, t, k);
      StepCarries(p, j0, t, k, k, c);
    }
    hide Step, Run, Sound, Carries, Short, Source, Target;
    schedule := Alone(p, s, k, inv, bound);
    var t := Run(p, s, schedule);
    assert Fin(t, k) by { assert !Held(t.workers, k); }
    Carried(p, t, k, c);
  }

  /** One after the other, the workers along the way take what is at the place of `k` out. */
  lemma Deliver(p: Plan, j0: Job, s: State, k: nat, c: Bytes, bound: nat) returns (schedule: seq<nat>)
    requires Sound(p, j0, s) && LeadsOut(p, k) && Untried(p, s, k) && HasContent(s.fs, Source(p, k), c)
    requires Bounded(p, s, bound)
    ensures var t := Run(p, s, schedule);
            Sound(p, j0, t) && |t.workers| == |s.workers| && Delivered(p, t, Exit(p, k), c)
    decreases |p.files[k]|
  {
    if Source(p, k) == Target(p, k) { StaysIn(p, k); }
    UntriedCarries(p, s, k, c);
    assert Idx(s.workers[k]) == k;
    hide Step, Run, Sound, Carries, Bounded, Source, Target;
    schedule := TakesAlong(p, j0, s, k, c, bound);
    if Under(p.src, Target(p, k)) {
      var t := Run(p, s, schedule);
      var m := NextOut(p, k);
      StillUntried(p, s, t, k, m);
      hide Exit, LeadsOut, Fin, Untried;
      var rest := Deliver(p, j0, t, m, c, bound);
      RunConcat(p, s, schedule, rest);
      schedule := schedule + rest;
    }
  }

  lemma NextOut(p: Plan, k: nat) returns (m: nat)
    requires LeadsOut(p, k) && Under(p.src, Target(p, k))
    ensures Follows(p, k, m) && LeadsOut(p, m) && Exit(p, k) == Exit(p, m)
  {
    m :| Follows(p, k, m) && LeadsOut(p, m) && Exit(p, k) == Exit(p, m);
  }

  lemma StillUntried(p: Plan, s: State, t: State, k: nat, m: nat)
    requires Untried(p, s, k) && m < |p.files| && |p.files[m]| < |p.files[k]|
    requires t.workers == s.workers[k := Claiming] && t.next == s.next
    ensures Untried(p, t, m)
  {
  }

  lemma AllUntried(p: Plan, s: State, k: nat)
    requires AllStatted(p, s, |p.files|, |p.files|) && k < |p.files|
    ensures Untried(p, s, k)
  {
  }

  /** From a state in which the way out is free. */
  lemma TakenOut(p: Plan, j0: Job, s: State, k: nat, c: Bytes, bound: nat) returns (schedule: seq<nat>)
    requires Sound(p, j0, s) && LeadsOut(p, k) && Untried(p, s, k) && HasContent(s.fs, Source(p, k), c)
    requires Bounded(p, s, bound)
    ensures var t := Run(p, s, schedule); AllStopped(t) && HasContent(t.fs, Target(p, Exit(p, k)), c)
  {
    assert |p.io| == |p.files|;
    hide Run, Sound, Bounded, Source, Target;
    schedule := Deliver(p, j0, s, k, c, bound);
    OutsideLasts(p, Exit(p, k));
    var rest := EndDelivered(p, j0, Run(p, s, schedule), Exit(p, k), c);
    RunConcat(p, s, schedule, rest);
    schedule := schedule + rest;
  }

  /** A schedule on which `k` is the first to be moved, */
  lemma OwnOut(p: Plan, j0: Job, threads: nat, k: nat) returns (schedule: seq<nat>)
    requires Smooth(p) && j0.error.None? && |j0.current| <= CURRENT_LIMIT && threads >= |p.files| && LeadsOut(p, k)
    ensures var t := Run(p, Start(p, j0, threads), schedule);
            AllStopped(t) && HasContent(t.fs, Target(p, Exit(p, k)), Own(p, k))
  {
    var s0, bound := Start(p, j0, threads), Longest(p.fs);
    schedule := StatAll(p, j0, threads, |p.files|, |p.files|);
    var s := Run(p, s0, schedule);
    RunSound(p, j0, threads, schedule);
    AllUntried(p, s, k);
    assert HasContent(s.fs, Source(p, k), Own(p, k)) && Bounded(p, s, bound);
    hide Run, Start, Sound, Smooth, Bounded, Source, Target, Untried, AllStatted;
    var rest := TakenOut(p, j0, s, k, Own(p, k), bound);
    RunConcat(p, s0, schedule, rest);
    schedule := schedule + rest;
  }

  /** and one on which `i` comes to its place before. */
  lemma OtherOut(p: Plan, j0: Job, threads: nat, i: nat, k: nat) returns (schedule: seq<nat>)
    requires Smooth(p) && j0.error.None? && |j0.current| <= CURRENT_LIMIT && threads >= |p.files|
    requires LeadsOut(p, k) && Collides(p, i, k)
    ensures var t := Run(p, Start(p, j0, threads), schedule);
            AllStopped(t) && HasContent(t.fs, Target(p, Exit(p, k)), Own(p, i))
  {
    var s0, bound := Start(p, j0, threads), Longest(p.fs);
    schedule := StatAll(p, j0, threads, |p.files|, |p.files|);
    var s := Run(p, s0, schedule);
    RunSound(p, j0, threads, schedule);
    AllUntried(p, s, i);
    assert HasContent(s.fs, Source(p, i), Own(p, i)) && Bounded(p, s, bound);
    hide Run, Start, Sound, Smooth, Bounded, Source, Target, Untried, AllStatted, Collides;
    var rest := ThenOut(p, j0, s, i, k, Own(p, i), bound);
    RunConcat(p, s0, schedule, rest);
    schedule := schedule + rest;
  }

  lemma ThenOut(p: Plan, j0: Job, s: State, i: nat, k: nat, c: Bytes, bound: nat) returns (schedule: seq<nat>)
    requires Sound(p, j0, s) && LeadsOut(p, k) && Collides(p, i, k) && Untried(p, s, i) && Bounded(p, s, bound)
    requires HasContent(s.fs, Source(p, i), c)
    ensures var t := Run(p, s, schedule); AllStopped(t) && HasContent(t.fs, Target(p, Exit(p, k)), c)
  {
    CollidesUp(p, i, k);
    CollidingMove(p, i, k, i);
    UntriedCarries(p, s, i, c);
    assert Idx(s.workers[i]) == i;
    hide Run, Sound, Bounded, Source, Target, Carries;
    schedule := TakesAlong(p, j0, s, i, c, bound);
    var t := Run(p, s, schedule);
    StillUntried(p, s, t, i, k);
    hide Untried, Fin, LeadsOut, Exit;
    var rest := TakenOut(p, j0, t, k, c, bound);
    RunConcat(p, s, schedule, rest);
    schedule := schedule + rest;
  }

  // ----- the theorem -----

  /** All runs that have come to their end have left the same outside the source. */
  ghost predicate OutsideAlike(p: Plan, j0: Job, threads: nat)
    requires |p.io| == |p.files|
  {
    forall a: seq<nat>, b: seq<nat>, q: Path ::
      AllStopped(Run(p, Start(p, j0, threads), a)) && AllStopped(Run(p, Start(p, j0, threads), b))
      && !Under(p.src, q) ==>
        Agree(Run(p, Start(p, j0, threads), a).fs, Run(p, Start(p, j0, threads), b).fs, q)
  }

  /** If all files are renamed, and files that come to the places of others from where a way
      leads out are the same as those, the schedule does not show outside the source. */
  lemma MatchingAlike(p: Plan, j0: Job, threads: nat)
    requires Smooth(p) && AllRenamed(p) && j0.error.None? && |j0.current| <= CURRENT_LIMIT && threads > 0
    requires Matching(p)
    ensures OutsideAlike(p, j0, threads)
  {
    assert |p.io| == |p.files|;
    hide Smooth, AllRenamed, Run, Start, AllStopped, Matching;
    forall a: seq<nat>, b: seq<nat>, q: Path |
      AllStopped(Run(p, Start(p, j0, threads), a)) && AllStopped(Run(p, Start(p, j0, threads), b)) && !Under(p.src, q)
      ensures Agree(Run(p, Start(p, j0, threads), a).fs, Run(p, Start(p, j0, threads), b).fs, q)
    {
      MatchingSettles(p, j0, threads, a, q);
      MatchingSettles(p, j0, threads, b, q);
      OutsideFixes(p, Run(p, Start(p, j0, threads), a).fs, Run(p, Start(p, j0, threads), b).fs, q);
    }
  }

  /** If no file has to wait for a thread, it does not show exactly then. */
  lemma OutsideAlikeExactly(p: Plan, j0: Job, threads: nat)
    requires Smooth(p) && AllRenamed(p) && j0.error.None? && |j0.current| <= CURRENT_LIMIT
    requires threads >= |p.files| && threads > 0
    ensures OutsideAlike(p, j0, threads) <==> Matching(p)
  {
    assert |p.io| == |p.files|;
    if Matching(p) {
      MatchingAlike(p, j0, threads);
    } else {
      var i: nat, k: nat :| Collides(p, i, k) && LeadsOut(p, k) && Own(p, i) != Own(p, k);
      hide Smooth, AllRenamed, Run, Start, AllStopped;
      var a := OwnOut(p, j0, threads, k);
      var b := OtherOut(p, j0, threads, i, k);
      var q := Target(p, Exit(p, k));
      assert !Under(p.src, q);
      assert !Agree(Run(p, Start(p, j0, threads), a).fs, Run(p, Start(p, j0, threads), b).fs, q);
    }
  }

  lemma OutsideFixes(p: Plan, x: FS, y: FS, q: Path)
    requires OutsideAt(p, x, q) && OutsideAt(p, y, q)
    ensures Agree(x, y, q)
  {
    if i: nat :| i < |p.files| && q == Target(p, i) {
      assert HasContent(x, q, Own(p, i)) && HasContent(y, q, Own(p, i));
    }
  }
}
