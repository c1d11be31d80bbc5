/** Plans in which a file goes to the place another file still has to come from: exactly
    when the schedule makes a difference. */
module Collisions {
  import opened FileSystem
  import opened Jobs
  import opened TransferPool
  import opened TransferProofs
  import opened AnyPlan
  import opened TransferTheorems
  import opened Schedules

  /** File `i` goes to the place of another file `k`. */
  predicate Collides(p: Plan, i: nat, k: nat) {
    i < |p.files| && k < |p.files| && i != k && Target(p, i) == Source(p, k)
  }

  // ----- what every run has in which no call fails -----

  ghost predicate Sound(p: Plan, j0: Job, s: State) {
    Smooth(p) && General(p, j0, s) && Unhindered(p, s)
  }

  lemma StepSound(p: Plan, j0: Job, s: State, w: nat)
    requires Sound(p, j0, s)
    ensures Sound(p, j0, Step(p, s, w))
  {
    hide Step, Smooth, General, Unhindered;
    StepGeneral(p, j0, s, w);
    StepUnhindered(p, j0, s, w);
  }

  lemma RunSound(p: Plan, j0: Job, threads: nat, schedule: seq<nat>)
    requires Smooth(p) && j0.error.None? && |j0.current| <= CURRENT_LIMIT
    ensures Sound(p, j0, Run(p, Start(p, j0, threads), schedule))
  {
    RunGeneral(p, j0, threads, schedule);
    NothingFails(p, j0, threads, schedule);
  }

  /** File `r` has been tallied. */
  ghost predicate Fin(s: State, r: nat) {
    r < s.next && !Held(s.workers, r)
  }

  lemma FinStep(p: Plan, s: State, w: nat, r: nat)
    requires |p.io| == |p.files| && Claims(p, s) && w < |s.workers| && r < |p.files|
    ensures Fin(Step(p, s, w), r) <==> Fin(s, r) || (Idx(s.workers[w]) == r && s.workers[w].Tallying?)
    ensures forall v :: 0 <= v < |s.workers| && v != w ==> Step(p, s, w).workers[v] == s.workers[v]
    ensures Idx(s.workers[w]) == r ==> !Fin(s, r)
  {
    var s' := Step(p, s, w);
    if Idx(s.workers[w]) >= 0 {
      ActionKeeps(p, s, s.workers[w]);
      assert Held(s.workers, Idx(s.workers[w]));
    }
    hide FileAction, JobAction;
    HeldUpdate(s.workers, w, s'.workers[w], r);
    hide Held;
    assert !s.workers[w].Claiming? && Idx(s.workers[w]) < 0 ==> s'.workers[w].Stopped? by { StoppedStays(p, s, w); }
  }

  lemma StoppedStays(p: Plan, s: State, w: nat)
    requires |p.io| == |p.files| && w < |s.workers|
    ensures s.workers[w].Stopped? ==> Step(p, s, w).workers[w].Stopped?
  {
  }

  lemma AllFin(p: Plan, s: State, r: nat)
    requires Claims(p, s) && AllStopped(s) && |s.workers| > 0 && r < |p.files|
    ensures Fin(s, r)
  {
    assert s.workers[0].Stopped?;
  }

  /** What a step comes to, in parts. */
  lemma StepParts(p: Plan, j0: Job, s: State, w: nat)
    requires Sound(p, j0, s) && w < |s.workers|
    ensures var ph, s' := s.workers[w], Step(p, s, w);
            && Sound(p, j0, s') && |s'.workers| == |s.workers| && !Failing(s'.workers[w])
            && Idx(ph) < |p.files| && s'.next >= s.next
            && (forall v :: 0 <= v < |s.workers| && v != w ==> s'.workers[v] == s.workers[v])
            && (Idx(ph) >= 0 ==>
                  && (s'.fs, s'.workers[w]) == FileAction(p, s, ph) && s'.next == s.next
                  && (s'.workers[w] == Claiming || Idx(s'.workers[w]) == Idx(ph)))
            && (Idx(ph) < 0 ==> s'.fs == s.fs && (s'.workers[w] == Statting(s.next) || Idx(s'.workers[w]) < 0))
            && (ph.Claiming? && s.next < |p.files| ==> s'.workers[w] == Statting(s.next) && s'.next == s.next + 1)
  {
    StepSound(p, j0, s, w);
    if Idx(s.workers[w]) >= 0 { ActionKeeps(p, s, s.workers[w]); }
    hide FileAction, JobAction, Smooth, Contained, AllFitting, Reported, Tallied;
  }

  // ----- moves: the place stays taken if its old file has gone before the new one comes -----

  /** The worker has put its file in its place, or begun to. */
  predicate Written(ph: Phase) {
    ph.Copying? || ph.Removing? || ph.Tallying?
  }

  /** File `k` has gone from its place, and `i` is there as soon as its worker has put it. */
  ghost predicate Stays(p: Plan, s: State, i: nat, k: nat)
    requires Collides(p, i, k)
  {
    && Fin(s, k)
    && (Fin(s, i) ==> Source(p, k) in s.fs)
    && forall w :: 0 <= w < |s.workers| && Idx(s.workers[w]) == i && Written(s.workers[w]) ==> Source(p, k) in s.fs
  }

  /** File `i` has come to its place, and as soon as the worker of `k` has moved what it
      found there nothing is left. */
  ghost predicate Vanishes(p: Plan, s: State, i: nat, k: nat)
    requires Collides(p, i, k)
  {
    && Fin(s, i)
    && (Fin(s, k) ==> Source(p, k) !in s.fs)
    && forall w :: 0 <= w < |s.workers| && Idx(s.workers[w]) == k && s.workers[w].Tallying? ==> Source(p, k) !in s.fs
  }

  lemma ActionAtPlace(p: Plan, j0: Job, s: State, ph: Phase, i: nat, k: nat)
    requires Sound(p, j0, s) && Collides(p, i, k) && 0 <= Idx(ph) < |p.files| && !Failing(FileAction(p, s, ph).1)
    ensures var x, m, (fs1, ph1) := Source(p, k), Idx(ph), FileAction(p, s, ph);
            && (m != k && x in s.fs ==> x in fs1)
            && (m != i && x !in s.fs ==> x !in fs1)
            && (m == i && (Written(ph) ==> x in s.fs) && Written(ph1) ==> x in fs1)
            && (p.op == Move && m == k && (ph.Tallying? ==> x !in s.fs) && ph1.Tallying? ==> x !in fs1)
  {
    SourcesApart(p, Idx(ph), k);
    TargetPathInjective(p.dst, p.files[Idx(ph)], p.files[i]);
    TargetPathInjective(p.dst, p.files[k], p.files[i]);
    hide Smooth, Unhindered, General;
  }

  lemma StepStays(p: Plan, j0: Job, s: State, w: nat, i: nat, k: nat)
    requires Sound(p, j0, s) && Collides(p, i, k) && Stays(p, s, i, k) && w < |s.workers|
    ensures Stays(p, Step(p, s, w), i, k)
  {
    StepParts(p, j0, s, w);
    FinStep(p, s, w, i);
    FinStep(p, s, w, k);
    hide FileAction, Step, Sound, Fin, Source, Collides;
    if Idx(s.workers[w]) >= 0 { ActionAtPlace(p, j0, s, s.workers[w], i, k); }
  }

  lemma StepVanishes(p: Plan, j0: Job, s: State, w: nat, i: nat, k: nat)
    requires Sound(p, j0, s) && Collides(p, i, k) && Vanishes(p, s, i, k) && w < |s.workers| && p.op == Move
    ensures Vanishes(p, Step(p, s, w), i, k)
  {
    StepParts(p, j0, s, w);
    FinStep(p, s, w, i);
    FinStep(p, s, w, k);
    hide FileAction, Step, Sound, Fin, Source, Collides;
    if Idx(s.workers[w]) >= 0 { ActionAtPlace(p, j0, s, s.workers[w], i, k); }
  }

  /** The pool when `lo` has been handled and `hi` has not been touched, or the other way
      round, while the other files below `hi` have all been handled. */
  lemma FirstOfTwo(p: Plan, j0: Job, threads: nat, lo: nat, hi: nat) returns (schedule: seq<nat>)
    requires Smooth(p) && j0.error.None? && |j0.current| <= CURRENT_LIMIT && threads >= 2 && lo < hi < |p.files|
    ensures var t := Run(p, Start(p, j0, threads), schedule);
            Sound(p, j0, t) && |t.workers| == threads && Idle(t) && t.next == lo + 1 && Fin(t, lo) && !Fin(t, hi)
  {
    schedule := FirstDone(p, Start(p, j0, threads), lo, t => true, Longest(p.fs));
    RunSound(p, j0, threads, schedule);
  }

  lemma SecondOfTwo(p: Plan, j0: Job, threads: nat, lo: nat, hi: nat) returns (schedule: seq<nat>)
    requires Smooth(p) && j0.error.None? && |j0.current| <= CURRENT_LIMIT && threads >= 2 && lo < hi < |p.files|
    ensures var t := Run(p, Start(p, j0, threads), schedule);
            Sound(p, j0, t) && |t.workers| == threads && Waits(t, lo) && t.next == hi + 1 && Fin(t, hi) && !Fin(t, lo)
  {
    schedule := OthersDone(p, Start(p, j0, threads), lo, hi + 1, t => true, Longest(p.fs));
    RunSound(p, j0, threads, schedule);
    var t := Run(p, Start(p, j0, threads), schedule);
    hide Run, Sound, Start;
    assert Idx(t.workers[0]) == lo;
    assert Held(t.workers, lo);
  }

  lemma EndPresent(p: Plan, j0: Job, s: State, i: nat, k: nat) returns (schedule: seq<nat>)
    requires Sound(p, j0, s) && Collides(p, i, k) && Stays(p, s, i, k) && |s.workers| > 0
    ensures var t := Run(p, s, schedule); AllStopped(t) && Source(p, k) in t.fs
  {
    var inv: State -> bool := t => Sound(p, j0, t) && Stays(p, t, i, k);
    forall t: State, w: nat | inv(t) && Claims(p, t) && w < |t.workers| ensures inv(Step(p, t, w)) {
      StepSound(p, j0, t, w);
      StepStays(p, j0, t, w, i, k);
    }
    schedule := Finish(p, s, inv, Longest(s.fs));
    AllFin(p, Run(p, s, schedule), i);
  }

  lemma EndAbsent(p: Plan, j0: Job, s: State, i: nat, k: nat) returns (schedule: seq<nat>)
    requires Sound(p, j0, s) && Collides(p, i, k) && Vanishes(p, s, i, k) && |s.workers| > 0 && p.op == Move
    ensures var t := Run(p, s, schedule); AllStopped(t) && Source(p, k) !in t.fs
  {
    var inv: State -> bool := t => Sound(p, j0, t) && Vanishes(p, t, i, k);
    forall t: State, w: nat | inv(t) && Claims(p, t) && w < |t.workers| ensures inv(Step(p, t, w)) {
      StepSound(p, j0, t, w);
      StepVanishes(p, j0, t, w, i, k);
    }
    schedule := Finish(p, s, inv, Longest(s.fs));
    AllFin(p, Run(p, s, schedule), k);
  }

  /** Two threads are enough for a move to leave something at the place, or nothing. */
  lemma MovesDiffer(p: Plan, j0: Job, threads: nat, i: nat, k: nat) returns (a: seq<nat>, b: seq<nat>)
    requires Smooth(p) && j0.error.None? && |j0.current| <= CURRENT_LIMIT && threads >= 2
    requires p.op == Move && Collides(p, i, k)
    ensures var s, t := Run(p, Start(p, j0, threads), a), Run(p, Start(p, j0, threads), b);
            AllStopped(s) && AllStopped(t) && Source(p, k) in s.fs && Source(p, k) !in t.fs
  {
    var s0 := Start(p, j0, threads);
    if i < k {
      b := FirstOfTwo(p, j0, threads, i, k);
      a := SecondOfTwo(p, j0, threads, i, k);
    } else {
      a := FirstOfTwo(p, j0, threads, k, i);
      b := SecondOfTwo(p, j0, threads, k, i);
    }
    hide Run, Sound, Start, Collides, Source;
    var s, t := Run(p, s0, a), Run(p, s0, b);
    var a' := EndPresent(p, j0, s, i, k);
    var b' := EndAbsent(p, j0, t, i, k);
    RunConcat(p, s0, a, a');
    RunConcat(p, s0, b, b');
    a, b := a + a', b + b';
  }

  // ----- what a file carries to its place -----

  /** The worker of file `r` finds the content `c` at its source, and brings it to its
      target as far as it has come. */
  predicate Brings(p: Plan, fs: FS, ph: Phase, r: nat, c: Bytes)
    requires r < |p.files|
  {
    match ph
    case Statting(_) | Announcing(_, _) | Renaming(_, _) | Opening(_, _) => HasContent(fs, Source(p, r), c)
    case Copying(_, _, done) =>
      HasContent(fs, Source(p, r), c) && done <= |c| && HasContent(fs, Target(p, r), c[..done])
    case Removing(_, _) => HasContent(fs, Target(p, r), c)
    case _ => ph.Tallying? ==> HasContent(fs, Target(p, r), c)
  }

  /** File `r` carries the content `c`. */
  ghost predicate Carries(p: Plan, s: State, r: nat, c: Bytes) {
    && r < |p.files|
    && (s.next <= r ==> HasContent(s.fs, Source(p, r), c))
    && (forall w :: 0 <= w < |s.workers| && Idx(s.workers[w]) == r ==> Brings(p, s.fs, s.workers[w], r, c))
    && (Fin(s, r) ==> HasContent(s.fs, Target(p, r), c))
  }

  /** A worker in this phase, for a file other than `r`, does not write to the source of `r`,
      unless it writes nothing over nothing, and does not take anything from its target. */
  predicate Spares(p: Plan, fs: FS, ph: Phase, r: nat, c: Bytes)
    requires r < |p.files|
  {
    0 <= Idx(ph) < |p.files| && Idx(ph) != r ==>
      && (Target(p, Idx(ph)) == Source(p, r) ==>
            && !ph.Renaming?
            && (ph.Opening? ==> c == [])
            && (ph.Copying? ==> HasContent(fs, Source(p, Idx(ph)), [])))
      && (Source(p, Idx(ph)) == Target(p, r) ==> !ph.Renaming? && !ph.Removing?)
  }

  lemma ActionCarries(p: Plan, j0: Job, s: State, ph: Phase, r: nat, c: Bytes)
    requires Sound(p, j0, s) && r < |p.files| && Source(p, r) != Target(p, r) && 0 <= Idx(ph) < |p.files|
    requires !Failing(FileAction(p, s, ph).1) && !Failing(ph)
    requires Spares(p, s.fs, ph, r, c)
    ensures var (m, fs1, ph1) := (Idx(ph), FileAction(p, s, ph).0, FileAction(p, s, ph).1);
            && (m == r && Brings(p, s.fs, ph, r, c) ==> Brings(p, fs1, ph1, r, c))
            && (m == r && ph.Tallying? ==> fs1 == s.fs)
            && (m != r && HasContent(s.fs, Source(p, r), c) ==> HasContent(fs1, Source(p, r), c))
            && (m != r ==> Agree(fs1, s.fs, Target(p, r)))
  {
    var m := Idx(ph);
    SourcesApart(p, m, r);
    TargetPathInjective(p.dst, p.files[m], p.files[r]);
    if m != r {
      OthersSpare(p, s, ph, r, c);
    } else {
      assert Works(p.io[r]);
      hide Smooth, Unhindered, General, CanPlace, Spares;
      if ph.Copying? && Brings(p, s.fs, ph, r, c) { assert c[..|c|] == c; }
    }
  }

  lemma OthersSpare(p: Plan, s: State, ph: Phase, r: nat, c: Bytes)
    requires |p.io| == |p.files| && r < |p.files| && 0 <= Idx(ph) < |p.files| && Idx(ph) != r
    requires Source(p, Idx(ph)) != Source(p, r) && Target(p, Idx(ph)) != Target(p, r)
    requires Spares(p, s.fs, ph, r, c)
    ensures var fs1 := FileAction(p, s, ph).0;
            && (HasContent(s.fs, Source(p, r), c) ==> HasContent(fs1, Source(p, r), c))
            && Agree(fs1, s.fs, Target(p, r))
  {
  }

  lemma BringsStill(p: Plan, fs: FS, fs1: FS, ph: Phase, r: nat, c: Bytes)
    requires r < |p.files| && Brings(p, fs, ph, r, c)
    requires HasContent(fs, Source(p, r), c) ==> HasContent(fs1, Source(p, r), c)
    requires Agree(fs1, fs, Target(p, r))
    ensures Brings(p, fs1, ph, r, c)
  {
  }

  lemma StattingBrings(p: Plan, fs: FS, r: nat, c: Bytes)
    requires r < |p.files|
    ensures Brings(p, fs, Statting(r), r, c) <==> HasContent(fs, Source(p, r), c)
  {
  }

  lemma StepCarries(p: Plan, j0: Job, s: State, w: nat, r: nat, c: Bytes)
    requires Sound(p, j0, s) && Carries(p, s, r, c) && Source(p, r) != Target(p, r) && w < |s.workers|
    requires Spares(p, s.fs, s.workers[w], r, c)
    ensures Carries(p, Step(p, s, w), r, c)
  {
    StepParts(p, j0, s, w);
    FinStep(p, s, w, r);
    assert !Failing(s.workers[w]);
    if Idx(s.workers[w]) >= 0 { ActionCarries(p, j0, s, s.workers[w], r, c); }
    assert forall v :: 0 <= v < |s.workers| && v != w && Idx(s.workers[w]) == r ==> Idx(s.workers[v]) != r;
    var s' := Step(p, s, w);
    assert Idx(s.workers[w]) == r && s'.workers[w] == Claiming ==> HasContent(s'.fs, Target(p, r), c);
    hide FileAction, Step, Sound, Fin, Source, Target, Spares, Brings, Failing;
    forall v | 0 <= v < |s'.workers| && Idx(s'.workers[v]) == r ensures Brings(p, s'.fs, s'.workers[v], r, c) {
      if v != w {
        assert s'.workers[v] == s.workers[v];
        BringsStill(p, s.fs, s'.fs, s.workers[v], r, c);
      } else {
        assert Idx(s.workers[w]) < 0 ==> s'.workers[w] == Statting(r) && s'.fs == s.fs;
        StattingBrings(p, s.fs, r, c);
      }
    }
  }

  /** What has been brought to the target of `k` stays there: no file is taken from there. */
  ghost predicate Lasting(p: Plan, k: nat) {
    k < |p.files| && (p.op == Copy || forall m :: 0 <= m < |p.files| ==> Source(p, m) != Target(p, k))
  }

  ghost predicate Delivered(p: Plan, s: State, k: nat, c: Bytes) {
    k < |p.files| && Fin(s, k) && HasContent(s.fs, Target(p, k), c)
  }

  lemma ActionDelivered(p: Plan, s: State, ph: Phase, k: nat)
    requires Walked(p) && Lasting(p, k) && 0 <= Idx(ph) < |p.files| && Idx(ph) != k && Fitting(p, ph)
    ensures Agree(FileAction(p, s, ph).0, s.fs, Target(p, k))
  {
    TargetPathInjective(p.dst, p.files[Idx(ph)], p.files[k]);
    assert p.op == Copy || Source(p, Idx(ph)) != Target(p, k);
  }

  lemma StepDelivered(p: Plan, j0: Job, s: State, w: nat, k: nat, c: Bytes)
    requires Sound(p, j0, s) && Lasting(p, k) && Delivered(p, s, k, c) && w < |s.workers|
    ensures Delivered(p, Step(p, s, w), k, c)
  {
    StepParts(p, j0, s, w);
    FinStep(p, s, w, k);
    if Idx(s.workers[w]) >= 0 { ActionDelivered(p, s, s.workers[w], k); }
    hide FileAction, Step, Sound, Fin, Target, Lasting;
  }

  lemma EndDelivered(p: Plan, j0: Job, s: State, k: nat, c: Bytes) returns (schedule: seq<nat>)
    requires Sound(p, j0, s) && Lasting(p, k) && Delivered(p, s, k, c) && |s.workers| > 0
    ensures var t := Run(p, s, schedule); AllStopped(t) && HasContent(t.fs, Target(p, k), c)
  {
    var inv: State -> bool := t => Sound(p, j0, t) && Delivered(p, t, k, c);
    forall t: State, w: nat | inv(t) && Claims(p, t) && w < |t.workers| ensures inv(Step(p, t, w)) {
      StepSound(p, j0, t, w);
      StepDelivered(p, j0, t, w, k, c);
    }
    schedule := Finish(p, s, inv, Longest(s.fs));
  }

  /** If any two files collide, no file stays where it is. */
  lemma CollidingMove(p: Plan, i: nat, k: nat, r: nat)
    requires Collides(p, i, k) && r < |p.files| && Walked(p)
    ensures Source(p, r) != Target(p, r)
  {
    TargetPathInjective(p.dst, p.files[r], p.files[r]);
    TargetPathInjective(p.dst, p.files[i], p.files[k]);
  }

  /** Only `i` writes to the place of `k`, and nobody takes from its target. */
  lemma OthersSpareTo(p: Plan, j0: Job, s: State, w: nat, i: nat, k: nat, c: Bytes)
    requires Sound(p, j0, s) && Collides(p, i, k) && Lasting(p, k) && w < |s.workers| && Idx(s.workers[w]) != i
    ensures Spares(p, s.fs, s.workers[w], k, c)
  {
    var m := Idx(s.workers[w]);
    assert Fitting(p, s.workers[w]);
    if m >= 0 { TargetPathInjective(p.dst, p.files[m], p.files[i]); }
  }

  /** A schedule on which `k` arrives with its own content. */
  lemma OwnContent(p: Plan, j0: Job, threads: nat, i: nat, k: nat) returns (schedule: seq<nat>)
    requires Smooth(p) && j0.error.None? && |j0.current| <= CURRENT_LIMIT && threads >= 2
    requires Collides(p, i, k) && Lasting(p, k)
    ensures var t := Run(p, Start(p, j0, threads), schedule);
            AllStopped(t) && HasContent(t.fs, Target(p, k), p.fs[Source(p, k)].data)
  {
    var s0, c, bound := Start(p, j0, threads), p.fs[Source(p, k)].data, Longest(p.fs);
    var inv: State -> bool := t => Sound(p, j0, t) && Carries(p, t, k, c);
    CollidingMove(p, i, k, k);
    RunSound(p, j0, threads, []);
    assert inv(s0) && Idle(s0) && Bounded(p, s0, bound);
    forall t: State, w: nat | inv(t) && w < |t.workers| && Idx(t.workers[w]) != i ensures inv(Step(p, t, w)) {
      OthersSpareTo(p, j0, t, w, i, k, c);
      StepSound(p, j0, t, w);
      StepCarries(p, j0, t, w, k, c);
    }
    hide Step, Run, Sound, Carries, Collides, Smooth, Start, Short, Bounded, Source, Target;
    if i < k {
      schedule := OthersDone(p, s0, i, k + 1, inv, bound);
      var t := Run(p, s0, schedule);
      assert Idx(t.workers[0]) == i;
      assert Fin(t, k);
    } else {
      assert KeptBelow(p, s0, 0, k + 1, inv);
      schedule := FirstDone(p, s0, k, inv, bound);
      assert Fin(Run(p, s0, schedule), k);
    }
    var s := Run(p, s0, schedule);
    var rest := EndDelivered(p, j0, s, k, c);
    RunConcat(p, s0, schedule, rest);
    schedule := schedule + rest;
  }

  /** A schedule on which `k` arrives with the content of `i`, if that goes to its place
      first and nothing goes to the place of `i`. */
  lemma OtherContent(p: Plan, j0: Job, threads: nat, i: nat, k: nat) returns (schedule: seq<nat>)
    requires Smooth(p) && j0.error.None? && |j0.current| <= CURRENT_LIMIT && threads >= 2
    requires Collides(p, i, k) && Lasting(p, k) && forall h :: 0 <= h < |p.files| ==> Target(p, h) != Source(p, i)
    ensures var t := Run(p, Start(p, j0, threads), schedule);
            AllStopped(t) && HasContent(t.fs, Target(p, k), p.fs[Source(p, i)].data)
  {
    var s0, c, bound := Start(p, j0, threads), p.fs[Source(p, i)].data, Longest(p.fs);
    var inv: State -> bool := t => Sound(p, j0, t) && Carries(p, t, i, c);
    CollidingMove(p, i, k, i);
    RunSound(p, j0, threads, []);
    assert inv(s0) && Idle(s0) && Bounded(p, s0, bound);
    forall t: State, w: nat | inv(t) && w < |t.workers| && Idx(t.workers[w]) != k ensures inv(Step(p, t, w)) {
      if Idx(t.workers[w]) >= 0 { SourcesApart(p, Idx(t.workers[w]), k); }
      assert Spares(p, t.fs, t.workers[w], i, c);
      StepSound(p, j0, t, w);
      StepCarries(p, j0, t, w, i, c);
    }
    hide Step, Run, Sound, Carries, Collides, Smooth, Start, Short, Bounded, Source, Target;
    if k < i {
      schedule := OthersDone(p, s0, k, i + 1, inv, bound);
    } else {
      assert KeptBelow(p, s0, 0, i + 1, inv);
      schedule := FirstDone(p, s0, i, inv, bound);
    }
    var s := Run(p, s0, schedule);
    assert Carries(p, s, i, c) && Sound(p, j0, s);
    var rest := ThenCarried(p, j0, s, i, k, c);
    RunConcat(p, s0, schedule, rest);
    schedule := schedule + rest;
  }

  /** From then on `k` carries what has been put in its place. */
  lemma ThenCarried(p: Plan, j0: Job, s: State, i: nat, k: nat, c: Bytes) returns (schedule: seq<nat>)
    requires Sound(p, j0, s) && Collides(p, i, k) && Lasting(p, k) && Carries(p, s, i, c) && Fin(s, i)
    requires (Idle(s) && s.next <= k) || Waits(s, k)
    requires |s.workers| > 0
    ensures var t := Run(p, s, schedule); AllStopped(t) && HasContent(t.fs, Target(p, k), c)
  {
    CollidingMove(p, i, k, k);
    var inv: State -> bool := t => Sound(p, j0, t) && Carries(p, t, k, c) && Fin(t, i);
    assert inv(s);
    forall t: State, w: nat | inv(t) && Claims(p, t) && w < |t.workers| ensures inv(Step(p, t, w)) {
      FinStep(p, t, w, i);
      OthersSpareTo(p, j0, t, w, i, k, c);
      StepSound(p, j0, t, w);
      StepCarries(p, j0, t, w, k, c);
    }
    schedule := Finish(p, s, inv, Longest(s.fs));
    AllFin(p, Run(p, s, schedule), k);
  }

  // ----- a copy that comes upon an unfinished copy -----

  /** A worker opens the target of its file, and has not written to it yet. */
  lemma Opens(p: Plan, j0: Job, s: State, w: nat, i: nat, bound: nat) returns (schedule: seq<nat>)
    requires Sound(p, j0, s) && Bounded(p, s, bound) && p.op == Copy && i < |p.files| && w < |s.workers|
    requires s.workers[w] == Statting(i)
    ensures var t := Run(p, s, schedule);
            && Sound(p, j0, t) && Bounded(p, t, bound) && t.next == s.next && OnlyWorker(s, t, w)
            && t.workers[w].Copying? && t.workers[w].i == i && t.workers[w].done == 0
            && HasContent(t.fs, Target(p, i), [])
  {
    var s1 := Step(p, s, w);
    var s2 := Step(p, s1, w);
    var s3 := Step(p, s2, w);
    StepParts(p, j0, s, w);
    StepBounded(p, s, w, bound);
    StepParts(p, j0, s1, w);
    StepBounded(p, s1, w, bound);
    StepParts(p, j0, s2, w);
    StepBounded(p, s2, w, bound);
    hide Step, Run, Sound, Bounded, PhaseRank;
    var size := SizeOn(p, s.fs, i);
    assert s1.workers[w] == Announcing(i, size);
    assert s2.workers[w] == Opening(i, size);
    RunOnce(p, s2, w);
    RunThen(p, s1, w, [w]);
    schedule := [w] + ([w] + [w]);
    RunThen(p, s, w, [w] + [w]);
  }

  lemma KeepsCarried(p: Plan, j0: Job, s: State, w: nat, i: nat, k: nat, c: Bytes)
    requires Sound(p, j0, s) && Collides(p, i, k) && Lasting(p, k) && Carries(p, s, k, c)
    requires w < |s.workers| && Idx(s.workers[w]) != i
    ensures Sound(p, j0, Step(p, s, w)) && Carries(p, Step(p, s, w), k, c)
  {
    CollidingMove(p, i, k, k);
    OthersSpareTo(p, j0, s, w, i, k, c);
    StepSound(p, j0, s, w);
    StepCarries(p, j0, s, w, k, c);
  }

  /** Worker `w` has opened the place of `k` and waits. */
  ghost predicate Opened(p: Plan, j0: Job, s: State, w: nat, i: nat, k: nat, bound: nat) {
    && Sound(p, j0, s) && Bounded(p, s, bound) && Collides(p, i, k) && p.op == Copy && w < |s.workers|
    && Idx(s.workers[w]) == i && HasContent(s.fs, Source(p, k), [])
  }

  lemma OpensPlace(p: Plan, j0: Job, s: State, w: nat, i: nat, k: nat, bound: nat) returns (schedule: seq<nat>)
    requires Sound(p, j0, s) && Bounded(p, s, bound) && p.op == Copy && Collides(p, i, k) && w < |s.workers|
    requires s.workers[w] == Claiming && s.next == i
    ensures var t := Run(p, s, schedule); Opened(p, j0, t, w, i, k, bound) && OnlyWorker(s, t, w) && t.next == i + 1
  {
    var s1 := Step(p, s, w);
    StepParts(p, j0, s, w);
    StepBounded(p, s, w, bound);
    hide Run, Step, Sound, Bounded, Source, Target;
    schedule := Opens(p, j0, s1, w, i, bound);
    RunThen(p, s, w, schedule);
    schedule := [w] + schedule;
  }

  lemma UntouchedCarries(p: Plan, s: State, k: nat, c: Bytes)
    requires Claims(p, s) && k < |p.files| && HasContent(s.fs, Source(p, k), c)
    requires s.next <= k || exists w :: 0 <= w < |s.workers| && s.workers[w] == Statting(k)
    ensures Carries(p, s, k, c)
  {
    if w :| 0 <= w < |s.workers| && s.workers[w] == Statting(k) {
      assert Idx(s.workers[w]) == k;
      assert Held(s.workers, k);
    }
  }

  /** The first worker has opened the place of `k`, then the second handles `k`. */
  lemma OpenedFirst(p: Plan, j0: Job, s: State, i: nat, k: nat, bound: nat) returns (schedule: seq<nat>)
    requires Opened(p, j0, s, 0, i, k, bound) && |s.workers| >= 2 && s.workers[1] == Claiming && s.next == i + 1 <= k
    ensures var t := Run(p, s, schedule); Sound(p, j0, t) && |t.workers| > 0 && Delivered(p, t, k, [])
  {
    var none: Bytes := [];
    var inv: State -> bool := t => Sound(p, j0, t) && Carries(p, t, k, none);
    UntouchedCarries(p, s, k, none);
    hide Run, Step, Sound, Bounded, Source, Target, Carries;
    assert inv(s);
    assert KeptBelow(p, s, 1, k + 1, inv) by {
      forall t: State |
        inv(t) && Claims(p, t) && OnlyWorker(s, t, 1) && s.next <= t.next <= k + 1 && Goes(s, t, 1, k + 1)
        ensures inv(Step(p, t, 1))
      {
        KeepsCarried(p, j0, t, 1, i, k, none);
      }
    }
    schedule := Sweep(p, s, 1, k + 1, inv, bound);
    var t := Run(p, s, schedule);
    assert Fin(t, k) by { NotHeldAfter(p, s, t, i, k); }
    Arrives(p, t, k, none);
  }

  lemma NotHeldAfter(p: Plan, s: State, t: State, i: nat, k: nat)
    requires Claims(p, s) && t.workers == s.workers && s.next <= k
    ensures !Held(t.workers, k)
  {
  }

  lemma Arrives(p: Plan, s: State, k: nat, c: Bytes)
    requires Carries(p, s, k, c) && Fin(s, k)
    ensures Delivered(p, s, k, c)
  {
  }

  /** The first worker has claimed `k`, the second has opened its place, then the first goes on. */
  lemma OpenedSecond(p: Plan, j0: Job, s: State, i: nat, k: nat, bound: nat) returns (schedule: seq<nat>)
    requires Opened(p, j0, s, 1, i, k, bound) && s.workers[0] == Statting(k) && k < s.next
    ensures var t := Run(p, s, schedule); Sound(p, j0, t) && |t.workers| > 0 && Delivered(p, t, k, [])
  {
    var none: Bytes := [];
    var inv: State -> bool := t => Sound(p, j0, t) && Carries(p, t, k, none);
    UntouchedCarries(p, s, k, none);
    hide Run, Step, Sound, Bounded, Source, Target, Carries;
    assert inv(s);
    assert KeptAlone(p, s, 0, inv) by {
      forall t: State |
        inv(t) && Claims(p, t) && OnlyWorker(s, t, 0) && Idx(t.workers[0]) == Idx(s.workers[0]) && t.next == s.next
        ensures inv(Step(p, t, 0))
      {
        KeepsCarried(p, j0, t, 0, i, k, none);
      }
    }
    schedule := Alone(p, s, 0, inv, bound);
    var t := Run(p, s, schedule);
    assert Fin(t, k) by { ReleasedAfter(p, s, t, k); }
    Arrives(p, t, k, none);
  }

  lemma ReleasedAfter(p: Plan, s: State, t: State, k: nat)
    requires Claims(p, s) && |s.workers| > 0 && Idx(s.workers[0]) == k && t.workers == s.workers[0 := Claiming]
    ensures !Held(t.workers, k)
  {
  }

  /** A schedule on which `k` arrives empty, because its place had been opened. */
  lemma NoContent(p: Plan, j0: Job, threads: nat, i: nat, k: nat) returns (schedule: seq<nat>)
    requires Smooth(p) && j0.error.None? && |j0.current| <= CURRENT_LIMIT && threads >= 2
    requires Collides(p, i, k) && p.op == Copy
    ensures var t := Run(p, Start(p, j0, threads), schedule); AllStopped(t) && HasContent(t.fs, Target(p, k), [])
  {
    var s0, bound := Start(p, j0, threads), Longest(p.fs);
    var a;
    var w := if i < k then 0 else 1;
    if i < k {
      a := Sweep(p, s0, 0, i, t => true, bound);
    } else {
      a := OthersDone(p, s0, k, i, t => true, bound);
    }
    RunSound(p, j0, threads, a);
    var s1 := Run(p, s0, a);
    assert |s1.workers| >= 2 && s1.workers[w] == Claiming && s1.workers[1] == Claiming && s1.next == i;
    hide Run, Sound, Start, Source, Target, Smooth, Bounded;
    var rest := OpenedThen(p, j0, s1, w, i, k, bound);
    RunConcat(p, s0, a, rest);
    schedule := a + rest;
  }

  lemma OpenedThen(p: Plan, j0: Job, s: State, w: nat, i: nat, k: nat, bound: nat) returns (schedule: seq<nat>)
    requires Sound(p, j0, s) && Bounded(p, s, bound) && p.op == Copy && Collides(p, i, k) && |s.workers| >= 2
    requires s.next == i && s.workers[1] == Claiming
    requires if i < k then w == 0 && s.workers[0] == Claiming else w == 1 && s.workers[0] == Statting(k)
    ensures var t := Run(p, s, schedule); AllStopped(t) && HasContent(t.fs, Target(p, k), [])
  {
    assert |p.io| == |p.files|;
    hide Run, Sound, Source, Target, Bounded;
    var b := OpensPlace(p, j0, s, w, i, k, bound);
    var s1 := Run(p, s, b);
    var d;
    if i < k { d := OpenedFirst(p, j0, s1, i, k, bound); } else { d := OpenedSecond(p, j0, s1, i, k, bound); }
    hide Opened, Fin;
    var rest := EndDelivered(p, j0, Run(p, s1, d), k, []);
    schedule := b + (d + rest);
    RunConcat(p, s1, d, rest);
    RunConcat(p, s, b, d + rest);
  }

  /** Two threads are enough for a copy to leave two different files at a target. */
  lemma CopiesDiffer(p: Plan, j0: Job, threads: nat, i: nat, k: nat) returns (a: seq<nat>, b: seq<nat>)
    requires Smooth(p) && j0.error.None? && |j0.current| <= CURRENT_LIMIT && threads >= 2
    requires p.op == Copy && Collides(p, i, k)
    requires p.fs[Source(p, k)].data != [] || p.fs[Source(p, i)].data != []
    ensures var s, t := Run(p, Start(p, j0, threads), a), Run(p, Start(p, j0, threads), b);
            AllStopped(s) && AllStopped(t) && s.fs != t.fs
  {
    assert Lasting(p, k) && Lasting(p, i) && Walked(p);
    if p.fs[Source(p, k)].data != [] {
      hide Run, Start, Source, Target, Smooth;
      a := OwnContent(p, j0, threads, i, k);
      b := NoContent(p, j0, threads, i, k);
    } else if h: nat :| Collides(p, h, i) {
      hide Run, Start, Source, Target, Smooth;
      a := OwnContent(p, j0, threads, h, i);
      b := NoContent(p, j0, threads, h, i);
    } else {
      NothingArrives(p, i, k);
      hide Run, Start, Source, Target, Smooth;
      a := OwnContent(p, j0, threads, i, k);
      b := OtherContent(p, j0, threads, i, k);
    }
  }

  lemma NothingArrives(p: Plan, i: nat, k: nat)
    requires Walked(p) && Collides(p, i, k) && forall h: nat :: !Collides(p, h, i)
    ensures forall h :: 0 <= h < |p.files| ==> Target(p, h) != Source(p, i)
  {
    CollidingMove(p, i, k, i);
    forall h: nat | h < |p.files| ensures Target(p, h) != Source(p, i) {
      assert !Collides(p, h, i);
    }
  }
}
