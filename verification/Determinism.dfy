/** Exactly when the outcome of a transfer pool does not depend on the schedule. */
module Determinism {
  import opened FileSystem
  import opened Jobs
  import opened TransferPool
  import opened AnyPlan
  import opened TransferTheorems
  import opened Schedules
  import opened SingleThread
  import opened Collisions

  /** No file goes to the place of another, or they are empty files and are copied. */
  ghost predicate Quiet(p: Plan) {
    forall i: nat, k: nat :: Collides(p, i, k) ==> p.op == Copy && EmptyFile(p, i) && EmptyFile(p, k)
  }

  predicate EmptyFile(p: Plan, i: nat)
    requires i < |p.files|
  {
    HasContent(p.fs, Source(p, i), [])
  }

  // ----- copies: every file carries its own content -----

  function Own(p: Plan, i: nat): Bytes
    requires i < |p.files|
  {
    if IsFile(p.fs, Source(p, i)) then p.fs[Source(p, i)].data else []
  }

  ghost predicate AllOwn(p: Plan, s: State) {
    forall r: nat :: r < |p.files| ==> Carries(p, s, r, Own(p, r))
  }

  ghost predicate Elsewhere(p: Plan) {
    forall r: nat :: r < |p.files| ==> Source(p, r) != Target(p, r)
  }

  lemma QuietSpares(p: Plan, j0: Job, s: State, w: nat, r: nat)
    requires Sound(p, j0, s) && Quiet(p) && p.op == Copy && AllOwn(p, s) && w < |s.workers| && r < |p.files|
    ensures Spares(p, s.fs, s.workers[w], r, Own(p, r))
  {
    var m := Idx(s.workers[w]);
    assert Fitting(p, s.workers[w]);
    if 0 <= m < |p.files| && m != r && Target(p, m) == Source(p, r) {
      assert Collides(p, m, r) && Carries(p, s, m, Own(p, m));
      assert Idx(s.workers[w]) == m ==> Brings(p, s.fs, s.workers[w], m, Own(p, m));
    }
  }

  lemma StepOwn(p: Plan, j0: Job, s: State, w: nat)
    requires Sound(p, j0, s) && Quiet(p) && Elsewhere(p) && p.op == Copy && AllOwn(p, s) && w < |s.workers|
    ensures AllOwn(p, Step(p, s, w))
  {
    assert |p.io| == |p.files|;
    hide Step, Sound, Quiet, Carries, Spares, Source, Target;
    forall r: nat | r < |p.files| ensures Carries(p, Step(p, s, w), r, Own(p, r)) {
      QuietSpares(p, j0, s, w, r);
      StepCarries(p, j0, s, w, r, Own(p, r));
    }
  }

  lemma {:induction false} RunOwn(p: Plan, j0: Job, threads: nat, schedule: seq<nat>)
    requires Smooth(p) && j0.error.None? && |j0.current| <= CURRENT_LIMIT
    requires Quiet(p) && Elsewhere(p) && p.op == Copy
    ensures AllOwn(p, Run(p, Start(p, j0, threads), schedule))
    decreases |schedule|
  {
    if schedule != [] {
      var n := |schedule| - 1;
      var s := Run(p, Start(p, j0, threads), schedule[..n]);
      RunOwn(p, j0, threads, schedule[..n]);
      RunSound(p, j0, threads, schedule[..n]);
      hide AllOwn, Sound, Quiet, Elsewhere, Smooth;
      if schedule[n] < |s.workers| { StepOwn(p, j0, s, schedule[n]); }
    }
  }

  /** What is at `q` in the end. */
  ghost predicate CopiedAt(p: Plan, fs: FS, q: Path) {
    && (forall i: nat :: i < |p.files| && q == Target(p, i) ==> HasContent(fs, q, Own(p, i)))
    && ((forall i: nat :: i < |p.files| ==> q != Target(p, i)) ==> Agree(fs, p.fs, q))
  }

  lemma CopiesSettle(p: Plan, j0: Job, threads: nat, schedule: seq<nat>, q: Path)
    requires Smooth(p) && j0.error.None? && |j0.current| <= CURRENT_LIMIT && threads > 0
    requires Quiet(p) && Elsewhere(p) && p.op == Copy
    requires AllStopped(Run(p, Start(p, j0, threads), schedule))
    ensures CopiedAt(p, Run(p, Start(p, j0, threads), schedule).fs, q)
  {
    var s := Run(p, Start(p, j0, threads), schedule);
    RunOwn(p, j0, threads, schedule);
    RunSound(p, j0, threads, schedule);
    RunWorkers(p, Start(p, j0, threads), schedule);
    hide Run, Smooth, Quiet, Elsewhere;
    forall i: nat | i < |p.files| && q == Target(p, i) ensures HasContent(s.fs, q, Own(p, i)) {
      AllFin(p, s, i);
      assert Carries(p, s, i, Own(p, i));
    }
    assert (forall i: nat :: i < |p.files| ==> q != Target(p, i)) ==> Untouched(p, q);
  }

  // ----- files that stay where they are -----

  ghost predicate InPlace(p: Plan) {
    forall r: nat :: r < |p.files| ==> Source(p, r) == Target(p, r)
  }

  predicate RenamesFile(p: Plan, i: nat)
    requires |p.io| == |p.files| && i < |p.files|
  {
    Renames(p) && p.io[i].rename.Renamed?
  }

  /** A file that is renamed onto itself is as it was; a copy onto itself is empty, and if
      the source is removed then, nothing is left. */
  predicate KeptInPlace(p: Plan, fs: FS, i: nat)
    requires |p.io| == |p.files| && i < |p.files|
  {
    if RenamesFile(p, i) then Agree(fs, p.fs, Source(p, i))
    else if p.op == Copy then HasContent(fs, Source(p, i), [])
    else Source(p, i) !in fs
  }

  predicate PlaceOk(p: Plan, fs: FS, ph: Phase, i: nat)
    requires |p.io| == |p.files| && i < |p.files|
  {
    match ph
    case Statting(_) | Announcing(_, _) => Agree(fs, p.fs, Source(p, i))
    case Renaming(_, _) => Agree(fs, p.fs, Source(p, i)) && Renames(p)
    case Opening(_, _) => Agree(fs, p.fs, Source(p, i)) && !RenamesFile(p, i)
    case Copying(_, _, _) => HasContent(fs, Source(p, i), []) && !RenamesFile(p, i)
    case Removing(_, _) => p.op == Move && !RenamesFile(p, i)
    case _ => ph.Tallying? ==> KeptInPlace(p, fs, i)
  }

  ghost predicate PlacesOk(p: Plan, s: State)
    requires |p.io| == |p.files|
  {
    && (forall i: nat :: s.next <= i < |p.files| ==> Agree(s.fs, p.fs, Source(p, i)))
    && (forall w: nat :: w < |s.workers| && 0 <= Idx(s.workers[w]) < |p.files| ==>
          PlaceOk(p, s.fs, s.workers[w], Idx(s.workers[w])))
    && (forall i: nat :: i < |p.files| && Fin(s, i) ==> KeptInPlace(p, s.fs, i))
  }

  lemma ActionInPlace(p: Plan, j0: Job, s: State, ph: Phase, r: nat)
    requires Sound(p, j0, s) && InPlace(p) && 0 <= Idx(ph) < |p.files| && r < |p.files|
    requires !Failing(FileAction(p, s, ph).1) && Fitting(p, ph)
    ensures Idx(ph) == r && PlaceOk(p, s.fs, ph, r) ==> PlaceOk(p, FileAction(p, s, ph).0, FileAction(p, s, ph).1, r)
    ensures Idx(ph) == r && ph.Tallying? ==> FileAction(p, s, ph).0 == s.fs
    ensures Idx(ph) != r ==> Agree(FileAction(p, s, ph).0, s.fs, Source(p, r))
  {
    SourcesApart(p, Idx(ph), r);
    assert Source(p, Idx(ph)) == Target(p, Idx(ph)) && Works(p.io[Idx(ph)]);
    hide Smooth, Unhindered, General, CanPlace;
  }

  lemma StepInPlace(p: Plan, j0: Job, s: State, w: nat)
    requires Sound(p, j0, s) && InPlace(p) && PlacesOk(p, s) && w < |s.workers|
    ensures PlacesOk(p, Step(p, s, w))
  {
    StepParts(p, j0, s, w);
    var s', m := Step(p, s, w), Idx(s.workers[w]);
    assert Fitting(p, s.workers[w]) && s'.next >= s.next;
    hide FileAction, Step, Sound, Fin, Source, InPlace, PlaceOk, KeptInPlace;
    forall r: nat | r < |p.files|
      ensures r >= s'.next ==> Agree(s'.fs, p.fs, Source(p, r))
      ensures Fin(s', r) ==> KeptInPlace(p, s'.fs, r)
      ensures forall v: nat :: v < |s'.workers| && Idx(s'.workers[v]) == r ==> PlaceOk(p, s'.fs, s'.workers[v], r)
    {
      PlaceKept(p, j0, s, w, r);
    }
  }

  lemma PlaceKept(p: Plan, j0: Job, s: State, w: nat, r: nat)
    requires Sound(p, j0, s) && InPlace(p) && PlacesOk(p, s) && w < |s.workers| && r < |p.files|
    ensures var s' := Step(p, s, w);
            && (r >= s'.next ==> Agree(s'.fs, p.fs, Source(p, r)))
            && (Fin(s', r) ==> KeptInPlace(p, s'.fs, r))
            && forall v: nat :: v < |s'.workers| && Idx(s'.workers[v]) == r ==> PlaceOk(p, s'.fs, s'.workers[v], r)
  {
    StepParts(p, j0, s, w);
    FinStep(p, s, w, r);
    var s', m := Step(p, s, w), Idx(s.workers[w]);
    assert Fitting(p, s.workers[w]);
    if m >= 0 { ActionInPlace(p, j0, s, s.workers[w], r); }
    assert m != r ==> Agree(s'.fs, s.fs, Source(p, r));
    assert m >= 0 ==> forall v :: 0 <= v < |s.workers| && v != w ==> Idx(s.workers[v]) != m;
    PlaceStill(p, s.fs, s'.fs, r);
    assert m == r && s'.workers[w] == Claiming ==> KeptInPlace(p, s'.fs, r);
    hide FileAction, Step, Sound, Fin, Source, InPlace, PlaceOk, KeptInPlace;
    forall v: nat | v < |s'.workers| && Idx(s'.workers[v]) == r ensures PlaceOk(p, s'.fs, s'.workers[v], r) {
      if v != w {
        assert s'.workers[v] == s.workers[v];
      } else if m < 0 {
        assert s'.workers[w] == Statting(r) && s'.fs == s.fs;
        StattingOk(p, s.fs, r);
      }
    }
  }

  lemma PlaceStill(p: Plan, fs: FS, fs1: FS, r: nat)
    requires |p.io| == |p.files| && r < |p.files|
    ensures Agree(fs1, fs, Source(p, r)) ==>
              && (KeptInPlace(p, fs, r) ==> KeptInPlace(p, fs1, r))
              && forall ph: Phase :: PlaceOk(p, fs, ph, r) ==> PlaceOk(p, fs1, ph, r)
  {
  }

  lemma StattingOk(p: Plan, fs: FS, r: nat)
    requires |p.io| == |p.files| && r < |p.files|
    ensures PlaceOk(p, fs, Statting(r), r) <==> Agree(fs, p.fs, Source(p, r))
  {
  }

  lemma {:induction false} RunInPlace(p: Plan, j0: Job, threads: nat, schedule: seq<nat>)
    requires Smooth(p) && j0.error.None? && |j0.current| <= CURRENT_LIMIT && InPlace(p)
    ensures PlacesOk(p, Run(p, Start(p, j0, threads), schedule))
    decreases |schedule|
  {
    if schedule != [] {
      var n := |schedule| - 1;
      var s := Run(p, Start(p, j0, threads), schedule[..n]);
      RunInPlace(p, j0, threads, schedule[..n]);
      RunSound(p, j0, threads, schedule[..n]);
      hide PlacesOk, Sound, InPlace, Smooth;
      if schedule[n] < |s.workers| { StepInPlace(p, j0, s, schedule[n]); }
    }
  }

  ghost predicate SettledAt(p: Plan, fs: FS, q: Path)
    requires |p.io| == |p.files|
  {
    && (forall i: nat :: i < |p.files| && q == Source(p, i) ==> KeptInPlace(p, fs, i))
    && ((forall i: nat :: i < |p.files| ==> q != Source(p, i)) ==> Agree(fs, p.fs, q))
  }

  lemma InPlaceSettles(p: Plan, j0: Job, threads: nat, schedule: seq<nat>, q: Path)
    requires Smooth(p) && j0.error.None? && |j0.current| <= CURRENT_LIMIT && threads > 0 && InPlace(p)
    requires AllStopped(Run(p, Start(p, j0, threads), schedule))
    ensures SettledAt(p, Run(p, Start(p, j0, threads), schedule).fs, q)
  {
    var s := Run(p, Start(p, j0, threads), schedule);
    RunInPlace(p, j0, threads, schedule);
    RunSound(p, j0, threads, schedule);
    RunWorkers(p, Start(p, j0, threads), schedule);
    hide Run, Smooth, KeptInPlace;
    forall i: nat | i < |p.files| && q == Source(p, i) ensures KeptInPlace(p, s.fs, i) {
      AllFin(p, s, i);
    }
    assert (forall i: nat :: i < |p.files| ==> q != Source(p, i)) ==> Untouched(p, q);
  }

  // ----- the outcome of a quiet plan -----

  /** One thread comes to its end, so there is a run that leaves what list order does. */
  lemma ListOrderRuns(p: Plan, j0: Job) returns (schedule: seq<nat>)
    requires |p.io| == |p.files|
    ensures var t := Run(p, Start(p, j0, 1), schedule); AllStopped(t) && t.fs == InOrder(p, |p.files|).fs
  {
    schedule := Finish(p, Start(p, j0, 1), t => true, Longest(p.fs));
    hide Run, Start;
    OneThread(p, j0, schedule);
  }

  lemma SamePaths(p: Plan)
    ensures InPlace(p) || Elsewhere(p)
  {
    if r: nat :| r < |p.files| && Source(p, r) == Target(p, r) {
      TargetPathInjective(p.dst, p.files[r], p.files[r]);
      assert p.src == p.dst by { SamePrefix(p.src, p.dst, p.files[r]); }
      forall k: nat | k < |p.files| ensures Source(p, k) == Target(p, k) {
        TargetPathInjective(p.dst, p.files[k], p.files[k]);
      }
    }
  }

  lemma SamePrefix(a: Path, b: Path, r: Path)
    requires a + r == b + r
    ensures a == b
  {
    assert |a| == |b|;
    assert a == (a + r)[..|a|] && b == (b + r)[..|b|];
  }

  lemma QuietAgrees(p: Plan, j0: Job, threads: nat, schedule: seq<nat>)
    requires Smooth(p) && j0.error.None? && |j0.current| <= CURRENT_LIMIT && threads > 0 && Quiet(p)
    requires AllStopped(Run(p, Start(p, j0, threads), schedule))
    ensures Run(p, Start(p, j0, threads), schedule).fs == InOrder(p, |p.files|).fs
  {
    var one := ListOrderRuns(p, j0);
    var x, y := Run(p, Start(p, j0, threads), schedule).fs, InOrder(p, |p.files|).fs;
    SamePaths(p);
    hide Run, Start, InOrder;
    if InPlace(p) {
      forall q ensures Agree(x, y, q) {
        InPlaceSettles(p, j0, threads, schedule, q);
        InPlaceSettles(p, j0, 1, one, q);
        InPlaceFixes(p, x, y, q);
      }
      SameByAgreement(x, y);
    } else if p.op == Copy {
      forall q ensures Agree(x, y, q) {
        CopiesSettle(p, j0, threads, schedule, q);
        CopiesSettle(p, j0, 1, one, q);
        CopiesFix(p, x, y, q);
      }
      SameByAgreement(x, y);
    } else {
      QuietMove(p);
      EveryScheduleAgrees(p, j0, threads, schedule);
    }
  }

  lemma InPlaceFixes(p: Plan, x: FS, y: FS, q: Path)
    requires |p.io| == |p.files| && SettledAt(p, x, q) && SettledAt(p, y, q)
    ensures Agree(x, y, q)
  {
    if i: nat :| i < |p.files| && q == Source(p, i) {
      assert KeptInPlace(p, x, i) && KeptInPlace(p, y, i);
    }
  }

  lemma CopiesFix(p: Plan, x: FS, y: FS, q: Path)
    requires |p.io| == |p.files| && CopiedAt(p, x, q) && CopiedAt(p, y, q)
    ensures Agree(x, y, q)
  {
    if i: nat :| i < |p.files| && q == Target(p, i) {
      assert HasContent(x, q, Own(p, i)) && HasContent(y, q, Own(p, i));
    }
  }

  lemma QuietMove(p: Plan)
    requires Smooth(p) && Quiet(p) && Elsewhere(p) && p.op != Copy
    ensures ValidPlan(p) && p.op == Move
  {
    forall i: nat, j: nat | i < |p.files| && j < |p.files| ensures Source(p, i) != Target(p, j) {
      assert !Collides(p, j, i);
    }
    hide Smooth;
  }

  // ----- the theorem -----

  /** All runs that have come to their end have left the same. */
  ghost predicate AllAlike(p: Plan, j0: Job, threads: nat)
    requires |p.io| == |p.files|
  {
    forall a: seq<nat>, b: seq<nat> ::
      AllStopped(Run(p, Start(p, j0, threads), a)) && AllStopped(Run(p, Start(p, j0, threads), b)) ==>
        Run(p, Start(p, j0, threads), a).fs == Run(p, Start(p, j0, threads), b).fs
  }

  /** That is what list order leaves. */
  ghost predicate AllInOrder(p: Plan, j0: Job, threads: nat)
    requires |p.io| == |p.files|
  {
    forall a: seq<nat> :: AllStopped(Run(p, Start(p, j0, threads), a)) ==>
      Run(p, Start(p, j0, threads), a).fs == InOrder(p, |p.files|).fs
  }

  /** When no call fails and there are at least two threads, the schedule makes no
      difference to the files exactly if the plan is quiet: a move must not have any file
      go to the place of another, and in a copy that does both must be empty.  All this
      is there to see before the pool starts.  Then it is list order that every run
      amounts to. */
  lemma AlikeExactly(p: Plan, j0: Job, threads: nat)
    requires Smooth(p) && j0.error.None? && |j0.current| <= CURRENT_LIMIT && threads >= 2
    ensures AllAlike(p, j0, threads) <==> Quiet(p)
    ensures AllInOrder(p, j0, threads) <==> Quiet(p)
  {
    assert AllInOrder(p, j0, threads) ==> AllAlike(p, j0, threads);
    if Quiet(p) {
      forall a: seq<nat> | AllStopped(Run(p, Start(p, j0, threads), a))
        ensures Run(p, Start(p, j0, threads), a).fs == InOrder(p, |p.files|).fs
      {
        QuietAgrees(p, j0, threads, a);
      }
    } else {
      var i: nat, k: nat :| Collides(p, i, k) && !(p.op == Copy && EmptyFile(p, i) && EmptyFile(p, k));
      assert !AllAlike(p, j0, threads) by { LoudDiffers(p, j0, threads, i, k); }
    }
  }

  lemma LoudDiffers(p: Plan, j0: Job, threads: nat, i: nat, k: nat)
    requires Smooth(p) && j0.error.None? && |j0.current| <= CURRENT_LIMIT && threads >= 2
    requires Collides(p, i, k) && !(p.op == Copy && EmptyFile(p, i) && EmptyFile(p, k))
    ensures !AllAlike(p, j0, threads)
  {
    assert Walked(p);
    hide Run, Start, Smooth;
    if p.op == Copy {
      var a, b := CopiesDiffer(p, j0, threads, i, k);
    } else {
      var a, b := MovesDiffer(p, j0, threads, i, k);
    }
  }

  /** For a move between two different paths that is: no file goes where one still has to
      come from. */
  lemma QuietMeans(p: Plan)
    requires Walked(p)
    ensures p.op == Move && p.src != p.dst ==> (Quiet(p) <==> NoCollision(p))
    ensures p.src == p.dst ==> Quiet(p)
    ensures NoCollision(p) ==> Quiet(p)
  {
    forall i: nat, k: nat | i < |p.files| && k < |p.files|
      ensures Target(p, i) == p.dst + p.files[i]
      ensures p.src == p.dst && i != k ==> Target(p, i) != Source(p, k)
      ensures Target(p, k) == Source(p, k) ==> p.src == p.dst
    {
      TargetPathInjective(p.dst, p.files[i], p.files[k]);
      TargetPathInjective(p.dst, p.files[k], p.files[k]);
      if Target(p, k) == Source(p, k) { SamePrefix(p.src, p.dst, p.files[k]); }
    }
    if p.op == Move && p.src != p.dst && Quiet(p) {
      forall i: nat, k: nat | i < |p.files| && k < |p.files| ensures Source(p, k) != Target(p, i) {
        assert !Collides(p, i, k);
      }
    }
  }
}
