/** What the transfer pool does whatever the two paths are, even if files collide:
    some file may go where another one still has to come from. */
module AnyPlan {
  import opened FileSystem
  import opened Jobs
  import opened Sums
  import opened TransferPool
  import opened TransferProofs

  /** A worker keeps its file until it has tallied it. */
  lemma ActionKeeps(p: Plan, s: State, ph: Phase)
    requires |p.io| == |p.files| && 0 <= Idx(ph) < |p.files|
    ensures var ph1 := FileAction(p, s, ph).1;
            (ph1 == Claiming <==> ph.Tallying?) && (ph1 == Claiming || Idx(ph1) == Idx(ph))
  {
  }

  lemma KeepsClaims(p: Plan, s: State, w: nat)
    requires |p.io| == |p.files| && Claims(p, s)
    ensures Claims(p, Step(p, s, w))
  {
    if w < |s.workers| {
      if Idx(s.workers[w]) >= 0 { ActionKeeps(p, s, s.workers[w]); }
      assert s.workers[w].Stopped? ==> s.workers[w := Stopped] == s.workers;
      if !s.workers[w].Stopped? {
        StepClaims(p, s, w);
      }
    }
  }

  // ----- the filesystem -----

  /** No file of the plan can have anything to do with `q`. */
  ghost predicate Untouched(p: Plan, q: Path) {
    && (forall i :: 0 <= i < |p.files| ==> q != Target(p, i))
    && (p.op == Copy || forall i :: 0 <= i < |p.files| ==> q != Source(p, i))
  }

  /** Directories are left alone, and so is everything that is no place of a file. */
  ghost predicate Contained(p: Plan, fs: FS) {
    && (forall q :: IsDir(fs, q) <==> IsDir(p.fs, q))
    && (forall q :: Untouched(p, q) ==> Agree(fs, p.fs, q))
  }

  /** A worker renames or removes only in a move, and copies only to what is no
      directory. */
  ghost predicate Fitting(p: Plan, ph: Phase) {
    && (ph.Copying? ==> ph.i < |p.files| && !IsDir(p.fs, Target(p, ph.i)))
    && (ph.Renaming? || ph.Removing? ==> p.op == Move)
  }

  ghost predicate AllFitting(p: Plan, ws: seq<Phase>) {
    forall w :: 0 <= w < |ws| ==> Fitting(p, ws[w])
  }

  lemma ActionContained(p: Plan, s: State, ph: Phase)
    requires |p.io| == |p.files| && 0 <= Idx(ph) < |p.files| && Contained(p, s.fs) && Fitting(p, ph)
    ensures Contained(p, FileAction(p, s, ph).0) && Fitting(p, FileAction(p, s, ph).1)
  {
    var i, fs1 := Idx(ph), FileAction(p, s, ph).0;
    forall q | Untouched(p, q) ensures Agree(fs1, p.fs, q) {
      assert q != Target(p, i) && Agree(s.fs, p.fs, q);
    }
  }

  lemma StepContained(p: Plan, s: State, w: nat)
    requires |p.io| == |p.files| && Contained(p, s.fs) && AllFitting(p, s.workers)
    ensures Contained(p, Step(p, s, w).fs) && AllFitting(p, Step(p, s, w).workers)
  {
    if w < |s.workers| && 0 <= Idx(s.workers[w]) < |p.files| {
      ActionContained(p, s, s.workers[w]);
      hide FileAction, Contained, Fitting;
    }
  }

  // ----- the job record -----

  /** A failure that has been counted is in the record or about to be. */
  ghost predicate Reported(s: State) {
    && (s.job.error.Some? ==> s.failed > 0)
    && (forall w :: 0 <= w < |s.workers| && s.workers[w].Reporting? ==> s.failed > 0)
    && (s.failed > 0 && s.job.error.None? ==> exists w :: 0 <= w < |s.workers| && s.workers[w].Reporting?)
  }

  lemma StepReported(p: Plan, s: State, w: nat)
    requires |p.io| == |p.files| && Reported(s)
    ensures Reported(Step(p, s, w))
  {
    var s' := Step(p, s, w);
    if s.failed > 0 && s.job.error.None? {
      var v :| 0 <= v < |s.workers| && s.workers[v].Reporting?;
      assert v != w ==> s'.workers[v] == s.workers[v];
    }
    if w < |s.workers| && 0 <= Idx(s.workers[w]) < |p.files| {
      assert s'.workers[w] == FileAction(p, s, s.workers[w]).1;
      forall v | 0 <= v < |s.workers| && s'.workers[v].Reporting? ensures s'.failed > 0 {
        assert v != w ==> s'.workers[v] == s.workers[v];
      }
    }
  }

  /** Files tallied so far. */
  ghost predicate Tallied(p: Plan, j0: Job, s: State) {
    && s.job.doneFiles == j0.doneFiles + SumIn(Ones(p), Finished(p, s))
    && |s.job.current| <= CURRENT_LIMIT
    && s.job == j0.(doneFiles := s.job.doneFiles, doneBytes := s.job.doneBytes,
                    current := s.job.current, error := s.job.error)
  }

  lemma StepTallied(p: Plan, j0: Job, s: State, w: nat)
    requires |p.io| == |p.files| && Claims(p, s) && Tallied(p, j0, s)
    ensures Tallied(p, j0, Step(p, s, w))
  {
    if w < |s.workers| {
      var ph := s.workers[w];
      if ph.Claiming? {
        ClaimFinished(p, s, w);
      } else if !ph.Stopped? {
        ActionKeeps(p, s, ph);
        WorkedSets(p, s, w);
        hide Finished, Counted, FileAction, Claims;
        if ph.Tallying? { SumInAdd(Ones(p), Finished(p, s), Idx(ph)); }
      } else {
        assert s.workers[w := Stopped] == s.workers;
      }
    }
  }

  lemma ClaimFinished(p: Plan, s: State, w: nat)
    requires w < |s.workers| && s.workers[w].Claiming? && |p.io| == |p.files| && Claims(p, s)
    ensures Finished(p, Step(p, s, w)) == Finished(p, s)
  {
    var s' := Step(p, s, w);
    forall j: nat ensures Held(s'.workers, j) <==> j == Idx(s'.workers[w]) || Held(s.workers, j) {
      HeldUpdate(s.workers, w, s'.workers[w], j);
    }
    forall j ensures j in Finished(p, s') <==> j in Finished(p, s) {}
  }

  // ----- the invariant of every pool -----

  ghost predicate General(p: Plan, j0: Job, s: State) {
    && |p.io| == |p.files| && Claims(p, s)
    && Contained(p, s.fs) && AllFitting(p, s.workers)
    && Reported(s) && Tallied(p, j0, s)
  }

  lemma StepGeneral(p: Plan, j0: Job, s: State, w: nat)
    requires General(p, j0, s)
    ensures General(p, j0, Step(p, s, w))
  {
    hide Step, Claims, Contained, AllFitting, Reported, Tallied;
    KeepsClaims(p, s, w);
    StepContained(p, s, w);
    StepReported(p, s, w);
    StepTallied(p, j0, s, w);
  }

  lemma StartGeneral(p: Plan, j0: Job, threads: nat)
    requires |p.io| == |p.files| && j0.error.None? && |j0.current| <= CURRENT_LIMIT
    ensures General(p, j0, Start(p, j0, threads))
  {
    assert Finished(p, Start(p, j0, threads)) == {};
    SumInEmpty(Ones(p));
  }

  lemma {:induction false} RunGeneral(p: Plan, j0: Job, threads: nat, schedule: seq<nat>)
    requires |p.io| == |p.files| && j0.error.None? && |j0.current| <= CURRENT_LIMIT
    ensures General(p, j0, Run(p, Start(p, j0, threads), schedule))
    decreases |schedule|
  {
    if schedule == [] {
      StartGeneral(p, j0, threads);
    } else {
      var n := |schedule| - 1;
      RunGeneral(p, j0, threads, schedule[..n]);
      hide General, Step;
      StepGeneral(p, j0, Run(p, Start(p, j0, threads), schedule[..n]), schedule[n]);
    }
  }

  lemma {:induction false} RunWorkers(p: Plan, s: State, schedule: seq<nat>)
    requires |p.io| == |p.files|
    ensures |Run(p, s, schedule).workers| == |s.workers|
    decreases |schedule|
  {
    if schedule != [] {
      RunWorkers(p, s, schedule[..|schedule| - 1]);
    }
  }

  predicate AllStopped(s: State) {
    forall w :: 0 <= w < |s.workers| ==> s.workers[w].Stopped?
  }

  lemma {:induction false} OnesSum(p: Plan, n: nat)
    requires n <= |p.files|
    ensures SumIn(Ones(p), FirstN(n)) == n
  {
    if n == 0 {
      SumInEmpty(Ones(p));
      assert FirstN(0) == {};
    } else {
      OnesSum(p, n - 1);
      assert FirstN(n) == FirstN(n - 1) + {n - 1};
      SumInAdd(Ones(p), FirstN(n - 1), n - 1);
    }
  }

  /** A pool that has stopped has tallied every file, and an error is set exactly if
      some failure was counted. */
  lemma StoppedTallied(p: Plan, j0: Job, s: State)
    requires General(p, j0, s) && AllStopped(s) && |s.workers| > 0
    ensures s.job.doneFiles == j0.doneFiles + |p.files|
    ensures s.job.error.Some? <==> s.failed > 0
  {
    assert s.workers[0].Stopped?;
    assert forall i: nat :: !Held(s.workers, i);
    forall i ensures i in Finished(p, s) <==> i in FirstN(|p.files|) {}
    assert Finished(p, s) == FirstN(|p.files|);
    OnesSum(p, |p.files|);
  }

  /** At no moment have more files been tallied than there are. */
  lemma TalliedWithin(p: Plan, j0: Job, s: State)
    requires General(p, j0, s)
    ensures s.job.doneFiles <= j0.doneFiles + |p.files|
  {
    hide Contained, AllFitting, Reported, Claims;
    SumInMonotone(Ones(p), Finished(p, s), FirstN(|p.files|));
    OnesSum(p, |p.files|);
  }

  // ----- every run comes to an end -----

  /** No file is longer than `bound`.  Whatever is written was read somewhere, so
      this stays so. */
  ghost predicate Short(fs: FS, bound: nat) {
    forall q :: IsFile(fs, q) ==> |fs[q].data| <= bound
  }

  ghost function Longest(fs: FS): (bound: nat)
    ensures Short(fs, bound)
    decreases |fs|
  {
    if fs == map[] then 0
    else
      var q :| q in fs;
      var rest := Longest(fs - {q});
      assert forall x :: x in fs && x != q ==> x in fs - {q} && (fs - {q})[x] == fs[x];
      var here := if fs[q].File? then |fs[q].data| else 0;
      if here > rest then here else rest
  }

  function PhaseRank(bound: nat, ph: Phase): nat {
    match ph
    case Stopped => 0
    case Claiming => 1
    case Tallying(_, _, _) => 2
    case Reporting(_, _) => 3
    case CountingFailure(_, _) => 4
    case Removing(_, _) => 5
    case Copying(_, _, done) => if done < bound then 6 + bound - done else 6
    case Opening(_, _) => 7 + bound
    case Renaming(_, _) => 8 + bound
    case Announcing(_, _) => 9 + bound
    case Statting(_) => 10 + bound
  }

  function Ranks(bound: nat, ws: seq<Phase>): nat {
    if ws == [] then 0 else Ranks(bound, ws[..|ws| - 1]) + PhaseRank(bound, ws[|ws| - 1])
  }

  lemma {:induction false} RanksUpdate(bound: nat, ws: seq<Phase>, w: nat, ph: Phase)
    requires w < |ws|
    ensures Ranks(bound, ws[w := ph]) == Ranks(bound, ws) - PhaseRank(bound, ws[w]) + PhaseRank(bound, ph)
  {
    var n := |ws| - 1;
    hide PhaseRank;
    if w == n {
      assert ws[w := ph][..n] == ws[..n];
    } else {
      assert ws[w := ph][..n] == ws[..n][w := ph];
      RanksUpdate(bound, ws[..n], w, ph);
    }
  }

  /** Files no worker has claimed yet. */
  function Unclaimed(p: Plan, s: State): nat {
    if s.next < |p.files| then |p.files| - s.next else 0
  }

  lemma ActionShort(p: Plan, s: State, ph: Phase, bound: nat)
    requires |p.io| == |p.files| && 0 <= Idx(ph) < |p.files| && Short(s.fs, bound)
    ensures Short(FileAction(p, s, ph).0, bound)
  {
  }

  lemma ActionRank(p: Plan, s: State, ph: Phase, bound: nat)
    requires |p.io| == |p.files| && 0 <= Idx(ph) < |p.files| && Short(s.fs, bound)
    ensures PhaseRank(bound, FileAction(p, s, ph).1) < PhaseRank(bound, ph)
  {
  }

  /** Every step of a worker that has not stopped either claims one of the files that
      are left, or leaves less to do for what is claimed; so whoever is scheduled, and
      even if files collide, all workers stop after finitely many steps. */
  lemma StepDecreases(p: Plan, s: State, w: nat, bound: nat)
    requires |p.io| == |p.files| && Claims(p, s) && Short(s.fs, bound)
    requires w < |s.workers| && !s.workers[w].Stopped?
    ensures var s' := Step(p, s, w);
            && Claims(p, s') && Short(s'.fs, bound) && Unclaimed(p, s') <= Unclaimed(p, s)
            && (Unclaimed(p, s') == Unclaimed(p, s) ==> Ranks(bound, s'.workers) < Ranks(bound, s.workers))
  {
    KeepsClaims(p, s, w);
    var ph := s.workers[w];
    if Idx(ph) >= 0 {
      ActionShort(p, s, ph, bound);
      ActionRank(p, s, ph, bound);
    }
    hide FileAction, JobAction, Ranks, Short, Claims;
    RanksUpdate(bound, s.workers, w, Step(p, s, w).workers[w]);
  }

  /** The pool: as long as some thread is running, any one of them acts next; the
      schedule that comes about is returned too. */
  method RunPool(p: Plan, j0: Job, threads: nat) returns (s: State, ghost schedule: seq<nat>)
    requires |p.io| == |p.files|
    ensures s == Run(p, Start(p, j0, threads), schedule) && AllStopped(s) && |s.workers| == threads
  {
    s, schedule := Start(p, j0, threads), [];
    ghost var bound := Longest(p.fs);
    while exists w :: 0 <= w < |s.workers| && !s.workers[w].Stopped?
      invariant s == Run(p, Start(p, j0, threads), schedule) && |s.workers| == threads
      invariant Claims(p, s) && Short(s.fs, bound)
      decreases Unclaimed(p, s), Ranks(bound, s.workers)
    {
      var w: nat :| 0 <= w < |s.workers| && !s.workers[w].Stopped?;
      StepDecreases(p, s, w, bound);
      assert (schedule + [w])[..|schedule|] == schedule;
      s, schedule := Step(p, s, w), schedule + [w];
    }
  }

  // ----- when no call fails -----

  predicate Works(io: FileIO) {
    io.statOk && !io.rename.Refused? && io.open && io.create && io.breakAt.None? && io.remove
  }

  /** No call made for a file fails, and each target can be placed. */
  ghost predicate Smooth(p: Plan) {
    && Walked(p)
    && forall i :: 0 <= i < |p.files| ==> Works(p.io[i]) && CanPlace(p.fs, Target(p, i))
  }

  /** The worker still needs the source of its file. */
  predicate NeedsSource(ph: Phase) {
    ph.Statting? || ph.Announcing? || ph.Renaming? || ph.Opening? || ph.Copying? || ph.Removing?
  }

  predicate Failing(ph: Phase) {
    ph.CountingFailure? || ph.Reporting? || (ph.Tallying? && !ph.ok)
  }

  /** The source of every file that still needs it is a file, if perhaps another one,
      and nothing has failed. */
  ghost predicate Unhindered(p: Plan, s: State) {
    && s.failed == 0
    && (forall i :: s.next <= i < |p.files| ==> IsFile(s.fs, Source(p, i)))
    && (forall w :: 0 <= w < |s.workers| && NeedsSource(s.workers[w]) && s.workers[w].i < |p.files| ==>
          IsFile(s.fs, Source(p, s.workers[w].i)))
    && (forall w :: 0 <= w < |s.workers| ==> !Failing(s.workers[w]))
  }

  lemma ActionUnhindered(p: Plan, s: State, ph: Phase)
    requires Smooth(p) && 0 <= Idx(ph) < |p.files| && Contained(p, s.fs) && Fitting(p, ph)
    requires !Failing(ph) && (NeedsSource(ph) ==> IsFile(s.fs, Source(p, Idx(ph))))
    ensures var (fs1, ph1) := FileAction(p, s, ph);
            && !Failing(ph1) && (NeedsSource(ph1) ==> IsFile(fs1, Source(p, Idx(ph))))
            && forall q :: q != Source(p, Idx(ph)) && IsFile(s.fs, q) ==> IsFile(fs1, q)
  {
    var i := Idx(ph);
    assert Works(p.io[i]) && CanPlace(p.fs, Target(p, i));
    assert IsDir(s.fs, Target(p, i)) <==> IsDir(p.fs, Target(p, i));
    assert IsDir(s.fs, Parent(Target(p, i))) <==> IsDir(p.fs, Parent(Target(p, i)));
  }

  lemma StepUnhindered(p: Plan, j0: Job, s: State, w: nat)
    requires Smooth(p) && General(p, j0, s) && Unhindered(p, s)
    ensures Unhindered(p, Step(p, s, w))
  {
    if w < |s.workers| && 0 <= Idx(s.workers[w]) < |p.files| {
      var ph, s' := s.workers[w], Step(p, s, w);
      var i := Idx(ph);
      ActionKeeps(p, s, ph);
      ActionUnhindered(p, s, ph);
      hide FileAction, Contained, Fitting, Reported, Tallied, Smooth;
      forall k | s'.next <= k < |p.files| ensures IsFile(s'.fs, Source(p, k)) {
        OtherSource(p, k, i);
      }
      forall v | 0 <= v < |s'.workers| && NeedsSource(s'.workers[v]) && s'.workers[v].i < |p.files|
        ensures IsFile(s'.fs, Source(p, s'.workers[v].i))
      {
        if v != w {
          assert s'.workers[v] == s.workers[v] && Idx(s.workers[v]) != i;
          OtherSource(p, s.workers[v].i, i);
        }
      }
    }
  }

  lemma OtherSource(p: Plan, k: nat, i: nat)
    requires Smooth(p) && k < |p.files| && i < |p.files| && k != i
    ensures Source(p, k) != Source(p, i)
  {
    SourcesApart(p, k, i);
  }

  /** If no call fails nothing fails, for every schedule, even where files collide:
      another file may be found at a source, but there always is one. */
  lemma {:induction false} NothingFails(p: Plan, j0: Job, threads: nat, schedule: seq<nat>)
    requires Smooth(p) && j0.error.None? && |j0.current| <= CURRENT_LIMIT
    ensures Unhindered(p, Run(p, Start(p, j0, threads), schedule))
    decreases |schedule|
  {
    if schedule != [] {
      var n := |schedule| - 1;
      NothingFails(p, j0, threads, schedule[..n]);
      RunGeneral(p, j0, threads, schedule[..n]);
      hide General, Unhindered, Step, Smooth;
      StepUnhindered(p, j0, Run(p, Start(p, j0, threads), schedule[..n]), schedule[n]);
    }
  }
}
