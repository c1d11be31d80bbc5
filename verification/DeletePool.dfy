/** The first half of a delete job: threads claim the walked files from an atomic
    counter and unlink them in parallel. */
module DeletePool {
  import opened FileSystem
  import opened Jobs
  import opened Sums

  /** The walked files, which of them cannot be removed, and the filesystem. */
  datatype Plan = Plan(files: seq<Path>, bad: set<Path>, fs: FS)

  ghost predicate ValidPlan(p: Plan) {
    && (forall i, j :: 0 <= i < j < |p.files| ==> p.files[i] != p.files[j])
    && (forall i :: 0 <= i < |p.files| ==> IsFile(p.fs, p.files[i]))
  }

  datatype Phase =
    | Claiming
    | Announcing(i: nat)
    | Unlinking(i: nat)
    | CountingFailure(i: nat)
    | Reporting(i: nat)
    | Tallying(i: nat)
    | Stopped

  datatype State = State(fs: FS, next: nat, failed: nat, job: Job, workers: seq<Phase>)

  function Idx(ph: Phase): int {
    if ph.Claiming? || ph.Stopped? then -1 else ph.i
  }

  /** What a thread that holds a file does next. */
  function Act(p: Plan, s: State, ph: Phase): (FS, Job, Phase)
    requires Idx(ph) < |p.files|
  {
    match ph
    case Announcing(i) => (s.fs, Announce(s.job, p.files[i]), Unlinking(i))
    case Unlinking(i) =>
      if p.files[i] !in p.bad && IsFile(s.fs, p.files[i]) then (s.fs - {p.files[i]}, s.job, Tallying(i))
      else (s.fs, s.job, CountingFailure(i))
    case CountingFailure(i) => (s.fs, s.job, Reporting(i))
    case Reporting(i) => (s.fs, Report(s.job, p.files[i]), Claiming)
    case Tallying(i) => (s.fs, s.job.(doneFiles := s.job.doneFiles + 1), Claiming)
    case Claiming => (s.fs, s.job, Claiming)
    case Stopped => (s.fs, s.job, Stopped)
  }

  /** One atomic action of thread `w`. */
  function Step(p: Plan, s: State, w: nat): State {
    if w >= |s.workers| || Idx(s.workers[w]) >= |p.files| then s
    else
      var ph := s.workers[w];
      if ph.Claiming? then
        s.(next := s.next + 1,
           workers := s.workers[w := if s.next < |p.files| then Announcing(s.next) else Stopped])
      else
        var (fs1, job1, ph1) := Act(p, s, ph);
        State(fs1, s.next, if ph.CountingFailure? then s.failed + 1 else s.failed,
              job1, s.workers[w := ph1])
  }

  function Run(p: Plan, s: State, schedule: seq<nat>): State
    decreases |schedule|
  {
    if schedule == [] then s
    else Step(p, Run(p, s, schedule[..|schedule| - 1]), schedule[|schedule| - 1])
  }

  function Start(p: Plan, job: Job, threads: nat): State {
    State(p.fs, 0, 0, job, seq(threads, w => Claiming))
  }

  // ----- how far each file has come -----

  /** Unlinking decides at level 3, a failure is counted by level 4, and a thread
      that lets go of its file has passed every level. */
  function Level(ph: Phase): nat {
    match ph
    case Announcing(_) => 1
    case Unlinking(_) => 2
    case CountingFailure(_) => 3
    case Reporting(_) => 4
    case Tallying(_) => 4
    case _ => 9
  }

  ghost predicate Behind(ws: seq<Phase>, i: nat, k: nat) {
    exists w :: 0 <= w < |ws| && Idx(ws[w]) == i && Level(ws[w]) < k
  }

  /** The claimed files that have come at least to level `k`. */
  ghost function Reached(p: Plan, s: State, k: nat): set<nat> {
    set i | 0 <= i < |p.files| && i < s.next && !Behind(s.workers, i, k)
  }

  ghost predicate Claims(p: Plan, s: State) {
    && (forall w :: 0 <= w < |s.workers| ==> Idx(s.workers[w]) < |p.files| && Idx(s.workers[w]) < s.next)
    && (forall w, v :: 0 <= w < v < |s.workers| && Idx(s.workers[w]) >= 0 ==>
          Idx(s.workers[w]) != Idx(s.workers[v]))
    && (forall w :: 0 <= w < |s.workers| && s.workers[w].Stopped? ==> |p.files| <= s.next)
  }

  predicate PhaseOk(p: Plan, ph: Phase)
    requires Idx(ph) < |p.files|
  {
    match ph
    case CountingFailure(i) => p.files[i] in p.bad
    case Reporting(i) => p.files[i] in p.bad
    case Tallying(i) => p.files[i] !in p.bad
    case _ => true
  }

  function Refused(p: Plan): seq<nat> {
    seq(|p.files|, i requires 0 <= i < |p.files| => if p.files[i] in p.bad then 1 else 0)
  }

  function Removable(p: Plan): seq<nat> {
    seq(|p.files|, i requires 0 <= i < |p.files| => if p.files[i] in p.bad then 0 else 1)
  }

  ghost predicate PhasesOk(p: Plan, s: State)
    requires Claims(p, s)
  {
    forall w :: 0 <= w < |s.workers| ==> PhaseOk(p, s.workers[w])
  }

  /** Exactly the removable files that were unlinked are missing. */
  ghost predicate FsShows(p: Plan, s: State) {
    && (forall i :: 0 <= i < |p.files| ==>
          (p.files[i] in s.fs <==> i !in Reached(p, s, 3) || p.files[i] in p.bad))
    && (forall q :: q !in p.files ==> Agree(s.fs, p.fs, q))
    && (forall q :: q in s.fs ==> q in p.fs && s.fs[q] == p.fs[q])
  }

  ghost predicate Counts(p: Plan, s: State) {
    && s.failed == SumIn(Refused(p), Reached(p, s, 4))
    && s.job.doneFiles == SumIn(Removable(p), Reached(p, s, 5))
  }

  ghost predicate Errors(p: Plan, s: State) {
    && (s.job.error.None? ==> forall i :: i in Reached(p, s, 5) ==> p.files[i] !in p.bad)
    && (s.job.error.Some? ==> s.job.error.value in p.files && s.job.error.value in p.bad)
  }

  ghost predicate Inv(p: Plan, j0: Job, s: State) {
    && ValidPlan(p) && Claims(p, s) && PhasesOk(p, s)
    && FsShows(p, s) && Counts(p, s) && Errors(p, s)
    && |s.job.current| <= CURRENT_LIMIT
    && s.job == j0.(doneFiles := s.job.doneFiles, current := s.job.current, error := s.job.error)
  }

  lemma BehindUpdate(ws: seq<Phase>, w: nat, ph: Phase, i: nat, k: nat)
    requires w < |ws|
    requires forall u, v :: 0 <= u < v < |ws| && Idx(ws[u]) >= 0 ==> Idx(ws[u]) != Idx(ws[v])
    ensures Behind(ws[w := ph], i, k) <==>
            (i == Idx(ph) && Level(ph) < k) || (Behind(ws, i, k) && i != Idx(ws[w]))
  {
    var ws' := ws[w := ph];
    assert ws'[w] == ph;
    if Behind(ws, i, k) {
      var v :| 0 <= v < |ws| && Idx(ws[v]) == i && Level(ws[v]) < k;
      assert ws'[v] == ws[v] || v == w;
    }
    if Behind(ws', i, k) {
      var v :| 0 <= v < |ws'| && Idx(ws'[v]) == i && Level(ws'[v]) < k;
      assert ws'[v] == ws[v] || v == w;
    }
  }

  /** A thread moving its file on takes it past the levels in between. */
  lemma ReachedUpdate(p: Plan, s: State, w: nat, i: nat, ph1: Phase, k: nat)
    requires Claims(p, s) && w < |s.workers| && i == Idx(s.workers[w])
    requires Idx(ph1) == i || ph1 == Claiming
    requires Level(s.workers[w]) <= Level(ph1) && k <= 9
    ensures Reached(p, s.(workers := s.workers[w := ph1]), k) ==
            if Level(s.workers[w]) < k <= Level(ph1) then Reached(p, s, k) + {i} else Reached(p, s, k)
    ensures Level(s.workers[w]) < k ==> i !in Reached(p, s, k)
  {
    var s' := s.(workers := s.workers[w := ph1]);
    if Level(s.workers[w]) < k {
      assert Behind(s.workers, i, k);
    } else {
      assert !Behind(s.workers, i, k);
    }
    forall j: nat
      ensures Behind(s'.workers, j, k) <==>
              (j == Idx(ph1) && Level(ph1) < k) || (Behind(s.workers, j, k) && j != i)
    {
      BehindUpdate(s.workers, w, ph1, j, k);
    }
    forall j ensures j in Reached(p, s', k) <==>
                     j in Reached(p, s, k) || (j == i && Level(s.workers[w]) < k <= Level(ph1)) {}
  }

  lemma ClaimReached(p: Plan, s: State, w: nat, k: nat)
    requires Claims(p, s) && w < |s.workers| && s.workers[w].Claiming? && k > 1
    ensures Reached(p, Step(p, s, w), k) == Reached(p, s, k)
  {
    var s' := Step(p, s, w);
    forall j: nat
      ensures Behind(s'.workers, j, k) <==>
              (j == Idx(s'.workers[w]) && Level(s'.workers[w]) < k) || Behind(s.workers, j, k)
    {
      BehindUpdate(s.workers, w, s'.workers[w], j, k);
    }
    forall j ensures j in Reached(p, s', k) <==> j in Reached(p, s, k) {}
  }

  lemma StepClaims(p: Plan, s: State, w: nat)
    requires Claims(p, s)
    ensures Claims(p, Step(p, s, w))
  {
    if w < |s.workers| && !s.workers[w].Claiming? {
      ActIdx(p, s, s.workers[w]);
      hide Act;
      var s' := Step(p, s, w);
      forall v | 0 <= v < |s.workers| && v != w ensures s'.workers[v] == s.workers[v] {}
    }
  }

  lemma ActIdx(p: Plan, s: State, ph: Phase)
    requires Idx(ph) < |p.files| && !ph.Claiming?
    ensures var ph1 := Act(p, s, ph).2;
            (Idx(ph1) == Idx(ph) || ph1 == Claiming) && (ph1.Stopped? ==> ph.Stopped?)
  {
  }

  lemma ClaimInv(p: Plan, j0: Job, s: State, w: nat)
    requires Inv(p, j0, s) && w < |s.workers| && s.workers[w].Claiming?
    ensures Inv(p, j0, Step(p, s, w))
  {
    StepClaims(p, s, w);
    ClaimReached(p, s, w, 3);
    ClaimReached(p, s, w, 4);
    ClaimReached(p, s, w, 5);
    var s' := Step(p, s, w);
    forall v | 0 <= v < |s.workers| ensures PhaseOk(p, s'.workers[v]) {
      assert v != w ==> s'.workers[v] == s.workers[v];
    }
  }

  /** What a step of a thread that holds file `i` passes. */
  lemma WorkReached(p: Plan, s: State, w: nat, k: nat)
    requires Claims(p, s) && PhasesOk(p, s) && w < |s.workers| && 0 <= Idx(s.workers[w]) && k <= 9
    ensures var ph, i := s.workers[w], Idx(s.workers[w]);
            var ph1 := Act(p, s, ph).2;
            && Reached(p, Step(p, s, w), k) ==
               (if Level(ph) < k <= Level(ph1) then Reached(p, s, k) + {i} else Reached(p, s, k))
            && (Level(ph) < k ==> i !in Reached(p, s, k))
            && Level(ph) < Level(ph1) && (Idx(ph1) == i || ph1 == Claiming)
  {
    var ph1 := Act(p, s, s.workers[w]).2;
    ReachedUpdate(p, s, w, Idx(s.workers[w]), ph1, k);
    assert Reached(p, Step(p, s, w), k) == Reached(p, s.(workers := s.workers[w := ph1]), k);
  }

  lemma WorkPhases(p: Plan, s: State, w: nat)
    requires ValidPlan(p) && Claims(p, s) && PhasesOk(p, s) && FsShows(p, s)
    requires w < |s.workers| && 0 <= Idx(s.workers[w])
    requires Claims(p, Step(p, s, w))
    ensures PhasesOk(p, Step(p, s, w)) && FsShows(p, Step(p, s, w))
  {
    var s', i := Step(p, s, w), Idx(s.workers[w]);
    WorkReached(p, s, w, 3);
    hide Reached;
    assert PhaseOk(p, s.workers[w]);
    forall v | 0 <= v < |s.workers| ensures PhaseOk(p, s'.workers[v]) {
      assert v != w ==> s'.workers[v] == s.workers[v];
    }
  }

  lemma WorkCounts(p: Plan, s: State, w: nat)
    requires Claims(p, s) && PhasesOk(p, s) && Counts(p, s)
    requires w < |s.workers| && 0 <= Idx(s.workers[w])
    requires var ph1 := Act(p, s, s.workers[w]).2; ph1.Tallying? ==> PhaseOk(p, ph1)
    ensures Counts(p, Step(p, s, w))
  {
    var ph, i := s.workers[w], Idx(s.workers[w]);
    WorkReached(p, s, w, 4);
    WorkReached(p, s, w, 5);
    hide Reached;
    assert PhaseOk(p, ph);
    if Level(ph) <= 3 { SumInAdd(Refused(p), Reached(p, s, 4), i); }
    if Level(ph) == 4 { SumInAdd(Removable(p), Reached(p, s, 5), i); }
  }

  lemma WorkErrors(p: Plan, s: State, w: nat)
    requires Claims(p, s) && PhasesOk(p, s) && Errors(p, s)
    requires w < |s.workers| && 0 <= Idx(s.workers[w])
    ensures Errors(p, Step(p, s, w))
  {
    WorkReached(p, s, w, 5);
    assert PhaseOk(p, s.workers[w]);
  }

  lemma WorkInv(p: Plan, j0: Job, s: State, w: nat)
    requires Inv(p, j0, s) && w < |s.workers| && Idx(s.workers[w]) >= 0
    ensures Inv(p, j0, Step(p, s, w))
  {
    StepClaims(p, s, w);
    WorkPhases(p, s, w);
    assert Step(p, s, w).workers[w] == Act(p, s, s.workers[w]).2;
    WorkCounts(p, s, w);
    WorkErrors(p, s, w);
    hide FsShows, Counts, Errors, Claims, PhasesOk;
  }

  lemma StepInv(p: Plan, j0: Job, s: State, w: nat)
    requires Inv(p, j0, s)
    ensures Inv(p, j0, Step(p, s, w))
  {
    if w < |s.workers| {
      if s.workers[w].Claiming? {
        ClaimInv(p, j0, s, w);
      } else if s.workers[w].Stopped? {
        assert s.workers[w := Stopped] == s.workers;
      } else {
        WorkInv(p, j0, s, w);
      }
    }
  }

  lemma StartInv(p: Plan, j0: Job, threads: nat)
    requires ValidPlan(p) && j0.error.None? && j0.doneFiles == 0 && |j0.current| <= CURRENT_LIMIT
    ensures Inv(p, j0, Start(p, j0, threads))
  {
    var s := Start(p, j0, threads);
    assert Reached(p, s, 3) == {} && Reached(p, s, 4) == {} && Reached(p, s, 5) == {};
    SumInEmpty(Refused(p));
    SumInEmpty(Removable(p));
  }

  lemma {:induction false} RunInv(p: Plan, j0: Job, threads: nat, schedule: seq<nat>)
    requires ValidPlan(p) && j0.error.None? && j0.doneFiles == 0 && |j0.current| <= CURRENT_LIMIT
    ensures Inv(p, j0, Run(p, Start(p, j0, threads), schedule))
    ensures |Run(p, Start(p, j0, threads), schedule).workers| == threads
    decreases |schedule|
  {
    if schedule == [] {
      StartInv(p, j0, threads);
    } else {
      var n := |schedule| - 1;
      RunInv(p, j0, threads, schedule[..n]);
      hide Inv;
      StepInv(p, j0, Run(p, Start(p, j0, threads), schedule[..n]), schedule[n]);
    }
  }

  // ----- every run comes to an end -----

  function Unclaimed(p: Plan, s: State): nat {
    if s.next < |p.files| then |p.files| - s.next else 0
  }

  function Rank(ph: Phase): nat {
    if ph.Stopped? then 0 else if ph.Claiming? then 1 else 10 - Level(ph)
  }

  function Ranks(ws: seq<Phase>): nat {
    if ws == [] then 0 else Ranks(ws[..|ws| - 1]) + Rank(ws[|ws| - 1])
  }

  lemma {:induction false} RanksUpdate(ws: seq<Phase>, w: nat, ph: Phase)
    requires w < |ws|
    ensures Ranks(ws[w := ph]) == Ranks(ws) - Rank(ws[w]) + Rank(ph)
  {
    var n := |ws| - 1;
    if w == n {
      assert ws[w := ph][..n] == ws[..n];
    } else {
      assert ws[w := ph][..n] == ws[..n][w := ph];
      RanksUpdate(ws[..n], w, ph);
    }
  }

  lemma StepDecreases(p: Plan, s: State, w: nat)
    requires Claims(p, s) && w < |s.workers| && !s.workers[w].Stopped?
    ensures var s' := Step(p, s, w);
            Unclaimed(p, s') < Unclaimed(p, s) ||
            (Unclaimed(p, s') == Unclaimed(p, s) && Ranks(s'.workers) < Ranks(s.workers))
  {
    RanksUpdate(s.workers, w, Step(p, s, w).workers[w]);
  }

  predicate AllStopped(s: State) {
    forall w :: 0 <= w < |s.workers| ==> s.workers[w].Stopped?
  }

  /** The threads, scheduled in any order, until all have stopped. */
  method RunPool(p: Plan, j0: Job, threads: nat) returns (s: State, ghost schedule: seq<nat>)
    requires ValidPlan(p) && j0.error.None? && j0.doneFiles == 0 && |j0.current| <= CURRENT_LIMIT
    ensures s == Run(p, Start(p, j0, threads), schedule) && AllStopped(s)
  {
    s, schedule := Start(p, j0, threads), [];
    RunInv(p, j0, threads, []);
    while exists w :: 0 <= w < |s.workers| && !s.workers[w].Stopped?
      invariant s == Run(p, Start(p, j0, threads), schedule) && Claims(p, s)
      decreases Unclaimed(p, s), Ranks(s.workers)
    {
      var w: nat :| 0 <= w < |s.workers| && !s.workers[w].Stopped?;
      StepDecreases(p, s, w);
      StepClaims(p, s, w);
      assert (schedule + [w])[..|schedule|] == schedule;
      s, schedule := Step(p, s, w), schedule + [w];
    }
  }

  /** The refused and the removable files are all the files. */
  lemma {:induction false} SplitSum(p: Plan, n: nat)
    requires n <= |p.files|
    ensures SumIn(Refused(p)[..n], FirstN(n)) + SumIn(Removable(p)[..n], FirstN(n)) == n
  {
    if n > 0 {
      SplitSum(p, n - 1);
      assert Refused(p)[..n][..n - 1] == Refused(p)[..n - 1];
      assert Removable(p)[..n][..n - 1] == Removable(p)[..n - 1];
      SumInSame(Refused(p)[..n - 1], FirstN(n), FirstN(n - 1));
      SumInSame(Removable(p)[..n - 1], FirstN(n), FirstN(n - 1));
    }
  }

  lemma StoppedReached(p: Plan, j0: Job, s: State)
    requires Inv(p, j0, s) && AllStopped(s) && |s.workers| > 0
    ensures forall k: nat :: Reached(p, s, k) == FirstN(|p.files|)
  {
    assert s.workers[0].Stopped?;
    forall k: nat ensures Reached(p, s, k) == FirstN(|p.files|) {
      forall i: nat ensures !Behind(s.workers, i, k) {}
      forall i ensures i in Reached(p, s, k) <==> i in FirstN(|p.files|) {}
    }
  }

  /** However the threads interleave, in the end exactly the files that could not be
      removed are left. */
  lemma PoolDeletes(p: Plan, j0: Job, s: State)
    requires Inv(p, j0, s) && AllStopped(s) && |s.workers| > 0
    ensures forall q :: q in s.fs <==> q in p.fs && (q in p.files ==> q in p.bad)
    ensures forall q :: q in s.fs ==> s.fs[q] == p.fs[q]
  {
    StoppedReached(p, j0, s);
    hide Reached;
    forall q ensures q in s.fs <==> q in p.fs && (q in p.files ==> q in p.bad) {
      if q in p.files {
        var i :| 0 <= i < |p.files| && p.files[i] == q;
        assert i in Reached(p, s, 3);
      }
    }
  }

  /** Every file is counted once, as done or as failed, and an error is set exactly
      when one failed. */
  lemma PoolCounts(p: Plan, j0: Job, s: State)
    requires Inv(p, j0, s) && AllStopped(s) && |s.workers| > 0
    ensures s.job.doneFiles + s.failed == |p.files|
    ensures s.job.doneFiles == SumIn(Removable(p), FirstN(|p.files|))
    ensures s.failed == 0 <==> forall q :: q in p.files ==> q !in p.bad
    ensures s.job.error.Some? <==> s.failed > 0
  {
    var n := |p.files|;
    StoppedReached(p, j0, s);
    hide Reached, FsShows, Claims, PhasesOk, ValidPlan;
    SplitSum(p, n);
    assert Refused(p)[..n] == Refused(p) && Removable(p)[..n] == Removable(p);
    SumInZero(Refused(p), FirstN(n));
    if s.failed == 0 {
      forall i | 0 <= i < n ensures p.files[i] !in p.bad { assert Refused(p)[i] == 0; }
    }
    if s.job.error.Some? {
      var i :| 0 <= i < n && p.files[i] == s.job.error.value;
      assert Refused(p)[i] == 1;
    } else {
      forall i | 0 <= i < n ensures Refused(p)[i] == 0 { assert i in Reached(p, s, 5); }
    }
  }

  /** For every number of threads and every interleaving of their steps: when all have
      stopped exactly the files that could not be removed are left, removed and failed
      files add up to all, and an error is set exactly if one failed. */
  lemma EveryScheduleDeletes(p: Plan, j0: Job, threads: nat, schedule: seq<nat>)
    requires ValidPlan(p) && j0.error.None? && j0.doneFiles == 0 && |j0.current| <= CURRENT_LIMIT && threads > 0
    requires AllStopped(Run(p, Start(p, j0, threads), schedule))
    ensures var s := Run(p, Start(p, j0, threads), schedule);
            && (forall q :: q in s.fs <==> q in p.fs && (q in p.files ==> q in p.bad))
            && (forall q :: q in s.fs ==> s.fs[q] == p.fs[q])
            && s.job.doneFiles + s.failed == |p.files|
            && (s.failed == 0 <==> forall q :: q in p.files ==> q !in p.bad)
            && (s.job.error.Some? <==> s.failed > 0)
  {
    RunInv(p, j0, threads, schedule);
    hide Inv, Run;
    PoolDeletes(p, j0, Run(p, Start(p, j0, threads), schedule));
    PoolCounts(p, j0, Run(p, Start(p, j0, threads), schedule));
  }

  /** At no moment have more files been counted than there are. */
  lemma CountedWithin(p: Plan, j0: Job, s: State)
    requires Inv(p, j0, s)
    ensures s.job.doneFiles <= |p.files|
  {
    var n := |p.files|;
    SumInMonotone(Removable(p), Reached(p, s, 5), FirstN(n));
    SplitSum(p, n);
    assert Removable(p)[..n] == Removable(p);
  }
}
