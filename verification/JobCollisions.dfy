/** Jobs some of whose files go to the place of others: exactly when the schedule shows in
    what they leave, and in the counters. */
module JobCollisions {
  import opened FileSystem
  import opened TreeWalk
  import opened Jobs
  import opened Sums
  import opened TransferPool
  import opened AnyPlan
  import opened TransferTheorems
  import opened SingleThread
  import opened Collisions
  import opened Determinism
  import opened ByteCount
  import opened Chains
  import opened MoveJob
  import opened MoveTheorems
  import opened FastPath
  import opened Overlap

  /** No walked file goes to the place of another, or both are empty and are copied. */
  ghost predicate FilesQuiet(c: Config)
    requires Lists(c.ls, c.fs)
  {
    forall r, t :: r in JobFiles(c) && t in JobFiles(c) && r != t && c.dst + r == c.src + t ==>
      c.op == Copy && FileSize(c, r) == 0 && FileSize(c, t) == 0
  }

  lemma PlanQuiet(c: Config)
    requires ValidConfig(c) && c.src in c.fs
    ensures Quiet(PlanOf(c)) <==> FilesQuiet(c)
  {
    var p, files := PlanOf(c), JobFiles(c);
    PlanWalked(c);
    forall i: nat | i < |files|
      ensures Source(p, i) == c.src + files[i] && Target(p, i) == c.dst + files[i] && files[i] in files
      ensures EmptyFile(p, i) <==> FileSize(c, files[i]) == 0
    {
      PlanPlaces(c, i);
    }
    assert forall i: nat, k: nat :: i < |files| && k < |files| && i != k ==> files[i] != files[k];
    hide EmptyFile, FileSize, Source, Target, JobFiles, Walked;
    if Quiet(p) {
      forall r, t | r in files && t in files && r != t && c.dst + r == c.src + t
        ensures c.op == Copy && FileSize(c, r) == 0 && FileSize(c, t) == 0
      {
        var i: nat :| i < |files| && files[i] == r;
        var k: nat :| k < |files| && files[k] == t;
        assert Collides(p, i, k);
      }
    }
  }

  /** Every schedule of the pool leaves the same. */
  ghost predicate PoolAlike(c: Config, j: Job)
    requires Lists(c.ls, c.fs)
  {
    forall a: seq<nat>, b: seq<nat> :: AllStopped(PoolRun(c, j, a)) && AllStopped(PoolRun(c, j, b)) ==>
      PoolRun(c, j, a).fs == PoolRun(c, j, b).fs
  }

  /** Every schedule leaves the same when the job, on the slow path, has come to its end. */
  ghost predicate JobAlike(c: Config, j: Job)
    requires Lists(c.ls, c.fs)
  {
    forall a: seq<nat>, b: seq<nat> :: AllStopped(PoolRun(c, j, a)) && AllStopped(PoolRun(c, j, b)) ==>
      Ended(c, PoolRun(c, j, a)) == Ended(c, PoolRun(c, j, b))
  }

  lemma PoolAlikeMeans(c: Config, j: Job, p: Plan, j0: Job)
    requires Lists(c.ls, c.fs) && p == PlanOf(c) && j0 == PoolJob(c, j)
    ensures AllAlike(p, j0, c.threads) <==> PoolAlike(c, j)
  {
    forall a ensures PoolRun(c, j, a) == Run(p, Start(p, j0, c.threads), a) {}
    hide PoolRun, PlanOf, PoolJob, Run, Start, AllStopped;
    if AllAlike(p, j0, c.threads) {
      forall a: seq<nat>, b: seq<nat> | AllStopped(PoolRun(c, j, a)) && AllStopped(PoolRun(c, j, b))
        ensures PoolRun(c, j, a).fs == PoolRun(c, j, b).fs
      {
        assert AllStopped(Run(p, Start(p, j0, c.threads), a)) && AllStopped(Run(p, Start(p, j0, c.threads), b));
      }
    }
    if PoolAlike(c, j) {
      forall a: seq<nat>, b: seq<nat> |
        AllStopped(Run(p, Start(p, j0, c.threads), a)) && AllStopped(Run(p, Start(p, j0, c.threads), b))
        ensures Run(p, Start(p, j0, c.threads), a).fs == Run(p, Start(p, j0, c.threads), b).fs
      {
        assert AllStopped(PoolRun(c, j, a)) && AllStopped(PoolRun(c, j, b));
      }
    }
  }

  /** If no call fails and there are two threads or more, every schedule of the pool leaves
      the same exactly if the files are quiet, which the initial filesystem tells. */
  lemma PoolAlikeExactly(c: Config, j: Job)
    requires Started(c, j) && AllClear(c) && c.threads >= 2
    ensures PoolAlike(c, j) <==> FilesQuiet(c)
  {
    ClearIsSmooth(c);
    PoolJobMeans(c, j);
    PlanQuiet(c);
    hide AllClear, Smooth, Quiet, FilesQuiet, PoolJob, PlanOf, Run, PoolAlike, AllAlike, AllInOrder;
    PoolAlikeMeans(c, j, PlanOf(c), PoolJob(c, j));
    AlikeExactly(PlanOf(c), PoolJob(c, j), c.threads);
  }

  /** A job whose files are quiet leaves what list order leaves. */
  lemma QuietEnds(c: Config, j: Job, schedule: seq<nat>)
    requires Started(c, j) && AllClear(c) && FilesQuiet(c) && AllStopped(PoolRun(c, j, schedule))
    ensures Ended(c, PoolRun(c, j, schedule)) == SlowFs(c)
  {
    var p, j0 := PlanOf(c), PoolJob(c, j);
    ClearIsSmooth(c);
    PoolJobMeans(c, j);
    PlanQuiet(c);
    ClearNothingFails(c, j, schedule);
    QuietAgrees(p, j0, c.threads, schedule);
    InOrderFailsNot(p, j0);
    hide AllClear, Smooth, Quiet, FilesQuiet, PoolJob, Prepared, JobFiles, Run, InOrder;
  }

  lemma InOrderFailsNot(p: Plan, j0: Job)
    requires Smooth(p) && j0.error.None? && |j0.current| <= CURRENT_LIMIT
    ensures InOrder(p, |p.files|).failed == 0
  {
    var one := ListOrderRuns(p, j0);
    OneThread(p, j0, one);
    NothingFails(p, j0, 1, one);
    hide InOrder, Run;
  }

  /** A copy ends alike on every schedule exactly if its files are quiet. */
  lemma CopyAlikeExactly(c: Config, j: Job)
    requires Started(c, j) && AllClear(c) && c.threads >= 2 && c.op == Copy
    ensures JobAlike(c, j) <==> FilesQuiet(c)
  {
    PoolAlikeExactly(c, j);
    hide AllClear, FilesQuiet, PoolRun, AllStopped;
    assert JobAlike(c, j) <==> PoolAlike(c, j);
  }

  // ----- what a move of a directory leaves -----

  function FileData(c: Config, r: Path): Bytes {
    if IsFile(c.fs, c.src + r) then c.fs[c.src + r].data else []
  }

  /** What is at the place of `r` may come to lie outside the source, by way of the places
      of other files. */
  ghost predicate ComesOut(c: Config, r: Path)
    requires Lists(c.ls, c.fs)
    decreases |r|
  {
    && r in JobFiles(c)
    && (!Under(c.src, c.dst + r)
        || exists t: Path :: |t| < |r| && t in JobFiles(c) && c.dst + r == c.src + t && ComesOut(c, t))
  }

  /** A file that goes to the place of another from where a way leads out is the same. */
  ghost predicate FilesMatch(c: Config)
    requires Lists(c.ls, c.fs)
  {
    forall r, t :: r in JobFiles(c) && t in JobFiles(c) && r != t && c.dst + r == c.src + t && ComesOut(c, t) ==>
      FileData(c, r) == FileData(c, t)
  }

  lemma {:induction false} OutMeans(c: Config, k: nat)
    requires ValidConfig(c) && c.src in c.fs && k < |JobFiles(c)|
    ensures LeadsOut(PlanOf(c), k) <==> ComesOut(c, JobFiles(c)[k])
    decreases |JobFiles(c)[k]|
  {
    var p, files := PlanOf(c), JobFiles(c);
    PlanPlaces(c, k);
    forall m: nat | m < |files| && |files[m]| < |files[k]|
      ensures Target(p, k) == Source(p, m) <==> c.dst + files[k] == c.src + files[m]
      ensures LeadsOut(p, m) <==> ComesOut(c, files[m])
    {
      PlanPlaces(c, m);
      OutMeans(c, m);
    }
    if t: Path :| |t| < |files[k]| && t in files && c.dst + files[k] == c.src + t && ComesOut(c, t) {
      var m: nat :| m < |files| && files[m] == t;
      assert Follows(p, k, m);
    }
    if m: nat :| Follows(p, k, m) && LeadsOut(p, m) {
      assert ComesOut(c, files[m]) && files[m] in files;
    }
  }

  lemma PlanMatches(c: Config)
    requires ValidConfig(c) && c.src in c.fs
    ensures Matching(PlanOf(c)) <==> FilesMatch(c)
  {
    var p, files := PlanOf(c), JobFiles(c);
    PlanWalked(c);
    forall i: nat | i < |files|
      ensures Source(p, i) == c.src + files[i] && Target(p, i) == c.dst + files[i] && files[i] in files
      ensures Own(p, i) == FileData(c, files[i])
      ensures LeadsOut(p, i) <==> ComesOut(c, files[i])
    {
      PlanPlaces(c, i);
      OutMeans(c, i);
    }
    assert forall i: nat, k: nat :: i < |files| && k < |files| && i != k ==> files[i] != files[k];
    hide Own, FileData, LeadsOut, ComesOut, Source, Target, JobFiles, Walked;
    if Matching(p) {
      forall r, t | r in files && t in files && r != t && c.dst + r == c.src + t && ComesOut(c, t)
        ensures FileData(c, r) == FileData(c, t)
      {
        var i: nat :| i < |files| && files[i] == r;
        var k: nat :| k < |files| && files[k] == t;
        assert Collides(p, i, k);
      }
    }
  }

  /** Every file can be renamed to its place. */
  ghost predicate RenamesAll(c: Config)
    requires Lists(c.ls, c.fs)
  {
    SameDrive(c) && forall r :: r in JobFiles(c) ==> c.io(r).rename.Renamed?
  }

  /** What the removal of the source leaves of what the pool has left. */
  lemma EndedAt(c: Config, j: Job, schedule: seq<nat>, q: Path)
    requires Started(c, j) && AllClear(c) && c.op == Move && IsDir(c.fs, c.src)
    ensures var s := PoolRun(c, j, schedule);
            && (Under(c.src, q) ==> q !in Ended(c, s))
            && (!Under(c.src, q) ==> Agree(Ended(c, s), s.fs, q))
  {
    ClearNothingFails(c, j, schedule);
    assert c.kept == {};
    hide AllClear, PoolRun;
    RemovedAt(PoolRun(c, j, schedule).fs, c.src, q);
  }

  lemma OutsideMeans(c: Config, j: Job)
    requires Started(c, j) && AllClear(c) && c.op == Move && IsDir(c.fs, c.src)
    ensures OutsideAlike(PlanOf(c), PoolJob(c, j), c.threads) <==> JobAlike(c, j)
  {
    var p, s0 := PlanOf(c), Start(PlanOf(c), PoolJob(c, j), c.threads);
    forall a ensures PoolRun(c, j, a) == Run(p, s0, a) {}
    assert p.src == c.src;
    hide PoolRun, PlanOf, PoolJob, Run, Start, AllStopped, AllClear, Ended;
    if OutsideAlike(p, PoolJob(c, j), c.threads) {
      forall a: seq<nat>, b: seq<nat> | AllStopped(PoolRun(c, j, a)) && AllStopped(PoolRun(c, j, b))
        ensures Ended(c, PoolRun(c, j, a)) == Ended(c, PoolRun(c, j, b))
      {
        SameEnds(c, j, a, b);
      }
    }
    if JobAlike(c, j) {
      forall a: seq<nat>, b: seq<nat>, q: Path |
        AllStopped(Run(p, s0, a)) && AllStopped(Run(p, s0, b)) && !Under(p.src, q)
        ensures Agree(Run(p, s0, a).fs, Run(p, s0, b).fs, q)
      {
        assert AllStopped(PoolRun(c, j, a)) && AllStopped(PoolRun(c, j, b));
        EndedAt(c, j, a, q);
        EndedAt(c, j, b, q);
      }
    }
  }

  lemma SameEnds(c: Config, j: Job, a: seq<nat>, b: seq<nat>)
    requires Started(c, j) && AllClear(c) && c.op == Move && IsDir(c.fs, c.src)
    requires forall q :: !Under(c.src, q) ==> Agree(PoolRun(c, j, a).fs, PoolRun(c, j, b).fs, q)
    ensures Ended(c, PoolRun(c, j, a)) == Ended(c, PoolRun(c, j, b))
  {
    hide PoolRun, AllClear, Ended;
    var x, y := Ended(c, PoolRun(c, j, a)), Ended(c, PoolRun(c, j, b));
    forall q ensures Agree(x, y, q) {
      EndedAt(c, j, a, q);
      EndedAt(c, j, b, q);
    }
    SameByAgreement(x, y);
  }

  /** When all files of a directory are renamed, for any number of threads one half of the
      following holds. */
  lemma MoveAlike(c: Config, j: Job)
    requires Started(c, j) && AllClear(c) && c.op == Move && IsDir(c.fs, c.src) && RenamesAll(c) && FilesMatch(c)
    ensures JobAlike(c, j)
  {
    ClearIsSmooth(c);
    PoolJobMeans(c, j);
    PlanRenamed(c);
    hide AllClear, Smooth, FilesMatch, PoolJob, PlanOf, JobAlike, RenamesAll, JobFiles, Prepared;
    PlanMatches(c);
    OutsideMeans(c, j);
    hide Matching, OutsideAlike, AllRenamed;
    MatchingAlike(PlanOf(c), PoolJob(c, j), c.threads);
  }

  /** When all files of a directory are renamed and none has to wait for a thread, the move
      ends alike on every schedule exactly if files that come to the places of others, from
      where a way leads out of the source, are the same as those. */
  lemma MoveAlikeExactly(c: Config, j: Job)
    requires Started(c, j) && AllClear(c) && c.op == Move && IsDir(c.fs, c.src)
    requires RenamesAll(c) && c.threads >= |JobFiles(c)|
    ensures JobAlike(c, j) <==> FilesMatch(c)
  {
    ClearIsSmooth(c);
    PoolJobMeans(c, j);
    PlanRenamed(c);
    hide AllClear, Smooth, FilesMatch, PoolJob, PlanOf, JobAlike, RenamesAll, JobFiles, ValidConfig, Prepared;
    PlanMatches(c);
    OutsideMeans(c, j);
    hide Matching, OutsideAlike, AllRenamed;
    OutsideAlikeExactly(PlanOf(c), PoolJob(c, j), c.threads);
  }

  lemma PlanRenamed(c: Config)
    requires ValidConfig(c) && c.op == Move && RenamesAll(c)
    ensures AllRenamed(PlanOf(c)) && |PlanOf(c).files| == |JobFiles(c)|
  {
    var p := PlanOf(c);
    assert forall i: nat :: i < |p.files| ==> p.files[i] in JobFiles(c);
  }

  // ----- one thread -----

  /** With one thread a job has one outcome, whatever the paths are and whatever fails. */
  lemma OneThreadEnds(c: Config, j: Job, schedule: seq<nat>)
    requires Started(c, j) && c.threads == 1 && AllStopped(PoolRun(c, j, schedule))
    ensures var s, t := PoolRun(c, j, schedule), InOrder(PlanOf(c), |JobFiles(c)|);
            Ended(c, s) == SlowFs(c) && s.fs == t.fs && s.failed == t.failed && s.job.doneBytes == t.doneBytes
  {
    PoolJobMeans(c, j);
    OneThread(PlanOf(c), PoolJob(c, j), schedule);
    hide PoolJob, Prepared, JobFiles, Run, InOrder;
  }

  // ----- the counters -----

  /** If no call fails and no file has to wait for a thread, the record is within its
      bounds at every moment exactly if no file goes to the place of a smaller one. */
  lemma RecordSaneExactly(c: Config, j: Job)
    requires Started(c, j) && AllClear(c) && c.threads >= |JobFiles(c)|
    ensures FilesFit(c) <==> forall m: Moment :: Happens(c, j, m) ==> Sane(JobAt(c, j, m))
  {
    if FilesFit(c) {
      hide FilesFit;
      forall m: Moment | Happens(c, j, m) ensures Sane(JobAt(c, j, m)) { RecordSane(c, j, m); }
    } else {
      var m := Exceeds(c, j);
    }
  }

  /** The pool leaves the total alone. */
  lemma PoolTotal(c: Config, j: Job, schedule: seq<nat>)
    requires Started(c, j)
    ensures PoolRun(c, j, schedule).job.totalBytes == JobBytes(c) == Total(PlanOf(c))
    ensures PoolJob(c, j).doneBytes == 0
  {
    PoolJobMeans(c, j);
    PreparedKeeps(c);
    JobBytesAreLengths(c);
    assert |PlanOf(c).files| == |JobFiles(c)|;
    hide PoolJob, JobFiles, JobDirs, JobBytes, Run, Prepared, Lengths, SumIn, FirstN;
    RunGeneral(PlanOf(c), PoolJob(c, j), c.threads, schedule);
  }

  lemma ExceedsThen(c: Config, j: Job, schedule: seq<nat>)
    requires ValidConfig(c) && PoolRun(c, j, schedule).job.doneBytes > PoolRun(c, j, schedule).job.totalBytes
    ensures var m := Transferring(schedule); Happens(c, j, m) && !Sane(JobAt(c, j, m))
  {
    hide PoolRun;
  }

  lemma Exceeds(c: Config, j: Job) returns (m: Moment)
    requires Started(c, j) && AllClear(c) && c.threads >= |JobFiles(c)| && !FilesFit(c)
    ensures Happens(c, j, m) && !Sane(JobAt(c, j, m))
  {
    var p, j0 := PlanOf(c), PoolJob(c, j);
    ClearIsSmooth(c);
    PoolJobMeans(c, j);
    FitsMeans(c);
    assert |p.files| == |JobFiles(c)|;
    hide AllClear, Smooth, FilesFit, PoolJob, JobFiles, JobBytes, PlanOf, Run, Total, SizesFit, Happens, JobAt,
         Prepared;
    var schedule := MoreThan(p, j0, c.threads);
    PoolTotal(c, j, schedule);
    ExceedsThen(c, j, schedule);
    m := Transferring(schedule);
  }

  lemma MoreThan(p: Plan, j0: Job, threads: nat) returns (schedule: seq<nat>)
    requires Smooth(p) && j0.error.None? && |j0.current| <= CURRENT_LIMIT && threads >= |p.files| && !SizesFit(p)
    ensures Run(p, Start(p, j0, threads), schedule).job.doneBytes > j0.doneBytes + Total(p)
  {
    assert |p.io| == |p.files|;
    hide Smooth, SizesFit, Run, Start, Total;
    WithinExactly(p, j0, threads);
    schedule :| Run(p, Start(p, j0, threads), schedule).job.doneBytes > j0.doneBytes + Total(p);
  }
}
