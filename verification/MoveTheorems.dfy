/** What a whole move or copy job guarantees, at every moment and at its end. */
module MoveTheorems {
  import opened FileSystem
  import opened TreeWalk
  import opened Jobs
  import opened Sums
  import opened TransferPool
  import opened TransferProofs
  import opened AnyPlan
  import opened TransferTheorems
  import opened MoveJob

  // ----- every moment of a job -----

  /** A moment in the life of a job at which it may be looked at, or killed. */
  datatype Moment =
    | Walking
    | TreeRenamed
    | MakingDirs(n: nat)
    | Transferring(schedule: seq<nat>)
    | RemovingSource(schedule: seq<nat>, left: set<Path>)

  /** The moments a job can reach: the source is only removed once every thread has
      stopped and none has counted a failure. */
  ghost predicate Happens(c: Config, j: Job, m: Moment)
    requires ValidConfig(c)
  {
    match m
    case Walking => true
    case TreeRenamed => TakesFastPath(c)
    case MakingDirs(n) => n <= |JobDirs(c)|
    case Transferring(_) => true
    case RemovingSource(schedule, _) =>
      var s := PoolRun(c, j, schedule);
      c.op == Move && AllStopped(s) && s.failed == 0 && IsDir(s.fs, c.src)
  }

  /** The filesystem at a moment; `left` is what the removal has not reached yet. */
  ghost function Snapshot(c: Config, j: Job, m: Moment): FS
    requires ValidConfig(c) && c.src in c.fs && Happens(c, j, m)
  {
    match m
    case Walking => c.fs
    case TreeRenamed =>
      FreshIsDisjoint(c);
      RenameTree(c.fs, c.src, c.dst)
    case MakingDirs(n) => MakeDirs(c.fs, c.mkdirBad, c.dst, JobDirs(c)[..n]).0
    case Transferring(schedule) => PoolRun(c, j, schedule).fs
    case RemovingSource(schedule, left) => RemoveTree(PoolRun(c, j, schedule).fs, c.src, left)
  }

  ghost predicate Started(c: Config, j: Job) {
    ValidConfig(c) && c.src in c.fs && j == NewJob(c.op, j.src, j.dst)
  }

  lemma RenamedTree(c: Config, q: Path)
    requires ValidConfig(c) && Disjoint(c.src, c.dst) && forall x :: x in c.fs ==> !Under(c.dst, x)
    ensures var out := RenameTree(c.fs, c.src, c.dst);
            if Under(c.src, q) then q !in out
            else if Under(c.dst, q) then
              (q in out <==> c.src + q[|c.dst|..] in c.fs) && (q in out ==> out[q] == c.fs[c.src + q[|c.dst|..]])
            else Agree(out, c.fs, q)
  {
    var moved := set x | x in c.fs && Under(c.src, x) :: c.dst + x[|c.src|..];
    forall x | x in moved ensures Under(c.dst, x) {
      var y :| y in c.fs && Under(c.src, y) && x == c.dst + y[|c.src|..];
    }
    if Under(c.src, q) {
      if Under(c.dst, q) { UnderChain(c.src, c.dst, q); }
    } else if Under(c.dst, q) {
      var x := c.src + q[|c.dst|..];
      assert Under(c.src, x) && x[|c.src|..] == q[|c.dst|..];
      assert q == c.dst + x[|c.src|..];
      if x in c.fs { assert q in moved; }
    }
  }

  lemma FileListed(c: Config, rel: Path) returns (i: nat)
    requires ValidConfig(c) && c.src in c.fs && IsFile(c.fs, c.src + rel)
    ensures i < |JobFiles(c)| && JobFiles(c)[i] == rel
    ensures Walked(PlanOf(c)) && Source(PlanOf(c), i) == c.src + rel && Target(PlanOf(c), i) == c.dst + rel
    ensures PlanOf(c).fs[c.src + rel] == c.fs[c.src + rel]
  {
    PlanWalked(c);
    WalkLists(c);
    assert rel in JobFiles(c);
    i :| 0 <= i < |JobFiles(c)| && JobFiles(c)[i] == rel;
    TargetPathInjective(c.dst, rel, rel);
    assert Agree(Prepared(c).0, c.fs, c.src + rel);
  }

  lemma PoolInv(c: Config, j: Job, schedule: seq<nat>)
    requires Started(c, j) && FilesApart(c)
    ensures Inv(PlanOf(c), PoolJob(c, j), PoolRun(c, j, schedule))
    ensures |PoolRun(c, j, schedule).workers| == c.threads > 0
  {
    PlanValid(c);
    PoolJobMeans(c, j);
    hide PoolJob, PlanOf;
    RunInv(PlanOf(c), PoolJob(c, j), c.threads, schedule);
    RunWorkers(PlanOf(c), Start(PlanOf(c), PoolJob(c, j), c.threads), schedule);
  }

  /** A move none of whose files goes to a place inside the source can be interrupted
      at any moment, in the middle of a copy, after any failure or during the removal
      of the source: every file of the source is still whole at its old or its new
      place. */
  lemma MoveLosesNothing(c: Config, j: Job, m: Moment, rel: Path)
    requires Started(c, j) && c.op == Move && TargetsOutside(c) && Happens(c, j, m)
    requires IsFile(c.fs, c.src + rel)
    ensures var now, data := Snapshot(c, j, m), c.fs[c.src + rel].data;
            HasContent(now, c.src + rel, data) || HasContent(now, c.dst + rel, data)
  {
    var i := FileListed(c, rel);
    OutsideIsApart(c);
    assert Under(c.src, c.src + rel) && Under(c.dst, c.dst + rel);
    assert rel in JobFiles(c) && !Under(c.src, c.dst + rel);
    match m {
      case Walking =>
      case TreeRenamed =>
        FreshIsDisjoint(c);
        RenamedTree(c, c.dst + rel);
        assert (c.dst + rel)[|c.dst|..] == rel;
      case MakingDirs(n) =>
        MakeDirsAdds(c.fs, c.mkdirBad, c.dst, JobDirs(c)[..n]);
      case Transferring(schedule) =>
        PoolInv(c, j, schedule);
        hide PoolRun, PoolJob, PlanOf, JobFiles, JobDirs;
        NothingLost(PlanOf(c), PoolJob(c, j), PoolRun(c, j, schedule), i);
      case RemovingSource(schedule, left) =>
        PoolInv(c, j, schedule);
        hide PoolRun, PoolJob, PlanOf, JobFiles, JobDirs;
        AllMoved(PlanOf(c), PoolJob(c, j), PoolRun(c, j, schedule), i);
    }
  }

  lemma OutcomeArrived(p: Plan, i: nat)
    requires ValidPlan(p) && i < |p.files| && Succeeds(p, i)
    ensures HasContent(Outcome(p, i), Target(p, i), p.fs[Source(p, i)].data)
    ensures p.op == Move ==> Source(p, i) !in Outcome(p, i)
  {
    SlotsApart(p, i, i);
  }

  /** When no failure was counted every file has reached its target. */
  lemma AllMoved(p: Plan, j: Job, s: State, i: nat)
    requires Inv(p, j, s) && AllStopped(s) && |s.workers| > 0 && s.failed == 0 && i < |p.files|
    ensures Succeeds(p, i)
    ensures HasContent(s.fs, Target(p, i), p.fs[Source(p, i)].data)
    ensures p.op == Move ==> Source(p, i) !in s.fs
  {
    hide Outcome;
    StoppedIsFinished(p, j, s);
    SumInZero(Failures(p), FirstN(|p.files|));
    assert i in FirstN(|p.files|) && Failures(p)[i] == 0;
    assert i in Finished(p, s) && Slots(p, s.fs, Outcome(p, i), i);
    OutcomeArrived(p, i);
  }

  /** What a job may do at `q` at all: make a directory that leads to the destination or
      lies in it, put a file of the source in its place, and in a move take the source
      away. */
  ghost predicate MayChange(c: Config, now: FS, q: Path)
    requires Lists(c.ls, c.fs)
  {
    || (q !in c.fs && q in now && now[q] == Dir && (Under(q, c.dst) || Under(c.dst, q)))
    || (exists r :: r in JobFiles(c) && q == c.dst + r)
    || (c.op == Move && Under(c.src, q))
  }

  /** Whatever the paths are, whatever a job does and wherever it is interrupted: it has
      changed nothing it may not change. */
  lemma JobStaysInside(c: Config, j: Job, m: Moment, q: Path)
    requires Started(c, j) && Happens(c, j, m)
    ensures Agree(Snapshot(c, j, m), c.fs, q) || MayChange(c, Snapshot(c, j, m), q)
  {
    match m {
      case Walking =>
      case TreeRenamed =>
        RenamedInside(c, q);
      case MakingDirs(n) =>
        MakeDirsAdds(c.fs, c.mkdirBad, c.dst, JobDirs(c)[..n]);
      case Transferring(schedule) =>
        RunInside(c, j, schedule, q);
      case RemovingSource(schedule, left) =>
        RunInside(c, j, schedule, q);
        hide PoolRun, JobFiles;
    }
  }

  lemma RenamedInside(c: Config, q: Path)
    requires ValidConfig(c) && c.src in c.fs && TakesFastPath(c)
    ensures Disjoint(c.src, c.dst) && forall x :: x in c.fs ==> !Under(c.dst, x)
    ensures var now := RenameTree(c.fs, c.src, c.dst); Agree(now, c.fs, q) || MayChange(c, now, q)
  {
    FreshIsDisjoint(c);
    RenamedTree(c, q);
    WalkLists(c);
    if Under(c.dst, q) && !Under(c.src, q) {
      var r := q[|c.dst|..];
      assert q == c.dst + r;
      assert c.src + r in c.fs ==> r in JobFiles(c) || IsDir(c.fs, c.src + r);
    }
  }

  lemma RunInside(c: Config, j: Job, schedule: seq<nat>, q: Path)
    requires Started(c, j)
    ensures var now := PoolRun(c, j, schedule).fs;
            Agree(now, c.fs, q) || MayChange(c, now, q)
  {
    var p := PlanOf(c);
    PreparedKeeps(c);
    PoolJobMeans(c, j);
    RunGeneral(p, PoolJob(c, j), c.threads, schedule);
    var s := PoolRun(c, j, schedule);
    if Untouched(p, q) {
      assert Agree(s.fs, p.fs, q);
    } else {
      SlotPaths(c, q);
    }
  }

  lemma SlotPaths(c: Config, q: Path)
    requires ValidConfig(c) && c.src in c.fs && !Untouched(PlanOf(c), q)
    ensures (exists r :: r in JobFiles(c) && q == c.dst + r) || (c.op == Move && Under(c.src, q))
  {
    var p := PlanOf(c);
    if i :| 0 <= i < |p.files| && q == Target(p, i) {
      TargetPathInjective(c.dst, p.files[i], p.files[i]);
      assert p.files[i] in JobFiles(c);
    } else {
      var i :| 0 <= i < |p.files| && q == Source(p, i);
      assert Under(c.src, Source(p, i));
    }
  }

  /** In particular outside both trees everything stays but for new directories on the
      way to the destination, and a copy to elsewhere keeps its whole source tree. */
  lemma OutsideStays(c: Config, j: Job, m: Moment, q: Path)
    requires Started(c, j) && Happens(c, j, m)
    ensures var now := Snapshot(c, j, m);
            && (!Under(c.src, q) && !Under(c.dst, q) ==>
                  Agree(now, c.fs, q) || (q !in c.fs && q in now && now[q] == Dir && Under(q, c.dst)))
            && (c.op == Copy && Disjoint(c.src, c.dst) && Under(c.src, q) ==> Agree(now, c.fs, q))
  {
    JobStaysInside(c, j, m, q);
    hide Snapshot, Happens, JobFiles;
    assert forall r :: Under(c.dst, c.dst + r);
    if Under(c.src, q) && Under(c.dst, q) { UnderChain(c.src, c.dst, q); }
    if Under(c.src, q) && Under(q, c.dst) { UnderTransitive(c.src, q, c.dst); }
  }

  /** A job whose destination is not there changes nothing that exists outside its
      source, at no moment and whatever fails: nothing is overwritten. */
  lemma FreshOverwritesNothing(c: Config, j: Job, m: Moment, q: Path)
    requires Started(c, j) && Happens(c, j, m) && c.dst !in c.fs
    requires q in c.fs && (c.op == Copy || !Under(c.src, q))
    ensures Agree(Snapshot(c, j, m), c.fs, q)
  {
    DestinationEmpty(c);
    JobStaysInside(c, j, m, q);
    hide Snapshot, Happens, JobFiles;
    assert forall r :: Under(c.dst, c.dst + r);
  }

  // ----- the record at every moment -----

  /** The job record whenever its lock is free. */
  ghost function JobAt(c: Config, j: Job, m: Moment): Job
    requires ValidConfig(c) && Happens(c, j, m)
  {
    match m
    case Walking => j.(status := Running)
    case TreeRenamed =>
      Begun(c, j).(doneFiles := |JobFiles(c)|, doneDirs := |JobDirs(c)|, doneBytes := JobBytes(c), status := Done)
    case MakingDirs(n) => DirsJob(c.fs, c.mkdirBad, c.dst, JobDirs(c)[..n], Begun(c, j))
    case Transferring(schedule) => PoolRun(c, j, schedule).job
    case RemovingSource(schedule, _) => PoolRun(c, j, schedule).job
  }

  /** At every lock release of the whole job the counts of files and directories and the
      list of current paths are within their bounds, and if no file goes to the place of a
      smaller one the bytes are too. */
  lemma RecordSane(c: Config, j: Job, m: Moment)
    requires Started(c, j) && Happens(c, j, m)
    ensures var job := JobAt(c, j, m);
            && job.doneFiles <= job.totalFiles && job.doneDirs <= job.totalDirs
            && |job.current| <= CURRENT_LIMIT
            && (FilesFit(c) ==> Sane(job))
  {
    match m {
      case Walking =>
      case TreeRenamed =>
      case MakingDirs(n) =>
        DirsJobCounts(c.fs, c.mkdirBad, c.dst, JobDirs(c)[..n], Begun(c, j));
        MakeDirsAdds(c.fs, c.mkdirBad, c.dst, JobDirs(c)[..n]);
        hide DirsJob, MakeDirs, JobFiles, JobDirs, JobBytes;
      case Transferring(schedule) => PoolRecordSane(c, j, schedule);
      case RemovingSource(schedule, _) => PoolRecordSane(c, j, schedule);
    }
  }

  lemma PoolRecordSane(c: Config, j: Job, schedule: seq<nat>)
    requires Started(c, j)
    ensures var job := PoolRun(c, j, schedule).job;
            && job.doneFiles <= job.totalFiles && job.doneDirs <= job.totalDirs
            && |job.current| <= CURRENT_LIMIT
            && (FilesFit(c) ==> Sane(job))
  {
    var p, j0 := PlanOf(c), PoolJob(c, j);
    PoolJobMeans(c, j);
    PreparedKeeps(c);
    RunGeneral(p, j0, c.threads, schedule);
    hide PoolJob, JobDirs, JobBytes, Run, Prepared, FilesFit;
    TalliedWithin(p, j0, PoolRun(c, j, schedule));
    if FilesFit(c) { PoolSane(c, j, schedule); }
  }
}
