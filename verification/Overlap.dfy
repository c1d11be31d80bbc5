/** Moves whose two paths overlap, which the request handler lets through: exactly when
    all files survive a move in which no call fails. */
module Overlap {
  import opened FileSystem
  import opened Jobs
  import opened TransferPool
  import opened AnyPlan
  import opened TransferTheorems
  import opened Determinism
  import opened MoveJob
  import opened MoveTheorems
  import opened FastPath
  import opened Directories

  /** No call fails: none is refused, no file is in the way of a directory, and no
      directory is in the place of a file.  All of this is there to see before the job
      begins. */
  ghost predicate AllClear(c: Config)
    requires ValidConfig(c)
  {
    NoCallFails(c) && AllPassable(c) && forall r :: r in JobFiles(c) ==> Placeable(c, r)
  }

  lemma ClearIsSmooth(c: Config)
    requires ValidConfig(c) && c.src in c.fs && AllClear(c)
    ensures Smooth(PlanOf(c))
  {
    var p := PlanOf(c);
    PlanWalked(c);
    WalkLists(c);
    hide Prepared, AllPassable, Placeable, JobFiles, CanPlace;
    forall i | 0 <= i < |p.files| ensures Works(p.io[i]) && CanPlace(p.fs, Target(p, i)) {
      var r := p.files[i];
      assert r in JobFiles(c);
      TargetPathInjective(c.dst, r, r);
      FilePlaces(c, r);
    }
  }

  /** So nothing fails on any schedule, whether or not files collide. */
  lemma ClearNothingFails(c: Config, j: Job, schedule: seq<nat>)
    requires Started(c, j) && AllClear(c)
    ensures PoolRun(c, j, schedule).failed == 0
    ensures IsDir(PoolRun(c, j, schedule).fs, c.src) <==> IsDir(c.fs, c.src)
  {
    ClearIsSmooth(c);
    PoolJobMeans(c, j);
    PreparedKeeps(c);
    hide PoolJob, Smooth, Prepared, AllClear, Run;
    NothingFails(PlanOf(c), PoolJob(c, j), c.threads, schedule);
    RunGeneral(PlanOf(c), PoolJob(c, j), c.threads, schedule);
  }

  /** The content of every file of the source is at its old or its new place. */
  ghost predicate AllKept(c: Config, fs: FS) {
    forall r :: IsFile(c.fs, c.src + r) ==>
      HasContent(fs, c.src + r, c.fs[c.src + r].data) || HasContent(fs, c.dst + r, c.fs[c.src + r].data)
  }

  /** The job has come to its end, on the fast path or with its pool stopped. */
  ghost predicate Finishes(c: Config, j: Job, schedule: seq<nat>)
    requires ValidConfig(c)
  {
    TakesFastPath(c) || AllStopped(PoolRun(c, j, schedule))
  }

  /** What a move leaves behind. */
  ghost function Left(c: Config, j: Job, schedule: seq<nat>): FS
    requires ValidConfig(c) && c.src in c.fs
  {
    if TakesFastPath(c) then
      FreshIsDisjoint(c);
      RenameTree(c.fs, c.src, c.dst)
    else Ended(c, PoolRun(c, j, schedule))
  }

  /** If no file goes to a place inside the source, all are kept. */
  lemma OutsideKept(c: Config, j: Job, schedule: seq<nat>)
    requires Started(c, j) && c.op == Move && AllClear(c) && Finishes(c, j, schedule) && TargetsOutside(c)
    ensures AllKept(c, Left(c, j, schedule))
  {
    ClearNothingFails(c, j, schedule);
    assert c.kept == {};
    hide AllClear, TargetsOutside, PoolRun, ValidConfig, IsDir, IsFile;
    var m := if TakesFastPath(c) then TreeRenamed
             else if IsDir(c.fs, c.src) then RemovingSource(schedule, {})
             else Transferring(schedule);
    assert Happens(c, j, m) && Snapshot(c, j, m) == Left(c, j, schedule);
    hide Left;
    KeptAt(c, j, m);
  }

  /** A moment at which nothing is lost. */
  lemma KeptAt(c: Config, j: Job, m: Moment)
    requires Started(c, j) && c.op == Move && Happens(c, j, m) && TargetsOutside(c)
    ensures AllKept(c, Snapshot(c, j, m))
  {
    forall r | IsFile(c.fs, c.src + r)
      ensures var data, fs := c.fs[c.src + r].data, Snapshot(c, j, m);
              HasContent(fs, c.src + r, data) || HasContent(fs, c.dst + r, data)
    {
      hide Happens, Snapshot, TargetsOutside, Started;
      MoveLosesNothing(c, j, m, r);
    }
  }

  /** A file that goes to a place inside a source directory is gone in the end. */
  lemma InsideLost(c: Config, j: Job, schedule: seq<nat>, r: Path)
    requires Started(c, j) && c.op == Move && AllClear(c) && AllStopped(PoolRun(c, j, schedule))
    requires IsDir(c.fs, c.src) && Under(c.src, c.dst + r)
    ensures var fs := Ended(c, PoolRun(c, j, schedule)); c.src + r !in fs && c.dst + r !in fs
  {
    ClearNothingFails(c, j, schedule);
    assert c.kept == {} && Under(c.src, c.src + r);
    hide AllClear, PoolRun;
  }

  lemma FastIsOutside(c: Config)
    requires ValidConfig(c) && c.src in c.fs && TakesFastPath(c)
    ensures TargetsOutside(c)
  {
    FreshIsDisjoint(c);
    DisjointIsOutside(c);
  }

  // ----- a single file moved onto itself -----

  lemma SingleFile(c: Config)
    requires ValidConfig(c) && IsFile(c.fs, c.src)
    ensures JobFiles(c) == [[]] && PlanOf(c).io == [c.io([])]
    ensures forall r :: IsFile(c.fs, c.src + r) ==> r == []
  {
    WalkLists(c);
    assert c.src + [] == c.src;
    forall r | IsFile(c.fs, c.src + r) ensures r == [] {
      assert Under(c.src, c.src + r);
      if r != [] { AncestorsAreDirs(c.fs, c.src + r, c.src); }
    }
    var files := JobFiles(c);
    assert [] in files && Under([], []);
    forall i | 0 <= i < |files| ensures files[i] == [] { assert files[i] in files; }
    assert Under(files[|files| - 1], files[0]);
  }

  /** The file survives exactly if the system renames it onto itself; if the rename falls
      back to copying, the copy truncates it and the source is removed. */
  lemma SelfMove(c: Config, j: Job, schedule: seq<nat>)
    requires Started(c, j) && c.op == Move && AllClear(c) && IsFile(c.fs, c.src) && c.dst == c.src
    requires AllStopped(PoolRun(c, j, schedule))
    ensures AllKept(c, Ended(c, PoolRun(c, j, schedule))) <==> c.io([]).rename.Renamed?
  {
    var p, s := PlanOf(c), PoolRun(c, j, schedule);
    SingleFile(c);
    ClearIsSmooth(c);
    ClearNothingFails(c, j, schedule);
    PoolJobMeans(c, j);
    PreparedKeeps(c);
    PlanPlaces(c, 0);
    assert c.src + [] == c.src && InPlace(p);
    InPlaceSettles(p, PoolJob(c, j), c.threads, schedule, c.src);
    assert KeptInPlace(p, s.fs, 0);
    hide AllClear, Smooth, PoolJob, PoolRun, Run, Prepared, JobFiles, SettledAt;
    assert Ended(c, s) == s.fs;
  }

  // ----- the theorem -----

  lemma FileElsewhere(c: Config)
    requires ValidConfig(c) && IsFile(c.fs, c.src) && AllClear(c) && c.dst != c.src
    ensures TargetsOutside(c)
  {
    SingleFile(c);
    assert Placeable(c, []) && c.dst + [] == c.dst;
    if Under(c.src, c.dst) {
      UnderParent(c.src, c.dst);
      if Parent(c.dst) != c.src { AncestorsAreDirs(c.fs, Parent(c.dst), c.src); }
      assert false;
    }
  }

  lemma DirSurvivesExactly(c: Config, j: Job, schedule: seq<nat>)
    requires Started(c, j) && c.op == Move && AllClear(c) && Finishes(c, j, schedule) && IsDir(c.fs, c.src)
    ensures AllKept(c, Left(c, j, schedule)) <==> forall r :: IsFile(c.fs, c.src + r) ==> !Under(c.src, c.dst + r)
  {
    WalkLists(c);
    if TargetsOutside(c) {
      hide AllClear, Left, PoolRun, JobFiles, AllKept;
      OutsideKept(c, j, schedule);
    } else {
      hide AllClear, Left, PoolRun, JobFiles;
      var r :| r in JobFiles(c) && Under(c.src, c.dst + r);
      InsideNotKept(c, j, schedule, r);
    }
  }

  lemma InsideNotKept(c: Config, j: Job, schedule: seq<nat>, r: Path)
    requires Started(c, j) && c.op == Move && AllClear(c) && Finishes(c, j, schedule) && IsDir(c.fs, c.src)
    requires IsFile(c.fs, c.src + r) && Under(c.src, c.dst + r) && !TargetsOutside(c)
    ensures !AllKept(c, Left(c, j, schedule))
  {
    if TakesFastPath(c) { FastIsOutside(c); }
    SlowLeft(c, j, schedule);
    InsideLost(c, j, schedule, r);
    hide AllClear, Left, PoolRun, TargetsOutside, Ended;
  }

  lemma FileSurvivesExactly(c: Config, j: Job, schedule: seq<nat>)
    requires Started(c, j) && c.op == Move && AllClear(c) && Finishes(c, j, schedule) && IsFile(c.fs, c.src)
    ensures AllKept(c, Left(c, j, schedule)) <==> c.dst != c.src || c.io([]).rename.Renamed?
  {
    hide AllClear, Left, PoolRun, JobFiles;
    if c.dst != c.src {
      FileElsewhere(c);
      OutsideKept(c, j, schedule);
    } else {
      SlowLeft(c, j, schedule);
      SelfMove(c, j, schedule);
    }
  }

  /** Any two paths, no call failing, any schedule: every file of a moved directory
      survives exactly if none of them goes to a place inside the source; and a single
      file exactly unless it is moved onto itself and the rename falls back to copying. */
  lemma MoveSurvivesExactly(c: Config, j: Job, schedule: seq<nat>)
    requires Started(c, j) && c.op == Move && AllClear(c) && Finishes(c, j, schedule)
    ensures IsDir(c.fs, c.src) ==>
              (AllKept(c, Left(c, j, schedule)) <==>
                 forall r :: IsFile(c.fs, c.src + r) ==> !Under(c.src, c.dst + r))
    ensures IsFile(c.fs, c.src) ==>
              (AllKept(c, Left(c, j, schedule)) <==> c.dst != c.src || c.io([]).rename.Renamed?)
  {
    if IsDir(c.fs, c.src) {
      DirSurvivesExactly(c, j, schedule);
    }
    if IsFile(c.fs, c.src) {
      FileSurvivesExactly(c, j, schedule);
    }
  }

  lemma SlowLeft(c: Config, j: Job, schedule: seq<nat>)
    requires ValidConfig(c) && c.src in c.fs && !TakesFastPath(c)
    ensures Left(c, j, schedule) == Ended(c, PoolRun(c, j, schedule))
  {
  }
}
