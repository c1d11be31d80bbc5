/** `run_delete_job`: unlink the files of a tree in parallel, then remove its
    directories deepest first. */
module DeleteJob {
  import opened FileSystem
  import opened TreeWalk
  import opened Jobs
  import opened Sums
  import DeletePool

  /** A delete job and what it cannot do: read (`walkBad`), or remove (`bad`). */
  datatype Config = Config(fs: FS, ls: Listing, src: Path, walkBad: set<Path>, bad: set<Path>, threads: nat)

  ghost predicate ValidConfig(c: Config) {
    WellFormed(c.fs) && Lists(c.ls, c.fs) && c.threads > 0
  }

  /** Something at or below `q` cannot be removed. */
  ghost predicate Pinned(c: Config, q: Path) {
    exists b :: b in c.fs && b in c.bad && Under(q, b)
  }

  /** No entry has `d` as its parent: `remove_dir` insists on that. */
  predicate NoEntries(fs: FS, d: Path) {
    (set q | q in fs && q != [] && Parent(q) == d) == {}
  }

  /** `q` is among the first `k` directories, whose turn has not come. */
  predicate Waiting(dirs: seq<Path>, k: nat, q: Path)
    requires k <= |dirs|
  {
    q in dirs[..k]
  }

  /** The filesystem while directories are being removed: those before index `k` are
      still there, the others only if something in them cannot be removed. */
  ghost predicate Swept(c: Config, dirs: seq<Path>, k: nat, fs: FS)
    requires k <= |dirs|
  {
    && (forall q :: q in fs <==>
          q in c.fs && (!Under(c.src, q) || Pinned(c, q) || Waiting(dirs, k, q)))
    && (forall q :: q in fs ==> fs[q] == c.fs[q])
  }

  lemma PinnedDir(c: Config, d: Path)
    requires ValidConfig(c) && IsDir(c.fs, d)
    ensures Pinned(c, d) <==>
            d in c.bad || exists q :: q in c.fs && q != [] && Parent(q) == d && Pinned(c, q)
  {
    assert Under(d, d);
    if Pinned(c, d) && d !in c.bad {
      var b :| b in c.fs && b in c.bad && Under(d, b);
      StepTowards(c.fs, d, b);
      ThroughChild(d, b[|d|], b);
      var q := d + [b[|d|]];
      assert Parent(q) == d && Pinned(c, q);
    }
    if q :| q in c.fs && q != [] && Parent(q) == d && Pinned(c, q) {
      var b :| b in c.fs && b in c.bad && Under(q, b);
      assert Under(d, q);
      UnderTransitive(d, q, b);
    }
  }

  /** Among the first `k` directories only the last can lie below the last. */
  lemma LastIsDeepest(dirs: seq<Path>, k: nat, q: Path)
    requires ParentsFirst(dirs) && 0 < k <= |dirs|
    ensures Waiting(dirs, k, q) <==> Waiting(dirs, k - 1, q) || q == dirs[k - 1]
    ensures Waiting(dirs, k - 1, q) ==> !Under(dirs[k - 1], q)
  {
    assert dirs[..k] == dirs[..k - 1] + [dirs[k - 1]];
    if q in dirs[..k - 1] {
      var i :| 0 <= i < k - 1 && dirs[..k - 1][i] == q;
      assert dirs[i] == q;
    }
  }

  /** An entry of the directory whose turn has come is still there exactly when
      something pins it. */
  lemma EntryLeft(c: Config, dirs: seq<Path>, k: nat, fs: FS, q: Path)
    requires ParentsFirst(dirs) && 0 < k <= |dirs| && Swept(c, dirs, k, fs)
    requires Under(c.src, dirs[k - 1]) && q in c.fs && q != [] && Parent(q) == dirs[k - 1]
    ensures q in fs <==> Pinned(c, q)
  {
    hide Pinned, Waiting;
    assert Under(dirs[k - 1], q) && q != dirs[k - 1];
    UnderTransitive(c.src, dirs[k - 1], q);
    LastIsDeepest(dirs, k, q);
  }

  /** A directory whose turn has come can be removed unless something pins it. */
  lemma RemovableNow(c: Config, dirs: seq<Path>, k: nat, fs: FS)
    requires ValidConfig(c) && dirs == WalkedDirs(c.fs, c.ls, c.src)
    requires 0 < k <= |dirs| && Swept(c, dirs, k, fs)
    ensures IsDir(fs, dirs[k - 1])
    ensures (dirs[k - 1] !in c.bad && NoEntries(fs, dirs[k - 1])) <==> !Pinned(c, dirs[k - 1])
  {
    var d := dirs[k - 1];
    DirWalked(c, dirs, k - 1);
    LastIsDeepest(dirs, k, d);
    PinnedDir(c, d);
    forall q | q in c.fs && q != [] && Parent(q) == d ensures q in fs <==> Pinned(c, q) {
      EntryLeft(c, dirs, k, fs, q);
    }
    hide Pinned, ValidConfig;
    var entries := set q | q in fs && q != [] && Parent(q) == d;
    assert NoEntries(fs, d) <==> entries == {};
    if NoEntries(fs, d) {
      forall q | q in c.fs && q != [] && Parent(q) == d ensures !Pinned(c, q) {
        assert q !in entries;
      }
    }
  }

  lemma DirsWalked(c: Config, dirs: seq<Path>)
    requires ValidConfig(c) && c.src in c.fs && dirs == WalkedDirs(c.fs, c.ls, c.src)
    ensures ParentsFirst(dirs)
    ensures forall q :: q in dirs <==> IsDir(c.fs, q) && Under(c.src, q)
  {
    PreorderVisits(c.fs, c.ls, c.src);
    SelectMembers(c.fs, Preorder(c.fs, c.ls, c.src));
    SelectParentsFirst(c.fs, Preorder(c.fs, c.ls, c.src));
  }

  lemma DirWalked(c: Config, dirs: seq<Path>, i: nat)
    requires ValidConfig(c) && dirs == WalkedDirs(c.fs, c.ls, c.src) && i < |dirs|
    ensures ParentsFirst(dirs) && IsDir(c.fs, dirs[i]) && Under(c.src, dirs[i])
  {
    DirsWalked(c, dirs);
    assert dirs[i] in dirs;
  }

  lemma FilesWalked(c: Config, files: seq<Path>)
    requires ValidConfig(c) && c.src in c.fs && files == WalkedFiles(c.fs, c.ls, c.src)
    ensures forall i, j :: 0 <= i < j < |files| ==> files[i] != files[j]
    ensures forall q :: q in files <==> IsFile(c.fs, q) && Under(c.src, q)
  {
    PreorderVisits(c.fs, c.ls, c.src);
    SelectMembers(c.fs, Preorder(c.fs, c.ls, c.src));
    SelectParentsFirst(c.fs, Preorder(c.fs, c.ls, c.src));
    forall i, j | 0 <= i < j < |files| ensures files[i] != files[j] {
      assert Under(files[i], files[i]) && !Under(files[j], files[i]);
    }
  }

  /** A file is pinned only by itself. */
  lemma PinnedFile(c: Config, q: Path)
    requires ValidConfig(c) && IsFile(c.fs, q)
    ensures Pinned(c, q) <==> q in c.bad
  {
    assert Under(q, q);
    if Pinned(c, q) {
      var b :| b in c.fs && b in c.bad && Under(q, b);
      if b != q { AncestorsAreDirs(c.fs, b, q); }
    }
  }

  /** How many of these directories nothing pins. */
  ghost function Unpinned(c: Config, dirs: seq<Path>): nat {
    if dirs == [] then 0
    else (if Pinned(c, dirs[0]) then 0 else 1) + Unpinned(c, dirs[1..])
  }

  lemma {:induction false} UnpinnedAll(c: Config, dirs: seq<Path>)
    ensures Unpinned(c, dirs) <= |dirs|
    ensures Unpinned(c, dirs) == |dirs| <==> forall q :: q in dirs ==> !Pinned(c, q)
  {
    if dirs != [] {
      UnpinnedAll(c, dirs[1..]);
      assert dirs == [dirs[0]] + dirs[1..];
    }
  }

  lemma {:induction false} UnpinnedSnoc(c: Config, s: seq<Path>, q: Path)
    ensures Unpinned(c, s + [q]) == Unpinned(c, s) + if Pinned(c, q) then 0 else 1
  {
    if s == [] {
      assert (s + [q])[1..] == [];
    } else {
      assert (s + [q])[1..] == s[1..] + [q];
      UnpinnedSnoc(c, s[1..], q);
    }
  }

  /** The files the pool counts as removable are the unpinned ones. */
  lemma {:induction false} FilesDone(c: Config, p: DeletePool.Plan, n: nat)
    requires ValidConfig(c) && p.bad == c.bad && n <= |p.files|
    requires forall q :: q in p.files ==> IsFile(c.fs, q)
    ensures SumIn(DeletePool.Removable(p)[..n], FirstN(n)) == Unpinned(c, p.files[..n])
  {
    if n > 0 {
      var w := DeletePool.Removable(p);
      FilesDone(c, p, n - 1);
      assert w[..n][..n - 1] == w[..n - 1];
      SumInSame(w[..n - 1], FirstN(n), FirstN(n - 1));
      assert p.files[..n] == p.files[..n - 1] + [p.files[n - 1]];
      UnpinnedSnoc(c, p.files[..n - 1], p.files[n - 1]);
      PinnedFile(c, p.files[n - 1]);
    }
  }

  /** Nothing is pinned in the tree exactly when its root is not. */
  lemma PinnedUpwards(c: Config, files: seq<Path>, dirs: seq<Path>)
    requires ValidConfig(c) && IsDir(c.fs, c.src)
    requires files == WalkedFiles(c.fs, c.ls, c.src) && dirs == WalkedDirs(c.fs, c.ls, c.src)
    ensures !Pinned(c, c.src) <==>
            (forall q :: q in files ==> q !in c.bad) && (forall q :: q in dirs ==> !Pinned(c, q))
    ensures forall q :: q in files ==> (Pinned(c, q) <==> q in c.bad)
  {
    FilesWalked(c, files);
    DirsWalked(c, dirs);
    assert Under(c.src, c.src) && c.src in dirs;
    forall q | Under(c.src, q) && Pinned(c, q) ensures Pinned(c, c.src) {
      var b :| b in c.fs && b in c.bad && Under(q, b);
      UnderTransitive(c.src, q, b);
    }
    forall q | q in files ensures Pinned(c, q) <==> q in c.bad { PinnedFile(c, q); }
  }

  /** The job record when the directories from index `k` on have been dealt with: each is
      announced, and counted unless something in it is pinned. */
  ghost function SweepJob(c: Config, dirs: seq<Path>, k: nat, j: Job): Job
    requires k <= |dirs|
    decreases |dirs| - k
  {
    if k == |dirs| then j
    else
      var before := Announce(SweepJob(c, dirs, k + 1, j), dirs[k]);
      if Pinned(c, dirs[k]) then before else before.(doneDirs := before.doneDirs + 1)
  }

  lemma {:induction false} SweepJobCounts(c: Config, dirs: seq<Path>, k: nat, j: Job)
    requires k <= |dirs| && |j.current| <= CURRENT_LIMIT && j.doneDirs == 0
    ensures var job := SweepJob(c, dirs, k, j);
            job == j.(doneDirs := Unpinned(c, dirs[k..]), current := job.current) && |job.current| <= CURRENT_LIMIT
    decreases |dirs| - k
  {
    hide Pinned;
    if k < |dirs| {
      SweepJobCounts(c, dirs, k + 1, j);
      assert dirs[k..][1..] == dirs[k + 1..];
    }
  }

  /** The loop over the directories in reverse: each is announced and removed if the
      operating system allows it. */
  method SweepDirs(c: Config, dirs: seq<Path>, fs0: FS, j: Job, failedFiles: nat)
    returns (fs: FS, job: Job, failed: nat)
    requires ValidConfig(c) && dirs == WalkedDirs(c.fs, c.ls, c.src)
    requires Swept(c, dirs, |dirs|, fs0) && |j.current| <= CURRENT_LIMIT && j.doneDirs == 0
    ensures Swept(c, dirs, 0, fs)
    ensures job == SweepJob(c, dirs, 0, j)
    ensures job == j.(doneDirs := Unpinned(c, dirs), current := job.current)
    ensures |job.current| <= CURRENT_LIMIT
    ensures failed == failedFiles + |dirs| - Unpinned(c, dirs)
  {
    fs, job, failed := fs0, j, failedFiles;
    hide Swept, Pinned, ValidConfig, WalkedDirs, ParentsFirst;
    var k: nat := |dirs|;
    while k > 0
      invariant k <= |dirs| && Swept(c, dirs, k, fs)
      invariant job == SweepJob(c, dirs, k, j)
      invariant failed == failedFiles + (|dirs| - k) - Unpinned(c, dirs[k..])
    {
      RemovableNow(c, dirs, k, fs);
      DirWalked(c, dirs, k - 1);
      SweptOne(c, dirs, k, fs);
      assert dirs[k - 1..][1..] == dirs[k..];
      var d := dirs[k - 1];
      job := Announce(job, d);
      if d !in c.bad && NoEntries(fs, d) {
        fs := fs - {d};
        job := job.(doneDirs := job.doneDirs + 1);
      } else {
        failed := failed + 1;
      }
      k := k - 1;
    }
    SweepJobCounts(c, dirs, 0, j);
    assert dirs[0..] == dirs;
  }

  lemma SweptOneAt(c: Config, dirs: seq<Path>, k: nat, fs: FS, fs1: FS, q: Path)
    requires 0 < k <= |dirs| && Swept(c, dirs, k, fs)
    requires ParentsFirst(dirs) && IsDir(c.fs, dirs[k - 1]) && Under(c.src, dirs[k - 1])
    requires fs1 == if Pinned(c, dirs[k - 1]) then fs else fs - {dirs[k - 1]}
    ensures q in fs1 <==> q in c.fs && (!Under(c.src, q) || Pinned(c, q) || Waiting(dirs, k - 1, q))
    ensures q in fs1 ==> fs1[q] == c.fs[q]
  {
    hide Pinned, Waiting, ParentsFirst;
    LastIsDeepest(dirs, k, q);
    assert Under(dirs[k - 1], dirs[k - 1]);
  }

  lemma SweptOne(c: Config, dirs: seq<Path>, k: nat, fs: FS)
    requires 0 < k <= |dirs| && Swept(c, dirs, k, fs)
    requires ParentsFirst(dirs) && IsDir(c.fs, dirs[k - 1]) && Under(c.src, dirs[k - 1])
    ensures Swept(c, dirs, k - 1, if Pinned(c, dirs[k - 1]) then fs else fs - {dirs[k - 1]})
  {
    var fs1 := if Pinned(c, dirs[k - 1]) then fs else fs - {dirs[k - 1]};
    hide Pinned, Waiting, ParentsFirst, Under;
    forall q
      ensures q in fs1 <==> q in c.fs && (!Under(c.src, q) || Pinned(c, q) || Waiting(dirs, k - 1, q))
      ensures q in fs1 ==> fs1[q] == c.fs[q]
    {
      SweptOneAt(c, dirs, k, fs, fs1, q);
    }
  }

  /** The record after the walk. */
  function Begun(c: Config, j: Job): Job
    requires Lists(c.ls, c.fs)
  {
    var files, dirs := WalkedFiles(c.fs, c.ls, c.src), WalkedDirs(c.fs, c.ls, c.src);
    j.(status := Running, totalFiles := |files|, totalDirs := |dirs|, totalBytes := BytesIn(c.fs, files))
  }

  /** The pool after the threads acted in the order of the schedule. */
  function PoolRun(c: Config, j: Job, schedule: seq<nat>): DeletePool.State
    requires Lists(c.ls, c.fs)
  {
    var p := DeletePool.Plan(WalkedFiles(c.fs, c.ls, c.src), c.bad, c.fs);
    DeletePool.Run(p, DeletePool.Start(p, Begun(c, j), c.threads), schedule)
  }

  /** `run_delete_job`.  Of the tree exactly the entries that cannot be removed are
      left, with the directories above them; the rest of the filesystem is as it was;
      the counters say how many files and directories went, and the job succeeds
      exactly when nothing in the tree is pinned. */
  method RunDeleteJob(c: Config, j: Job) returns (fs: FS, job: Job, ghost schedule: seq<nat>)
    requires ValidConfig(c) && j == NewJob(Delete, j.src, [])
    ensures !IsFile(c.fs, c.src) && !Readable(c.fs, c.walkBad, c.src) ==>
            fs == c.fs && job == j.(status := Failed, error := Some(c.src))
    ensures IsFile(c.fs, c.src) ==>
            job == if c.src in c.bad then j.(status := Failed, error := Some(c.src))
                   else j.(totalFiles := 1, doneFiles := 1, status := Done)
    ensures IsFile(c.fs, c.src) || Readable(c.fs, c.walkBad, c.src) ==>
            && (forall q :: q in fs <==> q in c.fs && (!Under(c.src, q) || Pinned(c, q)))
            && (forall q :: q in fs ==> fs[q] == c.fs[q])
            && (job.status == Done || job.status == Failed)
            && (job.status == Done <==> !Pinned(c, c.src))
    ensures IsDir(c.fs, c.src) && Readable(c.fs, c.walkBad, c.src) ==>
            var files, dirs := WalkedFiles(c.fs, c.ls, c.src), WalkedDirs(c.fs, c.ls, c.src);
            && job.totalFiles == |files| && job.totalDirs == |dirs|
            && job.totalBytes == BytesIn(c.fs, files)
            && job.doneFiles == Unpinned(c, files) && job.doneDirs == Unpinned(c, dirs)
            && (job.error.Some? <==> exists q :: q in files && Pinned(c, q))
            && DeletePool.AllStopped(PoolRun(c, j, schedule))
            && job == SweepJob(c, dirs, 0, PoolRun(c, j, schedule).job).(status := job.status)
    ensures Sane(job)
  {
    job := j.(status := Running);
    fs, schedule := c.fs, [];
    if IsFile(c.fs, c.src) {
      PinnedFile(c, c.src);
      OnlyItself(c);
      if c.src !in c.bad {
        fs := fs - {c.src};
        job := job.(doneFiles := job.doneFiles + 1, totalFiles := 1, status := Done);
      } else {
        job := job.(status := Failed, error := Some(c.src));
      }
      return;
    }
    var walk := new DeleteWalk();
    assert walk.Now() == Haul([], [], 0);
    var ok := walk.Collect(c.fs, c.ls, c.walkBad, c.src);
    if !ok {
      job := job.(status := Failed, error := Some(c.src));
      return;
    }
    CollectedAll(c.fs, c.ls, c.src, walk.files, walk.dirs, walk.bytes);
    fs, job, schedule := DeleteTree(c, job, walk.files, walk.dirs, walk.bytes, j);
  }

  lemma OnlyItself(c: Config)
    requires ValidConfig(c) && IsFile(c.fs, c.src)
    ensures forall q :: q in c.fs && Under(c.src, q) ==> q == c.src
  {
    forall q | q in c.fs && Under(c.src, q) ensures q == c.src {
      if q != c.src { AncestorsAreDirs(c.fs, q, c.src); }
    }
  }

  /** Files in parallel, then directories in reverse. */
  method DeleteTree(c: Config, j1: Job, files: seq<Path>, dirs: seq<Path>, bytes: nat, ghost j: Job)
    returns (fs: FS, job: Job, ghost schedule: seq<nat>)
    requires ValidConfig(c) && IsDir(c.fs, c.src) && j == NewJob(Delete, j.src, []) && j1 == j.(status := Running)
    requires files == WalkedFiles(c.fs, c.ls, c.src) && dirs == WalkedDirs(c.fs, c.ls, c.src)
    requires bytes == BytesIn(c.fs, files)
    ensures Swept(c, dirs, 0, fs)
    ensures job == j1.(totalFiles := |files|, totalDirs := |dirs|, totalBytes := bytes,
                       doneFiles := Unpinned(c, files), doneDirs := Unpinned(c, dirs),
                       current := job.current, error := job.error,
                       status := if Pinned(c, c.src) then Failed else Done)
    ensures job.error.Some? <==> exists q :: q in files && Pinned(c, q)
    ensures DeletePool.AllStopped(PoolRun(c, j, schedule))
    ensures job == SweepJob(c, dirs, 0, PoolRun(c, j, schedule).job).(status := job.status)
    ensures Sane(job)
  {
    var j2 := j1.(totalFiles := |files|, totalDirs := |dirs|, totalBytes := bytes);
    assert j2 == Begun(c, j);
    var failed;
    fs, job, failed, schedule := UnlinkFiles(c, j2, files, dirs);
    assert job == PoolRun(c, j, schedule).job;
    UnpinnedAll(c, files);
    UnpinnedAll(c, dirs);
    PinnedUpwards(c, files, dirs);
    hide Swept, Pinned, Unpinned, ValidConfig, PoolRun, SweepJob;
    fs, job, failed := SweepDirs(c, dirs, fs, job, failed);
    job := job.(status := if failed == 0 then Done else Failed);
  }

  /** What is left when all threads of the pool have stopped, */
  lemma PoolLeaves(c: Config, p: DeletePool.Plan, j: Job, s: DeletePool.State, dirs: seq<Path>)
    requires ValidConfig(c) && c.src in c.fs && p == DeletePool.Plan(WalkedFiles(c.fs, c.ls, c.src), c.bad, c.fs)
    requires dirs == WalkedDirs(c.fs, c.ls, c.src)
    requires DeletePool.Inv(p, j, s) && DeletePool.AllStopped(s) && |s.workers| > 0
    ensures Swept(c, dirs, |dirs|, s.fs)
  {
    hide DeletePool.Inv, ValidConfig, WalkedFiles, WalkedDirs, Swept;
    DeletePool.PoolDeletes(p, j, s);
    AfterFiles(c, p.files, dirs, s.fs);
  }

  /** and what they have counted. */
  lemma PoolTallies(c: Config, p: DeletePool.Plan, j: Job, s: DeletePool.State)
    requires ValidConfig(c) && c.src in c.fs && p == DeletePool.Plan(WalkedFiles(c.fs, c.ls, c.src), c.bad, c.fs)
    requires DeletePool.Inv(p, j, s) && DeletePool.AllStopped(s) && |s.workers| > 0
    ensures s.job == j.(doneFiles := Unpinned(c, p.files), current := s.job.current, error := s.job.error)
    ensures |s.job.current| <= CURRENT_LIMIT
    ensures s.failed == |p.files| - Unpinned(c, p.files)
    ensures s.job.error.Some? <==> s.failed > 0
  {
    hide DeletePool.FsShows, DeletePool.Counts, DeletePool.Errors, DeletePool.Claims, DeletePool.ValidPlan;
    hide Pinned, Unpinned, ValidConfig, WalkedFiles, Lists;
    FilesWalked(c, p.files);
    DeletePool.PoolCounts(p, j, s);
    FilesDone(c, p, |p.files|);
    assert p.files[..|p.files|] == p.files && DeletePool.Removable(p)[..|p.files|] == DeletePool.Removable(p);
  }

  /** The parallel part: afterwards only pinned files and the directories are left. */
  method UnlinkFiles(c: Config, j: Job, files: seq<Path>, dirs: seq<Path>)
    returns (fs: FS, job: Job, failed: nat, ghost schedule: seq<nat>)
    requires ValidConfig(c) && c.src in c.fs && j.error.None? && j.doneFiles == 0 && |j.current| <= CURRENT_LIMIT
    requires files == WalkedFiles(c.fs, c.ls, c.src) && dirs == WalkedDirs(c.fs, c.ls, c.src)
    ensures Swept(c, dirs, |dirs|, fs)
    ensures job == j.(doneFiles := Unpinned(c, files), current := job.current, error := job.error)
    ensures |job.current| <= CURRENT_LIMIT
    ensures failed == |files| - Unpinned(c, files)
    ensures job.error.Some? <==> failed > 0
    ensures var p := DeletePool.Plan(files, c.bad, c.fs);
            var s := DeletePool.Run(p, DeletePool.Start(p, j, c.threads), schedule);
            DeletePool.AllStopped(s) && (fs, job, failed) == (s.fs, s.job, s.failed)
  {
    FilesWalked(c, files);
    var p := DeletePool.Plan(files, c.bad, c.fs);
    var s;
    s, schedule := DeletePool.RunPool(p, j, c.threads);
    DeletePool.RunInv(p, j, c.threads, schedule);
    PoolLeaves(c, p, j, s, dirs);
    PoolTallies(c, p, j, s);
    fs, job, failed := s.fs, s.job, s.failed;
  }

  /** Once the files are dealt with, only pinned files and the directories are left. */
  lemma AfterFiles(c: Config, files: seq<Path>, dirs: seq<Path>, fs: FS)
    requires ValidConfig(c) && c.src in c.fs
    requires files == WalkedFiles(c.fs, c.ls, c.src) && dirs == WalkedDirs(c.fs, c.ls, c.src)
    requires forall q :: q in fs <==> q in c.fs && (q in files ==> q in c.bad)
    requires forall q :: q in fs ==> fs[q] == c.fs[q]
    ensures Swept(c, dirs, |dirs|, fs)
  {
    hide Pinned, Waiting, WalkedFiles, WalkedDirs, ValidConfig, Under;
    forall q
      ensures q in fs <==> q in c.fs && (!Under(c.src, q) || Pinned(c, q) || Waiting(dirs, |dirs|, q))
    {
      LeftAt(c, files, dirs, q);
    }
  }

  lemma LeftAt(c: Config, files: seq<Path>, dirs: seq<Path>, q: Path)
    requires ValidConfig(c) && c.src in c.fs
    requires files == WalkedFiles(c.fs, c.ls, c.src) && dirs == WalkedDirs(c.fs, c.ls, c.src)
    ensures q in c.fs ==>
              ((q in files ==> q in c.bad) <==> !Under(c.src, q) || Pinned(c, q) || Waiting(dirs, |dirs|, q))
  {
    FilesWalked(c, files);
    DirsWalked(c, dirs);
    assert dirs[..|dirs|] == dirs;
    assert Waiting(dirs, |dirs|, q) <==> q in dirs;
    hide Lists, WellFormed, ParentsFirst, Pinned, Waiting, WalkedFiles, WalkedDirs;
    if IsFile(c.fs, q) { PinnedFile(c, q); }
  }

  // ----- the record at every moment -----

  /** The moments at which the job gives its lock back; a directory is announced before
      it is removed. */
  datatype Moment =
    | Listing
    | Unlinking(schedule: seq<nat>)
    | Naming(schedule: seq<nat>, k: nat)
    | Sweeping(schedule: seq<nat>, k: nat)

  ghost predicate Happens(c: Config, j: Job, m: Moment)
    requires ValidConfig(c)
  {
    m.Naming? || m.Sweeping? ==>
      && DeletePool.AllStopped(PoolRun(c, j, m.schedule))
      && m.k < |WalkedDirs(c.fs, c.ls, c.src)| + (if m.Naming? then 0 else 1)
  }

  ghost function JobAt(c: Config, j: Job, m: Moment): Job
    requires ValidConfig(c) && Happens(c, j, m)
  {
    match m
    case Listing => j.(status := Running)
    case Unlinking(schedule) => PoolRun(c, j, schedule).job
    case Naming(schedule, k) =>
      var dirs := WalkedDirs(c.fs, c.ls, c.src);
      Announce(SweepJob(c, dirs, k + 1, PoolRun(c, j, schedule).job), dirs[k])
    case Sweeping(schedule, k) => SweepJob(c, WalkedDirs(c.fs, c.ls, c.src), k, PoolRun(c, j, schedule).job)
  }

  /** At every lock release of a tree delete the counters are within the totals and at
      most six paths are current. */
  lemma RecordSane(c: Config, j: Job, m: Moment)
    requires ValidConfig(c) && c.src in c.fs && j == NewJob(Delete, j.src, []) && Happens(c, j, m)
    ensures Sane(JobAt(c, j, m))
  {
    if !m.Listing? {
      var files, dirs := WalkedFiles(c.fs, c.ls, c.src), WalkedDirs(c.fs, c.ls, c.src);
      var p := DeletePool.Plan(files, c.bad, c.fs);
      var s := PoolRun(c, j, m.schedule);
      FilesWalked(c, files);
      DeletePool.RunInv(p, Begun(c, j), c.threads, m.schedule);
      DeletePool.CountedWithin(p, Begun(c, j), s);
      hide DeletePool.Claims, DeletePool.FsShows, DeletePool.Counts, DeletePool.Errors, WalkedFiles, WalkedDirs;
      if !m.Unlinking? {
        var k := if m.Naming? then m.k + 1 else m.k;
        SweepJobCounts(c, dirs, k, s.job);
        UnpinnedAll(c, dirs[k..]);
        hide SweepJob;
      }
    }
  }
}
