/** The whole-tree rename and the slow path agree. */
module FastPath {
  import opened FileSystem
  import opened TreeWalk
  import opened Jobs
  import opened Sums
  import opened TransferPool
  import opened TransferProofs
  import opened AnyPlan
  import opened TransferTheorems
  import opened MoveJob
  import opened MoveTheorems

  /** No call the job makes fails; a rename of a single file may still fall back. */
  ghost predicate NoCallFails(c: Config)
    requires ValidConfig(c)
  {
    && Readable(c.fs, c.walkBad, c.src) && c.mkdirBad == {} && c.kept == {}
    && c.treeRename && forall r :: r in JobFiles(c) ==> Works(c.io(r))
  }

  /** The destination is not there but its parent is, and it is not inside the source. */
  ghost predicate FreshDestination(c: Config) {
    c.dst !in c.fs && c.dst != [] && IsDir(c.fs, Parent(c.dst)) && !Under(c.src, c.dst)
  }

  lemma FreshIsApart(c: Config)
    requires ValidConfig(c) && c.src in c.fs && FreshDestination(c)
    ensures Disjoint(c.src, c.dst) && FilesApart(c)
    ensures forall q :: q in c.fs ==> !Under(c.dst, q)
  {
    FreshIsDisjoint(c);
    DisjointIsOutside(c);
  }

  lemma JobDirsListed(c: Config)
    requires ValidConfig(c) && c.src in c.fs
    ensures ParentsListed(JobDirs(c))
  {
    WalkLists(c);
    forall r | r in JobDirs(c) && r != [] ensures Parent(r) in JobDirs(c) {
      assert Parent(c.src + r) == c.src + Parent(r);
    }
  }

  /** The directories a fresh destination starts with, seen from one path below it. */
  lemma FreshPrepared(c: Config, rel: Path)
    requires ValidConfig(c) && c.src in c.fs && FreshDestination(c) && c.mkdirBad == {}
    ensures var fs1 := Prepared(c).0;
            && Prepared(c).1 == |JobDirs(c)|
            && (c.dst + rel in fs1 <==> IsDir(c.fs, c.src + rel))
            && (c.dst + rel in fs1 ==> fs1[c.dst + rel] == Dir)
  {
    JobDirsListed(c);
    WalkLists(c);
    MakeDirsExact(c.fs, c.dst, JobDirs(c));
    assert Under(c.dst, c.dst + rel);
    NothingBelowAbsent(c.fs, c.dst, c.dst + rel);
    MadeAt(c.fs, c.dst, JobDirs(c), rel);
  }

  lemma FreshElsewhere(c: Config, q: Path)
    requires ValidConfig(c) && c.src in c.fs && FreshDestination(c) && c.mkdirBad == {}
    requires !Under(c.dst, q)
    ensures Agree(Prepared(c).0, c.fs, q)
  {
    JobDirsListed(c);
    MakeDirsExact(c.fs, c.dst, JobDirs(c));
    assert Made(c.fs, c.dst, JobDirs(c), q) <==> q in c.fs;
  }

  /** The directories are made before any file needs them. */
  lemma FreshPlace(c: Config, rel: Path)
    requires ValidConfig(c) && c.src in c.fs && FreshDestination(c) && c.mkdirBad == {}
    requires IsFile(c.fs, c.src + rel)
    ensures CanPlace(Prepared(c).0, c.dst + rel)
  {
    FreshPrepared(c, rel);
    if rel == [] {
      FreshElsewhere(c, Parent(c.dst));
      assert c.dst + rel == c.dst;
    } else {
      FreshPrepared(c, Parent(rel));
      assert Parent(c.dst + rel) == c.dst + Parent(rel);
      assert Parent(c.src + rel) == c.src + Parent(rel);
    }
  }

  lemma FreshSucceeds(c: Config, i: nat)
    requires ValidConfig(c) && c.src in c.fs && FreshDestination(c) && NoCallFails(c)
    requires i < |JobFiles(c)|
    ensures ValidPlan(PlanOf(c)) && Succeeds(PlanOf(c), i)
  {
    var p, rel := PlanOf(c), JobFiles(c)[i];
    FreshIsApart(c);
    PlanValid(c);
    WalkLists(c);
    assert rel in JobFiles(c);
    TargetPathInjective(c.dst, rel, rel);
    FreshPlace(c, rel);
    SlotsApart(p, i, i);
    assert Works(p.io[i]) && CanPlace(p.fs, Target(p, i)) && IsFile(p.fs, Source(p, i));
    hide JobFiles, Prepared, PlanOf, FreshDestination, ValidConfig, CanPlace, ValidPlan, FilesApart;
  }

  /** No file fails, so the source tree is removed in the end. */
  lemma SlowMoveSucceeds(c: Config)
    requires ValidConfig(c) && c.src in c.fs && FreshDestination(c) && NoCallFails(c)
    ensures ValidPlan(PlanOf(c)) && InOrder(PlanOf(c), |JobFiles(c)|).failed == 0 && c.kept == {}
  {
    var p, n := PlanOf(c), |JobFiles(c)|;
    FreshIsApart(c);
    PlanValid(c);
    InOrderShows(p, n);
    forall i | 0 <= i < n ensures Succeeds(p, i) { FreshSucceeds(c, i); }
    SumInZero(Failures(p), FirstN(n));
    hide InOrder, Succeeds, Outcome, JobFiles, PlanOf, ValidPlan, FilesApart;
  }

  /** What the transfer leaves at one path below the destination. */
  lemma TransferredAt(c: Config, rel: Path)
    requires ValidConfig(c) && c.src in c.fs && FreshDestination(c) && NoCallFails(c)
    ensures var fs := InOrder(PlanOf(c), |JobFiles(c)|).fs;
            && (c.dst + rel in fs <==> c.src + rel in c.fs)
            && (c.dst + rel in fs ==> fs[c.dst + rel] == c.fs[c.src + rel])
  {
    var p, n := PlanOf(c), |JobFiles(c)|;
    var t := InOrder(p, n);
    FreshIsApart(c);
    PlanValid(c);
    PlanWalked(c);
    WalkLists(c);
    InOrderShows(p, n);
    FreshPrepared(c, rel);
    hide FilesApart, Outcome, Succeeds, Prepared, NoCallFails, ValidPlan, JobFiles, InOrder;
    if rel in JobFiles(c) {
      var i :| 0 <= i < n && p.files[i] == rel;
      TargetPathInjective(c.dst, rel, rel);
      FreshSucceeds(c, i);
      OutcomeArrived(p, i);
      assert Slots(p, t.fs, Outcome(p, i), i);
      assert Agree(p.fs, c.fs, c.src + rel);
    } else {
      NotASlot(c, rel);
      assert Agree(t.fs, p.fs, c.dst + rel);
    }
  }

  lemma RemovedAt(fs: FS, root: Path, q: Path)
    ensures Under(root, q) && IsDir(fs, root) ==> q !in RemoveSource(fs, root, {})
    ensures !Under(root, q) || !IsDir(fs, root) ==> Agree(RemoveSource(fs, root, {}), fs, q)
  {
  }

  /** A source that is a single file is gone already when it has been moved. */
  lemma FileGone(c: Config, q: Path)
    requires ValidConfig(c) && IsFile(c.fs, c.src) && FreshDestination(c) && NoCallFails(c) && c.op == Move
    requires Under(c.src, q)
    ensures q !in InOrder(PlanOf(c), |JobFiles(c)|).fs
  {
    var p, n := PlanOf(c), |JobFiles(c)|;
    FreshIsApart(c);
    assert c.src + [] == c.src;
    var i := FileListed(c, []);
    PlanValid(c);
    InOrderShows(p, n);
    FreshSucceeds(c, i);
    OutcomeArrived(p, i);
    var fs := InOrder(p, n).fs;
    assert Slots(p, fs, Outcome(p, i), i);
    hide InOrder, Outcome, Succeeds, PlanOf, NoCallFails, ValidPlan;
    if q != c.src {
      BelowFile(c, q);
    }
  }

  lemma BelowFile(c: Config, q: Path)
    requires ValidConfig(c) && IsFile(c.fs, c.src) && FreshDestination(c) && NoCallFails(c)
    requires Under(c.src, q) && q != c.src
    ensures q !in InOrder(PlanOf(c), |JobFiles(c)|).fs
  {
    var p, n := PlanOf(c), |JobFiles(c)|;
    FreshIsApart(c);
    PlanValid(c);
    InOrderShows(p, n);
    if Under(c.dst, q) { UnderChain(c.src, c.dst, q); }
    FreshElsewhere(c, q);
    if q in c.fs { AncestorsAreDirs(c.fs, q, c.src); }
    forall i | 0 <= i < n ensures !InSlot(p, i, q) {
      OnlyRoot(c, p.files[i]);
      TargetPathInjective(c.dst, p.files[i], p.files[i]);
      assert Under(c.dst, Target(p, i));
    }
    assert Outside(p, q);
  }

  lemma OnlyRoot(c: Config, r: Path)
    requires ValidConfig(c) && IsFile(c.fs, c.src) && r in JobFiles(c)
    ensures c.src + r == c.src
  {
    WalkLists(c);
    assert Under(c.src, c.src + r);
    if r != [] { AncestorsAreDirs(c.fs, c.src + r, c.src); }
  }

  /** What the removal of the source does to what the pool has left at `q`. */
  lemma SlowAt(c: Config, q: Path)
    requires ValidConfig(c) && c.src in c.fs && FreshDestination(c) && NoCallFails(c) && c.op == Move
    ensures Under(c.src, q) ==> q !in SlowFs(c)
    ensures !Under(c.src, q) ==> Agree(SlowFs(c), InOrder(PlanOf(c), |JobFiles(c)|).fs, q)
  {
    var fs := InOrder(PlanOf(c), |JobFiles(c)|).fs;
    SlowMoveSucceeds(c);
    SourceKind(c);
    assert SlowFs(c) == RemoveSource(fs, c.src, {});
    hide InOrder, NoCallFails, ValidPlan, FreshDestination, PlanOf, RemoveSource, SlowFs, JobFiles;
    RemovedAt(fs, c.src, q);
    if Under(c.src, q) && IsFile(c.fs, c.src) { FileGone(c, q); }
  }

  /** Where a slow move ends up at any one path. */
  lemma SlowMoveAt(c: Config, q: Path)
    requires ValidConfig(c) && c.src in c.fs && FreshDestination(c) && NoCallFails(c) && c.op == Move
    ensures var out := SlowFs(c);
            if Under(c.src, q) then q !in out
            else if Under(c.dst, q) then
              (q in out <==> c.src + q[|c.dst|..] in c.fs) && (q in out ==> out[q] == c.fs[c.src + q[|c.dst|..]])
            else Agree(out, c.fs, q)
  {
    FreshIsApart(c);
    hide InOrder, FreshDestination, PlanOf, Prepared, SlowFs, JobFiles, FilesApart;
    SlowAt(c, q);
    if !Under(c.src, q) {
      if Under(c.dst, q) {
        assert q == c.dst + q[|c.dst|..];
        TransferredAt(c, q[|c.dst|..]);
      } else {
        TransferredElsewhere(c, q);
        FreshElsewhere(c, q);
      }
    }
  }

  lemma SourceKind(c: Config)
    requires ValidConfig(c) && c.src in c.fs && FreshDestination(c)
    ensures IsDir(InOrder(PlanOf(c), |JobFiles(c)|).fs, c.src) <==> IsDir(c.fs, c.src)
  {
    FreshIsApart(c);
    PlanValid(c);
    PreparedKeeps(c);
    InOrderShows(PlanOf(c), |JobFiles(c)|);
  }

  lemma TransferredElsewhere(c: Config, q: Path)
    requires ValidConfig(c) && c.src in c.fs && FilesApart(c) && !Under(c.src, q) && !Under(c.dst, q)
    ensures Agree(InOrder(PlanOf(c), |JobFiles(c)|).fs, Prepared(c).0, q)
  {
    var p, n := PlanOf(c), |JobFiles(c)|;
    PlanValid(c);
    InOrderShows(p, n);
    forall i | 0 <= i < n ensures !InSlot(p, i, q) {
      TargetPathInjective(c.dst, p.files[i], p.files[i]);
      assert Under(c.src, Source(p, i)) && Under(c.dst, Target(p, i));
    }
    assert Outside(p, q);
  }

  lemma NotASlot(c: Config, rel: Path)
    requires ValidConfig(c) && Disjoint(c.src, c.dst) && rel !in JobFiles(c)
    ensures Outside(PlanOf(c), c.dst + rel)
  {
    var p := PlanOf(c);
    forall i | 0 <= i < |p.files| ensures !InSlot(p, i, c.dst + rel) {
      TargetPathInjective(c.dst, p.files[i], rel);
      assert p.files[i] in JobFiles(c) && p.files[i] == (c.dst + p.files[i])[|c.dst|..];
      assert rel == (c.dst + rel)[|c.dst|..];
      if Source(p, i) == c.dst + rel {
        assert Under(c.src, Source(p, i)) && Under(c.dst, c.dst + rel);
        UnderChain(c.src, c.dst, c.dst + rel);
      }
    }
  }

  /** The whole-tree rename is only an optimisation: with a fresh destination and no
      call failing, transferring the tree piece by piece leaves the same filesystem,
      whether or not the two paths are on the same drive. */
  lemma FastEqualsSlow(c: Config)
    requires ValidConfig(c) && c.src in c.fs && FreshDestination(c) && NoCallFails(c) && c.op == Move
    ensures Disjoint(c.src, c.dst) && forall q :: q in c.fs ==> !Under(c.dst, q)
    ensures SlowFs(c) == RenameTree(c.fs, c.src, c.dst)
    ensures JobFs(c) == RenameTree(c.fs, c.src, c.dst)
  {
    FreshIsApart(c);
    var fast := RenameTree(c.fs, c.src, c.dst);
    hide SlowFs, RenameTree;
    forall q ensures Agree(SlowFs(c), fast, q) {
      SlowMoveAt(c, q);
      RenamedTree(c, q);
    }
    SameByAgreement(SlowFs(c), fast);
  }

  /** The slow path's counters end where the fast path sets them. */
  lemma SlowCountersComplete(c: Config)
    requires ValidConfig(c) && c.src in c.fs && FreshDestination(c) && NoCallFails(c)
    ensures Prepared(c).1 == |JobDirs(c)|
    ensures InOrder(PlanOf(c), |JobFiles(c)|).doneBytes == JobBytes(c)
    ensures InOrder(PlanOf(c), |JobFiles(c)|).failed == 0
  {
    var p, n := PlanOf(c), |JobFiles(c)|;
    FreshIsApart(c);
    PlanValid(c);
    FreshPrepared(c, []);
    InOrderShows(p, n);
    SlowMoveSucceeds(c);
    forall i | 0 <= i < n ensures Works(p.io[i]) { assert p.files[i] in JobFiles(c); }
    JobBytesAreLengths(c);
    hide InOrder, Succeeds, Outcome, JobFiles, PlanOf, FilesApart, JobBytes, Prepared;
    forall i | 0 <= i < n ensures Succeeds(p, i) { FreshSucceeds(c, i); }
    SumsOfEarnings(p);
  }
}
