/** `run_job`: walk the source, try to rename the whole tree, otherwise make the
    directories, let the pool transfer the files, and for a move remove the source
    tree if nothing failed. */
module MoveJob {
  import opened FileSystem
  import opened TreeWalk
  import opened Jobs
  import opened Sums
  import opened TransferPool
  import opened AnyPlan
  import opened TransferTheorems
  import opened ByteCount

  /** One job and everything outside its control: the order directories list their
      entries in, what cannot be read, which directories cannot be made, how the
      calls for each file turn out, whether the whole-tree rename works, and what
      the final removal of the source cannot remove. */
  datatype Config = Config(
    fs: FS, ls: Listing, op: Op, src: Path, dst: Path, mounts: seq<Path>,
    walkBad: set<Path>, mkdirBad: set<Path>, io: Path -> FileIO,
    treeRename: bool, kept: set<Path>, threads: nat)

  /** Any two paths will do. */
  ghost predicate ValidConfig(c: Config) {
    WellFormed(c.fs) && [] in c.fs && Lists(c.ls, c.fs) && !c.op.Delete? && c.threads > 0
  }

  // ----- which drive a path is on -----

  /** The first component below the mount root a path is in, if it is in one. */
  function PathDrive(mounts: seq<Path>, p: Path): Option<string> {
    if mounts == [] then None
    else if Under(mounts[0], p) then
      if |mounts[0]| < |p| then Some(p[|mounts[0]|]) else None
    else PathDrive(mounts[1..], p)
  }

  /** Source and destination are on the same drive, or both outside the mounts. */
  predicate SameDrive(c: Config) {
    PathDrive(c.mounts, c.src) == PathDrive(c.mounts, c.dst)
  }

  // ----- the walk -----

  function JobFiles(c: Config): seq<Path>
    requires Lists(c.ls, c.fs)
  {
    Rels(WalkedFiles(c.fs, c.ls, c.src), |c.src|)
  }

  function JobDirs(c: Config): seq<Path>
    requires Lists(c.ls, c.fs)
  {
    Rels(WalkedDirs(c.fs, c.ls, c.src), |c.src|)
  }

  function JobBytes(c: Config): nat
    requires Lists(c.ls, c.fs)
  {
    BytesIn(c.fs, WalkedFiles(c.fs, c.ls, c.src))
  }

  lemma RelsOf(s: seq<Path>, src: Path)
    requires ParentsFirst(s) && forall q :: q in s ==> Under(src, q)
    ensures forall r :: r in Rels(s, |src|) <==> src + r in s
    ensures forall i :: 0 <= i < |s| ==> src + Rels(s, |src|)[i] == s[i]
    ensures ParentsFirst(Rels(s, |src|))
  {
    var rs := Rels(s, |src|);
    forall i | 0 <= i < |s| ensures src + rs[i] == s[i] { assert s[i] in s; }
    forall r | src + r in s ensures r in rs {
      var i :| 0 <= i < |s| && s[i] == src + r;
      assert rs[i] == r;
    }
    forall r | r in rs ensures src + r in s {
      var i :| 0 <= i < |rs| && rs[i] == r;
      assert s[i] in s;
    }
    forall i, j | 0 <= i < j < |rs| ensures !Under(rs[j], rs[i]) {
      UnderCancel(src, rs[j], rs[i]);
    }
  }

  /** The lists of the walk hold the files and the directories of the source tree,
      each once and every directory before what is in it. */
  lemma WalkLists(c: Config)
    requires ValidConfig(c) && c.src in c.fs
    ensures forall r :: r in JobFiles(c) <==> IsFile(c.fs, c.src + r)
    ensures forall r :: r in JobDirs(c) <==> IsDir(c.fs, c.src + r)
    ensures ParentsFirst(JobFiles(c)) && ParentsFirst(JobDirs(c))
  {
    var all := Preorder(c.fs, c.ls, c.src);
    PreorderVisits(c.fs, c.ls, c.src);
    SelectMembers(c.fs, all);
    SelectParentsFirst(c.fs, all);
    RelsOf(FilesIn(c.fs, all), c.src);
    RelsOf(DirsIn(c.fs, all), c.src);
    assert forall r :: Under(c.src, c.src + r);
  }

  /** No walked file goes where one of them still has to come from. */
  ghost predicate FilesApart(c: Config)
    requires Lists(c.ls, c.fs)
  {
    forall r, t :: r in JobFiles(c) && t in JobFiles(c) ==> c.src + r != c.dst + t
  }

  function FileSize(c: Config, r: Path): nat {
    if IsFile(c.fs, c.src + r) then |c.fs[c.src + r].data| else 0
  }

  /** No walked file goes to the place of a smaller one. */
  ghost predicate FilesFit(c: Config)
    requires Lists(c.ls, c.fs)
  {
    forall r, t :: r in JobFiles(c) && t in JobFiles(c) && c.dst + r == c.src + t ==> FileSize(c, r) <= FileSize(c, t)
  }

  /** No walked file goes to a place inside the source. */
  ghost predicate TargetsOutside(c: Config)
    requires Lists(c.ls, c.fs)
  {
    forall r :: r in JobFiles(c) ==> !Under(c.src, c.dst + r)
  }

  lemma OutsideIsApart(c: Config)
    requires Lists(c.ls, c.fs) && TargetsOutside(c)
    ensures FilesApart(c)
  {
    forall r, t | r in JobFiles(c) && t in JobFiles(c) ensures c.src + r != c.dst + t {
      assert Under(c.src, c.src + r);
    }
  }

  /** Paths that do not overlap are the usual case. */
  lemma DisjointIsOutside(c: Config)
    requires Lists(c.ls, c.fs) && Disjoint(c.src, c.dst)
    ensures TargetsOutside(c) && FilesApart(c)
  {
    forall r | r in JobFiles(c) ensures !Under(c.src, c.dst + r) {
      assert Under(c.dst, c.dst + r);
      if Under(c.src, c.dst + r) { UnderChain(c.src, c.dst, c.dst + r); }
    }
    OutsideIsApart(c);
  }

  // ----- making the directories -----

  /** Each directory of the list is made in turn, whether or not earlier ones could be. */
  function MakeDirs(fs: FS, bad: set<Path>, dst: Path, dirs: seq<Path>): (r: (FS, nat)) {
    if dirs == [] then (fs, 0)
    else
      var (fs1, n) := MakeDirs(fs, bad, dst, dirs[..|dirs| - 1]);
      var (fs2, ok) := MkdirAll(fs1, bad, TargetPath(dst, dirs[|dirs| - 1]));
      (fs2, if ok then n + 1 else n)
  }

  /** Only directories on the way to the destination, or inside it, are added. */
  lemma {:induction false} MakeDirsAdds(fs: FS, bad: set<Path>, dst: Path, dirs: seq<Path>)
    ensures var fs1 := MakeDirs(fs, bad, dst, dirs).0;
            && (forall q :: q in fs ==> q in fs1 && fs1[q] == fs[q])
            && (forall q :: q in fs1 && q !in fs ==> fs1[q] == Dir && (Under(q, dst) || Under(dst, q)))
            && (WellFormed(fs) ==> WellFormed(fs1))
    ensures MakeDirs(fs, bad, dst, dirs).1 <= |dirs|
  {
    if dirs != [] {
      var rel := dirs[|dirs| - 1];
      var fs1 := MakeDirs(fs, bad, dst, dirs[..|dirs| - 1]).0;
      MakeDirsAdds(fs, bad, dst, dirs[..|dirs| - 1]);
      TargetPathInjective(dst, rel, rel);
      var fs2 := MkdirAll(fs1, bad, dst + rel).0;
      forall q | q in fs2 && q !in fs1 ensures Under(q, dst) || Under(dst, q) {
        assert Under(dst, dst + rel);
        UnderChain(q, dst, dst + rel);
      }
    }
  }

  ghost predicate ParentsListed(dirs: seq<Path>) {
    ParentsFirst(dirs) && forall r :: r in dirs && r != [] ==> Parent(r) in dirs
  }

  lemma ParentEarlier(dirs: seq<Path>, i: nat) returns (j: nat)
    requires ParentsListed(dirs) && i < |dirs| && dirs[i] != []
    ensures j < i && dirs[j] == Parent(dirs[i])
  {
    assert dirs[i] in dirs;
    j :| 0 <= j < |dirs| && dirs[j] == Parent(dirs[i]);
    assert Under(dirs[j], dirs[i]) && !Under(dirs[i], dirs[j]);
  }

  lemma InitListed(dirs: seq<Path>)
    requires ParentsListed(dirs) && dirs != []
    ensures ParentsListed(dirs[..|dirs| - 1]) && dirs[|dirs| - 1] !in dirs[..|dirs| - 1]
  {
    var init := dirs[..|dirs| - 1];
    forall r | r in init && r != [] ensures Parent(r) in init {
      var i :| 0 <= i < |init| && init[i] == r;
      var j := ParentEarlier(dirs, i);
      assert init[j] == Parent(r);
    }
    assert Under(dirs[|dirs| - 1], dirs[|dirs| - 1]);
  }

  /** `q` is there already, or is one of the listed directories below `dst`. */
  predicate Made(fs: FS, dst: Path, dirs: seq<Path>, q: Path) {
    q in fs || (Under(dst, q) && q[|dst|..] in dirs)
  }

  lemma MadeAt(fs: FS, dst: Path, dirs: seq<Path>, rel: Path)
    ensures Made(fs, dst, dirs, dst + rel) <==> dst + rel in fs || rel in dirs
  {
    assert Under(dst, dst + rel) && (dst + rel)[|dst|..] == rel;
  }

  lemma MadeSnoc(fs: FS, dst: Path, dirs: seq<Path>, rel: Path, q: Path)
    ensures Made(fs, dst, dirs + [rel], q) <==> Made(fs, dst, dirs, q) || q == dst + rel
  {
    if Under(dst, q) { assert q == dst + q[|dst|..]; }
    assert Under(dst, dst + rel) && (dst + rel)[|dst|..] == rel;
  }

  lemma NothingBelowAbsent(fs: FS, dst: Path, q: Path)
    requires WellFormed(fs) && dst !in fs && Under(dst, q)
    ensures q !in fs
  {
    if q in fs && q != dst {
      AncestorsAreDirs(fs, q, dst);
    }
  }

  lemma MkdirOne(fs: FS, q: Path)
    requires q != [] && q !in fs && IsDir(fs, Parent(q))
    ensures MkdirAll(fs, {}, q) == (fs[q := Dir], true)
  {
    assert MkdirAll(fs, {}, Parent(q)) == (fs, true);
  }

  /** The directories made so far: exactly those that were there or are listed. */
  ghost predicate MadeExactly(fs: FS, fs1: FS, dst: Path, dirs: seq<Path>) {
    && (forall q :: q in fs1 <==> Made(fs, dst, dirs, q))
    && (forall q :: q in fs1 ==> fs1[q] == if q in fs then fs[q] else Dir)
  }

  lemma NextIsMissing(fs: FS, fs1: FS, dst: Path, dirs: seq<Path>)
    requires WellFormed(fs) && dst != [] && IsDir(fs, Parent(dst)) && dst !in fs
    requires dirs != [] && ParentsListed(dirs)
    requires MadeExactly(fs, fs1, dst, dirs[..|dirs| - 1])
    ensures var q := dst + dirs[|dirs| - 1]; q != [] && q !in fs1 && IsDir(fs1, Parent(q))
  {
    hide Made;
    var init, rel := dirs[..|dirs| - 1], dirs[|dirs| - 1];
    var q := dst + rel;
    InitListed(dirs);
    assert Under(dst, q);
    NothingBelowAbsent(fs, dst, q);
    MadeAt(fs, dst, init, rel);
    if rel == [] {
      assert q == dst;
      assert Made(fs, dst, init, Parent(dst)) by { MadeThere(fs, dst, init, Parent(dst)); }
    } else {
      var j := ParentEarlier(dirs, |dirs| - 1);
      assert init[j] == Parent(rel);
      assert Parent(q) == dst + Parent(rel);
      MadeAt(fs, dst, init, Parent(rel));
      assert Under(dst, dst + Parent(rel));
      NothingBelowAbsent(fs, dst, Parent(q));
    }
  }

  lemma MadeThere(fs: FS, dst: Path, dirs: seq<Path>, q: Path)
    requires q in fs
    ensures Made(fs, dst, dirs, q)
  {
  }

  lemma MadeOneMore(fs: FS, fs1: FS, dst: Path, dirs: seq<Path>, rel: Path)
    requires MadeExactly(fs, fs1, dst, dirs) && dst + rel !in fs1
    ensures MadeExactly(fs, fs1[dst + rel := Dir], dst, dirs + [rel])
  {
    hide Made;
    if dst + rel in fs { MadeThere(fs, dst, dirs, dst + rel); }
    forall q ensures Made(fs, dst, dirs + [rel], q) <==> Made(fs, dst, dirs, q) || q == dst + rel {
      MadeSnoc(fs, dst, dirs, rel, q);
    }
  }

  /** One more directory of the list. */
  lemma MakeDirsSnoc(fs: FS, bad: set<Path>, dst: Path, dirs: seq<Path>, r: Path)
    ensures var (fs1, made) := MakeDirs(fs, bad, dst, dirs);
            var (fs2, ok) := MkdirAll(fs1, bad, dst + r);
            MakeDirs(fs, bad, dst, dirs + [r]) == (fs2, if ok then made + 1 else made)
  {
    hide MkdirAll;
    TargetPathInjective(dst, r, r);
    assert (dirs + [r])[..|dirs|] == dirs;
  }

  /** With the parent of the destination there, the destination absent and nothing
      refused, exactly the listed directories appear. */
  lemma {:induction false} MakeDirsExact(fs: FS, dst: Path, dirs: seq<Path>)
    requires WellFormed(fs) && dst != [] && IsDir(fs, Parent(dst)) && dst !in fs
    requires ParentsListed(dirs)
    ensures MakeDirs(fs, {}, dst, dirs).1 == |dirs|
    ensures MadeExactly(fs, MakeDirs(fs, {}, dst, dirs).0, dst, dirs)
  {
    hide *;
    if dirs == [] {
      NoDirExact(fs, dst);
    } else {
      InitListed(dirs);
      MakeDirsExact(fs, dst, dirs[..|dirs| - 1]);
      NextDirExact(fs, dst, dirs);
    }
  }

  lemma NoDirExact(fs: FS, dst: Path)
    ensures MakeDirs(fs, {}, dst, []).1 == 0
    ensures MadeExactly(fs, MakeDirs(fs, {}, dst, []).0, dst, [])
  {
    assert forall q :: Made(fs, dst, [], q) <==> q in fs;
  }

  lemma NextDirExact(fs: FS, dst: Path, dirs: seq<Path>)
    requires WellFormed(fs) && dst != [] && IsDir(fs, Parent(dst)) && dst !in fs
    requires dirs != [] && ParentsListed(dirs)
    requires var (fs1, made) := MakeDirs(fs, {}, dst, dirs[..|dirs| - 1]);
             made == |dirs| - 1 && MadeExactly(fs, fs1, dst, dirs[..|dirs| - 1])
    ensures MakeDirs(fs, {}, dst, dirs).1 == |dirs|
    ensures MadeExactly(fs, MakeDirs(fs, {}, dst, dirs).0, dst, dirs)
  {
    hide Made, MadeExactly, ParentsListed, WellFormed, MakeDirs, MkdirAll, TargetPath, Under;
    var init, rel := dirs[..|dirs| - 1], dirs[|dirs| - 1];
    var fs1 := MakeDirs(fs, {}, dst, init).0;
    assert dirs == init + [rel];
    MakeDirsSnoc(fs, {}, dst, init, rel);
    NextIsMissing(fs, fs1, dst, dirs);
    MkdirOne(fs1, dst + rel);
    MadeOneMore(fs, fs1, dst, init, rel);
  }

  // ----- the job as a whole -----

  /** The filesystem and the number of directories made when the pool starts. */
  function Prepared(c: Config): (FS, nat)
    requires Lists(c.ls, c.fs)
  {
    MakeDirs(c.fs, c.mkdirBad, c.dst, JobDirs(c))
  }

  function PlanOf(c: Config): Plan
    requires Lists(c.ls, c.fs)
  {
    var files := JobFiles(c);
    Plan(c.op, c.src, c.dst, SameDrive(c), files,
         seq(|files|, i requires 0 <= i < |files| => c.io(files[i])), Prepared(c).0)
  }

  /** `std::fs::remove_dir_all`, which may leave the entries in `kept` behind. */
  function RemoveTree(fs: FS, root: Path, kept: set<Path>): FS {
    map q | q in fs && (!Under(root, q) || q in kept) :: fs[q]
  }

  /** It fails, and removes nothing, if the path is no directory. */
  function RemoveSource(fs: FS, root: Path, kept: set<Path>): FS {
    if IsDir(fs, root) then RemoveTree(fs, root, kept) else fs
  }

  /** `std::fs::rename` of a whole tree onto a path that does not exist. */
  function RenameTree(fs: FS, src: Path, dst: Path): FS
    requires Disjoint(src, dst) && forall q :: q in fs ==> !Under(dst, q)
  {
    RemoveTree(fs, src, {}) +
    map q | q in (set x | x in fs && Under(src, x) :: dst + x[|src|..]) && src + q[|dst|..] in fs ::
      fs[src + q[|dst|..]]
  }

  /** The operating system refuses to rename a tree into itself. */
  predicate TakesFastPath(c: Config) {
    && c.op == Move && SameDrive(c) && c.dst !in c.fs
    && c.treeRename && c.dst != [] && IsDir(c.fs, Parent(c.dst)) && !Under(c.src, c.dst)
  }

  /** What the slow path leaves if files do not collide. */
  function SlowFs(c: Config): FS
    requires Lists(c.ls, c.fs)
  {
    var t := InOrder(PlanOf(c), |JobFiles(c)|);
    if c.op == Move && t.failed == 0 then RemoveSource(t.fs, c.src, c.kept) else t.fs
  }

  lemma DestinationEmpty(c: Config)
    requires WellFormed(c.fs) && c.dst !in c.fs
    ensures forall q :: q in c.fs ==> !Under(c.dst, q)
  {
    forall q | Under(c.dst, q) ensures q !in c.fs { NothingBelowAbsent(c.fs, c.dst, q); }
  }

  lemma FreshIsDisjoint(c: Config)
    requires ValidConfig(c) && c.src in c.fs && c.dst !in c.fs && !Under(c.src, c.dst)
    ensures Disjoint(c.src, c.dst) && forall q :: q in c.fs ==> !Under(c.dst, q)
  {
    DestinationEmpty(c);
  }

  /** The filesystem a finished job leaves if files do not collide. */
  ghost function JobFs(c: Config): FS
    requires ValidConfig(c)
  {
    if !Readable(c.fs, c.walkBad, c.src) then c.fs
    else if TakesFastPath(c) then
      FreshIsDisjoint(c);
      RenameTree(c.fs, c.src, c.dst)
    else SlowFs(c)
  }

  lemma PreparedKeeps(c: Config)
    requires ValidConfig(c)
    ensures var fs1 := Prepared(c).0;
            && WellFormed(fs1)
            && (forall q :: q in c.fs ==> q in fs1 && fs1[q] == c.fs[q])
            && (forall q :: q in fs1 && q !in c.fs ==> fs1[q] == Dir && (Under(q, c.dst) || Under(c.dst, q)))
    ensures Prepared(c).1 <= |JobDirs(c)|
  {
    MakeDirsAdds(c.fs, c.mkdirBad, c.dst, JobDirs(c));
  }

  /** What the pool is given. */
  lemma PlanWalked(c: Config)
    requires ValidConfig(c) && c.src in c.fs
    ensures Walked(PlanOf(c))
    ensures forall q :: q in c.fs ==> Agree(Prepared(c).0, c.fs, q)
  {
    WalkLists(c);
    PreparedKeeps(c);
    var p := PlanOf(c);
    forall i, j | 0 <= i < j < |p.files| ensures p.files[i] != p.files[j] {
      assert !Under(p.files[j], p.files[i]);
      assert Under(p.files[j], p.files[j]);
    }
    forall i | 0 <= i < |p.files| ensures IsFile(p.fs, Source(p, i)) {
      assert p.files[i] in JobFiles(c);
    }
  }

  /** Exactly if no files collide the pool's theorems apply to it. */
  lemma PlanValid(c: Config)
    requires ValidConfig(c) && c.src in c.fs
    ensures ValidPlan(PlanOf(c)) <==> FilesApart(c)
  {
    PlanWalked(c);
    var p := PlanOf(c);
    forall i, j | 0 <= i < |p.files| && 0 <= j < |p.files|
      ensures Source(p, i) == c.src + p.files[i] && Target(p, j) == c.dst + p.files[j]
    {
      TargetPathInjective(c.dst, p.files[j], p.files[j]);
    }
    if ValidPlan(p) {
      forall r, t | r in JobFiles(c) && t in JobFiles(c) ensures c.src + r != c.dst + t {
        var i :| 0 <= i < |p.files| && p.files[i] == r;
        var j :| 0 <= j < |p.files| && p.files[j] == t;
        assert Source(p, i) != Target(p, j);
      }
    }
  }

  /** The places of the plan, as the job sees them. */
  lemma PlanPlaces(c: Config, i: nat)
    requires ValidConfig(c) && c.src in c.fs && i < |JobFiles(c)|
    ensures var p, r := PlanOf(c), JobFiles(c)[i];
            && r in JobFiles(c) && Source(p, i) == c.src + r && Target(p, i) == c.dst + r
            && IsFile(c.fs, c.src + r) && Agree(p.fs, c.fs, c.src + r) && Length(p, i) == FileSize(c, r)
  {
    PlanWalked(c);
    WalkLists(c);
    TargetPathInjective(c.dst, JobFiles(c)[i], JobFiles(c)[i]);
    assert JobFiles(c)[i] in JobFiles(c);
  }

  lemma FitsMeans(c: Config)
    requires ValidConfig(c) && c.src in c.fs
    ensures SizesFit(PlanOf(c)) <==> FilesFit(c)
  {
    var p, files := PlanOf(c), JobFiles(c);
    forall i: nat | i < |files|
      ensures Source(p, i) == c.src + files[i] && Target(p, i) == c.dst + files[i]
      ensures Length(p, i) == FileSize(c, files[i])
    {
      PlanPlaces(c, i);
    }
    hide Length, FileSize, Source, Target, JobFiles;
    if SizesFit(p) {
      forall r, t | r in files && t in files && c.dst + r == c.src + t ensures FileSize(c, r) <= FileSize(c, t) {
        var i: nat :| i < |files| && files[i] == r;
        var k: nat :| k < |files| && files[k] == t;
        assert Target(p, i) == Source(p, k);
      }
    }
  }

  /** The bytes the walk counted are the lengths of the files in the plan. */
  lemma {:induction false} BytesAreLengths(c: Config, files: seq<Path>, p: Plan)
    requires |files| == |p.files| && forall i :: 0 <= i < |files| ==> Source(p, i) == files[i]
    requires forall i :: 0 <= i < |files| ==> Agree(p.fs, c.fs, files[i])
    ensures SumIn(Lengths(p), FirstN(|p.files|)) == BytesIn(c.fs, files)
    decreases |files|
  {
    if files == [] {
    } else {
      var n := |files| - 1;
      var init := p.(files := p.files[..n]);
      assert forall i :: 0 <= i < n ==> Source(init, i) == Source(p, i);
      BytesAreLengths(c, files[..n], init);
      LengthsSnoc(p, init);
      BytesSnoc(c.fs, files[..n], files[n]);
      assert files == files[..n] + [files[n]];
      assert Agree(p.fs, c.fs, files[n]);
      hide Lengths, SumIn, BytesIn;
    }
  }

  lemma LengthsSnoc(p: Plan, init: Plan)
    requires p.files != [] && init == p.(files := p.files[..|p.files| - 1])
    ensures SumIn(Lengths(p), FirstN(|p.files|)) ==
            SumIn(Lengths(init), FirstN(|init.files|)) + Length(p, |p.files| - 1)
  {
    var n := |init.files|;
    assert Lengths(p)[..n] == Lengths(init);
    SumInSame(Lengths(init), FirstN(n), FirstN(n + 1));
  }

  lemma BytesSnoc(fs: FS, files: seq<Path>, q: Path)
    ensures BytesIn(fs, files + [q]) == BytesIn(fs, files) + if IsFile(fs, q) then |fs[q].data| else 0
  {
    BytesConcat(fs, files, [q]);
    assert [q][1..] == [];
  }

  // ----- the job record on the way -----

  /** The record after the walk. */
  function Begun(c: Config, j: Job): Job
    requires Lists(c.ls, c.fs)
  {
    j.(status := Running, totalFiles := |JobFiles(c)|, totalDirs := |JobDirs(c)|, totalBytes := JobBytes(c))
  }

  /** The record after directories have been made and announced. */
  function DirsJob(fs: FS, bad: set<Path>, dst: Path, dirs: seq<Path>, j: Job): Job {
    if dirs == [] then j
    else
      var init, d := dirs[..|dirs| - 1], TargetPath(dst, dirs[|dirs| - 1]);
      var before := DirsJob(fs, bad, dst, init, j);
      if MkdirAll(MakeDirs(fs, bad, dst, init).0, bad, d).1
      then Announce(before.(doneDirs := before.doneDirs + 1), d)
      else before
  }

  lemma {:induction false} DirsJobCounts(fs: FS, bad: set<Path>, dst: Path, dirs: seq<Path>, j: Job)
    requires |j.current| <= CURRENT_LIMIT
    ensures var job := DirsJob(fs, bad, dst, dirs, j);
            && job == j.(doneDirs := j.doneDirs + MakeDirs(fs, bad, dst, dirs).1, current := job.current)
            && |job.current| <= CURRENT_LIMIT
  {
    hide MkdirAll, TargetPath;
    if dirs != [] {
      DirsJobCounts(fs, bad, dst, dirs[..|dirs| - 1], j);
    }
  }

  /** The record the pool starts with. */
  function PoolJob(c: Config, j: Job): Job
    requires Lists(c.ls, c.fs)
  {
    DirsJob(c.fs, c.mkdirBad, c.dst, JobDirs(c), Begun(c, j))
  }

  /** The pool after the threads acted in the order of the schedule. */
  function PoolRun(c: Config, j: Job, schedule: seq<nat>): State
    requires Lists(c.ls, c.fs)
  {
    Run(PlanOf(c), Start(PlanOf(c), PoolJob(c, j), c.threads), schedule)
  }

  /** What is left when the pool has stopped in state `s`. */
  function Ended(c: Config, s: State): FS {
    if c.op == Move && s.failed == 0 then RemoveSource(s.fs, c.src, c.kept) else s.fs
  }

  lemma PoolJobMeans(c: Config, j: Job)
    requires Lists(c.ls, c.fs) && j == NewJob(c.op, j.src, j.dst)
    ensures var job := PoolJob(c, j);
            && job == Begun(c, j).(doneDirs := Prepared(c).1, current := job.current)
            && |job.current| <= CURRENT_LIMIT && job.error.None?
  {
    DirsJobCounts(c.fs, c.mkdirBad, c.dst, JobDirs(c), Begun(c, j));
    hide JobDirs, JobFiles, JobBytes, DirsJob, MakeDirs;
  }

  /** What can be said of any stopped pool. */
  lemma PoolStopped(c: Config, j: Job, schedule: seq<nat>)
    requires ValidConfig(c) && j == NewJob(c.op, j.src, j.dst) && AllStopped(PoolRun(c, j, schedule))
    ensures var s := PoolRun(c, j, schedule);
            && s.job == Begun(c, j).(doneDirs := Prepared(c).1, doneFiles := |JobFiles(c)|,
                                     doneBytes := s.job.doneBytes, current := s.job.current, error := s.job.error)
            && |s.job.current| <= CURRENT_LIMIT
            && (s.job.error.Some? <==> s.failed > 0)
  {
    var p, j0 := PlanOf(c), PoolJob(c, j);
    PoolJobMeans(c, j);
    hide JobDirs, JobFiles, JobBytes, DirsJob, MakeDirs, PoolJob, Prepared, Run;
    RunGeneral(p, j0, c.threads, schedule);
    RunWorkers(p, Start(p, j0, c.threads), schedule);
    StoppedTallied(p, j0, PoolRun(c, j, schedule));
  }

  /** If files do not collide, every schedule ends like one thread in list order. */
  lemma PoolAgrees(c: Config, j: Job, schedule: seq<nat>)
    requires ValidConfig(c) && c.src in c.fs && j == NewJob(c.op, j.src, j.dst) && FilesApart(c)
    requires AllStopped(PoolRun(c, j, schedule))
    ensures var s, t := PoolRun(c, j, schedule), InOrder(PlanOf(c), |JobFiles(c)|);
            && s.fs == t.fs && s.failed == t.failed && s.job.doneBytes == t.doneBytes
            && Ended(c, s) == SlowFs(c)
  {
    var p, j0 := PlanOf(c), PoolJob(c, j);
    PoolJobMeans(c, j);
    PlanValid(c);
    PreparedKeeps(c);
    hide JobDirs, JobFiles, JobBytes, DirsJob, MakeDirs, PoolJob, Prepared, Run, ValidPlan;
    EveryScheduleAgrees(p, j0, c.threads, schedule);
  }

  /** If no file goes to the place of a smaller one, the record is within its bounds at
      every moment of the pool. */
  lemma PoolSane(c: Config, j: Job, schedule: seq<nat>)
    requires ValidConfig(c) && c.src in c.fs && j == NewJob(c.op, j.src, j.dst) && FilesFit(c)
    ensures Sane(PoolRun(c, j, schedule).job)
  {
    var p, j0 := PlanOf(c), PoolJob(c, j);
    PoolJobMeans(c, j);
    PlanWalked(c);
    FitsMeans(c);
    PreparedKeeps(c);
    JobBytesAreLengths(c);
    assert |p.files| == |JobFiles(c)|;
    hide JobDirs, JobFiles, JobBytes, DirsJob, MakeDirs, PoolJob, Prepared, Run, Walked, SizesFit, Lengths, SumIn,
         FirstN;
    CountersSane(p, j0, c.threads, schedule);
  }

  // ----- the code of run_job -----

  /** `run_job`, for any two paths.  An unreadable source ends the job with nothing
      done, the fast path renames the tree, and otherwise the job ends as some schedule
      of the pool does: all files are tallied, and an error is set exactly when some
      file failed.  If no file goes to the place of a smaller one, the counters are
      within their bounds; and if none goes to the place of any, the outcome is the same
      for every schedule. */
  method RunJob(c: Config, j: Job) returns (fs: FS, job: Job, ghost schedule: seq<nat>)
    requires ValidConfig(c) && j == NewJob(c.op, j.src, j.dst)
    ensures !Readable(c.fs, c.walkBad, c.src) ==>
              fs == c.fs && job == j.(status := Failed, error := Some(c.src))
    ensures Readable(c.fs, c.walkBad, c.src) && TakesFastPath(c) ==>
              && fs == JobFs(c)
              && job == Begun(c, j).(doneFiles := |JobFiles(c)|, doneDirs := |JobDirs(c)|,
                                     doneBytes := JobBytes(c), status := Done)
    ensures Readable(c.fs, c.walkBad, c.src) && !TakesFastPath(c) ==>
              var s := PoolRun(c, j, schedule);
              && AllStopped(s) && fs == Ended(c, s) && job == s.job.(status := Done)
              && job.totalFiles == job.doneFiles == |JobFiles(c)|
              && job.totalDirs == |JobDirs(c)| && job.doneDirs == Prepared(c).1
              && job.totalBytes == JobBytes(c) && (job.error.Some? <==> s.failed > 0)
    ensures FilesFit(c) ==> Sane(job)
    ensures FilesApart(c) ==> fs == JobFs(c)
    ensures Readable(c.fs, c.walkBad, c.src) && !TakesFastPath(c) && FilesApart(c) ==>
              var t := InOrder(PlanOf(c), |JobFiles(c)|);
              job.doneBytes == t.doneBytes && (job.error.Some? <==> t.failed > 0)
  {
    job := j.(status := Running);
    fs, schedule := c.fs, [];
    var walk := new Walk();
    assert c.src == c.src + [];
    var ok := walk.WalkFiles(c.fs, c.ls, c.walkBad, c.src, c.src, []);
    if !ok {
      job := job.(status := Failed, error := Some(c.src));
      return;
    }
    assert c.src in c.fs;
    WalkedLists(c, walk.files, walk.dirs, walk.bytes);
    job := job.(totalFiles := |walk.files|, totalDirs := |walk.dirs|, totalBytes := walk.bytes);
    hide JobFiles, JobDirs, JobBytes, FilesApart, FilesFit, PoolRun, SlowFs;

    if c.op == Move && SameDrive(c) && c.dst !in c.fs
      && c.treeRename && c.dst != [] && IsDir(c.fs, Parent(c.dst)) && !Under(c.src, c.dst) {
      FreshIsDisjoint(c);
      fs := RenameTree(c.fs, c.src, c.dst);
      job := job.(doneFiles := job.totalFiles, doneDirs := job.totalDirs,
                  doneBytes := job.totalBytes, status := Done);
      return;
    }

    fs, job, schedule := TransferTree(c, job, walk.dirs, j);
  }

  /** The slow path: directories, then the pool, then for a move the source tree. */
  method TransferTree(c: Config, j1: Job, dirs: seq<Path>, ghost j: Job)
    returns (fs: FS, job: Job, ghost schedule: seq<nat>)
    requires ValidConfig(c) && c.src in c.fs && dirs == JobDirs(c)
    requires j == NewJob(c.op, j.src, j.dst) && j1 == Begun(c, j)
    ensures var s := PoolRun(c, j, schedule);
            && AllStopped(s) && fs == Ended(c, s) && job == s.job.(status := Done)
            && job == j1.(doneDirs := Prepared(c).1, doneFiles := |JobFiles(c)|, doneBytes := s.job.doneBytes,
                          current := job.current, error := job.error, status := Done)
            && (job.error.Some? <==> s.failed > 0)
    ensures FilesFit(c) ==> Sane(job)
    ensures FilesApart(c) ==>
              var t := InOrder(PlanOf(c), |JobFiles(c)|);
              && fs == SlowFs(c) && job.doneBytes == t.doneBytes
              && (job.error.Some? <==> t.failed > 0)
  {
    fs, job := MakeDirectories(c, j1, dirs);
    var s;
    s, schedule := RunPool(PlanOf(c), job, c.threads);
    assert s == PoolRun(c, j, schedule);
    PoolStopped(c, j, schedule);
    hide JobDirs, JobFiles, JobBytes, DirsJob, MakeDirs, PoolJob, Prepared, Run, PoolRun, SlowFs;
    if FilesApart(c) { PoolAgrees(c, j, schedule); }
    if FilesFit(c) { PoolSane(c, j, schedule); }
    fs := s.fs;
    job := s.job;
    if c.op == Move && s.failed == 0 {
      fs := RemoveSource(fs, c.src, c.kept);
    }
    job := job.(status := Done);
  }

  /** The loop that makes the directories and announces each one made. */
  method MakeDirectories(c: Config, j: Job, dirs: seq<Path>) returns (fs: FS, job: Job)
    requires Lists(c.ls, c.fs)
    ensures fs == MakeDirs(c.fs, c.mkdirBad, c.dst, dirs).0
    ensures job == DirsJob(c.fs, c.mkdirBad, c.dst, dirs, j)
  {
    fs, job := c.fs, j;
    hide MkdirAll, Lists, TargetPath;
    for i := 0 to |dirs|
      invariant fs == MakeDirs(c.fs, c.mkdirBad, c.dst, dirs[..i]).0
      invariant job == DirsJob(c.fs, c.mkdirBad, c.dst, dirs[..i], j)
    {
      assert dirs[..i + 1][..i] == dirs[..i];
      var df := TargetPath(c.dst, dirs[i]);
      var (fs1, made) := MkdirAll(fs, c.mkdirBad, df);
      fs := fs1;
      if made {
        job := Announce(job.(doneDirs := job.doneDirs + 1), df);
      }
    }
    assert dirs[..|dirs|] == dirs;
  }

  /** What the walk has pushed is what the job's lists are defined to be. */
  lemma WalkedLists(c: Config, files: seq<(Path, Path)>, dirs: seq<Path>, bytes: nat)
    requires ValidConfig(c)
    requires Haul(files, dirs, bytes) == Take(Haul([], [], 0), c.fs, c.ls, c.src, |c.src|)
    ensures |files| == |JobFiles(c)| && dirs == JobDirs(c) && bytes == JobBytes(c)
    ensures forall i :: 0 <= i < |files| ==> files[i] == (c.src + JobFiles(c)[i], JobFiles(c)[i])
  {
    var all := Preorder(c.fs, c.ls, c.src);
    PreorderVisits(c.fs, c.ls, c.src);
    SelectMembers(c.fs, all);
    SelectParentsFirst(c.fs, all);
    RelsOf(FilesIn(c.fs, all), c.src);
    assert files == WithRel(FilesIn(c.fs, all), |c.src|);
  }

  lemma JobBytesAreLengths(c: Config)
    requires ValidConfig(c) && c.src in c.fs
    ensures SumIn(Lengths(PlanOf(c)), FirstN(|JobFiles(c)|)) == JobBytes(c)
  {
    var p, files := PlanOf(c), WalkedFiles(c.fs, c.ls, c.src);
    PlanWalked(c);
    var all := Preorder(c.fs, c.ls, c.src);
    PreorderVisits(c.fs, c.ls, c.src);
    SelectMembers(c.fs, all);
    SelectParentsFirst(c.fs, all);
    RelsOf(files, c.src);
    forall i | 0 <= i < |files| ensures Agree(p.fs, c.fs, files[i]) { assert files[i] in files; }
    BytesAreLengths(c, files, p);
  }
}
