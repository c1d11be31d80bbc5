/** Small inputs on which a job does not do what one might expect of it. */
module Examples {
  import opened FileSystem
  import opened TreeWalk
  import opened Jobs
  import opened Sums
  import opened TransferPool
  import opened AnyPlan
  import opened TransferTheorems
  import opened MoveJob
  import opened MoveTheorems
  import opened FastPath
  import opened Directories
  import opened Overlap
  import opened JobCollisions
  import opened FreeName

  // ----- a file whose size cannot be read -----

  /** All calls work, except perhaps reading the size. */
  function Easy(statOk: bool): FileIO {
    FileIO(statOk, Renamed, true, true, n => 1, None, true)
  }

  /** The file is copied and no error is reported, yet its bytes are not counted: the
      job ends with fewer bytes done than in total. */
  lemma StatFailureHidesBytes(b: byte)
    ensures var p := Plan(Copy, ["a"], ["b"], false, [[]], [Easy(false)], map[[] := Dir, ["a"] := File([b])]);
            && ValidPlan(p) && InOrder(p, 1).failed == 0 && HasContent(InOrder(p, 1).fs, ["b"], [b])
            && InOrder(p, 1).doneBytes == 0 < SumIn(Lengths(p), FirstN(1))
  {
    var fs: FS := map[[] := Dir, ["a"] := File([b])];
    var p := Plan(Copy, ["a"], ["b"], false, [[]], [Easy(false)], fs);
    assert Source(p, 0) == ["a"] && Target(p, 0) == ["b"] && Parent(["b"]) == [];
    assert ["a"][0] != ["b"][0];
    assert InOrder(p, 0) == Totals(fs, 0, 0, 0);
    assert Lengths(p)[0] == 1 && SumIn(Lengths(p)[..0], FirstN(1)) == 0;
    assert 0 in FirstN(1);
  }

  // ----- destinations that overlap the source -----

  /** The entries of a directory of a filesystem whose only file is `f`, with all the
      directories above it and no other. */
  function ChainListing(f: Path): Listing {
    p => if |p| < |f| && Under(p, f) then [f[|p|]] else []
  }

  ghost predicate Chain(fs: FS, f: Path) {
    f != [] && forall q :: (q in fs <==> Under(q, f)) && (q in fs ==> (fs[q] == Dir <==> q != f))
  }

  lemma ChainLists(fs: FS, f: Path)
    requires Chain(fs, f)
    ensures WellFormed(fs) && [] in fs && Lists(ChainListing(f), fs)
  {
    forall q | q in fs && q != [] ensures IsDir(fs, Parent(q)) {
      assert Under(Parent(q), f) && |Parent(q)| < |f|;
    }
    assert Under([], f);
    forall p | IsDir(fs, p)
      ensures Distinct(ChainListing(f)(p)) && forall n :: n in ChainListing(f)(p) <==> p + [n] in fs
    {
      assert |p| < |f|;
      forall n ensures n == f[|p|] <==> Under(p + [n], f) {
        ThroughChild(p, n, f);
      }
    }
  }

  /** Moving the directory `src` on such a filesystem, with every call working. */
  function ChainMove(fs: FS, f: Path, src: Path, dst: Path): Config {
    Config(fs, ChainListing(f), Move, src, dst, [], {}, {}, _ => Easy(true), true, {}, 8)
  }

  /** Nothing is in the way of anything. */
  ghost predicate Unblocked(f: Path, dst: Path, rel: Path) {
    && rel != [] && dst + rel != []
    && (forall r :: Under(r, rel) && r != rel ==> !Under(f, dst + r))
    && (Under(dst + rel, f) ==> dst + rel == f)
  }

  lemma ChainPassable(fs: FS, f: Path, d: Path)
    requires Chain(fs, f) && !Under(f, d)
    ensures Passable(fs, {}, d)
  {
    forall a | Under(a, d) ensures !IsFile(fs, a) { assert IsFile(fs, a) ==> a == f; }
  }

  /** What such a job walks: one file, and directories above it. */
  lemma ChainWalk(fs: FS, f: Path, src: Path, dst: Path, rel: Path)
    requires Chain(fs, f) && f == src + rel && rel != []
    ensures var c := ChainMove(fs, f, src, dst);
            && ValidConfig(c) && c.src in c.fs && IsDir(fs, src)
            && (forall r :: r in JobFiles(c) <==> r == rel)
            && (forall r :: r in JobDirs(c) ==> Under(r, rel) && r != rel)
  {
    var c := ChainMove(fs, f, src, dst);
    ChainLists(fs, f);
    assert Under(src, f) && src != f && f in fs by { assert |src| < |f|; assert Under(f, f); }
    WalkLists(c);
    hide JobFiles, JobDirs, Lists, WellFormed;
    forall r ensures IsFile(fs, src + r) <==> r == rel {
      if IsFile(fs, src + r) { assert r == (src + r)[|src|..] && src + r == f; }
    }
    forall r | r in JobDirs(c) ensures Under(r, rel) && r != rel { UnderCancel(src, r, rel); }
  }

  lemma ChainClear(fs: FS, f: Path, src: Path, dst: Path, rel: Path)
    requires Chain(fs, f) && f == src + rel && Unblocked(f, dst, rel)
    ensures var c := ChainMove(fs, f, src, dst);
            && ValidConfig(c) && c.src in c.fs && AllClear(c) && IsDir(fs, src)
            && forall r :: r in JobFiles(c) <==> r == rel
  {
    var c, up := ChainMove(fs, f, src, dst), Parent(rel);
    ChainWalk(fs, f, src, dst, rel);
    assert Readable(fs, {}, src) && NoCallFails(c);
    assert !IsDir(fs, dst + rel);
    assert Under(up, rel) && up != rel by { assert |up| < |rel|; }
    hide JobFiles, JobDirs, Chain, Passable, NoCallFails, ValidConfig;
    forall r | Under(r, rel) && r != rel ensures Passable(fs, {}, dst + r) {
      ChainPassable(fs, f, dst + r);
    }
    assert Placeable(c, rel);
  }

  /** The move has gone through without a failure and the one file is nowhere. */
  ghost predicate Lost(c: Config, j: Job, schedule: seq<nat>, rel: Path)
    requires ValidConfig(c)
  {
    var s := PoolRun(c, j, schedule);
    s.failed == 0 && c.src + rel !in Ended(c, s) && c.dst + rel !in Ended(c, s)
  }

  lemma ChainLost(fs: FS, f: Path, src: Path, dst: Path, rel: Path, j: Job, schedule: seq<nat>)
    requires Chain(fs, f) && f == src + rel && Unblocked(f, dst, rel) && Under(src, dst + rel)
    requires ValidConfig(ChainMove(fs, f, src, dst)) && j == NewJob(Move, j.src, j.dst)
    requires AllStopped(PoolRun(ChainMove(fs, f, src, dst), j, schedule))
    ensures Lost(ChainMove(fs, f, src, dst), j, schedule, rel)
  {
    var c := ChainMove(fs, f, src, dst);
    ChainClear(fs, f, src, dst, rel);
    hide AllClear, PoolRun, JobFiles;
    ClearNothingFails(c, j, schedule);
    InsideLost(c, j, schedule, rel);
  }

  /** The directory /a with one file, moved to /a/b: lost on every schedule. */
  lemma DestinationBelow(j: Job, schedule: seq<nat>)
    requires j == NewJob(Move, j.src, j.dst)
    ensures var fs: FS := map[[] := Dir, ["a"] := Dir, ["a", "f"] := File([])];
            var c := ChainMove(fs, ["a", "f"], ["a"], ["a", "b"]);
            && ValidConfig(c) && c.src != c.dst
            && (AllStopped(PoolRun(c, j, schedule)) ==> Lost(c, j, schedule, ["f"]))
  {
    var fs: FS := map[[] := Dir, ["a"] := Dir, ["a", "f"] := File([])];
    var f, src, dst, rel := ["a", "f"], ["a"], ["a", "b"], ["f"];
    var c := ChainMove(fs, f, src, dst);
    assert f == src + rel && dst + rel == ["a", "b", "f"];
    assert f[..0] == [] && f[..1] == src && f[..2] == f;
    forall q ensures q in fs <==> Under(q, f) { assert Under(q, f) ==> q == f[..|q|]; }
    forall r | Under(r, rel) && r != rel ensures !Under(f, dst + r) { assert r == []; assert (dst + r)[1] != f[1]; }
    assert (dst + rel)[1] != f[1];
    ChainClear(fs, f, src, dst, rel);
    hide PoolRun, AllClear;
    if AllStopped(PoolRun(c, j, schedule)) { ChainLost(fs, f, src, dst, rel, j, schedule); }
  }

  const DEEP: FS := map[[] := Dir, ["n"] := Dir, ["n", "n"] := Dir, ["n", "n", "n"] := Dir,
                        ["n", "n", "n", "f"] := File([])]

  lemma DeepChain()
    ensures Chain(DEEP, ["n", "n", "n", "f"]) && Unblocked(["n", "n", "n", "f"], ["n"], ["n", "f"])
    ensures ["n", "n"] + ["n", "f"] == ["n", "n", "n", "f"] && Under(["n", "n"], ["n"] + ["n", "f"])
  {
    var f, src, dst, rel := ["n", "n", "n", "f"], ["n", "n"], ["n"], ["n", "f"];
    assert dst + rel == ["n", "n", "f"];
    assert f[..0] == [] && f[..1] == dst && f[..2] == src && f[..3] == ["n", "n", "n"] && f[..4] == f;
    forall q ensures q in DEEP <==> Under(q, f) { assert Under(q, f) ==> q == f[..|q|]; }
    forall r | Under(r, rel) && r != rel ensures !Under(f, dst + r) { assert |dst + r| < |f|; }
    assert (dst + rel)[2] != f[2];
  }

  lemma DeepChosen()
    ensures Chosen(DEEP, ["n", "n"], [], Merge, ["n"]) && Above(["n"], ["n", "n"])
  {
    assert [] + [["n", "n"][1]] == ["n"];
  }

  /** The directory /n/n, whose file is /n/n/n/f, moved into / and merged with what is
      there of its name, so to /n: lost on every schedule, although the destination lies
      above the source. */
  lemma DestinationAbove(j: Job, schedule: seq<nat>)
    requires j == NewJob(Move, j.src, j.dst)
    ensures var c := ChainMove(DEEP, ["n", "n", "n", "f"], ["n", "n"], ["n"]);
            && ValidConfig(c) && Chosen(DEEP, c.src, [], Merge, c.dst) && Above(c.dst, c.src)
            && (AllStopped(PoolRun(c, j, schedule)) ==> Lost(c, j, schedule, ["n", "f"]))
  {
    var f, src, dst, rel := ["n", "n", "n", "f"], ["n", "n"], ["n"], ["n", "f"];
    var c := ChainMove(DEEP, f, src, dst);
    DeepChain();
    DeepChosen();
    hide Chain, Unblocked, Chosen, Above, PoolRun, AllClear, JobFiles, Lost;
    ChainClear(DEEP, f, src, dst, rel);
    if AllStopped(PoolRun(c, j, schedule)) { ChainLost(DEEP, f, src, dst, rel, j, schedule); }
  }

  /** The directory /n/n with one file, moved to /n: safe on every schedule, although
      the two paths overlap. */
  lemma OverlapCanBeSafe(j: Job, schedule: seq<nat>)
    requires j == NewJob(Move, j.src, j.dst)
    ensures var fs: FS := map[[] := Dir, ["n"] := Dir, ["n", "n"] := Dir, ["n", "n", "f"] := File([])];
            var c := ChainMove(fs, ["n", "n", "f"], ["n", "n"], ["n"]);
            && ValidConfig(c) && c.src in c.fs && Above(c.dst, c.src)
            && (AllStopped(PoolRun(c, j, schedule)) ==> AllKept(c, Ended(c, PoolRun(c, j, schedule))))
  {
    var fs: FS := map[[] := Dir, ["n"] := Dir, ["n", "n"] := Dir, ["n", "n", "f"] := File([])];
    var f, src, dst, rel := ["n", "n", "f"], ["n", "n"], ["n"], ["f"];
    var c := ChainMove(fs, f, src, dst);
    assert f == src + rel && dst + rel == ["n", "f"];
    assert f[..0] == [] && f[..1] == dst && f[..2] == src && f[..3] == f;
    forall q ensures q in fs <==> Under(q, f) { assert Under(q, f) ==> q == f[..|q|]; }
    forall r | Under(r, rel) && r != rel ensures !Under(f, dst + r) { assert |dst + r| < |f|; }
    assert (dst + rel)[1] != f[1] && (dst + rel)[1] != src[1];
    ChainClear(fs, f, src, dst, rel);
    assert TargetsOutside(c) && Under(dst, src) && !TakesFastPath(c);
    hide PoolRun, AllClear;
    if AllStopped(PoolRun(c, j, schedule)) { OutsideKept(c, j, schedule); }
  }

  // ----- files that collide -----

  /** Two files of the directory /n/n: /n/n/n/f, with one byte, and /n/n/f, which is empty. */
  function TwoFiles(b: byte): FS {
    map[[] := Dir, ["n"] := Dir, ["n", "n"] := Dir, ["n", "n", "n"] := Dir,
        ["n", "n", "n", "f"] := File([b]), ["n", "n", "f"] := File([])]
  }

  function TwoFilesListing(p: Path): seq<string> {
    if p == ["n", "n"] then ["n", "f"] else if p == ["n", "n", "n"] then ["f"] else ["n"]
  }

  lemma OneMore(p: Path, n: string, a: Path, m: string)
    ensures p + [n] == a + [m] <==> p == a && n == m
  {
    if p + [n] == a + [m] {
      assert p == (p + [n])[..|p|] && a == (a + [m])[..|a|];
      assert (p + [n])[|p|] == n && (a + [m])[|a|] == m;
    }
  }

  lemma TwoFilesEntries(b: byte, p: Path, n: string)
    ensures p + [n] in TwoFiles(b) <==>
            || (n == "n" && (p == [] || p == ["n"] || p == ["n", "n"]))
            || (n == "f" && (p == ["n", "n"] || p == ["n", "n", "n"]))
  {
    OneMore(p, n, [], "n");
    OneMore(p, n, ["n"], "n");
    OneMore(p, n, ["n", "n"], "n");
    OneMore(p, n, ["n", "n"], "f");
    OneMore(p, n, ["n", "n", "n"], "f");
    assert [] + ["n"] == ["n"] && ["n"] + ["n"] == ["n", "n"] && ["n", "n"] + ["n"] == ["n", "n", "n"];
    assert ["n", "n"] + ["f"] == ["n", "n", "f"] && ["n", "n", "n"] + ["f"] == ["n", "n", "n", "f"];
  }

  lemma TwoFilesLists(b: byte)
    ensures var fs := TwoFiles(b); WellFormed(fs) && [] in fs && Lists(TwoFilesListing, fs)
  {
    var fs := TwoFiles(b);
    forall q | q in fs && q != [] ensures IsDir(fs, Parent(q)) {
      assert q == Parent(q) + [q[|q| - 1]];
      TwoFilesEntries(b, Parent(q), q[|q| - 1]);
    }
    forall p | IsDir(fs, p)
      ensures Distinct(TwoFilesListing(p)) && forall n :: n in TwoFilesListing(p) <==> p + [n] in fs
    {
      forall n ensures n in TwoFilesListing(p) <==> p + [n] in fs { TwoFilesEntries(b, p, n); }
    }
  }

  /** The directory moved into / and merged with what is there of its name, so to /n: then
      /n/n/n/f goes to the place of /n/n/f. */
  function TwoFilesMove(b: byte): Config {
    Config(TwoFiles(b), TwoFilesListing, Move, ["n", "n"], ["n"], [], {}, {}, _ => Easy(true), true, {}, 8)
  }

  lemma BelowSource(b: byte, r: Path)
    ensures IsFile(TwoFiles(b), ["n", "n"] + r) <==> r == ["f"] || r == ["n", "f"]
    ensures IsDir(TwoFiles(b), ["n", "n"] + r) <==> r == [] || r == ["n"]
  {
    var q, src := ["n", "n"] + r, ["n", "n"];
    assert r == q[2..] && q[..2] == src;
    assert src + [] == src && src + ["n"] == ["n", "n", "n"];
    assert src + ["f"] == ["n", "n", "f"] && src + ["n", "f"] == ["n", "n", "n", "f"];
    assert ["n", "n"][2..] == [] && ["n", "n", "n"][2..] == ["n"];
    assert ["n", "n", "f"][2..] == ["f"] && ["n", "n", "n", "f"][2..] == ["n", "f"];
  }

  lemma TwoFilesWalk(b: byte)
    ensures var c := TwoFilesMove(b);
            && ValidConfig(c) && c.src in c.fs && IsDir(c.fs, c.src)
            && (forall r :: r in JobFiles(c) <==> r == ["f"] || r == ["n", "f"])
            && (forall r :: r in JobDirs(c) <==> r == [] || r == ["n"])
            && |JobFiles(c)| <= 2
  {
    var c := TwoFilesMove(b);
    TwoFilesLists(b);
    WalkLists(c);
    hide JobFiles, JobDirs, Lists, WellFormed;
    forall r ensures r in JobFiles(c) <==> r == ["f"] || r == ["n", "f"] { BelowSource(b, r); }
    forall r ensures r in JobDirs(c) <==> r == [] || r == ["n"] { BelowSource(b, r); }
    TwoAtMost(JobFiles(c), ["f"], ["n", "f"]);
  }

  lemma TwoFilesPlaced(b: byte)
    ensures var c := TwoFilesMove(b); Placeable(c, ["f"]) && Placeable(c, ["n", "f"])
  {
    Passes(b, []);
    Passes(b, ["n"]);
    hide Passable;
    assert ["n"] + ["f"] == ["n", "f"] && ["n"] + ["n", "f"] == ["n", "n", "f"];
    assert Parent(["f"]) == [] && Parent(["n", "f"]) == ["n"];
  }

  lemma TwoFilesClear(b: byte)
    ensures var c := TwoFilesMove(b);
            && ValidConfig(c) && c.src in c.fs && IsDir(c.fs, c.src) && AllClear(c) && RenamesAll(c)
            && (forall r :: r in JobFiles(c) <==> r == ["f"] || r == ["n", "f"])
            && |JobFiles(c)| <= 2
  {
    var c := TwoFilesMove(b);
    TwoFilesWalk(b);
    assert Readable(c.fs, {}, c.src) && NoCallFails(c) && RenamesAll(c);
    hide JobFiles, JobDirs, ValidConfig, NoCallFails, Passable, Placeable, RenamesAll;
    Passes(b, []);
    Passes(b, ["n"]);
    TwoFilesPlaced(b);
    assert AllPassable(c);
  }

  lemma Passes(b: byte, r: Path)
    requires r == [] || r == ["n"]
    ensures Passable(TwoFiles(b), {}, ["n"] + r)
  {
    var d := ["n"] + r;
    forall a | Under(a, d) ensures !IsFile(TwoFiles(b), a) {
      assert a == d[..|a|] && |a| <= 2;
    }
  }

  lemma TwoAtMost(s: seq<Path>, x: Path, y: Path)
    requires ParentsFirst(s) && forall r :: r in s ==> r == x || r == y
    ensures |s| <= 2
  {
    if |s| > 2 {
      assert s[0] in s && s[1] in s && s[2] in s;
      assert forall i :: 0 <= i < |s| ==> Under(s[i], s[i]);
    }
  }

  /** A file that goes to the place of a smaller one, which goes out of the source. */
  lemma LargerComes(c: Config, r: Path, t: Path)
    requires ValidConfig(c) && r in JobFiles(c) && t in JobFiles(c) && c.dst + r == c.src + t
    requires FileSize(c, r) > FileSize(c, t) && !Under(c.src, c.dst + t)
    ensures !FilesFit(c) && !FilesMatch(c)
  {
    assert ComesOut(c, t) && r != t && FileData(c, r) != FileData(c, t);
  }

  lemma TwoPlaces(b: byte)
    ensures var c, r, t := TwoFilesMove(b), ["n", "f"], ["f"];
            && c.dst + r == c.src + t && FileSize(c, r) == 1 && FileSize(c, t) == 0 && !Under(c.src, c.dst + t)
  {
    var c, r, t := TwoFilesMove(b), ["n", "f"], ["f"];
    assert c.dst + r == c.src + t == ["n", "n", "f"] && c.src + r == ["n", "n", "n", "f"];
    assert c.dst + t == ["n", "f"] && (c.dst + t)[1] != c.src[1];
  }

  lemma TwoFilesChosen(b: byte)
    ensures var c := TwoFilesMove(b); Chosen(c.fs, c.src, [], Merge, c.dst)
  {
    assert [] + [["n", "n"][1]] == ["n"];
  }

  lemma TwoFilesCollide(b: byte)
    ensures var c := TwoFilesMove(b);
            ValidConfig(c) && Chosen(c.fs, c.src, [], Merge, c.dst) && !FilesFit(c) && !FilesMatch(c)
  {
    TwoFilesChosen(b);
    TwoPlaces(b);
    hide *;
    TwoFilesClear(b);
    LargerComes(TwoFilesMove(b), ["n", "f"], ["f"]);
  }

  /** Which of the two is moved first decides whether the byte arrives at /n/f. */
  lemma CollisionDependsOnSchedule(b: byte, j: Job)
    requires j == NewJob(Move, j.src, j.dst)
    ensures var c := TwoFilesMove(b);
            && Started(c, j) && AllClear(c) && Chosen(c.fs, c.src, [], Merge, c.dst)
            && exists x: seq<nat>, y: seq<nat> ::
                 && AllStopped(PoolRun(c, j, x)) && AllStopped(PoolRun(c, j, y))
                 && Ended(c, PoolRun(c, j, x)) != Ended(c, PoolRun(c, j, y))
  {
    hide AllClear, PoolRun, FilesMatch, JobFiles, Chosen, FilesFit, ValidConfig, RenamesAll;
    TwoFilesClear(b);
    TwoFilesCollide(b);
    MoveAlikeExactly(TwoFilesMove(b), j);
  }

  /** And if all sizes but that of the smaller file are read before the larger one comes to
      its place, more bytes are counted than there are. */
  lemma CollisionOvercounts(b: byte, j: Job)
    requires j == NewJob(Move, j.src, j.dst)
    ensures var c := TwoFilesMove(b);
            && Started(c, j) && AllClear(c) && Chosen(c.fs, c.src, [], Merge, c.dst)
            && exists m: Moment :: Happens(c, j, m) && JobAt(c, j, m).doneBytes > JobAt(c, j, m).totalBytes
  {
    hide AllClear, PoolRun, FilesMatch, JobFiles, Chosen, FilesFit, ValidConfig, RenamesAll, Happens, JobAt;
    TwoFilesClear(b);
    TwoFilesCollide(b);
    var c := TwoFilesMove(b);
    RecordSaneExactly(c, j);
    var m: Moment :| Happens(c, j, m) && !Sane(JobAt(c, j, m));
    RecordSane(c, j, m);
  }
}
