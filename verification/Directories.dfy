/** Which directories a job can make and where its files can be placed, said about the
    initial filesystem only. */
module Directories {
  import opened FileSystem
  import opened TreeWalk
  import opened MoveJob

  /** Nothing is in the way of the directory `d`, or of any above it. */
  ghost predicate Passable(fs: FS, bad: set<Path>, d: Path) {
    forall a | Under(a, d) :: !IsFile(fs, a) && (a in bad ==> a in fs)
  }

  ghost predicate AllPassable(c: Config)
    requires Lists(c.ls, c.fs)
  {
    forall r :: r in JobDirs(c) ==> Passable(c.fs, c.mkdirBad, c.dst + r)
  }

  /** No directory is in the place of the file `r`, and the directory it goes into is
      there or can be made. */
  ghost predicate Placeable(c: Config, r: Path) {
    && c.dst + r != [] && !IsDir(c.fs, c.dst + r)
    && if r == [] then IsDir(c.fs, Parent(c.dst)) else Passable(c.fs, c.mkdirBad, c.dst + Parent(r))
  }

  ghost predicate AddedFor(c: Config, fs1: FS, dirs: seq<Path>, a: Path) {
    a in fs1 && fs1[a] == Dir && a !in c.mkdirBad && exists r :: r in dirs && Under(a, c.dst + r)
  }

  /** What is new after trying to make the directories: directories on the way to them. */
  ghost predicate OnlyAdded(c: Config, fs1: FS, dirs: seq<Path>) {
    && WellFormed(fs1)
    && (forall a :: a in c.fs ==> a in fs1 && fs1[a] == c.fs[a])
    && (forall a :: a in fs1 && a !in c.fs ==> AddedFor(c, fs1, dirs, a))
  }

  /** Those that can be made are there, and `made` tells whether that is all. */
  ghost predicate MadeSome(c: Config, fs1: FS, made: nat, dirs: seq<Path>) {
    && made <= |dirs|
    && (forall r :: r in dirs && Passable(c.fs, c.mkdirBad, c.dst + r) ==> IsDir(fs1, c.dst + r))
    && (made == |dirs| <==> forall r :: r in dirs ==> Passable(c.fs, c.mkdirBad, c.dst + r))
  }

  ghost predicate DirsMade(c: Config, fs1: FS, made: nat, dirs: seq<Path>) {
    OnlyAdded(c, fs1, dirs) && MadeSome(c, fs1, made, dirs)
  }

  /** On the way, making a directory works exactly when it would have at the start. */
  lemma MkdirLater(c: Config, fs1: FS, made: nat, dirs: seq<Path>, r: Path)
    requires ValidConfig(c) && DirsMade(c, fs1, made, dirs)
    ensures MkdirAll(fs1, c.mkdirBad, c.dst + r).1 <==> Passable(c.fs, c.mkdirBad, c.dst + r)
  {
    assert [] in fs1;
    MkdirAllSucceeds(fs1, c.mkdirBad, c.dst + r);
    hide MkdirAll;
  }

  lemma MoreAdded(c: Config, fs1: FS, dirs: seq<Path>, r: Path, fs2: FS)
    requires OnlyAdded(c, fs1, dirs) && fs2 == MkdirAll(fs1, c.mkdirBad, c.dst + r).0
    ensures OnlyAdded(c, fs2, dirs + [r])
  {
    hide MkdirAll, Under;
    var more := dirs + [r];
    forall a | a in fs2 && a !in c.fs ensures AddedFor(c, fs2, more, a) {
      if a in fs1 {
        var x :| x in dirs && Under(a, c.dst + x);
        assert x in more;
      } else {
        assert r in more;
      }
    }
  }

  lemma MoreMade(c: Config, fs1: FS, made: nat, dirs: seq<Path>, r: Path, fs2: FS, ok: bool)
    requires MadeSome(c, fs1, made, dirs) && MkdirAll(fs1, c.mkdirBad, c.dst + r) == (fs2, ok)
    requires ok <==> Passable(c.fs, c.mkdirBad, c.dst + r)
    ensures MadeSome(c, fs2, if ok then made + 1 else made, dirs + [r])
  {
    hide MkdirAll, Passable;
    var more := dirs + [r];
    assert r in more && forall x :: x in more <==> x in dirs || x == r;
    forall x | x in more && Passable(c.fs, c.mkdirBad, c.dst + x) ensures IsDir(fs2, c.dst + x) {
      if x in dirs { assert IsDir(fs1, c.dst + x); }
    }
  }

  lemma MoreDirs(c: Config, fs1: FS, made: nat, dirs: seq<Path>, r: Path)
    requires ValidConfig(c) && DirsMade(c, fs1, made, dirs)
    ensures var (fs2, ok) := MkdirAll(fs1, c.mkdirBad, c.dst + r);
            DirsMade(c, fs2, if ok then made + 1 else made, dirs + [r])
  {
    MkdirLater(c, fs1, made, dirs, r);
    var (fs2, ok) := MkdirAll(fs1, c.mkdirBad, c.dst + r);
    hide MkdirAll, Passable, MadeSome, OnlyAdded;
    MoreAdded(c, fs1, dirs, r, fs2);
    MoreMade(c, fs1, made, dirs, r, fs2, ok);
  }

  lemma NoDirs(c: Config)
    requires ValidConfig(c)
    ensures DirsMade(c, MakeDirs(c.fs, c.mkdirBad, c.dst, []).0, MakeDirs(c.fs, c.mkdirBad, c.dst, []).1, [])
  {
  }

  /** The loop makes exactly the directories nothing is in the way of, whether or not
      the others can be made. */
  lemma {:induction false} JobMakes(c: Config, dirs: seq<Path>)
    requires ValidConfig(c)
    ensures DirsMade(c, MakeDirs(c.fs, c.mkdirBad, c.dst, dirs).0, MakeDirs(c.fs, c.mkdirBad, c.dst, dirs).1, dirs)
  {
    hide *;
    if dirs == [] {
      NoDirs(c);
    } else {
      var init, r := dirs[..|dirs| - 1], dirs[|dirs| - 1];
      assert dirs == init + [r];
      JobMakes(c, init);
      MakeDirsSnoc(c.fs, c.mkdirBad, c.dst, init, r);
      var (fs1, made) := MakeDirs(c.fs, c.mkdirBad, c.dst, init);
      MoreDirs(c, fs1, made, init, r);
    }
  }

  lemma JobPrepared(c: Config)
    requires ValidConfig(c)
    ensures DirsMade(c, Prepared(c).0, Prepared(c).1, JobDirs(c))
  {
    hide DirsMade;
    JobMakes(c, JobDirs(c));
  }

  lemma DirListed(c: Config, r: Path)
    requires ValidConfig(c) && c.src in c.fs
    ensures r in JobDirs(c) <==> IsDir(c.fs, c.src + r)
    ensures r in JobFiles(c) <==> IsFile(c.fs, c.src + r)
  {
    WalkLists(c);
  }

  /** A file is above no directory of the tree. */
  lemma FileAboveNothing(c: Config, r: Path, d: Path)
    requires ValidConfig(c) && IsFile(c.fs, c.src + r) && IsDir(c.fs, c.src + d)
    ensures !Under(c.dst + r, c.dst + d)
  {
    UnderCancel(c.dst, r, d);
    UnderCancel(c.src, r, d);
    hide Under;
    if Under(c.src + r, c.src + d) {
      AncestorsAreDirs(c.fs, c.src + d, c.src + r);
    }
  }

  /** Where a file goes there is a directory only if there was one before. */
  lemma FilePlaceKept(c: Config, r: Path)
    requires ValidConfig(c) && c.src in c.fs && IsFile(c.fs, c.src + r)
    ensures IsDir(Prepared(c).0, c.dst + r) <==> IsDir(c.fs, c.dst + r)
  {
    var a, fs1 := c.dst + r, Prepared(c).0;
    JobPrepared(c);
    hide JobDirs, Prepared, MadeSome, Under;
    if a in fs1 && a !in c.fs {
      assert AddedFor(c, fs1, JobDirs(c), a);
      var d :| d in JobDirs(c) && Under(a, c.dst + d);
      DirListed(c, d);
      FileAboveNothing(c, r, d);
      assert false;
    }
  }

  /** For a single file no directories are made. */
  lemma RootFileKept(c: Config, a: Path)
    requires ValidConfig(c) && IsFile(c.fs, c.src)
    ensures Agree(Prepared(c).0, c.fs, a)
  {
    var fs1 := Prepared(c).0;
    JobPrepared(c);
    hide JobDirs, Prepared, MadeSome;
    if a in fs1 && a !in c.fs {
      assert AddedFor(c, fs1, JobDirs(c), a);
      var d :| d in JobDirs(c) && Under(a, c.dst + d);
      DirListed(c, d);
      assert c.src + [] == c.src && Under(c.src, c.src + d);
      if d != [] { AncestorsAreDirs(c.fs, c.src + d, c.src); }
      assert false;
    }
  }

  /** The directory a file of the job goes into. */
  lemma FileParent(c: Config, r: Path)
    requires ValidConfig(c) && c.src in c.fs && IsFile(c.fs, c.src + r) && r != []
    ensures Parent(c.dst + r) == c.dst + Parent(r) && c.dst + r != []
    ensures Passable(c.fs, c.mkdirBad, c.dst + Parent(r)) ==> IsDir(Prepared(c).0, c.dst + Parent(r))
    ensures AllPassable(c) ==> Passable(c.fs, c.mkdirBad, c.dst + Parent(r))
  {
    assert Parent(c.src + r) == c.src + Parent(r);
    assert IsDir(c.fs, c.src + Parent(r));
    DirListed(c, Parent(r));
    JobPrepared(c);
    hide JobDirs, Prepared, Passable, OnlyAdded;
  }

  /** After the directories have been made a file can be placed if it could be by the
      initial filesystem; and only then, if all of them could be made. */
  lemma FilePlaces(c: Config, r: Path)
    requires ValidConfig(c) && c.src in c.fs && IsFile(c.fs, c.src + r)
    ensures Placeable(c, r) ==> CanPlace(Prepared(c).0, c.dst + r)
    ensures AllPassable(c) && CanPlace(Prepared(c).0, c.dst + r) ==> Placeable(c, r)
  {
    FilePlaceKept(c, r);
    hide Prepared, Passable, AllPassable;
    if r == [] {
      assert c.src + r == c.src && c.dst + r == c.dst;
      if c.dst != [] { RootFileKept(c, Parent(c.dst)); }
    } else {
      FileParent(c, r);
    }
  }
}
