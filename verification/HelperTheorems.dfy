/** The helper's sequential copy and the job's parallel copy, compared. */
module HelperTheorems {
  import opened FileSystem
  import opened TreeWalk
  import opened Jobs
  import opened Sums
  import opened TransferPool
  import opened TransferProofs
  import opened TransferTheorems
  import opened MoveJob
  import opened MoveTheorems
  import opened Directories
  import opened HelperCopy

  // ----- when an entry can be copied, said about the initial filesystem only -----

  /** The calls for the file work, and it can be placed. */
  ghost predicate Arrives(c: Config, q: Path) {
    var r := RelTo(q, |c.src|);
    c.io(r).open && c.io(r).create && c.io(r).breakAt.None? && Placeable(c, r)
  }

  ghost predicate Good(c: Config, q: Path) {
    if IsDir(c.fs, q) then Passable(c.fs, c.mkdirBad, Dest(c, q)) && q !in c.walkBad else Arrives(c, q)
  }

  // ----- what is there after the entries in `s` have been copied -----

  /** The source entry that `a` is the destination of. */
  function Origin(c: Config, a: Path): Path {
    c.src + RelTo(a, |c.dst|)
  }

  predicate FileAt(c: Config, s: seq<Path>, a: Path) {
    Under(c.dst, a) && Origin(c, a) in s && IsFile(c.fs, Origin(c, a))
  }

  /** A directory among the entries goes to `a` or below it. */
  ghost predicate OnTheWay(c: Config, s: seq<Path>, a: Path) {
    exists q :: q in s && IsDir(c.fs, q) && Under(a, Dest(c, q))
  }

  ghost predicate LaidAt(c: Config, fs: FS, s: seq<Path>, a: Path) {
    if FileAt(c, s, a) then a in fs && fs[a] == c.fs[Origin(c, a)]
    else if a in c.fs then Agree(fs, c.fs, a)
    else (a in fs <==> OnTheWay(c, s, a)) && (a in fs ==> fs[a] == Dir)
  }

  ghost predicate Laid(c: Config, fs: FS, s: seq<Path>) {
    WellFormed(fs) && forall a :: LaidAt(c, fs, s, a)
  }

  /** That determines the filesystem. */
  lemma LaidUnique(c: Config, a: FS, b: FS, s: seq<Path>)
    requires Laid(c, a, s) && Laid(c, b, s)
    ensures a == b
  {
    hide FileAt, OnTheWay;
    forall q ensures Agree(a, b, q) {
      assert LaidAt(c, a, s, q) && LaidAt(c, b, s, q);
    }
    SameByAgreement(a, b);
  }

  /** Entries of the source tree, none of them below a file. */
  ghost predicate FromSource(c: Config, s: seq<Path>) {
    forall q :: q in s ==> q in c.fs && Under(c.src, q)
  }

  lemma DestOrigin(c: Config, q: Path)
    requires Under(c.src, q)
    ensures Under(c.dst, Dest(c, q)) && Origin(c, Dest(c, q)) == q
  {
    assert q == c.src + RelTo(q, |c.src|);
    assert RelTo(Dest(c, q), |c.dst|) == RelTo(q, |c.src|);
  }

  lemma OriginDest(c: Config, a: Path)
    requires Under(c.dst, a)
    ensures Under(c.src, Origin(c, a)) && Dest(c, Origin(c, a)) == a
  {
    assert a == c.dst + RelTo(a, |c.dst|);
    assert RelTo(Origin(c, a), |c.src|) == RelTo(a, |c.dst|);
  }

  /** A file's destination is on the way to no directory's. */
  lemma NoFileAbove(c: Config, s: seq<Path>, f: Path, q: Path)
    requires ValidCopy(c) && IsFile(c.fs, f) && Under(c.src, f)
    requires q in c.fs && Under(c.src, q) && IsDir(c.fs, q)
    ensures !Under(Dest(c, f), Dest(c, q))
  {
    hide Under, RelTo, ValidCopy, Dest;
    SplitSource(c, f);
    SplitSource(c, q);
    assert ValidConfig(c) by { JustConfig(c); }
    FileAboveNothing(c, RelTo(f, |c.src|), RelTo(q, |c.src|));
  }

  lemma JustConfig(c: Config)
    requires ValidCopy(c)
    ensures ValidConfig(c)
  {
  }

  lemma SplitSource(c: Config, q: Path)
    requires Under(c.src, q)
    ensures q == c.src + RelTo(q, |c.src|) && Dest(c, q) == c.dst + RelTo(q, |c.src|)
  {
  }

  /** What is in the way of a directory is what was in its way at the start. */
  lemma WayUnchanged(c: Config, fs: FS, s: seq<Path>, q: Path, a: Path)
    requires ValidCopy(c) && FromSource(c, s) && Laid(c, fs, s) && forall x :: x in s ==> Good(c, x)
    requires q in c.fs && Under(c.src, q) && IsDir(c.fs, q) && Under(a, Dest(c, q))
    ensures IsFile(fs, a) <==> IsFile(c.fs, a)
    ensures a in c.mkdirBad ==> (a in fs <==> a in c.fs)
  {
    assert LaidAt(c, fs, s, a);
    if FileAt(c, s, a) {
      OriginDest(c, a);
      NoFileAbove(c, s, Origin(c, a), q);
    }
    if a !in c.fs && OnTheWay(c, s, a) {
      var x :| x in s && IsDir(c.fs, x) && Under(a, Dest(c, x));
      assert Good(c, x) && Passable(c.fs, c.mkdirBad, Dest(c, x));
    }
  }

  lemma MkdirSucceeds(c: Config, fs: FS, s: seq<Path>, q: Path)
    requires ValidCopy(c) && FromSource(c, s) && Laid(c, fs, s) && forall x :: x in s ==> Good(c, x)
    requires q in c.fs && Under(c.src, q) && IsDir(c.fs, q)
    ensures One(c, fs, q).1 <==> Good(c, q)
  {
    assert [] in fs by { assert LaidAt(c, fs, s, []); RootIsNoFile(c, s); }
    MkdirAllSucceeds(fs, c.mkdirBad, Dest(c, q));
    forall a | Under(a, Dest(c, q))
      ensures !IsFile(fs, a) && (a in c.mkdirBad ==> a in fs) <==>
              !IsFile(c.fs, a) && (a in c.mkdirBad ==> a in c.fs)
    {
      WayUnchanged(c, fs, s, q, a);
    }
    hide Laid, Good, MkdirAll, FromSource;
    assert Good(c, q) <==> Passable(c.fs, c.mkdirBad, Dest(c, q)) && q !in c.walkBad by { GoodDir(c, q); }
  }

  lemma GoodDir(c: Config, q: Path)
    requires IsDir(c.fs, q)
    ensures Good(c, q) <==> Passable(c.fs, c.mkdirBad, Dest(c, q)) && q !in c.walkBad
  {
  }

  lemma RootIsNoFile(c: Config, s: seq<Path>)
    requires forall x :: x in s ==> Good(c, x)
    ensures !FileAt(c, s, [])
  {
    if Under(c.dst, []) && Origin(c, []) in s && IsFile(c.fs, Origin(c, [])) {
      assert Good(c, Origin(c, []));
      OriginDest(c, []);
      assert false;
    }
  }

  /** The source tree is not on the way of anything. */
  lemma LaidIntact(c: Config, fs: FS, s: seq<Path>, a: Path)
    requires ValidCopy(c) && FromSource(c, s) && Laid(c, fs, s) && Under(c.src, a)
    ensures Agree(fs, c.fs, a)
  {
    assert LaidAt(c, fs, s, a);
    if Under(c.dst, a) { OriginDest(c, a); }
    forall x | x in s ensures !Under(a, Dest(c, x)) && a != Dest(c, x) { DestOutside(c, x, a); }
  }

  /** The place of a file that has not been copied yet is as it was. */
  lemma PlaceUnchanged(c: Config, fs: FS, s: seq<Path>, q: Path)
    requires ValidCopy(c) && FromSource(c, s) && Laid(c, fs, s)
    requires IsFile(c.fs, q) && Under(c.src, q) && q !in s
    ensures Agree(fs, c.fs, Dest(c, q))
  {
    var d := Dest(c, q);
    DestOrigin(c, q);
    assert LaidAt(c, fs, s, d);
    if OnTheWay(c, s, d) {
      var x :| x in s && IsDir(c.fs, x) && Under(d, Dest(c, x));
      NoFileAbove(c, s, q, x);
    }
  }

  /** The directory a file goes into is there once it has been made. */
  lemma ParentMade(c: Config, fs: FS, s: seq<Path>, x: Path)
    requires ValidCopy(c) && FromSource(c, s) && Laid(c, fs, s)
    requires x in s && IsDir(c.fs, x) && Passable(c.fs, c.mkdirBad, Dest(c, x))
    ensures IsDir(fs, Dest(c, x))
  {
    var d := Dest(c, x);
    DestOrigin(c, x);
    assert Under(d, d) && OnTheWay(c, s, d);
    assert LaidAt(c, fs, s, d);
  }

  lemma DestParent(c: Config, q: Path)
    requires Under(c.src, q) && q != c.src
    ensures q != [] && Dest(c, q) != [] && Parent(Dest(c, q)) == Dest(c, Parent(q)) && Under(c.src, Parent(q))
  {
    assert RelTo(q, |c.src|) == RelTo(Parent(q), |c.src|) + [q[|q| - 1]];
  }

  /** A file's turn comes when the directory it is in has been copied, and no earlier. */
  ghost predicate Turn(c: Config, s: seq<Path>, q: Path) {
    && q in c.fs && Under(c.src, q) && q !in s
    && if q == c.src then s == [] else q != [] && Parent(q) in s && IsDir(c.fs, Parent(q))
  }

  lemma CopySucceeds(c: Config, fs: FS, s: seq<Path>, q: Path)
    requires ValidCopy(c) && FromSource(c, s) && Laid(c, fs, s) && (forall x :: x in s ==> Good(c, x))
    requires IsFile(c.fs, q) && Turn(c, s, q)
    ensures One(c, fs, q).1 <==> Arrives(c, q)
    ensures One(c, fs, q).1 ==>
              Dest(c, q) != [] && IsDir(fs, Parent(Dest(c, q))) && One(c, fs, q).0 == fs[Dest(c, q) := c.fs[q]]
  {
    LaidIntact(c, fs, s, q);
    PlaceUnchanged(c, fs, s, q);
    PlaceMeans(c, q);
    if q == c.src {
      var d := Dest(c, q);
      if d != [] {
        assert LaidAt(c, fs, s, Parent(d));
        assert !OnTheWay(c, s, Parent(d));
      }
    } else {
      DestParent(c, q);
      assert Good(c, Parent(q));
      ParentMade(c, fs, s, Parent(q));
    }
    hide Laid, Passable, Placeable, FromSource, Good, RelTo;
  }

  lemma PlaceMeans(c: Config, q: Path)
    requires Under(c.src, q)
    ensures Placeable(c, RelTo(q, |c.src|)) <==>
            && Dest(c, q) != [] && !IsDir(c.fs, Dest(c, q))
            && if q == c.src then IsDir(c.fs, Parent(Dest(c, q)))
               else q != [] && Passable(c.fs, c.mkdirBad, Dest(c, Parent(q)))
  {
    var r := RelTo(q, |c.src|);
    assert q == c.src + r && (r == [] <==> q == c.src);
    if q == c.src {
      assert Dest(c, q) == c.dst;
    } else {
      DestParent(c, q);
      assert RelTo(Parent(q), |c.src|) == Parent(r);
    }
    hide Passable;
  }

  lemma FileAtMore(c: Config, s: seq<Path>, q: Path, a: Path)
    requires Under(c.src, q) && q in c.fs
    ensures FileAt(c, s + [q], a) <==> FileAt(c, s, a) || (IsFile(c.fs, q) && a == Dest(c, q))
  {
    DestOrigin(c, q);
    if Under(c.dst, a) { OriginDest(c, a); }
  }

  lemma OnTheWayMore(c: Config, s: seq<Path>, q: Path, a: Path)
    ensures OnTheWay(c, s + [q], a) <==> OnTheWay(c, s, a) || (IsDir(c.fs, q) && Under(a, Dest(c, q)))
  {
    var t := s + [q];
    if OnTheWay(c, s, a) {
      var x :| x in s && IsDir(c.fs, x) && Under(a, Dest(c, x));
      assert x in t;
    }
    assert q in t;
  }

  lemma DirLaid(c: Config, fs: FS, s: seq<Path>, q: Path, fs1: FS)
    requires ValidCopy(c) && FromSource(c, s) && Laid(c, fs, s)
    requires IsDir(c.fs, q) && Under(c.src, q) && MkdirAll(fs, c.mkdirBad, Dest(c, q)) == (fs1, true)
    ensures Laid(c, fs1, s + [q])
  {
    hide MkdirAll, FileAt, OnTheWay, FromSource;
    forall a ensures LaidAt(c, fs1, s + [q], a) {
      assert LaidAt(c, fs, s, a);
      FileAtMore(c, s, q, a);
      OnTheWayMore(c, s, q, a);
      if Under(a, Dest(c, q)) && a != Dest(c, q) {
        AncestorsAreDirs(fs1, Dest(c, q), a);
      }
    }
  }

  lemma FileLaid(c: Config, fs: FS, s: seq<Path>, q: Path)
    requires ValidCopy(c) && FromSource(c, s) && Laid(c, fs, s)
    requires IsFile(c.fs, q) && Under(c.src, q) && q !in s
    requires Dest(c, q) != [] && IsDir(fs, Parent(Dest(c, q))) && !IsDir(fs, Dest(c, q))
    ensures Laid(c, fs[Dest(c, q) := c.fs[q]], s + [q])
  {
    var d, fs1 := Dest(c, q), fs[Dest(c, q) := c.fs[q]];
    DestOrigin(c, q);
    hide FileAt, OnTheWay, FromSource, Dest;
    forall a ensures LaidAt(c, fs1, s + [q], a) {
      assert LaidAt(c, fs, s, a);
      FileAtMore(c, s, q, a);
      OnTheWayMore(c, s, q, a);
    }
  }

  /** One more entry: it succeeds exactly if it is good, and then it is laid out too. */
  lemma OneLaid(c: Config, fs: FS, s: seq<Path>, q: Path)
    requires ValidCopy(c) && FromSource(c, s) && Laid(c, fs, s) && (forall x :: x in s ==> Good(c, x))
    requires Turn(c, s, q)
    ensures One(c, fs, q).1 <==> Good(c, q)
    ensures One(c, fs, q).1 ==> Laid(c, One(c, fs, q).0, s + [q])
  {
    if IsDir(c.fs, q) {
      MkdirSucceeds(c, fs, s, q);
      hide Laid, Good, MkdirAll;
      if One(c, fs, q).1 { DirLaid(c, fs, s, q, One(c, fs, q).0); }
    } else {
      CopySucceeds(c, fs, s, q);
      PlaceUnchanged(c, fs, s, q);
      assert Good(c, q) <==> Arrives(c, q);
      hide Laid, Good, CopyOne;
      if One(c, fs, q).1 {
        assert !IsDir(fs, Dest(c, q)) by { assert Arrives(c, q); }
        FileLaid(c, fs, s, q);
      }
    }
  }

  // ----- the helper's whole run -----

  /** The entries in the order both programs come past them. */
  function Tree(c: Config): seq<Path>
    requires Lists(c.ls, c.fs)
  {
    Preorder(c.fs, c.ls, c.src)
  }

  ghost predicate AllGood(c: Config, s: seq<Path>) {
    forall x :: x in s ==> Good(c, x)
  }

  lemma TreeTurns(c: Config, n: nat)
    requires ValidCopy(c) && n < |Tree(c)|
    ensures FromSource(c, Tree(c)[..n]) && Turn(c, Tree(c)[..n], Tree(c)[n])
  {
    var t, q := Tree(c), Tree(c)[n];
    PreorderVisits(c.fs, c.ls, c.src);
    assert t[0] == c.src;
    hide Tree, Preorder, Lists;
    assert q in t;
    forall x | x in t[..n] ensures x != q {
      assert Under(q, q);
    }
    assert Under(c.src, c.src);
    if q == c.src {
      assert n == 0;
    } else {
      DestParent(c, q);
      assert IsDir(c.fs, Parent(q)) && Parent(q) in t;
      var k :| 0 <= k < |t| && t[k] == Parent(q);
      assert Under(Parent(q), q) && Under(t[k], t[n]) && k != n;
      assert k < n && t[..n][k] == Parent(q);
    }
  }

  lemma NothingLaid(c: Config)
    requires ValidCopy(c)
    ensures Laid(c, c.fs, [])
  {
    forall a ensures LaidAt(c, c.fs, [], a) {}
  }

  /** In `t` every entry comes at its turn. */
  ghost predicate TakesTurns(c: Config, t: seq<Path>) {
    forall k :: 0 <= k < |t| ==> FromSource(c, t[..k]) && Turn(c, t[..k], t[k])
  }

  lemma LastTurn(c: Config, t: seq<Path>, s: seq<Path>, q: Path)
    requires TakesTurns(c, t) && t != [] && s == t[..|t| - 1] && q == t[|t| - 1]
    ensures TakesTurns(c, s) && FromSource(c, s) && Turn(c, s, q) && t == s + [q]
  {
    hide Turn, FromSource;
    forall k | 0 <= k < |s| ensures FromSource(c, s[..k]) && Turn(c, s[..k], s[k]) { assert s[..k] == t[..k]; }
  }

  lemma {:induction false} Lays(c: Config, t: seq<Path>)
    requires ValidCopy(c) && TakesTurns(c, t)
    ensures Fold(c, c.fs, t).1 <==> AllGood(c, t)
    ensures Fold(c, c.fs, t).1 ==> Laid(c, Fold(c, c.fs, t).0, t)
    decreases |t|
  {
    if t == [] {
      NothingLaid(c);
    } else {
      hide Fold, Turn, FromSource, Laid, Good, AllGood, One, TakesTurns, ValidCopy;
      var s, q := t[..|t| - 1], t[|t| - 1];
      LastTurn(c, t, s, q);
      Lays(c, s);
      FoldSnoc(c, c.fs, s, q);
      AllGoodMore(c, s, q);
      if Fold(c, c.fs, s).1 {
        NextLaid(c, Fold(c, c.fs, s).0, s, q);
      }
    }
  }

  /** The helper gets as far as its entries are good, and what it got past is laid out. */
  lemma HelperLays(c: Config, n: nat)
    requires ValidCopy(c) && n <= |Tree(c)|
    ensures Fold(c, c.fs, Tree(c)[..n]).1 <==> AllGood(c, Tree(c)[..n])
    ensures Fold(c, c.fs, Tree(c)[..n]).1 ==> Laid(c, Fold(c, c.fs, Tree(c)[..n]).0, Tree(c)[..n])
  {
    var t := Tree(c)[..n];
    hide Fold, Laid, Good, Turn, FromSource, AllGood;
    forall k | 0 <= k < n ensures FromSource(c, t[..k]) && Turn(c, t[..k], t[k]) {
      TreeTurns(c, k);
      assert t[..k] == Tree(c)[..k];
    }
    hide Tree;
    Lays(c, t);
  }

  lemma NextLaid(c: Config, fs: FS, s: seq<Path>, q: Path)
    requires ValidCopy(c) && FromSource(c, s) && Laid(c, fs, s) && AllGood(c, s) && Turn(c, s, q)
    ensures One(c, fs, q).1 <==> Good(c, q)
    ensures One(c, fs, q).1 ==> Laid(c, One(c, fs, q).0, s + [q])
  {
    hide Good, One, Laid;
    OneLaid(c, fs, s, q);
  }

  lemma AllGoodMore(c: Config, s: seq<Path>, q: Path)
    ensures AllGood(c, s + [q]) <==> AllGood(c, s) && Good(c, q)
  {
    hide Good;
    assert q in s + [q];
    forall x | x in s ensures x in s + [q] {}
  }

  // ----- the job's files -----

  lemma DestRel(c: Config, r: Path)
    ensures Dest(c, c.src + r) == c.dst + r && Under(c.src, c.src + r) && RelTo(c.src + r, |c.src|) == r
  {
  }

  lemma CopyApart(c: Config)
    requires ValidCopy(c)
    ensures TargetsOutside(c) && FilesApart(c) && ValidPlan(PlanOf(c))
  {
    WalkLists(c);
    forall r | r in JobFiles(c) ensures !Under(c.src, c.dst + r) {
      DestRel(c, r);
      assert c.src + r in c.fs;
    }
    OutsideIsApart(c);
    PlanValid(c);
  }

  lemma PlanFiles(c: Config, i: nat)
    requires ValidCopy(c) && i < |JobFiles(c)|
    ensures var p, q := PlanOf(c), c.src + JobFiles(c)[i];
            && ValidPlan(p) && Source(p, i) == q && Target(p, i) == Dest(c, q) && IsFile(c.fs, q) && Under(c.src, q)
            && p.io[i] == c.io(RelTo(q, |c.src|)) && p.fs == Prepared(c).0 && p.op == Copy
            && IsFile(p.fs, q) && p.fs[q] == c.fs[q]
  {
    var r := JobFiles(c)[i];
    CopyApart(c);
    PlanWalked(c);
    WalkLists(c);
    assert r in JobFiles(c);
    DestRel(c, r);
    TargetPathInjective(c.dst, r, r);
    assert Agree(Prepared(c).0, c.fs, c.src + r);
  }

  /** A file that can be copied arrives, whatever becomes of the others; and only then,
      once all directories have been made. */
  lemma JobFileArrives(c: Config, i: nat)
    requires ValidCopy(c) && i < |JobFiles(c)|
    ensures ValidPlan(PlanOf(c))
    ensures Arrives(c, c.src + JobFiles(c)[i]) ==> Succeeds(PlanOf(c), i)
    ensures AllPassable(c) && Succeeds(PlanOf(c), i) ==> Arrives(c, c.src + JobFiles(c)[i])
  {
    var p, r := PlanOf(c), JobFiles(c)[i];
    var q, d := c.src + r, c.dst + r;
    PlanFiles(c, i);
    DestRel(c, r);
    FilePlaces(c, r);
    hide PlanOf, JobFiles, Prepared, Placeable, AllPassable, ValidPlan, ValidCopy, Dest;
    assert Succeeds(p, i) == CopyOne(p.fs, p.io[i], q, d).1;
  }

  lemma TreeMembers(c: Config, q: Path)
    requires ValidCopy(c)
    ensures q in Tree(c) <==> q in c.fs && Under(c.src, q)
  {
    PreorderVisits(c.fs, c.ls, c.src);
  }

  lemma AddedOnTheWay(c: Config, a: Path)
    requires ValidCopy(c) && a !in c.fs && a in Prepared(c).0
    ensures OnTheWay(c, Tree(c), a) && Prepared(c).0[a] == Dir
  {
    JobPrepared(c);
    hide Prepared, Tree;
    assert AddedFor(c, Prepared(c).0, JobDirs(c), a);
    var r :| r in JobDirs(c) && Under(a, c.dst + r);
    hide JobDirs;
    DestRel(c, r);
    WalkLists(c);
    TreeMembers(c, c.src + r);
  }

  lemma OnTheWayMade(c: Config, a: Path)
    requires ValidCopy(c) && AllPassable(c) && OnTheWay(c, Tree(c), a)
    ensures IsDir(Prepared(c).0, a)
  {
    hide Prepared, Tree, JobDirs, Passable;
    var q :| q in Tree(c) && IsDir(c.fs, q) && Under(a, Dest(c, q));
    TreeMembers(c, q);
    JobPrepared(c);
    var r, fs1 := RelTo(q, |c.src|), Prepared(c).0;
    assert q == c.src + r;
    DirListed(c, r);
    assert IsDir(fs1, c.dst + r);
    hide OnlyAdded, MadeSome, AllPassable;
    if a != Dest(c, q) { AncestorsAreDirs(fs1, Dest(c, q), a); }
  }

  /** Off the files' places the job leaves the directories it has made. */
  lemma PreparedLaid(c: Config, a: Path)
    requires ValidCopy(c) && AllPassable(c) && a !in c.fs
    ensures (a in Prepared(c).0 <==> OnTheWay(c, Tree(c), a)) && (a in Prepared(c).0 ==> Prepared(c).0[a] == Dir)
  {
    if a in Prepared(c).0 { AddedOnTheWay(c, a); }
    if OnTheWay(c, Tree(c), a) { OnTheWayMade(c, a); }
    hide Prepared, Tree, OnTheWay;
  }

  lemma CopyOutcome(c: Config, i: nat)
    requires ValidCopy(c) && i < |JobFiles(c)|
    ensures ValidPlan(PlanOf(c))
    ensures Agree(Outcome(PlanOf(c), i), c.fs, Source(PlanOf(c), i))
  {
    PlanFiles(c, i);
    SlotsApart(PlanOf(c), i, i);
  }

  lemma FileLaidByJob(c: Config, a: Path)
    requires ValidCopy(c) && ValidPlan(PlanOf(c)) && FileAt(c, Tree(c), a)
    requires forall i :: 0 <= i < |JobFiles(c)| ==> Succeeds(PlanOf(c), i)
    ensures HasContent(InOrder(PlanOf(c), |JobFiles(c)|).fs, a, c.fs[Origin(c, a)].data)
  {
    var p, n := PlanOf(c), |JobFiles(c)|;
    OriginDest(c, a);
    var i := FileIndex(c, Origin(c, a));
    PlanFiles(c, i);
    InOrderShows(p, n);
    OutcomeArrived(p, i);
    hide InOrder, Outcome, Succeeds, PlanOf, JobFiles, Tree;
    assert Slots(p, InOrder(p, n).fs, Outcome(p, i), i);
  }

  lemma JobLaidAt(c: Config, a: Path)
    requires ValidCopy(c) && AllPassable(c) && ValidPlan(PlanOf(c))
    requires forall i :: 0 <= i < |JobFiles(c)| ==> Succeeds(PlanOf(c), i)
    ensures LaidAt(c, InOrder(PlanOf(c), |JobFiles(c)|).fs, Tree(c), a)
  {
    var p, n := PlanOf(c), |JobFiles(c)|;
    var fs := InOrder(p, n).fs;
    InOrderShows(p, n);
    hide InOrder, Outcome, Succeeds, Tree, JobFiles;
    if FileAt(c, Tree(c), a) {
      FileLaidByJob(c, a);
    } else if Outside(p, a) {
      assert Agree(fs, p.fs, a);
      JobPrepared(c);
      if a !in c.fs { PreparedLaid(c, a); }
    } else {
      var i :| 0 <= i < |p.files| && InSlot(p, i, a);
      PlanFiles(c, i);
      CopyOutcome(c, i);
      DestOrigin(c, Source(p, i));
      TreeMembers(c, Source(p, i));
      assert Slots(p, fs, Outcome(p, i), i);
    }
  }

  lemma PlacesHaveParents(c: Config, i: nat, a: Path)
    requires ValidCopy(c) && i < |JobFiles(c)| && ValidPlan(PlanOf(c)) && Succeeds(PlanOf(c), i)
    requires InSlot(PlanOf(c), i, a) && a != []
    ensures IsDir(Prepared(c).0, Parent(a))
  {
    PlanFiles(c, i);
    JobPrepared(c);
    hide PlanOf, Prepared, JobFiles;
  }

  lemma JobWellFormed(c: Config)
    requires ValidCopy(c) && ValidPlan(PlanOf(c))
    requires forall i :: 0 <= i < |JobFiles(c)| ==> Succeeds(PlanOf(c), i)
    ensures WellFormed(InOrder(PlanOf(c), |JobFiles(c)|).fs)
  {
    var p, n := PlanOf(c), |JobFiles(c)|;
    var fs := InOrder(p, n).fs;
    InOrderShows(p, n);
    JobPrepared(c);
    assert p.fs == Prepared(c).0 && |p.files| == n;
    hide InOrder, Outcome, PlanOf, Prepared, Succeeds, JobFiles, Tree, JobDirs, InSlot;
    forall a | a in fs && a != [] ensures IsDir(fs, Parent(a)) {
      if Outside(p, a) {
        assert Agree(fs, p.fs, a);
        assert IsDir(p.fs, Parent(a));
      } else {
        var i :| 0 <= i < |p.files| && InSlot(p, i, a);
        PlacesHaveParents(c, i, a);
      }
    }
  }

  // ----- the comparison -----

  /** Entry by entry, what is good for the helper is good for the job. */
  lemma GoodMeans(c: Config)
    requires ValidCopy(c) && Readable(c.fs, c.walkBad, c.src)
    ensures AllGood(c, Tree(c)) <==>
            AllPassable(c) && forall i :: 0 <= i < |JobFiles(c)| ==> Arrives(c, c.src + JobFiles(c)[i])
  {
    WalkLists(c);
    if AllGood(c, Tree(c)) {
      forall r | r in JobDirs(c) ensures Passable(c.fs, c.mkdirBad, c.dst + r) {
        DestRel(c, r);
        TreeMembers(c, c.src + r);
        assert Good(c, c.src + r);
      }
      forall i | 0 <= i < |JobFiles(c)| ensures Arrives(c, c.src + JobFiles(c)[i]) {
        var r := JobFiles(c)[i];
        assert r in JobFiles(c);
        DestRel(c, r);
        TreeMembers(c, c.src + r);
        assert Good(c, c.src + r);
      }
    } else {
      var q :| q in Tree(c) && !Good(c, q);
      TreeMembers(c, q);
      var r := RelTo(q, |c.src|);
      assert q == c.src + r;
      if IsDir(c.fs, q) {
        assert r in JobDirs(c);
      } else {
        assert r in JobFiles(c);
        var i :| 0 <= i < |JobFiles(c)| && JobFiles(c)[i] == r;
      }
    }
  }

  /** What the job reports as a full success. */
  predicate JobComplete(c: Config)
    requires Lists(c.ls, c.fs) && c.src in c.fs
  {
    Prepared(c).1 == |JobDirs(c)| && |PlanOf(c).io| == |PlanOf(c).files|
    && InOrder(PlanOf(c), |JobFiles(c)|).failed == 0
  }

  lemma FailuresMean(p: Plan)
    requires ValidPlan(p)
    ensures InOrder(p, |p.files|).failed == 0 <==> forall i :: 0 <= i < |p.files| ==> Succeeds(p, i)
  {
    var n := |p.files|;
    InOrderTotals(p, n);
    SumInZero(Failures(p), FirstN(n));
    hide Succeeds, InOrder, Handled, ValidPlan, SumIn, FirstN;
    assert forall i :: 0 <= i < n ==> (Failures(p)[i] == 0 <==> Succeeds(p, i));
    assert forall i: nat :: i in FirstN(n) <==> i < n;
  }

  lemma CompleteMeans(c: Config)
    requires ValidCopy(c)
    ensures ValidPlan(PlanOf(c))
    ensures JobComplete(c) <==> AllPassable(c) && forall i :: 0 <= i < |JobFiles(c)| ==> Succeeds(PlanOf(c), i)
  {
    CopyApart(c);
    JobPrepared(c);
    hide Prepared, Passable, Succeeds, InOrder, Outcome, JobDirs, JobFiles, OnlyAdded;
    FailuresMean(PlanOf(c));
  }

  /** For every outcome of every call: the helper's copy succeeds exactly when the job
      makes all directories and no file fails, and then both leave the same
      filesystem, however the job's workers are scheduled. */
  lemma HelperAgreesWithJob(c: Config)
    requires ValidCopy(c) && Readable(c.fs, c.walkBad, c.src)
    ensures Fold(c, c.fs, Tree(c)).1 <==> JobComplete(c)
    ensures Fold(c, c.fs, Tree(c)).1 ==> Fold(c, c.fs, Tree(c)).0 == JobFs(c)
  {
    var n := |JobFiles(c)|;
    HelperLays(c, |Tree(c)|);
    assert Tree(c)[..|Tree(c)|] == Tree(c);
    GoodMeans(c);
    CompleteMeans(c);
    hide Tree, Fold, AllGood, JobComplete, Succeeds, Arrives, Passable, PlanOf, InOrder, Laid;
    forall i | 0 <= i < n
      ensures AllPassable(c) ==> (Succeeds(PlanOf(c), i) <==> Arrives(c, c.src + JobFiles(c)[i]))
    {
      JobFileArrives(c, i);
    }
    if JobComplete(c) {
      JobWellFormed(c);
      forall a ensures LaidAt(c, InOrder(PlanOf(c), n).fs, Tree(c), a) { JobLaidAt(c, a); }
      LaidMeans(c, InOrder(PlanOf(c), n).fs, Tree(c));
      LaidUnique(c, Fold(c, c.fs, Tree(c)).0, InOrder(PlanOf(c), n).fs, Tree(c));
    }
  }

  lemma LaidMeans(c: Config, fs: FS, s: seq<Path>)
    requires WellFormed(fs) && forall a :: LaidAt(c, fs, s, a)
    ensures Laid(c, fs, s)
  {
  }

  /** The helper got past the file `q`: it copied it completely. */
  ghost predicate HelperCopies(c: Config, q: Path)
    requires Lists(c.ls, c.fs)
  {
    IsFile(c.fs, q) && exists n :: 0 <= n < |Tree(c)| && Tree(c)[n] == q && Fold(c, c.fs, Tree(c)[..n + 1]).1
  }

  /** The job delivers the file `q`. */
  ghost predicate JobCopies(c: Config, q: Path)
    requires ValidCopy(c)
  {
    && Readable(c.fs, c.walkBad, c.src) && ValidPlan(PlanOf(c)) && IsFile(c.fs, q)
    && exists i :: 0 <= i < |JobFiles(c)| && c.src + JobFiles(c)[i] == q && Succeeds(PlanOf(c), i)
  }

  lemma PassedIsGood(c: Config, n: nat)
    requires ValidCopy(c) && n < |Tree(c)| && Fold(c, c.fs, Tree(c)[..n + 1]).1
    ensures Good(c, Tree(c)[n])
  {
    hide Tree, Fold, Good, Laid;
    HelperLays(c, n + 1);
    assert Tree(c)[..n + 1][n] == Tree(c)[n];
  }

  lemma CopiedIsGood(c: Config, q: Path)
    requires ValidCopy(c) && HelperCopies(c, q)
    ensures Arrives(c, q) && Under(c.src, q)
  {
    hide Tree, Fold, Arrives, Passable;
    var n :| 0 <= n < |Tree(c)| && Tree(c)[n] == q && Fold(c, c.fs, Tree(c)[..n + 1]).1;
    PassedIsGood(c, n);
    TreeMembers(c, q);
  }

  lemma FileIndex(c: Config, q: Path) returns (i: nat)
    requires ValidCopy(c) && IsFile(c.fs, q) && Under(c.src, q)
    ensures i < |JobFiles(c)| && c.src + JobFiles(c)[i] == q
  {
    WalkLists(c);
    var r := RelTo(q, |c.src|);
    assert q == c.src + r && r in JobFiles(c);
    i :| 0 <= i < |JobFiles(c)| && JobFiles(c)[i] == r;
  }

  lemma CopiedFile(c: Config, q: Path)
    requires ValidCopy(c) && HelperCopies(c, q) && Readable(c.fs, c.walkBad, c.src)
    ensures JobCopies(c, q)
  {
    CopiedIsGood(c, q);
    var i := FileIndex(c, q);
    PlanFiles(c, i);
    JobFileArrives(c, i);
    hide Tree, Fold, Succeeds, Arrives, PlanOf, JobFiles, ValidPlan, Readable, ValidCopy;
  }

  /** Entry `n` of the walk is a file, and it and all before it can be copied, which the
      initial filesystem tells. */
  ghost predicate FileInReach(c: Config, n: nat)
    requires Lists(c.ls, c.fs)
  {
    n < |Tree(c)| && IsFile(c.fs, Tree(c)[n]) && AllGood(c, Tree(c)[..n + 1])
  }

  /** Every file the helper copies completely the job delivers too, exactly unless the
      job cannot read the whole source tree while some file, and all the walk comes past
      before it, can be copied: then the job does nothing at all, and the helper copies
      that file before it comes to what cannot be read. */
  lemma HelperCopiesSubset(c: Config)
    requires ValidCopy(c)
    ensures (forall q :: HelperCopies(c, q) ==> JobCopies(c, q)) <==>
            || Readable(c.fs, c.walkBad, c.src)
            || forall n: nat :: !FileInReach(c, n)
    ensures !Readable(c.fs, c.walkBad, c.src) ==> JobFs(c) == c.fs
    ensures forall q :: JobCopies(c, q) ==> HasContent(JobFs(c), Dest(c, q), c.fs[q].data)
  {
    if Readable(c.fs, c.walkBad, c.src) {
      forall q | HelperCopies(c, q) ensures JobCopies(c, q) { CopiedFile(c, q); }
    }
    forall q | JobCopies(c, q) ensures HasContent(JobFs(c), Dest(c, q), c.fs[q].data) { Delivered(c, q); }
    NoneCopied(c);
    hide HelperCopies, Readable, HasContent, FileInReach;
  }

  /** The helper copies no file exactly if none is in reach. */
  lemma NoneCopied(c: Config)
    requires ValidCopy(c)
    ensures (forall q :: !HelperCopies(c, q)) <==> forall n: nat :: !FileInReach(c, n)
  {
    hide Tree, AllGood, Fold, Laid;
    forall n: nat | FileInReach(c, n) ensures HelperCopies(c, Tree(c)[n]) {
      HelperLays(c, n + 1);
      assert Fold(c, c.fs, Tree(c)[..n + 1]).1;
    }
    forall q | HelperCopies(c, q) ensures exists n: nat :: FileInReach(c, n) {
      var n :| 0 <= n < |Tree(c)| && Tree(c)[n] == q && Fold(c, c.fs, Tree(c)[..n + 1]).1;
      HelperLays(c, n + 1);
      assert FileInReach(c, n);
    }
  }

  lemma Delivered(c: Config, q: Path)
    requires ValidCopy(c) && JobCopies(c, q)
    ensures HasContent(JobFs(c), Dest(c, q), c.fs[q].data)
  {
    var p, n := PlanOf(c), |JobFiles(c)|;
    var i :| 0 <= i < n && c.src + JobFiles(c)[i] == q && Succeeds(p, i);
    PlanFiles(c, i);
    InOrderShows(p, n);
    OutcomeArrived(p, i);
    hide InOrder, Outcome, Succeeds, PlanOf, Prepared, JobFiles, Readable;
    assert Slots(p, InOrder(p, n).fs, Outcome(p, i), i);
  }

  // ----- a tree for which the helper copies more -----

  const SRC: Path := ["s"]
  const FILE: Path := ["s", "a"]
  const SEALED: Path := ["s", "b"]
  const SMALL: FS := map[[] := Dir, SRC := Dir, FILE := File([]), SEALED := Dir]

  function SmallListing(p: Path): seq<string> {
    if p == [] then ["s"] else if p == SRC then ["a", "b"] else []
  }

  lemma SmallLists()
    ensures WellFormed(SMALL) && Lists(SmallListing, SMALL)
  {
    assert Parent(SRC) == [] && Parent(FILE) == SRC && Parent(SEALED) == SRC;
    forall p | IsDir(SMALL, p)
      ensures Distinct(SmallListing(p)) && forall n :: n in SmallListing(p) <==> p + [n] in SMALL
    {
      forall n ensures n in SmallListing(p) <==> p + [n] in SMALL {
        assert (p + [n])[|p|] == n;
        if p == SRC {
          assert SRC + ["a"] == FILE && SRC + ["b"] == SEALED;
        } else if p == SEALED {
          assert |p + [n]| == 3;
        } else {
          assert [] + ["s"] == SRC;
        }
      }
    }
  }

  lemma FirstTwo(c: Config, a: Path)
    requires ValidCopy(c) && a == c.src + ["a"] && IsFile(c.fs, a) && IsDir(c.fs, c.src)
    requires c.ls(c.src) == ["a", "b"]
    ensures |Tree(c)| >= 2 && Tree(c)[..2] == [c.src, a]
  {
    var rest := ["a", "b"][1..];
    assert Entries(c.fs, c.ls, c.src, ["a", "b"]) == Preorder(c.fs, c.ls, a) + Entries(c.fs, c.ls, c.src, rest);
    assert Preorder(c.fs, c.ls, a) == [a];
    assert Tree(c) == [c.src] + ([a] + Entries(c.fs, c.ls, c.src, rest));
  }

  lemma BothGood(c: Config, a: Path)
    requires ValidCopy(c) && a == c.src + ["a"] && IsFile(c.fs, a) && IsDir(c.fs, c.src)
    requires c.src !in c.walkBad && c.mkdirBad == {}
    requires c.dst != [] && IsDir(c.fs, Parent(c.dst)) && c.dst !in c.fs
    requires var io := c.io(["a"]); io.open && io.create && io.breakAt.None?
    ensures Good(c, c.src) && Good(c, a)
  {
    DestRel(c, []);
    DestRel(c, ["a"]);
    assert c.src + [] == c.src && c.dst + [] == c.dst && Parent(a) == c.src;
    forall x | Under(x, c.dst) ensures !IsFile(c.fs, x) {
      UnderParent(x, c.dst);
      if x != c.dst && x != Parent(c.dst) { AncestorsAreDirs(c.fs, Parent(c.dst), x); }
    }
    assert Under(c.dst, c.dst + ["a"]);
    NothingBelowAbsent(c.fs, c.dst, c.dst + ["a"]);
  }

  lemma FirstFileCopied(c: Config, a: Path)
    requires ValidCopy(c) && a == c.src + ["a"] && IsFile(c.fs, a) && IsDir(c.fs, c.src)
    requires c.ls(c.src) == ["a", "b"] && c.src !in c.walkBad && c.mkdirBad == {}
    requires c.dst != [] && IsDir(c.fs, Parent(c.dst)) && c.dst !in c.fs
    requires var io := c.io(["a"]); io.open && io.create && io.breakAt.None?
    ensures HelperCopies(c, a)
  {
    FirstTwo(c, a);
    BothGood(c, a);
    hide Tree, Good, Fold, ValidConfig;
    HelperLays(c, 2);
    assert Tree(c)[1] == Tree(c)[..2][1] == a;
    assert AllGood(c, Tree(c)[..2]);
    assert Fold(c, c.fs, Tree(c)[..1 + 1]).1;
  }

  /** A file, and after it a directory that cannot be listed: the helper has copied the
      file when it fails, the job has not even begun. */
  lemma HelperMayCopyMore(io: Path -> FileIO)
    requires var a := io(["a"]); a.open && a.create && a.breakAt.None?
    ensures var c := Config(SMALL, SmallListing, Copy, SRC, ["d"], [], {SEALED}, {}, io, false, {}, 1);
            ValidCopy(c) && HelperCopies(c, FILE) && !JobCopies(c, FILE)
  {
    var c := Config(SMALL, SmallListing, Copy, SRC, ["d"], [], {SEALED}, {}, io, false, {}, 1);
    SmallLists();
    hide WellFormed, Lists;
    assert SRC[0] != ["d"][0] && Disjoint(SRC, ["d"]);
    assert FILE == SRC + ["a"] && Parent(["d"]) == [];
    assert SEALED in c.fs && Under(SRC, SEALED) && !Readable(c.fs, c.walkBad, c.src);
    hide Readable, Preorder, HelperCopies;
    FirstFileCopied(c, FILE);
  }
}
