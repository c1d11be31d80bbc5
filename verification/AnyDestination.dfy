/** Jobs onto any destination, fresh or there already: what a job in which no call fails
    leaves does not show how it went about it. */
module AnyDestination {
  import opened FileSystem
  import opened Jobs
  import opened TransferPool
  import opened TransferProofs
  import opened AnyPlan
  import opened TransferTheorems
  import opened MoveJob
  import opened FastPath
  import opened Directories
  import opened Overlap
  import opened Determinism
  import opened JobCollisions

  /** Two jobs that differ in nothing a client asks for. */
  ghost predicate SameJob(c: Config, d: Config) {
    && ValidConfig(c) && ValidConfig(d) && c.src in c.fs
    && (d.fs, d.op, d.src, d.dst) == (c.fs, c.op, c.src, c.dst)
  }

  lemma SameLists(c: Config, d: Config)
    requires SameJob(c, d)
    ensures forall r :: r in JobFiles(c) <==> r in JobFiles(d)
    ensures forall r :: r in JobDirs(c) <==> r in JobDirs(d)
    ensures FilesApart(c) <==> FilesApart(d)
  {
    WalkLists(c);
    WalkLists(d);
    hide JobFiles, JobDirs;
  }

  lemma SameClear(c: Config, d: Config)
    requires SameJob(c, d) && AllClear(c) && NoCallFails(d)
    ensures AllClear(d)
  {
    SameLists(c, d);
    hide JobFiles, JobDirs, Passable;
  }

  /** What the directories are that both start with. */
  lemma PreparedAt(c: Config, a: Path)
    requires ValidConfig(c) && c.src in c.fs && AllPassable(c)
    ensures var fs1 := Prepared(c).0;
            && (a in c.fs ==> Agree(fs1, c.fs, a))
            && (a !in c.fs ==> (a in fs1 <==> exists r :: r in JobDirs(c) && Under(a, c.dst + r)))
            && (a !in c.fs && a in fs1 ==> fs1[a] == Dir)
  {
    var fs1, dirs := Prepared(c).0, JobDirs(c);
    JobMakes(c, dirs);
    if r :| r in dirs && Under(a, c.dst + r) {
      assert Passable(c.fs, c.mkdirBad, c.dst + r) && IsDir(fs1, c.dst + r);
      if a != c.dst + r { AncestorsAreDirs(fs1, c.dst + r, a); }
    }
    if a in fs1 && a !in c.fs { assert AddedFor(c, fs1, dirs, a); }
  }

  lemma SamePrepared(c: Config, d: Config)
    requires SameJob(c, d) && AllPassable(c) && AllPassable(d)
    ensures Prepared(c).0 == Prepared(d).0
  {
    SameLists(c, d);
    hide Prepared, JobDirs, JobFiles, AllPassable;
    forall a ensures Agree(Prepared(c).0, Prepared(d).0, a) {
      PreparedAt(c, a);
      PreparedAt(d, a);
    }
    SameByAgreement(Prepared(c).0, Prepared(d).0);
  }

  /** What list order leaves at `q`: files in their new places, a move's old places empty,
      and otherwise what there was. */
  ghost predicate TransferredTo(p: Plan, fs: FS, q: Path) {
    && (forall i: nat :: i < |p.files| && q == Target(p, i) ==> HasContent(fs, q, Own(p, i)))
    && (forall i: nat :: i < |p.files| && q == Source(p, i) && p.op == Move ==> q !in fs)
    && ((forall i: nat :: i < |p.files| ==> q != Target(p, i) && (p.op == Copy || q != Source(p, i))) ==>
          Agree(fs, p.fs, q))
  }

  lemma SmoothSucceeds(p: Plan, i: nat)
    requires Smooth(p) && ValidPlan(p) && i < |p.files|
    ensures Succeeds(p, i) && HasContent(Outcome(p, i), Target(p, i), Own(p, i))
    ensures p.op == Move ==> Source(p, i) !in Outcome(p, i)
    ensures p.op == Copy ==> Agree(Outcome(p, i), p.fs, Source(p, i))
  {
    SlotsApart(p, i, i);
    assert Works(p.io[i]) && CanPlace(p.fs, Target(p, i)) && IsFile(p.fs, Source(p, i));
    hide Smooth, ValidPlan, CanPlace;
  }

  lemma SmoothShows(p: Plan, q: Path)
    requires Smooth(p) && ValidPlan(p)
    ensures TransferredTo(p, InOrder(p, |p.files|).fs, q)
  {
    var fs := InOrder(p, |p.files|).fs;
    InOrderShows(p, |p.files|);
    forall i: nat | i < |p.files|
      ensures q == Target(p, i) ==> HasContent(fs, q, Own(p, i))
      ensures q == Source(p, i) ==> if p.op == Move then q !in fs else Agree(fs, p.fs, q)
    {
      SmoothSucceeds(p, i);
      assert Slots(p, fs, Outcome(p, i), i);
    }
    hide InOrder, Smooth, ValidPlan, Outcome, Own;
    assert (forall i: nat :: i < |p.files| ==> q != Target(p, i) && q != Source(p, i)) ==> Outside(p, q);
  }

  /** A place of one plan is a place of the other. */
  lemma SamePlace(c: Config, d: Config, i: nat) returns (k: nat)
    requires SameJob(c, d) && i < |JobFiles(c)|
    ensures k < |JobFiles(d)|
    ensures var p, o := PlanOf(c), PlanOf(d);
            Source(p, i) == Source(o, k) && Target(p, i) == Target(o, k) && Own(p, i) == Own(o, k)
  {
    SameLists(c, d);
    PlanPlaces(c, i);
    k :| 0 <= k < |JobFiles(d)| && JobFiles(d)[k] == JobFiles(c)[i];
    PlanPlaces(d, k);
    hide JobFiles, Prepared;
  }

  lemma SamePooled(c: Config, d: Config, q: Path)
    requires SameJob(c, d) && Prepared(c).0 == Prepared(d).0
    requires var p, o := PlanOf(c), PlanOf(d);
             && |p.io| == |p.files| && |o.io| == |o.files|
             && TransferredTo(p, InOrder(p, |p.files|).fs, q) && TransferredTo(o, InOrder(o, |o.files|).fs, q)
    ensures Agree(InOrder(PlanOf(c), |JobFiles(c)|).fs, InOrder(PlanOf(d), |JobFiles(d)|).fs, q)
  {
    var p, o := PlanOf(c), PlanOf(d);
    hide InOrder, JobFiles, Prepared, Source, Target, Own;
    if i: nat :| i < |p.files| && q == Target(p, i) {
      var k := SamePlace(c, d, i);
      assert q == Target(o, k);
    } else if i: nat :| i < |p.files| && q == Source(p, i) && p.op == Move {
      var k := SamePlace(c, d, i);
      assert q == Source(o, k);
    } else {
      forall k: nat | k < |o.files| ensures q != Target(o, k) && (o.op == Copy || q != Source(o, k)) {
        var i := SamePlace(d, c, k);
      }
    }
  }

  lemma SameSlow(c: Config, d: Config)
    requires SameJob(c, d) && AllClear(c) && AllClear(d) && FilesApart(c)
    ensures SlowFs(c) == SlowFs(d)
  {
    SameLists(c, d);
    SamePrepared(c, d);
    ClearIsSmooth(c);
    ClearIsSmooth(d);
    PlanValid(c);
    PlanValid(d);
    assert c.kept == {} == d.kept;
    var p, o := PlanOf(c), PlanOf(d);
    var j := NewJob(c.op, [], []);
    InOrderFailsNot(p, j);
    InOrderFailsNot(o, j);
    hide AllClear, FilesApart, Smooth, ValidPlan, Prepared, JobFiles, JobDirs, InOrder, RemoveSource, TransferredTo;
    forall q ensures Agree(InOrder(p, |p.files|).fs, InOrder(o, |o.files|).fs, q) {
      SmoothShows(p, q);
      SmoothShows(o, q);
      SamePooled(c, d, q);
    }
    SameByAgreement(InOrder(p, |p.files|).fs, InOrder(o, |o.files|).fs);
  }

  /** Neither the mounts, nor the order directories list their entries in, nor the number of
      threads, nor which renames fall back to copying, shows in what a job leaves in which
      no call fails and no file goes to the place of another, whatever is at the destination. */
  lemma DriveNeverMatters(c: Config, d: Config)
    requires SameJob(c, d) && AllClear(c) && NoCallFails(d) && FilesApart(c)
    ensures JobFs(c) == JobFs(d)
  {
    SameClear(c, d);
    if c.op == Move && FreshDestination(c) {
      FastEqualsSlow(c);
      FastEqualsSlow(d);
    } else {
      SameSlow(c, d);
      hide AllClear, FilesApart, SlowFs;
    }
  }
}
