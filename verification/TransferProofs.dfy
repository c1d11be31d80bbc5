/** What every interleaving of the transfer pool keeps. */
module TransferProofs {
  import opened FileSystem
  import opened Jobs
  import opened Sums
  import opened TransferPool

  /** Some worker holds file `i`. */
  ghost predicate Held(ws: seq<Phase>, i: nat) {
    exists w :: 0 <= w < |ws| && Idx(ws[w]) == i
  }

  /** Every claimed index is held by one worker only. */
  ghost predicate Claims(p: Plan, s: State) {
    && (forall w :: 0 <= w < |s.workers| ==> Idx(s.workers[w]) < |p.files| && Idx(s.workers[w]) < s.next)
    && (forall w, v :: 0 <= w < v < |s.workers| && Idx(s.workers[w]) >= 0 ==>
          Idx(s.workers[w]) != Idx(s.workers[v]))
    && (forall w :: 0 <= w < |s.workers| && s.workers[w].Stopped? ==> |p.files| <= s.next)
  }

  lemma HeldUpdate(ws: seq<Phase>, w: nat, ph: Phase, i: nat)
    requires w < |ws|
    requires forall u, v :: 0 <= u < v < |ws| && Idx(ws[u]) >= 0 ==> Idx(ws[u]) != Idx(ws[v])
    ensures Held(ws[w := ph], i) <==> i == Idx(ph) || (Held(ws, i) && i != Idx(ws[w]))
  {
    var ws' := ws[w := ph];
    assert forall v :: 0 <= v < |ws| ==> Idx(ws'[v]) == if v == w then Idx(ph) else Idx(ws[v]);
    assert Idx(ws'[w]) == Idx(ph);
    if Held(ws, i) {
      var v :| 0 <= v < |ws| && Idx(ws[v]) == i;
      assert Idx(ws'[v]) == i || v == w;
    }
    if Held(ws', i) {
      var v :| 0 <= v < |ws'| && Idx(ws'[v]) == i;
      assert Idx(ws[v]) == i || v == w;
    }
  }

  // ----- how far each file is -----

  /** The copy of file `i` gets as far as creating its target. */
  predicate Creates(p: Plan, i: nat)
    requires |p.io| == |p.files| && i < |p.files|
  {
    && (Renames(p) ==> p.io[i].rename.OtherBackend?)
    && p.io[i].open && p.io[i].create
    && IsFile(p.fs, Source(p, i)) && CanPlace(p.fs, Target(p, i))
  }

  /** What a worker in a phase has found out about its file. */
  predicate PhaseOk(p: Plan, ph: Phase)
    requires |p.io| == |p.files| && Idx(ph) < |p.files|
  {
    match ph
    case Claiming | Stopped | Statting(_) => true
    case Announcing(i, size) => size == Size(p, i)
    case Renaming(i, size) => size == Size(p, i) && Renames(p)
    case Opening(i, size) =>
      size == Size(p, i) && (Renames(p) ==> p.io[i].rename.OtherBackend?)
    case Copying(i, size, done) =>
      && size == Size(p, i) && Creates(p, i) && done <= |p.fs[Source(p, i)].data|
      && (p.io[i].breakAt.Some? ==> done <= p.io[i].breakAt.value)
    case Removing(i, size) =>
      size == Size(p, i) && Creates(p, i) && p.op == Move && p.io[i].breakAt.None?
    case CountingFailure(i, size) => size == Size(p, i) && !Succeeds(p, i)
    case Reporting(i, size) => size == Size(p, i) && !Succeeds(p, i)
    case Tallying(i, size, ok) => size == Size(p, i) && ok == Succeeds(p, i)
  }

  /** The filesystem as it would be if only this worker had acted. */
  function PhaseFs(p: Plan, ph: Phase): FS
    requires |p.io| == |p.files| && 0 <= Idx(ph) < |p.files| && PhaseOk(p, ph)
  {
    match ph
    case Statting(_) | Announcing(_, _) | Renaming(_, _) | Opening(_, _) => p.fs
    case Copying(i, _, done) => p.fs[Target(p, i) := File(p.fs[Source(p, i)].data[..done])]
    case Removing(i, _) => p.fs[Target(p, i) := p.fs[Source(p, i)]]
    case CountingFailure(i, _) => Outcome(p, i)
    case Reporting(i, _) => Outcome(p, i)
    case Tallying(i, _, _) => Outcome(p, i)
  }

  /** Both places that belong to file `i` look as they do in `view`. */
  predicate Slots(p: Plan, fs: FS, view: FS, i: nat)
    requires i < |p.files|
  {
    Agree(fs, view, Source(p, i)) && Agree(fs, view, Target(p, i))
  }

  predicate InSlot(p: Plan, i: nat, q: Path)
    requires i < |p.files|
  {
    q == Source(p, i) || q == Target(p, i)
  }

  ghost predicate Outside(p: Plan, q: Path) {
    forall i :: 0 <= i < |p.files| ==> !InSlot(p, i, q)
  }

  ghost predicate PhasesOk(p: Plan, s: State)
    requires |p.io| == |p.files| && Claims(p, s)
  {
    forall w :: 0 <= w < |s.workers| ==> PhaseOk(p, s.workers[w])
  }

  /** The state of every path is determined by how far each file is. */
  ghost predicate FsShows(p: Plan, s: State)
    requires ValidPlan(p) && Claims(p, s) && PhasesOk(p, s)
  {
    && (forall w :: 0 <= w < |s.workers| && Idx(s.workers[w]) >= 0 ==>
          Slots(p, s.fs, PhaseFs(p, s.workers[w]), Idx(s.workers[w])))
    && (forall i :: 0 <= i < |p.files| && i < s.next && !Held(s.workers, i) ==>
          Slots(p, s.fs, Outcome(p, i), i))
    && (forall i :: s.next <= i < |p.files| ==> Slots(p, s.fs, p.fs, i))
    && (forall q :: Outside(p, q) ==> Agree(s.fs, p.fs, q))
    && (forall q :: IsDir(s.fs, q) <==> IsDir(p.fs, q))
  }

  // ----- the counters -----

  /** Files whose worker has tallied them. */
  ghost function Finished(p: Plan, s: State): set<nat> {
    set i | 0 <= i < |p.files| && i < s.next && !Held(s.workers, i)
  }

  predicate PastCount(ph: Phase) {
    ph.Reporting? || ph.Tallying?
  }

  ghost predicate Uncounted(ws: seq<Phase>, i: nat) {
    exists w :: 0 <= w < |ws| && Idx(ws[w]) == i && !PastCount(ws[w])
  }

  /** Files whose failure, if any, has been counted. */
  ghost function Counted(p: Plan, s: State): set<nat> {
    set i | 0 <= i < |p.files| && i < s.next && !Uncounted(s.workers, i)
  }

  function Ones(p: Plan): seq<nat> {
    seq(|p.files|, i => 1)
  }

  function Failures(p: Plan): seq<nat>
    requires |p.io| == |p.files|
  {
    seq(|p.files|, i requires 0 <= i < |p.files| => if Succeeds(p, i) then 0 else 1)
  }

  function Earnings(p: Plan): seq<nat>
    requires |p.io| == |p.files|
  {
    seq(|p.files|, i requires 0 <= i < |p.files| => if Succeeds(p, i) then Size(p, i) else 0)
  }

  ghost predicate Counts(p: Plan, s0: Job, s: State)
    requires |p.io| == |p.files|
  {
    && s.failed == SumIn(Failures(p), Counted(p, s))
    && s.job.doneFiles == s0.doneFiles + SumIn(Ones(p), Finished(p, s))
    && s.job.doneBytes == s0.doneBytes + SumIn(Earnings(p), Finished(p, s))
  }

  // ----- one step -----

  /** What a step of the worker that holds file `i` does to the filesystem: it
      touches no place but the two of its file, and leaves those as its new phase
      says. */
  ghost predicate ActsOn(p: Plan, fs: FS, fs1: FS, i: nat, ph1: Phase)
    requires |p.io| == |p.files| && i < |p.files|
  {
    && (forall q :: !InSlot(p, i, q) ==> Agree(fs1, fs, q))
    && (forall q :: IsDir(fs1, q) <==> IsDir(fs, q))
    && (ph1 == Claiming || (Idx(ph1) == i && PhaseOk(p, ph1) && Slots(p, fs1, PhaseFs(p, ph1), i)))
  }

  ghost predicate Ready(p: Plan, s: State, ph: Phase)
    requires |p.io| == |p.files|
  {
    && ValidPlan(p) && 0 <= Idx(ph) < |p.files| && PhaseOk(p, ph)
    && Slots(p, s.fs, PhaseFs(p, ph), Idx(ph))
    && forall q :: IsDir(s.fs, q) <==> IsDir(p.fs, q)
  }

  lemma RenamingActs(p: Plan, s: State, i: nat, size: nat)
    requires |p.io| == |p.files| && i < |p.files| && Ready(p, s, Renaming(i, size))
    ensures var (fs1, ph1) := FileAction(p, s, Renaming(i, size));
            ActsOn(p, s.fs, fs1, i, ph1) && ph1 != Claiming
  {
    SlotsApart(p, i, i);
    assert Agree(s.fs, p.fs, Source(p, i)) && Agree(s.fs, p.fs, Target(p, i));
    assert CanPlace(s.fs, Target(p, i)) == CanPlace(p.fs, Target(p, i));
  }

  lemma OpeningActs(p: Plan, s: State, i: nat, size: nat)
    requires |p.io| == |p.files| && i < |p.files| && Ready(p, s, Opening(i, size))
    ensures var (fs1, ph1) := FileAction(p, s, Opening(i, size));
            ActsOn(p, s.fs, fs1, i, ph1) && ph1 != Claiming
  {
    SlotsApart(p, i, i);
    assert Agree(s.fs, p.fs, Source(p, i)) && Agree(s.fs, p.fs, Target(p, i));
    assert CanPlace(s.fs, Target(p, i)) == CanPlace(p.fs, Target(p, i));
  }

  lemma CopyingActs(p: Plan, s: State, i: nat, size: nat, done: nat)
    requires |p.io| == |p.files| && i < |p.files| && Ready(p, s, Copying(i, size, done))
    ensures var (fs1, ph1) := FileAction(p, s, Copying(i, size, done));
            ActsOn(p, s.fs, fs1, i, ph1) && ph1 != Claiming
  {
    SlotsApart(p, i, i);
    var data := p.fs[Source(p, i)].data;
    assert Agree(s.fs, p.fs, Source(p, i));
    if done == |data| {
      assert data[..done] == data;
    }
  }

  lemma RemovingActs(p: Plan, s: State, i: nat, size: nat)
    requires |p.io| == |p.files| && i < |p.files| && Ready(p, s, Removing(i, size))
    ensures var (fs1, ph1) := FileAction(p, s, Removing(i, size));
            ActsOn(p, s.fs, fs1, i, ph1) && ph1 != Claiming
  {
    SlotsApart(p, i, i);
    assert Agree(s.fs, p.fs, Source(p, i));
  }

  lemma FileActs(p: Plan, s: State, ph: Phase)
    requires |p.io| == |p.files| && Ready(p, s, ph)
    ensures var (fs1, ph1) := FileAction(p, s, ph);
            ActsOn(p, s.fs, fs1, Idx(ph), ph1) && (ph1 == Claiming <==> ph.Tallying?)
    ensures ph.Tallying? ==> FileAction(p, s, ph).0 == s.fs
  {
    SlotsApart(p, Idx(ph), Idx(ph));
    match ph
    case Renaming(i, size) => RenamingActs(p, s, i, size);
    case Opening(i, size) => OpeningActs(p, s, i, size);
    case Copying(i, size, done) => CopyingActs(p, s, i, size, done);
    case Removing(i, size) => RemovingActs(p, s, i, size);
    case _ =>
  }

  lemma UncountedUpdate(ws: seq<Phase>, w: nat, ph: Phase, i: nat)
    requires w < |ws|
    requires forall u, v :: 0 <= u < v < |ws| && Idx(ws[u]) >= 0 ==> Idx(ws[u]) != Idx(ws[v])
    ensures Uncounted(ws[w := ph], i) <==>
            (i == Idx(ph) && !PastCount(ph)) || (Uncounted(ws, i) && i != Idx(ws[w]))
  {
    var ws' := ws[w := ph];
    assert ws'[w] == ph;
    if Uncounted(ws, i) {
      var v :| 0 <= v < |ws| && Idx(ws[v]) == i && !PastCount(ws[v]);
      assert ws'[v] == ws[v] || v == w;
    }
    if Uncounted(ws', i) {
      var v :| 0 <= v < |ws'| && Idx(ws'[v]) == i && !PastCount(ws'[v]);
      assert ws'[v] == ws[v] || v == w;
    }
  }

  lemma StepClaims(p: Plan, s: State, w: nat)
    requires |p.io| == |p.files| && w < |s.workers| && Claims(p, s)
    requires Idx(s.workers[w]) >= 0 ==>
             Idx(FileAction(p, s, s.workers[w]).1) in {-1, Idx(s.workers[w])}
    requires FileAction(p, s, s.workers[w]).1.Stopped? ==> s.workers[w].Stopped?
    ensures Claims(p, Step(p, s, w))
  {
    assert s.workers[w].Stopped? ==> FileAction(p, s, s.workers[w]).1.Stopped?;
    hide FileAction, JobAction;
    var s' := Step(p, s, w);
    forall v | 0 <= v < |s.workers| && v != w ensures s'.workers[v] == s.workers[v] {}
  }

  lemma StepFs(p: Plan, s: State, w: nat)
    requires w < |s.workers| && Idx(s.workers[w]) >= 0
    requires ValidPlan(p) && Claims(p, s) && PhasesOk(p, s) && FsShows(p, s)
    requires Claims(p, Step(p, s, w))
    requires var (fs1, ph1) := FileAction(p, s, s.workers[w]);
             ActsOn(p, s.fs, fs1, Idx(s.workers[w]), ph1) && (ph1 == Claiming <==> s.workers[w].Tallying?)
    requires s.workers[w].Tallying? ==> FileAction(p, s, s.workers[w]).0 == s.fs
    ensures PhasesOk(p, Step(p, s, w)) && FsShows(p, Step(p, s, w))
  {
    hide FileAction, JobAction;
    var s' := Step(p, s, w);
    var i, ph1 := Idx(s.workers[w]), FileAction(p, s, s.workers[w]).1;
    forall v | 0 <= v < |s.workers| ensures s'.workers[v] == if v == w then ph1 else s.workers[v] {}
    forall j: nat ensures Held(s'.workers, j) <==> j == Idx(ph1) || (Held(s.workers, j) && j != i) {
      HeldUpdate(s.workers, w, ph1, j);
    }
    forall j: nat | j < |p.files| && j != i ensures !InSlot(p, i, Source(p, j)) && !InSlot(p, i, Target(p, j)) {
      SlotsApart(p, i, j);
      SlotsApart(p, j, i);
    }
    forall v | 0 <= v < |s'.workers| && Idx(s'.workers[v]) >= 0
      ensures Slots(p, s'.fs, PhaseFs(p, s'.workers[v]), Idx(s'.workers[v]))
    {
      if v != w {
        assert Slots(p, s.fs, PhaseFs(p, s.workers[v]), Idx(s.workers[v]));
      }
    }
    forall j | 0 <= j < |p.files| && j < s'.next && !Held(s'.workers, j)
      ensures Slots(p, s'.fs, Outcome(p, j), j)
    {
      if j == i {
        assert ph1 == Claiming && Slots(p, s.fs, PhaseFs(p, s.workers[w]), i);
      } else {
        assert Slots(p, s.fs, Outcome(p, j), j);
      }
    }
    forall j | s'.next <= j < |p.files| ensures Slots(p, s'.fs, p.fs, j) {
      assert Slots(p, s.fs, p.fs, j);
    }
    forall q | Outside(p, q) ensures Agree(s'.fs, p.fs, q) {
      assert !InSlot(p, i, q) && Agree(s.fs, p.fs, q);
    }
  }

  lemma ClaimFs(p: Plan, s: State, w: nat)
    requires w < |s.workers| && s.workers[w].Claiming?
    requires ValidPlan(p) && Claims(p, s) && PhasesOk(p, s) && FsShows(p, s)
    requires Claims(p, Step(p, s, w))
    ensures PhasesOk(p, Step(p, s, w)) && FsShows(p, Step(p, s, w))
  {
    var s' := Step(p, s, w);
    var ph1 := s'.workers[w];
    forall v | 0 <= v < |s.workers| ensures s'.workers[v] == if v == w then ph1 else s.workers[v] {}
    forall j: nat ensures Held(s'.workers, j) <==> j == Idx(ph1) || Held(s.workers, j) {
      HeldUpdate(s.workers, w, ph1, j);
    }
    assert s.next < |p.files| ==> Slots(p, s.fs, p.fs, s.next);
  }

  /** How one step moves files into the sets of finished and counted files. */
  lemma StepSets(p: Plan, s: State, w: nat, i: nat, ph1: Phase)
    requires w < |s.workers| && i == Idx(s.workers[w]) && i < |p.files|
    requires Claims(p, s) && (ph1 == Claiming || Idx(ph1) == i)
    ensures var s' := s.(workers := s.workers[w := ph1]);
            && i !in Finished(p, s) && (i in Counted(p, s) <==> PastCount(s.workers[w]))
            && Finished(p, s') == Finished(p, s) + (if ph1 == Claiming then {i} else {})
            && Counted(p, s') ==
               Counted(p, s) - {i} + (if ph1 == Claiming || PastCount(ph1) then {i} else {})
  {
    var s' := s.(workers := s.workers[w := ph1]);
    assert Held(s.workers, i);
    assert PastCount(s.workers[w]) ==> !Uncounted(s.workers, i);
    forall j: nat
      ensures Held(s'.workers, j) <==> j == Idx(ph1) || (Held(s.workers, j) && j != i)
      ensures Uncounted(s'.workers, j) <==>
              (j == Idx(ph1) && !PastCount(ph1)) || (Uncounted(s.workers, j) && j != i)
    {
      HeldUpdate(s.workers, w, ph1, j);
      UncountedUpdate(s.workers, w, ph1, j);
    }
    forall j ensures j in Finished(p, s') <==> j in Finished(p, s) || (j == i && ph1 == Claiming) {}
    forall j ensures j in Counted(p, s') <==>
                     (j in Counted(p, s) && j != i) || (j == i && (ph1 == Claiming || PastCount(ph1))) {}
  }

  /** How one step of a worker that holds a file changes the counters. */
  lemma StepTotals(p: Plan, s: State, w: nat)
    requires w < |s.workers| && 0 <= Idx(s.workers[w]) < |p.files| && |p.io| == |p.files|
    requires Claims(p, s) && PhasesOk(p, s)
    requires var ph1 := FileAction(p, s, s.workers[w]).1;
             ph1 == Claiming || (Idx(ph1) == Idx(s.workers[w]) && PhaseOk(p, ph1))
    ensures var ph, ph1, s' := s.workers[w], FileAction(p, s, s.workers[w]).1, Step(p, s, w);
            && s'.workers == s.workers[w := ph1] && s'.next == s.next
            && s'.failed == s.failed +
                 (if PastCount(ph1) && !PastCount(ph) then Failures(p)[Idx(ph)] else 0)
            && s'.job.doneFiles == s.job.doneFiles + (if ph.Tallying? then 1 else 0)
            && s'.job.doneBytes == s.job.doneBytes + (if ph.Tallying? then Earnings(p)[Idx(ph)] else 0)
  {
    assert PhaseOk(p, s.workers[w]);
  }

  /** A step tallies the worker's file, or counts its failure or success, or neither. */
  lemma WorkedSets(p: Plan, s: State, w: nat)
    requires w < |s.workers| && 0 <= Idx(s.workers[w]) < |p.files| && |p.io| == |p.files| && Claims(p, s)
    requires var ph1 := FileAction(p, s, s.workers[w]).1;
             (ph1 == Claiming <==> s.workers[w].Tallying?) && (ph1 == Claiming || Idx(ph1) == Idx(s.workers[w]))
    ensures var ph, i, s' := s.workers[w], Idx(s.workers[w]), Step(p, s, w);
            var counts := PastCount(FileAction(p, s, ph).1) && !PastCount(ph);
            && i !in Finished(p, s) && (counts ==> i !in Counted(p, s))
            && Finished(p, s') == (if ph.Tallying? then Finished(p, s) + {i} else Finished(p, s))
            && Counted(p, s') == (if counts then Counted(p, s) + {i} else Counted(p, s))
  {
    var ph, i, ph1 := s.workers[w], Idx(s.workers[w]), FileAction(p, s, s.workers[w]).1;
    var s' := Step(p, s, w);
    var s1 := s.(workers := s.workers[w := ph1]);
    StepSets(p, s, w, i, ph1);
    assert PastCount(ph) ==> ph1 == Claiming || PastCount(ph1);
    assert Finished(p, s') == Finished(p, s1) && Counted(p, s') == Counted(p, s1);
    hide Finished, Counted, Claims, Step, FileAction;
  }

  lemma StepCounts(p: Plan, j0: Job, s: State, w: nat)
    requires w < |s.workers| && 0 <= Idx(s.workers[w]) < |p.files|
    requires |p.io| == |p.files| && Claims(p, s) && PhasesOk(p, s) && Counts(p, j0, s)
    requires var ph1 := FileAction(p, s, s.workers[w]).1;
             (ph1 == Claiming <==> s.workers[w].Tallying?) &&
             (ph1 == Claiming || (Idx(ph1) == Idx(s.workers[w]) && PhaseOk(p, ph1)))
    ensures Counts(p, j0, Step(p, s, w))
  {
    var ph, i := s.workers[w], Idx(s.workers[w]);
    StepTotals(p, s, w);
    WorkedSets(p, s, w);
    hide Finished, Counted, Succeeds, Size, Claims, PhasesOk, PhaseOk, Step, FileAction, PastCount;
    if ph.Tallying? {
      SumInAdd(Ones(p), Finished(p, s), i);
      SumInAdd(Earnings(p), Finished(p, s), i);
    }
    if i !in Counted(p, s) {
      SumInAdd(Failures(p), Counted(p, s), i);
    }
  }

  lemma ClaimCounts(p: Plan, j0: Job, s: State, w: nat)
    requires w < |s.workers| && s.workers[w].Claiming?
    requires |p.io| == |p.files| && Claims(p, s) && Counts(p, j0, s)
    ensures Finished(p, Step(p, s, w)) == Finished(p, s)
    ensures Counts(p, j0, Step(p, s, w))
  {
    var s' := Step(p, s, w);
    var ph1 := s'.workers[w];
    forall j: nat
      ensures Held(s'.workers, j) <==> j == Idx(ph1) || Held(s.workers, j)
      ensures Uncounted(s'.workers, j) <==> j == Idx(ph1) || Uncounted(s.workers, j)
    {
      HeldUpdate(s.workers, w, ph1, j);
      UncountedUpdate(s.workers, w, ph1, j);
    }
    forall j ensures j in Finished(p, s') <==> j in Finished(p, s) {}
    forall j ensures j in Counted(p, s') <==> j in Counted(p, s) {}
    assert Finished(p, s') == Finished(p, s) && Counted(p, s') == Counted(p, s);
  }

  // ----- the error that is reported -----

  /** No error is set as long as every failure is still on its way to the record;
      an error that is set names a file that did fail. */
  ghost predicate Errors(p: Plan, s: State)
    requires |p.io| == |p.files|
  {
    match s.job.error
    case None =>
      && (forall i :: i in Finished(p, s) ==> Succeeds(p, i))
      && (forall w :: 0 <= w < |s.workers| && s.workers[w].Tallying? ==> s.workers[w].ok)
    case Some(x) => exists i :: 0 <= i < |p.files| && !Succeeds(p, i) && x == Source(p, i)
  }

  lemma StepErrors(p: Plan, s: State, w: nat)
    requires w < |s.workers| && 0 <= Idx(s.workers[w]) < |p.files|
    requires |p.io| == |p.files| && Claims(p, s) && PhasesOk(p, s) && Errors(p, s)
    requires var ph1 := FileAction(p, s, s.workers[w]).1;
             (ph1 == Claiming <==> s.workers[w].Tallying?) &&
             (ph1 == Claiming || (Idx(ph1) == Idx(s.workers[w]) && PhaseOk(p, ph1)))
    ensures Errors(p, Step(p, s, w))
  {
    var ph, i, ph1 := s.workers[w], Idx(s.workers[w]), FileAction(p, s, s.workers[w]).1;
    var s' := Step(p, s, w);
    var s1 := s.(workers := s.workers[w := ph1]);
    StepSets(p, s, w, i, ph1);
    assert Finished(p, s') == Finished(p, s1);
    hide Claims, Finished;
    if ph.Reporting? && s.job.error.None? {
      assert !Succeeds(p, i) && s'.job.error == Some(Source(p, i));
    }
  }

  // ----- the invariant of all runs -----

  ghost predicate Inv(p: Plan, j0: Job, s: State) {
    && ValidPlan(p) && Claims(p, s) && PhasesOk(p, s)
    && FsShows(p, s) && Counts(p, j0, s) && Errors(p, s)
    && |s.job.current| <= CURRENT_LIMIT
    && s.job == j0.(doneFiles := s.job.doneFiles, doneBytes := s.job.doneBytes,
                    current := s.job.current, error := s.job.error)
  }

  lemma StepInv(p: Plan, j0: Job, s: State, w: nat)
    requires Inv(p, j0, s)
    ensures Inv(p, j0, Step(p, s, w))
  {
    if w < |s.workers| {
      var ph := s.workers[w];
      if ph.Claiming? {
        StepClaims(p, s, w);
        ClaimFs(p, s, w);
        ClaimCounts(p, j0, s, w);
      } else if ph.Stopped? {
        assert s.workers[w := Stopped] == s.workers;
      } else {
        FileActs(p, s, ph);
        StepClaims(p, s, w);
        StepFs(p, s, w);
        StepCounts(p, j0, s, w);
        StepErrors(p, s, w);
      }
    }
  }

  lemma StartInv(p: Plan, j0: Job, threads: nat)
    requires ValidPlan(p) && j0.error.None? && |j0.current| <= CURRENT_LIMIT
    ensures Inv(p, j0, Start(p, j0, threads))
  {
    var s := Start(p, j0, threads);
    assert Finished(p, s) == {} && Counted(p, s) == {};
    SumInEmpty(Failures(p));
    SumInEmpty(Ones(p));
    SumInEmpty(Earnings(p));
  }

  lemma {:induction false} RunInv(p: Plan, j0: Job, threads: nat, schedule: seq<nat>)
    requires ValidPlan(p) && j0.error.None? && |j0.current| <= CURRENT_LIMIT
    ensures Inv(p, j0, Run(p, Start(p, j0, threads), schedule))
    decreases |schedule|
  {
    if schedule == [] {
      StartInv(p, j0, threads);
    } else {
      var n := |schedule| - 1;
      RunInv(p, j0, threads, schedule[..n]);
      StepInv(p, j0, Run(p, Start(p, j0, threads), schedule[..n]), schedule[n]);
    }
  }
}
