/** The results about the transfer pool: every interleaving ends as one thread
    working in list order would, and no state on the way has lost a file. */
module TransferTheorems {
  import opened FileSystem
  import opened Jobs
  import opened Sums
  import opened TransferPool
  import opened TransferProofs
  import opened AnyPlan

  // ----- the sequential form -----

  /** Handling file `i` depends on, and changes, only what is at its two places. */
  lemma TransferOneLocal(p: Plan, fs: FS, i: nat)
    requires ValidPlan(p) && i < |p.files|
    requires Slots(p, fs, p.fs, i) && forall q :: IsDir(fs, q) <==> IsDir(p.fs, q)
    ensures TransferOne(p, fs, i).1 == Succeeds(p, i)
    ensures Slots(p, TransferOne(p, fs, i).0, Outcome(p, i), i)
    ensures forall q :: !InSlot(p, i, q) ==> Agree(TransferOne(p, fs, i).0, fs, q)
    ensures forall q :: IsDir(TransferOne(p, fs, i).0, q) <==> IsDir(p.fs, q)
    ensures SizeOn(p, fs, i) == Size(p, i)
  {
    SlotsApart(p, i, i);
    assert CanPlace(fs, Target(p, i)) == CanPlace(p.fs, Target(p, i));
    assert Agree(fs, p.fs, Source(p, i)) && Agree(fs, p.fs, Target(p, i));
  }

  /** The next file changes nothing at the places of the others. */
  lemma OthersKept(p: Plan, a: FS, b: FS, i: nat, j: nat, x: FS)
    requires ValidPlan(p) && i < |p.files| && j < |p.files| && j != i
    requires forall q :: !InSlot(p, i, q) ==> Agree(b, a, q)
    requires Slots(p, a, x, j)
    ensures Slots(p, b, x, j)
  {
    SlotsApart(p, i, j);
    SlotsApart(p, j, i);
    assert !InSlot(p, i, Source(p, j)) && !InSlot(p, i, Target(p, j));
    hide Source, Target, ValidPlan;
  }

  /** What the first `n` files have done to the filesystem. */
  ghost predicate Handled(p: Plan, fs: FS, n: nat)
    requires |p.io| == |p.files|
  {
    && (forall i :: 0 <= i < n && i < |p.files| ==> Slots(p, fs, Outcome(p, i), i))
    && (forall i :: n <= i < |p.files| ==> Slots(p, fs, p.fs, i))
    && (forall q :: Outside(p, q) ==> Agree(fs, p.fs, q))
    && (forall q :: IsDir(fs, q) <==> IsDir(p.fs, q))
  }

  lemma HandledNext(p: Plan, fs: FS, i: nat)
    requires ValidPlan(p) && i < |p.files| && Handled(p, fs, i)
    ensures Handled(p, TransferOne(p, fs, i).0, i + 1)
    ensures TransferOne(p, fs, i).1 == Succeeds(p, i) && SizeOn(p, fs, i) == Size(p, i)
  {
    TransferOneLocal(p, fs, i);
    var fs1 := TransferOne(p, fs, i).0;
    hide TransferOne, Outcome, Succeeds, ValidPlan, InSlot;
    forall j | 0 <= j <= i ensures Slots(p, fs1, Outcome(p, j), j) {
      if j < i { OthersKept(p, fs, fs1, i, j, Outcome(p, j)); }
    }
    forall j | i < j < |p.files| ensures Slots(p, fs1, p.fs, j) {
      OthersKept(p, fs, fs1, i, j, p.fs);
    }
    forall q | Outside(p, q) ensures Agree(fs1, p.fs, q) {
      assert !InSlot(p, i, q) && Agree(fs, p.fs, q);
    }
  }

  /** What one thread working in list order has done after `n` files. */
  lemma {:induction false} InOrderShows(p: Plan, n: nat)
    requires ValidPlan(p) && n <= |p.files|
    ensures var t := InOrder(p, n);
            && (forall i :: 0 <= i < n ==> Slots(p, t.fs, Outcome(p, i), i))
            && (forall i :: n <= i < |p.files| ==> Slots(p, t.fs, p.fs, i))
            && (forall q :: Outside(p, q) ==> Agree(t.fs, p.fs, q))
            && (forall q :: IsDir(t.fs, q) <==> IsDir(p.fs, q))
            && t.failed == SumIn(Failures(p), FirstN(n))
            && t.doneFiles == n
            && t.doneBytes == SumIn(Earnings(p), FirstN(n))
  {
    InOrderTotals(p, n);
    hide InOrder, Outcome, Slots, Outside;
  }

  /** The same with the places taken together. */
  ghost predicate Totalled(p: Plan, t: Totals, n: nat)
    requires |p.io| == |p.files|
  {
    && Handled(p, t.fs, n)
    && t.failed == SumIn(Failures(p), FirstN(n))
    && t.doneFiles == n
    && t.doneBytes == SumIn(Earnings(p), FirstN(n))
  }

  lemma {:induction false} InOrderTotals(p: Plan, n: nat)
    requires ValidPlan(p) && n <= |p.files|
    ensures Totalled(p, InOrder(p, n), n)
  {
    hide Totalled, InOrder, Walked, NoCollision;
    if n == 0 {
      NothingTotalled(p);
    } else {
      InOrderTotals(p, n - 1);
      NextTotalled(p, n - 1);
    }
  }

  lemma NothingTotalled(p: Plan)
    requires ValidPlan(p)
    ensures Totalled(p, InOrder(p, 0), 0)
  {
    SumInEmpty(Failures(p));
    SumInEmpty(Earnings(p));
  }

  lemma NextTotalled(p: Plan, i: nat)
    requires ValidPlan(p) && i < |p.files| && Totalled(p, InOrder(p, i), i)
    ensures Totalled(p, InOrder(p, i + 1), i + 1)
  {
    HandledNext(p, InOrder(p, i).fs, i);
    SumInNext(Failures(p), i);
    SumInNext(Earnings(p), i);
    hide Handled, TransferOne, Walked, NoCollision, Succeeds, Size, SizeOn, SumIn, FirstN;
  }

  // ----- every interleaving ends the same -----

  /** Once every worker has stopped, every file is finished. */
  lemma StoppedIsFinished(p: Plan, j0: Job, s: State)
    requires Inv(p, j0, s) && AllStopped(s) && |s.workers| > 0
    ensures Finished(p, s) == FirstN(|p.files|) == Counted(p, s)
  {
    assert s.workers[0].Stopped?;
    assert forall i: nat :: !Held(s.workers, i) && !Uncounted(s.workers, i);
    forall i ensures i in Finished(p, s) <==> i in FirstN(|p.files|) {}
    forall i ensures i in Counted(p, s) <==> i in FirstN(|p.files|) {}
  }

  lemma AgreeByView(p: Plan, a: FS, b: FS)
    requires |p.io| == |p.files|
    requires forall i :: 0 <= i < |p.files| ==> Slots(p, a, Outcome(p, i), i) && Slots(p, b, Outcome(p, i), i)
    requires forall q :: Outside(p, q) ==> Agree(a, p.fs, q) && Agree(b, p.fs, q)
    ensures a == b
  {
    forall q ensures Agree(a, b, q) {
      if !Outside(p, q) {
        var i :| 0 <= i < |p.files| && InSlot(p, i, q);
        assert Slots(p, a, Outcome(p, i), i) && Slots(p, b, Outcome(p, i), i);
      } else {
        assert Agree(a, p.fs, q) && Agree(b, p.fs, q);
      }
    }
    SameByAgreement(a, b);
  }

  /** For any number of workers and any interleaving of their steps, a pool whose
      workers have all stopped has produced what one worker taking the files in
      list order produces: the same filesystem, the same count of failures, files
      and bytes; and it reports an error exactly when some file failed. */
  lemma EveryScheduleAgrees(p: Plan, j0: Job, threads: nat, schedule: seq<nat>)
    requires ValidPlan(p) && j0.error.None? && |j0.current| <= CURRENT_LIMIT && threads > 0
    requires AllStopped(Run(p, Start(p, j0, threads), schedule))
    ensures var s, t := Run(p, Start(p, j0, threads), schedule), InOrder(p, |p.files|);
            && s.fs == t.fs
            && s.failed == t.failed
            && s.job.doneFiles == j0.doneFiles + t.doneFiles == j0.doneFiles + |p.files|
            && s.job.doneBytes == j0.doneBytes + t.doneBytes
            && (s.job.error.Some? <==> t.failed > 0)
  {
    var s, n := Run(p, Start(p, j0, threads), schedule), |p.files|;
    RunInv(p, j0, threads, schedule);
    RunWorkers(p, Start(p, j0, threads), schedule);
    StoppedAgrees(p, j0, s);
  }

  lemma StoppedAgrees(p: Plan, j0: Job, s: State)
    requires Inv(p, j0, s) && AllStopped(s) && |s.workers| > 0
    ensures var t := InOrder(p, |p.files|);
            && s.fs == t.fs && s.failed == t.failed
            && s.job.doneFiles == j0.doneFiles + |p.files| && t.doneFiles == |p.files|
            && s.job.doneBytes == j0.doneBytes + t.doneBytes
            && (s.job.error.Some? <==> t.failed > 0)
  {
    var n := |p.files|;
    StoppedIsFinished(p, j0, s);
    InOrderTotals(p, n);
    OnesSum(p, n);
    StoppedShows(p, j0, s);
    StoppedErrors(p, j0, s);
    hide InOrder, SumIn, FirstN, Finished, Counted, Claims, PhasesOk, FsShows, Errors, ValidPlan;
  }

  lemma StoppedShows(p: Plan, j0: Job, s: State)
    requires Inv(p, j0, s) && AllStopped(s) && |s.workers| > 0
    ensures s.fs == InOrder(p, |p.files|).fs
  {
    StoppedIsFinished(p, j0, s);
    forall i | 0 <= i < |p.files| ensures Slots(p, s.fs, Outcome(p, i), i) {
      assert i in Finished(p, s);
    }
    InOrderShows(p, |p.files|);
    hide InOrder, Slots, Finished, Counted, Claims, PhasesOk, Errors, ValidPlan;
    AgreeByView(p, s.fs, InOrder(p, |p.files|).fs);
  }

  lemma StoppedErrors(p: Plan, j0: Job, s: State)
    requires Inv(p, j0, s) && AllStopped(s) && |s.workers| > 0
    ensures s.job.error.Some? <==> SumIn(Failures(p), FirstN(|p.files|)) > 0
  {
    var n := |p.files|;
    StoppedIsFinished(p, j0, s);
    SumInZero(Failures(p), FirstN(n));
    hide SumIn, Claims, PhasesOk, FsShows, ValidPlan, Counts, Succeeds, Size;
    if s.job.error.Some? {
      var i :| 0 <= i < n && !Succeeds(p, i) && s.job.error == Some(Source(p, i));
      assert Failures(p)[i] == 1 && i in FirstN(n);
    } else {
      forall i | 0 <= i < n ensures Failures(p)[i] == 0 { assert i in Finished(p, s); }
    }
  }

  // ----- nothing is lost on the way -----

  predicate HasContent(fs: FS, q: Path, data: Bytes) {
    q in fs && fs[q] == File(data)
  }

  /** File `i` can still be read in full from one of its two places, and for a copy
      from its source. */
  predicate KeepsFile(p: Plan, fs: FS, i: nat)
    requires ValidPlan(p) && i < |p.files|
  {
    var data := p.fs[Source(p, i)].data;
    if p.op == Copy then HasContent(fs, Source(p, i), data)
    else HasContent(fs, Source(p, i), data) || HasContent(fs, Target(p, i), data)
  }

  lemma OutcomeKeeps(p: Plan, i: nat)
    requires ValidPlan(p) && i < |p.files|
    ensures KeepsFile(p, Outcome(p, i), i)
  {
    SlotsApart(p, i, i);
  }

  lemma PhaseKeeps(p: Plan, ph: Phase)
    requires ValidPlan(p) && 0 <= Idx(ph) < |p.files| && PhaseOk(p, ph)
    ensures KeepsFile(p, PhaseFs(p, ph), Idx(ph))
  {
    SlotsApart(p, Idx(ph), Idx(ph));
    OutcomeKeeps(p, Idx(ph));
  }

  /** In every state of every run, including in the middle of a copy and after any
      failure, each file's whole original content is at its source or its target. */
  lemma NothingLost(p: Plan, j0: Job, s: State, i: nat)
    requires Inv(p, j0, s) && i < |p.files|
    ensures KeepsFile(p, s.fs, i)
  {
    hide Outcome;
    if Held(s.workers, i) {
      var w :| 0 <= w < |s.workers| && Idx(s.workers[w]) == i;
      PhaseKeeps(p, s.workers[w]);
      assert Slots(p, s.fs, PhaseFs(p, s.workers[w]), i);
    } else if i < s.next {
      OutcomeKeeps(p, i);
      assert Slots(p, s.fs, Outcome(p, i), i);
    } else {
      assert Slots(p, s.fs, p.fs, i);
    }
  }

  /** Nothing outside the sources and targets ever changes. */
  lemma OthersUntouched(p: Plan, j0: Job, s: State, q: Path)
    requires Inv(p, j0, s)
    requires !Under(p.src, q) && !Under(p.dst, q)
    ensures Agree(s.fs, p.fs, q)
  {
    forall i | 0 <= i < |p.files| ensures !InSlot(p, i, q) {
      TargetPathInjective(p.dst, p.files[i], p.files[i]);
      assert Under(p.src, Source(p, i)) && Under(p.dst, Target(p, i));
    }
    assert Outside(p, q);
  }

  // ----- the counters at every lock release -----

  function Length(p: Plan, i: nat): nat
    requires i < |p.files|
  {
    if IsFile(p.fs, Source(p, i)) then |p.fs[Source(p, i)].data| else 0
  }

  function Lengths(p: Plan): seq<nat> {
    seq(|p.files|, i requires 0 <= i < |p.files| => Length(p, i))
  }

  lemma EarningOf(p: Plan, i: nat)
    requires ValidPlan(p) && i < |p.files|
    ensures Earnings(p)[i] <= Lengths(p)[i]
    ensures Earnings(p)[i] == Lengths(p)[i] <==>
            (p.fs[Source(p, i)].data != [] ==> Succeeds(p, i) && p.io[i].statOk)
  {
  }

  /** When the pool is done all files are tallied, and the bytes are complete
      exactly when every non-empty file arrived and its size could be read. */
  lemma BytesComplete(p: Plan, j0: Job, s: State)
    requires Inv(p, j0, s) && AllStopped(s) && |s.workers| > 0
    requires j0.doneBytes == 0 && j0.totalBytes == SumIn(Lengths(p), FirstN(|p.files|))
    ensures s.job.doneBytes == s.job.totalBytes <==>
            forall i :: 0 <= i < |p.files| && p.fs[Source(p, i)].data != [] ==>
              Succeeds(p, i) && p.io[i].statOk
  {
    StoppedIsFinished(p, j0, s);
    SumsOfEarnings(p);
  }

  lemma SumsOfEarnings(p: Plan)
    requires ValidPlan(p)
    ensures SumIn(Earnings(p), FirstN(|p.files|)) <= SumIn(Lengths(p), FirstN(|p.files|))
    ensures SumIn(Earnings(p), FirstN(|p.files|)) == SumIn(Lengths(p), FirstN(|p.files|)) <==>
            forall i :: 0 <= i < |p.files| && p.fs[Source(p, i)].data != [] ==>
              Succeeds(p, i) && p.io[i].statOk
  {
    var e, l, n := Earnings(p), Lengths(p), |p.files|;
    forall i | 0 <= i < n
      ensures e[i] <= l[i]
      ensures e[i] == l[i] <==> (p.fs[Source(p, i)].data != [] ==> Succeeds(p, i) && p.io[i].statOk)
    {
      EarningOf(p, i);
    }
    hide Succeeds, Source;
    SumInWeights(e, l, FirstN(n));
  }
}
