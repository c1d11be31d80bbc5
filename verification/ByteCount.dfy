/** Exactly when the bytes a transfer pool counts stay within the total of the walk. */
module ByteCount {
  import opened FileSystem
  import opened Jobs
  import opened Sums
  import opened TransferPool
  import opened TransferProofs
  import opened AnyPlan
  import opened TransferTheorems
  import opened Schedules
  import opened Collisions

  /** No file goes to the place of a smaller one. */
  ghost predicate SizesFit(p: Plan) {
    forall i: nat, k: nat :: i < |p.files| && k < |p.files| && Target(p, i) == Source(p, k) ==>
      Length(p, i) <= Length(p, k)
  }

  function Total(p: Plan): nat {
    SumIn(Lengths(p), FirstN(|p.files|))
  }

  // ----- then they do, for every plan and whatever fails -----

  predicate SizeFits(p: Plan, ph: Phase) {
    0 <= Idx(ph) < |p.files| && !ph.Statting? ==> ph.size <= Length(p, Idx(ph))
  }

  /** At a place a file comes from there never is a larger one. */
  ghost predicate PlacesFit(p: Plan, fs: FS) {
    forall k: nat :: k < |p.files| && IsFile(fs, Source(p, k)) ==> |fs[Source(p, k)].data| <= Length(p, k)
  }

  ghost predicate Metered(p: Plan, j0: Job, s: State) {
    && PlacesFit(p, s.fs)
    && (forall w :: 0 <= w < |s.workers| ==> SizeFits(p, s.workers[w]))
    && s.job.doneBytes <= j0.doneBytes + SumIn(Lengths(p), Finished(p, s))
  }

  lemma ActionFits(p: Plan, s: State, ph: Phase)
    requires |p.io| == |p.files| && 0 <= Idx(ph) < |p.files| && SizesFit(p) && PlacesFit(p, s.fs) && SizeFits(p, ph)
    ensures PlacesFit(p, FileAction(p, s, ph).0) && SizeFits(p, FileAction(p, s, ph).1)
  {
    var i, fs1 := Idx(ph), FileAction(p, s, ph).0;
    forall k: nat | k < |p.files| && IsFile(fs1, Source(p, k)) ensures |fs1[Source(p, k)].data| <= Length(p, k) {
      assert IsFile(s.fs, Source(p, i)) ==> |s.fs[Source(p, i)].data| <= Length(p, i);
      assert Target(p, i) == Source(p, k) ==> Length(p, i) <= Length(p, k);
      hide Length;
    }
  }

  lemma StepMetered(p: Plan, j0: Job, s: State, w: nat)
    requires |p.io| == |p.files| && SizesFit(p) && Claims(p, s) && Metered(p, j0, s)
    ensures Metered(p, j0, Step(p, s, w))
  {
    if w < |s.workers| {
      var ph := s.workers[w];
      if ph.Claiming? {
        ClaimFinished(p, s, w);
        hide SumIn, Finished;
      } else if ph.Stopped? {
        assert s.workers[w := Stopped] == s.workers;
      } else {
        ActionKeeps(p, s, ph);
        ActionFits(p, s, ph);
        WorkedSets(p, s, w);
        hide Finished, FileAction, Claims, PlacesFit, SizesFit;
        if ph.Tallying? { SumInAdd(Lengths(p), Finished(p, s), Idx(ph)); }
      }
    }
  }

  lemma {:induction false} RunMetered(p: Plan, j0: Job, threads: nat, schedule: seq<nat>)
    requires Walked(p) && SizesFit(p) && j0.error.None? && |j0.current| <= CURRENT_LIMIT
    ensures Metered(p, j0, Run(p, Start(p, j0, threads), schedule))
    decreases |schedule|
  {
    if schedule == [] {
      assert Finished(p, Start(p, j0, threads)) == {};
      SumInEmpty(Lengths(p));
    } else {
      var n := |schedule| - 1;
      RunMetered(p, j0, threads, schedule[..n]);
      RunGeneral(p, j0, threads, schedule[..n]);
      hide Metered, Step, SizesFit, Walked;
      StepMetered(p, j0, Run(p, Start(p, j0, threads), schedule[..n]), schedule[n]);
    }
  }

  lemma BytesWithin(p: Plan, j0: Job, threads: nat, schedule: seq<nat>)
    requires Walked(p) && SizesFit(p) && j0.error.None? && |j0.current| <= CURRENT_LIMIT
    ensures Run(p, Start(p, j0, threads), schedule).job.doneBytes <= j0.doneBytes + Total(p)
  {
    RunMetered(p, j0, threads, schedule);
    hide Run;
    SumInMonotone(Lengths(p), Finished(p, Run(p, Start(p, j0, threads), schedule)), FirstN(|p.files|));
  }

  /** Whenever the lock is free the counters are within the totals of the walk. */
  lemma CountersSane(p: Plan, j0: Job, threads: nat, schedule: seq<nat>)
    requires Walked(p) && SizesFit(p) && j0.error.None? && Sane(j0)
    requires j0.doneFiles == 0 && j0.totalFiles == |p.files|
    requires j0.doneBytes == 0 && j0.totalBytes == Total(p)
    ensures Sane(Run(p, Start(p, j0, threads), schedule).job)
  {
    RunGeneral(p, j0, threads, schedule);
    BytesWithin(p, j0, threads, schedule);
    hide Run, Start, Total, SizesFit, Walked;
    TalliedWithin(p, j0, Run(p, Start(p, j0, threads), schedule));
  }

  // ----- otherwise some schedule counts more -----

  /** Each worker has its own file, and all but that of `k` have read their sizes. */
  predicate AllStatted(p: Plan, s: State, m: nat, k: nat) {
    && m <= |s.workers| && m <= |p.files| && s.next == m && s.fs == p.fs
    && (forall w :: 0 <= w < m ==>
          s.workers[w] == if w == k then Statting(w) else Announcing(w, Length(p, w)))
    && (forall w :: m <= w < |s.workers| ==> s.workers[w] == Claiming)
  }

  lemma ClaimNext(p: Plan, s: State, m: nat, k: nat)
    requires |p.io| == |p.files| && AllStatted(p, s, m, k) && m < |p.files| && m < |s.workers|
    ensures var s1 := Step(p, s, m);
            s1 == s.(next := m + 1, workers := s.workers[m := Statting(m)]) && (m == k ==> AllStatted(p, s1, m + 1, k))
  {
  }

  lemma StatNext(p: Plan, s: State, m: nat, k: nat)
    requires Smooth(p) && AllStatted(p, s, m, k) && m < |p.files| && m < |s.workers| && m != k
    ensures var t := Step(p, Step(p, s, m), m);
            AllStatted(p, t, m + 1, k) && t.job == s.job && |t.workers| == |s.workers|
  {
    assert Works(p.io[m]) && IsFile(p.fs, Source(p, m));
    hide Smooth;
    ClaimNext(p, s, m, k);
    var s1, ph := Step(p, s, m), Announcing(m, Length(p, m));
    assert Step(p, s1, m) == s1.(workers := s.workers[m := ph]);
  }

  lemma {:induction false} StatAll(p: Plan, j0: Job, threads: nat, m: nat, k: nat) returns (schedule: seq<nat>)
    requires Smooth(p) && m <= |p.files| <= threads
    ensures var t := Run(p, Start(p, j0, threads), schedule);
            AllStatted(p, t, m, k) && |t.workers| == threads && t.job == j0
  {
    var s0 := Start(p, j0, threads);
    if m == 0 {
      schedule := [];
    } else {
      var i := m - 1;
      var before := StatAll(p, j0, threads, i, k);
      hide Run, Start, Smooth, Step;
      var s := Run(p, s0, before);
      var s1 := Step(p, s, i);
      ClaimNext(p, s, i, k);
      RunOnce(p, s, i);
      if i == k {
        schedule := before + [i];
        RunConcat(p, s0, before, [i]);
      } else {
        StatNext(p, s, i, k);
        hide AllStatted;
        RunOnce(p, s1, i);
        RunThen(p, s, i, [i]);
        schedule := before + ([i] + [i]);
        RunConcat(p, s0, before, [i] + [i]);
      }
    }
  }

  /** Every file is claimed, and those whose size has been read will be counted by `weights`. */
  ghost predicate Priced(p: Plan, j0: Job, s: State, weights: seq<nat>) {
    && |weights| == |p.files| <= s.next
    && (forall w :: 0 <= w < |s.workers| && Idx(s.workers[w]) >= 0 ==>
          Idx(s.workers[w]) < |weights| && (s.workers[w].Statting? || s.workers[w].size == weights[Idx(s.workers[w])]))
    && s.job.doneBytes == j0.doneBytes + SumIn(weights, Finished(p, s))
  }

  lemma StepPriced(p: Plan, j0: Job, s: State, w: nat, weights: seq<nat>)
    requires Sound(p, j0, s) && Priced(p, j0, s, weights) && w < |s.workers|
    requires s.workers[w].Statting? ==> SizeOn(p, s.fs, s.workers[w].i) == weights[s.workers[w].i]
    ensures Priced(p, j0, Step(p, s, w), weights)
    ensures !Step(p, s, w).workers[w].Statting?
  {
    var ph := s.workers[w];
    if ph.Claiming? {
      ClaimFinished(p, s, w);
      hide SumIn, Finished;
    } else if ph.Stopped? {
      assert s.workers[w := Stopped] == s.workers;
    } else {
      ActionKeeps(p, s, ph);
      WorkedSets(p, s, w);
      ActionPrice(p, s, ph);
      assert !Failing(ph);
      hide Finished, FileAction, Claims, SizeOn;
      if ph.Tallying? { SumInAdd(weights, Finished(p, s), Idx(ph)); }
    }
  }

  lemma ActionPrice(p: Plan, s: State, ph: Phase)
    requires |p.io| == |p.files| && 0 <= Idx(ph) < |p.files|
    ensures var ph1 := FileAction(p, s, ph).1;
            && !ph1.Statting?
            && (ph1 == Claiming || ph1.size == if ph.Statting? then SizeOn(p, s.fs, ph.i) else ph.size)
  {
  }

  /** The lengths, but for `k` that of what comes to its place. */
  function Weights(p: Plan, i: nat, k: nat): (r: seq<nat>)
    requires i < |p.files|
    ensures |r| == |p.files|
  {
    seq(|p.files|, m requires 0 <= m < |p.files| => if m == k then Length(p, i) else Length(p, m))
  }

  lemma WeightsExceed(p: Plan, i: nat, k: nat)
    requires i < |p.files| && k < |p.files| && Length(p, i) > Length(p, k)
    ensures SumIn(Weights(p, i, k), FirstN(|p.files|)) > Total(p)
  {
    var a, b := Lengths(p), Weights(p, i, k);
    SumInWeights(a, b, FirstN(|p.files|));
    assert a[k] != b[k];
  }

  /** The worker of `i` brings its file to the place of `k`. */
  lemma BringsLarger(p: Plan, j0: Job, s: State, i: nat, k: nat) returns (schedule: seq<nat>)
    requires Sound(p, j0, s) && Collides(p, i, k) && Priced(p, j0, s, Weights(p, i, k))
    requires AllStatted(p, s, |p.files|, k)
    ensures var t := Run(p, s, schedule);
            && Sound(p, j0, t) && Priced(p, j0, t, Weights(p, i, k))
            && t.workers == s.workers[i := Claiming] && HasContent(t.fs, Source(p, k), p.fs[Source(p, i)].data)
  {
    var c, weights := p.fs[Source(p, i)].data, Weights(p, i, k);
    CollidingMove(p, i, k, i);
    var inv: State -> bool := t => Sound(p, j0, t) && Priced(p, j0, t, weights) && Carries(p, t, i, c);
    StattedCarries(p, s, i, k);
    assert Bounded(p, s, Longest(s.fs));
    hide Step, Run, Sound, Priced, Source, Target, Carries, Bounded;
    assert inv(s);
    forall t: State | inv(t) && OnlyWorker(s, t, i) && Idx(t.workers[i]) == i ensures inv(Step(p, t, i)) {
      StepBringing(p, j0, t, i, k, c);
    }
    schedule := Alone(p, s, i, inv, Longest(s.fs));
    var t := Run(p, s, schedule);
    assert Fin(t, i) by { ReleasedNow(p, s, t, i); }
    Arrives(p, t, i, c);
  }

  lemma ReleasedNow(p: Plan, s: State, t: State, i: nat)
    requires AllStatted(p, s, |p.files|, |p.files|) || exists k :: AllStatted(p, s, |p.files|, k)
    requires i < |p.files| && t.workers == s.workers[i := Claiming]
    ensures !Held(t.workers, i)
  {
  }

  lemma StattedCarries(p: Plan, s: State, i: nat, k: nat)
    requires Walked(p) && AllStatted(p, s, |p.files|, k) && i < |p.files| && i != k
    ensures Carries(p, s, i, p.fs[Source(p, i)].data)
  {
    assert Idx(s.workers[i]) == i;
    assert Held(s.workers, i);
  }

  lemma StepBringing(p: Plan, j0: Job, s: State, i: nat, k: nat, c: Bytes)
    requires Sound(p, j0, s) && Collides(p, i, k) && Priced(p, j0, s, Weights(p, i, k)) && Carries(p, s, i, c)
    requires i < |s.workers| && Idx(s.workers[i]) == i && |c| == Length(p, i)
    ensures var t := Step(p, s, i);
            Sound(p, j0, t) && Priced(p, j0, t, Weights(p, i, k)) && Carries(p, t, i, c)
  {
    CollidingMove(p, i, k, i);
    assert Works(p.io[i]) && Spares(p, s.fs, s.workers[i], i, c);
    assert s.workers[i].Statting? ==> SizeOn(p, s.fs, i) == |c|;
    assert Weights(p, i, k)[i] == Length(p, i);
    hide Step, Sound, Priced, Carries, Spares, SizeOn, Weights, Source, Target;
    StepSound(p, j0, s, i);
    StepPriced(p, j0, s, i, Weights(p, i, k));
    StepCarries(p, j0, s, i, i, c);
  }

  /** Once all sizes have been read, the sum they make is what is counted in the end. */
  lemma EndPriced(p: Plan, j0: Job, s: State, weights: seq<nat>) returns (schedule: seq<nat>)
    requires Sound(p, j0, s) && Priced(p, j0, s, weights) && |s.workers| > 0
    requires forall w :: 0 <= w < |s.workers| ==> !s.workers[w].Statting?
    ensures var t := Run(p, s, schedule); t.job.doneBytes == j0.doneBytes + SumIn(weights, FirstN(|p.files|))
  {
    var inv: State -> bool := t => Sound(p, j0, t) && Priced(p, j0, t, weights)
                                   && forall w :: 0 <= w < |t.workers| ==> !t.workers[w].Statting?;
    forall t: State, w: nat | inv(t) && Claims(p, t) && w < |t.workers| ensures inv(Step(p, t, w)) {
      StepParts(p, j0, t, w);
      StepPriced(p, j0, t, w, weights);
    }
    schedule := Finish(p, s, inv, Longest(s.fs));
    var t := Run(p, s, schedule);
    hide Run, Sound, SumIn;
    forall r ensures r in Finished(p, t) <==> r in FirstN(|p.files|) {
      if 0 <= r < |p.files| { AllFin(p, t, r); }
    }
    assert Finished(p, t) == FirstN(|p.files|);
  }

  /** All files but `k` are statted, then the larger one comes to its place, then its size
      is read. */
  lemma Overcounts(p: Plan, j0: Job, threads: nat, i: nat, k: nat) returns (schedule: seq<nat>)
    requires Smooth(p) && j0.error.None? && |j0.current| <= CURRENT_LIMIT && threads >= |p.files|
    requires Collides(p, i, k) && Length(p, i) > Length(p, k)
    ensures Run(p, Start(p, j0, threads), schedule).job.doneBytes > j0.doneBytes + Total(p)
  {
    var s0, weights := Start(p, j0, threads), Weights(p, i, k);
    WeightsExceed(p, i, k);
    var a := StatAll(p, j0, threads, |p.files|, k);
    var s1 := Run(p, s0, a);
    RunSound(p, j0, threads, a);
    hide Run, Start, Smooth, Sound, SumIn, FirstN, Priced, Step;
    var rest := ThenLarger(p, j0, s1, i, k);
    schedule := a + rest;
    RunConcat(p, s0, a, rest);
  }

  lemma SizeFound(p: Plan, fs: FS, i: nat, k: nat)
    requires Smooth(p) && Collides(p, i, k) && HasContent(fs, Source(p, k), p.fs[Source(p, i)].data)
    ensures SizeOn(p, fs, k) == Weights(p, i, k)[k]
  {
    assert Works(p.io[k]);
  }

  lemma ThenLarger(p: Plan, j0: Job, s: State, i: nat, k: nat) returns (schedule: seq<nat>)
    requires Sound(p, j0, s) && Collides(p, i, k) && AllStatted(p, s, |p.files|, k) && s.job == j0
    ensures var t := Run(p, s, schedule);
            t.job.doneBytes == j0.doneBytes + SumIn(Weights(p, i, k), FirstN(|p.files|))
  {
    assert Smooth(p) && IsFile(p.fs, Source(p, i));
    hide Run, Sound, SumIn, FirstN, Priced, Smooth, Weights, SizeOn, Source, Target;
    StattedPriced(p, j0, s, i, k);
    schedule := BringsLarger(p, j0, s, i, k);
    var t := Run(p, s, schedule);
    SizeFound(p, t.fs, i, k);
    assert t.workers[k] == Statting(k);
    assert forall w :: 0 <= w < |t.workers| && w != k ==> !t.workers[w].Statting?;
    hide AllStatted, Collides;
    var rest := LastStat(p, j0, t, k, Weights(p, i, k));
    RunConcat(p, s, schedule, rest);
    schedule := schedule + rest;
  }

  lemma LastStat(p: Plan, j0: Job, s: State, k: nat, weights: seq<nat>) returns (schedule: seq<nat>)
    requires Sound(p, j0, s) && Priced(p, j0, s, weights) && k < |s.workers| && k < |p.files| == |weights|
    requires s.workers[k] == Statting(k) && SizeOn(p, s.fs, k) == weights[k]
    requires forall w :: 0 <= w < |s.workers| && w != k ==> !s.workers[w].Statting?
    ensures var t := Run(p, s, schedule); t.job.doneBytes == j0.doneBytes + SumIn(weights, FirstN(|p.files|))
  {
    StepParts(p, j0, s, k);
    hide Run, Sound, SumIn, FirstN, Priced, SizeOn, Step;
    StepPriced(p, j0, s, k, weights);
    schedule := EndPriced(p, j0, Step(p, s, k), weights);
    RunThen(p, s, k, schedule);
    schedule := [k] + schedule;
  }

  lemma StattedPriced(p: Plan, j0: Job, s: State, i: nat, k: nat)
    requires AllStatted(p, s, |p.files|, k) && Collides(p, i, k) && s.job == j0
    ensures Priced(p, j0, s, Weights(p, i, k))
  {
    forall r ensures r !in Finished(p, s) {
      if 0 <= r < |p.files| { assert Idx(s.workers[r]) == r; }
    }
    assert Finished(p, s) == {};
    SumInEmpty(Weights(p, i, k));
  }

  // ----- the theorem -----

  ghost predicate AlwaysWithin(p: Plan, j0: Job, threads: nat)
    requires |p.io| == |p.files|
  {
    forall schedule: seq<nat> :: Run(p, Start(p, j0, threads), schedule).job.doneBytes <= j0.doneBytes + Total(p)
  }

  /** When no call fails and no file has to wait for a thread, the bytes counted stay
      within the total on every schedule exactly if no file goes to the place of a
      smaller one. */
  lemma WithinExactly(p: Plan, j0: Job, threads: nat)
    requires Smooth(p) && j0.error.None? && |j0.current| <= CURRENT_LIMIT && threads >= |p.files|
    ensures AlwaysWithin(p, j0, threads) <==> SizesFit(p)
  {
    if SizesFit(p) {
      forall schedule: seq<nat>
        ensures Run(p, Start(p, j0, threads), schedule).job.doneBytes <= j0.doneBytes + Total(p)
      {
        BytesWithin(p, j0, threads, schedule);
      }
    } else {
      var i: nat, k: nat :|
        i < |p.files| && k < |p.files| && Target(p, i) == Source(p, k) && Length(p, i) > Length(p, k);
      assert Collides(p, i, k);
      hide Run, Start, Total, Smooth, Length;
      var schedule := Overcounts(p, j0, threads, i, k);
    }
  }
}
