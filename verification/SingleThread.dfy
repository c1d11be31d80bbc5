/** A pool of one thread does what the sequential form says, for every plan. */
module SingleThread {
  import opened FileSystem
  import opened Jobs
  import opened TransferPool
  import opened AnyPlan

  /** What a copy reads: opening the target empties a file that is copied onto itself. */
  function ToCopy(p: Plan, fs: FS, i: nat): Bytes
    requires i < |p.files|
  {
    if Source(p, i) == Target(p, i) || !IsFile(fs, Source(p, i)) then [] else fs[Source(p, i)].data
  }

  /** The copy of file `i` gets as far as creating its target. */
  predicate Copies(p: Plan, fs: FS, i: nat)
    requires |p.io| == |p.files| && i < |p.files|
  {
    && (Renames(p) ==> p.io[i].rename.OtherBackend?)
    && p.io[i].open && IsFile(fs, Source(p, i)) && p.io[i].create && CanPlace(fs, Target(p, i))
  }

  /** How far the thread is with file `i`, which it took up on the filesystem `base`. */
  predicate FarWith(p: Plan, base: FS, fs: FS, ph: Phase, i: nat)
    requires |p.io| == |p.files| && i < |p.files|
  {
    var data, b, size := ToCopy(p, base, i), Target(p, i), SizeOn(p, base, i);
    match ph
    case Statting(_) => fs == base
    case Announcing(_, z) => fs == base && z == size
    case Renaming(_, z) => fs == base && z == size && Renames(p)
    case Opening(_, z) => fs == base && z == size && (Renames(p) ==> p.io[i].rename.OtherBackend?)
    case Copying(_, z, done) =>
      && z == size && Copies(p, base, i) && done <= |data| && fs == base[b := File(data[..done])]
      && (p.io[i].breakAt.Some? ==> done <= p.io[i].breakAt.value)
    case Removing(_, z) =>
      z == size && Copies(p, base, i) && p.io[i].breakAt.None? && p.op == Move && fs == base[b := File(data)]
    case CountingFailure(_, z) => z == size && TransferOne(p, base, i) == (fs, false)
    case Reporting(_, z) => z == size && TransferOne(p, base, i) == (fs, false)
    case Tallying(_, z, ok) => z == size && TransferOne(p, base, i) == (fs, ok)
    case _ => true
  }

  lemma Overwritten(base: FS, b: Path, x: Node, y: Node)
    ensures base[b := x][b := y] == base[b := y]
  {
  }

  /** One turn of the copy loop: the end of the file, */
  lemma LastChunk(p: Plan, base: FS, s: State, i: nat, size: nat, done: nat)
    requires |p.io| == |p.files| && i < |p.files| && FarWith(p, base, s.fs, Copying(i, size, done), i)
    requires done == |ToCopy(p, base, i)|
    ensures var (fs1, ph1) := CopyChunk(p, s, i, size, done);
            FarWith(p, base, fs1, ph1, i) && Idx(ph1) == i && !ph1.Reporting? && (ph1.Tallying? ==> ph1.ok)
  {
    var data := ToCopy(p, base, i);
    assert data == if IsFile(s.fs, Source(p, i)) then s.fs[Source(p, i)].data else [];
    assert data[..done] == data;
    hide SizeOn, CanPlace;
  }

  /** or another buffer. */
  lemma NextChunk(p: Plan, base: FS, s: State, i: nat, size: nat, done: nat)
    requires |p.io| == |p.files| && i < |p.files| && FarWith(p, base, s.fs, Copying(i, size, done), i)
    requires done < |ToCopy(p, base, i)|
    ensures var (fs1, ph1) := CopyChunk(p, s, i, size, done);
            FarWith(p, base, fs1, ph1, i) && Idx(ph1) == i && !ph1.Reporting? && !ph1.Tallying?
  {
    var data, a, b, io := ToCopy(p, base, i), Source(p, i), Target(p, i), p.io[i];
    assert a != b && s.fs[a] == File(data);
    var n := ReadSize(io, done, |data|);
    hide SizeOn, CanPlace, ReadSize, Source, Target;
    if io.breakAt.Some? && io.breakAt.value < done + n {
      Overwritten(base, b, File(data[..done]), File(data[..io.breakAt.value]));
    } else {
      Overwritten(base, b, File(data[..done]), File(data[..done + n]));
    }
  }

  lemma ActionFar(p: Plan, base: FS, s: State, ph: Phase)
    requires |p.io| == |p.files| && 0 <= Idx(ph) < |p.files| && FarWith(p, base, s.fs, ph, Idx(ph)) && !ph.Tallying?
    ensures var (fs1, ph1) := FileAction(p, s, ph);
            && FarWith(p, base, fs1, ph1, Idx(ph)) && Idx(ph1) == Idx(ph)
            && (ph1.Reporting? <==> ph.CountingFailure?)
            && (ph1.Tallying? && !ph1.ok <==> ph.Reporting?)
  {
    if ph.Copying? {
      if ph.done == |ToCopy(p, base, ph.i)| {
        LastChunk(p, base, s, ph.i, ph.size, ph.done);
      } else {
        NextChunk(p, base, s, ph.i, ph.size, ph.done);
      }
      hide CopyChunk;
    } else {
      hide SizeOn;
    }
  }

  /** The thread has handled the files below the one it holds, or below the next. */
  ghost predicate InTurn(p: Plan, j0: Job, s: State) {
    && |p.io| == |p.files| && |s.workers| == 1
    && var ph := s.workers[0];
       var n := if Idx(ph) >= 0 then Idx(ph) else if ph.Claiming? then s.next else |p.files|;
       && n <= |p.files| && (Idx(ph) >= 0 ==> n < |p.files| && s.next == n + 1)
       && var t := InOrder(p, n);
          && s.job.doneFiles == j0.doneFiles + t.doneFiles && s.job.doneBytes == j0.doneBytes + t.doneBytes
          && s.failed == t.failed + (if ph.Reporting? || (ph.Tallying? && !ph.ok) then 1 else 0)
          && if Idx(ph) >= 0 then FarWith(p, t.fs, s.fs, ph, n) else s.fs == t.fs
  }

  lemma StepInTurn(p: Plan, j0: Job, s: State, w: nat)
    requires InTurn(p, j0, s)
    ensures InTurn(p, j0, Step(p, s, w))
  {
    if w == 0 {
      var ph := s.workers[0];
      if Idx(ph) < 0 {
        assert ph.Stopped? ==> s.workers[0 := Stopped] == s.workers;
        hide InOrder, TransferOne;
      } else if ph.Tallying? {
        assert InOrder(p, Idx(ph) + 1).fs == TransferOne(p, InOrder(p, Idx(ph)).fs, Idx(ph)).0;
        hide TransferOne, SizeOn;
      } else {
        ActionFar(p, InOrder(p, Idx(ph)).fs, s, ph);
        hide InOrder, FileAction, FarWith, Source;
      }
    }
  }

  lemma {:induction false} RunInTurn(p: Plan, j0: Job, schedule: seq<nat>)
    requires |p.io| == |p.files|
    ensures InTurn(p, j0, Run(p, Start(p, j0, 1), schedule))
    decreases |schedule|
  {
    if schedule != [] {
      var n := |schedule| - 1;
      RunInTurn(p, j0, schedule[..n]);
      hide InTurn, Step;
      StepInTurn(p, j0, Run(p, Start(p, j0, 1), schedule[..n]), schedule[n]);
    }
  }

  /** Whatever the paths, and whatever fails: with one thread there is one outcome, that
      of the files handled in list order. */
  lemma OneThread(p: Plan, j0: Job, schedule: seq<nat>)
    requires |p.io| == |p.files| && AllStopped(Run(p, Start(p, j0, 1), schedule))
    ensures var s, t := Run(p, Start(p, j0, 1), schedule), InOrder(p, |p.files|);
            && s.fs == t.fs && s.failed == t.failed
            && s.job.doneFiles == j0.doneFiles + t.doneFiles && s.job.doneBytes == j0.doneBytes + t.doneBytes
  {
    RunInTurn(p, j0, schedule);
    hide Run, InOrder;
  }
}
