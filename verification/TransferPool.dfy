/** The worker pool at the heart of a move or copy job.  Up to eight threads claim
    indices of the walked files from one atomic counter; each thread carries its
    file through rename, or copy and remove, and tallies the outcome in the shared
    job record.  `Step` is one atomic action of one worker, so every interleaving
    is a sequence of steps. */
module TransferPool {
  import opened FileSystem
  import opened Jobs

  /** What `std::fs::rename` of one file answers: success, EXDEV or EIO (which make
      the worker fall back to copying), or any other error. */
  datatype RenameIO = Renamed | OtherBackend | Refused

  /** How the system calls made for one file turn out.  `chunk` is how much a read
      at a given offset would like to return; `breakAt` is where the copy breaks
      off with an error, if it does, counted in bytes that reached the target. */
  datatype FileIO = FileIO(
    statOk: bool, rename: RenameIO, open: bool, create: bool,
    chunk: nat -> nat, breakAt: Option<nat>, remove: bool)

  /** What the pool is given: the operation, the walked files by their paths below
      `src`, the outcomes of the calls, and the filesystem the workers start on. */
  datatype Plan = Plan(
    op: Op, src: Path, dst: Path, sameDrive: bool,
    files: seq<Path>, io: seq<FileIO>, fs: FS)

  /** `Path::join`: joining the empty path leaves a trailing separator. */
  function Join(p: Path, rel: Path): Path {
    if rel == [] then p + [""] else p + rel
  }

  function TargetPath(dst: Path, rel: Path): Path {
    if rel == [] then dst else Join(dst, rel)
  }

  /** Where a walked file goes: the empty remainder of a single-file source is the
      destination itself, and no two files ever share a target. */
  lemma TargetPathInjective(dst: Path, a: Path, b: Path)
    ensures TargetPath(dst, a) == dst + a
    ensures TargetPath(dst, a) == TargetPath(dst, b) ==> a == b
  {
    assert a == (dst + a)[|dst|..] && b == (dst + b)[|dst|..];
  }

  function Source(p: Plan, i: nat): Path
    requires i < |p.files|
  {
    p.src + p.files[i]
  }

  function Target(p: Plan, i: nat): Path
    requires i < |p.files|
  {
    TargetPath(p.dst, p.files[i])
  }

  /** The walked files are files, each listed once. */
  ghost predicate Walked(p: Plan) {
    && |p.io| == |p.files|
    && !p.op.Delete?
    && (forall i, j :: 0 <= i < j < |p.files| ==> p.files[i] != p.files[j])
    && (forall i :: 0 <= i < |p.files| ==> IsFile(p.fs, Source(p, i)))
  }

  /** No file goes where one of the files still has to come from.  The two trees may
      otherwise lie within one another. */
  ghost predicate NoCollision(p: Plan) {
    forall i, j :: 0 <= i < |p.files| && 0 <= j < |p.files| ==> Source(p, i) != Target(p, j)
  }

  ghost predicate ValidPlan(p: Plan) {
    Walked(p) && NoCollision(p)
  }

  /** Sources and targets of the plan are all different from one another. */
  lemma SlotsApart(p: Plan, i: nat, j: nat)
    requires ValidPlan(p) && i < |p.files| && j < |p.files|
    ensures Source(p, i) != Target(p, j)
    ensures i != j ==> Source(p, i) != Source(p, j) && Target(p, i) != Target(p, j)
  {
    SourcesApart(p, i, j);
    TargetPathInjective(p.dst, p.files[i], p.files[j]);
  }

  lemma SourcesApart(p: Plan, i: nat, j: nat)
    requires Walked(p) && i < |p.files| && j < |p.files|
    ensures i != j ==> Source(p, i) != Source(p, j)
  {
    if Source(p, i) == Source(p, j) {
      assert p.files[i] == Source(p, i)[|p.src|..] == p.files[j];
    }
  }

  predicate Renames(p: Plan) {
    p.op == Move && p.sameDrive
  }

  // ----- one file from beginning to end, on one thread -----

  /** `copy_file` run to its end: the target is created or truncated first, which
      empties a file that is copied onto itself, and a copy that breaks off leaves
      what had reached it. */
  function CopyOne(fs: FS, io: FileIO, a: Path, b: Path): (FS, bool) {
    if !io.open || !IsFile(fs, a) || !io.create || !CanPlace(fs, b) then (fs, false)
    else
      var data := if a == b then [] else fs[a].data;
      match io.breakAt
      case Some(k) => (fs[b := File(data[..if k < |data| then k else |data|])], false)
      case None => (fs[b := File(data)], true)
  }

  /** Copying, and for a move removing the source afterwards. */
  function CopyThenRemove(op: Op, fs: FS, io: FileIO, a: Path, b: Path): (FS, bool) {
    var (fs1, copied) := CopyOne(fs, io, a, b);
    if !copied || op != Move then (fs1, copied)
    else if io.remove then (fs1 - {a}, true)
    else (fs1, false)
  }

  /** Everything one worker does for one file. */
  function TransferOne(p: Plan, fs: FS, i: nat): (FS, bool)
    requires |p.io| == |p.files| && i < |p.files|
  {
    var io, a, b := p.io[i], Source(p, i), Target(p, i);
    if Renames(p) && !io.rename.OtherBackend? then
      if io.rename.Renamed? && IsFile(fs, a) && CanPlace(fs, b) then ((fs - {a})[b := fs[a]], true)
      else (fs, false)
    else CopyThenRemove(p.op, fs, io, a, b)
  }

  /** How file `i` fares on the filesystem the pool starts on. */
  function Outcome(p: Plan, i: nat): FS
    requires |p.io| == |p.files| && i < |p.files|
  {
    TransferOne(p, p.fs, i).0
  }

  predicate Succeeds(p: Plan, i: nat)
    requires |p.io| == |p.files| && i < |p.files|
  {
    TransferOne(p, p.fs, i).1
  }

  /** The size a worker reads before it starts on file `i`. */
  function SizeOn(p: Plan, fs: FS, i: nat): nat
    requires |p.io| == |p.files| && i < |p.files|
  {
    if p.io[i].statOk && IsFile(fs, Source(p, i)) then |fs[Source(p, i)].data| else 0
  }

  function Size(p: Plan, i: nat): nat
    requires |p.io| == |p.files| && i < |p.files|
  {
    SizeOn(p, p.fs, i)
  }

  /** What the pool adds up. */
  datatype Totals = Totals(fs: FS, failed: nat, doneFiles: nat, doneBytes: nat)

  /** One thread working through the first `n` files in list order. */
  function InOrder(p: Plan, n: nat): Totals
    requires |p.io| == |p.files| && n <= |p.files|
  {
    if n == 0 then Totals(p.fs, 0, 0, 0)
    else
      var t := InOrder(p, n - 1);
      var (fs1, ok) := TransferOne(p, t.fs, n - 1);
      Totals(fs1, if ok then t.failed else t.failed + 1, t.doneFiles + 1,
             if ok then t.doneBytes + SizeOn(p, t.fs, n - 1) else t.doneBytes)
  }

  // ----- the pool as a state machine -----

  datatype Phase =
    | Claiming
    | Statting(i: nat)
    | Announcing(i: nat, size: nat)
    | Renaming(i: nat, size: nat)
    | Opening(i: nat, size: nat)
    | Copying(i: nat, size: nat, done: nat)
    | Removing(i: nat, size: nat)
    | CountingFailure(i: nat, size: nat)
    | Reporting(i: nat, size: nat)
    | Tallying(i: nat, size: nat, ok: bool)
    | Stopped

  datatype State = State(fs: FS, next: nat, failed: nat, job: Job, workers: seq<Phase>)

  const BUFFER: nat := 1024 * 1024

  /** How many bytes the next read returns: at least one before the end of the
      file, and never more than the buffer holds. */
  function ReadSize(io: FileIO, done: nat, len: nat): nat
    requires done < len
    ensures 0 < ReadSize(io, done, len) <= len - done
  {
    var n := if io.chunk(done) == 0 then 1 else io.chunk(done);
    var m := if n > BUFFER then BUFFER else n;
    if m > len - done then len - done else m
  }

  /** One turn of the copy loop.  At or past the end of the source, which another
      worker may have replaced if files collide, a read returns nothing. */
  function CopyChunk(p: Plan, s: State, i: nat, size: nat, done: nat): (FS, Phase)
    requires |p.io| == |p.files| && i < |p.files|
  {
    var io, a, b := p.io[i], Source(p, i), Target(p, i);
    var data := if IsFile(s.fs, a) then s.fs[a].data else [];
    if |data| <= done then
      if io.breakAt.Some? then (s.fs, CountingFailure(i, size))
      else if p.op == Move then (s.fs, Removing(i, size))
      else (s.fs, Tallying(i, size, true))
    else
      var n := ReadSize(io, done, |data|);
      if io.breakAt.Some? && io.breakAt.value < done + n then
        var k := if io.breakAt.value < done then done else io.breakAt.value;
        (s.fs[b := File(data[..k])], CountingFailure(i, size))
      else
        (s.fs[b := File(data[..done + n])], Copying(i, size, done + n))
  }

  /** What a worker that holds file `i` does to the filesystem, and its next phase. */
  function FileAction(p: Plan, s: State, ph: Phase): (FS, Phase)
    requires |p.io| == |p.files| && (Idx(ph) >= 0 ==> Idx(ph) < |p.files|)
  {
    match ph
    case Statting(i) =>
      (s.fs, Announcing(i, SizeOn(p, s.fs, i)))
    case Announcing(i, size) =>
      (s.fs, if Renames(p) then Renaming(i, size) else Opening(i, size))
    case Renaming(i, size) =>
      var a, b := Source(p, i), Target(p, i);
      if p.io[i].rename.OtherBackend? then (s.fs, Opening(i, size))
      else if p.io[i].rename.Renamed? && IsFile(s.fs, a) && CanPlace(s.fs, b) then
        ((s.fs - {a})[b := s.fs[a]], Tallying(i, size, true))
      else (s.fs, CountingFailure(i, size))
    case Opening(i, size) =>
      var a, b := Source(p, i), Target(p, i);
      if !p.io[i].open || !IsFile(s.fs, a) || !p.io[i].create || !CanPlace(s.fs, b) then
        (s.fs, CountingFailure(i, size))
      else (s.fs[b := File([])], Copying(i, size, 0))
    case Copying(i, size, done) => CopyChunk(p, s, i, size, done)
    case Removing(i, size) =>
      if p.io[i].remove && IsFile(s.fs, Source(p, i)) then (s.fs - {Source(p, i)}, Tallying(i, size, true))
      else (s.fs, CountingFailure(i, size))
    case CountingFailure(i, size) => (s.fs, Reporting(i, size))
    case Reporting(i, size) => (s.fs, Tallying(i, size, false))
    case Tallying(i, size, ok) => (s.fs, Claiming)
    case Claiming => (s.fs, Claiming)
    case Stopped => (s.fs, Stopped)
  }

  /** What a worker does to the shared job record in a phase. */
  function JobAction(p: Plan, j: Job, ph: Phase): Job
    requires Idx(ph) >= 0 ==> Idx(ph) < |p.files|
  {
    match ph
    case Announcing(i, _) => Announce(j, Source(p, i))
    case Reporting(i, _) => Report(j, Source(p, i))
    case Tallying(_, size, ok) =>
      j.(doneFiles := j.doneFiles + 1, doneBytes := j.doneBytes + if ok then size else 0)
    case _ => j
  }

  /** One atomic action of worker `w`; a thread that is not there does nothing. */
  function Step(p: Plan, s: State, w: nat): State
    requires |p.io| == |p.files|
  {
    if w >= |s.workers| || Idx(s.workers[w]) >= |p.files| then s
    else
      var ph := s.workers[w];
      if ph.Claiming? then
        s.(next := s.next + 1,
           workers := s.workers[w := if s.next < |p.files| then Statting(s.next) else Stopped])
      else
        var (fs1, ph1) := FileAction(p, s, ph);
        State(fs1, s.next, if ph.CountingFailure? then s.failed + 1 else s.failed,
              JobAction(p, s.job, ph), s.workers[w := ph1])
  }

  /** The pool after the workers acted in the order `schedule` names them. */
  function Run(p: Plan, s: State, schedule: seq<nat>): State
    requires |p.io| == |p.files|
    decreases |schedule|
  {
    if schedule == [] then s
    else
      var n := |schedule| - 1;
      Step(p, Run(p, s, schedule[..n]), schedule[n])
  }

  /** `threads` workers about to claim their first file. */
  function Start(p: Plan, job: Job, threads: nat): State {
    State(p.fs, 0, 0, job, seq(threads, w => Claiming))
  }

  /** The file a worker holds, or -1. */
  function Idx(ph: Phase): int {
    if ph.Claiming? || ph.Stopped? then -1 else ph.i
  }
}
