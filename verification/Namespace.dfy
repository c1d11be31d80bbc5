/** Uploads and collection requests that arrive in any order: PUT and MKCOL make the
    parents they need. */
module Namespace {
  import opened FileSystem

  /** A PUT of `data`, perhaps only if nothing is there (`createNew`); `fits` says that
      its announced size, if any, is no more than the free space. */
  datatype Request =
    | Put(path: Path, data: Bytes, createNew: bool, fits: bool)
    | Mkcol(path: Path)

  datatype Result = Created | Exists | Forbidden | NoParent | NoSpace | Failed

  /** Between its calls into the filesystem a request can be overtaken by others.  The
      directories on the way to its parent are made one by one: climbing to the nearest
      that can be made, then descending again.  An upload then looks whether its target is
      there, whether it is a directory and whether there is space, and opens its temporary
      file beside it. */
  datatype Phase =
    | Waiting
    | Climbing(k: nat)
    | Descending(k: nat)
    | Ensured
    | PastExists
    | PastIsDir
    | PastSpace
    | Opened
    | Finished(result: Result)

  datatype State = State(fs: FS, phases: seq<Phase>)

  /** The directory `ensure_parent` makes; for the root there is nothing to make. */
  function ParentOf(path: Path): Path {
    if path == [] then [] else Parent(path)
  }

  /** `ensure_parent`, if nothing comes between its calls. */
  function Ensure(createParents: bool, fs: FS, path: Path): (FS, bool) {
    if !createParents || ParentOf(path) == [] then (fs, true)
    else MkdirAll(fs, {}, ParentOf(path))
  }

  /** The checks of an atomic PUT up to its temporary file beside the target, if nothing
      comes between them. */
  function OpenCheck(fs: FS, rq: Request): Option<Result>
    requires rq.Put?
  {
    if rq.createNew && rq.path in fs then Some(Exists)
    else if IsDir(fs, rq.path) then Some(Forbidden)
    else if !rq.fits then Some(NoSpace)
    else if rq.path == [] || !IsDir(fs, Parent(rq.path)) then Some(NoParent)
    else None
  }

  /** Creating the collection itself is strict. */
  function MakeOne(fs: FS, path: Path): (FS, Result) {
    if path in fs then (fs, Exists)
    else if path == [] || !IsDir(fs, Parent(path)) then (fs, NoParent)
    else (fs[path := Dir], Created)
  }

  /** The rename of a complete upload onto its target. */
  function Publish(fs: FS, path: Path, data: Bytes): (FS, Result) {
    if CanPlace(fs, path) then (fs[path := File(data)], Created) else (fs, Failed)
  }

  /** The first `k` components on the way to `d`. */
  function WayTo(d: Path, k: nat): Path {
    if k < |d| then d[..k] else d
  }

  /** The next directory on the way, once the first `k` are there. */
  function Onward(d: Path, k: nat): Phase {
    if k < |d| then Descending(k + 1) else Ensured
  }

  /** One `mkdir` of `create_dir_all`; that the directory exists already is no failure.
      Climbing, a missing parent sends the request one level up. */
  function MkdirOnTheWay(fs: FS, d: Path, k: nat, climbing: bool): (FS, Phase) {
    var q := WayTo(d, k);
    if IsDir(fs, q) then (fs, Onward(d, k))
    else if q in fs || q == [] then (fs, Finished(Failed))
    else if IsDir(fs, Parent(q)) then (fs[q := Dir], Onward(d, k))
    else if climbing && Parent(q) !in fs && k > 0 then (fs, Climbing(k - 1))
    else (fs, Finished(Failed))
  }

  /** The next call of a request. */
  function Act(createParents: bool, fs: FS, rq: Request, ph: Phase): (FS, Phase) {
    match ph
    case Waiting =>
      (fs, if !createParents || ParentOf(rq.path) == [] then Ensured else Climbing(|ParentOf(rq.path)|))
    case Climbing(k) => MkdirOnTheWay(fs, ParentOf(rq.path), k, true)
    case Descending(k) => MkdirOnTheWay(fs, ParentOf(rq.path), k, false)
    case Ensured =>
      if rq.Put? then (fs, if rq.createNew && rq.path in fs then Finished(Exists) else PastExists)
      else
        var (fs1, r) := MakeOne(fs, rq.path);
        (fs1, Finished(r))
    case PastExists => (fs, if IsDir(fs, rq.path) then Finished(Forbidden) else PastIsDir)
    case PastIsDir => (fs, if rq.Put? && rq.fits then PastSpace else Finished(NoSpace))
    case PastSpace =>
      (fs, if rq.path == [] || !IsDir(fs, Parent(rq.path)) then Finished(NoParent) else Opened)
    case Opened =>
      if rq.Put? then
        var (fs1, r) := Publish(fs, rq.path, rq.data);
        (fs1, Finished(r))
      else (fs, Finished(Failed))
    case Finished(r) => (fs, ph)
  }

  /** The store itself; between two of these calls others may run. */
  class AutoMkcolFs {
    const createParents: bool
    var fs: FS

    constructor (createParents: bool, fs: FS)
      ensures this.createParents == createParents && this.fs == fs
    {
      this.createParents, this.fs := createParents, fs;
    }

    method EnsureParent(path: Path) returns (ok: bool)
      modifies this
      ensures (fs, ok) == Ensure(createParents, old(fs), path)
    {
      if !createParents {
        return true;
      }
      var parent := ParentOf(path);
      if parent != [] {
        var (fs1, made) := MkdirAll(fs, {}, parent);
        fs := fs1;
        return made;
      }
      return true;
    }

    /** `open` for an atomic PUT, up to the creation of the temporary file. */
    method Open(rq: Request) returns (refused: Option<Result>)
      requires rq.Put?
      modifies this
      ensures fs == Ensure(createParents, old(fs), rq.path).0
      ensures refused == if Ensure(createParents, old(fs), rq.path).1 then OpenCheck(fs, rq) else Some(Failed)
    {
      var ok := EnsureParent(rq.path);
      if !ok {
        return Some(Failed);
      }
      if rq.createNew && rq.path in fs {
        return Some(Exists);
      }
      if IsDir(fs, rq.path) {
        return Some(Forbidden);
      }
      if !rq.fits {
        return Some(NoSpace);
      }
      if rq.path == [] || !IsDir(fs, Parent(rq.path)) {
        return Some(NoParent);
      }
      return None;
    }

    method CreateDir(path: Path) returns (r: Result)
      modifies this
      ensures var (fs1, ok) := Ensure(createParents, old(fs), path);
              (fs, r) == if ok then MakeOne(fs1, path) else (fs1, Failed)
    {
      var ok := EnsureParent(path);
      if !ok {
        return Failed;
      }
      var (fs1, made) := MakeOne(fs, path);
      fs := fs1;
      r := made;
    }
  }

  function Step(createParents: bool, rs: seq<Request>, s: State, i: nat): State
    requires |s.phases| == |rs|
  {
    if i >= |rs| then s
    else
      var (fs1, ph) := Act(createParents, s.fs, rs[i], s.phases[i]);
      State(fs1, s.phases[i := ph])
  }

  function Start(fs: FS, rs: seq<Request>): State {
    State(fs, seq(|rs|, _ => Waiting))
  }

  /** Request after request acts, in any order. */
  function Run(createParents: bool, rs: seq<Request>, fs: FS, order: seq<nat>): (s: State)
    ensures |s.phases| == |rs|
    decreases |order|
  {
    if order == [] then Start(fs, rs)
    else Step(createParents, rs, Run(createParents, rs, fs, order[..|order| - 1]), order[|order| - 1])
  }

  // ----- requests that fit together -----

  /** The directory a request needs, or is. */
  function Leads(rq: Request): Path {
    if rq.Put? then ParentOf(rq.path) else rq.path
  }

  /** A request on its own could be served: no file is in the way of its directories,
      and no directory where its file goes. */
  ghost predicate Servable(fs: FS, rq: Request) {
    && (forall a | Under(a, Leads(rq)) :: !IsFile(fs, a))
    && (rq.Put? ==> !IsDir(fs, rq.path) && rq.fits && (rq.createNew ==> rq.path !in fs))
  }

  /** No upload's target is a directory some request needs, and no two are the same. */
  ghost predicate Consistent(fs: FS, rs: seq<Request>) {
    && WellFormed(fs) && IsDir(fs, [])
    && (forall i :: 0 <= i < |rs| ==> Servable(fs, rs[i]))
    && (forall i, j :: 0 <= i < |rs| && 0 <= j < |rs| && rs[i].Put? ==> !Under(rs[i].path, Leads(rs[j])))
    && (forall i, j :: 0 <= i < j < |rs| && rs[i].Put? && rs[j].Put? ==> rs[i].path != rs[j].path)
  }

  // ----- what every step keeps -----

  ghost predicate Uploaded(rs: seq<Request>, phases: seq<Phase>, i: nat, a: Path) {
    i < |rs| == |phases| && rs[i].Put? && phases[i].Finished? && rs[i].path == a
  }

  ghost predicate Needed(rs: seq<Request>, a: Path) {
    exists i :: 0 <= i < |rs| && Under(a, Leads(rs[i]))
  }

  /** At a path there is what was uploaded there, or what was there at the start, or a
      directory that some request needs. */
  ghost predicate At(fs0: FS, rs: seq<Request>, s: State, a: Path) {
    && (forall i: nat :: Uploaded(rs, s.phases, i, a) ==> a in s.fs && s.fs[a] == File(rs[i].data))
    && ((forall i: nat :: !Uploaded(rs, s.phases, i, a)) ==>
          if a in fs0 then Agree(s.fs, fs0, a)
          else a in s.fs ==> s.fs[a] == Dir && Needed(rs, a))
  }

  /** How far a request is with making the directory `d` says what is there. */
  ghost predicate WayOk(fs: FS, d: Path, ph: Phase) {
    && (ph.Climbing? ==> ph.k <= |d|)
    && (ph.Descending? ==> 0 < ph.k <= |d| && IsDir(fs, d[..ph.k - 1]))
    && (!ph.Waiting? && !ph.Climbing? && !ph.Descending? ==> IsDir(fs, d))
  }

  /** An upload that has passed some of its checks. */
  predicate Checks(ph: Phase) {
    ph.PastExists? || ph.PastIsDir? || ph.PastSpace?
  }

  /** So does what it does then. */
  ghost predicate PhaseOk(fs: FS, rq: Request, ph: Phase) {
    && WayOk(fs, ParentOf(rq.path), ph)
    && (rq.Put? && ph.Finished? ==> ph.result == Created)
    && (rq.Mkcol? ==>
          && !Checks(ph) && !ph.Opened?
          && (ph.Finished? ==> ph.result in {Created, Exists} && IsDir(fs, rq.path)))
  }

  ghost predicate PhasesOk(rs: seq<Request>, s: State) {
    |s.phases| == |rs| && forall i :: 0 <= i < |rs| ==> PhaseOk(s.fs, rs[i], s.phases[i])
  }

  ghost predicate AllAt(fs0: FS, rs: seq<Request>, s: State) {
    forall a :: At(fs0, rs, s, a)
  }

  ghost predicate Inv(fs0: FS, rs: seq<Request>, s: State) {
    WellFormed(s.fs) && IsDir(s.fs, []) && PhasesOk(rs, s) && AllAt(fs0, rs, s)
  }

  /** On the way to a directory that is needed there is never a file. */
  lemma NoFileOnTheWay(fs0: FS, rs: seq<Request>, s: State, i: nat, a: Path)
    requires Consistent(fs0, rs) && AllAt(fs0, rs, s) && i < |rs| && Under(a, Leads(rs[i]))
    ensures !IsFile(s.fs, a)
  {
    assert At(fs0, rs, s, a);
    assert Servable(fs0, rs[i]);
    forall j ensures !Uploaded(rs, s.phases, j, a) {}
  }

  /** Where an upload goes there is no directory. */
  lemma NoDirAtTarget(fs0: FS, rs: seq<Request>, s: State, i: nat)
    requires Consistent(fs0, rs) && AllAt(fs0, rs, s) && i < |rs| && rs[i].Put?
    ensures !IsDir(s.fs, rs[i].path)
    ensures (forall j :: !Uploaded(rs, s.phases, j, rs[i].path)) ==> (rs[i].path in s.fs <==> rs[i].path in fs0)
  {
    var a := rs[i].path;
    assert At(fs0, rs, s, a);
    assert Servable(fs0, rs[i]);
    assert !Needed(rs, a);
    if j: nat :| Uploaded(rs, s.phases, j, a) {
      assert s.fs[a].File?;
    }
  }

  /** Directories stay directories, so what the other requests rely on stays. */
  lemma OthersOk(rs: seq<Request>, s: State, i: nat, fs1: FS, ph: Phase)
    requires PhasesOk(rs, s) && i < |rs| && PhaseOk(fs1, rs[i], ph)
    requires forall a :: IsDir(s.fs, a) ==> IsDir(fs1, a)
    ensures PhasesOk(rs, State(fs1, s.phases[i := ph]))
  {
    var s' := State(fs1, s.phases[i := ph]);
    forall k | 0 <= k < |rs| ensures PhaseOk(fs1, rs[k], s'.phases[k]) {
      assert PhaseOk(s.fs, rs[k], s.phases[k]);
    }
  }

  lemma SameUploads(rs: seq<Request>, s: State, i: nat, ph: Phase, j: nat, a: Path)
    requires |s.phases| == |rs| && i < |rs|
    requires rs[i].Put? ==> (ph.Finished? <==> s.phases[i].Finished?)
    ensures Uploaded(rs, s.phases[i := ph], j, a) <==> Uploaded(rs, s.phases, j, a)
  {
  }

  /** A step that adds nothing but directories that are needed. */
  lemma Grows(fs0: FS, rs: seq<Request>, s: State, i: nat, fs1: FS, ph: Phase)
    requires Inv(fs0, rs, s) && i < |rs| && WellFormed(fs1) && PhaseOk(fs1, rs[i], ph)
    requires rs[i].Put? ==> (ph.Finished? <==> s.phases[i].Finished?)
    requires forall a :: a in s.fs ==> a in fs1 && fs1[a] == s.fs[a]
    requires forall a :: a in fs1 && a !in s.fs ==> fs1[a] == Dir && Under(a, Leads(rs[i]))
    ensures Inv(fs0, rs, State(fs1, s.phases[i := ph]))
  {
    var s' := State(fs1, s.phases[i := ph]);
    OthersOk(rs, s, i, fs1, ph);
    hide PhaseOk, PhasesOk, WellFormed, Under, Uploaded;
    forall a ensures At(fs0, rs, s', a) {
      assert At(fs0, rs, s, a);
      forall j: nat ensures Uploaded(rs, s'.phases, j, a) <==> Uploaded(rs, s.phases, j, a) {
        SameUploads(rs, s, i, ph, j, a);
      }
      if a in fs1 && a !in s.fs { assert Needed(rs, a); }
    }
  }

  /** The step that puts an upload in its place. */
  lemma Places(fs0: FS, rs: seq<Request>, s: State, i: nat)
    requires Inv(fs0, rs, s) && Consistent(fs0, rs) && i < |rs| && rs[i].Put? && !s.phases[i].Finished?
    requires CanPlace(s.fs, rs[i].path)
    ensures Inv(fs0, rs, State(s.fs[rs[i].path := File(rs[i].data)], s.phases[i := Finished(Created)]))
  {
    var p := rs[i].path;
    var s' := State(s.fs[p := File(rs[i].data)], s.phases[i := Finished(Created)]);
    assert WellFormed(s'.fs);
    assert PhaseOk(s'.fs, rs[i], s'.phases[i]) by { assert PhaseOk(s.fs, rs[i], s.phases[i]); }
    OthersOk(rs, s, i, s'.fs, Finished(Created));
    forall a ensures At(fs0, rs, s', a) {
      assert At(fs0, rs, s, a);
      forall j: nat ensures Uploaded(rs, s'.phases, j, a) <==> Uploaded(rs, s.phases, j, a) || (j == i && a == p) {}
      hide Uploaded, Needed, PhasesOk, WellFormed, Servable;
      if a == p {
        forall j: nat | Uploaded(rs, s'.phases, j, a) ensures rs[j].data == rs[i].data {
          OneTarget(fs0, rs, s'.phases, i, j, a);
        }
        assert Uploaded(rs, s'.phases, i, a);
      }
    }
  }

  lemma OneTarget(fs0: FS, rs: seq<Request>, phases: seq<Phase>, i: nat, j: nat, a: Path)
    requires Consistent(fs0, rs) && i < |rs| && rs[i].Put? && rs[i].path == a && Uploaded(rs, phases, j, a)
    ensures j == i
  {
  }

  /** No file is on the way to the parent. */
  lemma WayClear(fs0: FS, rs: seq<Request>, s: State, i: nat, k: nat)
    requires Inv(fs0, rs, s) && Consistent(fs0, rs) && i < |rs| && k <= |ParentOf(rs[i].path)|
    ensures var q := ParentOf(rs[i].path)[..k]; !IsFile(s.fs, q) && Under(q, Leads(rs[i]))
  {
    var d := ParentOf(rs[i].path);
    assert Under(d[..k], d);
    if rs[i].Mkcol? && rs[i].path != [] { UnderParent(d[..k], rs[i].path); }
    NoFileOnTheWay(fs0, rs, s, i, d[..k]);
  }

  lemma WaitInv(fs0: FS, rs: seq<Request>, s: State, i: nat)
    requires Inv(fs0, rs, s) && Consistent(fs0, rs) && i < |rs| && s.phases[i] == Waiting
    ensures Inv(fs0, rs, Step(true, rs, s, i))
  {
    var d := ParentOf(rs[i].path);
    Grows(fs0, rs, s, i, s.fs, if d == [] then Ensured else Climbing(|d|));
    hide Inv, Consistent;
  }

  /** What one `mkdir` does when no file is on the way. */
  lemma MkdirServes(fs: FS, d: Path, k: nat, climbing: bool)
    requires WellFormed(fs) && IsDir(fs, []) && k <= |d|
    requires !IsFile(fs, d[..k]) && (k > 0 ==> !IsFile(fs, d[..k - 1]))
    requires !climbing ==> k > 0 && IsDir(fs, d[..k - 1])
    ensures var (fs1, ph) := MkdirOnTheWay(fs, d, k, climbing);
            && WellFormed(fs1)
            && (fs1 == fs || (d[..k] !in fs && fs1 == fs[d[..k] := Dir]))
            && (ph.Climbing? || ph.Descending? || ph.Ensured?) && WayOk(fs1, d, ph)
  {
    assert WayTo(d, k) == d[..k] && d[..|d|] == d;
    if k > 0 {
      assert Parent(d[..k]) == d[..k - 1];
    }
  }

  lemma MkdirInv(fs0: FS, rs: seq<Request>, s: State, i: nat)
    requires Inv(fs0, rs, s) && Consistent(fs0, rs) && i < |rs|
    requires s.phases[i].Climbing? || s.phases[i].Descending?
    ensures Inv(fs0, rs, Step(true, rs, s, i))
  {
    assert PhaseOk(s.fs, rs[i], s.phases[i]);
    var d, k := ParentOf(rs[i].path), s.phases[i].k;
    hide Consistent, Under, Leads, ParentOf, WellFormed, MkdirOnTheWay, PhasesOk, AllAt;
    WayClear(fs0, rs, s, i, k);
    if k > 0 { WayClear(fs0, rs, s, i, k - 1); }
    MkdirServes(s.fs, d, k, s.phases[i].Climbing?);
    hide Inv, WayOk;
    var (fs1, ph) := MkdirOnTheWay(s.fs, d, k, s.phases[i].Climbing?);
    Grows(fs0, rs, s, i, fs1, ph);
  }

  lemma OpenInv(fs0: FS, rs: seq<Request>, s: State, i: nat)
    requires Inv(fs0, rs, s) && Consistent(fs0, rs) && i < |rs| && rs[i].Put?
    requires s.phases[i] == Ensured || Checks(s.phases[i])
    ensures Inv(fs0, rs, Step(true, rs, s, i)) && Step(true, rs, s, i).fs == s.fs
    ensures !Step(true, rs, s, i).phases[i].Finished?
  {
    var a := rs[i].path;
    assert PhaseOk(s.fs, rs[i], s.phases[i]) && Servable(fs0, rs[i]);
    NoDirAtTarget(fs0, rs, s, i);
    forall j: nat ensures !Uploaded(rs, s.phases, j, a) {
      if Uploaded(rs, s.phases, j, a) { OneTarget(fs0, rs, s.phases, i, j, a); }
    }
    hide At, Consistent;
    Grows(fs0, rs, s, i, s.fs, Step(true, rs, s, i).phases[i]);
  }

  lemma PublishInv(fs0: FS, rs: seq<Request>, s: State, i: nat)
    requires Inv(fs0, rs, s) && Consistent(fs0, rs) && i < |rs| && rs[i].Put? && s.phases[i] == Opened
    ensures Inv(fs0, rs, Step(true, rs, s, i))
  {
    assert PhaseOk(s.fs, rs[i], s.phases[i]) && Servable(fs0, rs[i]);
    NoDirAtTarget(fs0, rs, s, i);
    hide Consistent, At;
    Places(fs0, rs, s, i);
  }

  lemma MakeInv(fs0: FS, rs: seq<Request>, s: State, i: nat)
    requires Inv(fs0, rs, s) && Consistent(fs0, rs) && i < |rs| && rs[i].Mkcol? && s.phases[i] == Ensured
    ensures Inv(fs0, rs, Step(true, rs, s, i))
  {
    var a := rs[i].path;
    assert PhaseOk(s.fs, rs[i], s.phases[i]) && Under(a, a);
    NoFileOnTheWay(fs0, rs, s, i, a);
    var (fs1, r) := MakeOne(s.fs, a);
    hide Consistent, At;
    Grows(fs0, rs, s, i, fs1, Finished(r));
  }

  lemma StepInv(fs0: FS, rs: seq<Request>, s: State, i: nat)
    requires Inv(fs0, rs, s) && Consistent(fs0, rs)
    ensures Inv(fs0, rs, Step(true, rs, s, i))
  {
    if i < |rs| {
      assert PhaseOk(s.fs, rs[i], s.phases[i]);
      hide Inv, Consistent;
      match s.phases[i] {
        case Waiting => WaitInv(fs0, rs, s, i);
        case Climbing(_) => MkdirInv(fs0, rs, s, i);
        case Descending(_) => MkdirInv(fs0, rs, s, i);
        case PastExists => OpenInv(fs0, rs, s, i);
        case PastIsDir => OpenInv(fs0, rs, s, i);
        case PastSpace => OpenInv(fs0, rs, s, i);
        case Ensured => if rs[i].Put? { OpenInv(fs0, rs, s, i); } else { MakeInv(fs0, rs, s, i); }
        case Opened => PublishInv(fs0, rs, s, i);
        case Finished(r) => assert s.phases[i := s.phases[i]] == s.phases;
      }
    }
  }

  lemma StartInv(fs0: FS, rs: seq<Request>)
    requires Consistent(fs0, rs)
    ensures Inv(fs0, rs, Start(fs0, rs))
  {
    forall a ensures At(fs0, rs, Start(fs0, rs), a) {}
  }

  lemma {:induction false} RunInv(fs0: FS, rs: seq<Request>, order: seq<nat>)
    requires Consistent(fs0, rs)
    ensures Inv(fs0, rs, Run(true, rs, fs0, order))
    decreases |order|
  {
    if order == [] {
      StartInv(fs0, rs);
    } else {
      RunInv(fs0, rs, order[..|order| - 1]);
      hide Inv, Consistent, Step;
      StepInv(fs0, rs, Run(true, rs, fs0, order[..|order| - 1]), order[|order| - 1]);
    }
  }

  predicate AllFinished(s: State) {
    forall i :: 0 <= i < |s.phases| ==> s.phases[i].Finished?
  }

  // ----- the result -----

  ghost predicate PutTo(rs: seq<Request>, i: nat, a: Path) {
    i < |rs| && rs[i].Put? && rs[i].path == a
  }

  /** The tree that belongs to the requests: the uploads in their places, the
      directories they need, and otherwise what was there. */
  ghost predicate Belongs(fs0: FS, rs: seq<Request>, fs: FS, a: Path) {
    && (forall i: nat :: PutTo(rs, i, a) ==> a in fs && fs[a] == File(rs[i].data))
    && ((forall i: nat :: !PutTo(rs, i, a)) ==>
          if a in fs0 then Agree(fs, fs0, a)
          else (a in fs <==> Needed(rs, a)) && (a in fs ==> fs[a] == Dir))
  }

  lemma NeededThere(fs0: FS, rs: seq<Request>, s: State, a: Path)
    requires Inv(fs0, rs, s) && AllFinished(s) && Needed(rs, a)
    ensures IsDir(s.fs, a)
  {
    var i :| 0 <= i < |rs| && Under(a, Leads(rs[i]));
    assert PhaseOk(s.fs, rs[i], s.phases[i]);
    if a != Leads(rs[i]) { AncestorsAreDirs(s.fs, Leads(rs[i]), a); }
  }

  /** With parent creation on, requests that fit together may be served in any order,
      call by call: when all are finished every upload was created, every collection is
      there whether its request created it or found it, and the tree is determined. */
  lemma AnyOrderServes(fs0: FS, rs: seq<Request>, order: seq<nat>)
    requires Consistent(fs0, rs) && AllFinished(Run(true, rs, fs0, order))
    ensures var s := Run(true, rs, fs0, order);
            && (forall i :: 0 <= i < |rs| ==>
                  if rs[i].Put? then s.phases[i] == Finished(Created)
                  else s.phases[i] in {Finished(Created), Finished(Exists)} && IsDir(s.fs, rs[i].path))
            && forall a :: Belongs(fs0, rs, s.fs, a)
  {
    RunInv(fs0, rs, order);
    var s := Run(true, rs, fs0, order);
    hide Run, Consistent;
    forall i | 0 <= i < |rs|
      ensures if rs[i].Put? then s.phases[i] == Finished(Created)
              else s.phases[i] in {Finished(Created), Finished(Exists)} && IsDir(s.fs, rs[i].path)
    {
      assert PhaseOk(s.fs, rs[i], s.phases[i]);
    }
    forall a ensures Belongs(fs0, rs, s.fs, a) { FinishedBelongs(fs0, rs, s, a); }
  }

  lemma FinishedBelongs(fs0: FS, rs: seq<Request>, s: State, a: Path)
    requires Inv(fs0, rs, s) && AllFinished(s)
    ensures Belongs(fs0, rs, s.fs, a)
  {
    assert At(fs0, rs, s, a);
    forall i: nat ensures PutTo(rs, i, a) <==> Uploaded(rs, s.phases, i, a) {}
    if Needed(rs, a) { NeededThere(fs0, rs, s, a); }
    hide Needed, Uploaded, PutTo, PhasesOk, WellFormed;
  }

  /** So two orders, of the same requests, end in the same tree. */
  lemma OrdersAgree(fs0: FS, rs: seq<Request>, order: seq<nat>, other: seq<nat>)
    requires Consistent(fs0, rs)
    requires AllFinished(Run(true, rs, fs0, order)) && AllFinished(Run(true, rs, fs0, other))
    ensures Run(true, rs, fs0, order).fs == Run(true, rs, fs0, other).fs
  {
    AnyOrderServes(fs0, rs, order);
    AnyOrderServes(fs0, rs, other);
    var x, y := Run(true, rs, fs0, order).fs, Run(true, rs, fs0, other).fs;
    hide Run, Consistent, Needed;
    forall a ensures Agree(x, y, a) {
      assert Belongs(fs0, rs, x, a) && Belongs(fs0, rs, y, a);
      if i: nat :| PutTo(rs, i, a) {}
    }
    SameByAgreement(x, y);
  }

  // ----- every request finishes, and what the option changes -----

  function CallsLeft(rq: Request, ph: Phase): nat {
    var depth := |ParentOf(rq.path)|;
    match ph
    case Waiting => 2 * depth + 7
    case Climbing(k) => depth + k + 6
    case Descending(k) => if k <= depth then depth - k + 6 else 6
    case Ensured => 5
    case PastExists => 4
    case PastIsDir => 3
    case PastSpace => 2
    case Opened => 1
    case Finished(_) => 0
  }

  /** Each call brings a request nearer to its answer, so that it has one after at most
      `2 * depth + 7` of them, whatever the others do in between. */
  lemma StepsFinish(createParents: bool, rs: seq<Request>, s: State, i: nat)
    requires |s.phases| == |rs| && i < |rs| && !s.phases[i].Finished?
    ensures CallsLeft(rs[i], Step(createParents, rs, s, i).phases[i]) < CallsLeft(rs[i], s.phases[i])
    ensures forall k :: 0 <= k < |rs| && k != i ==> Step(createParents, rs, s, i).phases[k] == s.phases[k]
  {
    hide OpenCheck, MakeOne, Publish;
  }

  // ----- without others in between -----

  /** The calls of `ensure_parent`, one after the other. */
  function EnsureAlone(createParents: bool, fs: FS, rq: Request, ph: Phase): (FS, Phase)
    decreases CallsLeft(rq, ph)
  {
    if ph.Waiting? || ph.Climbing? || ph.Descending? then
      var (fs1, ph1) := Act(createParents, fs, rq, ph);
      EnsureAlone(createParents, fs1, rq, ph1)
    else (fs, ph)
  }

  lemma {:induction false} ClimbMakesAll(c: bool, fs: FS, rq: Request, k: nat)
    requires k <= |ParentOf(rq.path)|
    ensures var d := ParentOf(rq.path);
            var (fs1, ok) := MkdirAll(fs, {}, d[..k]);
            EnsureAlone(c, fs, rq, Climbing(k)) ==
            if ok then EnsureAlone(c, fs1, rq, Onward(d, k)) else (fs1, Finished(Failed))
  {
    var d := ParentOf(rq.path);
    var q := d[..k];
    assert WayTo(d, k) == q;
    if !IsDir(fs, q) && q !in fs && k > 0 {
      assert Parent(q) == d[..k - 1] && WayTo(d, k - 1) == d[..k - 1];
      if Parent(q) !in fs {
        ClimbMakesAll(c, fs, rq, k - 1);
      }
    }
  }

  /** If nothing comes between them, they do what `create_dir_all` does in one go. */
  lemma AloneMakesAll(createParents: bool, fs: FS, rq: Request)
    ensures var (fs1, ok) := Ensure(createParents, fs, rq.path);
            EnsureAlone(createParents, fs, rq, Waiting) == (fs1, if ok then Ensured else Finished(Failed))
  {
    var d := ParentOf(rq.path);
    if createParents && d != [] {
      ClimbMakesAll(createParents, fs, rq, |d|);
      assert d[..|d|] == d;
    }
    hide MkdirAll;
  }

  /** The checks of an upload, one after the other. */
  function OpenAlone(createParents: bool, fs: FS, rq: Request, ph: Phase): (FS, Phase)
    requires rq.Put?
    decreases CallsLeft(rq, ph)
  {
    if ph.Ensured? || Checks(ph) then
      var (fs1, ph1) := Act(createParents, fs, rq, ph);
      OpenAlone(createParents, fs1, rq, ph1)
    else (fs, ph)
  }

  /** If nothing comes between them, they answer what the checks together do. */
  lemma AloneChecks(createParents: bool, fs: FS, rq: Request)
    requires rq.Put?
    ensures OpenAlone(createParents, fs, rq, Ensured) ==
            (fs, if OpenCheck(fs, rq).Some? then Finished(OpenCheck(fs, rq).value) else Opened)
  {
    var a := Act(createParents, fs, rq, Ensured).1;
    if a == PastExists {
      var b := Act(createParents, fs, rq, a).1;
      assert OpenAlone(createParents, fs, rq, a) == OpenAlone(createParents, fs, rq, b);
      if b == PastIsDir {
        var d := Act(createParents, fs, rq, b).1;
        assert OpenAlone(createParents, fs, rq, b) == OpenAlone(createParents, fs, rq, d);
        if d == PastSpace {
          var e := Act(createParents, fs, rq, d).1;
          assert OpenAlone(createParents, fs, rq, d) == OpenAlone(createParents, fs, rq, e) == (fs, e);
        }
      }
    }
  }

  /** Without parent creation the same upload is turned away when its parent is
      missing, as section 9.7.1 of RFC 4918 asks, and with it it is not. */
  lemma ParentsMatter(fs: FS, rq: Request)
    requires rq.Put? && rq.path != [] && WellFormed(fs) && IsDir(fs, []) && Servable(fs, rq)
    ensures OpenCheck(Ensure(false, fs, rq.path).0, rq) ==
            if IsDir(fs, Parent(rq.path)) then None else Some(NoParent)
    ensures Ensure(true, fs, rq.path).1 && OpenCheck(Ensure(true, fs, rq.path).0, rq).None?
  {
    var d := Parent(rq.path);
    if d != [] { MkdirAllSucceeds(fs, {}, d); }
    hide MkdirAll;
  }
}
