/** Many uploads at once, also to the same target: every interleaving of opening,
    writing, committing and dropping, and crashes that drop nothing. */
module UploadServer {
  import opened FileSystem
  import opened TempNames
  import opened Upload

  /** An upload in progress.  The last four record history: the bytes that reached its
      file, the bytes it was given to write while its file was open, how many of those
      were left unwritten, and how far the hasher has run ahead of the file. */
  datatype Session = Session(h: Handle, live: bool, accepted: Bytes, offered: Bytes, missing: nat, ahead: nat)

  /** History: what was renamed onto which target, and the upload it came from. */
  datatype Publication = Publication(target: Path, data: Bytes, writer: nat, sender: Session)

  datatype Server = Server(files: Files, sessions: seq<Session>, log: seq<Publication>)

  /** Atomic steps.  An upload opens on whichever free slot it gets to; a concurrent
      opening may have been in its way on an earlier one. */
  datatype Action =
    | Open(target: Path, slot: nat, size: Option<nat>, digest: Option<Bytes>, fsync: bool)
    | PutBytes(u: nat, buf: Bytes, fail: Option<nat>)
    | PutBuf(u: nat, chunks: seq<Bytes>, io: nat -> WriteIO)
    | Flush(u: nat, fsyncOk: bool, renameOk: bool)
    | Close(u: nat, removeOk: bool)
    | Crash

  ghost predicate MayOpen(s: Server, target: Path, slot: nat) {
    target != [] && !Reserved(target) && slot < SLOTS && TempPath(target, slot) !in s.files
  }

  predicate Running(s: Server, u: nat) {
    u < |s.sessions| && s.sessions[u].live
  }

  /** Recording a write of `buf`, of which `reached` got into the file while the hasher
      took `hashed` bytes.  On a closed file nothing is offered. */
  function Wrote(x: Session, h: Handle, buf: Bytes, reached: Bytes, hashed: nat): Session
    requires |reached| <= |buf| && |reached| <= hashed
  {
    var offered := if x.h.open then buf else [];
    x.(h := h, accepted := x.accepted + reached, offered := x.offered + offered,
       missing := if x.h.open then x.missing + (|buf| - |reached|) else x.missing,
       ahead := x.ahead + (hashed - |reached|))
  }

  /** The part of a buffer that gets into the file. */
  function Reaches(h: Handle, buf: Bytes, fail: Option<nat>): (r: Bytes)
    ensures |r| <= |buf|
  {
    if !h.open then [] else if fail.Some? then FirstBytes(fail.value, buf) else buf
  }

  function Drained(h: Handle, chunks: seq<Bytes>, io: nat -> WriteIO): (r: Bytes)
    ensures |r| <= |Flatten(chunks)|
  {
    DrainPrefix(chunks, io, 0);
    if h.open then Drain(chunks, io, 0).0 else []
  }

  ghost function Step(s: Server, sha: Sha, a: Action): Server {
    match a
    case Open(target, slot, size, digest, fsync) =>
      if !MayOpen(s, target, slot) then s
      else
        var temp := TempPath(target, slot);
        s.(files := s.files[temp := []],
           sessions := s.sessions + [Session(NewHandle(temp, target, size, digest, fsync), true, [], [], 0, 0)])
    case PutBytes(u, buf, fail) =>
      if !Running(s, u) then s
      else
        var (files, h, r) := WriteBytes(s.files, s.sessions[u].h, buf, fail);
        s.(files := files, sessions :=
              s.sessions[u := Wrote(s.sessions[u], h, buf, Reaches(s.sessions[u].h, buf, fail), |buf|)])
    case PutBuf(u, chunks, io) =>
      if !Running(s, u) then s
      else
        var (files, h, r) := WriteBuf(s.files, s.sessions[u].h, chunks, io);
        var reached := Drained(s.sessions[u].h, chunks, io);
        s.(files := files,
           sessions := s.sessions[u := Wrote(s.sessions[u], h, Flatten(chunks), reached, |reached|)])
    case Flush(u, fsyncOk, renameOk) =>
      if !Running(s, u) then s
      else
        var x := s.sessions[u];
        var (files, h, _) := Commit(s.files, x.h, sha, fsyncOk, renameOk);
        s.(files := files, sessions := s.sessions[u := x.(h := h)],
           log := if h.committed && !x.h.committed && x.h.temp in s.files
                  then s.log + [Publication(x.h.target, s.files[x.h.temp], u, x)] else s.log)
    case Close(u, removeOk) =>
      if !Running(s, u) then s
      else s.(files := Drop(s.files, s.sessions[u].h, removeOk),
              sessions := s.sessions[u := s.sessions[u].(live := false)])
    case Crash =>
      s.(sessions := seq(|s.sessions|, i requires 0 <= i < |s.sessions| => s.sessions[i].(live := false)))
  }

  ghost function Run(s: Server, sha: Sha, actions: seq<Action>): Server
    decreases |actions|
  {
    if actions == [] then s
    else Step(Run(s, sha, actions[..|actions| - 1]), sha, actions[|actions| - 1])
  }

  // ----- what every step keeps -----

  /** The upload still has its temporary file. */
  predicate Streaming(x: Session) {
    x.live && !x.h.committed
  }

  /** The temporary file of a streaming upload holds exactly what that upload put
      there; the byte counter is ahead of it by what was left unwritten, and the hasher
      by what it took besides. */
  ghost predicate SessionOk(files: Files, x: Session) {
    && x.h.target != [] && !Reserved(x.h.target) && Reserved(x.h.temp)
    && (Streaming(x) ==> x.h.temp in files && files[x.h.temp] == x.accepted)
    && x.h.written == |x.offered| == |x.accepted| + x.missing
    && (x.missing == 0 ==> x.accepted == x.offered)
    && |x.h.hashed| == |x.accepted| + x.ahead
    && (x.ahead == 0 ==> x.h.hashed == x.accepted)
    && (x.h.committed ==> !x.h.open)
  }

  ghost predicate SessionsOk(files: Files, xs: seq<Session>) {
    forall u :: 0 <= u < |xs| ==> SessionOk(files, xs[u])
  }

  ghost predicate TempsApart(xs: seq<Session>) {
    forall u, v :: 0 <= u < v < |xs| && Streaming(xs[u]) && Streaming(xs[v]) ==>
      xs[u].h.temp != xs[v].h.temp
  }

  /** The last publication of a target. */
  function LastPublished(log: seq<Publication>, q: Path): Option<Bytes> {
    if log == [] then None
    else if log[|log| - 1].target == q then Some(log[|log| - 1].data)
    else LastPublished(log[..|log| - 1], q)
  }

  /** At a target there is what was published there last, or what was there before. */
  ghost predicate Shows(files0: Files, s: Server, q: Path) {
    match LastPublished(s.log, q)
    case Some(data) => q in s.files && s.files[q] == data
    case None => (q in s.files <==> q in files0) && (q in s.files ==> s.files[q] == files0[q])
  }

  /** A publication is one upload's own bytes.  It has the announced length exactly if
      none of the bytes offered were left unwritten, and then it is what was offered; the
      announced checksum is that of what the hasher took, which is the published data
      exactly if it did not run ahead. */
  ghost predicate Genuine(sha: Sha, e: Publication) {
    && e.target == e.sender.h.target && e.data == e.sender.accepted
    && (e.data == e.sender.offered <==> e.sender.missing == 0)
    && (e.sender.h.expectedSize.Some? ==>
          (|e.data| == e.sender.h.expectedSize.value <==> e.sender.missing == 0))
    && (e.sender.h.digest.Some? ==> sha(e.sender.h.hashed) == e.sender.h.digest.value)
    && (e.sender.h.hashed == e.data <==> e.sender.ahead == 0)
  }

  /** Every upload publishes at most once. */
  ghost predicate LogOk(sha: Sha, s: Server) {
    && (forall i :: 0 <= i < |s.log| ==> Genuine(sha, s.log[i]))
    && (forall i :: 0 <= i < |s.log| ==>
          s.log[i].writer < |s.sessions| && s.sessions[s.log[i].writer].h.committed)
    && (forall i, j :: 0 <= i < j < |s.log| ==> s.log[i].writer != s.log[j].writer)
  }

  /** Temporary files that were there before are left alone. */
  ghost predicate SparesOld(files0: Files, files: Files) {
    forall q :: Reserved(q) && q in files0 ==> q in files && files[q] == files0[q]
  }

  ghost predicate FreshTemps(files0: Files, xs: seq<Session>) {
    forall u :: 0 <= u < |xs| && Streaming(xs[u]) ==> xs[u].h.temp !in files0
  }

  ghost predicate TargetsShow(files0: Files, s: Server) {
    forall q :: !Reserved(q) ==> Shows(files0, s, q)
  }

  ghost predicate Inv(files0: Files, sha: Sha, s: Server) {
    && SessionsOk(s.files, s.sessions) && TempsApart(s.sessions)
    && TargetsShow(files0, s) && LogOk(sha, s)
    && SparesOld(files0, s.files) && FreshTemps(files0, s.sessions)
  }

  predicate SameAt(a: Files, b: Files, q: Path) {
    (q in a <==> q in b) && (q in a ==> a[q] == b[q])
  }

  /** Nothing differs but possibly what is at `p`. */
  ghost predicate OnlyAt(a: Files, b: Files, p: Path) {
    forall q :: q != p ==> SameAt(a, b, q)
  }

  // ----- what is kept when nobody publishes -----

  lemma TargetsKept(files0: Files, s: Server, s': Server, p: Path)
    requires TargetsShow(files0, s) && s'.log == s.log
    requires Reserved(p) && OnlyAt(s.files, s'.files, p)
    ensures TargetsShow(files0, s')
  {
    hide Reserved, LastPublished;
    forall q | !Reserved(q) ensures Shows(files0, s', q) {
      assert Shows(files0, s, q) && SameAt(s.files, s'.files, q);
    }
  }

  lemma LogKept(sha: Sha, s: Server, s': Server)
    requires LogOk(sha, s) && s'.log == s.log && |s.sessions| <= |s'.sessions|
    requires forall u :: 0 <= u < |s.sessions| && s.sessions[u].h.committed ==> s'.sessions[u].h.committed
    ensures LogOk(sha, s')
  {
    hide Genuine;
  }

  lemma OldKept(files0: Files, a: Files, b: Files, p: Path)
    requires SparesOld(files0, a) && OnlyAt(a, b, p) && (p in files0 ==> SameAt(a, b, p))
    ensures SparesOld(files0, b)
  {
    hide Reserved;
    forall q | Reserved(q) && q in files0 ensures q in b && b[q] == files0[q] {
      assert SameAt(a, b, q);
    }
  }

  /** The other uploads do not notice what happens at a path that is not theirs. */
  lemma SessionKept(a: Files, b: Files, p: Path, x: Session)
    requires SessionOk(a, x) && OnlyAt(a, b, p)
    requires Streaming(x) && x.h.temp == p ==> SameAt(a, b, p)
    ensures SessionOk(b, x)
  {
    assert x.h.temp != p ==> SameAt(a, b, x.h.temp);
    hide OnlyAt, Reserved;
  }

  lemma SessionsKept(a: Files, b: Files, p: Path, xs: seq<Session>, u: nat, x: Session)
    requires SessionsOk(a, xs) && TempsApart(xs) && u < |xs| && OnlyAt(a, b, p)
    requires SessionOk(b, x) && x.h.temp == xs[u].h.temp && (Streaming(x) ==> Streaming(xs[u]))
    requires !SameAt(a, b, p) ==> Streaming(xs[u]) && xs[u].h.temp == p
    ensures SessionsOk(b, xs[u := x]) && TempsApart(xs[u := x])
  {
    hide SessionOk, OnlyAt, SameAt;
    var ys := xs[u := x];
    forall v | 0 <= v < |ys| ensures SessionOk(b, ys[v]) {
      if v != u {
        assert ys[v] == xs[v] && SessionOk(a, xs[v]);
        SessionKept(a, b, p, xs[v]);
      }
    }
  }

  /** A step of one upload that touches at most its own temporary file. */
  lemma OwnFileOnly(files0: Files, sha: Sha, s: Server, u: nat, files: Files, x: Session)
    requires Inv(files0, sha, s) && Running(s, u) && SessionOk(files, x)
    requires x.h.committed == s.sessions[u].h.committed && x.h.temp == s.sessions[u].h.temp
    requires OnlyAt(s.files, files, x.h.temp) && (x.h.committed ==> s.files == files)
    ensures Inv(files0, sha, s.(files := files, sessions := s.sessions[u := x]))
  {
    var s' := s.(files := files, sessions := s.sessions[u := x]);
    assert Reserved(x.h.temp);
    assert Streaming(s.sessions[u]) || s.files == files;
    assert s.files == files ==> SameAt(s.files, files, x.h.temp);
    assert Streaming(s.sessions[u]) ==> x.h.temp !in files0;
    hide SessionOk, Reserved, TempsApart, SessionsOk, TargetsShow, SparesOld, OnlyAt, SameAt;
    SessionsKept(s.files, files, x.h.temp, s.sessions, u, x);
    TargetsKept(files0, s, s', x.h.temp);
    OldKept(files0, s.files, files, x.h.temp);
    LogKept(sha, s, s') by { hide LogOk; }
    hide LogOk;
  }

  lemma AppendOnlyAt(files: Files, p: Path, data: Bytes)
    ensures OnlyAt(files, Append(files, p, data), p)
  {
  }

  lemma PutBytesOk(files: Files, x: Session, buf: Bytes, fail: Option<nat>)
    requires SessionOk(files, x) && x.live
    ensures var (files1, h, _) := WriteBytes(files, x.h, buf, fail);
            var reached := Reaches(x.h, buf, fail);
            SessionOk(files1, Wrote(x, h, buf, reached, |buf|)) && files1 == Append(files, x.h.temp, reached)
  {
    AppendNothing(files, x.h.temp);
    assert x.accepted + [] == x.accepted && x.offered + [] == x.offered;
    hide Reserved;
  }

  lemma PutBytesInv(files0: Files, sha: Sha, s: Server, u: nat, buf: Bytes, fail: Option<nat>)
    requires Inv(files0, sha, s)
    ensures Inv(files0, sha, Step(s, sha, PutBytes(u, buf, fail)))
  {
    if Running(s, u) {
      var x := s.sessions[u];
      var (files, h, r) := WriteBytes(s.files, x.h, buf, fail);
      assert SessionOk(s.files, x);
      PutBytesOk(s.files, x, buf, fail);
      AppendOnlyAt(s.files, x.h.temp, Reaches(x.h, buf, fail));
      AppendNothing(s.files, x.h.temp);
      assert h.temp == x.h.temp && h.committed == x.h.committed && (h.committed ==> !x.h.open);
      hide Reserved, Inv, OnlyAt, SessionOk, Append;
      OwnFileOnly(files0, sha, s, u, files, Wrote(x, h, buf, Reaches(x.h, buf, fail), |buf|));
    }
  }

  lemma PutBufOk(files: Files, x: Session, chunks: seq<Bytes>, io: nat -> WriteIO)
    requires SessionOk(files, x) && x.live
    ensures var (files1, h, _) := WriteBuf(files, x.h, chunks, io);
            var reached := Drained(x.h, chunks, io);
            SessionOk(files1, Wrote(x, h, Flatten(chunks), reached, |reached|))
            && files1 == Append(files, x.h.temp, reached)
  {
    AppendNothing(files, x.h.temp);
    DrainPrefix(chunks, io, 0);
    assert x.accepted + [] == x.accepted && x.offered + [] == x.offered;
    hide Reserved, Drain, Flatten;
  }

  lemma PutBufInv(files0: Files, sha: Sha, s: Server, u: nat, chunks: seq<Bytes>, io: nat -> WriteIO)
    requires Inv(files0, sha, s)
    ensures Inv(files0, sha, Step(s, sha, PutBuf(u, chunks, io)))
  {
    if Running(s, u) {
      var x := s.sessions[u];
      var (files, h, r) := WriteBuf(s.files, x.h, chunks, io);
      assert SessionOk(s.files, x);
      PutBufOk(s.files, x, chunks, io);
      var reached := Drained(x.h, chunks, io);
      AppendOnlyAt(s.files, x.h.temp, reached);
      AppendNothing(s.files, x.h.temp);
      assert h.temp == x.h.temp && h.committed == x.h.committed && (h.committed ==> !x.h.open);
      hide Reserved, Inv, OnlyAt, SessionOk, Append, Drain, Flatten;
      OwnFileOnly(files0, sha, s, u, files, Wrote(x, h, Flatten(chunks), reached, |reached|));
    }
  }

  // ----- opening -----

  lemma NewSessionOk(files: Files, target: Path, slot: nat, size: Option<nat>, digest: Option<Bytes>, fsync: bool)
    requires target != [] && !Reserved(target) && slot < SLOTS
    ensures var temp := TempPath(target, slot);
            Reserved(temp) &&
            SessionOk(files[temp := []], Session(NewHandle(temp, target, size, digest, fsync), true, [], [], 0, 0))
  {
    TempPathReserved(target, slot);
  }

  lemma OpenSessions(a: Files, xs: seq<Session>, x: Session)
    requires SessionsOk(a, xs) && TempsApart(xs)
    requires x.h.temp !in a && SessionOk(a[x.h.temp := []], x)
    ensures SessionsOk(a[x.h.temp := []], xs + [x]) && TempsApart(xs + [x])
  {
    var b, ys := a[x.h.temp := []], xs + [x];
    forall v | 0 <= v < |xs| ensures SessionOk(b, xs[v]) && (Streaming(xs[v]) ==> xs[v].h.temp != x.h.temp) {
      assert SessionOk(a, xs[v]);
      SessionKept(a, b, x.h.temp, xs[v]);
    }
    hide SessionOk;
    forall v | 0 <= v < |ys| ensures SessionOk(b, ys[v]) {
      if v < |xs| { assert ys[v] == xs[v]; }
    }
  }

  lemma OpenInv(files0: Files, sha: Sha, s: Server,
                target: Path, slot: nat, size: Option<nat>, digest: Option<Bytes>, fsync: bool)
    requires Inv(files0, sha, s)
    ensures Inv(files0, sha, Step(s, sha, Open(target, slot, size, digest, fsync)))
  {
    if MayOpen(s, target, slot) {
      var s' := Step(s, sha, Open(target, slot, size, digest, fsync));
      var temp := TempPath(target, slot);
      var x := Session(NewHandle(temp, target, size, digest, fsync), true, [], [], 0, 0);
      NewSessionOk(s.files, target, slot, size, digest, fsync);
      assert OnlyAt(s.files, s'.files, temp);
      assert temp !in files0;
      OpenSessions(s.files, s.sessions, x);
      hide SessionOk, Reserved, TempsApart, SessionsOk, TargetsShow, SparesOld, OnlyAt, SameAt, LogOk;
      TargetsKept(files0, s, s', temp);
      OldKept(files0, s.files, s'.files, temp);
      LogKept(sha, s, s');
    }
  }

  // ----- letting go -----

  /** Letting go of an upload, with or without its temporary file. */
  lemma CloseInv(files0: Files, sha: Sha, s: Server, u: nat, removeOk: bool)
    requires Inv(files0, sha, s)
    ensures Inv(files0, sha, Step(s, sha, Close(u, removeOk)))
  {
    if Running(s, u) {
      var s', x := Step(s, sha, Close(u, removeOk)), s.sessions[u];
      assert SessionOk(s.files, x);
      assert SessionOk(s'.files, x.(live := false)) && Reserved(x.h.temp);
      assert OnlyAt(s.files, s'.files, x.h.temp);
      assert Streaming(x) ==> x.h.temp !in files0;
      assert !Streaming(x) ==> SameAt(s.files, s'.files, x.h.temp);
      hide SessionOk, Reserved, TempsApart, SessionsOk, TargetsShow, SparesOld, OnlyAt, SameAt, LogOk, Drop;
      SessionsKept(s.files, s'.files, x.h.temp, s.sessions, u, x.(live := false));
      TargetsKept(files0, s, s', x.h.temp);
      OldKept(files0, s.files, s'.files, x.h.temp);
      LogKept(sha, s, s');
    }
  }

  lemma CrashInv(files0: Files, sha: Sha, s: Server)
    requires Inv(files0, sha, s)
    ensures Inv(files0, sha, Step(s, sha, Crash))
  {
    var s' := Step(s, sha, Crash);
    LogKept(sha, s, s') by { hide LogOk; }
    hide Reserved, LogOk;
    forall u | 0 <= u < |s'.sessions| ensures SessionOk(s'.files, s'.sessions[u]) {
      assert SessionOk(s.files, s.sessions[u]);
    }
    forall q | !Reserved(q) ensures Shows(files0, s', q) { assert Shows(files0, s, q); }
  }

  // ----- publishing -----

  /** Committing changes neither the paths nor what has been written. */
  predicate SameStream(h: Handle, g: Handle) {
    (h.temp, h.target) == (g.temp, g.target) && h.written == g.written && h.hashed == g.hashed
  }

  /** What a commit does to the upload it is called on. */
  lemma CommitEffect(sha: Sha, s: Server, u: nat, fsyncOk: bool, renameOk: bool)
    requires Running(s, u) && SessionOk(s.files, s.sessions[u])
    ensures var x := s.sessions[u];
            var (files, h, _) := Commit(s.files, x.h, sha, fsyncOk, renameOk);
            h.committed && !x.h.committed ==>
              && x.h.temp in s.files && files == (s.files - {x.h.temp})[x.h.target := s.files[x.h.temp]]
              && Genuine(sha, Publication(x.h.target, s.files[x.h.temp], u, x)) && !h.open
    ensures var x := s.sessions[u];
            var (files, h, _) := Commit(s.files, x.h, sha, fsyncOk, renameOk);
            && SameStream(h, x.h)
            && (x.h.committed ==> h == x.h)
            && (x.h.committed || !h.committed ==> files == s.files && SessionOk(files, x.(h := h)))
  {
    hide Reserved;
  }

  function Renamed(files: Files, h: Handle): Files
    requires h.temp in files
  {
    (files - {h.temp})[h.target := files[h.temp]]
  }

  lemma PublishSessions(a: Files, xs: seq<Session>, u: nat, h: Handle)
    requires SessionsOk(a, xs) && TempsApart(xs) && u < |xs| && Streaming(xs[u])
    requires SameStream(h, xs[u].h) && h.committed && !h.open
    requires h.temp in a
    ensures SessionsOk(Renamed(a, h), xs[u := xs[u].(h := h)]) && TempsApart(xs[u := xs[u].(h := h)])
  {
    var x := xs[u].(h := h);
    var b, ys := Renamed(a, h), xs[u := x];
    assert SessionOk(a, xs[u]);
    var c := a - {h.temp};
    assert OnlyAt(a, c, h.temp) && OnlyAt(c, b, h.target);
    assert SessionOk(c, x) && SessionOk(b, x) && !Reserved(h.target);
    hide SessionOk, OnlyAt, SameAt, Renamed, Reserved;
    SessionsKept(a, c, h.temp, xs, u, x);
    forall v | 0 <= v < |ys| ensures SessionOk(b, ys[v]) {
      if v != u {
        TempReserved(c, ys[v]);
        SessionKept(c, b, h.target, ys[v]);
      }
    }
  }

  lemma TempReserved(files: Files, x: Session)
    requires SessionOk(files, x)
    ensures Reserved(x.h.temp) && !Reserved(x.h.target)
  {
  }

  lemma PublishTargets(files0: Files, s: Server, s': Server, h: Handle, e: Publication)
    requires TargetsShow(files0, s) && h.temp in s.files && Reserved(h.temp) && !Reserved(h.target)
    requires s'.files == Renamed(s.files, h) && s'.log == s.log + [e]
    requires e.target == h.target && e.data == s.files[h.temp]
    ensures TargetsShow(files0, s')
  {
    hide Reserved;
    assert s'.log[..|s.log|] == s.log;
    forall q | !Reserved(q) ensures Shows(files0, s', q) {
      assert Shows(files0, s, q);
    }
  }

  lemma PublishLog(sha: Sha, s: Server, u: nat, x: Session, e: Publication, files: Files)
    requires LogOk(sha, s) && Running(s, u) && !s.sessions[u].h.committed && x.h.committed
    requires Genuine(sha, e) && e.writer == u
    ensures LogOk(sha, Server(files, s.sessions[u := x], s.log + [e]))
  {
    hide Genuine;
    var s' := Server(files, s.sessions[u := x], s.log + [e]);
    forall i | 0 <= i < |s'.log| ensures Genuine(sha, s'.log[i]) {
      assert i < |s.log| ==> s'.log[i] == s.log[i];
    }
  }

  lemma PublishOld(files0: Files, a: Files, h: Handle)
    requires SparesOld(files0, a) && h.temp in a && h.temp !in files0 && !Reserved(h.target)
    ensures SparesOld(files0, Renamed(a, h))
  {
    hide Reserved;
  }

  /** The rename: the temporary file disappears and the target holds its content. */
  lemma PublishInv(files0: Files, sha: Sha, s: Server, u: nat, h: Handle)
    requires Inv(files0, sha, s) && Running(s, u) && !s.sessions[u].h.committed && h.committed && !h.open
    requires SameStream(h, s.sessions[u].h) && h.temp in s.files
    requires Genuine(sha, Publication(h.target, s.files[h.temp], u, s.sessions[u]))
    ensures Inv(files0, sha,
              Server(Renamed(s.files, h), s.sessions[u := s.sessions[u].(h := h)],
                     s.log + [Publication(h.target, s.files[h.temp], u, s.sessions[u])]))
  {
    var x, e := s.sessions[u], Publication(h.target, s.files[h.temp], u, s.sessions[u]);
    var s' := Server(Renamed(s.files, h), s.sessions[u := x.(h := h)], s.log + [e]);
    TempReserved(s.files, x);
    assert Streaming(x) && h.temp !in files0;
    hide Reserved, Genuine, TempsApart, SessionsOk, TargetsShow, SparesOld, LogOk, Renamed;
    PublishSessions(s.files, s.sessions, u, h);
    PublishTargets(files0, s, s', h, e);
    PublishLog(sha, s, u, x.(h := h), e, s'.files);
    PublishOld(files0, s.files, h);
  }

  lemma FlushInv(files0: Files, sha: Sha, s: Server, u: nat, fsyncOk: bool, renameOk: bool)
    requires Inv(files0, sha, s)
    ensures Inv(files0, sha, Step(s, sha, Flush(u, fsyncOk, renameOk)))
  {
    if Running(s, u) {
      var x := s.sessions[u];
      var (files, h, _) := Commit(s.files, x.h, sha, fsyncOk, renameOk);
      assert SessionOk(s.files, x);
      CommitEffect(sha, s, u, fsyncOk, renameOk);
      hide Inv, Commit, Genuine, SessionOk;
      if h.committed && !x.h.committed {
        PublishInv(files0, sha, s, u, h);
      } else {
        OwnFileOnly(files0, sha, s, u, files, x.(h := h));
      }
    }
  }

  // ----- every run -----

  function Start(files0: Files): Server {
    Server(files0, [], [])
  }

  lemma StepInv(files0: Files, sha: Sha, s: Server, a: Action)
    requires Inv(files0, sha, s)
    ensures Inv(files0, sha, Step(s, sha, a))
  {
    hide Inv, Step;
    match a
    case Open(target, slot, size, digest, fsync) => OpenInv(files0, sha, s, target, slot, size, digest, fsync);
    case PutBytes(u, buf, fail) => PutBytesInv(files0, sha, s, u, buf, fail);
    case PutBuf(u, chunks, io) => PutBufInv(files0, sha, s, u, chunks, io);
    case Flush(u, fsyncOk, renameOk) => FlushInv(files0, sha, s, u, fsyncOk, renameOk);
    case Close(u, removeOk) => CloseInv(files0, sha, s, u, removeOk);
    case Crash => CrashInv(files0, sha, s);
  }

  lemma {:induction false} RunInv(files0: Files, sha: Sha, actions: seq<Action>)
    ensures Inv(files0, sha, Run(Start(files0), sha, actions))
    decreases |actions|
  {
    if actions != [] {
      RunInv(files0, sha, actions[..|actions| - 1]);
      hide Inv, Step;
      StepInv(files0, sha, Run(Start(files0), sha, actions[..|actions| - 1]), actions[|actions| - 1]);
    }
  }

  /** In every interleaving of any uploads, failures and crashes, a target holds its
      initial content or what was last published there: one upload's accepted bytes,
      never a mix, and exactly when all that upload was given. */
  lemma PublishedOrInitial(files0: Files, sha: Sha, actions: seq<Action>, q: Path)
    requires !Reserved(q)
    ensures var s := Run(Start(files0), sha, actions);
            && Shows(files0, s, q)
            && (forall i :: 0 <= i < |s.log| ==> Genuine(sha, s.log[i]))
            && (forall i, j :: 0 <= i < j < |s.log| ==> s.log[i].writer != s.log[j].writer)
            && (LastPublished(s.log, q).None? <==> forall i :: 0 <= i < |s.log| ==> s.log[i].target != q)
  {
    RunInv(files0, sha, actions);
    NeverPublished(Run(Start(files0), sha, actions).log, q);
  }

  lemma {:induction false} NeverPublished(log: seq<Publication>, q: Path)
    ensures LastPublished(log, q).None? <==> forall i :: 0 <= i < |log| ==> log[i].target != q
  {
    if log != [] {
      NeverPublished(log[..|log| - 1], q);
      var n := |log| - 1;
      assert forall i :: 0 <= i < n ==> log[..n][i] == log[i];
      if LastPublished(log, q).None? {
        assert forall i :: 0 <= i < n ==> log[i].target != q;
      } else if log[n].target != q {
        var i :| 0 <= i < n && log[..n][i].target == q;
        assert log[i].target == q;
      }
    }
  }

  // ----- no temporary file is left behind, and none is removed too early -----

  ghost predicate Owned(xs: seq<Session>, q: Path) {
    exists u :: 0 <= u < |xs| && Streaming(xs[u]) && xs[u].h.temp == q
  }

  /** Every temporary file that was not there before belongs to a streaming upload. */
  ghost predicate Tidy(files0: Files, s: Server) {
    forall q :: Reserved(q) && q in s.files && q !in files0 ==> Owned(s.sessions, q)
  }

  /** No crash, and every removal of a temporary file succeeds. */
  predicate Clean(a: Action) {
    !a.Crash? && (a.Close? ==> a.removeOk)
  }

  lemma OwnedKept(xs: seq<Session>, u: nat, x: Session, q: Path)
    requires Owned(xs, q) && u < |xs|
    requires Streaming(xs[u]) && xs[u].h.temp == q ==> Streaming(x) && x.h.temp == q
    ensures Owned(xs[u := x], q)
  {
    var v :| 0 <= v < |xs| && Streaming(xs[v]) && xs[v].h.temp == q;
    assert xs[u := x][v] == if v == u then x else xs[v];
  }

  lemma OwnedMore(xs: seq<Session>, x: Session, q: Path)
    requires Owned(xs, q) || (Streaming(x) && x.h.temp == q)
    ensures Owned(xs + [x], q)
  {
    if Owned(xs, q) {
      var v :| 0 <= v < |xs| && Streaming(xs[v]) && xs[v].h.temp == q;
      assert (xs + [x])[v] == xs[v];
    } else {
      assert (xs + [x])[|xs|] == x;
    }
  }

  /** Which paths can come into being in a step of upload `u`, and what becomes of its
      own temporary file. */
  lemma StepOfOne(sha: Sha, s: Server, a: Action, u: nat)
    requires SessionsOk(s.files, s.sessions) && Running(s, u) && Clean(a)
    requires (a.PutBytes? || a.PutBuf? || a.Flush? || a.Close?) && a.u == u
    ensures var s' := Step(s, sha, a);
            && |s'.sessions| == |s.sessions| && s'.sessions == s.sessions[u := s'.sessions[u]]
            && s'.sessions[u].h.temp == s.sessions[u].h.temp
            && (forall q :: Reserved(q) && q in s'.files ==> q in s.files)
            && (s.sessions[u].h.temp in s'.files && Streaming(s.sessions[u]) ==> Streaming(s'.sessions[u]))
  {
    assert SessionOk(s.files, s.sessions[u]);
    hide Reserved, Drain, Flatten, SessionsOk;
    if a.Flush? {
      CommitEffect(sha, s, u, a.fsyncOk, a.renameOk);
    }
  }

  lemma StepTidy(files0: Files, sha: Sha, s: Server, a: Action)
    requires Inv(files0, sha, s) && Tidy(files0, s) && Clean(a)
    ensures Tidy(files0, Step(s, sha, a))
  {
    var s' := Step(s, sha, a);
    if s' != s {
      forall q | Reserved(q) && q in s'.files && q !in files0 ensures Owned(s'.sessions, q) {
        if a.Open? {
          assert s'.sessions == s.sessions + [s'.sessions[|s.sessions|]];
          hide Reserved, Owned, Inv;
          OwnedMore(s.sessions, s'.sessions[|s.sessions|], q);
        } else {
          assert Running(s, a.u);
          StepOfOne(sha, s, a, a.u);
          hide Reserved, Owned, Inv, Step;
          OwnedKept(s.sessions, a.u, s'.sessions[a.u], q);
        }
      }
    }
  }

  lemma {:induction false} RunTidy(files0: Files, sha: Sha, actions: seq<Action>)
    requires forall a :: a in actions ==> Clean(a)
    ensures Tidy(files0, Run(Start(files0), sha, actions))
    decreases |actions|
  {
    if actions != [] {
      var before := actions[..|actions| - 1];
      RunTidy(files0, sha, before);
      RunInv(files0, sha, before);
      hide Inv, Step, Tidy;
      StepTidy(files0, sha, Run(Start(files0), sha, before), actions[|actions| - 1]);
    }
  }

  lemma OwnedExists(files: Files, xs: seq<Session>, q: Path)
    requires SessionsOk(files, xs) && Owned(xs, q)
    ensures q in files
  {
    var u :| 0 <= u < |xs| && Streaming(xs[u]) && xs[u].h.temp == q;
    assert SessionOk(files, xs[u]);
  }

  /** No upload is in progress. */
  predicate AllDropped(s: Server) {
    forall u :: 0 <= u < |s.sessions| ==> !s.sessions[u].live
  }

  lemma NoneOwned(s: Server, q: Path)
    requires AllDropped(s)
    ensures !Owned(s.sessions, q)
  {
  }

  /** The temporary file `q` is in use exactly if it was there at the start, and then
      it is untouched, or belongs to a streaming upload. */
  ghost predicate InUseRightly(files0: Files, s: Server, q: Path) {
    && (q in s.files <==> q in files0 || Owned(s.sessions, q))
    && (q in files0 ==> q in s.files && s.files[q] == files0[q])
  }

  lemma TidyExactly(files0: Files, sha: Sha, s: Server, q: Path)
    requires Inv(files0, sha, s) && Tidy(files0, s) && Reserved(q)
    ensures InUseRightly(files0, s, q)
  {
    hide Reserved, SessionsOk, TempsApart, TargetsShow, LogOk, FreshTemps, Owned;
    if Owned(s.sessions, q) {
      OwnedExists(s.files, s.sessions, q);
    }
  }

  /** In a run without crashes in which temporary files can be removed, the reserved
      names in use are always those of the start, untouched, and one for each streaming
      upload; so when all uploads have been let go the temporary files are what they were. */
  lemma TempsComeAndGo(files0: Files, sha: Sha, actions: seq<Action>, q: Path)
    requires (forall a :: a in actions ==> Clean(a)) && Reserved(q)
    ensures InUseRightly(files0, Run(Start(files0), sha, actions), q)
    ensures AllDropped(Run(Start(files0), sha, actions)) ==>
            SameAt(files0, Run(Start(files0), sha, actions).files, q)
  {
    RunInv(files0, sha, actions);
    RunTidy(files0, sha, actions);
    var s := Run(Start(files0), sha, actions);
    TidyExactly(files0, sha, s, q);
    hide Reserved, Inv, Tidy, Run, Owned;
    if AllDropped(s) {
      NoneOwned(s, q);
    }
  }

  /** Dropping an upload takes away nothing but its own unfinished temporary file,
      which is no target, no other upload's temporary file, and not from before. */
  lemma DropTouchesNothingElse(files0: Files, sha: Sha, actions: seq<Action>, u: nat, removeOk: bool)
    requires Running(Run(Start(files0), sha, actions), u)
    ensures var s := Run(Start(files0), sha, actions);
            var s', temp := Step(s, sha, Close(u, removeOk)), s.sessions[u].h.temp;
            && OnlyAt(s.files, s'.files, temp) && Reserved(temp)
            && (removeOk && !s.sessions[u].h.committed ==> temp !in s'.files)
            && (s'.files != s.files ==>
                  && temp !in files0
                  && (forall v :: 0 <= v < |s.sessions| && v != u && Streaming(s.sessions[v]) ==>
                        s.sessions[v].h.temp != temp))
  {
    hide Run;
    RunInv(files0, sha, actions);
    var s := Run(Start(files0), sha, actions);
    TempReserved(s.files, s.sessions[u]) by { assert SessionOk(s.files, s.sessions[u]); }
    hide Reserved, SessionOk, LogOk, TargetsShow, SparesOld, SessionsOk;
  }

  /** For every publication of every run: it has the length that was announced if and
      only if no write of its upload left bytes unwritten; otherwise it is short by just
      those bytes.  And what the announced checksum has vouched for is the published data
      if and only if the hasher had taken nothing but what was written. */
  lemma PublishedWholeExactly(files0: Files, sha: Sha, actions: seq<Action>, i: nat)
    requires i < |Run(Start(files0), sha, actions).log|
    ensures var e := Run(Start(files0), sha, actions).log[i];
            && (e.sender.h.expectedSize.Some? ==>
                  && (|e.data| == e.sender.h.expectedSize.value <==> e.sender.missing == 0)
                  && (e.sender.missing == 0 <==> e.data == e.sender.offered))
            && (e.sender.h.digest.Some? ==>
                  && sha(e.sender.h.hashed) == e.sender.h.digest.value
                  && (e.sender.h.hashed == e.data <==> e.sender.ahead == 0))
  {
    RunInv(files0, sha, actions);
    assert Genuine(sha, Run(Start(files0), sha, actions).log[i]);
    hide Run;
  }
}
