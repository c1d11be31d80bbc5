/** One atomic upload: a temporary file, a byte counter, a running SHA-256 and a
    `committed` flag, and the operations the WebDAV layer calls on them. */
module Upload {
  import opened FileSystem

  /** The files of the disk; SHA-256 is any function of the bytes it is fed. */
  type Files = map<Path, Bytes>

  type Sha = Bytes -> Bytes

  datatype Result = Ok | Err

  /** The fields of an `AtomicFile`.  `open` says that the file handle has not been
      taken by a commit, `hashed` what the hasher has been fed, and `digest` is what
      the client's checksum header was parsed to, if it sent one that is supported. */
  datatype Handle = Handle(
    temp: Path, target: Path, expectedSize: Option<nat>, digest: Option<Bytes>, fsync: bool,
    open: bool, written: nat, committed: bool, hashed: Bytes)

  function NewHandle(temp: Path, target: Path, size: Option<nat>, digest: Option<Bytes>, fsync: bool): Handle {
    Handle(temp, target, size, digest, fsync, true, 0, false, [])
  }

  /** Bytes that reach the file are appended to it. */
  function Append(files: Files, p: Path, data: Bytes): Files {
    if p in files then files[p := files[p] + data] else files
  }

  function FirstBytes(k: nat, buf: Bytes): Bytes {
    if k < |buf| then buf[..k] else buf
  }

  /** `write_bytes`: the hasher and the counter take the whole buffer even if
      `write_all` fails after `k` bytes (`fail == Some(k)`). */
  function WriteBytes(files: Files, h: Handle, buf: Bytes, fail: Option<nat>): (Files, Handle, Result) {
    var h1 := h.(hashed := h.hashed + buf);
    if !h.open then (files, h1, Err)
    else
      var h2 := h1.(written := h.written + |buf|);
      match fail
      case None => (Append(files, h.temp, buf), h2, Ok)
      case Some(k) => (Append(files, h.temp, FirstBytes(k, buf)), h2, Err)
  }

  /** What one `write` call answers. */
  datatype WriteIO = Wrote(n: nat) | WriteError

  /** A buffer is a queue of chunks. */
  function Flatten(chunks: seq<Bytes>): Bytes {
    if chunks == [] then [] else chunks[0] + Flatten(chunks[1..])
  }

  /** The part of the buffer that call after call of `write` puts into the file, and
      whether it is all of it.  Call number `i` is answered by `io(i)`; a call that
      writes nothing is an error. */
  function Drain(chunks: seq<Bytes>, io: nat -> WriteIO, i: nat): (Bytes, bool)
    decreases |Flatten(chunks)|, |chunks|
  {
    if chunks == [] then ([], true)
    else if chunks[0] == [] then Drain(chunks[1..], io, i)
    else if io(i).WriteError? || io(i).n == 0 then ([], false)
    else
      var taken := FirstBytes(io(i).n, chunks[0]);
      var (more, ok) := Drain([chunks[0][|taken|..]] + chunks[1..], io, i + 1);
      (taken + more, ok)
  }

  /** `write_buf`: the hasher follows the file exactly, but the counter takes the
      whole buffer even if only part of it was written. */
  function WriteBuf(files: Files, h: Handle, chunks: seq<Bytes>, io: nat -> WriteIO): (Files, Handle, Result) {
    if !h.open then (files, h, Err)
    else
      var (accepted, ok) := Drain(chunks, io, 0);
      (Append(files, h.temp, accepted),
       h.(hashed := h.hashed + accepted, written := h.written + |Flatten(chunks)|),
       if ok then Ok else Err)
  }

  function Complete(h: Handle): bool {
    h.expectedSize.None? || h.expectedSize.value == h.written
  }

  function Mismatch(h: Handle, sha: Sha): bool {
    h.digest.Some? && h.digest.value != sha(h.hashed)
  }

  /** `commit`, called by `flush` and `metadata`: rejects a wrong checksum, gives up
      the file handle, and renames the temporary file into place if the length is
      right or unknown.  It also succeeds, without publishing anything, when bytes
      are missing. */
  function Commit(files: Files, h: Handle, sha: Sha, fsyncOk: bool, renameOk: bool): (Files, Handle, Result) {
    if h.committed then (files, h, Ok)
    else if Mismatch(h, sha) then (files, h, Err)
    else
      var h1 := h.(open := false);
      if h.fsync && h.open && !fsyncOk then (files, h1, Err)
      else if !Complete(h) then (files, h1, Ok)
      else if !renameOk || h.temp !in files then (files, h1, Err)
      else ((files - {h.temp})[h.target := files[h.temp]], h1.(committed := true), Ok)
  }

  /** Dropping an upload that never committed removes its temporary file. */
  function Drop(files: Files, h: Handle, removeOk: bool): Files {
    if !h.committed && removeOk then files - {h.temp} else files
  }

  // ----- the write loop -----

  lemma {:induction false} FlattenTake(chunks: seq<Bytes>, k: nat)
    requires chunks != [] && k <= |chunks[0]|
    ensures chunks[0][..k] + Flatten([chunks[0][k..]] + chunks[1..]) == Flatten(chunks)
  {
    var rest := [chunks[0][k..]] + chunks[1..];
    assert rest[1..] == chunks[1..];
    assert chunks[0] == chunks[0][..k] + chunks[0][k..];
  }

  /** However the writes are cut up, what gets into the file is a prefix of the
      buffer, and all of it exactly when no write failed. */
  lemma {:induction false} DrainPrefix(chunks: seq<Bytes>, io: nat -> WriteIO, i: nat)
    ensures var (accepted, ok) := Drain(chunks, io, i);
            && |accepted| <= |Flatten(chunks)| && accepted == Flatten(chunks)[..|accepted|]
            && (ok <==> accepted == Flatten(chunks))
    decreases |Flatten(chunks)|, |chunks|
  {
    if chunks == [] {
    } else if chunks[0] == [] {
      assert Flatten(chunks) == Flatten(chunks[1..]);
      DrainPrefix(chunks[1..], io, i);
    } else if io(i).WriteError? || io(i).n == 0 {
      assert |Flatten(chunks)| > 0;
    } else {
      var taken := FirstBytes(io(i).n, chunks[0]);
      var rest := [chunks[0][|taken|..]] + chunks[1..];
      FlattenTake(chunks, |taken|);
      assert taken == chunks[0][..|taken|];
      DrainPrefix(rest, io, i + 1);
      var more := Drain(rest, io, i + 1).0;
      assert Flatten(chunks)[..|taken| + |more|] == taken + Flatten(rest)[..|more|];
    }
  }

  /** Draining the rest after `done` has been written. */
  function Resume(done: Bytes, rest: seq<Bytes>, io: nat -> WriteIO, i: nat): (Bytes, bool) {
    (done + Drain(rest, io, i).0, Drain(rest, io, i).1)
  }

  lemma DrainStep(done: Bytes, rest: seq<Bytes>, io: nat -> WriteIO, i: nat)
    requires rest != []
    ensures rest[0] == [] ==>
            && Resume(done, rest, io, i) == Resume(done, rest[1..], io, i)
            && |Flatten(rest[1..])| == |Flatten(rest)|
    ensures rest[0] != [] && (io(i).WriteError? || io(i).n == 0) ==>
            Resume(done, rest, io, i) == (done, false)
    ensures rest[0] != [] && io(i).Wrote? && io(i).n > 0 ==>
            var taken := FirstBytes(io(i).n, rest[0]);
            var more := [rest[0][|taken|..]] + rest[1..];
            && Resume(done, rest, io, i) == Resume(done + taken, more, io, i + 1)
            && |Flatten(more)| < |Flatten(rest)|
  {
    assert done + [] == done;
    if rest[0] != [] && io(i).Wrote? && io(i).n > 0 {
      var taken := FirstBytes(io(i).n, rest[0]);
      var more := [rest[0][|taken|..]] + rest[1..];
      FlattenTake(rest, |taken|);
      assert Drain(rest, io, i).0 == taken + Drain(more, io, i + 1).0;
      assert done + (taken + Drain(more, io, i + 1).0) == (done + taken) + Drain(more, io, i + 1).0;
    }
  }

  lemma ResumeEnd(done: Bytes, io: nat -> WriteIO, i: nat)
    ensures Resume(done, [], io, i) == (done, true)
  {
    assert done + [] == done;
  }

  lemma StartDraining(hashed: Bytes, chunks: seq<Bytes>, io: nat -> WriteIO)
    ensures hashed + [] == hashed && Resume([], chunks, io, 0) == Drain(chunks, io, 0)
  {
    assert hashed + [] == hashed;
    assert [] + Drain(chunks, io, 0).0 == Drain(chunks, io, 0).0;
  }

  // ----- the code -----

  /** The disk all uploads share, with the digest attribute of each published file. */
  class Disk {
    var files: Files
    var digests: map<Path, Bytes>

    constructor (files: Files)
      ensures this.files == files && digests == map[]
    {
      this.files := files;
      digests := map[];
    }
  }

  class AtomicFile {
    const disk: Disk
    const temp: Path
    const target: Path
    const expectedSize: Option<nat>
    const digest: Option<Bytes>
    const fsync: bool
    var open: bool
    var written: nat
    var committed: bool
    var hashed: Bytes

    constructor (disk: Disk, temp: Path, target: Path, size: Option<nat>, digest: Option<Bytes>, fsync: bool)
      ensures this.disk == disk && State() == NewHandle(temp, target, size, digest, fsync)
    {
      this.disk, this.temp, this.target := disk, temp, target;
      expectedSize, this.digest, this.fsync := size, digest, fsync;
      open, written, committed, hashed := true, 0, false, [];
    }

    ghost function State(): Handle
      reads this
    {
      Handle(temp, target, expectedSize, digest, fsync, open, written, committed, hashed)
    }

    method WriteAll(buf: Bytes, fail: Option<nat>) returns (r: Result)
      modifies this, disk`files
      ensures (disk.files, State(), r) == WriteBytes(old(disk.files), old(State()), buf, fail)
    {
      hashed := hashed + buf;
      if !open {
        return Err;
      }
      var reached := if fail.Some? then FirstBytes(fail.value, buf) else buf;
      disk.files := Append(disk.files, temp, reached);
      written := written + |buf|;
      r := if fail.Some? then Err else Ok;
    }

    /** The buffer shrinks by what each write takes. */
    method WriteChunks(chunks: seq<Bytes>, io: nat -> WriteIO) returns (r: Result)
      modifies this, disk`files
      ensures (disk.files, State(), r) == WriteBuf(old(disk.files), old(State()), chunks, io)
    {
      if !open {
        return Err;
      }
      var rest, calls := chunks, 0;
      ghost var done: Bytes := [];
      r := Ok;
      AppendNothing(disk.files, temp);
      StartDraining(hashed, chunks, io);
      hide Drain, Append, Flatten;
      while rest != []
        invariant disk.files == Append(old(disk.files), temp, done)
        invariant State() == old(State()).(hashed := old(hashed) + done)
        invariant Resume(done, rest, io, calls) == Drain(chunks, io, 0)
        invariant r.Ok?
        decreases |Flatten(rest)|, |rest|
      {
        DrainStep(done, rest, io, calls);
        if rest[0] == [] {
          rest := rest[1..];
        } else {
          var answer := io(calls);
          if answer.WriteError? || answer.n == 0 {
            written := written + |Flatten(chunks)|;
            return Err;
          }
          var taken := FirstBytes(answer.n, rest[0]);
          AppendTwice(old(disk.files), temp, done, taken);
          disk.files := Append(disk.files, temp, taken);
          hashed := hashed + taken;
          Assoc(old(hashed), done, taken);
          done := done + taken;
          rest, calls := [rest[0][|taken|..]] + rest[1..], calls + 1;
        }
      }
      ResumeEnd(done, io, calls);
      written := written + |Flatten(chunks)|;
    }

    method Finish(sha: Sha, fsyncOk: bool, renameOk: bool) returns (r: Result)
      modifies this, disk
      ensures (disk.files, State(), r) == Commit(old(disk.files), old(State()), sha, fsyncOk, renameOk)
      ensures disk.digests ==
              if !old(committed) && committed then old(disk.digests)[target := sha(hashed)]
              else old(disk.digests)
    {
      if committed {
        return Ok;
      }
      var shouldCommit := expectedSize.None? || expectedSize.value == written;
      var sum := sha(hashed);
      if digest.Some? && digest.value != sum {
        return Err;
      }
      var wasOpen := open;
      open := false;
      if fsync && wasOpen && !fsyncOk {
        return Err;
      }
      if shouldCommit {
        if !renameOk || temp !in disk.files {
          return Err;
        }
        disk.files := (disk.files - {temp})[target := disk.files[temp]];
      }
      committed := shouldCommit;
      if committed {
        disk.digests := disk.digests[target := sum];
      }
      r := Ok;
    }

    method Release(removeOk: bool)
      modifies disk`files
      ensures disk.files == Drop(old(disk.files), State(), removeOk)
    {
      if !committed && removeOk {
        disk.files := disk.files - {temp};
      }
    }
  }

  lemma AppendNothing(files: Files, p: Path)
    ensures Append(files, p, []) == files
  {
    if p in files { assert files[p] + [] == files[p]; }
  }

  lemma AppendTwice(files: Files, p: Path, a: Bytes, b: Bytes)
    ensures Append(Append(files, p, a), p, b) == Append(files, p, a + b)
  {
    if p in files { assert (files[p] + a) + b == files[p] + (a + b); }
  }

  // ----- the coupling of file, counter and hash -----

  /** File, hasher and counter all hold exactly the bytes the client was told are
      written. */
  predicate Coupled(files: Files, h: Handle, received: Bytes) {
    h.temp in files && files[h.temp] == received && h.hashed == received && h.written == |received|
  }

  /** A successful write of either kind, however it is cut into chunks and short
      writes, keeps them coupled. */
  lemma WritesStayCoupled(files: Files, h: Handle, received: Bytes, chunks: seq<Bytes>, io: nat -> WriteIO)
    requires Coupled(files, h, received)
    ensures var (f, g, r) := WriteBuf(files, h, chunks, io);
            r.Ok? ==> Coupled(f, g, received + Flatten(chunks))
    ensures var (f, g, r) := WriteBytes(files, h, Flatten(chunks), None);
            r.Ok? ==> Coupled(f, g, received + Flatten(chunks))
    ensures WriteBuf(files, h, chunks, io).2.Ok? ==>
            WriteBuf(files, h, chunks, io) == WriteBytes(files, h, Flatten(chunks), None)
  {
    DrainPrefix(chunks, io, 0);
  }

  /** Exactly which writes keep file, hasher and counter in step: of the two kinds
      only those all of whose bytes reached the file, or that a closed handle turned
      down before the hasher saw anything. */
  lemma CoupledExactlyWhen(files: Files, h: Handle, received: Bytes,
                           buf: Bytes, fail: Option<nat>, chunks: seq<Bytes>, io: nat -> WriteIO)
    requires Coupled(files, h, received)
    ensures var (f, g, _) := WriteBytes(files, h, buf, fail);
            (exists d :: Coupled(f, g, d)) <==>
            if h.open then fail.None? || |buf| <= fail.value else buf == []
    ensures var (f, g, _) := WriteBuf(files, h, chunks, io);
            (exists d :: Coupled(f, g, d)) <==> !h.open || Drain(chunks, io, 0).1
  {
    DrainPrefix(chunks, io, 0);
    var (f, g, _) := WriteBytes(files, h, buf, fail);
    var (f2, g2, _) := WriteBuf(files, h, chunks, io);
    assert files[h.temp] + [] == files[h.temp];
    if h.open && (fail.None? || |buf| <= fail.value) {
      assert Coupled(f, g, received + buf);
    } else if !h.open && buf == [] {
      assert Coupled(f, g, received);
    }
    if !h.open {
      assert Coupled(f2, g2, received);
    } else if Drain(chunks, io, 0).1 {
      assert Coupled(f2, g2, received + Flatten(chunks));
    }
  }

  /** A commit that publishes a coupled upload publishes exactly the received bytes,
      of the announced length and with the announced checksum. */
  lemma CommitPublishes(files: Files, h: Handle, received: Bytes, sha: Sha, fsyncOk: bool, renameOk: bool)
    requires Coupled(files, h, received) && !h.committed
    ensures var (f, g, r) := Commit(files, h, sha, fsyncOk, renameOk);
            && (g.committed ==>
                  && r.Ok? && h.target in f && f[h.target] == received
                  && (h.temp != h.target ==> h.temp !in f)
                  && (h.expectedSize.Some? ==> |received| == h.expectedSize.value)
                  && (h.digest.Some? ==> sha(received) == h.digest.value))
            && (!g.committed ==> f == files)
            && (r.Ok? && !g.committed <==>
                  !Mismatch(h, sha) && !Complete(h) && (h.fsync && h.open ==> fsyncOk))
  {
  }

  /** Without the coupling this fails: after a write that broke off, the counter is
      ahead of the file, and a commit publishes a file shorter than announced. */
  lemma ShortFileAfterFailedWrite(files: Files, temp: Path, target: Path, sha: Sha, b: byte)
    requires temp in files && files[temp] == [] && temp != target
    ensures var h := NewHandle(temp, target, Some(2), None, false);
            var (f, g, r) := WriteBytes(files, h, [b, b], Some(1));
            var (f2, g2, r2) := Commit(f, g, sha, true, true);
            r.Err? && r2.Ok? && g2.committed && f2[target] == [b]
  {
    assert [] + FirstBytes(1, [b, b]) == [b];
  }
}
