/** The job record that workers update under the registry's lock and the UI reads. */
module Jobs {
  import opened FileSystem

  datatype Op = Move | Copy | Delete

  datatype Status = Queued | Running | Done | Failed

  /** `src` and `dst` are kept as the texts they were given as. */
  datatype Job = Job(
    op: Op, src: string, dst: string,
    totalFiles: nat, doneFiles: nat,
    totalDirs: nat, doneDirs: nat,
    totalBytes: nat, doneBytes: nat,
    current: seq<Path>, status: Status, error: Option<Path>)

  /** A freshly registered job. */
  function NewJob(op: Op, src: string, dst: string): Job {
    Job(op, src, dst, 0, 0, 0, 0, 0, 0, [], Queued, None)
  }

  const CURRENT_LIMIT: nat := 6

  /** Pushes a path onto the "current" list, which keeps the latest few. */
  function Announce(j: Job, p: Path): Job {
    var pushed := j.current + [p];
    j.(current := if |pushed| > CURRENT_LIMIT then pushed[1..] else pushed)
  }

  /** The first failure is the one that is reported. */
  function Report(j: Job, p: Path): Job {
    if j.error.None? then j.(error := Some(p)) else j
  }

  /** Announcing one path after another. */
  function AnnounceAll(j: Job, paths: seq<Path>): Job {
    if paths == [] then j else Announce(AnnounceAll(j, paths[..|paths| - 1]), paths[|paths| - 1])
  }

  /** The list always holds the latest few paths, in the order they came. */
  lemma {:induction false} CurrentIsLatest(j: Job, paths: seq<Path>)
    requires j.current == []
    ensures var n := |paths|;
            AnnounceAll(j, paths) == j.(current := if n <= CURRENT_LIMIT then paths else paths[n - CURRENT_LIMIT..])
  {
    if paths != [] {
      var n := |paths| - 1;
      CurrentIsLatest(j, paths[..n]);
      assert paths == paths[..n] + [paths[n]];
      if n >= CURRENT_LIMIT {
        assert paths[n - CURRENT_LIMIT..] == paths[..n][n - CURRENT_LIMIT..] + [paths[n]];
      }
    } else {
      assert j.current == paths;
    }
  }

  function ReportAll(j: Job, paths: seq<Path>): Job {
    if paths == [] then j else Report(ReportAll(j, paths[..|paths| - 1]), paths[|paths| - 1])
  }

  /** Of several failures the first is the one the job keeps. */
  lemma {:induction false} FirstErrorStays(j: Job, paths: seq<Path>)
    requires j.error.None?
    ensures ReportAll(j, paths) == if paths == [] then j else j.(error := Some(paths[0]))
  {
    if paths != [] {
      FirstErrorStays(j, paths[..|paths| - 1]);
    }
  }

  /** What the UI may rely on whenever it takes the lock. */
  predicate Sane(j: Job) {
    && j.doneFiles <= j.totalFiles
    && j.doneDirs <= j.totalDirs
    && j.doneBytes <= j.totalBytes
    && |j.current| <= CURRENT_LIMIT
  }
}
