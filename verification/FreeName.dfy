/** How a request's destination is decided: into a directory that is there, and beside
    an existing entry under a number that is free. */
module FreeName {
  import opened FileSystem
  import opened Decimal
  import opened PathText

  // ----- stem and extension of a name -----

  function LastDot(s: string): int {
    LastIndex(s, '.')
  }

  /** A name has an extension if it has a dot that is not its first character; the
      name ".." has none. */
  predicate HasExtension(name: string) {
    name != ".." && LastDot(name) > 0
  }

  function Stem(name: string): string {
    if HasExtension(name) then name[..LastDot(name)] else name
  }

  /** With its dot, as it is put back behind the number. */
  function Extension(name: string): string {
    if HasExtension(name) then name[LastDot(name)..] else []
  }

  /** The two parts make up the name again; the stem is never empty for a name that is
      not, and the extension is a dot and what has no dot. */
  lemma StemAndExtension(name: string)
    ensures Stem(name) + Extension(name) == name
    ensures name != [] ==> Stem(name) != []
    ensures Extension(name) != [] ==> Extension(name)[0] == '.' && '.' !in Extension(name)[1..]
    ensures Extension(name) == [] <==> name == ".." || '.' !in name[if name == [] then 0 else 1..]
  {
  }

  /** `{stem}_{i}{ext}` beside `dst`. */
  function Candidate(dst: Path, i: nat): Path
    requires dst != []
  {
    var name := dst[|dst| - 1];
    Parent(dst) + [Stem(name) + ("_" + Show(i)) + Extension(name)]
  }

  const LAST: nat := 999

  lemma NumbersDiffer(stem: string, ext: string, i: nat, k: nat)
    ensures |stem + ("_" + Show(i)) + ext| > |stem + ext|
    ensures stem + ("_" + Show(i)) + ext == stem + ("_" + Show(k)) + ext ==> i == k
  {
    ReadShow(i);
    ReadShow(k);
    hide Show, Read;
    var a, b := stem + ("_" + Show(i)) + ext, stem + ("_" + Show(k)) + ext;
    if a == b {
      assert |Show(i)| == |Show(k)|;
      assert Show(i) == a[|stem| + 1..|a| - |ext|] == b[|stem| + 1..|b| - |ext|] == Show(k);
    }
  }

  /** All candidates are beside `dst`, none is `dst`, and no two are the same. */
  lemma CandidatesDiffer(dst: Path, i: nat, k: nat)
    requires dst != []
    ensures Candidate(dst, i) != dst
    ensures Candidate(dst, i) == Candidate(dst, k) ==> i == k
    ensures Parent(Candidate(dst, i)) == Parent(dst)
  {
    var name := dst[|dst| - 1];
    StemAndExtension(name);
    NumbersDiffer(Stem(name), Extension(name), i, k);
    hide Stem, Extension, Show;
    assert Candidate(dst, i)[|dst| - 1] == Stem(name) + ("_" + Show(i)) + Extension(name);
    assert Candidate(dst, k)[|dst| - 1] == Stem(name) + ("_" + Show(k)) + Extension(name);
  }

  predicate Free(fs: FS, dst: Path, i: nat)
    requires dst != []
  {
    2 <= i <= LAST && Candidate(dst, i) !in fs
  }

  ghost predicate AllTaken(fs: FS, dst: Path)
    requires dst != []
  {
    forall i :: 2 <= i <= LAST ==> Candidate(dst, i) in fs
  }

  /** An unused destination is taken as it is; otherwise the lowest number that is free,
      or, if none is, the last one although it is taken. */
  ghost predicate Picked(fs: FS, dst: Path, r: Path)
    requires dst != []
  {
    if dst !in fs then r == dst
    else if AllTaken(fs, dst) then r == Candidate(dst, LAST)
    else exists i :: Free(fs, dst, i) && r == Candidate(dst, i) && forall k :: Free(fs, dst, k) ==> i <= k
  }

  /** `free_dst`. */
  method FreeDst(fs: FS, dst: Path) returns (r: Path)
    requires dst != []
    ensures Picked(fs, dst, r)
    ensures r in fs <==> dst in fs && AllTaken(fs, dst)
  {
    if dst !in fs {
      return dst;
    }
    hide Candidate;
    for i := 2 to LAST + 1
      invariant forall k: nat :: 2 <= k < i ==> Candidate(dst, k) in fs
    {
      var candidate := Candidate(dst, i);
      if candidate !in fs {
        assert Free(fs, dst, i);
        return candidate;
      }
    }
    return Candidate(dst, LAST);
  }

  // ----- the request handler's decision -----

  datatype Strategy = Rename | Merge | Overwrite | Ask

  datatype Decision = SamePath | SourceMissing | Conflict(dst: Path) | Go(dst: Path)

  /** `dest_for`: into the destination if it is a directory.  The root has no name, so it
      goes to the directory itself. */
  function DestFor(fs: FS, src: Path, dst: Path): Path {
    if IsDir(fs, dst) && src != [] then dst + [src[|src| - 1]] else dst
  }

  /** Where a request that is let through goes. */
  ghost predicate Chosen(fs: FS, src: Path, dst: Path, strategy: Strategy, d: Path) {
    var final := DestFor(fs, src, dst);
    if strategy == Rename && final != [] then Picked(fs, final, d) else d == final
  }

  /** Only equal paths are refused, and they are compared before the name is changed. */
  method Decide(fs: FS, src: Path, dst: Path, strategy: Strategy) returns (r: Decision)
    requires IsDir(fs, [])
    ensures r.SamePath? <==> src == DestFor(fs, src, dst)
    ensures r.SourceMissing? <==> src != DestFor(fs, src, dst) && src !in fs
    ensures r.Conflict? ==> r.dst == DestFor(fs, src, dst)
    ensures r.Conflict? <==> src != DestFor(fs, src, dst) && src in fs && DestFor(fs, src, dst) in fs && strategy == Ask
    ensures r.Go? ==> Chosen(fs, src, dst, strategy, r.dst) && r.dst != []
  {
    var final := DestFor(fs, src, dst);
    if src == final {
      return SamePath;
    }
    if src !in fs {
      return SourceMissing;
    }
    if final in fs {
      if strategy == Rename {
        final := FreeDst(fs, final);
        CandidatesDiffer(DestFor(fs, src, dst), LAST, LAST);
      } else if strategy != Merge && strategy != Overwrite {
        return Conflict(final);
      }
    }
    return Go(final);
  }

  // ----- how the chosen destination lies to the source -----

  predicate Above(a: Path, b: Path) {
    Under(a, b) && a != b
  }

  lemma PickedBeside(fs: FS, dst: Path, r: Path)
    requires dst != [] && Picked(fs, dst, r)
    ensures r != [] && Parent(r) == Parent(dst)
    ensures r in fs <==> dst in fs && AllTaken(fs, dst)
  {
    CandidatesDiffer(dst, LAST, LAST);
    if dst in fs && !AllTaken(fs, dst) {
      var i :| Free(fs, dst, i) && r == Candidate(dst, i) && forall k :: Free(fs, dst, k) ==> i <= k;
      CandidatesDiffer(dst, i, i);
    }
  }

  lemma PresentAbove(fs: FS, d: Path, src: Path)
    requires WellFormed(fs) && src in fs && Above(d, src)
    ensures IsDir(fs, d)
  {
    AncestorsAreDirs(fs, src, d);
  }

  /** Exactly when a request that is let through has its destination below its source:
      when what the client named is the source or lies in it. */
  lemma GoesBelow(fs: FS, src: Path, dst: Path, strategy: Strategy, d: Path)
    requires src in fs && WellFormed(fs) && IsDir(fs, []) && src != DestFor(fs, src, dst)
    requires Chosen(fs, src, dst, strategy, d)
    ensures Above(src, d) <==> Under(src, dst)
  {
    var final := DestFor(fs, src, dst);
    assert final != [];
    if strategy == Rename { PickedBeside(fs, final, d); }
    assert d != [] && Parent(d) == Parent(final);
    UnderParent(src, d);
    UnderParent(src, final);
    assert Above(src, d) <==> Under(src, Parent(d)) by { AboveParent(src, d); }
    assert Above(src, final) <==> Under(src, Parent(final)) by { AboveParent(src, final); }
    if IsDir(fs, dst) && src != [] { assert Parent(final) == dst; }
  }

  lemma AboveParent(a: Path, d: Path)
    requires d != []
    ensures Above(a, d) <==> Under(a, Parent(d))
  {
    UnderParent(a, d);
    if Under(a, Parent(d)) { assert |a| < |d|; }
  }

  /** Exactly when it is the source: when the name is changed, all numbers are taken, and
      the source is the last of them. */
  lemma GoesOnto(fs: FS, src: Path, dst: Path, strategy: Strategy, d: Path)
    requires src in fs && WellFormed(fs) && IsDir(fs, []) && src != DestFor(fs, src, dst)
    requires Chosen(fs, src, dst, strategy, d)
    ensures var final := DestFor(fs, src, dst);
            d == src <==>
              strategy == Rename && final in fs && AllTaken(fs, final) && src == Candidate(final, LAST)
  {
    var final := DestFor(fs, src, dst);
    assert final != [];
    if strategy == Rename { PickedBeside(fs, final, d); }
  }

  /** Exactly when it lies above the source: when the client named a directory above the
      source that has an entry of the source's name on the way to it; or, if the name is
      changed, when all numbers are taken and the last of them is on that way. */
  lemma GoesAbove(fs: FS, src: Path, dst: Path, strategy: Strategy, d: Path)
    requires src in fs && WellFormed(fs) && IsDir(fs, []) && src != DestFor(fs, src, dst)
    requires Chosen(fs, src, dst, strategy, d)
    ensures Above(d, src) <==>
              if strategy == Rename then
                var final := DestFor(fs, src, dst);
                final in fs && AllTaken(fs, final) && Above(Candidate(final, LAST), src)
              else
                Under(dst, src) && |dst| + 1 < |src| && src[|dst|] == src[|src| - 1]
  {
    var final := DestFor(fs, src, dst);
    assert final != [];
    if Above(d, src) { PresentAbove(fs, d, src); }
    if Above(dst, src) { PresentAbove(fs, dst, src); }
    if strategy == Rename {
      PickedBeside(fs, final, d);
    } else if IsDir(fs, dst) && src != [] {
      EntryAbove(dst, src);
    }
  }

  lemma EntryAbove(dst: Path, src: Path)
    requires src != []
    ensures Above(dst + [src[|src| - 1]], src) <==>
              Under(dst, src) && |dst| + 1 < |src| && src[|dst|] == src[|src| - 1]
  {
    var e := dst + [src[|src| - 1]];
    if Under(e, src) { assert src[|dst|] == e[|dst|]; assert dst == src[..|dst|]; }
    if Under(dst, src) && |dst| + 1 < |src| && src[|dst|] == src[|src| - 1] {
      assert e == src[..|dst| + 1];
    }
  }
}
