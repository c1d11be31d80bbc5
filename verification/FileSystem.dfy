/** The abstract filesystem that every part of the model runs on: a finite map
    from absolute paths to directories or file contents.  There are no symbolic
    links and nobody else writes. */
module FileSystem {

  newtype byte = b: int | 0 <= b < 256

  type Bytes = seq<byte>

  /** The components of an absolute path; `[]` is the root of the filesystem. */
  type Path = seq<string>

  datatype Node = Dir | File(data: Bytes)

  type FS = map<Path, Node>

  datatype Option<+T> = None | Some(value: T)

  lemma Assoc<T>(a: seq<T>, b: seq<T>, c: seq<T>)
    ensures (a + b) + c == a + (b + c)
  {
  }

  function Parent(p: Path): Path
    requires p != []
  {
    p[..|p| - 1]
  }

  predicate IsDir(fs: FS, p: Path) {
    p in fs && fs[p].Dir?
  }

  predicate IsFile(fs: FS, p: Path) {
    p in fs && fs[p].File?
  }

  /** `p` is `root` itself or something beneath it. */
  predicate Under(root: Path, p: Path) {
    root <= p
  }

  /** Every entry's parent is a directory of the same filesystem. */
  ghost predicate WellFormed(fs: FS) {
    forall p :: p in fs && p != [] ==> IsDir(fs, Parent(p))
  }

  /** Neither path is an ancestor of the other, and they are not equal. */
  predicate Disjoint(a: Path, b: Path) {
    !Under(a, b) && !Under(b, a)
  }

  /** Everything at or below `p`. */
  function Below(fs: FS, p: Path): set<Path> {
    set q | q in fs && Under(p, q)
  }

  /** The operating system lets a file be created or renamed onto `p`: its parent
      directory is there and `p` itself is not a directory. */
  predicate CanPlace(fs: FS, p: Path) {
    p != [] && IsDir(fs, Parent(p)) && !IsDir(fs, p)
  }

  /** Both filesystems have the same thing, or nothing, at `p`. */
  predicate Agree(a: FS, b: FS, p: Path) {
    (p in a <==> p in b) && (p in a ==> a[p] == b[p])
  }

  lemma {:induction false} AncestorsAreDirs(fs: FS, p: Path, q: Path)
    requires WellFormed(fs) && p in fs && Under(q, p) && q != p
    ensures IsDir(fs, q)
    decreases |p|
  {
    if Parent(p) != q {
      AncestorsAreDirs(fs, Parent(p), q);
    }
  }

  lemma SameByAgreement(a: FS, b: FS)
    requires forall p :: Agree(a, b, p)
    ensures a == b
  {
    assert a.Keys == b.Keys by {
      forall p ensures p in a <==> p in b { assert Agree(a, b, p); }
    }
    forall p | p in a ensures a[p] == b[p] { assert Agree(a, b, p); }
  }

  /** `std::fs::create_dir_all`: makes every missing directory on the way down to
      `p`.  It fails where a file is in the way or where creating a directory in
      `bad` is refused; directories made before the failure stay. */
  function MkdirAll(fs: FS, bad: set<Path>, p: Path): (r: (FS, bool))
    ensures r.1 ==> IsDir(r.0, p)
    ensures forall q :: q in fs ==> q in r.0 && r.0[q] == fs[q]
    ensures forall q :: q in r.0 && q !in fs ==> Under(q, p) && q !in bad && r.0[q] == Dir
    ensures WellFormed(fs) ==> WellFormed(r.0)
    decreases |p|
  {
    if IsDir(fs, p) then (fs, true)
    else if p in fs || p == [] then (fs, false)
    else
      var (fs1, ok) := MkdirAll(fs, bad, Parent(p));
      if ok && p !in bad then (fs1[p := Dir], true) else (fs1, false)
  }

  /** Exactly when it succeeds: no component on the way is a file, and none that
      is missing is refused. */
  lemma {:induction false} MkdirAllSucceeds(fs: FS, bad: set<Path>, p: Path)
    requires WellFormed(fs) && [] in fs
    ensures MkdirAll(fs, bad, p).1 <==>
            forall q | Under(q, p) :: !IsFile(fs, q) && (q in bad ==> q in fs)
    decreases |p|
  {
    if IsDir(fs, p) {
      forall q | Under(q, p) ensures IsDir(fs, q) {
        if q != p { AncestorsAreDirs(fs, p, q); }
      }
    } else if p in fs {
      assert Under(p, p) && IsFile(fs, p);
    } else {
      assert p != [] && Under(p, p);
      MkdirAllSucceeds(fs, bad, Parent(p));
      forall q ensures Under(q, p) <==> q == p || Under(q, Parent(p)) { UnderParent(q, p); }
    }
  }

  lemma UnderParent(q: Path, p: Path)
    requires p != []
    ensures Under(q, p) <==> q == p || Under(q, Parent(p))
  {
    if Under(q, p) && q != p {
      assert |q| < |p|;
    }
  }

  lemma UnderTransitive(a: Path, b: Path, c: Path)
    requires Under(a, b) && Under(b, c)
    ensures Under(a, c)
  {
  }

  lemma UnderCancel(a: Path, b: Path, c: Path)
    ensures Under(a + b, a + c) <==> Under(b, c)
  {
    if Under(a + b, a + c) {
      assert b == (a + b)[|a|..] && c == (a + c)[|a|..];
      assert b == c[..|b|];
    }
  }

  /** Two paths with a common descendant are one above the other. */
  lemma UnderChain(a: Path, b: Path, c: Path)
    requires Under(a, c) && Under(b, c)
    ensures Under(a, b) || Under(b, a)
  {
    if |a| <= |b| {
      assert a == c[..|a|] && b == c[..|b|];
      assert a == b[..|a|];
    } else {
      assert a == c[..|a|] && b == c[..|b|];
      assert b == a[..|b|];
    }
  }
}
