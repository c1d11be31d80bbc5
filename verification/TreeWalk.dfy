/** The recursive directory walks of the file mover: `walk_files` collects what a
    move or copy transfers, `walk_delete` what a delete removes.  Both follow the
    preorder of the tree, whatever order the directories list their entries in. */
module TreeWalk {
  import opened FileSystem

  /** The names a directory lists, in the order `read_dir` yields them. */
  type Listing = Path -> seq<string>

  predicate Distinct(names: seq<string>) {
    forall i, j :: 0 <= i < j < |names| ==> names[i] != names[j]
  }

  /** `ls` lists every directory of `fs` completely and without repetition. */
  ghost predicate Lists(ls: Listing, fs: FS) {
    forall p {:trigger ls(p)} :: IsDir(fs, p) ==>
      Distinct(ls(p)) && forall n :: n in ls(p) <==> p + [n] in fs
  }

  lemma BelowChild(fs: FS, p: Path, n: string)
    requires p in fs
    ensures Below(fs, p + [n]) < Below(fs, p)
  {
    assert Under(p, p) && !Under(p + [n], p);
    assert p in Below(fs, p) && p !in Below(fs, p + [n]);
    forall q | q in Below(fs, p + [n]) ensures q in Below(fs, p) {
      assert Under(p, p + [n]);
      UnderTransitive(p, p + [n], q);
    }
  }

  /** Everything at or below `p`, each directory before its entries. */
  function Preorder(fs: FS, ls: Listing, p: Path): seq<Path>
    requires Lists(ls, fs)
    decreases Below(fs, p), 1, 0
  {
    if IsDir(fs, p) then [p] + Entries(fs, ls, p, ls(p))
    else if p in fs then [p]
    else []
  }

  function Entries(fs: FS, ls: Listing, p: Path, names: seq<string>): seq<Path>
    requires Lists(ls, fs) && IsDir(fs, p)
    decreases Below(fs, p), 0, |names|
  {
    if names == [] then []
    else
      BelowChild(fs, p, names[0]);
      Preorder(fs, ls, p + [names[0]]) + Entries(fs, ls, p, names[1..])
  }

  /** No entry comes after one of its own descendants; in particular none twice. */
  predicate ParentsFirst(s: seq<Path>) {
    forall i, j :: 0 <= i < j < |s| ==> !Under(s[j], s[i])
  }

  lemma ParentsFirstConcat(a: seq<Path>, b: seq<Path>)
    requires ParentsFirst(a) && ParentsFirst(b)
    requires forall x, y :: x in a && y in b ==> !Under(y, x)
    ensures ParentsFirst(a + b)
  {
  }

  /** `q` is strictly beneath `p`, through its entry `n`. */
  predicate Through(p: Path, n: string, q: Path) {
    |p| < |q| && Under(p, q) && q[|p|] == n
  }

  lemma ThroughChild(p: Path, n: string, q: Path)
    ensures Through(p, n, q) <==> Under(p + [n], q)
  {
    if Through(p, n, q) {
      assert q[..|p| + 1] == p + [n];
    }
  }

  lemma StepTowards(fs: FS, p: Path, q: Path)
    requires WellFormed(fs) && q in fs && Under(p, q) && q != p
    ensures Through(p, q[|p|], q) && p + [q[|p|]] in fs
  {
    var c := p + [q[|p|]];
    assert c == q[..|p| + 1];
    if c != q {
      AncestorsAreDirs(fs, q, c);
    }
  }

  lemma SiblingsApart(p: Path, x: Path, y: Path)
    requires |p| < |x| && |p| < |y| && x[|p|] != y[|p|]
    ensures !Under(y, x)
  {
  }

  /** The walk visits exactly what is at or below its root, every entry once and
      every directory before its contents. */
  lemma {:induction false} PreorderVisits(fs: FS, ls: Listing, p: Path)
    requires WellFormed(fs) && Lists(ls, fs)
    ensures forall q :: q in Preorder(fs, ls, p) <==> p in fs && q in fs && Under(p, q)
    ensures ParentsFirst(Preorder(fs, ls, p))
    decreases Below(fs, p), 1, 0
  {
    if IsDir(fs, p) {
      EntriesVisit(fs, ls, p, ls(p));
      DirVisits(fs, ls, p);
    } else if p in fs {
      forall q | q in fs && Under(p, q) ensures q == p {
        if q != p { AncestorsAreDirs(fs, q, p); }
      }
    }
  }

  ghost predicate VisitsEntries(fs: FS, p: Path, names: seq<string>, s: seq<Path>) {
    && (forall q :: q in s <==> q in fs && |p| < |q| && Under(p, q) && q[|p|] in names)
    && ParentsFirst(s)
  }

  lemma DirVisits(fs: FS, ls: Listing, p: Path)
    requires WellFormed(fs) && Lists(ls, fs) && IsDir(fs, p)
    requires VisitsEntries(fs, p, ls(p), Entries(fs, ls, p, ls(p)))
    ensures forall q :: q in Preorder(fs, ls, p) <==> q in fs && Under(p, q)
    ensures ParentsFirst(Preorder(fs, ls, p))
  {
    var rest := Entries(fs, ls, p, ls(p));
    assert Preorder(fs, ls, p) == [p] + rest;
    forall q | q in fs && Under(p, q) && q != p ensures q in rest {
      StepTowards(fs, p, q);
      assert q[|p|] in ls(p);
    }
    assert forall q :: q in rest ==> !Under(q, p);
    ParentsFirstConcat([p], rest);
  }

  lemma {:induction false} EntriesVisit(fs: FS, ls: Listing, p: Path, names: seq<string>)
    requires WellFormed(fs) && Lists(ls, fs) && IsDir(fs, p)
    requires Distinct(names) && forall n :: n in names ==> p + [n] in fs
    ensures VisitsEntries(fs, p, names, Entries(fs, ls, p, names))
    decreases Below(fs, p), 0, |names|
  {
    if names != [] {
      var c := p + [names[0]];
      BelowChild(fs, p, names[0]);
      PreorderVisits(fs, ls, c);
      EntriesVisit(fs, ls, p, names[1..]);
      VisitsMore(fs, p, names, Preorder(fs, ls, c), Entries(fs, ls, p, names[1..]));
    }
  }

  lemma VisitsMore(fs: FS, p: Path, names: seq<string>, first: seq<Path>, rest: seq<Path>)
    requires names != [] && Distinct(names)
    requires ParentsFirst(first)
    requires forall q :: q in first <==> q in fs && Under(p + [names[0]], q)
    requires VisitsEntries(fs, p, names[1..], rest)
    ensures VisitsEntries(fs, p, names, first + rest)
  {
    hide Under;
    assert names == [names[0]] + names[1..];
    forall q ensures q in first <==> q in fs && Through(p, names[0], q) {
      ThroughChild(p, names[0], q);
    }
    forall x, y | x in first && y in rest ensures !Under(y, x) {
      SiblingsApart(p, x, y);
    }
    ParentsFirstConcat(first, rest);
  }

  /** The files among the entries of a walk, in order. */
  function FilesIn(fs: FS, s: seq<Path>): seq<Path> {
    if s == [] then []
    else (if IsFile(fs, s[0]) then [s[0]] else []) + FilesIn(fs, s[1..])
  }

  /** The directories among the entries of a walk, in order. */
  function DirsIn(fs: FS, s: seq<Path>): seq<Path> {
    if s == [] then []
    else (if IsDir(fs, s[0]) then [s[0]] else []) + DirsIn(fs, s[1..])
  }

  function BytesIn(fs: FS, files: seq<Path>): nat {
    if files == [] then 0
    else (if IsFile(fs, files[0]) then |fs[files[0]].data| else 0) + BytesIn(fs, files[1..])
  }

  lemma {:induction false} FilesInConcat(fs: FS, a: seq<Path>, b: seq<Path>)
    ensures FilesIn(fs, a + b) == FilesIn(fs, a) + FilesIn(fs, b)
  {
    if a == [] {
      assert a + b == b;
    } else {
      var x := if IsFile(fs, a[0]) then [a[0]] else [];
      FilesInConcat(fs, a[1..], b);
      assert (a + b)[0] == a[0] && (a + b)[1..] == a[1..] + b;
      assert x + (FilesIn(fs, a[1..]) + FilesIn(fs, b)) == (x + FilesIn(fs, a[1..])) + FilesIn(fs, b);
    }
  }

  lemma {:induction false} DirsInConcat(fs: FS, a: seq<Path>, b: seq<Path>)
    ensures DirsIn(fs, a + b) == DirsIn(fs, a) + DirsIn(fs, b)
  {
    if a == [] {
      assert a + b == b;
    } else {
      var x := if IsDir(fs, a[0]) then [a[0]] else [];
      DirsInConcat(fs, a[1..], b);
      assert (a + b)[0] == a[0] && (a + b)[1..] == a[1..] + b;
      assert x + (DirsIn(fs, a[1..]) + DirsIn(fs, b)) == (x + DirsIn(fs, a[1..])) + DirsIn(fs, b);
    }
  }

  lemma {:induction false} BytesConcat(fs: FS, a: seq<Path>, b: seq<Path>)
    ensures BytesIn(fs, a + b) == BytesIn(fs, a) + BytesIn(fs, b)
  {
    if a == [] {
      assert a + b == b;
    } else {
      assert (a + b)[1..] == a[1..] + b;
      BytesConcat(fs, a[1..], b);
    }
  }

  lemma {:induction false} SelectMembers(fs: FS, s: seq<Path>)
    ensures forall q :: q in FilesIn(fs, s) <==> q in s && IsFile(fs, q)
    ensures forall q :: q in DirsIn(fs, s) <==> q in s && IsDir(fs, q)
  {
    if s != [] {
      SelectMembers(fs, s[1..]);
      assert s == [s[0]] + s[1..];
    }
  }

  lemma {:induction false} SelectParentsFirst(fs: FS, s: seq<Path>)
    requires ParentsFirst(s)
    ensures ParentsFirst(FilesIn(fs, s)) && ParentsFirst(DirsIn(fs, s))
  {
    if s != [] {
      SelectParentsFirst(fs, s[1..]);
      SelectMembers(fs, s[1..]);
      forall y | y in s[1..] ensures !Under(y, s[0]) {
        var j :| 0 <= j < |s[1..]| && s[1..][j] == y;
        assert s[j + 1] == y;
      }
      assert ParentsFirst([s[0]]);
    }
  }

  /** What is left of a path below its first `k` components. */
  function RelTo(q: Path, k: nat): Path {
    if k <= |q| then q[k..] else []
  }

  function WithRel(paths: seq<Path>, k: nat): seq<(Path, Path)> {
    seq(|paths|, i requires 0 <= i < |paths| => (paths[i], RelTo(paths[i], k)))
  }

  function Rels(paths: seq<Path>, k: nat): seq<Path> {
    seq(|paths|, i requires 0 <= i < |paths| => RelTo(paths[i], k))
  }

  lemma RelConcat(a: seq<Path>, b: seq<Path>, k: nat)
    ensures WithRel(a + b, k) == WithRel(a, k) + WithRel(b, k)
    ensures Rels(a + b, k) == Rels(a, k) + Rels(b, k)
  {
  }

  function WalkedFiles(fs: FS, ls: Listing, p: Path): seq<Path>
    requires Lists(ls, fs)
  {
    FilesIn(fs, Preorder(fs, ls, p))
  }

  function WalkedDirs(fs: FS, ls: Listing, p: Path): seq<Path>
    requires Lists(ls, fs)
  {
    DirsIn(fs, Preorder(fs, ls, p))
  }

  lemma {:induction false} EntriesSnoc(fs: FS, ls: Listing, p: Path, names: seq<string>, n: string)
    requires Lists(ls, fs) && IsDir(fs, p)
    ensures Entries(fs, ls, p, names + [n]) == Entries(fs, ls, p, names) + Preorder(fs, ls, p + [n])
    decreases |names|
  {
    var last := Preorder(fs, ls, p + [n]);
    if names == [] {
      assert (names + [n])[1..] == [];
      assert Entries(fs, ls, p, []) == [];
    } else {
      var first, rest := Preorder(fs, ls, p + [names[0]]), Entries(fs, ls, p, names[1..]);
      EntriesSnoc(fs, ls, p, names[1..], n);
      assert (names + [n])[1..] == names[1..] + [n];
      Assoc(first, rest, last);
    }
  }

  /** `p` exists and nothing at or below it is in `bad`. */
  ghost predicate Readable(fs: FS, bad: set<Path>, p: Path) {
    p in fs && forall q :: q in fs && Under(p, q) ==> q !in bad
  }

  /** So are the first `i` entries of the directory `p`. */
  ghost predicate ReadableTo(fs: FS, ls: Listing, bad: set<Path>, p: Path, i: nat)
    requires i <= |ls(p)|
  {
    forall j :: 0 <= j < i ==> Readable(fs, bad, p + [ls(p)[j]])
  }

  lemma ReadableDir(fs: FS, ls: Listing, p: Path, bad: set<Path>)
    requires WellFormed(fs) && Lists(ls, fs) && IsDir(fs, p)
    ensures Readable(fs, bad, p) <==> p !in bad && ReadableTo(fs, ls, bad, p, |ls(p)|)
  {
    assert Under(p, p);
    if Readable(fs, bad, p) {
      forall j | 0 <= j < |ls(p)| ensures Readable(fs, bad, p + [ls(p)[j]]) {
        var c := p + [ls(p)[j]];
        assert ls(p)[j] in ls(p) && c in fs && Under(p, c);
        forall q | q in fs && Under(c, q) ensures q !in bad { UnderTransitive(p, c, q); }
      }
    } else if p !in bad {
      var q :| q in fs && Under(p, q) && q in bad;
      StepTowards(fs, p, q);
      ThroughChild(p, q[|p|], q);
      var j :| 0 <= j < |ls(p)| && ls(p)[j] == q[|p|];
      assert !Readable(fs, bad, p + [ls(p)[j]]);
    }
  }

  /** What a walk has pushed onto its three accumulators. */
  datatype Haul = Haul(files: seq<(Path, Path)>, dirs: seq<Path>, bytes: nat)

  /** `h` extended with the files and directories among `s`. */
  function Add(h: Haul, fs: FS, s: seq<Path>, k: nat): Haul {
    Haul(h.files + WithRel(FilesIn(fs, s), k),
         h.dirs + Rels(DirsIn(fs, s), k),
         h.bytes + BytesIn(fs, FilesIn(fs, s)))
  }

  /** `h` extended with everything the walk of `p` finds. */
  function Take(h: Haul, fs: FS, ls: Listing, p: Path, k: nat): Haul
    requires Lists(ls, fs)
  {
    Add(h, fs, Preorder(fs, ls, p), k)
  }

  /** `h` extended with what the first `i` entries of the directory `p` yield. */
  function TakeFirst(h: Haul, fs: FS, ls: Listing, p: Path, i: nat, k: nat): Haul
    requires Lists(ls, fs) && IsDir(fs, p) && i <= |ls(p)|
  {
    Add(h, fs, Entries(fs, ls, p, ls(p)[..i]), k)
  }

  lemma AddNothing(h: Haul, fs: FS, k: nat)
    ensures Add(h, fs, [], k) == h
  {
  }

  lemma AddConcat(h: Haul, fs: FS, a: seq<Path>, b: seq<Path>, k: nat)
    ensures Add(h, fs, a + b, k) == Add(Add(h, fs, a, k), fs, b, k)
  {
    FilesInConcat(fs, a, b);
    DirsInConcat(fs, a, b);
    BytesConcat(fs, FilesIn(fs, a), FilesIn(fs, b));
    RelConcat(FilesIn(fs, a), FilesIn(fs, b), k);
    RelConcat(DirsIn(fs, a), DirsIn(fs, b), k);
    Assoc(h.files, WithRel(FilesIn(fs, a), k), WithRel(FilesIn(fs, b), k));
    Assoc(h.dirs, Rels(DirsIn(fs, a), k), Rels(DirsIn(fs, b), k));
  }

  lemma AddOne(h: Haul, fs: FS, p: Path, k: nat)
    requires p in fs
    ensures IsDir(fs, p) ==> Add(h, fs, [p], k) == h.(dirs := h.dirs + [RelTo(p, k)])
    ensures IsFile(fs, p) ==>
            Add(h, fs, [p], k) ==
            h.(files := h.files + [(p, RelTo(p, k))], bytes := h.bytes + |fs[p].data|)
  {
    var one: seq<Path>, none: seq<Path> := [p], [];
    assert one[1..] == none && FilesIn(fs, none) == none && DirsIn(fs, none) == none;
    if IsDir(fs, p) {
      assert DirsIn(fs, one) == one && FilesIn(fs, one) == none;
    } else {
      assert FilesIn(fs, one) == one && DirsIn(fs, one) == none;
      assert BytesIn(fs, one) == |fs[p].data|;
    }
  }

  /** The walk of a directory records it, then takes its entries one by one. */
  lemma TakeDir(h: Haul, fs: FS, ls: Listing, p: Path, k: nat)
    requires Lists(ls, fs) && IsDir(fs, p)
    ensures Take(h, fs, ls, p, k) ==
            TakeFirst(h.(dirs := h.dirs + [RelTo(p, k)]), fs, ls, p, |ls(p)|, k)
    ensures TakeFirst(h, fs, ls, p, 0, k) == h
  {
    AddConcat(h, fs, [p], Entries(fs, ls, p, ls(p)), k);
    AddOne(h, fs, p, k);
    assert ls(p)[..|ls(p)|] == ls(p);
    assert ls(p)[..0] == [];
    AddNothing(h, fs, k);
  }

  lemma TakeNext(h: Haul, fs: FS, ls: Listing, p: Path, i: nat, k: nat)
    requires Lists(ls, fs) && IsDir(fs, p) && i < |ls(p)|
    ensures TakeFirst(h, fs, ls, p, i + 1, k) ==
            Take(TakeFirst(h, fs, ls, p, i, k), fs, ls, p + [ls(p)[i]], k)
  {
    var done, n := ls(p)[..i], ls(p)[i];
    assert ls(p)[..i + 1] == done + [n];
    EntriesSnoc(fs, ls, p, done, n);
    AddConcat(h, fs, Entries(fs, ls, p, done), Preorder(fs, ls, p + [n]), k);
  }

  lemma TakeFile(h: Haul, fs: FS, ls: Listing, p: Path, k: nat)
    requires Lists(ls, fs) && IsFile(fs, p)
    ensures Take(h, fs, ls, p, k) ==
            h.(files := h.files + [(p, RelTo(p, k))], bytes := h.bytes + |fs[p].data|)
  {
    AddOne(h, fs, p, k);
  }

  /** A file is readable when it is not itself in `bad`. */
  lemma ReadableFile(fs: FS, ls: Listing, bad: set<Path>, p: Path)
    requires WellFormed(fs) && Lists(ls, fs) && IsFile(fs, p)
    ensures Readable(fs, bad, p) <==> p !in bad
  {
    PreorderVisits(fs, ls, p);
    forall q | q in fs && Under(p, q) ensures q == p { assert q in Preorder(fs, ls, p); }
    assert Under(p, p);
  }

  /** What the walk of a directory has to show, */
  lemma EnterDir(h: Haul, fs: FS, ls: Listing, bad: set<Path>, p: Path, k: nat)
    requires WellFormed(fs) && Lists(ls, fs) && IsDir(fs, p)
    ensures Readable(fs, bad, p) <==> p !in bad && ReadableTo(fs, ls, bad, p, |ls(p)|)
    ensures ReadableTo(fs, ls, bad, p, 0)
    ensures var start := h.(dirs := h.dirs + [RelTo(p, k)]);
            && Take(h, fs, ls, p, k) == TakeFirst(start, fs, ls, p, |ls(p)|, k)
            && TakeFirst(start, fs, ls, p, 0, k) == start
  {
    ReadableDir(fs, ls, p, bad);
    TakeDir(h, fs, ls, p, k);
    TakeDir(h.(dirs := h.dirs + [RelTo(p, k)]), fs, ls, p, k);
  }

  /** and what each of its entries adds. */
  lemma NextInDir(h: Haul, fs: FS, ls: Listing, bad: set<Path>, p: Path, i: nat, k: nat)
    requires Lists(ls, fs) && IsDir(fs, p) && i < |ls(p)|
    ensures var c := p + [ls(p)[i]];
            && Below(fs, c) < Below(fs, p)
            && (ReadableTo(fs, ls, bad, p, i + 1) <==> ReadableTo(fs, ls, bad, p, i) && Readable(fs, bad, c))
            && (ReadableTo(fs, ls, bad, p, |ls(p)|) ==> ReadableTo(fs, ls, bad, p, i + 1))
            && TakeFirst(h, fs, ls, p, i + 1, k) == Take(TakeFirst(h, fs, ls, p, i, k), fs, ls, c, k)
  {
    hide Readable, Take, TakeFirst, Below;
    BelowChild(fs, p, ls(p)[i]);
    TakeNext(h, fs, ls, p, i, k);
  }

  /** A file is readable when its metadata are, and adds itself. */
  lemma AtFile(h: Haul, fs: FS, ls: Listing, bad: set<Path>, p: Path, k: nat)
    requires WellFormed(fs) && Lists(ls, fs) && !IsDir(fs, p)
    ensures Readable(fs, bad, p) <==> p in fs && p !in bad
    ensures p in fs ==>
            Take(h, fs, ls, p, k) ==
            h.(files := h.files + [(p, RelTo(p, k))], bytes := h.bytes + |fs[p].data|)
  {
    if p in fs {
      ReadableFile(fs, ls, bad, p);
      TakeFile(h, fs, ls, p, k);
    }
  }

  /** The accumulators `files`, `dirs` and `bytes` of `walk_files`.  A directory or
      file in `bad` cannot be read: listing it, or its metadata, fails. */
  class Walk {
    var files: seq<(Path, Path)>
    var dirs: seq<Path>
    var bytes: nat

    constructor ()
      ensures Now() == Haul([], [], 0)
    {
      files, dirs, bytes := [], [], 0;
    }

    ghost function Now(): Haul
      reads this
    {
      Haul(files, dirs, bytes)
    }

    /** `walk_files`: `rel` is what is left of `src` below the root of the walk. */
    method WalkFiles(fs: FS, ls: Listing, bad: set<Path>, ghost root: Path, src: Path, rel: Path)
      returns (ok: bool)
      requires WellFormed(fs) && Lists(ls, fs)
      requires src == root + rel
      modifies this
      ensures ok <==> Readable(fs, bad, src)
      ensures ok ==> Now() == Take(old(Now()), fs, ls, src, |root|)
      decreases Below(fs, src)
    {
      ghost var k := |root|;
      assert RelTo(src, k) == rel;
      hide Lists, WellFormed, Below, Readable, ReadableTo, Take, TakeFirst, RelTo;
      if IsDir(fs, src) {
        EnterDir(Now(), fs, ls, bad, src, k);
        dirs := dirs + [rel];
        ghost var start := Now();
        if src in bad {
          return false;
        }
        var names := ls(src);
        for i := 0 to |names|
          invariant ReadableTo(fs, ls, bad, src, i)
          invariant Now() == TakeFirst(start, fs, ls, src, i, k)
        {
          NextInDir(start, fs, ls, bad, src, i, k);
          Assoc(root, rel, [names[i]]);
          ok := WalkFiles(fs, ls, bad, root, src + [names[i]], rel + [names[i]]);
          if !ok {
            return false;
          }
        }
        return true;
      } else {
        AtFile(Now(), fs, ls, bad, src, k);
        if src !in fs || src in bad {
          return false;
        }
        bytes := bytes + |fs[src].data|;
        files := files + [(src, rel)];
        return true;
      }
    }
  }

  /** `walk_delete`: the same walk, recording whole paths. */
  class DeleteWalk {
    var files: seq<Path>
    var dirs: seq<Path>
    var bytes: nat

    constructor ()
      ensures files == [] && dirs == [] && bytes == 0
    {
      files, dirs, bytes := [], [], 0;
    }

    ghost function Now(): Haul
      reads this
    {
      Haul(Doubled(files), dirs, bytes)
    }

    method Collect(fs: FS, ls: Listing, bad: set<Path>, src: Path) returns (ok: bool)
      requires WellFormed(fs) && Lists(ls, fs)
      modifies this
      ensures ok <==> Readable(fs, bad, src)
      ensures ok ==> Now() == Take(old(Now()), fs, ls, src, 0)
      decreases Below(fs, src)
    {
      assert RelTo(src, 0) == src;
      hide Lists, WellFormed, Below, Readable, ReadableTo, Take, TakeFirst, RelTo;
      if IsDir(fs, src) {
        EnterDir(Now(), fs, ls, bad, src, 0);
        dirs := dirs + [src];
        ghost var start := Now();
        if src in bad {
          return false;
        }
        var names := ls(src);
        for i := 0 to |names|
          invariant ReadableTo(fs, ls, bad, src, i)
          invariant Now() == TakeFirst(start, fs, ls, src, i, 0)
        {
          NextInDir(start, fs, ls, bad, src, i, 0);
          ok := Collect(fs, ls, bad, src + [names[i]]);
          if !ok {
            return false;
          }
        }
        return true;
      } else {
        AtFile(Now(), fs, ls, bad, src, 0);
        if src !in fs || src in bad {
          return false;
        }
        DoubledSnoc(files, src);
        bytes := bytes + |fs[src].data|;
        files := files + [src];
        return true;
      }
    }
  }

  function Doubled(s: seq<Path>): seq<(Path, Path)> {
    seq(|s|, i requires 0 <= i < |s| => (s[i], s[i]))
  }

  lemma DoubledSnoc(s: seq<Path>, p: Path)
    ensures Doubled(s + [p]) == Doubled(s) + [(p, p)]
  {
  }

  /** A complete walk from empty accumulators yields the files and directories of
      the preorder. */
  lemma CollectedAll(fs: FS, ls: Listing, src: Path, files: seq<Path>, dirs: seq<Path>, bytes: nat)
    requires Lists(ls, fs)
    requires Haul(Doubled(files), dirs, bytes) == Take(Haul([], [], 0), fs, ls, src, 0)
    ensures files == WalkedFiles(fs, ls, src) && dirs == WalkedDirs(fs, ls, src)
    ensures bytes == BytesIn(fs, WalkedFiles(fs, ls, src))
  {
    var f, d := WalkedFiles(fs, ls, src), WalkedDirs(fs, ls, src);
    assert Doubled(files) == WithRel(f, 0) && dirs == Rels(d, 0);
    forall i | 0 <= i < |f| ensures files[i] == f[i] { assert Doubled(files)[i] == WithRel(f, 0)[i]; }
    forall i | 0 <= i < |d| ensures dirs[i] == d[i] {}
  }
}
