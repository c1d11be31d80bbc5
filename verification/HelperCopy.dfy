/** The privileged helper's copy: plain recursion that stops at the first failure. */
module HelperCopy {
  import opened FileSystem
  import opened TreeWalk
  import opened Jobs
  import opened TransferPool
  import opened MoveJob

  /** Where an entry of the source tree goes. */
  function Dest(c: Config, q: Path): Path {
    c.dst + RelTo(q, |c.src|)
  }

  /** No entry goes to a place inside the source, so the recursion does not come past its
      own work.  The destination may lie above the source. */
  ghost predicate TreeApart(c: Config) {
    forall q :: q in c.fs && Under(c.src, q) ==> !Under(c.src, Dest(c, q))
  }

  ghost predicate ValidCopy(c: Config) {
    ValidConfig(c) && c.op == Copy && c.src in c.fs && TreeApart(c)
  }

  /** What the recursion does for one entry: a directory is made, then listed, which
      can fail too; a file is copied. */
  function One(c: Config, fs: FS, q: Path): (FS, bool) {
    if IsDir(c.fs, q) then
      var (fs1, ok) := MkdirAll(fs, c.mkdirBad, Dest(c, q));
      (fs1, ok && q !in c.walkBad)
    else CopyOne(fs, c.io(RelTo(q, |c.src|)), q, Dest(c, q))
  }

  /** Entry after entry, up to the first that fails. */
  function Fold(c: Config, fs: FS, s: seq<Path>): (FS, bool)
    decreases |s|
  {
    if s == [] then (fs, true)
    else
      var (fs1, ok) := One(c, fs, s[0]);
      if ok then Fold(c, fs1, s[1..]) else (fs1, false)
  }

  lemma {:induction false} FoldConcat(c: Config, fs: FS, a: seq<Path>, b: seq<Path>)
    ensures Fold(c, fs, a + b) == if Fold(c, fs, a).1 then Fold(c, Fold(c, fs, a).0, b) else Fold(c, fs, a)
    decreases |a|
  {
    if a == [] {
      assert a + b == b;
    } else {
      assert (a + b)[1..] == a[1..] + b;
      FoldConcat(c, One(c, fs, a[0]).0, a[1..], b);
    }
  }

  lemma FoldSnoc(c: Config, fs: FS, a: seq<Path>, q: Path)
    ensures Fold(c, fs, a + [q]) == if Fold(c, fs, a).1 then One(c, Fold(c, fs, a).0, q) else Fold(c, fs, a)
  {
    FoldConcat(c, fs, a, [q]);
    var fs1 := Fold(c, fs, a).0;
    assert [q][1..] == [];
    assert Fold(c, fs1, [q]) == One(c, fs1, q);
  }

  // ----- the code -----

  /** The source tree is as it was. */
  ghost predicate Intact(c: Config, fs: FS) {
    forall q :: Under(c.src, q) ==> Agree(fs, c.fs, q)
  }

  lemma DestOutside(c: Config, q: Path, a: Path)
    requires Under(c.src, a) && !Under(c.src, Dest(c, q))
    ensures !Under(a, Dest(c, q)) && a != Dest(c, q)
  {
    if Under(a, Dest(c, q)) { UnderTransitive(c.src, a, Dest(c, q)); }
  }

  /** None of these entries goes to a place inside the source. */
  ghost predicate GoOutside(c: Config, s: seq<Path>) {
    forall q :: q in s ==> !Under(c.src, Dest(c, q))
  }

  lemma OneIntact(c: Config, fs: FS, q: Path)
    requires !Under(c.src, Dest(c, q)) && Intact(c, fs)
    ensures Intact(c, One(c, fs, q).0)
  {
    forall a | Under(c.src, a) ensures Agree(One(c, fs, q).0, c.fs, a) {
      DestOutside(c, q, a);
      assert Agree(fs, c.fs, a);
    }
  }

  lemma {:induction false} FoldIntact(c: Config, fs: FS, s: seq<Path>)
    requires GoOutside(c, s) && Intact(c, fs)
    ensures Intact(c, Fold(c, fs, s).0)
    decreases |s|
  {
    hide One, Intact;
    if s != [] {
      OneIntact(c, fs, s[0]);
      FoldIntact(c, One(c, fs, s[0]).0, s[1..]);
    }
  }

  lemma EntriesOutside(c: Config, src: Path, i: nat)
    requires ValidCopy(c) && Under(c.src, src) && IsDir(c.fs, src) && i <= |c.ls(src)|
    ensures GoOutside(c, Entries(c.fs, c.ls, src, c.ls(src)[..i]))
  {
    var names, s := c.ls(src)[..i], Entries(c.fs, c.ls, src, c.ls(src)[..i]);
    assert Distinct(c.ls(src)) && forall n :: n in names ==> n in c.ls(src);
    EntriesVisit(c.fs, c.ls, src, names);
    hide Entries, Dest, Lists, Distinct;
    forall q | q in s ensures !Under(c.src, Dest(c, q)) {
      UnderTransitive(c.src, src, q);
    }
  }

  /** The filesystem the helper works on. */
  class Disk {
    var fs: FS

    constructor (fs: FS)
      ensures this.fs == fs
    {
      this.fs := fs;
    }

    /** `copy_file`: a read and write loop over a buffer, up to the end of the file or
        the error that breaks it off. */
    method CopyFile(io: FileIO, src: Path, dst: Path) returns (total: Option<nat>)
      modifies this
      ensures (fs, total.Some?) == CopyOne(old(fs), io, src, dst)
      ensures total.Some? && src != dst ==> fs[dst] == old(fs)[src] && total.value == |old(fs)[src].data|
    {
      if !io.open || !IsFile(fs, src) {
        return None;
      }
      if !io.create || !CanPlace(fs, dst) {
        return None;
      }
      fs := fs[dst := File([])];
      ghost var data := if src == dst then [] else old(fs)[src].data;
      var done := 0;
      while done < |fs[src].data|
        invariant done <= |data| && src in fs && fs[src] == File(data)
        invariant fs == old(fs)[dst := File(data[..done])]
        invariant io.breakAt.Some? ==> done <= io.breakAt.value
        decreases |data| - done
      {
        var n := ReadSize(io, done, |fs[src].data|);
        if io.breakAt.Some? && io.breakAt.value < done + n {
          fs := fs[dst := File(fs[src].data[..io.breakAt.value])];
          assert fs == old(fs)[dst := File(data[..io.breakAt.value])];
          return None;
        }
        fs := fs[dst := File(fs[src].data[..done + n])];
        done := done + n;
      }
      assert data[..done] == data;
      if io.breakAt.Some? {
        return None;
      }
      return Some(done);
    }

    /** `copy_recursive`: on the way it looks at the live tree, which it does not change
        where it reads. */
    method CopyRecursive(c: Config, src: Path, dst: Path) returns (ok: bool)
      requires ValidCopy(c) && Under(c.src, src) && dst == Dest(c, src)
      requires Intact(c, fs) && src in c.fs
      modifies this
      ensures (fs, ok) == Fold(c, old(fs), Preorder(c.fs, c.ls, src))
      decreases Below(c.fs, src)
    {
      ghost var before := fs;
      assert Agree(fs, c.fs, src);
      if IsDir(fs, src) {
        var (fs1, made) := MkdirAll(fs, c.mkdirBad, dst);
        ghost var rest := Entries(c.fs, c.ls, src, c.ls(src));
        FoldConcat(c, before, [src], rest);
        FoldSnoc(c, before, [], src);
        assert [] + [src] == [src];
        fs := fs1;
        if !made || src in c.walkBad {
          return false;
        }
        assert Fold(c, before, [src]) == (fs1, true);
        ok := CopyEntries(c, src, dst);
      } else {
        assert [src][1..] == [];
        var total := CopyFile(c.io(RelTo(src, |c.src|)), src, dst);
        ok := total.Some?;
      }
    }

    /** The loop over the entries of one directory. */
    method CopyEntries(c: Config, src: Path, dst: Path) returns (ok: bool)
      requires ValidCopy(c) && Under(c.src, src) && dst == Dest(c, src)
      requires Intact(c, fs) && IsDir(c.fs, src)
      modifies this
      ensures (fs, ok) == Fold(c, old(fs), Entries(c.fs, c.ls, src, c.ls(src)))
      decreases Below(c.fs, src), 0
    {
      ghost var before := fs;
      var names := c.ls(src);
      assert names[..0] == [];
      hide Dest, TreeApart, Fold, One, Preorder, Entries, Lists, WellFormed, Below, Intact, Under, RelTo;
      for i := 0 to |names|
        invariant (fs, true) == FoldFirst(c, before, src, i) && Intact(c, fs)
      {
        var n := names[i];
        ChildOf(c, src, n);
        NextFolds(c, before, src, i);
        ok := CopyRecursive(c, src + [n], dst + [n]);
        if !ok {
          FailsForGood(c, before, src, i + 1);
          return;
        }
        EntriesOutside(c, src, i + 1);
        FoldIntact(c, old(fs), Entries(c.fs, c.ls, src, c.ls(src)[..i + 1]));
      }
      assert names[..|names|] == names;
      return true;
    }
  }

  /** What the helper has done after `i` entries of a directory. */
  function FoldFirst(c: Config, fs: FS, src: Path, i: nat): (FS, bool)
    requires Lists(c.ls, c.fs) && IsDir(c.fs, src) && i <= |c.ls(src)|
  {
    Fold(c, fs, Entries(c.fs, c.ls, src, c.ls(src)[..i]))
  }

  lemma NextFolds(c: Config, fs: FS, src: Path, i: nat)
    requires Lists(c.ls, c.fs) && IsDir(c.fs, src) && i < |c.ls(src)|
    ensures FoldFirst(c, fs, src, i + 1) ==
            if FoldFirst(c, fs, src, i).1
            then Fold(c, FoldFirst(c, fs, src, i).0, Preorder(c.fs, c.ls, src + [c.ls(src)[i]]))
            else FoldFirst(c, fs, src, i)
  {
    var done, n := c.ls(src)[..i], c.ls(src)[i];
    assert c.ls(src)[..i + 1] == done + [n];
    EntriesSnoc(c.fs, c.ls, src, done, n);
    FoldConcat(c, fs, Entries(c.fs, c.ls, src, done), Preorder(c.fs, c.ls, src + [n]));
  }

  lemma {:induction false} FailsForGood(c: Config, fs: FS, src: Path, i: nat)
    requires Lists(c.ls, c.fs) && IsDir(c.fs, src) && i <= |c.ls(src)| && !FoldFirst(c, fs, src, i).1
    ensures FoldFirst(c, fs, src, i) == Fold(c, fs, Entries(c.fs, c.ls, src, c.ls(src)))
    decreases |c.ls(src)| - i
  {
    if i == |c.ls(src)| {
      assert c.ls(src)[..i] == c.ls(src);
    } else {
      NextFolds(c, fs, src, i);
      FailsForGood(c, fs, src, i + 1);
    }
  }

  lemma ChildOf(c: Config, src: Path, n: string)
    requires ValidCopy(c) && Under(c.src, src) && IsDir(c.fs, src) && n in c.ls(src)
    ensures Under(c.src, src + [n]) && src + [n] in c.fs
    ensures Dest(c, src + [n]) == Dest(c, src) + [n]
    ensures Below(c.fs, src + [n]) < Below(c.fs, src)
  {
    BelowChild(c.fs, src, n);
    assert RelTo(src + [n], |c.src|) == RelTo(src, |c.src|) + [n];
  }
}
