/** The names of the temporary files uploads are streamed into. */
module TempNames {
  import opened FileSystem
  import Decimal

  const SUFFIX := ".uploading.nzk_webdavs"

  const SLOTS: nat := 16

  /** The name of slot `i`: the plain suffix, then numbered ones. */
  function TempName(name: string, i: nat): string {
    if i == 0 then name + SUFFIX else name + SUFFIX + "." + Decimal.Show(i)
  }

  ghost predicate IsTempName(s: string) {
    exists name, i: nat :: i < SLOTS && s == TempName(name, i)
  }

  /** Different names or slots never share a temporary file. */
  lemma TempNameInjective(m: string, i: nat, n: string, j: nat)
    requires TempName(m, i) == TempName(n, j)
    ensures m == n && i == j
  {
    var s := TempName(m, i);
    if i > 0 {
      assert s[|s| - 1] == Decimal.Show(i)[|Decimal.Show(i)| - 1];
      assert Decimal.IsDigit(s[|s| - 1]);
    } else {
      assert s[|s| - 1] == SUFFIX[|SUFFIX| - 1] == 's';
    }
    if j > 0 {
      assert s[|s| - 1] == Decimal.Show(j)[|Decimal.Show(j)| - 1];
      assert Decimal.IsDigit(s[|s| - 1]);
    } else {
      assert s[|s| - 1] == SUFFIX[|SUFFIX| - 1] == 's';
    }
    if i > 0 {
      Decimal.SplitAtLast(m + SUFFIX, Decimal.Show(i), n + SUFFIX, Decimal.Show(j), '.');
      Decimal.ReadShow(i);
      Decimal.ReadShow(j);
    }
    assert m == (m + SUFFIX)[..|m|];
    assert n == (n + SUFFIX)[..|n|];
  }

  /** The path of slot `i` for an upload to `target`: beside the target. */
  function TempPath(target: Path, i: nat): Path
    requires target != []
  {
    Parent(target) + [TempName(target[|target| - 1], i)]
  }

  ghost predicate Reserved(p: Path) {
    p != [] && IsTempName(p[|p| - 1])
  }

  lemma TempPathInjective(t: Path, i: nat, u: Path, j: nat)
    requires t != [] && u != [] && TempPath(t, i) == TempPath(u, j)
    ensures t == u && i == j
  {
    var p := TempPath(t, i);
    assert p[|p| - 1] == TempName(t[|t| - 1], i);
    assert TempPath(u, j)[|p| - 1] == TempName(u[|u| - 1], j);
    TempNameInjective(t[|t| - 1], i, u[|u| - 1], j);
    assert Parent(t) == p[..|p| - 1] == Parent(u);
    assert t == Parent(t) + [t[|t| - 1]] && u == Parent(u) + [u[|u| - 1]];
  }

  lemma TempPathReserved(t: Path, i: nat)
    requires t != [] && i < SLOTS
    ensures Reserved(TempPath(t, i))
  {
    assert TempPath(t, i)[|TempPath(t, i)| - 1] == TempName(t[|t| - 1], i);
  }

  /** How `create_temp` can end. */
  datatype Created = Created(temp: Path) | AllTaken | Failed

  /** `create_temp`: tries the slots in order with `create_new`; only a name that is
      taken makes it go on.  `broken` are the slots where opening fails otherwise. */
  method CreateTemp(files: map<Path, Bytes>, target: Path, broken: set<nat>)
    returns (files': map<Path, Bytes>, r: Created)
    requires target != []
    ensures r.Created? ==>
            exists i: nat :: i < SLOTS && r.temp == TempPath(target, i) && r.temp !in files && i !in broken &&
              (forall j: nat :: j < i ==> TempPath(target, j) in files) &&
              files' == files[r.temp := []]
    ensures r.AllTaken? <==> forall j: nat :: j < SLOTS ==> TempPath(target, j) in files
    ensures r.Failed? ==>
            exists i: nat :: i < SLOTS && i in broken && TempPath(target, i) !in files &&
              (forall j: nat :: j < i ==> TempPath(target, j) in files)
    ensures !r.Created? ==> files' == files
  {
    files' := files;
    for i := 0 to SLOTS
      invariant files' == files
      invariant forall j: nat :: j < i ==> TempPath(target, j) in files
    {
      var temp := TempPath(target, i);
      if temp !in files {
        if i in broken {
          return files, Failed;
        }
        files' := files[temp := []];
        return files', Created(temp);
      }
    }
    return files, AllTaken;
  }
}
