/** Paths and the texts requests give them as. */
module PathText {
  import opened FileSystem

  /** The position of the last `c`, or -1. */
  function LastIndex(s: string, c: char): (i: int)
    ensures -1 <= i < |s| && (i >= 0 ==> s[i] == c)
    ensures forall k :: i < k < |s| ==> s[k] != c
  {
    if s == [] then -1
    else if s[|s| - 1] == c then |s| - 1
    else LastIndex(s[..|s| - 1], c)
  }

  /** The components of an absolute text: between slashes, leaving out empty ones and
      dots, so that different texts can denote the same path. */
  function Components(t: string): Path {
    var i := LastIndex(t, '/');
    var above := if i < 0 then [] else Components(t[..i]);
    var name := t[i + 1..];
    if name == "" || name == "." then above else above + [name]
  }

  /** A path as text. */
  function Text(p: Path): string {
    if p == [] then [] else Text(Parent(p)) + "/" + p[|p| - 1]
  }

  predicate Plain(name: string) {
    name != "" && name != "." && '/' !in name
  }

  predicate AllPlain(p: Path) {
    forall i :: 0 <= i < |p| ==> Plain(p[i])
  }

  lemma PlainParent(p: Path)
    requires AllPlain(p) && p != []
    ensures AllPlain(Parent(p)) && Plain(p[|p| - 1]) && p == Parent(p) + [p[|p| - 1]]
  {
    hide Plain;
  }

  lemma LastIndexIs(s: string, c: char, i: int)
    requires -1 <= i < |s| && (i >= 0 ==> s[i] == c)
    requires forall k :: i < k < |s| ==> s[k] != c
    ensures LastIndex(s, c) == i
  {
  }

  lemma ComponentsSnoc(above: string, name: string)
    requires Plain(name)
    ensures Components(above + "/" + name) == Components(above) + [name]
  {
    var t := above + "/" + name;
    forall k | |above| < k < |t| ensures t[k] != '/' { assert t[k] == name[k - |above| - 1]; }
    LastIndexIs(t, '/', |above|);
    assert t[..|above|] == above && t[|above| + 1..] == name;
  }

  /** The text of a path denotes it, */
  lemma {:induction false} TextDenotes(p: Path)
    requires AllPlain(p)
    ensures Components(Text(p)) == p
    decreases |p|
  {
    if p != [] {
      PlainParent(p);
      hide AllPlain, Plain, Components;
      TextDenotes(Parent(p));
      ComponentsSnoc(Text(Parent(p)), p[|p| - 1]);
    }
  }

  /** and so does that text with another slash at its end. */
  lemma SlashDenotes(t: string)
    ensures Components(t + "/") == Components(t)
  {
    var s := t + "/";
    LastIndexIs(s, '/', |t|);
    assert s[..|t|] == t && s[|t| + 1..] == "";
  }
}
