/** The bounded search that streams its matches into a record shared with the UI. */
module SearchWalk {
  import opened FileSystem
  import opened TreeWalk

  // ----- what there is to find, without a bound -----

  /** The entries the walk of `p` comes past, in order: those of `p`, each followed by
      those below it.  Directories in `bad` cannot be listed. */
  function Visits(fs: FS, ls: Listing, bad: set<Path>, p: Path): seq<Path>
    requires Lists(ls, fs)
    decreases Below(fs, p), 1, 0
  {
    if IsDir(fs, p) && p !in bad then VisitEach(fs, ls, bad, p, ls(p)) else []
  }

  function VisitEach(fs: FS, ls: Listing, bad: set<Path>, p: Path, names: seq<string>): seq<Path>
    requires Lists(ls, fs) && IsDir(fs, p)
    decreases Below(fs, p), 0, |names|
  {
    if names == [] then []
    else
      BelowChild(fs, p, names[0]);
      ([p + [names[0]]] + Visits(fs, ls, bad, p + [names[0]])) + VisitEach(fs, ls, bad, p, names[1..])
  }

  lemma {:induction false} VisitSnoc(fs: FS, ls: Listing, bad: set<Path>, p: Path, names: seq<string>, n: string)
    requires Lists(ls, fs) && IsDir(fs, p)
    ensures VisitEach(fs, ls, bad, p, names + [n]) ==
            VisitEach(fs, ls, bad, p, names) + ([p + [n]] + Visits(fs, ls, bad, p + [n]))
    decreases |names|
  {
    var last := [p + [n]] + Visits(fs, ls, bad, p + [n]);
    if names == [] {
      assert (names + [n])[1..] == [];
      assert VisitEach(fs, ls, bad, p, []) == [];
    } else {
      var first, rest := [p + [names[0]]] + Visits(fs, ls, bad, p + [names[0]]), VisitEach(fs, ls, bad, p, names[1..]);
      VisitSnoc(fs, ls, bad, p, names[1..], n);
      assert (names + [n])[1..] == names[1..] + [n];
      Assoc(first, rest, last);
    }
  }

  /** `q` is below `p`, and every directory on the way can be listed. */
  ghost predicate Reaches(fs: FS, bad: set<Path>, p: Path, q: Path) {
    && q in fs && |p| < |q| && Under(p, q)
    && forall a :: Under(p, a) && Under(a, q) && a != q ==> a !in bad
  }

  lemma ReachesChild(fs: FS, bad: set<Path>, p: Path, q: Path)
    requires WellFormed(fs) && q in fs && |p| < |q| && Under(p, q)
    ensures var c := p + [q[|p|]];
            Reaches(fs, bad, p, q) <==> p !in bad && (q == c || Reaches(fs, bad, c, q))
  {
    var c := p + [q[|p|]];
    assert c == q[..|p| + 1];
    assert Under(p, p) && Under(p, c) && Under(c, q);
    if Reaches(fs, bad, p, q) {
      if q != c {
        forall a | Under(c, a) && Under(a, q) && a != q ensures a !in bad { UnderTransitive(p, c, a); }
      }
    } else if p !in bad {
      var a :| Under(p, a) && Under(a, q) && a != q && a in bad;
      assert |a| == |p| ==> a == p;
      assert a == q[..|a|];
      assert Under(c, a);
    }
  }

  ghost predicate VisitsExactly(fs: FS, bad: set<Path>, p: Path, names: seq<string>, s: seq<Path>) {
    && (forall q :: q in s <==> Reaches(fs, bad, p, q) && q[|p|] in names)
    && ParentsFirst(s)
  }

  /** The walk comes past exactly the entries below its root that it can get to, once
      each, and past a directory before its contents. */
  lemma {:induction false} VisitsReach(fs: FS, ls: Listing, bad: set<Path>, p: Path)
    requires WellFormed(fs) && Lists(ls, fs)
    ensures forall q :: q in Visits(fs, ls, bad, p) <==> Reaches(fs, bad, p, q)
    ensures ParentsFirst(Visits(fs, ls, bad, p))
    decreases Below(fs, p), 1, 0
  {
    if IsDir(fs, p) && p !in bad {
      EachReaches(fs, ls, bad, p, ls(p));
      forall q | Reaches(fs, bad, p, q) ensures q[|p|] in ls(p) { StepTowards(fs, p, q); }
    } else {
      forall q ensures !Reaches(fs, bad, p, q) {
        if Reaches(fs, bad, p, q) {
          AncestorsAreDirs(fs, q, p);
          assert Under(p, p);
        }
      }
    }
  }

  lemma {:induction false} EachReaches(fs: FS, ls: Listing, bad: set<Path>, p: Path, names: seq<string>)
    requires WellFormed(fs) && Lists(ls, fs) && IsDir(fs, p) && p !in bad
    requires Distinct(names) && forall n :: n in names ==> p + [n] in fs
    ensures VisitsExactly(fs, bad, p, names, VisitEach(fs, ls, bad, p, names))
    decreases Below(fs, p), 0, |names|
  {
    hide Reaches, Lists, WellFormed, Below, Under, ParentsFirst;
    if names == [] {
      EmptyReach(fs, bad, p);
    } else {
      var c := p + [names[0]];
      BelowChild(fs, p, names[0]);
      VisitsReach(fs, ls, bad, c);
      EachReaches(fs, ls, bad, p, names[1..]);
      ReachMore(fs, bad, p, names, Visits(fs, ls, bad, c), VisitEach(fs, ls, bad, p, names[1..]));
    }
  }

  lemma EmptyReach(fs: FS, bad: set<Path>, p: Path)
    ensures VisitsExactly(fs, bad, p, [], [])
  {
  }

  lemma ReachMore(fs: FS, bad: set<Path>, p: Path, names: seq<string>, below: seq<Path>, rest: seq<Path>)
    requires WellFormed(fs) && p !in bad
    requires names != [] && Distinct(names) && p + [names[0]] in fs
    requires ParentsFirst(below)
    requires forall q :: q in below <==> Reaches(fs, bad, p + [names[0]], q)
    requires VisitsExactly(fs, bad, p, names[1..], rest)
    ensures VisitsExactly(fs, bad, p, names, [p + [names[0]]] + below + rest)
  {
    var c := p + [names[0]];
    var first := [c] + below;
    assert names == [names[0]] + names[1..];
    forall q ensures q in first <==> Reaches(fs, bad, p, q) && q[|p|] == names[0] {
      FirstReached(fs, bad, p, names[0], q);
    }
    hide Reaches, WellFormed;
    forall x, y | x in first && y in rest ensures !Under(y, x) {
      BelowRoot(fs, bad, p, x);
      BelowRoot(fs, bad, p, y);
      SiblingsApart(p, x, y);
    }
    forall y | y in below ensures !Under(y, c) { BelowRoot(fs, bad, c, y); }
    ParentsFirstConcat([c], below);
    ParentsFirstConcat(first, rest);
  }

  lemma BelowRoot(fs: FS, bad: set<Path>, p: Path, q: Path)
    requires Reaches(fs, bad, p, q)
    ensures |p| < |q| && Under(p, q)
  {
  }

  lemma FirstReached(fs: FS, bad: set<Path>, p: Path, n: string, q: Path)
    requires WellFormed(fs) && p !in bad && p + [n] in fs
    ensures q == p + [n] || Reaches(fs, bad, p + [n], q) <==> Reaches(fs, bad, p, q) && q[|p|] == n
  {
    ThroughChild(p, n, q);
    if q in fs && Through(p, n, q) {
      ReachesChild(fs, bad, p, q);
    }
  }

  /** One found entry, as the UI gets it. */
  datatype Found = Found(path: Path, isDir: bool, size: nat)

  function Report(fs: FS, p: Path): Found {
    Found(p, IsDir(fs, p), if IsFile(fs, p) then |fs[p].data| else 0)
  }

  /** The matching ones among the entries of a walk; `hit` says which names match. */
  function Hits(fs: FS, hit: string -> bool, s: seq<Path>): seq<Found> {
    if s == [] then []
    else (if s[0] != [] && hit(s[0][|s[0]| - 1]) then [Report(fs, s[0])] else []) + Hits(fs, hit, s[1..])
  }

  lemma {:induction false} HitsConcat(fs: FS, hit: string -> bool, a: seq<Path>, b: seq<Path>)
    ensures Hits(fs, hit, a + b) == Hits(fs, hit, a) + Hits(fs, hit, b)
  {
    if a == [] {
      assert a + b == b;
    } else {
      HitsConcat(fs, hit, a[1..], b);
      assert (a + b)[0] == a[0] && (a + b)[1..] == a[1..] + b;
      var x := if a[0] != [] && hit(a[0][|a[0]| - 1]) then [Report(fs, a[0])] else [];
      Assoc(x, Hits(fs, hit, a[1..]), Hits(fs, hit, b));
    }
  }

  lemma {:induction false} HitsMembers(fs: FS, hit: string -> bool, s: seq<Path>)
    ensures forall f :: f in Hits(fs, hit, s) <==>
              f.path in s && f == Report(fs, f.path) && f.path != [] && hit(f.path[|f.path| - 1])
    ensures |Hits(fs, hit, s)| <= |s|
  {
    if s != [] {
      HitsMembers(fs, hit, s[1..]);
      assert s == [s[0]] + s[1..];
    }
  }

  lemma {:induction false} HitsDistinct(fs: FS, hit: string -> bool, s: seq<Path>)
    requires ParentsFirst(s)
    ensures forall i, j :: 0 <= i < j < |Hits(fs, hit, s)| ==> Hits(fs, hit, s)[i].path != Hits(fs, hit, s)[j].path
  {
    if s != [] {
      HitsDistinct(fs, hit, s[1..]);
      HitsMembers(fs, hit, s[1..]);
      forall y | y in s[1..] ensures y != s[0] {
        var j :| 0 <= j < |s[1..]| && s[1..][j] == y;
        assert s[j + 1] == y && Under(y, y);
      }
    }
  }

  // ----- the bound -----

  const MAX_RESULTS: nat := 1000

  function FirstOf<T>(s: seq<T>, k: nat): seq<T> {
    if |s| <= k then s else s[..k]
  }

  /** Room for how many more. */
  function Room(n: nat): nat {
    if n < MAX_RESULTS then MAX_RESULTS - n else 0
  }

  /** The loop over the directory of a later match is still running when the match
      that fills the last of the `room` places is found. */
  ghost predicate NoticedAt(hits: seq<Found>, room: nat, j: nat) {
    && 0 < room <= j < |hits| && hits[j].path != [] && hits[room - 1].path != []
    && Under(Parent(hits[j].path), Parent(hits[room - 1].path))
  }

  ghost predicate Noticed(hits: seq<Found>, room: nat) {
    exists j :: NoticedAt(hits, room, j)
  }

  /** Nothing is noticed while there is room for all. */
  lemma RoomLeft(hits: seq<Found>, room: nat)
    requires |hits| <= room
    ensures !Noticed(hits, room) && FirstOf(hits, room) == hits
  {
  }

  /** Where a list of matches lies: below `p`, in the entries `names` of it. */
  ghost predicate Inside(hits: seq<Found>, p: Path, names: seq<string>) {
    forall i :: 0 <= i < |hits| ==>
      |p| < |hits[i].path| && Under(p, hits[i].path) && hits[i].path[|p|] in names
  }

  ghost predicate StrictlyBelow(hits: seq<Found>, p: Path) {
    forall i :: 0 <= i < |hits| ==> |p| < |hits[i].path| && Under(p, hits[i].path)
  }

  /** While there is room, the later matches `b` are dealt with as if the walk had
      started with the room the matches `a` leave. */
  lemma NoticedLater(a: seq<Found>, b: seq<Found>, room: nat)
    requires |a| < room
    ensures Noticed(a + b, room) <==> Noticed(b, room - |a|)
    ensures FirstOf(a + b, room) == a + FirstOf(b, room - |a|)
  {
    var k, ab := room - |a|, a + b;
    assert forall j: nat :: |a| <= j < |ab| ==> ab[j] == b[j - |a|];
    if Noticed(ab, room) {
      var j: nat :| NoticedAt(ab, room, j);
      assert NoticedAt(b, k, j - |a|);
    }
    if Noticed(b, k) {
      var j: nat :| NoticedAt(b, k, j);
      assert NoticedAt(ab, room, j + |a|);
    }
  }

  /** Once the record is full, matches further down in another entry go unnoticed. */
  lemma FullAlready(a: seq<Found>, b: seq<Found>, room: nat, p: Path, names: seq<string>, n: string)
    requires room <= |a| && n !in names
    requires Inside(a, p, names) || (a != [] && Inside(a[..|a| - 1], p, names) && a[|a| - 1].path == p + [n])
    requires StrictlyBelow(b, p + [n])
    ensures Noticed(a + b, room) <==> Noticed(a, room)
    ensures FirstOf(a + b, room) == FirstOf(a, room)
  {
    var ab := a + b;
    assert ab[..room] == a[..room];
    if Noticed(a, room) {
      var j: nat :| NoticedAt(a, room, j);
      assert NoticedAt(ab, room, j);
    }
    if Noticed(ab, room) {
      var j: nat :| NoticedAt(ab, room, j);
      if j < |a| {
        assert NoticedAt(a, room, j);
      } else {
        var x, y := a[room - 1].path, b[j - |a|].path;
        assert ab[j] == b[j - |a|] && ab[room - 1] == a[room - 1];
        assert x == p + [n] || (|p| < |x| && x[|p|] in names) by {
          if room - 1 < |a| - 1 { assert a[..|a| - 1][room - 1] == a[room - 1]; }
        }
        NotAbove(p, n, x, y);
      }
    }
  }

  lemma NotAbove(p: Path, n: string, x: Path, y: Path)
    requires x != [] && |p| < |x| && (x == p + [n] || x[|p|] != n)
    requires |p| + 1 < |y| && Under(p + [n], y)
    ensures !Under(Parent(y), Parent(x))
  {
    assert y[|p|] == (p + [n])[|p|] == n;
    assert Parent(y)[|p|] == n;
  }

  /** A match that meets a full record, in a directory whose loop is running. */
  lemma NoticedHere(a: seq<Found>, f: Found, rest: seq<Found>, room: nat, p: Path)
    requires 0 < room <= |a| && StrictlyBelow(a, p)
    requires f.path != [] && Parent(f.path) == p
    ensures Noticed(a + ([f] + rest), room)
    ensures FirstOf(a + ([f] + rest), room) == FirstOf(a, room)
  {
    var all := a + ([f] + rest);
    assert all[|a|] == f && all[room - 1] == a[room - 1];
    var x := a[room - 1].path;
    assert Under(p, Parent(x)) by { assert p == x[..|p|] == Parent(x)[..|p|]; }
    assert NoticedAt(all, room, |a|);
    assert all[..room] == a[..room];
  }

  /** What the walk has come past in `dir` after `i` of its entries, */
  function SeenBy(fs: FS, ls: Listing, bad: set<Path>, dir: Path, i: nat): seq<Path>
    requires Lists(ls, fs) && IsDir(fs, dir) && i <= |ls(dir)|
  {
    VisitEach(fs, ls, bad, dir, ls(dir)[..i])
  }

  /** and the matches among that. */
  function HitsBy(fs: FS, ls: Listing, bad: set<Path>, hit: string -> bool, dir: Path, i: nat): seq<Found>
    requires Lists(ls, fs) && IsDir(fs, dir) && i <= |ls(dir)|
  {
    Hits(fs, hit, SeenBy(fs, ls, bad, dir, i))
  }

  function Here(fs: FS, hit: string -> bool, dir: Path, n: string): seq<Found> {
    if hit(n) then [Report(fs, dir + [n])] else []
  }

  lemma HereIs(fs: FS, hit: string -> bool, dir: Path, n: string)
    ensures var here := Here(fs, hit, dir, n);
            |here| <= 1 && (here != [] ==> hit(n) && here[0].path == dir + [n])
  {
  }

  lemma StartOfDir(fs: FS, ls: Listing, bad: set<Path>, hit: string -> bool, dir: Path)
    requires Lists(ls, fs) && IsDir(fs, dir) && dir !in bad
    ensures SeenBy(fs, ls, bad, dir, 0) == [] && HitsBy(fs, ls, bad, hit, dir, 0) == []
    ensures SeenBy(fs, ls, bad, dir, |ls(dir)|) == Visits(fs, ls, bad, dir)
  {
    assert ls(dir)[..0] == [] && ls(dir)[..|ls(dir)|] == ls(dir);
  }

  /** The next entry: itself, then what is below it. */
  lemma NextEntry(fs: FS, ls: Listing, bad: set<Path>, hit: string -> bool, dir: Path, i: nat)
    requires Lists(ls, fs) && IsDir(fs, dir) && i < |ls(dir)|
    ensures var c, n := dir + [ls(dir)[i]], ls(dir)[i];
            && HitsBy(fs, ls, bad, hit, dir, i + 1) ==
               (HitsBy(fs, ls, bad, hit, dir, i) + Here(fs, hit, dir, n)) + Hits(fs, hit, Visits(fs, ls, bad, c))
            && |DirsIn(fs, SeenBy(fs, ls, bad, dir, i + 1))| ==
               |DirsIn(fs, SeenBy(fs, ls, bad, dir, i))|
               + (if IsDir(fs, c) then 1 else 0) + |DirsIn(fs, Visits(fs, ls, bad, c))|
  {
    var c, n, seen := dir + [ls(dir)[i]], ls(dir)[i], SeenBy(fs, ls, bad, dir, i);
    var below := Visits(fs, ls, bad, c);
    assert ls(dir)[..i + 1] == ls(dir)[..i] + [n];
    VisitSnoc(fs, ls, bad, dir, ls(dir)[..i], n);
    assert SeenBy(fs, ls, bad, dir, i + 1) == seen + ([c] + below);
    hide Visits, VisitEach;
    HitsConcat(fs, hit, seen, [c] + below);
    HitsConcat(fs, hit, [c], below);
    var one: seq<Path> := [c];
    assert one[1..] == [] && c[|c| - 1] == n;
    assert Hits(fs, hit, [c]) == Here(fs, hit, dir, n);
    Assoc(Hits(fs, hit, seen), Here(fs, hit, dir, n), Hits(fs, hit, below));
    DirsInConcat(fs, seen, [c] + below);
    DirsInConcat(fs, [c], below);
    assert DirsIn(fs, [c]) == (if IsDir(fs, c) then [c] else []);
  }

  lemma {:induction false} VisitSplit(fs: FS, ls: Listing, bad: set<Path>, p: Path, a: seq<string>, b: seq<string>)
    requires Lists(ls, fs) && IsDir(fs, p)
    ensures VisitEach(fs, ls, bad, p, a + b) == VisitEach(fs, ls, bad, p, a) + VisitEach(fs, ls, bad, p, b)
    decreases |a|
  {
    if a == [] {
      assert a + b == b;
    } else {
      assert (a + b)[1..] == a[1..] + b;
      VisitSplit(fs, ls, bad, p, a[1..], b);
      var first := [p + [a[0]]] + Visits(fs, ls, bad, p + [a[0]]);
      Assoc(first, VisitEach(fs, ls, bad, p, a[1..]), VisitEach(fs, ls, bad, p, b));
    }
  }

  /** The matches of a directory are those of its first entries, and more. */
  lemma MoreToCome(fs: FS, ls: Listing, bad: set<Path>, hit: string -> bool, dir: Path, i: nat)
    returns (rest: seq<Found>)
    requires Lists(ls, fs) && IsDir(fs, dir) && dir !in bad && i <= |ls(dir)|
    ensures Hits(fs, hit, Visits(fs, ls, bad, dir)) == HitsBy(fs, ls, bad, hit, dir, i) + rest
  {
    var names := ls(dir);
    assert names == names[..i] + names[i..];
    VisitSplit(fs, ls, bad, dir, names[..i], names[i..]);
    var more := VisitEach(fs, ls, bad, dir, names[i..]);
    assert Visits(fs, ls, bad, dir) == SeenBy(fs, ls, bad, dir, i) + more;
    HitsConcat(fs, hit, SeenBy(fs, ls, bad, dir, i), more);
    rest := Hits(fs, hit, more);
  }

  lemma SeenReach(fs: FS, ls: Listing, bad: set<Path>, dir: Path, i: nat)
    requires WellFormed(fs) && Lists(ls, fs) && IsDir(fs, dir) && dir !in bad && i <= |ls(dir)|
    ensures VisitsExactly(fs, bad, dir, ls(dir)[..i], SeenBy(fs, ls, bad, dir, i))
    ensures i < |ls(dir)| ==> ls(dir)[i] !in ls(dir)[..i]
  {
    var names := ls(dir)[..i];
    assert Distinct(ls(dir));
    assert forall n :: n in names ==> n in ls(dir);
    hide VisitEach, WellFormed, VisitsExactly, Below;
    EachReaches(fs, ls, bad, dir, names);
  }

  lemma HitsInside(fs: FS, bad: set<Path>, hit: string -> bool, dir: Path, names: seq<string>, seen: seq<Path>)
    requires VisitsExactly(fs, bad, dir, names, seen)
    ensures Inside(Hits(fs, hit, seen), dir, names)
  {
    HitsMembers(fs, hit, seen);
    var hits := Hits(fs, hit, seen);
    hide Hits, ParentsFirst;
    forall j | 0 <= j < |hits|
      ensures |dir| < |hits[j].path| && Under(dir, hits[j].path) && hits[j].path[|dir|] in names
    {
      assert hits[j] in hits && hits[j].path in seen;
    }
  }

  /** Where these matches lie. */
  lemma HitsLie(fs: FS, ls: Listing, bad: set<Path>, hit: string -> bool, dir: Path, i: nat)
    requires WellFormed(fs) && Lists(ls, fs) && IsDir(fs, dir) && dir !in bad && i <= |ls(dir)|
    ensures Inside(HitsBy(fs, ls, bad, hit, dir, i), dir, ls(dir)[..i])
    ensures i < |ls(dir)| ==> ls(dir)[i] !in ls(dir)[..i]
  {
    hide VisitsExactly, SeenBy, Inside, Hits;
    SeenReach(fs, ls, bad, dir, i);
    HitsInside(fs, bad, hit, dir, ls(dir)[..i], SeenBy(fs, ls, bad, dir, i));
  }

  lemma HitsBelow(fs: FS, ls: Listing, bad: set<Path>, hit: string -> bool, p: Path)
    requires WellFormed(fs) && Lists(ls, fs)
    ensures StrictlyBelow(Hits(fs, hit, Visits(fs, ls, bad, p)), p)
  {
    VisitsReach(fs, ls, bad, p);
    HitsMembers(fs, hit, Visits(fs, ls, bad, p));
    var hits := Hits(fs, hit, Visits(fs, ls, bad, p));
    hide Visits, Hits, WellFormed, Lists;
    forall j | 0 <= j < |hits| ensures |p| < |hits[j].path| && Under(p, hits[j].path) {
      assert hits[j] in hits;
      BelowRoot(fs, bad, p, hits[j].path);
    }
  }

  /** Recording the matches `b` of a subdirectory after `a`, from the state `a` left. */
  lemma Combine(before: seq<Found>, a: seq<Found>, b: seq<Found>, room: nat, p: Path, names: seq<string>, n: string)
    requires room == Room(|before|) > 0 && n !in names && StrictlyBelow(b, p + [n])
    requires Inside(a, p, names) || (a != [] && Inside(a[..|a| - 1], p, names) && a[|a| - 1].path == p + [n])
    ensures var now := before + FirstOf(a, room);
            var left := Room(|now|);
            && before + FirstOf(a + b, room) == now + FirstOf(b, left)
            && (Noticed(a + b, room) <==> Noticed(a, room) || Noticed(b, left))
            && (|a| <= room ==> left == room - |a|)
  {
    hide Noticed, Inside, StrictlyBelow, Under;
    if |a| < room {
      NoticedLater(a, b, room);
      RoomLeft(a, room);
      Assoc(before, a, FirstOf(b, room - |a|));
    } else {
      FullAlready(a, b, room, p, names, n);
      NoRoom(b);
      assert before + FirstOf(a, room) + [] == before + FirstOf(a, room);
    }
  }

  lemma NoRoom(b: seq<Found>)
    ensures FirstOf(b, 0) == [] && !Noticed(b, 0)
  {
  }

  lemma RoomForOne(before: seq<Found>, a: seq<Found>, here: seq<Found>, room: nat)
    requires |here| <= 1 && (here == [] || |a| < room)
    ensures (before + FirstOf(a, room)) + here == before + FirstOf(a + here, room)
    ensures Noticed(a + here, room) <==> Noticed(a, room)
  {
    if here == [] {
      assert a + here == a;
    } else {
      RoomLeft(a, room);
      RoomLeft(a + here, room);
    }
  }

  lemma InsideMore(a: seq<Found>, here: seq<Found>, p: Path, names: seq<string>, n: string)
    requires Inside(a, p, names) && |here| <= 1 && (here != [] ==> here[0].path == p + [n])
    ensures var b := a + here;
            Inside(b, p, names) || (b != [] && Inside(b[..|b| - 1], p, names) && b[|b| - 1].path == p + [n])
  {
    if here == [] {
      assert a + here == a;
    } else {
      assert (a + here)[..|a + here| - 1] == a;
    }
  }

  lemma Regroup(a: seq<Found>, f: Found, b: seq<Found>, rest: seq<Found>)
    ensures ((a + [f]) + b) + rest == a + ([f] + (b + rest))
  {
  }

  lemma InsideBelow(a: seq<Found>, p: Path, names: seq<string>)
    requires Inside(a, p, names)
    ensures StrictlyBelow(a, p)
  {
  }

  /** A match that the record has no room for is noticed, and nothing changes after it. */
  lemma Overflow(fs: FS, ls: Listing, bad: set<Path>, hit: string -> bool, dir: Path, i: nat, room: nat)
    requires WellFormed(fs) && Lists(ls, fs) && IsDir(fs, dir) && dir !in bad && i < |ls(dir)|
    requires hit(ls(dir)[i]) && 0 < room <= |HitsBy(fs, ls, bad, hit, dir, i)|
    ensures var all := Hits(fs, hit, Visits(fs, ls, bad, dir));
            && Noticed(all, room) && |all| >= room
            && FirstOf(all, room) == FirstOf(HitsBy(fs, ls, bad, hit, dir, i), room)
  {
    var a, c := HitsBy(fs, ls, bad, hit, dir, i), dir + [ls(dir)[i]];
    var b := Hits(fs, hit, Visits(fs, ls, bad, c));
    NextEntry(fs, ls, bad, hit, dir, i);
    HitsLie(fs, ls, bad, hit, dir, i);
    var rest := MoreToCome(fs, ls, bad, hit, dir, i + 1);
    hide Visits, VisitEach, HitsBy, SeenBy, Lists, WellFormed, Noticed, Hits, FirstOf;
    Regroup(a, Report(fs, c), b, rest);
    InsideBelow(a, dir, ls(dir)[..i]);
    hide Inside, StrictlyBelow, Under;
    NoticedHere(a, Report(fs, c), b + rest, room, dir);
  }

  /** What the record holds. */
  datatype Record = Record(matches: seq<Found>, truncated: bool, doneDirs: nat)

  predicate Full(r: Record) {
    r.truncated || |r.matches| >= MAX_RESULTS
  }

  predicate Bounded(r: Record) {
    |r.matches| <= MAX_RESULTS && (r.truncated ==> |r.matches| == MAX_RESULTS)
  }

  /** What becomes of the record `r0` when the matches `hits` and `dirs` directories are
      met: the first matches are added as long as there is room, `truncated` is set
      exactly if one more is noticed, and all directories are counted if there was
      room to spare. */
  ghost predicate Filled(r0: Record, hits: seq<Found>, dirs: nat, r: Record) {
    var room := Room(|r0.matches|);
    && Bounded(r)
    && r.matches == r0.matches + FirstOf(hits, room)
    && (r.truncated <==> r0.truncated || Noticed(hits, room))
    && (|hits| < room ==> r.doneDirs == r0.doneDirs + dirs)
  }

  /** The same when the walk comes past the entries `seen`. */
  ghost predicate After(fs: FS, hit: string -> bool, r0: Record, seen: seq<Path>, r: Record) {
    Filled(r0, Hits(fs, hit, seen), |DirsIn(fs, seen)|, r)
  }

  lemma AfterFull(fs: FS, hit: string -> bool, r: Record, seen: seq<Path>)
    requires Bounded(r) && Full(r)
    ensures After(fs, hit, r, seen, r)
  {
    NoRoom(Hits(fs, hit, seen));
    assert r.matches + [] == r.matches;
  }

  lemma AfterNothing(fs: FS, hit: string -> bool, r: Record)
    requires Bounded(r)
    ensures After(fs, hit, r, [], r)
  {
    RoomLeft([], Room(|r.matches|));
    assert r.matches + [] == r.matches;
  }

  /** The entry itself is recorded. */
  function Recorded(fs: FS, hit: string -> bool, dir: Path, n: string, r: Record): Record {
    r.(matches := if hit(n) then r.matches + [Report(fs, dir + [n])] else r.matches,
       doneDirs := r.doneDirs + if IsDir(fs, dir + [n]) then 1 else 0)
  }

  /** After `i` entries, the next one and everything below it. */
  lemma AfterEntry(fs: FS, ls: Listing, bad: set<Path>, hit: string -> bool, dir: Path, i: nat,
                   r0: Record, r: Record, r': Record)
    requires WellFormed(fs) && Lists(ls, fs) && IsDir(fs, dir) && dir !in bad && i < |ls(dir)|
    requires Bounded(r0) && !Full(r0)
    requires After(fs, hit, r0, SeenBy(fs, ls, bad, dir, i), r)
    requires hit(ls(dir)[i]) ==> |r.matches| < MAX_RESULTS
    requires var n := ls(dir)[i];
             var now := Recorded(fs, hit, dir, n, r);
             if IsDir(fs, dir + [n]) then After(fs, hit, now, Visits(fs, ls, bad, dir + [n]), r') else r' == now
    ensures After(fs, hit, r0, SeenBy(fs, ls, bad, dir, i + 1), r')
  {
    if IsDir(fs, dir + [ls(dir)[i]]) {
      AfterBoth(fs, ls, bad, hit, dir, i, r0, r, r');
    } else {
      assert Bounded(r') by { hide Visits, VisitEach, Noticed; }
      AfterNothing(fs, hit, r');
      AfterBoth(fs, ls, bad, hit, dir, i, r0, r, r');
    }
  }

  lemma AfterBoth(fs: FS, ls: Listing, bad: set<Path>, hit: string -> bool, dir: Path, i: nat,
                  r0: Record, r: Record, r': Record)
    requires WellFormed(fs) && Lists(ls, fs) && IsDir(fs, dir) && dir !in bad && i < |ls(dir)|
    requires Bounded(r0) && !Full(r0)
    requires After(fs, hit, r0, SeenBy(fs, ls, bad, dir, i), r)
    requires hit(ls(dir)[i]) ==> |r.matches| < MAX_RESULTS
    requires var n := ls(dir)[i];
             After(fs, hit, Recorded(fs, hit, dir, n, r), Visits(fs, ls, bad, dir + [n]), r')
    ensures After(fs, hit, r0, SeenBy(fs, ls, bad, dir, i + 1), r')
  {
    var n := ls(dir)[i];
    var a, here := HitsBy(fs, ls, bad, hit, dir, i), Here(fs, hit, dir, n);
    var b := Hits(fs, hit, Visits(fs, ls, bad, dir + [n]));
    NextEntry(fs, ls, bad, hit, dir, i);
    HitsLie(fs, ls, bad, hit, dir, i);
    HitsBelow(fs, ls, bad, hit, dir + [n]);
    HereIs(fs, hit, dir, n);
    var self := if IsDir(fs, dir + [n]) then 1 else 0;
    assert Recorded(fs, hit, dir, n, r) == r.(matches := r.matches + here, doneDirs := r.doneDirs + self);
    hide Visits, SeenBy, Lists, WellFormed, Filled, Full, Bounded, Hits, DirsIn, Inside, StrictlyBelow, Under,
         Here, Recorded, IsDir, Room;
    FilledTwice(r0, a, |DirsIn(fs, SeenBy(fs, ls, bad, dir, i))|, r, here, self, b,
                |DirsIn(fs, Visits(fs, ls, bad, dir + [n]))|, r', dir, ls(dir)[..i], n);
  }

  /** First the matches `a` among the entries `names` of `dir`, then that of the next
      entry `n`, if it is one, then those below it. */
  lemma FilledTwice(r0: Record, a: seq<Found>, before: nat, r: Record, here: seq<Found>, self: nat,
                    b: seq<Found>, below: nat, r': Record, dir: Path, names: seq<string>, n: string)
    requires Bounded(r0) && !Full(r0) && Filled(r0, a, before, r)
    requires |here| <= 1 && (here != [] ==> here[0].path == dir + [n] && |r.matches| < MAX_RESULTS)
    requires Filled(r.(matches := r.matches + here, doneDirs := r.doneDirs + self), b, below, r')
    requires n !in names && Inside(a, dir, names) && StrictlyBelow(b, dir + [n])
    ensures Filled(r0, (a + here) + b, before + self + below, r')
  {
    var room := Room(|r0.matches|);
    assert here != [] ==> |a| < room by { hide Noticed, Inside, StrictlyBelow; }
    RoomForOne(r0.matches, a, here, room);
    InsideMore(a, here, dir, names, n);
    Combine(r0.matches, a + here, b, room, dir, names, n);
    hide Noticed, FirstOf, Inside, StrictlyBelow, Under;
  }

  lemma AfterOverflow(fs: FS, ls: Listing, bad: set<Path>, hit: string -> bool, dir: Path, i: nat,
                      r0: Record, r: Record)
    requires WellFormed(fs) && Lists(ls, fs) && IsDir(fs, dir) && dir !in bad && i < |ls(dir)|
    requires Bounded(r0) && !Full(r0)
    requires After(fs, hit, r0, SeenBy(fs, ls, bad, dir, i), r)
    requires hit(ls(dir)[i]) && |r.matches| >= MAX_RESULTS
    ensures After(fs, hit, r0, Visits(fs, ls, bad, dir), r.(truncated := true))
  {
    var room := Room(|r0.matches|);
    assert room <= |HitsBy(fs, ls, bad, hit, dir, i)| by { hide Visits, VisitEach, Noticed; }
    Overflow(fs, ls, bad, hit, dir, i, room);
    hide Visits, VisitEach, SeenBy, Lists, WellFormed, Noticed, Hits, DirsIn, FirstOf;
  }

  /** The record that is shared with the UI. */
  class Search {
    var matches: seq<Found>
    var truncated: bool
    var doneDirs: nat
    var done: bool

    constructor ()
      ensures Now() == Record([], false, 0) && !done
    {
      matches, truncated, doneDirs, done := [], false, 0, false;
    }

    ghost function Now(): Record
      reads this
    {
      Record(matches, truncated, doneDirs)
    }

    /** `walk_search`: a full record ends the walk of a directory before it begins, and a
        match that finds it full ends the loop over its directory, but no other. */
    method WalkSearch(fs: FS, ls: Listing, bad: set<Path>, hit: string -> bool, dir: Path)
      requires WellFormed(fs) && Lists(ls, fs) && Bounded(Now())
      modifies this
      ensures done == old(done)
      ensures After(fs, hit, old(Now()), Visits(fs, ls, bad, dir), Now()) && Bounded(Now())
      decreases Below(fs, dir), 1
    {
      if truncated || |matches| >= MAX_RESULTS {
        AfterFull(fs, hit, Now(), Visits(fs, ls, bad, dir));
        return;
      }
      if !IsDir(fs, dir) || dir in bad {
        AfterNothing(fs, hit, Now());
        return;
      }
      var names := ls(dir);
      StartOfDir(fs, ls, bad, hit, dir);
      AfterNothing(fs, hit, Now());
      hide Visits, SeenBy, Lists, WellFormed, After, Below, Under, Hits, Report;
      for i := 0 to |names|
        invariant done == old(done) && Bounded(Now())
        invariant After(fs, hit, old(Now()), SeenBy(fs, ls, bad, dir, i), Now())
      {
        ghost var r := Now();
        var full := WalkEntry(fs, ls, bad, hit, dir, names[i]);
        if full {
          AfterOverflow(fs, ls, bad, hit, dir, i, old(Now()), r);
          return;
        }
        AfterEntry(fs, ls, bad, hit, dir, i, old(Now()), r, Now());
      }
    }

    /** One turn of that loop; `full` says that it ends it. */
    method WalkEntry(fs: FS, ls: Listing, bad: set<Path>, hit: string -> bool, dir: Path, n: string)
      returns (full: bool)
      requires WellFormed(fs) && Lists(ls, fs) && Bounded(Now()) && IsDir(fs, dir) && dir + [n] in fs
      modifies this
      ensures done == old(done) && Bounded(Now())
      ensures full <==> hit(n) && |old(matches)| >= MAX_RESULTS
      ensures full ==> Now() == old(Now()).(truncated := true)
      ensures !full ==>
                var r := Recorded(fs, hit, dir, n, old(Now()));
                if IsDir(fs, dir + [n]) then After(fs, hit, r, Visits(fs, ls, bad, dir + [n]), Now()) else Now() == r
      decreases Below(fs, dir), 0
    {
      var path := dir + [n];
      BelowChild(fs, dir, n);
      hide Visits, Lists, WellFormed, After, Below, Under, Hits;
      if hit(n) {
        if |matches| >= MAX_RESULTS {
          truncated := true;
          return true;
        }
        matches := matches + [Report(fs, path)];
      }
      assert Bounded(Now());
      if IsDir(fs, path) {
        doneDirs := doneDirs + 1;
        assert Now() == Recorded(fs, hit, dir, n, old(Now()));
        WalkSearch(fs, ls, bad, hit, path);
      }
      return false;
    }
  }
}
