/** A whole search: the walk, then sorting what it found by path. */
module SearchRun {
  import opened FileSystem
  import opened TreeWalk
  import opened SearchWalk
  import opened Padding
  import opened PathText

  predicate AtMost(a: Found, b: Found) {
    !Less(Text(b.path), Text(a.path))
  }

  ghost predicate Sorted(s: seq<Found>) {
    forall i, j :: 0 <= i < j < |s| ==> AtMost(s[i], s[j])
  }

  lemma {:induction false} LessTransitive(a: string, b: string, c: string)
    requires !Less(b, a) && !Less(c, b)
    ensures !Less(c, a)
  {
    if a != [] && c != [] && b != [] && a[0] == b[0] == c[0] {
      LessTransitive(a[1..], b[1..], c[1..]);
    }
  }

  /** Stable insertion: before the first that is greater. */
  function Insert(x: Found, s: seq<Found>): (r: seq<Found>)
    ensures |r| == |s| + 1
  {
    if s == [] then [x]
    else if Less(Text(s[0].path), Text(x.path)) then [s[0]] + Insert(x, s[1..])
    else [x] + s
  }

  /** The order `sort_by` on the path text leaves the matches in. */
  function Sort(s: seq<Found>): (r: seq<Found>)
    ensures |r| == |s|
  {
    if s == [] then [] else Insert(s[0], Sort(s[1..]))
  }

  lemma {:induction false} InsertKeeps(x: Found, s: seq<Found>)
    ensures multiset(Insert(x, s)) == multiset(s) + multiset{x}
    ensures forall y :: y in Insert(x, s) ==> y == x || y in s
  {
    if s != [] {
      assert s == [s[0]] + s[1..];
      InsertKeeps(x, s[1..]);
    }
  }

  lemma SortedFront(a: Found, r: seq<Found>)
    requires Sorted(r) && forall y :: y in r ==> AtMost(a, y)
    ensures Sorted([a] + r)
  {
    hide AtMost;
    var s := [a] + r;
    forall i, j | 0 <= i < j < |s| ensures AtMost(s[i], s[j]) {
      assert s[j] == r[j - 1] && r[j - 1] in r;
      if i > 0 { assert AtMost(r[i - 1], r[j - 1]); }
    }
  }

  lemma FrontAtMost(s: seq<Found>, y: Found)
    requires Sorted(s) && s != [] && y in s[1..]
    ensures AtMost(s[0], y)
  {
    var k :| 0 <= k < |s[1..]| && s[1..][k] == y;
    assert s[k + 1] == y;
  }

  lemma {:induction false} InsertSorted(x: Found, s: seq<Found>)
    requires Sorted(s)
    ensures Sorted(Insert(x, s))
  {
    if s != [] {
      if Less(Text(s[0].path), Text(x.path)) {
        InsertSorted(x, s[1..]);
        InsertKeeps(x, s[1..]);
        LessIrreflexive(Text(s[0].path), Text(x.path));
        var r := Insert(x, s[1..]);
        forall y | y in r ensures AtMost(s[0], y) {
          if y != x { FrontAtMost(s, y); }
        }
        SortedFront(s[0], r);
      } else {
        forall y | y in s ensures AtMost(x, y) {
          if y != s[0] {
            assert s == [s[0]] + s[1..];
            FrontAtMost(s, y);
            LessTransitive(Text(x.path), Text(s[0].path), Text(y.path));
          }
        }
        SortedFront(x, s);
      }
    }
  }

  lemma {:induction false} SortSorts(s: seq<Found>)
    ensures Sorted(Sort(s)) && multiset(Sort(s)) == multiset(s)
  {
    if s != [] {
      SortSorts(s[1..]);
      InsertKeeps(s[0], Sort(s[1..]));
      InsertSorted(s[0], Sort(s[1..]));
      assert s == [s[0]] + s[1..];
    }
  }

  const NEW := Record([], false, 0)

  /** Nothing is found twice. */
  ghost predicate NoRepeats(s: seq<Found>) {
    forall i, j :: 0 <= i < j < |s| ==> s[i].path != s[j].path
  }

  /** All there is to find below `root`: every entry with a matching name that can be
      got to, in the order of the walk. */
  function AllHits(fs: FS, ls: Listing, bad: set<Path>, hit: string -> bool, root: Path): seq<Found>
    requires Lists(ls, fs)
  {
    Hits(fs, hit, Visits(fs, ls, bad, root))
  }

  /** Which those are, without the walk: independent of the order of the listing. */
  lemma AllHitsMeans(fs: FS, ls: Listing, bad: set<Path>, hit: string -> bool, root: Path)
    requires WellFormed(fs) && Lists(ls, fs)
    ensures var all := AllHits(fs, ls, bad, hit, root);
            && (forall f :: f in all <==>
                  Reaches(fs, bad, root, f.path) && f == Report(fs, f.path) && hit(f.path[|f.path| - 1]))
            && NoRepeats(all)
  {
    var s := Visits(fs, ls, bad, root);
    VisitsReach(fs, ls, bad, root);
    HitsMembers(fs, hit, s);
    HitsDistinct(fs, hit, s);
    hide Visits, Hits, Lists, WellFormed, ParentsFirst;
    forall f: Found | Reaches(fs, bad, root, f.path) ensures f.path != [] {}
  }

  /** When the directories can all be listed the walk is the plain preorder. */
  lemma {:induction false} VisitsArePreorder(fs: FS, ls: Listing, p: Path)
    requires Lists(ls, fs) && IsDir(fs, p)
    ensures [p] + Visits(fs, ls, {}, p) == Preorder(fs, ls, p)
    decreases Below(fs, p), 1, 0
  {
    EachIsEntries(fs, ls, p, ls(p));
  }

  lemma {:induction false} EachIsEntries(fs: FS, ls: Listing, p: Path, names: seq<string>)
    requires Lists(ls, fs) && IsDir(fs, p) && forall n :: n in names ==> n in ls(p)
    ensures VisitEach(fs, ls, {}, p, names) == Entries(fs, ls, p, names)
    decreases Below(fs, p), 0, |names|
  {
    if names != [] {
      var c := p + [names[0]];
      assert names[0] in ls(p) && c in fs;
      hide Lists, Below;
      BelowChild(fs, p, names[0]);
      if IsDir(fs, c) {
        VisitsArePreorder(fs, ls, c);
      }
      EachIsEntries(fs, ls, p, names[1..]);
    }
  }

  /** What a finished walk has found: the first matches up to the limit.  With fewer
      than the limit that is all of them, and `truncated` says that there are more;
      it is set exactly if a later match lies in a directory above the last place. */
  lemma SearchFinds(fs: FS, ls: Listing, bad: set<Path>, hit: string -> bool, root: Path, r: Record)
    requires WellFormed(fs) && Lists(ls, fs)
    requires After(fs, hit, NEW, Visits(fs, ls, bad, root), r)
    ensures var all := AllHits(fs, ls, bad, hit, root);
            && r.matches == all[..if |all| < MAX_RESULTS then |all| else MAX_RESULTS]
            && NoRepeats(r.matches)
            && (|r.matches| < MAX_RESULTS ==>
                  r.matches == all && !r.truncated && r.doneDirs == |DirsIn(fs, Visits(fs, ls, bad, root))|)
            && (r.truncated ==> |r.matches| == MAX_RESULTS < |all|)
            && (r.truncated <==> exists j :: NoticedAt(all, MAX_RESULTS, j))
  {
    AllHitsMeans(fs, ls, bad, hit, root);
    var all := AllHits(fs, ls, bad, hit, root);
    hide Visits, Hits, Lists, WellFormed, NoticedAt;
    assert Room(|NEW.matches|) == MAX_RESULTS;
    assert [] + FirstOf(all, MAX_RESULTS) == FirstOf(all, MAX_RESULTS);
    NoticedBeyond(all);
  }

  lemma NoticedBeyond(all: seq<Found>)
    ensures Noticed(all, MAX_RESULTS) ==> |all| > MAX_RESULTS
  {
  }

  /** `run_search`: walks, then sorts by path. */
  method RunSearch(fs: FS, ls: Listing, bad: set<Path>, hit: string -> bool, root: Path) returns (s: Search)
    requires WellFormed(fs) && Lists(ls, fs)
    ensures fresh(s) && s.done
    ensures var all := AllHits(fs, ls, bad, hit, root);
            && Sorted(s.matches)
            && multiset(s.matches) == multiset(FirstOf(all, MAX_RESULTS))
            && (s.truncated <==> exists j :: NoticedAt(all, MAX_RESULTS, j))
  {
    hide Visits, Hits, Lists, WellFormed, NoticedAt, After, Sort, Sorted, AllHits;
    s := new Search();
    s.WalkSearch(fs, ls, bad, hit, root);
    SearchFinds(fs, ls, bad, hit, root, s.Now());
    SortSorts(s.matches);
    assert s.matches == FirstOf(AllHits(fs, ls, bad, hit, root), MAX_RESULTS);
    s.matches := Sort(s.matches);
    s.done := true;
  }
}
