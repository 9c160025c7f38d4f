/** In which order the walk yields what it finds. */
module GlobOrder {
  import opened Basics
  import opened GlobWalk
  import opened GlobProofs

  /** Where a name stands in a directory's listing. */
  function Position(entries: seq<Entry>, name: string): nat {
    if entries == [] || entries[0].name == name then 0 else 1 + Position(entries[1..], name)
  }

  function Listing(g: Graph, dir: DirKey): seq<Entry> {
    if dir in g && g[dir].Readable? then g[dir].entries else []
  }

  /** `**` finds the path without descending. */
  predicate Here(g: Graph, m: Segments, dir: DirKey, parts: seq<string>, visited: set<DirKey>, path: Path)
    requires parts != []
  {
    if |parts| == 1 then path == [] else Found(g, m, Some(dir), parts[1..], visited, path)
  }

  /**
   Which of two paths comes first: what `**` finds without descending comes before what it finds by descending;
   otherwise the listing decides between different first names, and the directory below between equal ones.
   */
  predicate Before(g: Graph, m: Segments, dir: DirKey, parts: seq<string>, visited: set<DirKey>, p: Path, q: Path)
    requires parts != []
    decreases |p| + |parts|, 1
  {
    if parts[0] == "**" && Here(g, m, dir, parts, visited, p) then
      !Here(g, m, dir, parts, visited, q) || (|parts| > 1 && Before(g, m, dir, parts[1..], visited, p, q))
    else
      && !(parts[0] == "**" && Here(g, m, dir, parts, visited, q))
      && BeforeBelow(g, m, dir, if parts[0] == "**" then parts else parts[1..], visited, p, q)
  }

  /** The same for paths that descend; `next` is what is left of the pattern then. */
  predicate BeforeBelow(g: Graph, m: Segments, dir: DirKey, next: seq<string>, visited: set<DirKey>, p: Path, q: Path)
    decreases |p| + |next|, 0
  {
    && p != [] && q != []
    && if p[0] != q[0] then Position(Listing(g, dir), p[0]) < Position(Listing(g, dir), q[0])
       else
         && next != []
         && var child := Child(g, Some(dir), p[0]);
         && child.Some? && child.value.Directory?
         && var key := child.value.key;
         && Before(g, m, key, next, if key.Inodeless? then visited else visited + {key}, p[1..], q[1..])
  }

  predicate InOrder(g: Graph, m: Segments, dir: DirKey, parts: seq<string>, visited: set<DirKey>, paths: seq<Path>)
    requires parts != []
  {
    forall i, j :: 0 <= i < j < |paths| ==> Before(g, m, dir, parts, visited, paths[i], paths[j])
  }

  predicate InOrderBelow(g: Graph, m: Segments, dir: DirKey, next: seq<string>, visited: set<DirKey>,
                         paths: seq<Path>) {
    forall i, j :: 0 <= i < j < |paths| ==> BeforeBelow(g, m, dir, next, visited, paths[i], paths[j])
  }

  lemma {:induction false} PositionIs(entries: seq<Entry>, n: nat)
    requires n < |entries| && DistinctNames(entries)
    ensures Position(entries, entries[n].name) == n
  {
    if n > 0 {
      assert entries[0].name != entries[n].name;
      PositionIs(entries[1..], n - 1);
    }
  }

  lemma ChildAt(g: Graph, dir: DirKey, n: nat)
    requires Good(g) && n < |Listing(g, dir)|
    ensures Child(g, Some(dir), Listing(g, dir)[n].name) == Some(Listing(g, dir)[n].target)
    ensures Listing(g, dir)[n].target.Directory? ==> Listing(g, dir)[n].target.key in g
  {
    LookupFinds(Listing(g, dir), n);
  }

  /** Below one entry the order is that of the directory it leads to. */
  lemma UnderInOrder(g: Graph, m: Segments, dir: DirKey, n: nat, next: seq<string>, visited: set<DirKey>,
                     paths: seq<Path>)
    requires Good(g) && n < |Listing(g, dir)| && Listing(g, dir)[n].target.Directory? && next != []
    requires var key := Listing(g, dir)[n].target.key;
             InOrder(g, m, key, next, Mark(visited, key), paths)
    ensures InOrderBelow(g, m, dir, next, visited, Under(Listing(g, dir)[n].name, paths))
  {
    var e := Listing(g, dir)[n];
    var all := Under(e.name, paths);
    ChildAt(g, dir, n);
    hide Child, Before, Good, Listing;
    forall i, j | 0 <= i < j < |all| ensures BeforeBelow(g, m, dir, next, visited, all[i], all[j]) {
      assert all[i][1..] == paths[i] && all[j][1..] == paths[j];
      assert Before(g, m, e.target.key, next, Mark(visited, e.target.key), paths[i], paths[j]);
    }
  }

  lemma EntryInOrder(g: Graph, m: Segments, dir: DirKey, n: nat, parts: seq<string>, visited: set<DirKey>)
    requires Good(g) && NamesOnce(g) && parts != [] && Stars(parts) <= 1 && n < |Listing(g, dir)|
    requires Listing(g, dir)[n].target.Directory? ==> Listing(g, dir)[n].target.key in g
    ensures parts[0] == "**" ==>
              InOrderBelow(g, m, dir, parts, visited, Deep(g, m, Listing(g, dir)[n], parts, visited))
    ensures parts[0] != "**" ==>
              InOrderBelow(g, m, dir, parts[1..], visited, Named(g, m, Listing(g, dir)[n], parts, visited))
    decreases g.Keys - visited, DepthsOf(g, Listing(g, dir)[n].target), |parts|, 0
  {
    var e := Listing(g, dir)[n];
    if Enters(e.target, visited) {
      var key := e.target.key;
      EntersDeeper(g, e.target, visited);
      hide Before, Good, Depths, DepthsOf, Listing, Walk, Under;
      if parts[0] == "**" {
        WalkInOrder(g, m, key, parts, Mark(visited, key));
        UnderInOrder(g, m, dir, n, parts, visited, Walk(g, m, Some(key), parts, Mark(visited, key)));
      } else if |parts| > 1 {
        WalkInOrder(g, m, key, parts[1..], Mark(visited, key));
        UnderInOrder(g, m, dir, n, parts[1..], visited, Walk(g, m, Some(key), parts[1..], Mark(visited, key)));
      }
    }
  }

  /** Every path found under some entries begins with the name of one of them. */
  lemma FirstNames(g: Graph, m: Segments, dir: DirKey, n: nat, parts: seq<string>, visited: set<DirKey>, path: Path)
    requires Good(g) && NamesOnce(g) && parts != [] && n <= |Listing(g, dir)| && GoodEntries(g, Listing(g, dir)[..n])
    requires || path in WalkAll(g, m, Listing(g, dir)[..n], parts, visited)
             || path in WalkMatching(g, m, Listing(g, dir)[..n], parts, visited)
    ensures path != [] && Position(Listing(g, dir), path[0]) < n
  {
    var entries := Listing(g, dir)[..n];
    InEntries(g, m, entries, parts, visited, path);
    hide WalkAll, WalkMatching, ViaDeep, ViaNamed, Good, Position;
    var i :| 0 <= i < |entries| && entries[i] == Entry(path[0], Lookup(entries, path[0]).value);
    PositionIs(Listing(g, dir), i);
  }

  lemma EntryName(g: Graph, m: Segments, e: Entry, parts: seq<string>, visited: set<DirKey>, path: Path)
    requires Good(g) && parts != [] && (e.target.Directory? ==> e.target.key in g)
    requires path in Deep(g, m, e, parts, visited) || path in Named(g, m, e, parts, visited)
    ensures path != [] && path[0] == e.name
  {
    InEntry(g, m, e, parts, visited, path);
    hide Deep, Named;
  }

  lemma JoinInOrder(g: Graph, m: Segments, dir: DirKey, next: seq<string>, visited: set<DirKey>, n: nat,
                    front: seq<Path>, back: seq<Path>)
    requires n < |Listing(g, dir)| && DistinctNames(Listing(g, dir))
    requires InOrderBelow(g, m, dir, next, visited, front) && InOrderBelow(g, m, dir, next, visited, back)
    requires forall path :: path in front ==> path != [] && Position(Listing(g, dir), path[0]) < n
    requires forall path :: path in back ==> path != [] && path[0] == Listing(g, dir)[n].name
    ensures InOrderBelow(g, m, dir, next, visited, front + back)
  {
    PositionIs(Listing(g, dir), n);
    hide Before, Position, Listing, Child;
    var all := front + back;
    forall i, j | 0 <= i < j < |all| ensures BeforeBelow(g, m, dir, next, visited, all[i], all[j]) {
      if j < |front| {
        assert BeforeBelow(g, m, dir, next, visited, front[i], front[j]);
      } else if i >= |front| {
        assert BeforeBelow(g, m, dir, next, visited, back[i - |front|], back[j - |front|]);
      } else {
        assert front[i] in front && back[j - |front|] in back;
      }
    }
  }

  lemma OneMoreDeep(g: Graph, m: Segments, dir: DirKey, n: nat, parts: seq<string>, visited: set<DirKey>)
    requires Good(g) && NamesOnce(g) && parts != [] && n < |Listing(g, dir)| && GoodEntries(g, Listing(g, dir))
    requires DistinctNames(Listing(g, dir))
        && (Listing(g, dir)[n].target.Directory? ==> Listing(g, dir)[n].target.key in g)
    requires GoodEntries(g, Listing(g, dir)[..n]) && GoodEntries(g, Listing(g, dir)[..n + 1])
    requires InOrderBelow(g, m, dir, parts, visited, WalkAll(g, m, Listing(g, dir)[..n], parts, visited))
    requires InOrderBelow(g, m, dir, parts, visited, Deep(g, m, Listing(g, dir)[n], parts, visited))
    ensures InOrderBelow(g, m, dir, parts, visited, WalkAll(g, m, Listing(g, dir)[..n + 1], parts, visited))
  {
    var entries := Listing(g, dir);
    hide *;
    var a, b := WalkAll(g, m, entries[..n], parts, visited), Deep(g, m, entries[n], parts, visited);
    OneMoreEntry(g, m, entries, n, parts, visited);
    forall path | path in a ensures path != [] && Position(entries, path[0]) < n {
      FirstNames(g, m, dir, n, parts, visited, path);
    }
    forall path | path in b ensures path != [] && path[0] == entries[n].name {
      EntryName(g, m, entries[n], parts, visited, path);
    }
    JoinInOrder(g, m, dir, parts, visited, n, a, b);
  }

  lemma OneMoreNamed(g: Graph, m: Segments, dir: DirKey, n: nat, parts: seq<string>, visited: set<DirKey>)
    requires Good(g) && NamesOnce(g) && parts != [] && n < |Listing(g, dir)| && GoodEntries(g, Listing(g, dir))
    requires DistinctNames(Listing(g, dir))
        && (Listing(g, dir)[n].target.Directory? ==> Listing(g, dir)[n].target.key in g)
    requires GoodEntries(g, Listing(g, dir)[..n]) && GoodEntries(g, Listing(g, dir)[..n + 1])
    requires InOrderBelow(g, m, dir, parts[1..], visited, WalkMatching(g, m, Listing(g, dir)[..n], parts, visited))
    requires InOrderBelow(g, m, dir, parts[1..], visited, Named(g, m, Listing(g, dir)[n], parts, visited))
    ensures InOrderBelow(g, m, dir, parts[1..], visited, WalkMatching(g, m, Listing(g, dir)[..n + 1], parts, visited))
  {
    var entries := Listing(g, dir);
    hide *;
    var a, b := WalkMatching(g, m, entries[..n], parts, visited), Named(g, m, entries[n], parts, visited);
    OneMoreEntry(g, m, entries, n, parts, visited);
    forall path | path in a ensures path != [] && Position(entries, path[0]) < n {
      FirstNames(g, m, dir, n, parts, visited, path);
    }
    forall path | path in b ensures path != [] && path[0] == entries[n].name {
      EntryName(g, m, entries[n], parts, visited, path);
    }
    JoinInOrder(g, m, dir, parts[1..], visited, n, a, b);
  }

  lemma {:induction false} EntriesInOrder(g: Graph, m: Segments, dir: DirKey, n: nat, parts: seq<string>,
                                          visited: set<DirKey>)
    requires Good(g) && NamesOnce(g) && parts != [] && Stars(parts) <= 1 && n <= |Listing(g, dir)|
    requires GoodEntries(g, Listing(g, dir)) && DistinctNames(Listing(g, dir))
    requires GoodEntries(g, Listing(g, dir)[..n])
    ensures parts[0] == "**" ==>
              InOrderBelow(g, m, dir, parts, visited, WalkAll(g, m, Listing(g, dir)[..n], parts, visited))
    ensures parts[0] != "**" ==>
              InOrderBelow(g, m, dir, parts[1..], visited, WalkMatching(g, m, Listing(g, dir)[..n], parts, visited))
    decreases g.Keys - visited, Depths(g, Listing(g, dir)), |parts|, 1, n
  {
    if n == 0 {
      NothingInOrder(g, m, dir, parts, visited);
    } else {
      OneMoreEntry(g, m, Listing(g, dir), n - 1, parts, visited);
      hide *;
      EntriesInOrder(g, m, dir, n - 1, parts, visited);
      EntryInOrder(g, m, dir, n - 1, parts, visited);
      if parts[0] == "**" {
        OneMoreDeep(g, m, dir, n - 1, parts, visited);
      } else {
        OneMoreNamed(g, m, dir, n - 1, parts, visited);
      }
    }
  }

  lemma NothingInOrder(g: Graph, m: Segments, dir: DirKey, parts: seq<string>, visited: set<DirKey>)
    requires Good(g) && parts != [] && GoodEntries(g, Listing(g, dir)[..0])
    ensures InOrderBelow(g, m, dir, parts, visited, WalkAll(g, m, Listing(g, dir)[..0], parts, visited))
    ensures InOrderBelow(g, m, dir, parts[1..], visited, WalkMatching(g, m, Listing(g, dir)[..0], parts, visited))
  {
    assert Listing(g, dir)[..0] == [];
    WalkBy(g, m, None, parts, visited);
  }

  lemma ListingIsRead(g: Graph, dir: DirKey)
    requires Good(g) && NamesOnce(g)
    ensures EntriesOf(g, Some(dir)) == Listing(g, dir)
    ensures GoodEntries(g, Listing(g, dir)) && DistinctNames(Listing(g, dir))
  {
  }

  /** What `**` finds by descending it does not find without. */
  lemma DeeperIsNotHere(g: Graph, m: Segments, dir: DirKey, parts: seq<string>, visited: set<DirKey>, path: Path)
    requires Good(g) && NamesOnce(g) && parts != [] && parts[0] == "**" && Stars(parts) <= 1
    requires GoodEntries(g, EntriesOf(g, Some(dir)))
    requires path in WalkAll(g, m, EntriesOf(g, Some(dir)), parts, visited)
    ensures !Here(g, m, dir, parts, visited, path)
  {
    DeeperIsLonger(g, m, EntriesOf(g, Some(dir)), parts, visited, path);
    if |parts| > 1 && Here(g, m, dir, parts, visited, path) {
      WalkIsExact(g, m, Some(dir), parts[1..], visited, path);
      LengthsFit(g, m, Some(dir), parts[1..], visited, path);
    }
    hide WalkAll, Found, Good;
  }

  lemma HereThenDeeper(g: Graph, m: Segments, dir: DirKey, parts: seq<string>, visited: set<DirKey>,
                       here: seq<Path>, deeper: seq<Path>)
    requires parts != [] && parts[0] == "**"
    requires forall path :: path in here ==> Here(g, m, dir, parts, visited, path)
    requires forall path :: path in deeper ==> !Here(g, m, dir, parts, visited, path)
    requires if |parts| == 1 then |here| <= 1 else InOrder(g, m, dir, parts[1..], visited, here)
    requires InOrderBelow(g, m, dir, parts, visited, deeper)
    ensures InOrder(g, m, dir, parts, visited, here + deeper)
  {
    hide Here, BeforeBelow;
    var all := here + deeper;
    forall i, j | 0 <= i < j < |all| ensures Before(g, m, dir, parts, visited, all[i], all[j]) {
      if j < |here| {
        assert here[i] in here && here[j] in here;
        assert Before(g, m, dir, parts[1..], visited, here[i], here[j]);
      } else if i >= |here| {
        assert deeper[i - |here|] in deeper && deeper[j - |here|] in deeper;
        assert BeforeBelow(g, m, dir, parts, visited, deeper[i - |here|], deeper[j - |here|]);
      } else {
        assert here[i] in here && deeper[j - |here|] in deeper;
      }
    }
  }

  lemma NamedInOrder(g: Graph, m: Segments, dir: DirKey, parts: seq<string>, visited: set<DirKey>, paths: seq<Path>)
    requires parts != [] && parts[0] != "**" && InOrderBelow(g, m, dir, parts[1..], visited, paths)
    ensures InOrder(g, m, dir, parts, visited, paths)
  {
    hide Here, BeforeBelow;
  }

  /** With at most one `**` the walk yields its paths in that order, whatever cycles there are. */
  lemma {:induction false} WalkInOrder(g: Graph, m: Segments, dir: DirKey, parts: seq<string>, visited: set<DirKey>)
    requires Good(g) && NamesOnce(g) && parts != [] && Stars(parts) <= 1
    ensures InOrder(g, m, dir, parts, visited, Walk(g, m, Some(dir), parts, visited))
    decreases g.Keys - visited, Depths(g, EntriesOf(g, Some(dir))), |parts|, 2
  {
    var entries := Listing(g, dir);
    ListingIsRead(g, dir);
    assert entries[..|entries|] == entries;
    WalkBy(g, m, Some(dir), parts, visited);
    EntriesInOrder(g, m, dir, |entries|, parts, visited);
    hide Walk, WalkAll, WalkMatching, Good, Before, BeforeBelow, Here, InOrderBelow, Listing, Found;
    if parts[0] == "**" {
      var here := if |parts| > 1 then Walk(g, m, Some(dir), parts[1..], visited) else [[]];
      var deeper := WalkAll(g, m, entries, parts, visited);
      if |parts| > 1 { WalkInOrder(g, m, dir, parts[1..], visited); }
      forall path | path in here ensures Here(g, m, dir, parts, visited, path) {
        FoundHere(g, m, dir, parts, visited, path);
      }
      forall path | path in deeper ensures !Here(g, m, dir, parts, visited, path) {
        DeeperIsNotHere(g, m, dir, parts, visited, path);
      }
      HereThenDeeper(g, m, dir, parts, visited, here, deeper);
    } else {
      NamedInOrder(g, m, dir, parts, visited, WalkMatching(g, m, entries, parts, visited));
    }
  }

  lemma FoundHere(g: Graph, m: Segments, dir: DirKey, parts: seq<string>, visited: set<DirKey>, path: Path)
    requires Good(g) && parts != []
    requires path in if |parts| > 1 then Walk(g, m, Some(dir), parts[1..], visited) else [[]]
    ensures Here(g, m, dir, parts, visited, path)
  {
    if |parts| > 1 { WalkIsExact(g, m, Some(dir), parts[1..], visited, path); }
    hide Walk, Found;
  }
}
