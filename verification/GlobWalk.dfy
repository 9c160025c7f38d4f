/** The recursive glob walk over a directory graph that may contain symlink cycles. */
module GlobWalk {
  import opened Basics

  type Ino = n: int | n != 0 witness 1

  /**
   What identifies a directory, however it was reached.  On filesystems without inodes `stat` reports 0 for
   every directory; `node` tells those apart here, but the walk cannot see it.
   */
  datatype DirKey = Known(dev: int, ino: Ino) | Inodeless(dev: int, node: nat)

  /** What `stat` says about an entry; it follows symlinks and may fail. */
  datatype Target = Directory(key: DirKey) | File | Broken
  datatype Entry = Entry(name: string, target: Target)
  datatype Listing = Unreadable | Readable(entries: seq<Entry>)
  type Graph = map<DirKey, Listing>

  /** Names of one path, from the directory the walk started in. */
  type Path = seq<string>

  /** Whether a pattern segment matches an entry name. */
  type Segments = (string, string) -> bool

  function CycleKey(key: DirKey): Option<DirKey> { if key.Inodeless? then None else Some(key) }

  /** The visited set of the descent into a directory. */
  function Mark(visited: set<DirKey>, key: DirKey): set<DirKey> {
    if key.Inodeless? then visited else visited + {key}
  }

  predicate DistinctNames(entries: seq<Entry>) {
    forall i, j :: 0 <= i < j < |entries| ==> entries[i].name != entries[j].name
  }

  /** A name stands for one target, however often a listing repeats it. */
  predicate SameTargets(entries: seq<Entry>) {
    forall i, j :: 0 <= i < j < |entries| && entries[i].name == entries[j].name ==>
        entries[i].target == entries[j].target
  }

  predicate GoodEntries(g: Graph, entries: seq<Entry>) {
    && SameTargets(entries)
    && forall i :: 0 <= i < |entries| && entries[i].target.Directory? ==> entries[i].target.key in g
  }

  /** Directories that are listed exist, and a name stands for one target. */
  predicate Listed(g: Graph) {
    forall d :: d in g && g[d].Readable? ==> GoodEntries(g, g[d].entries)
  }

  predicate NamesOnce(g: Graph) {
    forall d :: d in g && g[d].Readable? ==> DistinctNames(g[d].entries)
  }

  /** What readdir gives; a directory that cannot be read counts as empty. */
  function EntriesOf(g: Graph, dir: Option<DirKey>): (entries: seq<Entry>)
    ensures Listed(g) ==> GoodEntries(g, entries)
    ensures NamesOnce(g) ==> DistinctNames(entries)
  {
    if dir.Some? && dir.value in g && g[dir.value].Readable? then g[dir.value].entries else []
  }

  predicate Lists(entries: seq<Entry>, key: DirKey) {
    exists i :: 0 <= i < |entries| && entries[i].target == Directory(key)
  }

  /** A way down from these entries that only goes through directories without inodes. */
  predicate Leads(g: Graph, entries: seq<Entry>, chain: seq<DirKey>)
    decreases |chain|
  {
    chain == [] ||
    (chain[0].Inodeless? && Lists(entries, chain[0]) && Leads(g, EntriesOf(g, Some(chain[0])), chain[1..]))
  }

  ghost predicate LeadsTo(g: Graph, entries: seq<Entry>, key: DirKey) {
    exists chain: seq<DirKey> :: chain != [] && Leads(g, entries, chain) && chain[|chain| - 1] == key
  }

  /** All the directories such ways lead to. */
  ghost function Depths(g: Graph, entries: seq<Entry>): set<DirKey> {
    set k | k in g && LeadsTo(g, entries, k)
  }

  /** The same from one entry, itself included. */
  ghost function DepthsOf(g: Graph, target: Target): set<DirKey> {
    if target.Directory? && target.key.Inodeless? then {target.key} + Depths(g, EntriesOf(g, Some(target.key))) else {}
  }

  /**
   Moreover no chain of directories without inodes comes back to where it began.  Cycles through a directory
   with an inode are allowed.
   */
  ghost predicate Good(g: Graph) {
    && Listed(g)
    && forall d :: d in g && d.Inodeless? ==> d !in Depths(g, EntriesOf(g, Some(d)))
  }

  lemma FewerEntries(g: Graph, entries: seq<Entry>, n: nat)
    requires n <= |entries|
    ensures Depths(g, entries[..n]) <= Depths(g, entries)
  {
    hide Leads;
    forall k | k in Depths(g, entries[..n]) ensures k in Depths(g, entries) {
      var chain :| chain != [] && Leads(g, entries[..n], chain) && chain[|chain| - 1] == k;
      LeadsFromMore(g, entries, n, chain);
    }
  }

  lemma LeadsFromMore(g: Graph, entries: seq<Entry>, n: nat, chain: seq<DirKey>)
    requires n <= |entries| && Leads(g, entries[..n], chain)
    ensures Leads(g, entries, chain)
  {
    if chain != [] {
      var i :| 0 <= i < n && entries[..n][i].target == Directory(chain[0]);
      assert entries[i].target == Directory(chain[0]);
    }
  }

  lemma EntryDepths(g: Graph, entries: seq<Entry>, i: nat)
    requires i < |entries| && GoodEntries(g, entries)
    ensures DepthsOf(g, entries[i].target) <= Depths(g, entries)
  {
    var target := entries[i].target;
    assert target.Directory? ==> target.key in g;
    hide EntriesOf, GoodEntries;
    if target.Directory? && target.key.Inodeless? {
      var below := EntriesOf(g, Some(target.key));
      forall k | k in DepthsOf(g, target) ensures k in Depths(g, entries) {
        var tail: seq<DirKey> := [];
        if k != target.key {
          assert k in Depths(g, below);
          tail :| tail != [] && Leads(g, below, tail) && tail[|tail| - 1] == k;
        }
        var chain := [target.key] + tail;
        assert chain[1..] == tail && Lists(entries, target.key);
        assert Leads(g, entries, chain) && chain[|chain| - 1] == k;
      }
    }
  }

  /** Each descent marks a directory, or leaves fewer that cannot be marked. */
  lemma EntersDeeper(g: Graph, target: Target, visited: set<DirKey>)
    requires Good(g) && Enters(target, visited) && target.key in g
    ensures g.Keys - Mark(visited, target.key) <= g.Keys - visited
    ensures g.Keys - Mark(visited, target.key) == g.Keys - visited ==>
              Depths(g, EntriesOf(g, Some(target.key))) < DepthsOf(g, target)
  {
    if target.key.Inodeless? {
      assert target.key in DepthsOf(g, target) && target.key !in Depths(g, EntriesOf(g, Some(target.key)));
    } else {
      assert target.key in g.Keys - visited && target.key !in g.Keys - Mark(visited, target.key);
    }
  }

  lemma LastEntry(g: Graph, entries: seq<Entry>)
    requires entries != [] && GoodEntries(g, entries)
    ensures Depths(g, entries[..|entries| - 1]) <= Depths(g, entries)
    ensures DepthsOf(g, entries[|entries| - 1].target) <= Depths(g, entries)
  {
    FewerEntries(g, entries, |entries| - 1);
    EntryDepths(g, entries, |entries| - 1);
  }

  function Under(name: string, paths: seq<Path>): seq<Path> {
    seq(|paths|, i requires 0 <= i < |paths| => [name] + paths[i])
  }

  predicate Enters(target: Target, visited: set<DirKey>) {
    target.Directory? && (target.key.Inodeless? || target.key !in visited)
  }

  /**
   The walk's results in order.  It ends because each descent marks a directory, or leaves fewer below among
   those that cannot be marked; standing still shortens the pattern.
   */
  function Walk(g: Graph, m: Segments, dir: Option<DirKey>, parts: seq<string>, visited: set<DirKey>): seq<Path>
    requires Good(g)
    decreases g.Keys - visited, Depths(g, EntriesOf(g, dir)), |parts|, 1, 0
  {
    if parts == [] then []
    else if parts[0] == "**" then
      (if |parts| > 1 then Walk(g, m, dir, parts[1..], visited) else [[]])
        + WalkAll(g, m, EntriesOf(g, dir), parts, visited)
    else WalkMatching(g, m, EntriesOf(g, dir), parts, visited)
  }

  function WalkAll(g: Graph, m: Segments, entries: seq<Entry>, parts: seq<string>, visited: set<DirKey>): seq<Path>
    requires Good(g) && GoodEntries(g, entries) && parts != []
    decreases g.Keys - visited, Depths(g, entries), |parts|, 0, |entries|
  {
    if entries == [] then []
    else
      LastEntry(g, entries);
      WalkAll(g, m, entries[..|entries| - 1], parts, visited) + Deep(g, m, entries[|entries| - 1], parts, visited)
  }

  /** One entry under `**`: descend with the same pattern, or take a file when the pattern ends here. */
  function Deep(g: Graph, m: Segments, e: Entry, parts: seq<string>, visited: set<DirKey>): seq<Path>
    requires Good(g) && parts != []
    requires e.target.Directory? ==> e.target.key in g
    decreases g.Keys - visited, DepthsOf(g, e.target), |parts|, 0, 0
  {
    if Enters(e.target, visited) then
      EntersDeeper(g, e.target, visited);
      Under(e.name, Walk(g, m, Some(e.target.key), parts, Mark(visited, e.target.key)))
    else if e.target.File? && |parts| == 1 then [[e.name]]
    else []
  }

  function WalkMatching(g: Graph, m: Segments, entries: seq<Entry>, parts: seq<string>, visited: set<DirKey>): seq<Path>
    requires Good(g) && GoodEntries(g, entries) && parts != []
    decreases g.Keys - visited, Depths(g, entries), |parts|, 0, |entries|
  {
    if entries == [] then []
    else
      LastEntry(g, entries);
      WalkMatching(g, m, entries[..|entries| - 1], parts, visited) + Named(g, m, entries[|entries| - 1], parts, visited)
  }

  /** One entry under a named segment. */
  function Named(g: Graph, m: Segments, e: Entry, parts: seq<string>, visited: set<DirKey>): seq<Path>
    requires Good(g) && parts != []
    requires e.target.Directory? ==> e.target.key in g
    decreases g.Keys - visited, DepthsOf(g, e.target), |parts|, 0, 0
  {
    if !m(parts[0], e.name) then []
    else if |parts| == 1 then [[e.name]]
    else if Enters(e.target, visited) then
      EntersDeeper(g, e.target, visited);
      Under(e.name, Walk(g, m, Some(e.target.key), parts[1..], Mark(visited, e.target.key)))
    else []
  }

  lemma WalkBy(g: Graph, m: Segments, dir: Option<DirKey>, parts: seq<string>, visited: set<DirKey>)
    requires Good(g)
    ensures var entries := EntriesOf(g, dir);
            Walk(g, m, dir, parts, visited) ==
              if parts == [] then []
              else if parts[0] == "**" then
                (if |parts| > 1 then Walk(g, m, dir, parts[1..], visited) else [[]])
                    + WalkAll(g, m, entries, parts, visited)
              else WalkMatching(g, m, entries, parts, visited)
    ensures parts != [] ==> WalkAll(g, m, [], parts, visited) == [] && WalkMatching(g, m, [], parts, visited) == []
  {
  }

  lemma OneMoreEntry(g: Graph, m: Segments, entries: seq<Entry>, i: nat, parts: seq<string>, visited: set<DirKey>)
    requires Good(g) && GoodEntries(g, entries) && parts != [] && i < |entries|
    ensures GoodEntries(g, entries[..i]) && GoodEntries(g, entries[..i + 1])
    ensures entries[i].target.Directory? ==> entries[i].target.key in g
    ensures DepthsOf(g, entries[i].target) <= Depths(g, entries)
    ensures Depths(g, entries[..i]) <= Depths(g, entries) && Depths(g, entries[..i + 1]) <= Depths(g, entries)
    ensures WalkAll(g, m, entries[..i + 1], parts, visited)
            == WalkAll(g, m, entries[..i], parts, visited) + Deep(g, m, entries[i], parts, visited)
    ensures WalkMatching(g, m, entries[..i + 1], parts, visited)
            == WalkMatching(g, m, entries[..i], parts, visited) + Named(g, m, entries[i], parts, visited)
  {
    hide Deep, Named, Walk;
    EntryDepths(g, entries, i);
    FewerEntries(g, entries, i);
    FewerEntries(g, entries, i + 1);
    assert entries[..i + 1][..i] == entries[..i];
  }

  /** _globWalk, yielding into a list; the loops over the entries call it again for subdirectories. */
  method WalkGraph(g: Graph, m: Segments, dir: Option<DirKey>, parts: seq<string>, visited: set<DirKey>)
    returns (found: seq<Path>)
    requires Good(g)
    ensures found == Walk(g, m, dir, parts, visited)
    decreases g.Keys - visited, Depths(g, EntriesOf(g, dir)), |parts|, 2
  {
    WalkBy(g, m, dir, parts, visited);
    hide Walk, WalkAll, WalkMatching, Good, GoodEntries, EntriesOf, Depths;
    if |parts| == 0 { return []; }
    var entries := EntriesOf(g, dir);
    if parts[0] == "**" {
      if |parts| > 1 {
        found := WalkGraph(g, m, dir, parts[1..], visited);
      } else {
        found := [[]];
      }
      var deeper := WalkEveryEntry(g, m, entries, parts, visited);
      found := found + deeper;
    } else {
      found := WalkNamedEntries(g, m, entries, parts, visited);
    }
  }

  method WalkEveryEntry(g: Graph, m: Segments, entries: seq<Entry>, parts: seq<string>, visited: set<DirKey>)
    returns (found: seq<Path>)
    requires Good(g) && GoodEntries(g, entries) && parts != []
    ensures found == WalkAll(g, m, entries, parts, visited)
    decreases g.Keys - visited, Depths(g, entries), |parts|, 1
  {
    hide Walk, WalkAll, Deep, Good, Depths, DepthsOf, Mark;
    WalkBy(g, m, None, parts, visited);
    found := [];
    for i := 0 to |entries|
      invariant found == WalkAll(g, m, entries[..i], parts, visited)
    {
      OneMoreEntry(g, m, entries, i, parts, visited);
      var more := VisitDeep(g, m, entries[i], parts, visited);
      found := found + more;
    }
    assert entries[..|entries|] == entries;
  }

  method WalkNamedEntries(g: Graph, m: Segments, entries: seq<Entry>, parts: seq<string>,
                          visited: set<DirKey>) returns (found: seq<Path>)
    requires Good(g) && GoodEntries(g, entries) && parts != []
    ensures found == WalkMatching(g, m, entries, parts, visited)
    decreases g.Keys - visited, Depths(g, entries), |parts|, 1
  {
    hide Walk, WalkMatching, Named, Good, Depths, DepthsOf, Mark;
    WalkBy(g, m, None, parts, visited);
    found := [];
    for i := 0 to |entries|
      invariant found == WalkMatching(g, m, entries[..i], parts, visited)
    {
      OneMoreEntry(g, m, entries, i, parts, visited);
      var more := VisitNamed(g, m, entries[i], parts, visited);
      found := found + more;
    }
    assert entries[..|entries|] == entries;
  }

  method VisitDeep(g: Graph, m: Segments, e: Entry, parts: seq<string>, visited: set<DirKey>) returns (found: seq<Path>)
    requires Good(g) && parts != []
    requires e.target.Directory? ==> e.target.key in g
    ensures found == Deep(g, m, e, parts, visited)
    decreases g.Keys - visited, DepthsOf(g, e.target), |parts|, 0
  {
    if e.target.Directory? {
      var key := CycleKey(e.target.key);
      if key.Some? && key.value in visited { return []; }
      EntersDeeper(g, e.target, visited);
      var below := WalkGraph(g, m, Some(e.target.key), parts, if key.Some? then visited + {key.value} else visited);
      return Under(e.name, below);
    } else if e.target.File? && |parts| == 1 {
      return [[e.name]];
    }
    return [];
  }

  method VisitNamed(g: Graph, m: Segments, e: Entry, parts: seq<string>, visited: set<DirKey>)
    returns (found: seq<Path>)
    requires Good(g) && parts != []
    requires e.target.Directory? ==> e.target.key in g
    ensures found == Named(g, m, e, parts, visited)
    decreases g.Keys - visited, DepthsOf(g, e.target), |parts|, 0
  {
    if !m(parts[0], e.name) { return []; }
    if |parts| == 1 { return [[e.name]]; }
    if e.target.Directory? {
      var key := CycleKey(e.target.key);
      if key.Some? && key.value in visited { return []; }
      EntersDeeper(g, e.target, visited);
      var below := WalkGraph(g, m, Some(e.target.key), parts[1..],
                             if key.Some? then visited + {key.value} else visited);
      return Under(e.name, below);
    }
    return [];
  }

  /** glob: the walk starts with the base directory itself marked, if there is one. */
  method Glob(g: Graph, m: Segments, base: Option<DirKey>, parts: seq<string>) returns (found: seq<Path>)
    requires Good(g)
    ensures found == Walk(g, m, base, parts, Start(base))
  {
    var visited: set<DirKey> := {};
    if base.Some? {
      var key := CycleKey(base.value);
      if key.Some? { visited := visited + {key.value}; }
    }
    found := WalkGraph(g, m, base, parts, visited);
  }

  function Start(base: Option<DirKey>): set<DirKey> { if base.Some? then Mark({}, base.value) else {} }
}
