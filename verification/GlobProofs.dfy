/** Which paths the walk finds, how often, and that marking directories changes nothing where none repeats. */
module GlobProofs {
  import opened Basics
  import opened GlobWalk

  // ---------------------------------------------------------------- the declarative matcher

  /** `**` stands for any number of names, any other segment for one name it matches. */
  predicate Match(m: Segments, parts: seq<string>, names: Path)
    decreases |parts| + |names|
  {
    if parts == [] then names == []
    else if parts[0] == "**" then Match(m, parts[1..], names) || (names != [] && Match(m, parts, names[1..]))
    else names != [] && m(parts[0], names[0]) && Match(m, parts[1..], names[1..])
  }

  /** The entry a directory has under a name. */
  function Child(g: Graph, dir: Option<DirKey>, name: string): (child: Option<Target>)
    ensures Good(g) && child.Some? && child.value.Directory? ==> child.value.key in g
  {
    if dir.Some? && dir.value in g && g[dir.value].Readable? then Lookup(g[dir.value].entries, name) else None
  }

  /** The walk's own listing shows the same. */
  lemma ChildIsListed(g: Graph, dir: Option<DirKey>, name: string)
    ensures Child(g, dir, name) == Lookup(EntriesOf(g, dir), name)
  {
  }

  function Lookup(entries: seq<Entry>, name: string): (child: Option<Target>)
    ensures child.Some? ==> exists i :: 0 <= i < |entries| && entries[i] == Entry(name, child.value)
  {
    if entries == [] then None
    else if entries[|entries| - 1].name == name then Some(entries[|entries| - 1].target)
    else Lookup(entries[..|entries| - 1], name)
  }

  /** All the names lead through directories, none of them among `visited` and none twice. */
  predicate Descends(g: Graph, dir: Option<DirKey>, names: Path, visited: set<DirKey>)
    decreases |names|
  {
    names == [] ||
    var child := Child(g, dir, names[0]);
    child.Some? && Enters(child.value, visited)
        && Descends(g, Some(child.value.key), names[1..], Mark(visited, child.value.key))
  }

  /** The directory the names lead to, as far as they lead. */
  function Reach(g: Graph, dir: Option<DirKey>, names: Path): Option<DirKey>
    decreases |names|
  {
    if names == [] then dir
    else
      var child := Child(g, dir, names[0]);
      if child.Some? && child.value.Directory? then Reach(g, Some(child.value.key), names[1..]) else None
  }

  function Init(path: Path): Path
    requires path != []
  {
    path[..|path| - 1]
  }

  /** The last name of the path is an entry of a directory that the other names lead to. */
  predicate EndsAt(g: Graph, dir: Option<DirKey>, path: Path, visited: set<DirKey>, file: bool, m: Segments,
                   last: string)
  {
    && path != []
    && Descends(g, dir, Init(path), visited)
    && var child := Child(g, Reach(g, dir, Init(path)), path[|path| - 1]);
       child.Some? && if file then child.value.File? else m(last, path[|path| - 1])
  }

  /** The path ends in a directory it may enter, or in an entry of one, and the pattern matches the directories. */
  predicate ByDirectory(g: Graph, m: Segments, dir: Option<DirKey>, parts: seq<string>, visited: set<DirKey>,
                        path: Path) {
    Match(m, parts, path) && Descends(g, dir, path, visited)
  }

  predicate ByEntry(g: Graph, m: Segments, dir: Option<DirKey>, parts: seq<string>, visited: set<DirKey>, path: Path,
                    file: bool, last: string) {
    EndsAt(g, dir, path, visited, file, m, last) && Match(m, parts, Init(path))
  }

  /**
   What a path must be to be found: it matches the pattern, and the directories it goes through are all
   different.  A final `**` also takes the directory it ends in, or a file there; a final name takes any
   entry of that name.
   */
  predicate Found(g: Graph, m: Segments, dir: Option<DirKey>, parts: seq<string>, visited: set<DirKey>, path: Path)
    requires parts != []
  {
    var last := parts[|parts| - 1];
    if last == "**" then
      ByDirectory(g, m, dir, parts, visited, path) || ByEntry(g, m, dir, parts, visited, path, true, last)
    else
      ByEntry(g, m, dir, parts[..|parts| - 1], visited, path, false, last)
  }

  // ---------------------------------------------------------------- membership, entry by entry

  lemma InUnder(name: string, paths: seq<Path>, path: Path)
    ensures path in Under(name, paths) <==> path != [] && path[0] == name && path[1..] in paths
  {
    var all := Under(name, paths);
    if path in all {
      var i :| 0 <= i < |all| && all[i] == path;
      assert path == [name] + paths[i] && path[1..] == paths[i];
    }
    if path != [] && path[0] == name && path[1..] in paths {
      var i :| 0 <= i < |paths| && paths[i] == path[1..];
      assert path == [name] + paths[i] == all[i];
    }
  }

  /** What one entry contributes, given the target its name has. */
  predicate ViaDeep(g: Graph, m: Segments, target: Target, parts: seq<string>, visited: set<DirKey>, path: Path)
    requires Good(g) && parts != [] && path != [] && (target.Directory? ==> target.key in g)
  {
    if Enters(target, visited) then path[1..] in Walk(g, m, Some(target.key), parts, Mark(visited, target.key))
    else target.File? && |parts| == 1 && |path| == 1
  }

  predicate ViaNamed(g: Graph, m: Segments, target: Target, parts: seq<string>, visited: set<DirKey>, path: Path)
    requires Good(g) && parts != [] && path != [] && (target.Directory? ==> target.key in g)
  {
    && m(parts[0], path[0])
    && if |parts| == 1 then |path| == 1
       else Enters(target, visited) && path[1..] in Walk(g, m, Some(target.key), parts[1..], Mark(visited, target.key))
  }

  lemma InEntry(g: Graph, m: Segments, e: Entry, parts: seq<string>, visited: set<DirKey>, path: Path)
    requires Good(g) && parts != [] && (e.target.Directory? ==> e.target.key in g)
    ensures path in Deep(g, m, e, parts, visited)
            <==> path != [] && path[0] == e.name && ViaDeep(g, m, e.target, parts, visited, path)
    ensures path in Named(g, m, e, parts, visited)
            <==> path != [] && path[0] == e.name && ViaNamed(g, m, e.target, parts, visited, path)
  {
    hide Walk;
    if Enters(e.target, visited) {
      InUnder(e.name, Walk(g, m, Some(e.target.key), parts, Mark(visited, e.target.key)), path);
      if |parts| > 1 { InUnder(e.name, Walk(g, m, Some(e.target.key), parts[1..], Mark(visited, e.target.key)), path); }
    }
    assert |path| == 1 && path[0] == e.name ==> path == [e.name];
  }

  lemma {:induction false} InEntries(g: Graph, m: Segments, entries: seq<Entry>, parts: seq<string>,
                                     visited: set<DirKey>, path: Path)
    requires Good(g) && GoodEntries(g, entries) && parts != []
    ensures path in WalkAll(g, m, entries, parts, visited)
            <==> path != [] && Lookup(entries, path[0]).Some?
                 && TargetOk(g, Lookup(entries, path[0]).value)
                 && ViaDeep(g, m, Lookup(entries, path[0]).value, parts, visited, path)
    ensures path in WalkMatching(g, m, entries, parts, visited)
            <==> path != [] && Lookup(entries, path[0]).Some?
                 && TargetOk(g, Lookup(entries, path[0]).value)
                 && ViaNamed(g, m, Lookup(entries, path[0]).value, parts, visited, path)
    decreases |entries|
  {
    if entries != [] {
      var front, e := entries[..|entries| - 1], entries[|entries| - 1];
      assert GoodEntries(g, front);
      InEntries(g, m, front, parts, visited, path);
      InEntry(g, m, e, parts, visited, path);
      OneMoreEntry(g, m, entries, |front|, parts, visited);
      assert entries[..|front| + 1] == entries;
      hide WalkAll, WalkMatching, Deep, Named, ViaDeep, ViaNamed, Good, Lookup;
      assert front + [e] == entries;
      LookupAgrees(front, e);
    }
  }

  lemma LookupAgrees(front: seq<Entry>, e: Entry)
    requires SameTargets(front + [e])
    ensures Lookup(front, e.name).Some? ==> Lookup(front, e.name).value == e.target
    ensures forall name: string :: Lookup(front + [e], name) == if name == e.name then Some(e.target)
        else Lookup(front, name)
  {
    var all := front + [e];
    assert all[..|front|] == front;
    if Lookup(front, e.name).Some? {
      var i :| 0 <= i < |front| && front[i] == Entry(e.name, Lookup(front, e.name).value);
      assert all[i] == front[i] && all[|front|] == e;
    }
  }

  predicate TargetOk(g: Graph, target: Target) { target.Directory? ==> target.key in g }

  lemma {:induction false} LookupMisses(entries: seq<Entry>, name: string)
    requires forall i :: 0 <= i < |entries| ==> entries[i].name != name
    ensures Lookup(entries, name).None?
  {
    if entries != [] { LookupMisses(entries[..|entries| - 1], name); }
  }

  /** What the walk finds, by the first name of the path. */
  lemma InWalk(g: Graph, m: Segments, dir: Option<DirKey>, parts: seq<string>, visited: set<DirKey>, path: Path)
    requires Good(g) && parts != []
    ensures path in Walk(g, m, dir, parts, visited) <==>
            if parts[0] == "**" then
              || (if |parts| > 1 then path in Walk(g, m, dir, parts[1..], visited) else path == [])
              || (path != [] && Child(g, dir, path[0]).Some?
                  && ViaDeep(g, m, Child(g, dir, path[0]).value, parts, visited, path))
            else
              path != [] && Child(g, dir, path[0]).Some?
              && ViaNamed(g, m, Child(g, dir, path[0]).value, parts, visited, path)
  {
    WalkBy(g, m, dir, parts, visited);
    InEntries(g, m, EntriesOf(g, dir), parts, visited, path);
    if path != [] { ChildIsListed(g, dir, path[0]); }
    hide Child, Walk, WalkAll, WalkMatching, ViaDeep, ViaNamed, Good, GoodEntries, EntriesOf, Lookup;
  }

  // ---------------------------------------------------------------- the declarative matcher by the first name

  lemma EndsAtStep(g: Graph, dir: Option<DirKey>, path: Path, visited: set<DirKey>, file: bool, m: Segments,
                   last: string)
    requires Good(g) && |path| >= 2
    ensures var child := Child(g, dir, path[0]);
            EndsAt(g, dir, path, visited, file, m, last) <==>
              child.Some? && Enters(child.value, visited)
              && EndsAt(g, Some(child.value.key), path[1..], Mark(visited, child.value.key), file, m, last)
  {
    assert Init(path)[1..] == Init(path[1..]) && Init(path)[0] == path[0];
    hide Child;
  }

  lemma EndsAtOne(g: Graph, dir: Option<DirKey>, path: Path, visited: set<DirKey>, file: bool, m: Segments,
                  last: string)
    requires Good(g) && |path| == 1
    ensures Init(path) == []
    ensures EndsAt(g, dir, path, visited, file, m, last) <==>
            var child := Child(g, dir, path[0]);
            child.Some? && if file then child.value.File? else m(last, path[0])
  {
    hide Child;
  }

  lemma FoundStarEnd(g: Graph, m: Segments, dir: Option<DirKey>, visited: set<DirKey>, path: Path)
    requires Good(g)
    ensures var next := Into(g, dir, visited, path);
            Found(g, m, dir, ["**"], visited, path) <==>
              || path == []
              || (if next.Some? then Found(g, m, Some(next.value.0), ["**"], next.value.1, path[1..])
                  else Child(g, dir, path[0]).Some? && Child(g, dir, path[0]).value.File? && |path| == 1)
  {
    StarMatchesAll(m, path);
    if path != [] {
      StarMatchesAll(m, Init(path));
      StarMatchesAll(m, path[1..]);
      if |path| == 1 {
        EndsAtOne(g, dir, path, visited, true, m, "**");
      } else {
        EndsAtStep(g, dir, path, visited, true, m, "**");
        StarMatchesAll(m, Init(path[1..]));
      }
    }
    hide Child, Match, EndsAt, Mark;
  }

  lemma {:induction false} StarMatchesAll(m: Segments, names: Path)
    ensures Match(m, ["**"], names)
    decreases |names|
  {
    if names != [] { StarMatchesAll(m, names[1..]); } else { assert Match(m, ["**"][1..], []); }
  }

  /** One unfolding of the matcher and of the descent. */
  lemma MatchStep(m: Segments, parts: seq<string>, names: Path)
    requires parts != []
    ensures Match(m, parts, names) <==>
            if parts[0] == "**" then Match(m, parts[1..], names) || (names != [] && Match(m, parts, names[1..]))
            else names != [] && m(parts[0], names[0]) && Match(m, parts[1..], names[1..])
  {
  }

  lemma DescendsStep(g: Graph, dir: Option<DirKey>, names: Path, visited: set<DirKey>)
    requires Good(g)
    ensures names == [] ==> Descends(g, dir, names, visited)
    ensures names != [] ==>
              var child := Child(g, dir, names[0]);
              Descends(g, dir, names, visited) <==>
                child.Some? && Enters(child.value, visited)
                    && Descends(g, Some(child.value.key), names[1..], Mark(visited, child.value.key))
  {
    hide Child;
  }

  /** What cutting off the first segment and the first name leaves at the other end. */
  lemma FrontCut(parts: seq<string>, path: Path)
    requires |parts| > 1
    ensures parts[1..][|parts| - 2] == parts[|parts| - 1]
    ensures parts[..|parts| - 1][0] == parts[0] && parts[..|parts| - 1][1..] == parts[1..][..|parts| - 2]
    ensures |path| > 1 ==> Init(path)[0] == path[0] && Init(path)[1..] == Init(path[1..])
  {
  }

  /** The directory that the first name of the path leads into, and what is marked there. */
  function Into(g: Graph, dir: Option<DirKey>, visited: set<DirKey>, path: Path): Option<(DirKey, set<DirKey>)> {
    if path == [] then None
    else
      var child := Child(g, dir, path[0]);
      if child.Some? && Enters(child.value, visited) then Some((child.value.key, Mark(visited, child.value.key)))
      else None
  }

  /** A path that ends in a directory, by its first name and the first segment. */
  lemma DirectoryStep(g: Graph, m: Segments, dir: Option<DirKey>, parts: seq<string>, visited: set<DirKey>, path: Path)
    requires Good(g) && parts != []
    ensures var next := Into(g, dir, visited, path);
            ByDirectory(g, m, dir, parts, visited, path) <==>
              if parts[0] == "**" then
                || ByDirectory(g, m, dir, parts[1..], visited, path)
                || (next.Some? && ByDirectory(g, m, Some(next.value.0), parts, next.value.1, path[1..]))
              else
                next.Some? && m(parts[0], path[0])
                    && ByDirectory(g, m, Some(next.value.0), parts[1..], next.value.1, path[1..])
  {
    MatchStep(m, parts, path);
    DescendsStep(g, dir, path, visited);
    hide Child, Match, Descends, Good, Enters, Mark;
  }

  /** A path that ends in an entry, by its first name and the first segment its directories match. */
  lemma EntryStep(g: Graph, m: Segments, dir: Option<DirKey>, parts: seq<string>, visited: set<DirKey>, path: Path,
                  file: bool, last: string)
    requires Good(g) && parts != []
    ensures var next := Into(g, dir, visited, path);
            ByEntry(g, m, dir, parts, visited, path, file, last) <==>
              if parts[0] == "**" then
                || ByEntry(g, m, dir, parts[1..], visited, path, file, last)
                || (next.Some? && ByEntry(g, m, Some(next.value.0), parts, next.value.1, path[1..], file, last))
              else
                next.Some? && m(parts[0], path[0])
                && ByEntry(g, m, Some(next.value.0), parts[1..], next.value.1, path[1..], file, last)
  {
    if path == [] {
      NotAtRoot(g, dir, visited, file, m, last);
    } else if |path| == 1 {
      var next := Into(g, dir, visited, path);
      if next.Some? { NotAtRoot(g, Some(next.value.0), next.value.1, file, m, last); }
      EndsAtOne(g, dir, path, visited, file, m, last);
      MatchStep(m, parts, Init(path));
    } else {
      EndsAtStep(g, dir, path, visited, file, m, last);
      MatchStep(m, parts, Init(path));
      assert Init(path)[0] == path[0] && Init(path)[1..] == Init(path[1..]);
    }
    hide Child, EndsAt, Match, Good, Enters, Init, Mark;
  }

  /** The same for a pattern of several segments: `**` is skipped or takes the first directory, a name takes it. */
  lemma FoundStep(g: Graph, m: Segments, dir: Option<DirKey>, parts: seq<string>, visited: set<DirKey>, path: Path)
    requires Good(g) && |parts| > 1
    ensures var next := Into(g, dir, visited, path);
            Found(g, m, dir, parts, visited, path) <==>
              if parts[0] == "**" then
                || Found(g, m, dir, parts[1..], visited, path)
                || (next.Some? && Found(g, m, Some(next.value.0), parts, next.value.1, path[1..]))
              else
                next.Some? && m(parts[0], path[0])
                    && Found(g, m, Some(next.value.0), parts[1..], next.value.1, path[1..])
  {
    var last := parts[|parts| - 1];
    FrontCut(parts, path);
    if last == "**" {
      DirectoryStep(g, m, dir, parts, visited, path);
      EntryStep(g, m, dir, parts, visited, path, true, last);
    } else {
      EntryStep(g, m, dir, parts[..|parts| - 1], visited, path, false, last);
    }
    hide ByDirectory, ByEntry, Into, Good, Init;
  }

  lemma NotAtRoot(g: Graph, dir: Option<DirKey>, visited: set<DirKey>, file: bool, m: Segments, last: string)
    requires Good(g)
    ensures !EndsAt(g, dir, [], visited, file, m, last)
  {
  }

  lemma FoundLastName(g: Graph, m: Segments, dir: Option<DirKey>, parts: seq<string>, visited: set<DirKey>, path: Path)
    requires Good(g) && |parts| == 1 && parts[0] != "**"
    ensures Found(g, m, dir, parts, visited, path) <==>
        |path| == 1 && Child(g, dir, path[0]).Some? && m(parts[0], path[0])
  {
    NotAtRoot(g, dir, visited, false, m, parts[0]);
    MatchNothing(m);
    if |path| == 1 { EndsAtOne(g, dir, path, visited, false, m, parts[0]); }
    if |path| >= 2 { MatchesOnlyNothing(m, Init(path)); }
    hide Child, EndsAt, Match, Descends, Good, Mark;
  }

  lemma MatchNothing(m: Segments)
    ensures Match(m, [], [])
  {
  }

  lemma MatchesOnlyNothing(m: Segments, names: Path)
    requires names != []
    ensures !Match(m, [], names)
  {
  }

  /** The descent by a name is one the walk can make: it gets nearer to the end. */
  lemma DescentEnds(g: Graph, dir: Option<DirKey>, name: string, visited: set<DirKey>)
    requires Good(g) && Child(g, dir, name).Some? && Enters(Child(g, dir, name).value, visited)
    ensures var key := Child(g, dir, name).value.key;
            && g.Keys - Mark(visited, key) <= g.Keys - visited
            && (g.Keys - Mark(visited, key) == g.Keys - visited ==>
                  Depths(g, EntriesOf(g, Some(key))) < Depths(g, EntriesOf(g, dir)))
  {
    var entries, target := EntriesOf(g, dir), Child(g, dir, name).value;
    var i :| 0 <= i < |entries| && entries[i] == Entry(name, target);
    EntryDepths(g, entries, i);
    EntersDeeper(g, target, visited);
  }

  /**
   Exactness: on a finite graph, cycles and all, the walk ends and finds precisely the paths that match
   the pattern and along which no directory is entered twice.
   */
  lemma {:induction false} WalkIsExact(g: Graph, m: Segments, dir: Option<DirKey>, parts: seq<string>,
                                       visited: set<DirKey>, path: Path)
    requires Good(g) && parts != []
    ensures path in Walk(g, m, dir, parts, visited) <==> Found(g, m, dir, parts, visited, path)
    decreases g.Keys - visited, Depths(g, EntriesOf(g, dir)), |parts|
  {
    InWalk(g, m, dir, parts, visited, path);
    hide Walk, Found, Match, Descends, Good, EntriesOf, Lookup, Depths;
    if path != [] && Child(g, dir, path[0]).Some? && Enters(Child(g, dir, path[0]).value, visited) {
      var key := Child(g, dir, path[0]).value.key;
      DescentEnds(g, dir, path[0], visited);
      if parts[0] == "**" {
        WalkIsExact(g, m, Some(key), parts, Mark(visited, key), path[1..]);
      } else if |parts| > 1 {
        WalkIsExact(g, m, Some(key), parts[1..], Mark(visited, key), path[1..]);
      }
    }
    if |parts| > 1 {
      FoundStep(g, m, dir, parts, visited, path);
      if parts[0] == "**" { WalkIsExact(g, m, dir, parts[1..], visited, path); }
    } else if parts[0] == "**" {
      assert parts == ["**"];
      FoundStarEnd(g, m, dir, visited, path);
    } else {
      FoundLastName(g, m, dir, parts, visited, path);
    }
  }

  /** The directories entered along the names, in order, if every name leads to one. */
  function Trail(g: Graph, dir: Option<DirKey>, names: Path): Option<seq<DirKey>>
    decreases |names|
  {
    if names == [] then Some([])
    else
      var child := Child(g, dir, names[0]);
      if child.None? || !child.value.Directory? then None
      else match Trail(g, Some(child.value.key), names[1..])
           case None => None
           case Some(rest) => Some([child.value.key] + rest)
  }

  /** The directories that can be recognised when they are met again. */
  function Tracked(trail: seq<DirKey>): seq<DirKey> {
    if trail == [] then [] else (if trail[0].Inodeless? then [] else [trail[0]]) + Tracked(trail[1..])
  }

  lemma TrackedCons(key: DirKey, rest: seq<DirKey>)
    ensures Tracked([key] + rest) == if key.Inodeless? then Tracked(rest) else [key] + Tracked(rest)
  {
    assert ([key] + rest)[1..] == rest;
  }

  /**
   Descending means exactly that the recognisable directories on the way are all different and none was
   marked before.
   */
  lemma {:induction false} DescendsIffNoRepeat(g: Graph, dir: Option<DirKey>, names: Path, visited: set<DirKey>)
    ensures Descends(g, dir, names, visited) <==>
            var trail := Trail(g, dir, names);
            && trail.Some? && Distinct(Tracked(trail.value))
            && forall k :: k in Tracked(trail.value) ==> k !in visited
    decreases |names|
  {
    if names != [] {
      var child := Child(g, dir, names[0]);
      if child.Some? && child.value.Directory? {
        var key := child.value.key;
        DescendsIffNoRepeat(g, Some(key), names[1..], Mark(visited, key));
        hide Child, Distinct;
        var rest := Trail(g, Some(key), names[1..]);
        if rest.Some? {
          TrackedCons(key, rest.value);
          DistinctCons(key, Tracked(rest.value));
          hide Tracked;
        }
      }
    }
  }

  lemma DistinctCons<T>(x: T, s: seq<T>)
    ensures Distinct([x] + s) <==> x !in s && Distinct(s)
  {
    var all := [x] + s;
    if Distinct(all) {
      forall i | 0 <= i < |s| ensures s[i] != x { assert all[0] != all[i + 1]; }
      forall i, j | 0 <= i < j < |s| ensures s[i] != s[j] { assert all[i + 1] != all[j + 1]; }
    }
  }

  /**
   For a whole glob: with the base directory marked, a path is found iff it matches and never enters a
   recognisable directory twice, the base included.
   */
  lemma GlobIsExact(g: Graph, m: Segments, base: DirKey, parts: seq<string>, path: Path)
    requires Good(g) && parts != []
    ensures path in Walk(g, m, Some(base), parts, Start(Some(base))) <==>
            Found(g, m, Some(base), parts, Start(Some(base)), path)
    ensures forall names: Path :: Descends(g, Some(base), names, Start(Some(base))) <==>
              Trail(g, Some(base), names).Some? && Distinct(Tracked([base] + Trail(g, Some(base), names).value))
  {
    WalkIsExact(g, m, Some(base), parts, Start(Some(base)), path);
    hide Walk, Found;
    forall names: Path
      ensures Descends(g, Some(base), names, Start(Some(base))) <==>
              Trail(g, Some(base), names).Some? && Distinct(Tracked([base] + Trail(g, Some(base), names).value))
    {
      DescendsIffNoRepeat(g, Some(base), names, Start(Some(base)));
      hide Descends, Trail, Tracked, Distinct;
      var trail := Trail(g, Some(base), names);
      if trail.Some? {
        TrackedCons(base, trail.value);
        DistinctCons(base, Tracked(trail.value));
      }
    }
  }

  // ---------------------------------------------------------------- directories without inodes

  /** The names lead from a directory back to itself, through directories without inodes only. */
  predicate LeadsBack(g: Graph, dir: DirKey, names: Path) {
    && names != [] && Reach(g, Some(dir), names) == Some(dir)
    && Trail(g, Some(dir), names).Some? && Tracked(Trail(g, Some(dir), names).value) == []
  }

  /** One unfolding of the way down. */
  lemma TrailStep(g: Graph, dir: Option<DirKey>, names: Path)
    requires names != []
    ensures var child := Child(g, dir, names[0]);
            if child.None? || !child.value.Directory? then Trail(g, dir, names).None?
            else
              var rest := Trail(g, Some(child.value.key), names[1..]);
              && Reach(g, dir, names) == Reach(g, Some(child.value.key), names[1..])
              && Trail(g, dir, names) == if rest.None? then None else Some([child.value.key] + rest.value)
  {
    hide Child;
  }

  lemma {:induction false} TrailConcat(g: Graph, dir: Option<DirKey>, a: Path, b: Path)
    requires Trail(g, dir, a).Some? && Tracked(Trail(g, dir, a).value) == []
    requires Trail(g, Reach(g, dir, a), b).Some? && Tracked(Trail(g, Reach(g, dir, a), b).value) == []
    ensures Trail(g, dir, a + b).Some? && Tracked(Trail(g, dir, a + b).value) == []
    ensures Reach(g, dir, a + b) == Reach(g, Reach(g, dir, a), b)
    decreases |a|
  {
    if a == [] {
      assert a + b == b;
    } else {
      assert (a + b)[0] == a[0] && (a + b)[1..] == a[1..] + b;
      TrailStep(g, dir, a);
      TrailStep(g, dir, a + b);
      hide Child, Trail, Reach, Tracked;
      var key := Child(g, dir, a[0]).value.key;
      var rest := Trail(g, Some(key), a[1..]).value;
      TrackedCons(key, rest);
      TrailConcat(g, Some(key), a[1..], b);
      TrackedCons(key, Trail(g, Some(key), a[1..] + b).value);
    }
  }

  function Repeated(names: Path, n: nat): Path { if n == 0 then [] else names + Repeated(names, n - 1) }

  lemma NothingTracked()
    ensures Tracked([]) == []
  {
  }

  lemma {:induction false} RoundAndRound(g: Graph, dir: DirKey, names: Path, n: nat)
    requires LeadsBack(g, dir, names)
    ensures |Repeated(names, n)| >= n
    ensures Reach(g, Some(dir), Repeated(names, n)) == Some(dir)
    ensures Trail(g, Some(dir), Repeated(names, n)).Some?
        && Tracked(Trail(g, Some(dir), Repeated(names, n)).value) == []
  {
    hide Child, Tracked, Trail, Reach;
    if n == 0 {
      NothingTracked();
      NoNames(g, Some(dir));
    } else {
      RoundAndRound(g, dir, names, n - 1);
      TrailConcat(g, Some(dir), names, Repeated(names, n - 1));
    }
  }

  function Max(a: nat, b: nat): nat { if a > b then a else b }

  function Longest(paths: seq<Path>): nat {
    if paths == [] then 0 else Max(Longest(paths[..|paths| - 1]), |paths[|paths| - 1]|)
  }

  lemma {:induction false} NoneLonger(paths: seq<Path>, path: Path)
    requires |path| > Longest(paths)
    ensures path !in paths
  {
    if paths != [] { NoneLonger(paths[..|paths| - 1], path); }
  }

  /** Along a cycle of directories without inodes `**` matches ever longer paths, so no finite list holds them all. */
  lemma InodelessCycleHasNoEnd(g: Graph, m: Segments, dir: DirKey, names: Path, visited: set<DirKey>, paths: seq<Path>)
    requires LeadsBack(g, dir, names)
    ensures exists path :: Found(g, m, Some(dir), ["**"], visited, path) && path !in paths
  {
    var path := Repeated(names, Longest(paths) + 1);
    RoundAndRound(g, dir, names, Longest(paths) + 1);
    DescendsIffNoRepeat(g, Some(dir), path, visited);
    StarMatchesAll(m, path);
    NoneLonger(paths, path);
    assert Found(g, m, Some(dir), ["**"], visited, path);
  }

  lemma {:induction false} LookupFinds(entries: seq<Entry>, i: nat)
    requires SameTargets(entries) && i < |entries|
    ensures Lookup(entries, entries[i].name) == Some(entries[i].target)
  {
    if entries[|entries| - 1].name != entries[i].name { LookupFinds(entries[..|entries| - 1], i); }
  }

  lemma NoNames(g: Graph, dir: Option<DirKey>)
    ensures Trail(g, dir, []) == Some([]) && Reach(g, dir, []) == dir
  {
  }

  lemma FirstHasName(g: Graph, dir: Option<DirKey>, chain: seq<DirKey>) returns (name: string)
    requires Listed(g) && chain != [] && Leads(g, EntriesOf(g, dir), chain)
    ensures Child(g, dir, name) == Some(Directory(chain[0])) && chain[0].Inodeless?
    ensures Leads(g, EntriesOf(g, Some(chain[0])), chain[1..])
  {
    var entries := EntriesOf(g, dir);
    var i :| 0 <= i < |entries| && entries[i].target == Directory(chain[0]);
    LookupFinds(entries, i);
    name := entries[i].name;
  }

  /** A chain of directories without inodes is the trail of some names. */
  lemma {:induction false} ChainHasNames(g: Graph, dir: Option<DirKey>, chain: seq<DirKey>) returns (names: Path)
    requires Listed(g) && Leads(g, EntriesOf(g, dir), chain)
    ensures |names| == |chain| && Trail(g, dir, names) == Some(chain) && Tracked(chain) == []
    ensures chain != [] ==> Reach(g, dir, names) == Some(chain[|chain| - 1])
    decreases |chain|
  {
    hide *;
    if chain == [] {
      names := [];
      NoNames(g, dir);
      NothingTracked();
    } else {
      var key, tail := chain[0], chain[1..];
      var name := FirstHasName(g, dir, chain);
      var rest := ChainHasNames(g, Some(key), tail);
      names := [name] + rest;
      assert names[1..] == rest && chain == [key] + tail;
      TrailStep(g, dir, names);
      TrackedCons(key, tail);
      NoNames(g, Some(key));
    }
  }

  /** One list holds everything that `**` finds from there. */
  ghost predicate HasEnd(g: Graph, m: Segments, dir: DirKey) {
    exists paths: seq<Path> :: HoldsAll(g, m, dir, paths)
  }

  ghost predicate HoldsAll(g: Graph, m: Segments, dir: DirKey, paths: seq<Path>) {
    forall path :: Found(g, m, Some(dir), ["**"], Start(Some(dir)), path) ==> path in paths
  }

  lemma NoEndOnCycle(g: Graph, m: Segments, dir: DirKey)
    requires Listed(g) && dir.Inodeless? && dir in Depths(g, EntriesOf(g, Some(dir)))
    ensures !HasEnd(g, m, dir)
  {
    var chain :| chain != [] && Leads(g, EntriesOf(g, Some(dir)), chain) && chain[|chain| - 1] == dir;
    var names := ChainHasNames(g, Some(dir), chain);
    hide Found, Trail, Reach, Tracked, Leads, Depths, EntriesOf;
    forall paths: seq<Path> ensures !HoldsAll(g, m, dir, paths) {
      InodelessCycleHasNoEnd(g, m, dir, names, Start(Some(dir)), paths);
    }
  }

  /**
   Exactly where the walk can end: the paths that `**` finds are finitely many from every directory, and then
   the walk lists them, if and only if no chain of directories without inodes comes back to where it began.
   */
  lemma EndsIffNoInodelessCycle(g: Graph, m: Segments)
    requires Listed(g)
    ensures Good(g) <==> forall dir: DirKey :: dir in g ==> HasEnd(g, m, dir)
  {
    if Good(g) {
      forall dir: DirKey | dir in g ensures HasEnd(g, m, dir) {
        var paths := Walk(g, m, Some(dir), ["**"], Start(Some(dir)));
        forall path | Found(g, m, Some(dir), ["**"], Start(Some(dir)), path) ensures path in paths {
          WalkIsExact(g, m, Some(dir), ["**"], Start(Some(dir)), path);
        }
        assert HoldsAll(g, m, dir, paths);
      }
    } else {
      var dir :| dir in g && dir.Inodeless? && dir in Depths(g, EntriesOf(g, Some(dir)));
      NoEndOnCycle(g, m, dir);
    }
  }

  // ---------------------------------------------------------------- no path twice

  function Stars(parts: seq<string>): nat {
    if parts == [] then 0 else (if parts[0] == "**" then 1 else 0) + Stars(parts[1..])
  }

  lemma DistinctConcat<T>(a: seq<T>, b: seq<T>)
    requires Distinct(a) && Distinct(b) && forall x :: x in a ==> x !in b
    ensures Distinct(a + b)
  {
    var all := a + b;
    forall i, j | 0 <= i < j < |all| ensures all[i] != all[j] {
      if i < |a| <= j { assert all[i] in a && all[j] in b; }
    }
  }

  lemma UnderDistinct(name: string, paths: seq<Path>)
    requires Distinct(paths)
    ensures Distinct(Under(name, paths))
  {
    var all := Under(name, paths);
    forall i, j | 0 <= i < j < |all| ensures all[i] != all[j] {
      assert all[i][1..] == paths[i] && all[j][1..] == paths[j];
    }
  }

  /** Without `**` a path has one name per segment; with one, at least one per other segment. */
  lemma {:induction false} LengthsFit(g: Graph, m: Segments, dir: Option<DirKey>, parts: seq<string>,
                                      visited: set<DirKey>, path: Path)
    requires Good(g) && parts != [] && path in Walk(g, m, dir, parts, visited)
    ensures Stars(parts) == 0 ==> |path| == |parts|
    ensures |path| >= |parts| - Stars(parts)
    decreases g.Keys - visited, Depths(g, EntriesOf(g, dir)), |parts|
  {
    InWalk(g, m, dir, parts, visited, path);
    hide Walk, Good, Depths;
    if path != [] && Child(g, dir, path[0]).Some? && Enters(Child(g, dir, path[0]).value, visited) {
      var key := Child(g, dir, path[0]).value.key;
      DescentEnds(g, dir, path[0], visited);
      if parts[0] == "**" && path[1..] in Walk(g, m, Some(key), parts, Mark(visited, key)) {
        LengthsFit(g, m, Some(key), parts, Mark(visited, key), path[1..]);
      } else if parts[0] != "**" && |parts| > 1 {
        LengthsFit(g, m, Some(key), parts[1..], Mark(visited, key), path[1..]);
      }
    }
    if parts[0] == "**" && |parts| > 1 && path in Walk(g, m, dir, parts[1..], visited) {
      LengthsFit(g, m, dir, parts[1..], visited, path);
    }
  }

  lemma EntryDistinct(g: Graph, m: Segments, e: Entry, parts: seq<string>, visited: set<DirKey>)
    requires Good(g) && parts != [] && Stars(parts) <= 1 && NamesOnce(g) && (e.target.Directory? ==> e.target.key in g)
    ensures Distinct(Deep(g, m, e, parts, visited))
    ensures Distinct(Named(g, m, e, parts, visited))
    decreases g.Keys - visited, DepthsOf(g, e.target), |parts|, 0
  {
    if Enters(e.target, visited) {
      var key := e.target.key;
      EntersDeeper(g, e.target, visited);
      WalkIsDistinct(g, m, Some(key), parts, Mark(visited, key));
      UnderDistinct(e.name, Walk(g, m, Some(key), parts, Mark(visited, key)));
      if |parts| > 1 {
        WalkIsDistinct(g, m, Some(key), parts[1..], Mark(visited, key));
        UnderDistinct(e.name, Walk(g, m, Some(key), parts[1..], Mark(visited, key)));
      }
    }
    hide Walk, Under;
  }

  /** One more entry adds only paths that begin with its own name. */
  lemma OneMoreDistinct(g: Graph, m: Segments, entries: seq<Entry>, parts: seq<string>, visited: set<DirKey>)
    requires Good(g) && entries != [] && GoodEntries(g, entries) && DistinctNames(entries) && parts != []
    requires var front, e := entries[..|entries| - 1], entries[|entries| - 1];
             && GoodEntries(g, front) && (e.target.Directory? ==> e.target.key in g)
             && Distinct(WalkAll(g, m, front, parts, visited)) && Distinct(Deep(g, m, e, parts, visited))
             && Distinct(WalkMatching(g, m, front, parts, visited)) && Distinct(Named(g, m, e, parts, visited))
    ensures Distinct(WalkAll(g, m, entries, parts, visited))
    ensures Distinct(WalkMatching(g, m, entries, parts, visited))
  {
    var front, e := entries[..|entries| - 1], entries[|entries| - 1];
    LookupMisses(front, e.name);
    hide *;
    OneMoreEntry(g, m, entries, |front|, parts, visited);
    assert entries[..|front| + 1] == entries;
    forall path | path in Deep(g, m, e, parts, visited) ensures path !in WalkAll(g, m, front, parts, visited) {
      InEntry(g, m, e, parts, visited, path);
      InEntries(g, m, front, parts, visited, path);
    }
    forall path | path in Named(g, m, e, parts, visited) ensures path !in WalkMatching(g, m, front, parts, visited) {
      InEntry(g, m, e, parts, visited, path);
      InEntries(g, m, front, parts, visited, path);
    }
    DistinctConcat(WalkAll(g, m, front, parts, visited), Deep(g, m, e, parts, visited));
    DistinctConcat(WalkMatching(g, m, front, parts, visited), Named(g, m, e, parts, visited));
  }

  lemma {:induction false} EntriesDistinct(g: Graph, m: Segments, entries: seq<Entry>, parts: seq<string>,
                                           visited: set<DirKey>)
    requires Good(g) && GoodEntries(g, entries) && DistinctNames(entries) && parts != [] && Stars(parts) <= 1
        && NamesOnce(g)
    ensures Distinct(WalkAll(g, m, entries, parts, visited))
    ensures Distinct(WalkMatching(g, m, entries, parts, visited))
    decreases g.Keys - visited, Depths(g, entries), |parts|, 1, |entries|
  {
    if entries == [] {
      WalkBy(g, m, None, parts, visited);
    } else {
      var front, e := entries[..|entries| - 1], entries[|entries| - 1];
      assert GoodEntries(g, front) && DistinctNames(front) && (e.target.Directory? ==> e.target.key in g);
      hide *;
      LastEntry(g, entries);
      EntriesDistinct(g, m, front, parts, visited);
      EntryDistinct(g, m, e, parts, visited);
      OneMoreDistinct(g, m, entries, parts, visited);
    }
  }

  /** With at most one `**` no path is found twice. */
  lemma {:induction false} WalkIsDistinct(g: Graph, m: Segments, dir: Option<DirKey>, parts: seq<string>,
                                          visited: set<DirKey>)
    requires Good(g) && parts != [] && Stars(parts) <= 1 && NamesOnce(g)
    ensures Distinct(Walk(g, m, dir, parts, visited))
    decreases g.Keys - visited, Depths(g, EntriesOf(g, dir)), |parts|, 2
  {
    var entries := EntriesOf(g, dir);
    WalkBy(g, m, dir, parts, visited);
    EntriesDistinct(g, m, entries, parts, visited);
    if parts[0] == "**" {
      if |parts| > 1 { WalkIsDistinct(g, m, dir, parts[1..], visited); }
      var here := if |parts| > 1 then Walk(g, m, dir, parts[1..], visited) else [[]];
      var deeper := WalkAll(g, m, entries, parts, visited);
      forall path | path in deeper ensures path !in here {
        DeeperIsLonger(g, m, entries, parts, visited, path);
        if |parts| > 1 && path in here { LengthsFit(g, m, dir, parts[1..], visited, path); }
      }
      hide Walk, WalkAll, Good;
      DistinctConcat(here, deeper);
    }
  }

  /** What `**` finds by descending is longer than what it finds by standing still. */
  lemma DeeperIsLonger(g: Graph, m: Segments, entries: seq<Entry>, parts: seq<string>, visited: set<DirKey>, path: Path)
    requires Good(g) && GoodEntries(g, entries) && parts != [] && parts[0] == "**" && Stars(parts) == 1
    requires path in WalkAll(g, m, entries, parts, visited)
    ensures |path| >= |parts|
  {
    InEntries(g, m, entries, parts, visited, path);
    var target := Lookup(entries, path[0]).value;
    if Enters(target, visited) {
      LengthsFit(g, m, Some(target.key), parts, Mark(visited, target.key), path[1..]);
    }
  }
}
