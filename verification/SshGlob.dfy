/** The remote walk, which keeps no set of visited directories, against the local one. */
module SshGlob {
  import opened Basics
  import opened GlobWalk

  /** A remote listing is not followed through symlinks and may name the directory itself and its parent. */
  predicate IsDot(e: Entry) { e.name == "." || e.name == ".." }

  function Undotted(entries: seq<Entry>): seq<Entry> {
    if entries == [] then []
    else Undotted(entries[..|entries| - 1]) + if IsDot(entries[|entries| - 1]) then [] else [entries[|entries| - 1]]
  }

  /** Exactly the entries named `.` and `..` are dropped, and the others keep their order. */
  lemma {:induction false} UndottedMeans(entries: seq<Entry>)
    ensures Undotted(entries) == Flatten(seq(|entries|, i requires 0 <= i < |entries| =>
                                           if entries[i].name in {".", ".."} then [] else [entries[i]]))
  {
    if entries != [] {
      var front, last := entries[..|entries| - 1], entries[|entries| - 1];
      UndottedMeans(front);
      var pieces := seq(|front|, i requires 0 <= i < |front| =>
                          if front[i].name in {".", ".."} then [] else [front[i]]);
      FlattenSnoc(pieces, if last.name in {".", ".."} then [] else [last]);
      assert pieces + [if last.name in {".", ".."} then [] else [last]]
          == seq(|entries|, i requires 0 <= i < |entries| =>
                   if entries[i].name in {".", ".."} then [] else [entries[i]]);
    }
  }

  /** `local` is what `remote` lists once the dots are dropped. */
  predicate SameTree(remote: Graph, local: Graph) {
    && remote.Keys == local.Keys
    && forall d :: d in remote ==>
         match (remote[d], local[d])
         case (Readable(raw), Readable(entries)) => entries == Undotted(raw)
         case (Unreadable, Unreadable) => true
         case _ => false
  }

  /** Free of symlinks: entries are files or directories, and directories only hold directories of lower rank. */
  predicate Ranked(g: Graph, rank: map<DirKey, nat>) {
    forall d :: d in g ==> d in rank && (g[d].Readable? ==>
      forall i :: 0 <= i < |g[d].entries| ==> EntryRanked(g[d].entries[i], rank, rank[d]))
  }

  predicate EntryRanked(e: Entry, rank: map<DirKey, nat>, bound: nat) {
    !e.target.Broken? && (e.target.Directory? ==> e.target.key in rank && rank[e.target.key] < bound)
  }

  function RankOf(dir: Option<DirKey>, rank: map<DirKey, nat>): nat {
    if dir.Some? && dir.value in rank then rank[dir.value] else 0
  }

  predicate AllRanked(entries: seq<Entry>, rank: map<DirKey, nat>, bound: nat) {
    forall i :: 0 <= i < |entries| ==> EntryRanked(entries[i], rank, bound)
  }

  lemma EntriesRanked(g: Graph, dir: Option<DirKey>, rank: map<DirKey, nat>)
    requires Ranked(g, rank)
    ensures AllRanked(EntriesOf(g, dir), rank, RankOf(dir, rank))
  {
  }

  /** The remote walk on the listing without dots. */
  function SshWalk(g: Graph, m: Segments, dir: Option<DirKey>, parts: seq<string>, rank: map<DirKey, nat>): seq<Path>
    requires Ranked(g, rank)
    decreases RankOf(dir, rank), |parts|, 1, 0
  {
    EntriesRanked(g, dir, rank);
    if parts == [] then []
    else if parts[0] == "**" then
      (if |parts| > 1 then SshWalk(g, m, dir, parts[1..], rank) else [[]])
        + SshAll(g, m, EntriesOf(g, dir), parts, rank, RankOf(dir, rank))
    else SshMatching(g, m, EntriesOf(g, dir), parts, rank, RankOf(dir, rank))
  }

  function SshAll(g: Graph, m: Segments, entries: seq<Entry>, parts: seq<string>, rank: map<DirKey, nat>,
                  bound: nat): seq<Path>
    requires Ranked(g, rank) && AllRanked(entries, rank, bound) && parts != []
    decreases bound, |parts|, 0, |entries|
  {
    if entries == [] then []
    else
      var e := entries[|entries| - 1];
      SshAll(g, m, entries[..|entries| - 1], parts, rank, bound)
        + if e.target.Directory? then Under(e.name, SshWalk(g, m, Some(e.target.key), parts, rank))
          else if |parts| == 1 then [[e.name]]
          else []
  }

  function SshMatching(g: Graph, m: Segments, entries: seq<Entry>, parts: seq<string>, rank: map<DirKey, nat>,
                       bound: nat): seq<Path>
    requires Ranked(g, rank) && AllRanked(entries, rank, bound) && parts != []
    decreases bound, |parts|, 0, |entries|
  {
    if entries == [] then []
    else
      var e := entries[|entries| - 1];
      SshMatching(g, m, entries[..|entries| - 1], parts, rank, bound)
        + if !m(parts[0], e.name) then []
          else if |parts| == 1 then [[e.name]]
          else if e.target.Directory? then Under(e.name, SshWalk(g, m, Some(e.target.key), parts[1..], rank))
          else []
  }

  lemma SshSnoc(g: Graph, m: Segments, kept: seq<Entry>, e: Entry, parts: seq<string>, rank: map<DirKey, nat>,
                bound: nat)
    requires Ranked(g, rank) && AllRanked(kept, rank, bound) && EntryRanked(e, rank, bound) && parts != []
    ensures AllRanked(kept + [e], rank, bound)
    ensures SshAll(g, m, kept + [e], parts, rank, bound) == SshAll(g, m, kept, parts, rank, bound)
              + if e.target.Directory? then Under(e.name, SshWalk(g, m, Some(e.target.key), parts, rank))
                else if |parts| == 1 then [[e.name]]
                else []
    ensures SshMatching(g, m, kept + [e], parts, rank, bound) == SshMatching(g, m, kept, parts, rank, bound)
              + if !m(parts[0], e.name) then []
                else if |parts| == 1 then [[e.name]]
                else if e.target.Directory? then Under(e.name, SshWalk(g, m, Some(e.target.key), parts[1..], rank))
                else []
  {
    assert (kept + [e])[..|kept|] == kept;
    hide SshWalk, Ranked;
  }

  lemma SshNothing(g: Graph, m: Segments, raw: seq<Entry>, parts: seq<string>, rank: map<DirKey, nat>, bound: nat)
    requires Ranked(g, rank) && parts != []
    ensures Undotted(raw[..0]) == [] && AllRanked([], rank, bound)
    ensures SshAll(g, m, [], parts, rank, bound) == [] && SshMatching(g, m, [], parts, rank, bound) == []
  {
  }

  lemma UndottedSnoc(raw: seq<Entry>, i: nat)
    requires i < |raw|
    ensures Undotted(raw[..i + 1]) == if IsDot(raw[i]) then Undotted(raw[..i]) else Undotted(raw[..i]) + [raw[i]]
  {
    assert raw[..i + 1][..i] == raw[..i];
  }

  // ---------------------------------------------------------------- the remote loops

  lemma RawUndotted(remote: Graph, local: Graph, dir: Option<DirKey>)
    requires SameTree(remote, local)
    ensures Undotted(EntriesOf(remote, dir)) == EntriesOf(local, dir)
  {
  }

  lemma {:induction false} UndottedKeepsRank(raw: seq<Entry>, i: nat, rank: map<DirKey, nat>, bound: nat)
    requires i <= |raw| && AllRanked(Undotted(raw), rank, bound)
    ensures AllRanked(Undotted(raw[..i]), rank, bound)
    ensures i < |raw| && !IsDot(raw[i]) ==> EntryRanked(raw[i], rank, bound)
    decreases |raw|
  {
    if i == |raw| {
      assert raw[..i] == raw;
    } else {
      var front, last := raw[..|raw| - 1], raw[|raw| - 1];
      var kept := Undotted(front);
      forall k | 0 <= k < |kept| ensures EntryRanked(kept[k], rank, bound) { assert Undotted(raw)[k] == kept[k]; }
      if !IsDot(last) { assert Undotted(raw)[|kept|] == last; }
      assert front[..i] == raw[..i];
      UndottedKeepsRank(front, i, rank, bound);
    }
  }

  /** The remote _globWalk: it skips the dots and needs no memory of where it has been. */
  method SshWalkGraph(remote: Graph, ghost local: Graph, m: Segments, dir: Option<DirKey>, parts: seq<string>,
                      ghost rank: map<DirKey, nat>) returns (found: seq<Path>)
    requires SameTree(remote, local) && Ranked(local, rank)
    ensures found == SshWalk(local, m, dir, parts, rank)
    decreases RankOf(dir, rank), |parts|, 1
  {
    if |parts| == 0 { return []; }
    var raw := EntriesOf(remote, dir);
    RawUndotted(remote, local, dir);
    EntriesRanked(local, dir, rank);
    if parts[0] == "**" {
      if |parts| > 1 {
        found := SshWalkGraph(remote, local, m, dir, parts[1..], rank);
      } else {
        found := [[]];
      }
      var deeper := SshEveryEntry(remote, local, m, raw, parts, rank, RankOf(dir, rank));
      found := found + deeper;
    } else {
      found := SshNamedEntries(remote, local, m, raw, parts, rank, RankOf(dir, rank));
    }
  }

  method SshEveryEntry(remote: Graph, ghost local: Graph, m: Segments, raw: seq<Entry>, parts: seq<string>,
                       ghost rank: map<DirKey, nat>, ghost bound: nat) returns (found: seq<Path>)
    requires SameTree(remote, local) && Ranked(local, rank) && AllRanked(Undotted(raw), rank, bound) && parts != []
    ensures found == SshAll(local, m, Undotted(raw), parts, rank, bound)
    decreases bound, |parts|, 0
  {
    hide SshWalk, SshAll, SshMatching, Ranked, AllRanked, SameTree, Undotted, Under;
    SshNothing(local, m, raw, parts, rank, bound);
    found := [];
    for i := 0 to |raw|
      invariant AllRanked(Undotted(raw[..i]), rank, bound)
      invariant found == SshAll(local, m, Undotted(raw[..i]), parts, rank, bound)
    {
      var e := raw[i];
      UndottedKeepsRank(raw, i, rank, bound);
      UndottedKeepsRank(raw, i + 1, rank, bound);
      UndottedSnoc(raw, i);
      if IsDot(e) { continue; }
      SshSnoc(local, m, Undotted(raw[..i]), e, parts, rank, bound);
      if e.target.Directory? {
        var below := SshWalkGraph(remote, local, m, Some(e.target.key), parts, rank);
        found := found + Under(e.name, below);
      } else if |parts| == 1 {
        found := found + [[e.name]];
      }
    }
    assert raw[..|raw|] == raw;
  }

  method SshNamedEntries(remote: Graph, ghost local: Graph, m: Segments, raw: seq<Entry>, parts: seq<string>,
                         ghost rank: map<DirKey, nat>, ghost bound: nat) returns (found: seq<Path>)
    requires SameTree(remote, local) && Ranked(local, rank) && AllRanked(Undotted(raw), rank, bound) && parts != []
    ensures found == SshMatching(local, m, Undotted(raw), parts, rank, bound)
    decreases bound, |parts|, 0
  {
    hide SshWalk, SshAll, SshMatching, Ranked, AllRanked, SameTree, Undotted, Under;
    SshNothing(local, m, raw, parts, rank, bound);
    found := [];
    for i := 0 to |raw|
      invariant AllRanked(Undotted(raw[..i]), rank, bound)
      invariant found == SshMatching(local, m, Undotted(raw[..i]), parts, rank, bound)
    {
      var e := raw[i];
      UndottedKeepsRank(raw, i, rank, bound);
      UndottedKeepsRank(raw, i + 1, rank, bound);
      UndottedSnoc(raw, i);
      if IsDot(e) { continue; }
      SshSnoc(local, m, Undotted(raw[..i]), e, parts, rank, bound);
      if !m(parts[0], e.name) { continue; }
      if |parts| == 1 {
        found := found + [[e.name]];
      } else if e.target.Directory? {
        var below := SshWalkGraph(remote, local, m, Some(e.target.key), parts[1..], rank);
        found := found + Under(e.name, below);
      }
    }
    assert raw[..|raw|] == raw;
  }

  // ---------------------------------------------------------------- agreement with the local walk

  /** Whatever is marked cannot lie below: it ranks at least as high as the directory the walk is in. */
  predicate MarkedAbove(visited: set<DirKey>, rank: map<DirKey, nat>, bound: nat) {
    forall v :: v in visited && v in rank ==> rank[v] >= bound
  }

  lemma {:induction false} EntriesAgree(g: Graph, m: Segments, entries: seq<Entry>, parts: seq<string>,
                                        visited: set<DirKey>,
                                        rank: map<DirKey, nat>, bound: nat)
    requires Good(g) && GoodEntries(g, entries) && Ranked(g, rank) && AllRanked(entries, rank, bound) && parts != []
    requires MarkedAbove(visited, rank, bound)
    ensures SshAll(g, m, entries, parts, rank, bound) == WalkAll(g, m, entries, parts, visited)
    ensures SshMatching(g, m, entries, parts, rank, bound) == WalkMatching(g, m, entries, parts, visited)
    decreases bound, |parts|, 0, |entries|
  {
    hide SshWalk, SshAll, SshMatching, Walk, WalkAll, WalkMatching, Good, Ranked, Depths, DepthsOf, Under;
    if entries == [] {
      SshNothing(g, m, entries, parts, rank, bound);
      WalkBy(g, m, None, parts, visited);
    } else {
      var front, e := entries[..|entries| - 1], entries[|entries| - 1];
      assert entries == front + [e] && entries[..|front| + 1] == entries;
      OneMoreEntry(g, m, entries, |front|, parts, visited);
      assert EntryRanked(e, rank, bound) && AllRanked(front, rank, bound);
      EntriesAgree(g, m, front, parts, visited, rank, bound);
      SshSnoc(g, m, front, e, parts, rank, bound);
      if e.target.Directory? {
        var key := e.target.key;
        assert MarkedAbove(Mark(visited, key), rank, rank[key]);
        WalksAgree(g, m, Some(key), parts, Mark(visited, key), rank);
        if |parts| > 1 { WalksAgree(g, m, Some(key), parts[1..], Mark(visited, key), rank); }
      }
    }
  }

  /**
   On a tree without symlinks both walks yield the same paths in the same order: the set of visited
   directories never stops the local walk there.
   */
  lemma {:induction false} WalksAgree(g: Graph, m: Segments, dir: Option<DirKey>, parts: seq<string>,
                                      visited: set<DirKey>, rank: map<DirKey, nat>)
    requires Good(g) && Ranked(g, rank) && MarkedAbove(visited, rank, RankOf(dir, rank))
    ensures SshWalk(g, m, dir, parts, rank) == Walk(g, m, dir, parts, visited)
    decreases RankOf(dir, rank), |parts|, 1, 0
  {
    if parts != [] {
      EntriesRanked(g, dir, rank);
      EntriesAgree(g, m, EntriesOf(g, dir), parts, visited, rank, RankOf(dir, rank));
      if |parts| > 1 { WalksAgree(g, m, dir, parts[1..], visited, rank); }
      WalkBy(g, m, dir, parts, visited);
      hide Walk, WalkAll, WalkMatching, SshAll, SshMatching, Good, Ranked, EntriesOf;
    }
  }

  /** The two globs from the same base directory. */
  lemma GlobsAgree(g: Graph, m: Segments, base: DirKey, parts: seq<string>, rank: map<DirKey, nat>)
    requires Good(g) && Ranked(g, rank)
    ensures SshWalk(g, m, Some(base), parts, rank) == Walk(g, m, Some(base), parts, Start(Some(base)))
  {
    WalksAgree(g, m, Some(base), parts, Start(Some(base)), rank);
  }
}
