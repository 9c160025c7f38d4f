/** Which patterns can yield a path twice, for each way the segments match names. */
module GlobRepeats {
  import opened Basics
  import opened GlobWalk
  import opened GlobProofs

  // ---------------------------------------------------------------- names and segments

  /** A name that a directory listing can hold. */
  predicate Listable(name: string) { name != "" && '/' !in name && name != "." && name != ".." }

  ghost predicate NamesListable(g: Graph) {
    forall d, i :: d in g && g[d].Readable? && 0 <= i < |g[d].entries| ==> Listable(g[d].entries[i].name)
  }

  ghost predicate Accepts(m: Segments, segment: string) { exists name :: Listable(name) && m(segment, name) }

  /** Every segment but `**` can be matched by some entry. */
  ghost predicate Alive(m: Segments, parts: seq<string>) {
    forall i :: 0 <= i < |parts| && parts[i] != "**" ==> Accepts(m, parts[i])
  }

  ghost function Witness(m: Segments, segment: string): (name: string)
    requires Accepts(m, segment)
    ensures Listable(name) && m(segment, name)
  {
    var name :| Listable(name) && m(segment, name);
    name
  }

  // ---------------------------------------------------------------- a segment that nothing matches

  lemma ChildIsListable(g: Graph, dir: Option<DirKey>, name: string)
    requires NamesListable(g) && Child(g, dir, name).Some?
    ensures Listable(name)
  {
    var entries := EntriesOf(g, dir);
    var i :| 0 <= i < |entries| && entries[i] == Entry(name, Child(g, dir, name).value);
  }

  lemma {:induction false} DescendedAreListable(g: Graph, dir: Option<DirKey>, names: Path, visited: set<DirKey>,
                                                j: nat)
    requires NamesListable(g) && Descends(g, dir, names, visited) && j < |names|
    ensures Listable(names[j])
    decreases |names|
  {
    ChildIsListable(g, dir, names[0]);
    if j > 0 {
      var key := Child(g, dir, names[0]).value.key;
      hide NamesListable, Child, Listable;
      DescendedAreListable(g, Some(key), names[1..], Mark(visited, key), j - 1);
    }
  }

  /** Every named segment is matched by some name. */
  lemma {:induction false} NamedIsMatched(m: Segments, parts: seq<string>, names: Path, i: nat) returns (j: nat)
    requires Match(m, parts, names) && i < |parts| && parts[i] != "**"
    ensures j < |names| && m(parts[i], names[j])
    decreases |parts| + |names|
  {
    if parts[0] == "**" {
      if Match(m, parts[1..], names) {
        j := NamedIsMatched(m, parts[1..], names, i - 1);
      } else {
        j := NamedIsMatched(m, parts, names[1..], i);
        j := j + 1;
      }
    } else if i == 0 {
      j := 0;
    } else {
      j := NamedIsMatched(m, parts[1..], names[1..], i - 1);
      j := j + 1;
    }
  }

  lemma DeadMatchesNothing(g: Graph, m: Segments, dir: Option<DirKey>, parts: seq<string>, visited: set<DirKey>,
                           names: Path, i: nat)
    requires NamesListable(g) && i < |parts| && parts[i] != "**" && !Accepts(m, parts[i])
    requires Descends(g, dir, names, visited)
    ensures !Match(m, parts, names)
  {
    if Match(m, parts, names) {
      var j := NamedIsMatched(m, parts, names, i);
      DescendedAreListable(g, dir, names, visited, j);
    }
  }

  lemma DeadFindsNothing(g: Graph, m: Segments, dir: Option<DirKey>, parts: seq<string>, visited: set<DirKey>,
                         path: Path, i: nat)
    requires NamesListable(g) && i < |parts| && parts[i] != "**" && !Accepts(m, parts[i])
    ensures !Found(g, m, dir, parts, visited, path)
  {
    hide Match, Descends, NamesListable, Accepts, Child;
    var last := parts[|parts| - 1];
    if last == "**" {
      if Descends(g, dir, path, visited) { DeadMatchesNothing(g, m, dir, parts, visited, path, i); }
      if path != [] && Descends(g, dir, Init(path), visited) {
        DeadMatchesNothing(g, m, dir, parts, visited, Init(path), i);
      }
    } else if path != [] && Descends(g, dir, Init(path), visited) {
      if i < |parts| - 1 {
        DeadMatchesNothing(g, m, dir, parts[..|parts| - 1], visited, Init(path), i);
      } else {
        LastIsListable(g, m, Reach(g, dir, Init(path)), path[|path| - 1], last);
      }
    }
  }

  lemma LastIsListable(g: Graph, m: Segments, dir: Option<DirKey>, name: string, segment: string)
    requires NamesListable(g) && !Accepts(m, segment)
    ensures Child(g, dir, name).Some? ==> !m(segment, name)
  {
    if Child(g, dir, name).Some? { ChildIsListable(g, dir, name); }
  }

  lemma DeadWalkIsEmpty(g: Graph, m: Segments, dir: Option<DirKey>, parts: seq<string>, visited: set<DirKey>, i: nat)
    requires Good(g) && NamesListable(g) && i < |parts| && parts[i] != "**" && !Accepts(m, parts[i])
    ensures Walk(g, m, dir, parts, visited) == []
  {
    var found := Walk(g, m, dir, parts, visited);
    hide Walk, Good, NamesListable, Found, Accepts;
    if found != [] {
      assert found[0] in found;
      WalkIsExact(g, m, dir, parts, visited, found[0]);
      DeadFindsNothing(g, m, dir, parts, visited, found[0], i);
    }
  }

  // ---------------------------------------------------------------- a chain of directories

  function Link(i: nat): DirKey { Known(0, i + 1) }

  function Links(n: nat): (links: set<DirKey>)
    ensures forall d: DirKey :: d in links <==> exists i: nat :: i <= n && d == Link(i)
  {
    if n == 0 then {Link(0)} else {Link(n)} + Links(n - 1)
  }

  /** Directories one inside the other, each the only entry of the one before, under the given names. */
  function Chain(names: Path): Graph {
    map d: DirKey | d in Links(|names|) ::
      Readable(if d.Known? && 1 <= d.ino <= |names| then [Entry(names[d.ino - 1], Directory(Link(d.ino)))] else [])
  }

  /** All that matters of the chain: which only entry each link has. */
  ghost predicate Linked(g: Graph, names: Path) {
    && Good(g)
    && forall i: nat :: i < |names| ==> EntriesOf(g, Some(Link(i))) == [Entry(names[i], Directory(Link(i + 1)))]
  }

  lemma Listing(names: Path, i: nat)
    requires i < |names|
    ensures Link(i) in Chain(names)
    ensures Chain(names)[Link(i)] == Readable([Entry(names[i], Directory(Link(i + 1)))])
  {
    assert Link(i) in Links(|names|);
    hide Links;
  }

  lemma LinksAreKnown(names: Path, d: DirKey)
    requires d in Chain(names)
    ensures exists i: nat :: i <= |names| && d == Link(i)
    ensures Chain(names)[d].Readable? && |Chain(names)[d].entries| <= 1
    ensures forall i :: 0 <= i < |Chain(names)[d].entries| ==>
              Chain(names)[d].entries[i].name in names && Chain(names)[d].entries[i].target.Directory?
              && Chain(names)[d].entries[i].target.key in Chain(names)
  {
    var i: nat :| i <= |names| && d == Link(i);
    if i < |names| { assert Link(i + 1) in Links(|names|); }
  }

  lemma ChainIsGood(names: Path)
    requires forall i :: 0 <= i < |names| ==> Listable(names[i])
    ensures Good(Chain(names)) && NamesOnce(Chain(names)) && NamesListable(Chain(names))
  {
    var g := Chain(names);
    forall d | d in g
      ensures g[d].Readable? && GoodEntries(g, g[d].entries) && DistinctNames(g[d].entries) && d.Known?
      ensures forall i :: 0 <= i < |g[d].entries| ==> Listable(g[d].entries[i].name)
    {
      LinksAreKnown(names, d);
    }
    hide Chain, Listable;
  }

  lemma EntriesAt(names: Path, i: nat)
    requires i < |names|
    ensures EntriesOf(Chain(names), Some(Link(i))) == [Entry(names[i], Directory(Link(i + 1)))]
  {
    hide Chain, Listed, NamesOnce;
    Listing(names, i);
  }

  lemma ChainIsLinked(names: Path)
    requires Good(Chain(names))
    ensures Linked(Chain(names), names)
  {
    hide Chain, Good, EntriesOf;
    forall i: nat | i < |names|
      ensures EntriesOf(Chain(names), Some(Link(i))) == [Entry(names[i], Directory(Link(i + 1)))]
    {
      EntriesAt(names, i);
    }
  }

  lemma OnlyChild(g: Graph, names: Path, i: nat)
    requires Linked(g, names) && i < |names|
    ensures EntriesOf(g, Some(Link(i))) == [Entry(names[i], Directory(Link(i + 1)))]
    ensures Child(g, Some(Link(i)), names[i]) == Some(Directory(Link(i + 1)))
  {
  }

  /** The walk has not been further down than `Link(i)`. */
  predicate Behind(visited: set<DirKey>, i: nat) { forall v :: v in visited && v.Known? ==> v.ino <= i + 1 }

  lemma MarksBehind(visited: set<DirKey>, i: nat)
    requires Behind(visited, i)
    ensures Behind(Mark(visited, Link(i + 1)), i + 1) && Enters(Directory(Link(i + 1)), visited)
  {
  }

  lemma SliceStep<T>(s: seq<T>, i: nat, n: nat)
    requires n > 0 && i + n <= |s|
    ensures s[i..i + n] != [] && s[i..i + n][0] == s[i] && s[i..i + n][1..] == s[i + 1..i + 1 + (n - 1)]
  {
  }

  lemma DropStep<T>(s: seq<T>, i: nat, front: seq<T>, back: seq<T>)
    requires i <= |s| && s[i..] == front + back && front != []
    ensures i < |s| && s[i] == front[0] && s[i + 1..] == front[1..] + back
  {
    assert s[i..][0] == s[i] && s[i + 1..] == s[i..][1..];
  }

  lemma NowhereToGo(g: Graph, dir: Option<DirKey>, visited: set<DirKey>)
    ensures Reach(g, dir, []) == dir && Descends(g, dir, [], visited)
  {
  }

  lemma LinkStep(g: Graph, names: Path, i: nat, path: Path, visited: set<DirKey>)
    requires Linked(g, names) && i < |names| && Behind(visited, i) && path != [] && path[0] == names[i]
    requires Descends(g, Some(Link(i + 1)), path[1..], Mark(visited, Link(i + 1)))
    ensures Descends(g, Some(Link(i)), path, visited)
    ensures Reach(g, Some(Link(i)), path) == Reach(g, Some(Link(i + 1)), path[1..])
  {
    LinkedIsGood(g, names);
    OnlyChild(g, names, i);
    MarksBehind(visited, i);
    hide Linked, Good, Child, Descends, Reach, Trail, Enters, Mark, Behind;
    DescendsStep(g, Some(Link(i)), path, visited);
    TrailStep(g, Some(Link(i)), path);
  }

  lemma {:induction false} DescendsChain(g: Graph, names: Path, i: nat, n: nat, visited: set<DirKey>)
    requires Linked(g, names) && i + n <= |names| && Behind(visited, i)
    ensures Descends(g, Some(Link(i)), names[i..i + n], visited)
    ensures Reach(g, Some(Link(i)), names[i..i + n]) == Some(Link(i + n))
    decreases n
  {
    hide *;
    if n == 0 {
      NowhereToGo(g, Some(Link(i)), visited);
      assert names[i..i + n] == [];
    } else {
      SliceStep(names, i, n);
      MarksBehind(visited, i);
      DescendsChain(g, names, i + 1, n - 1, Mark(visited, Link(i + 1)));
      LinkStep(g, names, i, names[i..i + n], visited);
    }
  }

  /** A pattern that ends in a name, by its end. */
  lemma {:induction false} MatchByTheEnd(m: Segments, parts: seq<string>, names: Path)
    requires parts != [] && parts[|parts| - 1] != "**" && Match(m, parts, names)
    ensures names != [] && m(parts[|parts| - 1], names[|names| - 1]) && Match(m, parts[..|parts| - 1], Init(names))
    decreases |parts| + |names|
  {
    var front := parts[..|parts| - 1];
    if |parts| == 1 {
      assert front == [] && names[1..] == [];
    } else {
      FrontCut(parts, names);
      if parts[0] == "**" {
        if Match(m, parts[1..], names) {
          MatchByTheEnd(m, parts[1..], names);
        } else {
          MatchByTheEnd(m, parts, names[1..]);
        }
      } else {
        MatchByTheEnd(m, parts[1..], names[1..]);
      }
      if |names| > 1 { MatchStep(m, front, Init(names)); }
    }
  }

  lemma FoundDown(g: Graph, m: Segments, names: Path, i: nat, n: nat, parts: seq<string>, visited: set<DirKey>)
    requires Linked(g, names) && parts != [] && i + n <= |names| && Behind(visited, i)
    requires Match(m, parts, names[i..i + n])
    ensures Found(g, m, Some(Link(i)), parts, visited, names[i..i + n])
  {
    hide Match, Descends, Reach, Child, Linked, Behind;
    var path := names[i..i + n];
    DescendsChain(g, names, i, n, visited);
    if parts[|parts| - 1] != "**" {
      MatchByTheEnd(m, parts, path);
      assert Init(path) == names[i..i + (n - 1)] && path[n - 1] == names[i + n - 1];
      DescendsChain(g, names, i, n - 1, visited);
      OnlyChild(g, names, i + n - 1);
    }
  }

  /** Down the chain the walk finds whatever matches. */
  lemma FindsDown(g: Graph, m: Segments, names: Path, i: nat, n: nat, parts: seq<string>, visited: set<DirKey>)
    requires Linked(g, names) && parts != [] && i + n <= |names| && Behind(visited, i)
    requires Match(m, parts, names[i..i + n])
    ensures names[i..i + n] in Walk(g, m, Some(Link(i)), parts, visited)
  {
    LinkedIsGood(g, names);
    hide *;
    FoundDown(g, m, names, i, n, parts, visited);
    WalkIsExact(g, m, Some(Link(i)), parts, visited, names[i..i + n]);
  }

  lemma LinkedIsGood(g: Graph, names: Path)
    requires Linked(g, names)
    ensures Good(g)
  {
  }

  // ---------------------------------------------------------------- two ways to match

  /** One name for each named segment. */
  ghost function Names(m: Segments, parts: seq<string>): Path
    requires Alive(m, parts)
  {
    if parts == [] then []
    else (if parts[0] == "**" then [] else [Witness(m, parts[0])]) + Names(m, parts[1..])
  }

  /** The names for the segments in front of the first `**`, and the pattern from there. */
  ghost function Lead(m: Segments, parts: seq<string>): Path
    requires Alive(m, parts)
  {
    if parts == [] || parts[0] == "**" then [] else [Witness(m, parts[0])] + Lead(m, parts[1..])
  }

  function FromStar(parts: seq<string>): (rest: seq<string>)
    ensures Stars(parts) > 0 ==> rest != [] && rest[0] == "**"
  {
    if parts == [] || parts[0] == "**" then parts else FromStar(parts[1..])
  }

  lemma {:induction false} NamesAreListable(m: Segments, parts: seq<string>)
    requires Alive(m, parts)
    ensures forall i :: 0 <= i < |Names(m, parts)| ==> Listable(Names(m, parts)[i])
    ensures forall i :: 0 <= i < |Lead(m, parts)| ==> Listable(Lead(m, parts)[i])
  {
    hide Listable;
    if parts != [] { NamesAreListable(m, parts[1..]); }
  }

  lemma {:induction false} NamesMatch(m: Segments, parts: seq<string>)
    requires Alive(m, parts)
    ensures Match(m, parts, Names(m, parts))
  {
    if parts != [] {
      NamesMatch(m, parts[1..]);
      MatchStep(m, parts, Names(m, parts));
      if parts[0] == "**" {
        assert Names(m, parts) == Names(m, parts[1..]);
      } else {
        assert Names(m, parts)[1..] == Names(m, parts[1..]);
      }
    }
  }

  /** A leading `**` takes anything in front of what matches. */
  lemma {:induction false} StarTakes(m: Segments, parts: seq<string>, front: Path, names: Path)
    requires parts != [] && parts[0] == "**" && Match(m, parts, names)
    ensures Match(m, parts, front + names)
    decreases |front|
  {
    if front == [] {
      assert front + names == names;
    } else {
      StarTakes(m, parts, front[1..], names);
      assert (front + names)[1..] == front[1..] + names;
      MatchStep(m, parts, front + names);
    }
  }

  /** What stands in front of the first `**` matches its own names. */
  lemma {:induction false} LeadMatches(m: Segments, parts: seq<string>, tail: Path)
    requires Alive(m, parts) && Match(m, FromStar(parts), tail)
    ensures Match(m, parts, Lead(m, parts) + tail)
  {
    hide Accepts, Listable, Match;
    if parts == [] || parts[0] == "**" {
      assert Lead(m, parts) + tail == tail;
    } else {
      LeadMatches(m, parts[1..], tail);
      assert (Lead(m, parts) + tail)[1..] == Lead(m, parts[1..]) + tail;
      MatchStep(m, parts, Lead(m, parts) + tail);
    }
  }

  lemma {:induction false} NamesFromStar(m: Segments, parts: seq<string>)
    requires Alive(m, parts)
    ensures Alive(m, FromStar(parts)) && Names(m, parts) == Lead(m, parts) + Names(m, FromStar(parts))
  {
    if parts != [] && parts[0] != "**" {
      NamesFromStar(m, parts[1..]);
      assert [Witness(m, parts[0])] + (Lead(m, parts[1..]) + Names(m, FromStar(parts)))
             == [Witness(m, parts[0])] + Lead(m, parts[1..]) + Names(m, FromStar(parts));
    }
  }

  const SPARE: string := "x"

  /** What the first of two `**` can take or leave: the names between them once more, or a spare name. */
  ghost function Extra(m: Segments, rest: seq<string>): Path
    requires Alive(m, rest)
  {
    if Lead(m, rest) == [] then [SPARE] else Lead(m, rest)
  }

  /** Behind the first `**`, the rest of the pattern matches the extra names too if it has a `**` of its own. */
  lemma RestTakesExtra(m: Segments, rest: seq<string>)
    requires Alive(m, rest) && Stars(rest) > 0
    ensures Match(m, rest, Extra(m, rest) + Names(m, rest))
  {
    var lead, star := Lead(m, rest), FromStar(rest);
    NamesFromStar(m, rest);
    NamesMatch(m, star);
    if lead == [] {
      StarTakes(m, star, [SPARE], Names(m, star));
      assert lead + ([SPARE] + Names(m, star)) == [SPARE] + Names(m, rest);
      LeadMatches(m, rest, [SPARE] + Names(m, star));
    } else {
      StarTakes(m, star, lead, Names(m, star));
      LeadMatches(m, rest, lead + Names(m, star));
    }
  }

  // ---------------------------------------------------------------- two ways to the same path

  lemma SharedIsRepeated<T>(a: seq<T>, b: seq<T>, x: T)
    requires x in a && x in b
    ensures !Distinct(a + b)
  {
    var i :| 0 <= i < |a| && a[i] == x;
    var j :| 0 <= j < |b| && b[j] == x;
    assert (a + b)[i] == (a + b)[|a| + j];
  }

  lemma UnderRepeats(name: string, paths: seq<Path>)
    requires !Distinct(paths)
    ensures !Distinct(Under(name, paths))
  {
    var i, j :| 0 <= i < j < |paths| && paths[i] == paths[j];
    assert Under(name, paths)[i] == Under(name, paths)[j];
  }

  /** What descending from `Link(i)` contributes. */
  lemma OnlyEntry(g: Graph, m: Segments, names: Path, i: nat, parts: seq<string>, visited: set<DirKey>)
    requires parts != [] && Linked(g, names) && i < |names| && Behind(visited, i)
    ensures var below := Mark(visited, Link(i + 1));
            var entries := EntriesOf(g, Some(Link(i)));
            && WalkAll(g, m, entries, parts, visited) == Under(names[i], Walk(g, m, Some(Link(i + 1)), parts, below))
            && (|parts| > 1 && m(parts[0], names[i]) ==>
                  WalkMatching(g, m, entries, parts, visited)
                  == Under(names[i], Walk(g, m, Some(Link(i + 1)), parts[1..], below)))
  {
    LinkedIsGood(g, names);
    OnlyChild(g, names, i);
    assert GoodEntries(g, EntriesOf(g, Some(Link(i))));
    hide Walk, Good, Enters, Mark, WalkAll, WalkMatching, Depths, DepthsOf, EntriesOf, Linked, Behind, Under,
          GoodEntries;
    MarksBehind(visited, i);
    var e := Entry(names[i], Directory(Link(i + 1)));
    WalkBy(g, m, Some(Link(i)), parts, visited);
    OneMoreEntry(g, m, [e], 0, parts, visited);
    assert [e][..0] == [] && [e][..1] == [e];
  }

  lemma FoundDeeper(g: Graph, m: Segments, names: Path, i: nat, parts: seq<string>, visited: set<DirKey>)
    requires parts != [] && parts[0] == "**" && Linked(g, names) && i < |names| && Behind(visited, i) && Good(g)
    requires Match(m, parts, names[i + 1..])
    ensures names[i..] in WalkAll(g, m, EntriesOf(g, Some(Link(i))), parts, visited)
  {
    hide *;
    var n := |names| - i;
    assert names[i + 1..i + 1 + (n - 1)] == names[i + 1..];
    MarksBehind(visited, i);
    var deeper := Mark(visited, Link(i + 1));
    FindsDown(g, m, names, i + 1, n - 1, parts, deeper);
    OnlyEntry(g, m, names, i, parts, visited);
    assert names[i..][0] == names[i] && names[i..][1..] == names[i + 1..];
    InUnder(names[i], Walk(g, m, Some(Link(i + 1)), parts, deeper), names[i..]);
  }

  /** A path that `**` finds standing still and descending comes twice. */
  lemma RepeatsHere(g: Graph, m: Segments, names: Path, i: nat, parts: seq<string>, visited: set<DirKey>)
    requires |parts| > 1 && parts[0] == "**" && Linked(g, names) && i < |names| && Behind(visited, i) && Good(g)
    requires Match(m, parts[1..], names[i..]) && Match(m, parts, names[i + 1..])
    ensures !Distinct(Walk(g, m, Some(Link(i)), parts, visited))
  {
    assert GoodEntries(g, EntriesOf(g, Some(Link(i))));
    hide *;
    var n := |names| - i;
    assert names[i..i + n] == names[i..];
    FindsDown(g, m, names, i, n, parts[1..], visited);
    FoundDeeper(g, m, names, i, parts, visited);
    WalkBy(g, m, Some(Link(i)), parts, visited);
    SharedIsRepeated(Walk(g, m, Some(Link(i)), parts[1..], visited),
                     WalkAll(g, m, EntriesOf(g, Some(Link(i))), parts, visited), names[i..]);
  }

  /** The path for a pattern with two `**`: its names, and between the first two the extra ones. */
  ghost function TwicePath(m: Segments, parts: seq<string>): Path
    requires Alive(m, parts) && Stars(parts) >= 2
  {
    if parts[0] == "**" then Extra(m, parts[1..]) + Names(m, parts[1..])
    else [Witness(m, parts[0])] + TwicePath(m, parts[1..])
  }

  lemma {:induction false} TwicePathIsListable(m: Segments, parts: seq<string>)
    requires Alive(m, parts) && Stars(parts) >= 2
    ensures forall i :: 0 <= i < |TwicePath(m, parts)| ==> Listable(TwicePath(m, parts)[i])
  {
    assert Listable(SPARE);
    hide Listable;
    if parts[0] == "**" { NamesAreListable(m, parts[1..]); } else { TwicePathIsListable(m, parts[1..]); }
  }

  lemma BehindTheStar(m: Segments, parts: seq<string>)
    requires Alive(m, parts) && Stars(parts) >= 2 && parts[0] == "**"
    ensures var rest := parts[1..];
            Alive(m, rest) && Stars(rest) > 0 && rest != [] && Names(m, parts) == Names(m, rest)
  {
    hide Accepts;
    assert [] + Names(m, parts[1..]) == Names(m, parts[1..]);
  }

  lemma TwiceFromStar(g: Graph, m: Segments, names: Path, i: nat, parts: seq<string>, visited: set<DirKey>)
    requires Alive(m, parts) && Stars(parts) >= 2 && Linked(g, names) && i <= |names| && Behind(visited, i) && Good(g)
    requires parts[0] == "**" && names[i..] == Extra(m, parts[1..]) + Names(m, parts[1..])
    ensures !Distinct(Walk(g, m, Some(Link(i)), parts, visited))
  {
    assert parts != [];
    hide *;
    var rest := parts[1..];
    BehindTheStar(m, parts);
    RestTakesExtra(m, rest);
    ExtraIsSome(m, rest);
    NamesMatch(m, parts);
    StarTakes(m, parts, Extra(m, rest)[1..], Names(m, parts));
    DropStep(names, i, Extra(m, rest), Names(m, rest));
    RepeatsHere(g, m, names, i, parts, visited);
  }

  lemma SomeStar(rest: seq<string>)
    requires Stars(rest) > 0
    ensures rest != []
  {
  }

  lemma TwiceFromName(g: Graph, m: Segments, names: Path, i: nat, parts: seq<string>, visited: set<DirKey>)
    requires |parts| > 1 && parts[0] != "**" && Linked(g, names) && i < |names| && Behind(visited, i) && Good(g)
    requires m(parts[0], names[i])
    requires !Distinct(Walk(g, m, Some(Link(i + 1)), parts[1..], Mark(visited, Link(i + 1))))
    ensures !Distinct(Walk(g, m, Some(Link(i)), parts, visited))
  {
    hide *;
    UnderRepeats(names[i], Walk(g, m, Some(Link(i + 1)), parts[1..], Mark(visited, Link(i + 1))));
    OnlyEntry(g, m, names, i, parts, visited);
    WalkBy(g, m, Some(Link(i)), parts, visited);
  }

  lemma {:induction false} TwiceFound(g: Graph, m: Segments, names: Path, i: nat, parts: seq<string>,
                                      visited: set<DirKey>)
    requires Alive(m, parts) && Stars(parts) >= 2 && Linked(g, names) && i <= |names| && Behind(visited, i) && Good(g)
    requires names[i..] == TwicePath(m, parts)
    ensures !Distinct(Walk(g, m, Some(Link(i)), parts, visited))
    decreases |parts|
  {
    hide Walk, Good, Behind, Linked, Distinct, Extra, Accepts, Mark, Link, Names;
    if parts[0] == "**" {
      TwiceFromStar(g, m, names, i, parts, visited);
    } else {
      var rest := parts[1..];
      SomeStar(rest);
      DropStep(names, i, [Witness(m, parts[0])], TwicePath(m, rest));
      MarksBehind(visited, i);
      TwiceFound(g, m, names, i + 1, rest, Mark(visited, Link(i + 1)));
      TwiceFromName(g, m, names, i, parts, visited);
    }
  }

  lemma ExtraIsSome(m: Segments, rest: seq<string>)
    requires Alive(m, rest)
    ensures Extra(m, rest) != []
  {
  }

  // ---------------------------------------------------------------- exactly these

  /** No directories with names as listings hold them, and no start, make the walk yield a path twice. */
  ghost predicate NeverRepeats(m: Segments, parts: seq<string>) {
    forall g: Graph, dir: Option<DirKey>, visited: set<DirKey> ::
      Good(g) && NamesOnce(g) && NamesListable(g) ==> Distinct(Walk(g, m, dir, parts, visited))
  }

  lemma TwoStarsRepeat(m: Segments, parts: seq<string>)
    requires Alive(m, parts) && Stars(parts) >= 2
    ensures !NeverRepeats(m, parts)
  {
    var names, none: set<DirKey> := TwicePath(m, parts), {};
    TwicePathIsListable(m, parts);
    hide Stars, Good, NamesOnce, NamesListable, Chain, Walk, Distinct, Linked, TwicePath, Alive, Listable;
    ChainIsGood(names);
    ChainIsLinked(names);
    assert names[0..] == names;
    TwiceFound(Chain(names), m, names, 0, parts, none);
    assert !Distinct(Walk(Chain(names), m, Some(Link(0)), parts, none));
  }

  /**
   For each way of matching names: exactly those patterns never yield a path twice that have at most one `**`,
   or a segment that no name in a listing matches (such a pattern yields nothing).
   */
  lemma NeverRepeatsIff(m: Segments, parts: seq<string>)
    requires parts != []
    ensures NeverRepeats(m, parts) <==> Stars(parts) <= 1 || !Alive(m, parts)
  {
    hide Stars, Good, NamesOnce, NamesListable, Walk, Accepts;
    if Stars(parts) <= 1 {
      forall g: Graph, dir: Option<DirKey>, visited: set<DirKey> | Good(g) && NamesOnce(g) && NamesListable(g)
        ensures Distinct(Walk(g, m, dir, parts, visited))
      {
        WalkIsDistinct(g, m, dir, parts, visited);
      }
    } else if Alive(m, parts) {
      TwoStarsRepeat(m, parts);
    } else {
      var i :| 0 <= i < |parts| && parts[i] != "**" && !Accepts(m, parts[i]);
      forall g: Graph, dir: Option<DirKey>, visited: set<DirKey> | Good(g) && NamesOnce(g) && NamesListable(g)
        ensures Distinct(Walk(g, m, dir, parts, visited))
      {
        DeadWalkIsEmpty(g, m, dir, parts, visited, i);
      }
    }
  }
}
