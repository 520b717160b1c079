/**
 * The order in which the glob walk yields its paths.
 *
 * A route records the choices that lead to a path: at a `**` either to go no deeper, or to
 * enter an entry of the listing; at any other segment which entry.  Paths come in the order of
 * their routes: going no deeper before going deeper, and entries as they are listed.
 */
module GlobOrder {
  import opened Glob

  /** Numbers of entries, or `STAY` for a `**` that goes no deeper. */
  type Route = seq<int>

  const STAY := -1

  ghost predicate IsRoute(fs: FileSystem, test: Test, base: nat, parts: seq<string>, visited: set<string>,
                          route: Route, path: Path)
    decreases |route|
  {
    parts != [] && route != [] &&
    if parts[0] == "**" && route[0] == STAY then
      if |parts| == 1 then route == [STAY] && path == []
      else IsRoute(fs, test, base, parts[1..], visited, route[1..], path)
    else
      0 <= route[0] < |Listing(fs, base)| && path != [] &&
      var entry := Listing(fs, base)[route[0]];
      && path[0] == entry.name
      && if parts[0] == "**" then
           if IsDirectory(fs, entry.target) then
             && fs[entry.target].key !in visited
             && IsRoute(fs, test, entry.target, parts, visited + {fs[entry.target].key}, route[1..], path[1..])
           else IsFile(fs, entry.target) && |parts| == |route| == |path| == 1
         else
           test(parts[0], entry.name) &&
           if |parts| == 1 then |route| == |path| == 1
           else
             && IsDirectory(fs, entry.target) && fs[entry.target].key !in visited
             && IsRoute(fs, test, entry.target, parts[1..], visited + {fs[entry.target].key}, route[1..], path[1..])
  }

  /** At the first choice in which they differ, `a` makes the earlier one. */
  ghost predicate Earlier(a: Route, b: Route) {
    exists k :: 0 <= k < |a| && k < |b| && a[..k] == b[..k] && a[k] < b[k]
  }

  ghost predicate Sorted(routes: seq<Route>) {
    forall i, j :: 0 <= i < j < |routes| ==> Earlier(routes[i], routes[j])
  }

  ghost predicate LeadTo(fs: FileSystem, test: Test, base: nat, parts: seq<string>, visited: set<string>,
                         routes: seq<Route>, paths: seq<Path>)
  {
    |routes| == |paths| && forall i :: 0 <= i < |paths| ==> IsRoute(fs, test, base, parts, visited, routes[i], paths[i])
  }

  // ---------- Sorting ----------

  function Through(choice: int, routes: seq<Route>): (longer: seq<Route>)
    ensures |longer| == |routes|
  {
    seq(|routes|, i requires 0 <= i < |routes| => [choice] + routes[i])
  }

  lemma EarlierThrough(choice: int, a: Route, b: Route)
    requires Earlier(a, b)
    ensures Earlier([choice] + a, [choice] + b)
  {
    var k :| 0 <= k < |a| && k < |b| && a[..k] == b[..k] && a[k] < b[k];
    var c, d := [choice] + a, [choice] + b;
    assert c[..k + 1] == [choice] + a[..k] && d[..k + 1] == [choice] + b[..k];
    assert c[k + 1] < d[k + 1];
  }

  lemma SortedThrough(choice: int, routes: seq<Route>)
    requires Sorted(routes)
    ensures Sorted(Through(choice, routes))
  {
    forall i, j | 0 <= i < j < |routes|
      ensures Earlier(Through(choice, routes)[i], Through(choice, routes)[j])
    {
      EarlierThrough(choice, routes[i], routes[j]);
    }
  }

  /** All of these routes begin with a choice from `low` on, before `high`. */
  ghost predicate Begin(routes: seq<Route>, low: int, high: int) {
    forall route <- routes :: route != [] && low <= route[0] < high
  }

  lemma SortedAppend(a: seq<Route>, b: seq<Route>, low: int, middle: int, high: int)
    requires Sorted(a) && Sorted(b) && Begin(a, low, middle) && Begin(b, middle, high) && low <= middle <= high
    ensures Sorted(a + b) && Begin(a + b, low, high)
  {
    forall i, j | 0 <= i < |a| && 0 <= j < |b|
      ensures Earlier(a[i], b[j])
    {
      assert a[i] in a && b[j] in b;
      assert a[i][..0] == b[j][..0] && a[i][0] < b[j][0];
    }
  }

  lemma {:induction false} UnderAt(name: string, paths: seq<Path>)
    ensures |Under(name, paths)| == |paths|
    ensures forall i :: 0 <= i < |paths| ==> Under(name, paths)[i] == [name] + paths[i]
  {
    if paths != [] { UnderAt(name, paths[1..]); }
  }

  // ---------- The walk ----------

  /** Routes of what one entry contributes: they begin with its number. */
  ghost predicate OrderedFrom(fs: FileSystem, test: Test, base: nat, parts: seq<string>, visited: set<string>,
                              routes: seq<Route>, paths: seq<Path>, low: int, high: int)
  {
    LeadTo(fs, test, base, parts, visited, routes, paths) && Sorted(routes) && Begin(routes, low, high)
  }

  lemma OrderedAppend(fs: FileSystem, test: Test, base: nat, parts: seq<string>, visited: set<string>,
                      r1: seq<Route>, p1: seq<Path>, r2: seq<Route>, p2: seq<Path>, low: int, middle: int, high: int)
    requires OrderedFrom(fs, test, base, parts, visited, r1, p1, low, middle)
    requires OrderedFrom(fs, test, base, parts, visited, r2, p2, middle, high)
    requires low <= middle <= high
    ensures OrderedFrom(fs, test, base, parts, visited, r1 + r2, p1 + p2, low, high)
  {
    hide IsRoute, Earlier;
    SortedAppend(r1, r2, low, middle, high);
  }

  /** Entering entry `k`, and what was found there. */
  lemma OrderedBelow(fs: FileSystem, test: Test, base: nat, k: nat, parts: seq<string>, rest: seq<string>,
                     visited: set<string>, routes: seq<Route>, paths: seq<Path>)
    requires parts != [] && k < |Listing(fs, base)|
    requires rest == if parts[0] == "**" then parts else parts[1..]
    requires var entry := Listing(fs, base)[k];
      && IsDirectory(fs, entry.target) && fs[entry.target].key !in visited
      && (parts[0] != "**" ==> |parts| > 1 && test(parts[0], entry.name))
      && LeadTo(fs, test, entry.target, rest, visited + {fs[entry.target].key}, routes, paths) && Sorted(routes)
    ensures OrderedFrom(fs, test, base, parts, visited, Through(k, routes), Under(Listing(fs, base)[k].name, paths), k, k + 1)
  {
    var name := Listing(fs, base)[k].name;
    UnderAt(name, paths);
    SortedThrough(k, routes);
    forall i | 0 <= i < |paths|
      ensures IsRoute(fs, test, base, parts, visited, Through(k, routes)[i], Under(name, paths)[i])
    {
      assert Through(k, routes)[i][1..] == routes[i] && Under(name, paths)[i][1..] == paths[i];
    }
  }

  lemma NothingOrdered(fs: FileSystem, test: Test, base: nat, parts: seq<string>, visited: set<string>, low: int, high: int)
    ensures OrderedFrom(fs, test, base, parts, visited, [], [], low, high)
  {
  }

  lemma OrderedHere(fs: FileSystem, test: Test, base: nat, k: nat, parts: seq<string>, visited: set<string>)
    requires |parts| == 1 && k < |Listing(fs, base)|
    requires var entry := Listing(fs, base)[k];
      if parts[0] == "**" then IsFile(fs, entry.target) else test(parts[0], entry.name)
    ensures OrderedFrom(fs, test, base, parts, visited, [[k]], [[Listing(fs, base)[k].name]], k, k + 1)
  {
  }

  /** The entries from number `k` on, under a leading `**`. */
  lemma {:induction false} TreeInOrder(fs: FileSystem, test: Test, base: nat, k: nat, parts: seq<string>, visited: set<string>)
    returns (routes: seq<Route>)
    requires parts != [] && parts[0] == "**" && k <= |Listing(fs, base)|
    ensures OrderedFrom(fs, test, base, parts, visited, routes,
                        WalkTree(fs, test, Listing(fs, base)[k..], parts, visited), k, |Listing(fs, base)|)
    decreases Keys(fs) - visited, |parts|, 0, |Listing(fs, base)| - k
  {
    hide OrderedFrom, IsRoute, Sorted, Walk, LeadTo;
    var entries := Listing(fs, base);
    if k == |entries| {
      routes := [];
      assert entries[k..] == [];
      NothingOrdered(fs, test, base, parts, visited, k, k);
    } else {
      var entry, here: seq<Route> := entries[k], [];
      assert entries[k..][0] == entry && entries[k..][1..] == entries[k + 1..];
      if IsDirectory(fs, entry.target) && fs[entry.target].key !in visited {
        var below := WalkInOrder(fs, test, entry.target, parts, visited + {fs[entry.target].key});
        OrderedBelow(fs, test, base, k, parts, parts, visited, below,
                     Walk(fs, test, entry.target, parts, visited + {fs[entry.target].key}));
        here := Through(k, below);
      } else if IsFile(fs, entry.target) && |parts| == 1 {
        OrderedHere(fs, test, base, k, parts, visited);
        here := [[k]];
      } else {
        NothingOrdered(fs, test, base, parts, visited, k, k + 1);
      }
      var rest := TreeInOrder(fs, test, base, k + 1, parts, visited);
      OrderedAppend(fs, test, base, parts, visited, here, TreeEntry(fs, test, entry, parts, visited),
                    rest, WalkTree(fs, test, entries[k + 1..], parts, visited), k, k + 1, |entries|);
      routes := here + rest;
    }
  }

  /** The entries from number `k` on, under any other leading segment. */
  lemma {:induction false} NamesInOrder(fs: FileSystem, test: Test, base: nat, k: nat, parts: seq<string>, visited: set<string>)
    returns (routes: seq<Route>)
    requires parts != [] && parts[0] != "**" && k <= |Listing(fs, base)|
    ensures OrderedFrom(fs, test, base, parts, visited, routes,
                        WalkNames(fs, test, Listing(fs, base)[k..], parts, visited), k, |Listing(fs, base)|)
    decreases Keys(fs) - visited, |parts|, 0, |Listing(fs, base)| - k
  {
    hide OrderedFrom, IsRoute, Sorted, Walk, LeadTo;
    var entries := Listing(fs, base);
    if k == |entries| {
      routes := [];
      assert entries[k..] == [];
      NothingOrdered(fs, test, base, parts, visited, k, k);
    } else {
      var entry, here: seq<Route> := entries[k], [];
      assert entries[k..][0] == entry && entries[k..][1..] == entries[k + 1..];
      if !test(parts[0], entry.name) {
        NothingOrdered(fs, test, base, parts, visited, k, k + 1);
      } else if |parts| == 1 {
        OrderedHere(fs, test, base, k, parts, visited);
        here := [[k]];
      } else if IsDirectory(fs, entry.target) && fs[entry.target].key !in visited {
        var below := WalkInOrder(fs, test, entry.target, parts[1..], visited + {fs[entry.target].key});
        OrderedBelow(fs, test, base, k, parts, parts[1..], visited, below,
                     Walk(fs, test, entry.target, parts[1..], visited + {fs[entry.target].key}));
        here := Through(k, below);
      } else {
        NothingOrdered(fs, test, base, parts, visited, k, k + 1);
      }
      var rest := NamesInOrder(fs, test, base, k + 1, parts, visited);
      OrderedAppend(fs, test, base, parts, visited, here, NamedEntry(fs, test, entry, parts, visited),
                    rest, WalkNames(fs, test, entries[k + 1..], parts, visited), k, k + 1, |entries|);
      routes := here + rest;
    }
  }

  /** Each path the walk yields has a route, and the routes come in order, each once. */
  lemma {:induction false} WalkInOrder(fs: FileSystem, test: Test, base: nat, parts: seq<string>, visited: set<string>)
    returns (routes: seq<Route>)
    ensures LeadTo(fs, test, base, parts, visited, routes, Walk(fs, test, base, parts, visited)) && Sorted(routes)
    decreases Keys(fs) - visited, |parts|, 1, 0
  {
    hide IsRoute, Sorted, WalkTree, WalkNames, LeadTo, Begin;
    if parts == [] {
      routes := [];
      NothingLeads(fs, test, base, visited);
    } else if parts[0] == "**" {
      var zero, paths := [], [];
      if |parts| > 1 {
        var fewer := WalkInOrder(fs, test, base, parts[1..], visited);
        paths := Walk(fs, test, base, parts[1..], visited);
        OrderedStay(fs, test, base, parts, visited, fewer, paths);
        zero := Through(STAY, fewer);
      } else {
        zero, paths := [[STAY]], [[]];
        OrderedBase(fs, test, base, parts, visited);
      }
      var deeper := TreeInOrder(fs, test, base, 0, parts, visited);
      assert Listing(fs, base)[0..] == Listing(fs, base);
      OrderedAppend(fs, test, base, parts, visited, zero, paths,
                    deeper, WalkTree(fs, test, Listing(fs, base), parts, visited), STAY, 0, |Listing(fs, base)|);
      routes := zero + deeper;
    } else {
      routes := NamesInOrder(fs, test, base, 0, parts, visited);
      assert Listing(fs, base)[0..] == Listing(fs, base);
    }
  }

  lemma NothingLeads(fs: FileSystem, test: Test, base: nat, visited: set<string>)
    ensures LeadTo(fs, test, base, [], visited, [], Walk(fs, test, base, [], visited)) && Sorted([])
  {
  }

  lemma OrderedStay(fs: FileSystem, test: Test, base: nat, parts: seq<string>, visited: set<string>,
                    routes: seq<Route>, paths: seq<Path>)
    requires |parts| > 1 && parts[0] == "**"
    requires LeadTo(fs, test, base, parts[1..], visited, routes, paths) && Sorted(routes)
    ensures OrderedFrom(fs, test, base, parts, visited, Through(STAY, routes), paths, STAY, 0)
  {
    SortedThrough(STAY, routes);
    forall i | 0 <= i < |paths|
      ensures IsRoute(fs, test, base, parts, visited, Through(STAY, routes)[i], paths[i])
    {
      assert Through(STAY, routes)[i][1..] == routes[i];
    }
  }

  lemma OrderedBase(fs: FileSystem, test: Test, base: nat, parts: seq<string>, visited: set<string>)
    requires parts == ["**"]
    ensures OrderedFrom(fs, test, base, parts, visited, [[STAY]], [[]], STAY, 0)
  {
  }
}
