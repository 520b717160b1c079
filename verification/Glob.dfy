/**
 * The recursive glob walk over a finite directory graph in which symbolic links may form
 * cycles.
 *
 * `Walk` is the walk; `WalkCounts` says how often it yields each path, in terms of the
 * pattern and the graph alone.  Matching one pattern segment against one name is a
 * parameter.  Every directory has an identity key (device and inode, the inode not 0).
 */
module Glob {
  import opened Wrappers
  import opened Bytes

  type Path = seq<string>
  type Test = (string, string) -> bool

  datatype Entry = Entry(name: string, target: nat)

  /** What `stat` and `readdir` say; `readdir` throws on a non-directory or for lack of permission. */
  datatype Object = Object(key: string, isDirectory: bool, listing: Option<seq<Entry>>)

  /** The objects that can be reached; `stat` throws on a target that is not among them. */
  type FileSystem = map<nat, Object>

  function Listing(fs: FileSystem, base: nat): (entries: seq<Entry>) {
    if base in fs && fs[base].isDirectory && fs[base].listing.Some? then fs[base].listing.value else []
  }

  predicate IsDirectory(fs: FileSystem, id: nat) {
    id in fs && fs[id].isDirectory
  }

  predicate IsFile(fs: FileSystem, id: nat) {
    id in fs && !fs[id].isDirectory
  }

  ghost function Keys(fs: FileSystem): (keys: set<string>) {
    set id | id in fs :: fs[id].key
  }

  ghost predicate DistinctNames(entries: seq<Entry>) {
    forall i, j :: 0 <= i < j < |entries| ==> entries[i].name != entries[j].name
  }

  /** No directory lists a name twice. */
  ghost predicate Proper(fs: FileSystem) {
    forall id <- fs :: DistinctNames(Listing(fs, id))
  }

  function Under(name: string, paths: seq<Path>): (longer: seq<Path>) {
    if paths == [] then [] else [[name] + paths[0]] + Under(name, paths[1..])
  }

  // ---------- The walk ----------

  /** Paths are relative to `base`, which itself is the empty path. */
  function Walk(fs: FileSystem, test: Test, base: nat, parts: seq<string>, visited: set<string>): (yielded: seq<Path>)
    decreases Keys(fs) - visited, |parts|, 1, 0
  {
    if parts == [] then []
    else if parts[0] == "**" then
      (if |parts| > 1 then Walk(fs, test, base, parts[1..], visited) else [[]])
      + WalkTree(fs, test, Listing(fs, base), parts, visited)
    else WalkNames(fs, test, Listing(fs, base), parts, visited)
  }

  /** The entries of a directory under a leading `**`. */
  function WalkTree(fs: FileSystem, test: Test, entries: seq<Entry>, parts: seq<string>, visited: set<string>)
    : (yielded: seq<Path>)
    requires parts != []
    decreases Keys(fs) - visited, |parts|, 0, |entries|
  {
    if entries == [] then [] else
      TreeEntry(fs, test, entries[0], parts, visited) + WalkTree(fs, test, entries[1..], parts, visited)
  }

  function TreeEntry(fs: FileSystem, test: Test, entry: Entry, parts: seq<string>, visited: set<string>)
    : (yielded: seq<Path>)
    requires parts != []
    decreases Keys(fs) - visited, |parts|, 0, 0
  {
    if entry.target !in fs then []
    else if fs[entry.target].isDirectory then
      var key := fs[entry.target].key;
      if key in visited then [] else
        Under(entry.name, Walk(fs, test, entry.target, parts, visited + {key}))
    else if |parts| == 1 then [[entry.name]]
    else []
  }

  /** The entries of a directory under any other leading segment. */
  function WalkNames(fs: FileSystem, test: Test, entries: seq<Entry>, parts: seq<string>, visited: set<string>)
    : (yielded: seq<Path>)
    requires parts != []
    decreases Keys(fs) - visited, |parts|, 0, |entries|
  {
    if entries == [] then [] else
      NamedEntry(fs, test, entries[0], parts, visited) + WalkNames(fs, test, entries[1..], parts, visited)
  }

  function NamedEntry(fs: FileSystem, test: Test, entry: Entry, parts: seq<string>, visited: set<string>)
    : (yielded: seq<Path>)
    requires parts != []
    decreases Keys(fs) - visited, |parts|, 0, 0
  {
    if !test(parts[0], entry.name) then []
    else if |parts| == 1 then [[entry.name]]
    else if !IsDirectory(fs, entry.target) then []
    else
      var key := fs[entry.target].key;
      if key in visited then [] else
        Under(entry.name, Walk(fs, test, entry.target, parts[1..], visited + {key}))
  }

  /** `glob`: the identity of the base itself counts as visited. */
  function GlobPaths(fs: FileSystem, test: Test, base: nat, parts: seq<string>): (yielded: seq<Path>) {
    Walk(fs, test, base, parts, if base in fs then {fs[base].key} else {})
  }

  /** `_globWalk`, with its loops over the entries of a directory. */
  method GlobWalk(fs: FileSystem, test: Test, base: nat, parts: seq<string>, visited: set<string>)
    returns (yielded: seq<Path>)
    ensures yielded == Walk(fs, test, base, parts, visited)
    decreases Keys(fs) - visited, |parts|, 1
  {
    hide TreeEntry, NamedEntry;
    if |parts| == 0 { return []; }
    var entries := Listing(fs, base);
    yielded := [];
    if parts[0] == "**" {
      if |parts| > 1 {
        yielded := GlobWalk(fs, test, base, parts[1..], visited);
      } else {
        yielded := [[]];
      }
      ghost var zeroDirectories := yielded;
      for k := 0 to |entries|
        invariant yielded + WalkTree(fs, test, entries[k..], parts, visited)
               == zeroDirectories + WalkTree(fs, test, entries, parts, visited)
      {
        assert entries[k..][1..] == entries[k + 1..];
        var found := GlobBelow(fs, test, entries[k], parts, visited);
        yielded := yielded + found;
      }
      assert entries[|entries|..] == [];
    } else {
      for k := 0 to |entries|
        invariant yielded + WalkNames(fs, test, entries[k..], parts, visited)
               == WalkNames(fs, test, entries, parts, visited)
      {
        assert entries[k..][1..] == entries[k + 1..];
        var found := GlobNamed(fs, test, entries[k], parts, visited);
        yielded := yielded + found;
      }
      assert entries[|entries|..] == [];
    }
  }

  /** The loop body under a leading `**`. */
  method GlobBelow(fs: FileSystem, test: Test, entry: Entry, parts: seq<string>, visited: set<string>)
    returns (yielded: seq<Path>)
    requires parts != []
    ensures yielded == TreeEntry(fs, test, entry, parts, visited)
    decreases Keys(fs) - visited, |parts|, 0
  {
    yielded := [];
    if entry.target in fs {
      if fs[entry.target].isDirectory {
        var key := fs[entry.target].key;
        if key !in visited {
          var below := GlobWalk(fs, test, entry.target, parts, visited + {key});
          yielded := Under(entry.name, below);
        }
      } else if |parts| == 1 {
        yielded := [[entry.name]];
      }
    }
  }

  /** The loop body under any other leading segment. */
  method GlobNamed(fs: FileSystem, test: Test, entry: Entry, parts: seq<string>, visited: set<string>)
    returns (yielded: seq<Path>)
    requires parts != []
    ensures yielded == NamedEntry(fs, test, entry, parts, visited)
    decreases Keys(fs) - visited, |parts|, 0
  {
    yielded := [];
    if test(parts[0], entry.name) {
      if |parts| == 1 {
        yielded := [[entry.name]];
      } else if IsDirectory(fs, entry.target) {
        var key := fs[entry.target].key;
        if key !in visited {
          var below := GlobWalk(fs, test, entry.target, parts[1..], visited + {key});
          yielded := Under(entry.name, below);
        }
      }
    }
  }

  // ---------- What the walk means ----------

  /** In how many ways the names fit the pattern; `**` takes any number of names. */
  function Ways(test: Test, parts: seq<string>, names: Path): (n: nat)
    decreases |parts| + |names|
  {
    if parts == [] then (if names == [] then 1 else 0)
    else if parts[0] == "**" then
      Ways(test, parts[1..], names) + (if names != [] then Ways(test, parts, names[1..]) else 0)
    else if names != [] && test(parts[0], names[0]) then Ways(test, parts[1..], names[1..])
    else 0
  }

  function Find(entries: seq<Entry>, name: string): (entry: Option<Entry>) {
    if entries == [] then None
    else if entries[0].name == name then Some(entries[0])
    else Find(entries[1..], name)
  }

  /** Following names through directories, none of which may have a visited key. */
  function Descend(fs: FileSystem, base: nat, names: Path, visited: set<string>): (end: Option<nat>)
    decreases |names|
  {
    if names == [] then Some(base) else
      match Find(Listing(fs, base), names[0])
      case None => None
      case Some(entry) =>
        if IsDirectory(fs, entry.target) && fs[entry.target].key !in visited
        then Descend(fs, entry.target, names[1..], visited + {fs[entry.target].key})
        else None
  }

  /** The directory entry a non-empty path ends at, reached through unvisited directories. */
  function LastEntry(fs: FileSystem, base: nat, names: Path, visited: set<string>): (entry: Option<Entry>)
    decreases |names|
  {
    if names == [] then None else
      match Descend(fs, base, names[..|names| - 1], visited)
      case None => None
      case Some(directory) => Find(Listing(fs, directory), names[|names| - 1])
  }

  predicate EndsInFile(fs: FileSystem, base: nat, names: Path, visited: set<string>) {
    var entry := LastEntry(fs, base, names, visited);
    entry.Some? && IsFile(fs, entry.value.target)
  }

  /** With a final `**`: everything below counts, files by the directory they are in. */
  function TreeMultiplicity(fs: FileSystem, test: Test, base: nat, parts: seq<string>, visited: set<string>, path: Path)
    : (n: nat)
  {
    if Descend(fs, base, path, visited).Some? then Ways(test, parts, path)
    else if EndsInFile(fs, base, path, visited) then Ways(test, parts, path[..|path| - 1])
    else 0
  }

  /** With another final segment: it need only be listed, not examined. */
  function NameMultiplicity(fs: FileSystem, test: Test, base: nat, parts: seq<string>, visited: set<string>, path: Path)
    : (n: nat)
  {
    if LastEntry(fs, base, path, visited).Some? then Ways(test, parts, path) else 0
  }

  /** How often a path is yielded, by what it names and how its names fit the pattern. */
  function Multiplicity(fs: FileSystem, test: Test, base: nat, parts: seq<string>, visited: set<string>, path: Path)
    : (n: nat)
  {
    if parts == [] then 0
    else if parts[|parts| - 1] == "**" then TreeMultiplicity(fs, test, base, parts, visited, path)
    else NameMultiplicity(fs, test, base, parts, visited, path)
  }

  function Count(paths: seq<Path>, path: Path): (n: nat)
    ensures n > 0 <==> path in paths
  {
    if paths == [] then 0 else (if paths[0] == path then 1 else 0) + Count(paths[1..], path)
  }

  lemma {:induction false} CountAppend(a: seq<Path>, b: seq<Path>, path: Path)
    ensures Count(a + b, path) == Count(a, path) + Count(b, path)
  {
    if a == [] {
      assert a + b == b;
    } else {
      CountAppend(a[1..], b, path);
      assert (a + b)[1..] == a[1..] + b;
    }
  }

  lemma {:induction false} CountUnder(name: string, paths: seq<Path>, path: Path)
    ensures Count(Under(name, paths), path) == if path != [] && path[0] == name then Count(paths, path[1..]) else 0
  {
    if paths != [] {
      CountUnder(name, paths[1..], path);
      assert path != [] && path[0] == name ==> path == [name] + path[1..];
      assert ([name] + paths[0])[1..] == paths[0];
    }
  }

  lemma CountOne(path: Path, other: Path)
    ensures Count([other], path) == if other == path then 1 else 0
  {
    assert Count([other][1..], path) == 0;
  }

  /** One step of `Descend` and of `LastEntry`. */
  lemma LastEntryStep(fs: FileSystem, base: nat, names: Path, visited: set<string>)
    requires names != []
    ensures var found := Find(Listing(fs, base), names[0]);
      LastEntry(fs, base, names, visited) ==
        if |names| == 1 || found.None? then found
        else if IsDirectory(fs, found.value.target) && fs[found.value.target].key !in visited
        then LastEntry(fs, found.value.target, names[1..], visited + {fs[found.value.target].key})
        else None
  {
    if |names| > 1 {
      assert names[..|names| - 1][1..] == names[1..][..|names| - 2];
    }
  }

  lemma {:induction false} FindNothing(entries: seq<Entry>, name: string)
    requires forall i :: 0 <= i < |entries| ==> entries[i].name != name
    ensures Find(entries, name).None?
  {
    if entries != [] { FindNothing(entries[1..], name); }
  }

  lemma {:induction false} FindSome(entries: seq<Entry>, name: string)
    ensures Find(entries, name).Some? ==>
              Find(entries, name).value in entries && Find(entries, name).value.name == name
  {
    if entries != [] { FindSome(entries[1..], name); }
  }

  /** How often one entry makes the walk yield a path, `**` leading. */
  lemma TreeEntryCount(fs: FileSystem, test: Test, entry: Entry, parts: seq<string>, visited: set<string>, path: Path)
    requires parts != []
    ensures Count(TreeEntry(fs, test, entry, parts, visited), path) ==
      if path == [] || path[0] != entry.name || entry.target !in fs then 0
      else if IsFile(fs, entry.target) then (if |parts| == 1 && |path| == 1 then 1 else 0)
      else if fs[entry.target].key in visited then 0
      else Count(Walk(fs, test, entry.target, parts, visited + {fs[entry.target].key}), path[1..])
  {
    hide Walk;
    CountOne(path, [entry.name]);
    if IsDirectory(fs, entry.target) {
      CountUnder(entry.name, Walk(fs, test, entry.target, parts, visited + {fs[entry.target].key}), path);
    }
  }

  /** How often one entry makes the walk yield a path, another segment leading. */
  lemma NamedEntryCount(fs: FileSystem, test: Test, entry: Entry, parts: seq<string>, visited: set<string>, path: Path)
    requires parts != []
    ensures Count(NamedEntry(fs, test, entry, parts, visited), path) ==
      if path == [] || path[0] != entry.name || !test(parts[0], entry.name) then 0
      else if |parts| == 1 then (if |path| == 1 then 1 else 0)
      else if !IsDirectory(fs, entry.target) || fs[entry.target].key in visited then 0
      else Count(Walk(fs, test, entry.target, parts[1..], visited + {fs[entry.target].key}), path[1..])
  {
    hide Walk;
    CountOne(path, [entry.name]);
    if |parts| > 1 && IsDirectory(fs, entry.target) {
      CountUnder(entry.name, Walk(fs, test, entry.target, parts[1..], visited + {fs[entry.target].key}), path);
    }
  }

  /** A loop over distinct names yields a path through the one entry with its first name. */
  lemma {:induction false} TreeCount(fs: FileSystem, test: Test, entries: seq<Entry>, parts: seq<string>,
                                     visited: set<string>, path: Path)
    requires parts != [] && DistinctNames(entries)
    ensures Count(WalkTree(fs, test, entries, parts, visited), path) ==
      if path == [] || Find(entries, path[0]).None? then 0
      else Count(TreeEntry(fs, test, Find(entries, path[0]).value, parts, visited), path)
  {
    hide TreeEntry;
    if entries != [] {
      CountAppend(TreeEntry(fs, test, entries[0], parts, visited), WalkTree(fs, test, entries[1..], parts, visited), path);
      TreeCount(fs, test, entries[1..], parts, visited, path);
      TreeEntryCount(fs, test, entries[0], parts, visited, path);
      if path != [] && entries[0].name == path[0] {
        FindNothing(entries[1..], path[0]);
      }
    }
  }

  lemma {:induction false} NamesCount(fs: FileSystem, test: Test, entries: seq<Entry>, parts: seq<string>,
                                      visited: set<string>, path: Path)
    requires parts != [] && DistinctNames(entries)
    ensures Count(WalkNames(fs, test, entries, parts, visited), path) ==
      if path == [] || Find(entries, path[0]).None? then 0
      else Count(NamedEntry(fs, test, Find(entries, path[0]).value, parts, visited), path)
  {
    hide NamedEntry;
    if entries != [] {
      CountAppend(NamedEntry(fs, test, entries[0], parts, visited), WalkNames(fs, test, entries[1..], parts, visited), path);
      NamesCount(fs, test, entries[1..], parts, visited, path);
      NamedEntryCount(fs, test, entries[0], parts, visited, path);
      if path != [] && entries[0].name == path[0] {
        FindNothing(entries[1..], path[0]);
      }
    }
  }

  /** A pattern whose last segment is not `**` needs at least one name. */
  lemma {:induction false} WaysNeedsName(test: Test, parts: seq<string>)
    requires parts != [] && parts[|parts| - 1] != "**"
    ensures Ways(test, parts, []) == 0
  {
    if |parts| > 1 { WaysNeedsName(test, parts[1..]); }
  }

  /** A lone `**` fits everything in one way. */
  lemma {:induction false} WaysOfStars(test: Test, names: Path)
    ensures Ways(test, ["**"], names) == 1
    decreases |names|
  {
    assert ["**"][1..] == [];
    if names != [] { WaysOfStars(test, names[1..]); }
  }

  /** The first step of a path: the multiplicity counts from the entry it goes through. */
  lemma TreeStep(fs: FileSystem, test: Test, base: nat, parts: seq<string>, visited: set<string>, path: Path)
    requires path != []
    ensures var found := Find(Listing(fs, base), path[0]);
      TreeMultiplicity(fs, test, base, parts, visited, path) ==
        if found.None? then 0
        else if IsDirectory(fs, found.value.target) then
          (if fs[found.value.target].key in visited then 0 else
            var below, v := found.value.target, visited + {fs[found.value.target].key};
            if Descend(fs, below, path[1..], v).Some? then Ways(test, parts, path)
            else if |path| > 1 && EndsInFile(fs, below, path[1..], v) then Ways(test, parts, path[..|path| - 1])
            else 0)
        else if |path| == 1 && IsFile(fs, found.value.target) then Ways(test, parts, [])
        else 0
  {
    hide Ways;
    LastEntryStep(fs, base, path, visited);
    if |path| == 1 { assert path[..0] == [] && path[1..] == []; }
  }

  lemma NameStep(fs: FileSystem, test: Test, base: nat, parts: seq<string>, visited: set<string>, path: Path)
    requires path != []
    ensures var found := Find(Listing(fs, base), path[0]);
      NameMultiplicity(fs, test, base, parts, visited, path) ==
        if found.None? then 0
        else if |path| == 1 then Ways(test, parts, path)
        else if IsDirectory(fs, found.value.target) && fs[found.value.target].key !in visited then
          (var below, v := found.value.target, visited + {fs[found.value.target].key};
           if LastEntry(fs, below, path[1..], v).Some? then Ways(test, parts, path) else 0)
        else 0
  {
    hide Ways;
    LastEntryStep(fs, base, path, visited);
  }

  /**
   * The walk yields every path exactly as often as its names fit the pattern, provided the
   * directories on the way exist and their keys have not been visited; and never otherwise.
   */
  lemma {:induction false} WalkCounts(fs: FileSystem, test: Test, base: nat, parts: seq<string>,
                                      visited: set<string>, path: Path)
    requires Proper(fs)
    ensures Count(Walk(fs, test, base, parts, visited), path) == Multiplicity(fs, test, base, parts, visited, path)
    decreases Keys(fs) - visited, |parts|, 1
  {
    hide WalkTree, WalkNames, Multiplicity;
    if parts == [] {
      NoParts(fs, test, base, visited, path);
    } else if parts[0] == "**" {
      var zero := if |parts| > 1 then Walk(fs, test, base, parts[1..], visited) else [[]];
      CountAppend(zero, WalkTree(fs, test, Listing(fs, base), parts, visited), path);
      TreeCount(fs, test, Listing(fs, base), parts, visited, path);
      if |parts| > 1 {
        WalkCounts(fs, test, base, parts[1..], visited, path);
      } else {
        CountOne(path, []);
      }
      StarsCount(fs, test, base, parts, visited, path);
    } else {
      NamesCount(fs, test, Listing(fs, base), parts, visited, path);
      SegmentCount(fs, test, base, parts, visited, path);
    }
  }

  lemma NoParts(fs: FileSystem, test: Test, base: nat, visited: set<string>, path: Path)
    ensures Multiplicity(fs, test, base, [], visited, path) == 0
  {
  }

  lemma DescendNowhere(fs: FileSystem, base: nat, visited: set<string>)
    ensures Descend(fs, base, [], visited) == Some(base) && LastEntry(fs, base, [], visited) == None
  {
  }

  /** The directory a path goes through first, when it may be entered. */
  predicate Enters(fs: FileSystem, base: nat, visited: set<string>, path: Path) {
    path != [] && var found := Find(Listing(fs, base), path[0]);
    found.Some? && IsDirectory(fs, found.value.target) && fs[found.value.target].key !in visited
  }

  /** Under a leading `**`: no directory, or one directory and `**` again. */
  lemma {:induction false} StarsCount(fs: FileSystem, test: Test, base: nat, parts: seq<string>,
                                      visited: set<string>, path: Path)
    requires Proper(fs) && parts != [] && parts[0] == "**"
    ensures Multiplicity(fs, test, base, parts, visited, path) ==
      (if |parts| > 1 then Multiplicity(fs, test, base, parts[1..], visited, path) else if path == [] then 1 else 0)
      + (if path == [] || Find(Listing(fs, base), path[0]).None? then 0
         else Count(TreeEntry(fs, test, Find(Listing(fs, base), path[0]).value, parts, visited), path))
    decreases Keys(fs) - visited, |parts|, 0
  {
    hide TreeEntry, Walk, TreeMultiplicity, NameMultiplicity;
    if |parts| == 1 { assert parts == ["**"]; }
    if path != [] && Find(Listing(fs, base), path[0]).Some? {
      var entry := Find(Listing(fs, base), path[0]).value;
      FindSome(Listing(fs, base), path[0]);
      TreeEntryCount(fs, test, entry, parts, visited, path);
      if Enters(fs, base, visited, path) {
        WalkCounts(fs, test, entry.target, parts, visited + {fs[entry.target].key}, path[1..]);
      }
    }
    if parts[|parts| - 1] == "**" {
      StarsTree(fs, test, base, parts, visited, path);
    } else {
      StarsName(fs, test, base, parts, visited, path);
    }
  }

  lemma StarsTree(fs: FileSystem, test: Test, base: nat, parts: seq<string>, visited: set<string>, path: Path)
    requires parts != [] && parts[0] == "**"
    requires |parts| == 1 ==> parts == ["**"]
    ensures TreeMultiplicity(fs, test, base, parts, visited, path) ==
      (if |parts| > 1 then TreeMultiplicity(fs, test, base, parts[1..], visited, path) else if path == [] then 1 else 0)
      + (if Enters(fs, base, visited, path) then
           var below := Find(Listing(fs, base), path[0]).value.target;
           TreeMultiplicity(fs, test, below, parts, visited + {fs[below].key}, path[1..])
         else if |parts| == 1 && |path| == 1 && EndsInFile(fs, base, path, visited) then 1 else 0)
  {
    hide Descend, LastEntry;
    if path == [] {
      DescendNowhere(fs, base, visited);
      WaysOfStars(test, []);
    } else {
      TreeStep(fs, test, base, parts, visited, path);
      LastEntryStep(fs, base, path, visited);
      if |parts| > 1 { TreeStep(fs, test, base, parts[1..], visited, path); }
      if Enters(fs, base, visited, path) {
        var below := Find(Listing(fs, base), path[0]).value.target;
        if |path| > 1 { assert path[..|path| - 1][1..] == path[1..][..|path| - 2]; }
        else { DescendNowhere(fs, below, visited + {fs[below].key}); assert path[1..] == []; }
        if |parts| == 1 {
          WaysOfStars(test, path);
          WaysOfStars(test, path[1..]);
          WaysOfStars(test, path[..|path| - 1]);
          if |path| > 1 { WaysOfStars(test, path[1..][..|path| - 2]); }
        }
      } else {
        if |parts| == 1 { WaysOfStars(test, []); }
      }
    }
  }

  lemma StarsName(fs: FileSystem, test: Test, base: nat, parts: seq<string>, visited: set<string>, path: Path)
    requires |parts| > 1 && parts[0] == "**" && parts[|parts| - 1] != "**"
    ensures NameMultiplicity(fs, test, base, parts, visited, path) ==
      NameMultiplicity(fs, test, base, parts[1..], visited, path)
      + (if Enters(fs, base, visited, path) then
           var below := Find(Listing(fs, base), path[0]).value.target;
           NameMultiplicity(fs, test, below, parts, visited + {fs[below].key}, path[1..])
         else 0)
  {
    hide Descend, LastEntry;
    DescendNowhere(fs, base, visited);
    if path != [] {
      NameStep(fs, test, base, parts, visited, path);
      NameStep(fs, test, base, parts[1..], visited, path);
      if |path| == 1 {
        assert path[1..] == [];
        WaysNeedsName(test, parts);
      }
      if Enters(fs, base, visited, path) {
        var below := Find(Listing(fs, base), path[0]).value.target;
        DescendNowhere(fs, below, visited + {fs[below].key});
      }
    }
  }

  /** Under any other leading segment: exactly one name. */
  lemma {:induction false} SegmentCount(fs: FileSystem, test: Test, base: nat, parts: seq<string>,
                                        visited: set<string>, path: Path)
    requires Proper(fs) && parts != [] && parts[0] != "**"
    ensures Multiplicity(fs, test, base, parts, visited, path) ==
      if path == [] || Find(Listing(fs, base), path[0]).None? then 0
      else Count(NamedEntry(fs, test, Find(Listing(fs, base), path[0]).value, parts, visited), path)
    decreases Keys(fs) - visited, |parts|, 0
  {
    hide NamedEntry, Walk, TreeMultiplicity, NameMultiplicity;
    if path != [] && Find(Listing(fs, base), path[0]).Some? {
      var entry := Find(Listing(fs, base), path[0]).value;
      FindSome(Listing(fs, base), path[0]);
      NamedEntryCount(fs, test, entry, parts, visited, path);
      if |parts| > 1 && Enters(fs, base, visited, path) {
        WalkCounts(fs, test, entry.target, parts[1..], visited + {fs[entry.target].key}, path[1..]);
      }
    }
    if parts[|parts| - 1] == "**" {
      SegmentTree(fs, test, base, parts, visited, path);
    } else {
      SegmentName(fs, test, base, parts, visited, path);
    }
  }

  lemma SegmentTree(fs: FileSystem, test: Test, base: nat, parts: seq<string>, visited: set<string>, path: Path)
    requires |parts| > 1 && parts[0] != "**"
    ensures TreeMultiplicity(fs, test, base, parts, visited, path) ==
      if Enters(fs, base, visited, path) && test(parts[0], path[0]) then
        var below := Find(Listing(fs, base), path[0]).value.target;
        TreeMultiplicity(fs, test, below, parts[1..], visited + {fs[below].key}, path[1..])
      else 0
  {
    hide Descend, LastEntry;
    DescendNowhere(fs, base, visited);
    if path != [] {
      TreeStep(fs, test, base, parts, visited, path);
      if Enters(fs, base, visited, path) {
        var below := Find(Listing(fs, base), path[0]).value.target;
        DescendNowhere(fs, below, visited + {fs[below].key});
        if |path| > 1 { assert path[..|path| - 1][1..] == path[1..][..|path| - 2]; }
        else { assert path[1..] == []; }
      }
    }
  }

  lemma SegmentName(fs: FileSystem, test: Test, base: nat, parts: seq<string>, visited: set<string>, path: Path)
    requires parts != [] && parts[0] != "**" && parts[|parts| - 1] != "**"
    ensures NameMultiplicity(fs, test, base, parts, visited, path) ==
      if path == [] || Find(Listing(fs, base), path[0]).None? || !test(parts[0], path[0]) then 0
      else if |parts| == 1 then (if |path| == 1 then 1 else 0)
      else if Enters(fs, base, visited, path) then
        var below := Find(Listing(fs, base), path[0]).value.target;
        NameMultiplicity(fs, test, below, parts[1..], visited + {fs[below].key}, path[1..])
      else 0
  {
    hide Descend, LastEntry;
    DescendNowhere(fs, base, visited);
    if path != [] {
      NameStep(fs, test, base, parts, visited, path);
      if |path| == 1 {
        assert path[1..] == [];
        if |parts| > 1 { WaysNeedsName(test, parts[1..]); }
      }
      if Enters(fs, base, visited, path) {
        var below := Find(Listing(fs, base), path[0]).value.target;
        DescendNowhere(fs, below, visited + {fs[below].key});
      }
    }
  }

  // ---------- The same without counting and without the visited set ----------

  /** `pieces` shares the names out among the segments: one each, any number for `**`. */
  ghost predicate IsFit(test: Test, parts: seq<string>, names: Path, pieces: seq<Path>) {
    && |pieces| == |parts| && Concat(pieces) == names
    && forall i :: 0 <= i < |parts| ==> parts[i] == "**" || (|pieces[i]| == 1 && test(parts[i], pieces[i][0]))
  }

  ghost predicate Fits(test: Test, parts: seq<string>, names: Path) {
    exists pieces :: IsFit(test, parts, names, pieces)
  }

  lemma FitCons(test: Test, part: string, parts: seq<string>, piece: Path, pieces: seq<Path>, names: Path)
    requires IsFit(test, parts, names, pieces)
    requires part == "**" || (|piece| == 1 && test(part, piece[0]))
    ensures IsFit(test, [part] + parts, piece + names, [piece] + pieces)
  {
    assert ([piece] + pieces)[1..] == pieces;
  }

  /** A fit, when there is a way. */
  lemma {:induction false} FitOfWay(test: Test, parts: seq<string>, names: Path) returns (pieces: seq<Path>)
    requires Ways(test, parts, names) > 0
    ensures IsFit(test, parts, names, pieces)
    decreases |parts| + |names|
  {
    if parts == [] {
      pieces := [];
    } else {
      assert parts == [parts[0]] + parts[1..];
      var piece, rest;
      if parts[0] == "**" && Ways(test, parts[1..], names) > 0 {
        piece := [];
        rest := FitOfWay(test, parts[1..], names);
        FitCons(test, "**", parts[1..], piece, rest, names);
        assert [] + names == names;
      } else if parts[0] == "**" {
        var fit := FitOfWay(test, parts, names[1..]);
        piece, rest := [names[0]] + fit[0], fit[1..];
        assert IsFit(test, parts[1..], Concat(rest), rest);
        FitCons(test, "**", parts[1..], piece, rest, Concat(rest));
        Associate([names[0]], fit[0], Concat(rest));
        assert names == [names[0]] + names[1..];
      } else {
        piece := [names[0]];
        rest := FitOfWay(test, parts[1..], names[1..]);
        FitCons(test, parts[0], parts[1..], piece, rest, names[1..]);
        assert names == [names[0]] + names[1..];
      }
      pieces := [piece] + rest;
    }
  }

  /** A way, when there is a fit. */
  lemma {:induction false} WayOfFit(test: Test, parts: seq<string>, names: Path, pieces: seq<Path>)
    requires IsFit(test, parts, names, pieces)
    ensures Ways(test, parts, names) > 0
    decreases |parts| + |names|
  {
    if parts != [] {
      var first, rest := pieces[0], pieces[1..];
      assert IsFit(test, parts[1..], Concat(rest), rest);
      if parts[0] == "**" && first != [] {
        FitCons(test, "**", parts[1..], first[1..], rest, Concat(rest));
        assert [parts[0]] + parts[1..] == parts;
        assert first == [first[0]] + first[1..];
        Associate([first[0]], first[1..], Concat(rest));
        assert names[1..] == first[1..] + Concat(rest);
        WayOfFit(test, parts, names[1..], [first[1..]] + rest);
      } else {
        assert names[|first|..] == Concat(rest) && names[0..] == names;
        WayOfFit(test, parts[1..], Concat(rest), rest);
      }
    }
  }

  lemma WaysIffFits(test: Test, parts: seq<string>, names: Path)
    ensures Ways(test, parts, names) > 0 <==> Fits(test, parts, names)
  {
    if Ways(test, parts, names) > 0 {
      var pieces := FitOfWay(test, parts, names);
    }
    if pieces :| IsFit(test, parts, names, pieces) {
      WayOfFit(test, parts, names, pieces);
    }
  }

  /** Following names through directories, cycles and all. */
  function Resolve(fs: FileSystem, base: nat, names: Path): (end: Option<nat>)
    decreases |names|
  {
    if names == [] then Some(base) else
      match Find(Listing(fs, base), names[0])
      case None => None
      case Some(entry) => if IsDirectory(fs, entry.target) then Resolve(fs, entry.target, names[1..]) else None
  }

  /** The keys of the directories entered on the way. */
  function KeysEntered(fs: FileSystem, base: nat, names: Path): (keys: seq<string>)
    decreases |names|
  {
    if names == [] then [] else
      match Find(Listing(fs, base), names[0])
      case None => []
      case Some(entry) =>
        if IsDirectory(fs, entry.target) then [fs[entry.target].key] + KeysEntered(fs, entry.target, names[1..]) else []
  }

  ghost predicate AllNew(keys: seq<string>, visited: set<string>) {
    && (forall i :: 0 <= i < |keys| ==> keys[i] !in visited)
    && (forall i, j :: 0 <= i < j < |keys| ==> keys[i] != keys[j])
  }

  lemma AllNewCons(key: string, keys: seq<string>, visited: set<string>)
    ensures AllNew([key] + keys, visited) <==> key !in visited && AllNew(keys, visited + {key})
  {
    var all := [key] + keys;
    assert forall i :: 0 <= i < |keys| ==> all[i + 1] == keys[i];
    if AllNew(all, visited) {
      assert all[0] == key;
      forall i | 0 <= i < |keys|
        ensures keys[i] !in visited + {key}
      {
        assert all[i + 1] != all[0];
      }
      forall i, j | 0 <= i < j < |keys|
        ensures keys[i] != keys[j]
      {
        assert all[i + 1] != all[j + 1];
      }
    }
  }

  /** The visited set does nothing but keep the keys along one descent distinct. */
  lemma {:induction false} DescendMeansDistinct(fs: FileSystem, base: nat, names: Path, visited: set<string>)
    ensures Descend(fs, base, names, visited) ==
      if Resolve(fs, base, names).Some? && AllNew(KeysEntered(fs, base, names), visited)
      then Resolve(fs, base, names) else None
    decreases |names|
  {
    if names != [] {
      var found := Find(Listing(fs, base), names[0]);
      if found.Some? && IsDirectory(fs, found.value.target) {
        var key := fs[found.value.target].key;
        DescendMeansDistinct(fs, found.value.target, names[1..], visited + {key});
        AllNewCons(key, KeysEntered(fs, found.value.target, names[1..]), visited);
      }
    }
  }

  /** The keys met on the way, the base first, are pairwise distinct. */
  ghost predicate NoCycle(fs: FileSystem, base: nat, names: Path) {
    AllNew((if base in fs then [fs[base].key] else []) + KeysEntered(fs, base, names), {})
  }

  /** The names lead through directories to a directory, never into one twice. */
  ghost predicate LeadsToDirectory(fs: FileSystem, base: nat, names: Path) {
    Resolve(fs, base, names).Some? && NoCycle(fs, base, names)
  }

  /** The entry a path ends at, in a directory it leads to. */
  ghost function Listed(fs: FileSystem, base: nat, path: Path): (entry: Option<Entry>) {
    if path != [] && LeadsToDirectory(fs, base, path[..|path| - 1])
    then Find(Listing(fs, Resolve(fs, base, path[..|path| - 1]).value), path[|path| - 1])
    else None
  }

  /** What a user means by a path matching a pattern. */
  ghost predicate Matches(fs: FileSystem, test: Test, base: nat, parts: seq<string>, path: Path) {
    parts != [] &&
    if parts[|parts| - 1] == "**" then
      || (LeadsToDirectory(fs, base, path) && Fits(test, parts, path))
      || (Listed(fs, base, path).Some? && IsFile(fs, Listed(fs, base, path).value.target)
          && Fits(test, parts, path[..|path| - 1]))
    else
      Listed(fs, base, path).Some? && Fits(test, parts, path)
  }

  lemma DescendFromBase(fs: FileSystem, base: nat, names: Path)
    ensures var visited := if base in fs then {fs[base].key} else {};
      Descend(fs, base, names, visited) ==
        if LeadsToDirectory(fs, base, names) then Resolve(fs, base, names) else None
  {
    var visited := if base in fs then {fs[base].key} else {};
    DescendMeansDistinct(fs, base, names, visited);
    var keys := KeysEntered(fs, base, names);
    if base in fs {
      AllNewCons(fs[base].key, keys, {});
      assert {} + {fs[base].key} == visited;
    } else {
      assert [] + keys == keys;
    }
  }

  /** A file is not a directory: a path cannot lead to both. */
  lemma {:induction false} NotBoth(fs: FileSystem, base: nat, path: Path, visited: set<string>)
    requires Descend(fs, base, path, visited).Some?
    ensures !EndsInFile(fs, base, path, visited)
    decreases |path|
  {
    hide LastEntry;
    if path == [] {
      DescendNowhere(fs, base, visited);
    } else {
      LastEntryStep(fs, base, path, visited);
      if |path| > 1 {
        var found := Find(Listing(fs, base), path[0]);
        NotBoth(fs, found.value.target, path[1..], visited + {fs[found.value.target].key});
      }
    }
  }

  /** Sound and complete: a path is yielded exactly when it matches. */
  lemma GlobYields(fs: FileSystem, test: Test, base: nat, parts: seq<string>, path: Path)
    requires Proper(fs)
    ensures path in GlobPaths(fs, test, base, parts) <==> Matches(fs, test, base, parts, path)
  {
    hide Ways, Fits, Descend, NoCycle, Walk, Resolve;
    var visited := if base in fs then {fs[base].key} else {};
    WalkCounts(fs, test, base, parts, visited, path);
    WaysIffFits(test, parts, path);
    DescendFromBase(fs, base, path);
    if path != [] {
      WaysIffFits(test, parts, path[..|path| - 1]);
      DescendFromBase(fs, base, path[..|path| - 1]);
    }
    if Descend(fs, base, path, visited).Some? { NotBoth(fs, base, path, visited); }
  }

  // ---------- No duplicates ----------

  function Stars(parts: seq<string>): (n: nat) {
    if parts == [] then 0 else (if parts[0] == "**" then 1 else 0) + Stars(parts[1..])
  }

  /** Every other segment takes one name. */
  lemma {:induction false} WaysLength(test: Test, parts: seq<string>, names: Path)
    requires Ways(test, parts, names) > 0
    ensures |names| >= |parts| - Stars(parts)
    ensures Stars(parts) == 0 ==> |names| == |parts|
    decreases |parts| + |names|
  {
    if parts != [] {
      if parts[0] == "**" {
        if Ways(test, parts[1..], names) > 0 {
          WaysLength(test, parts[1..], names);
        } else {
          WaysLength(test, parts, names[1..]);
        }
      } else {
        WaysLength(test, parts[1..], names[1..]);
      }
    }
  }

  lemma {:induction false} OneStarOneWay(test: Test, parts: seq<string>, names: Path)
    requires Stars(parts) <= 1
    ensures Ways(test, parts, names) <= 1
    decreases |parts| + |names|
  {
    if parts != [] {
      OneStarOneWay(test, parts[1..], names);
      if names != [] {
        OneStarOneWay(test, parts[1..], names[1..]);
        if parts[0] == "**" {
          OneStarOneWay(test, parts, names[1..]);
          if Ways(test, parts[1..], names) > 0 { WaysLength(test, parts[1..], names); }
          if Ways(test, parts, names[1..]) > 0 { WaysLength(test, parts, names[1..]); }
        }
      }
    }
  }

  /** With at most one `**` in the pattern no path is yielded twice. */
  lemma GlobUnique(fs: FileSystem, test: Test, base: nat, parts: seq<string>, path: Path)
    requires Proper(fs) && Stars(parts) <= 1
    ensures Count(GlobPaths(fs, test, base, parts), path) <= 1
  {
    WalkCounts(fs, test, base, parts, if base in fs then {fs[base].key} else {}, path);
    OneStarOneWay(test, parts, path);
    if path != [] { OneStarOneWay(test, parts, path[..|path| - 1]); }
  }

  // ---------- Duplicates ----------

  /** `d/d/.../d`, of any length. */
  function Steps(n: nat): (names: Path)
    ensures |names| == n
  {
    seq(n, _ => "d")
  }

  lemma StepsTail(n: nat)
    requires n > 0
    ensures Steps(n)[0] == Steps(n)[n - 1] == "d" && Steps(n)[1..] == Steps(n - 1) && Steps(n)[..n - 1] == Steps(n - 1)
  {
  }

  /** A different key for every directory: as many letters as its number. */
  function ChainKey(i: nat): (key: string)
    ensures |key| == i
  {
    seq(i, _ => 'k')
  }

  function ChainEntries(i: nat, depth: nat): (entries: seq<Entry>) {
    if i < depth then [Entry("d", i + 1)] else []
  }

  /** A chain of directories: each but the last contains the next, under the name `d`. */
  function Chain(depth: nat): (fs: FileSystem) {
    map i: nat | 0 <= i <= depth :: Object(ChainKey(i), true, Some(ChainEntries(i, depth)))
  }

  /** A matcher that accepts every name. */
  const ANYTHING: Test := (part: string, name: string) => true

  lemma {:induction false} DescendChain(depth: nat, i: nat, n: nat, visited: set<string>)
    requires i + n <= depth && forall j: nat :: i < j ==> ChainKey(j) !in visited
    ensures Descend(Chain(depth), i, Steps(n), visited) == Some(i + n)
    decreases n
  {
    hide Chain, ChainKey;
    if n > 0 {
      StepsTail(n);
      ChainListing(depth, i);
      ChainListing(depth, i + 1);
      forall j: nat | i + 1 < j
        ensures ChainKey(j) !in visited + {ChainKey(i + 1)}
      {
        assert |ChainKey(j)| != |ChainKey(i + 1)|;
      }
      DescendChain(depth, i + 1, n - 1, visited + {ChainKey(i + 1)});
    }
  }

  lemma ChainListing(depth: nat, i: nat)
    requires i <= depth
    ensures i in Chain(depth) && Chain(depth)[i].key == ChainKey(i) && IsDirectory(Chain(depth), i)
    ensures Listing(Chain(depth), i) == ChainEntries(i, depth)
    ensures i < depth ==> Find(Listing(Chain(depth), i), "d") == Some(Entry("d", i + 1))
  {
  }

  /** When every name is accepted, `**` can make up any surplus of names, and two can share it in two ways. */
  lemma {:induction false} ManyWays(parts: seq<string>, n: nat)
    requires n >= |parts| - Stars(parts) && (Stars(parts) == 0 ==> n == |parts|)
    ensures Ways(ANYTHING, parts, Steps(n)) >= 1
    ensures Stars(parts) >= 2 && n > |parts| - Stars(parts) ==> Ways(ANYTHING, parts, Steps(n)) >= 2
    decreases |parts| + n
  {
    StarsBound(parts);
    if parts != [] {
      if n > 0 { StepsTail(n); }
      StarsBound(parts[1..]);
      if parts[0] != "**" {
        ManyWays(parts[1..], n - 1);
      } else {
        if Stars(parts[1..]) > 0 || n == |parts[1..]| {
          ManyWays(parts[1..], n);
        }
        if n > |parts| - Stars(parts) {
          ManyWays(parts, n - 1);
        }
      }
    }
  }

  lemma {:induction false} StarsBound(parts: seq<string>)
    ensures Stars(parts) <= |parts|
  {
    if parts != [] { StarsBound(parts[1..]); }
  }

  lemma {:induction false} ChainIsProper(depth: nat)
    ensures Proper(Chain(depth))
  {
    forall id <- Chain(depth)
      ensures DistinctNames(Listing(Chain(depth), id))
    {
      ChainListing(depth, id);
    }
  }

  /** Everything in the chain can be reached: how often a path is yielded is how often it fits. */
  lemma {:induction false} ChainCount(parts: seq<string>, depth: nat)
    requires parts != [] && depth > 0
    ensures Count(GlobPaths(Chain(depth), ANYTHING, 0, parts), Steps(depth)) == Ways(ANYTHING, parts, Steps(depth))
  {
    hide Ways, Walk, ChainKey, Steps, Descend, Chain;
    var fs, visited := Chain(depth), {ChainKey(0)};
    ChainIsProper(depth);
    ChainListing(depth, 0);
    ChainListing(depth, depth - 1);
    StepsTail(depth);
    WalkCounts(fs, ANYTHING, 0, parts, visited, Steps(depth));
    assert forall j: nat :: 0 < j ==> |ChainKey(j)| != |ChainKey(0)|;
    DescendChain(depth, 0, depth, visited);
    DescendChain(depth, 0, depth - 1, visited);
  }

  /** Every pattern with two `**` yields some path of some proper file system twice. */
  lemma {:induction false} GlobTwice(parts: seq<string>)
    requires Stars(parts) >= 2
    ensures var n := |parts| - Stars(parts) + 1;
      n > 0 && Proper(Chain(n)) && Count(GlobPaths(Chain(n), ANYTHING, 0, parts), Steps(n)) >= 2
  {
    hide Ways, Walk, Chain, Steps;
    StarsBound(parts);
    var n := |parts| - Stars(parts) + 1;
    ChainIsProper(n);
    ManyWays(parts, n);
    ChainCount(parts, n);
  }

  ghost predicate Duplicates(fs: FileSystem, test: Test, base: nat, parts: seq<string>, path: Path) {
    Proper(fs) && Count(GlobPaths(fs, test, base, parts), path) >= 2
  }

  /** A pattern can yield a path twice if and only if it has at least two `**`. */
  lemma {:induction false} DuplicatesIffTwoStars(parts: seq<string>)
    ensures (exists fs, test, base, path :: Duplicates(fs, test, base, parts, path)) <==> Stars(parts) >= 2
  {
    if Stars(parts) >= 2 {
      GlobTwice(parts);
      var n := |parts| - Stars(parts) + 1;
      assert Duplicates(Chain(n), ANYTHING, 0, parts, Steps(n));
    }
    if fs, test, base, path :| Duplicates(fs, test, base, parts, path) {
      if Stars(parts) <= 1 { GlobUnique(fs, test, base, parts, path); }
    }
  }
}
