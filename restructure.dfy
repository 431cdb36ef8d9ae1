/**
 * `RestructureForCMIP6`: moving CMIP6 files into the version directories
 * `<base>/<facet>/.../<facet>/v<version>` of their dataset identifiers.
 *
 * The file system is a map from path, as the tool spells it, to a node;
 * paths are not resolved against each other, so two spellings of one
 * directory are two keys. Write permission (`os.access`) is a set of
 * writable directories, and the device number `os.stat` reports is the
 * value passed in for the path at the time of the call.
 */
module Restructure {
  import opened Wrappers
  import opened Text
  import opened PosixPath
  import DrsConfigs
  import DatasetDrs

  datatype RestructureError =
    | InvalidMove(dir: string)
    | NotEmpty(dir: string)
    | NotADirectory(path: string)
    | RenameFailed(path: string)

  predicate Distinct(s: seq<string>)
  {
    forall i, j :: 0 <= i < j < |s| ==> s[i] != s[j]
  }

  lemma {:induction false} DistinctCard(s: seq<string>)
    requires Distinct(s)
    ensures |set x | x in s| == |s|
    decreases |s|
  {
    if s != [] {
      var init := s[..|s| - 1];
      var last := s[|s| - 1];
      assert Distinct(init);
      DistinctCard(init);
      assert (set x | x in s) == (set x | x in init) + {last} by {
        assert s == init + [last];
      }
      assert last !in (set x | x in init);
    }
  }

  lemma PermutationKeepsDistinct(s: seq<string>, t: seq<string>)
    requires Distinct(s) && multiset(t) == multiset(s)
    ensures Distinct(t) && (set x | x in t) == (set x | x in s)
  {
    forall i, j | 0 <= i < j < |t| ensures t[i] != t[j] {
      MultiplicityOfDistinct(s, t[i]);
      TwoOccurrences(t, i, j);
    }
    forall x ensures x in t <==> x in s {
      assert x in t <==> x in multiset(t);
      assert x in s <==> x in multiset(s);
    }
  }

  lemma TwoOccurrences(t: seq<string>, i: nat, j: nat)
    requires i < j < |t|
    ensures multiset(t)[t[i]] >= if t[i] == t[j] then 2 else 1
  {
    assert t == t[..i] + [t[i]] + t[i + 1..j] + [t[j]] + t[j + 1..];
  }

  lemma {:induction false} MultiplicityOfDistinct(s: seq<string>, x: string)
    requires Distinct(s)
    ensures multiset(s)[x] <= 1
    decreases |s|
  {
    if s != [] {
      var init := s[..|s| - 1];
      assert s == init + [s[|s| - 1]];
      assert Distinct(init);
      MultiplicityOfDistinct(init, x);
      if x == s[|s| - 1] {
        assert x !in init;
      }
    }
  }

  // ---------------------------------------------------------------------
  // the set of input files

  /**
   * `_add_to_file_set`: the file is in the set afterwards, which grew by
   * at most that one file; a file already there only draws a warning.
   */
  function AddToFileSet(s: set<string>, v: string): (r: (set<string>, bool))
    ensures v in r.0 && s <= r.0 && r.0 - s <= {v}
    ensures |r.0| == if v in s then |s| else |s| + 1
    ensures r.1 <==> v in s
  {
    if v in s then
      assert s + {v} == s;
      (s, true)
    else
      assert s * {v} == {};
      (s + {v}, false)
  }

  /** The set of input files `_get_paths` builds. */
  class FileSet {
    var files: set<string>

    constructor()
      ensures files == {}
    {
      files := {};
    }

    /** `_add_to_file_set`: `duplicate` tells whether the warning is printed. */
    method Add(v: string) returns (duplicate: bool)
      modifies this
      ensures (files, duplicate) == AddToFileSet(old(files), v)
    {
      duplicate := v in files;
      if !duplicate {
        files := files + {v};
      }
    }
  }

  // ---------------------------------------------------------------------
  // output directories

  /** `_get_output_dir`: the base directory joined with the pieces of the identifier between dots. */
  function GetOutputDir(base: string, datasetId: string): string
  {
    JoinAll(base, Split(datasetId, '.'))
  }

  /** An identifier whose pieces are clean names. */
  predicate CleanId(datasetId: string)
  {
    AllClean(Split(datasetId, '.'))
  }

  /** Below a base that does not end in `/`, each piece of a clean identifier becomes one directory level. */
  lemma OutputDirShape(base: string, datasetId: string)
    requires base != "" && !TrailingSlash(base) && CleanId(datasetId)
    ensures GetOutputDir(base, datasetId) == base + "/" + Join(Split(datasetId, '.'), '/')
  {
    var pieces := Split(datasetId, '.');
    JoinAllClean(base, pieces);
  }

  /** Below such a base, distinct clean identifiers get distinct output directories. */
  lemma OutputDirInjective(base: string, a: string, b: string)
    requires base != "" && !TrailingSlash(base) && CleanId(a) && CleanId(b)
    requires GetOutputDir(base, a) == GetOutputDir(base, b)
    ensures a == b
  {
    OutputDirShape(base, a);
    OutputDirShape(base, b);
    var pa := Split(a, '.');
    var pb := Split(b, '.');
    var k := |base| + 1;
    assert Join(pa, '/') == GetOutputDir(base, a)[k..];
    assert Join(pb, '/') == GetOutputDir(base, b)[k..];
    assert forall i :: 0 <= i < |pa| ==> '/' !in pa[i];
    assert forall i :: 0 <= i < |pb| ==> '/' !in pb[i];
    SplitJoin(pa, '/');
    SplitJoin(pb, '/');
  }

  /** The absolute base directory made of clean components. */
  function RootedBase(bcs: seq<string>): string
  {
    "/" + Join(bcs, '/')
  }

  /**
   * The output directory of a plausible identifier under an absolute base,
   * read back as a dataset directory, yields the identifier again, when no
   * piece of the identifier holds a `/`.
   */
  lemma OutputDirRoundTrip(c: DrsConfigs.DrsConfig, bcs: seq<string>, datasetId: string)
    requires DrsConfigs.WellFormed(c)
    requires AllClean(bcs) && DatasetDrs.PlausibleDatasetId(c, datasetId) && '/' !in datasetId
    ensures DatasetDrs.DirToDatasetId(c, GetOutputDir(RootedBase(bcs), datasetId)) == Some(datasetId)
  {
    var facets := Split(datasetId, '.');
    PlausibleIdPieces(c, datasetId);
    DatasetDrs.DirOfFacets(c, bcs, facets);
    BaseJoin(bcs, facets);
    SplitJoinId(datasetId);
  }

  /** The pieces of a plausible identifier without `/` are clean facets. */
  lemma PlausibleIdPieces(c: DrsConfigs.DrsConfig, datasetId: string)
    requires DrsConfigs.WellFormed(c)
    requires DatasetDrs.PlausibleDatasetId(c, datasetId) && '/' !in datasetId
    ensures var facets := Split(datasetId, '.');
      && |facets| == c.numFacets && DatasetDrs.NoDots(facets) && AllClean(facets)
      && forall i :: 0 <= i < |facets| ==> facets[i] != "" && '/' !in facets[i]
  {
    var facets := Split(datasetId, '.');
    forall i | 0 <= i < |facets| ensures '/' !in facets[i] {
      SlashFreePiece(datasetId, facets, i);
    }
    forall i | 0 <= i < |facets| ensures CleanComponent(facets[i]) {
      assert facets[i] != "";
      assert facets[i][0] in facets[i];
    }
  }

  /** Joining clean facets onto the rooted base is the rooted join of base and facets together. */
  lemma BaseJoin(bcs: seq<string>, facets: seq<string>)
    requires AllClean(bcs) && AllClean(facets) && facets != []
    ensures JoinAll(RootedBase(bcs), facets) == "/" + Join(bcs + facets, '/')
  {
    if bcs == [] {
      JoinAllRoot(facets);
      assert RootedBase(bcs) == "/";
      assert bcs + facets == facets;
    } else {
      BaseJoinBelow(bcs, facets);
    }
  }

  lemma BaseJoinBelow(bcs: seq<string>, facets: seq<string>)
    requires AllClean(bcs) && AllClean(facets) && facets != [] && bcs != []
    ensures JoinAll(RootedBase(bcs), facets) == "/" + Join(bcs + facets, '/')
  {
    var a := Join(bcs, '/');
    var b := Join(facets, '/');
    JoinEndsWith(bcs);
    JoinAllClean(RootedBase(bcs), facets);
    assert JoinAll(RootedBase(bcs), facets) == ("/" + a) + "/" + b;
    var cs := bcs + facets;
    JoinSplitAt(cs, |bcs|, '/');
    assert cs[..|bcs|] == bcs && cs[|bcs|..] == facets;
    assert Join(cs, '/') == a + "/" + b;
    Associative3("/", a, b);
  }

  lemma Associative3(x: string, a: string, b: string)
    ensures (x + a) + "/" + b == x + (a + "/" + b)
  {
  }

  lemma SlashFreePiece(s: string, pieces: seq<string>, i: nat)
    requires '/' !in s && pieces == Split(s, '.') && i < |pieces|
    ensures '/' !in pieces[i]
  {
    if '/' in pieces[i] {
      var k :| 0 <= k < |pieces[i]| && pieces[i][k] == '/';
      JoinHolds(pieces, '.', i, k);
    }
  }

  /** A character of a piece is a character of the join. */
  lemma {:induction false} JoinHolds(parts: seq<string>, sep: char, i: nat, k: nat)
    requires i < |parts| && k < |parts[i]|
    ensures parts[i][k] in Join(parts, sep)
    decreases |parts|
  {
    if |parts| > 1 {
      var rest := Join(parts[1..], sep);
      assert Join(parts, sep) == parts[0] + [sep] + rest;
      if i == 0 {
        assert Join(parts, sep)[k] == parts[0][k];
      } else {
        JoinHolds(parts[1..], sep, i - 1, k);
        var p :| 0 <= p < |rest| && rest[p] == parts[i][k];
        assert Join(parts, sep)[|parts[0]| + 1 + p] == rest[p];
      }
    }
  }

  lemma JoinEndsWith(bcs: seq<string>)
    requires bcs != [] && AllClean(bcs)
    ensures !TrailingSlash(RootedBase(bcs)) && RootedBase(bcs) != ""
  {
    var b := RootedBase(bcs);
    var last := bcs[|bcs| - 1];
    CleanEnds(last);
    if |bcs| > 1 {
      JoinSplitAt(bcs, |bcs| - 1, '/');
      assert bcs[|bcs| - 1..] == [last];
    }
    assert b[|b| - 1] == last[|last| - 1];
  }

  lemma SplitJoinId(s: string)
    ensures Join(Split(s, '.'), '.') == s
  {
  }

  /** The identifiers of `ids` without repeats, each where it first occurs. */
  function Dedup(ids: seq<string>): (r: seq<string>)
    ensures Distinct(r) && (set x | x in r) == (set x | x in ids)
    ensures forall x :: x in r <==> x in ids
    decreases |ids|
  {
    if ids == [] then []
    else
      var init := Dedup(ids[..|ids| - 1]);
      var last := ids[|ids| - 1];
      assert ids == ids[..|ids| - 1] + [last];
      var prev := ids[..|ids| - 1];
      assert (set x | x in ids) == (set x | x in prev) + {last};
      assert (set x | x in init + [last]) == (set x | x in init) + {last};
      if last in init then init else init + [last]
  }

  function IdsOf(paths: seq<string>, idOf: string -> string): (r: seq<string>)
    ensures |r| == |paths| && forall i :: 0 <= i < |paths| ==> r[i] == idOf(paths[i])
  {
    if paths == [] then [] else [idOf(paths[0])] + IdsOf(paths[1..], idOf)
  }

  lemma IdsOfElements(paths: seq<string>, idOf: string -> string)
    ensures (set x | x in IdsOf(paths, idOf)) == (set p | p in paths :: idOf(p))
    ensures forall x :: x in IdsOf(paths, idOf) <==> exists p :: p in paths && x == idOf(p)
  {
    var all := IdsOf(paths, idOf);
    forall x ensures x in all <==> exists p :: p in paths && x == idOf(p) {
      if x in all {
        var i :| 0 <= i < |all| && all[i] == x;
        assert paths[i] in paths;
      }
      if exists p :: p in paths && x == idOf(p) {
        var p :| p in paths && x == idOf(p);
        var i :| 0 <= i < |paths| && paths[i] == p;
        assert all[i] == x;
      }
    }
  }

  function OutputDirs(base: string, ids: seq<string>): (r: seq<string>)
    ensures |r| == |ids| && forall i :: 0 <= i < |ids| ==> r[i] == GetOutputDir(base, ids[i])
  {
    if ids == [] then [] else [GetOutputDir(base, ids[0])] + OutputDirs(base, ids[1..])
  }

  lemma OutputDirsElements(base: string, ids: seq<string>)
    ensures forall d :: d in OutputDirs(base, ids) <==> exists id :: id in ids && d == GetOutputDir(base, id)
  {
    var outs := OutputDirs(base, ids);
    forall d ensures d in outs <==> exists id :: id in ids && d == GetOutputDir(base, id) {
      if d in outs {
        var i :| 0 <= i < |outs| && outs[i] == d;
        assert ids[i] in ids;
      }
      if exists id :: id in ids && d == GetOutputDir(base, id) {
        var id :| id in ids && d == GetOutputDir(base, id);
        var i :| 0 <= i < |ids| && ids[i] == id;
        assert outs[i] == d;
      }
    }
  }

  lemma SameElements(s: seq<string>, t: seq<string>)
    requires multiset(s) == multiset(t)
    ensures forall x :: x in s <==> x in t
  {
    forall x ensures x in s <==> x in t {
      assert x in s <==> x in multiset(s);
      assert x in t <==> x in multiset(t);
    }
  }

  /**
   * `_get_dataset_dirs`: the sorted output directories, one for each
   * distinct identifier among the files, and each file's own output
   * directory. `paths` lists the set of input files in the order the set
   * is iterated; the result does not depend on that order.
   */
  function GetDatasetDirs(base: string, paths: seq<string>, idOf: string -> string): (r: (seq<string>, map<string, string>))
    ensures Sorted(r.0)
    ensures |r.0| == |set p | p in paths :: idOf(p)|
    ensures forall d :: d in r.0 <==> exists p :: p in paths && d == GetOutputDir(base, idOf(p))
    ensures r.1.Keys == (set p | p in paths)
    ensures forall p :: p in r.1 ==> r.1[p] == GetOutputDir(base, idOf(p))
    ensures (set d | d in r.0) == r.1.Values
  {
    var ids := Dedup(IdsOf(paths, idOf));
    var dirs := SortStrings(OutputDirs(base, ids));
    var pathsToDirs := map p | p in paths :: GetOutputDir(base, idOf(p));
    DatasetDirsCount(paths, idOf, ids);
    DatasetDirsElements(base, paths, idOf, ids, dirs);
    DatasetDirsValues(base, paths, idOf, dirs, pathsToDirs);
    (dirs, pathsToDirs)
  }

  lemma DatasetDirsCount(paths: seq<string>, idOf: string -> string, ids: seq<string>)
    requires ids == Dedup(IdsOf(paths, idOf))
    ensures |ids| == |set p | p in paths :: idOf(p)|
  {
    IdsOfElements(paths, idOf);
    DistinctCard(ids);
  }

  lemma DatasetDirsElements(base: string, paths: seq<string>, idOf: string -> string, ids: seq<string>, dirs: seq<string>)
    requires ids == Dedup(IdsOf(paths, idOf))
    requires dirs == SortStrings(OutputDirs(base, ids))
    ensures forall d :: d in dirs <==> exists p :: p in paths && d == GetOutputDir(base, idOf(p))
  {
    IdsOfElements(paths, idOf);
    OutputDirsElements(base, ids);
    SameElements(dirs, OutputDirs(base, ids));
    forall d ensures d in dirs <==> exists p :: p in paths && d == GetOutputDir(base, idOf(p)) {
      if d in dirs {
        var id :| id in ids && d == GetOutputDir(base, id);
        assert id in IdsOf(paths, idOf);
        var p :| p in paths && id == idOf(p);
      }
      if exists p :: p in paths && d == GetOutputDir(base, idOf(p)) {
        var p :| p in paths && d == GetOutputDir(base, idOf(p));
        assert idOf(p) in IdsOf(paths, idOf);
        assert idOf(p) in ids;
      }
    }
  }

  lemma DatasetDirsValues(base: string, paths: seq<string>, idOf: string -> string, dirs: seq<string>,
                          pathsToDirs: map<string, string>)
    requires forall d :: d in dirs <==> exists p :: p in paths && d == GetOutputDir(base, idOf(p))
    requires pathsToDirs == map p | p in paths :: GetOutputDir(base, idOf(p))
    ensures (set d | d in dirs) == pathsToDirs.Values
  {
    forall d ensures d in dirs <==> d in pathsToDirs.Values {
      if d in pathsToDirs.Values {
        var p :| p in pathsToDirs && pathsToDirs[p] == d;
      }
      if d in dirs {
        var p :| p in paths && d == GetOutputDir(base, idOf(p));
        assert pathsToDirs[p] == d;
      }
    }
  }

  /**
   * When every identifier is clean and the base does not end in `/`, the
   * list of output directories has no repeats.
   */
  lemma DatasetDirsDistinct(base: string, paths: seq<string>, idOf: string -> string)
    requires base != "" && !TrailingSlash(base)
    requires forall p :: p in paths ==> CleanId(idOf(p))
    ensures Distinct(GetDatasetDirs(base, paths, idOf).0)
  {
    var ids := Dedup(IdsOf(paths, idOf));
    var outs := OutputDirs(base, ids);
    IdsOfElements(paths, idOf);
    forall i | 0 <= i < |ids| ensures CleanId(ids[i]) {
      assert ids[i] in ids;
      assert ids[i] in IdsOf(paths, idOf);
      var p :| p in paths && ids[i] == idOf(p);
    }
    forall i, j | 0 <= i < j < |outs| ensures outs[i] != outs[j] {
      if outs[i] == outs[j] {
        OutputDirInjective(base, ids[i], ids[j]);
      }
    }
    PermutationKeepsDistinct(outs, SortStrings(outs));
  }

  // ---------------------------------------------------------------------
  // permissions

  /** The directory a file is moved out of: `dirname`, or `.` for a bare name. */
  function ParentOf(path: string): (d: string)
    ensures d != ""
  {
    if '/' in path then
      ParentNonEmpty(path);
      Dirname(path)
    else "."
  }

  lemma ParentNonEmpty(path: string)
    requires '/' in path
    ensures Dirname(path) != ""
  {
    var k :| 0 <= k < |path| && path[k] == '/';
    SlashBeforeCut(path, k);
    RStripSlashesSpec(path[..SlashCut(path)]);
  }

  function ParentDirs(paths: set<string>): set<string>
  {
    set p | p in paths :: ParentOf(p)
  }

  /**
   * `_check_write_permissions`: it passes exactly when the parent
   * directory of every file is writable, and otherwise names a parent
   * that is not.
   */
  method CheckWritePermissions(paths: set<string>, writable: set<string>) returns (r: Outcome<RestructureError>)
    ensures r.Pass? <==> forall p :: p in paths ==> ParentOf(p) in writable
    ensures r.Fail? ==> exists p :: p in paths && ParentOf(p) !in writable && r.error == InvalidMove(ParentOf(p))
  {
    var parents := ParentDirs(paths);
    var rest := parents;
    while rest != {}
      invariant rest <= parents
      invariant forall d :: d in parents - rest ==> d in writable
      decreases |rest|
    {
      var d :| d in rest;
      if d !in writable {
        var p :| p in paths && ParentOf(p) == d;
        return Fail(InvalidMove(d));
      }
      rest := rest - {d};
    }
    assert forall p :: p in paths ==> ParentOf(p) in parents;
    return Pass;
  }

  // ---------------------------------------------------------------------
  // device numbers

  /** `_stat_dev_cache` and the way `_stat_dev_with_cache` fills it. */
  class StatDevCache {
    var cache: map<string, int>
    /** The paths whose device number was looked up, in order. */
    ghost var computed: seq<string>

    /** Every cached path was looked up once, and only cached paths were. */
    ghost predicate Valid()
      reads this
    {
      Distinct(computed) && (set p | p in computed) == cache.Keys
    }

    constructor()
      ensures Valid() && cache == map[] && computed == []
    {
      cache := map[];
      computed := [];
    }

    /**
     * The cached device number of `path`; `dev` is what looking it up now
     * would give, and is used only when the path is not cached yet.
     */
    method StatDevWithCache(path: string, dev: int) returns (d: int)
      requires Valid()
      modifies this
      ensures Valid() && path in cache && d == cache[path]
      ensures path in old(cache) ==> d == old(cache)[path] && cache == old(cache) && computed == old(computed)
      ensures path !in old(cache) ==> d == dev && cache == old(cache)[path := dev] && computed == old(computed) + [path]
    {
      if path !in cache {
        cache := cache[path := dev];
        computed := computed + [path];
        assert (set p | p in computed) == old((set p | p in computed)) + {path};
      }
      d := cache[path];
    }
  }

  // ---------------------------------------------------------------------
  // creating directories and moving files

  datatype Node = Directory | File(content: string)

  type Entries = map<string, Node>

  /** `os.listdir(p)` is not empty. */
  predicate HasChildren(entries: Entries, p: string)
  {
    exists q :: q in entries && q != p && Dirname(q) == p
  }

  /** The directories `os.makedirs(p)` creates: `p` and each missing ancestor above it. */
  function MissingDirs(entries: Entries, p: string): (r: set<string>)
    ensures forall d :: d in r ==> d !in entries
    decreases |p|
  {
    if p == "" || AllSlashes(p) || p in entries then {}
    else
      DirnameShorter(p);
      {p} + MissingDirs(entries, Dirname(p))
  }

  function MakeDirs(entries: Entries, p: string): (r: Entries)
    ensures forall k :: k in entries ==> k in r && r[k] == entries[k]
    ensures forall k :: k in r && k !in entries ==> r[k] == Directory
    ensures p != "" && !AllSlashes(p) ==> p in r && (p !in entries ==> r[p] == Directory)
  {
    entries + map d | d in MissingDirs(entries, p) :: Directory
  }

  /** The loop of `_create_output_dirs`: the outcome and the file system it leaves. */
  function CreateDirs(entries: Entries, dirs: seq<string>, merge: bool): (Outcome<RestructureError>, Entries)
    decreases |dirs|
  {
    if dirs == [] then (Pass, entries)
    else
      var p := dirs[0];
      if p in entries then
        if entries[p].File? then (Fail(NotADirectory(p)), entries)
        else if HasChildren(entries, p) && !merge then (Fail(NotEmpty(p)), entries)
        else CreateDirs(entries, dirs[1..], merge)
      else CreateDirs(MakeDirs(entries, p), dirs[1..], merge)
  }

  /**
   * Creating directories only adds directories: every old entry stays as
   * it was; and when it passes, every wanted directory is a directory.
   */
  lemma {:induction false} CreateDirsSpec(entries: Entries, dirs: seq<string>, merge: bool)
    requires forall i :: 0 <= i < |dirs| ==> dirs[i] != "" && !AllSlashes(dirs[i])
    ensures var (r, after) := CreateDirs(entries, dirs, merge);
      && (forall k :: k in entries ==> k in after && after[k] == entries[k])
      && (forall k :: k in after && k !in entries ==> after[k] == Directory)
      && (r.Pass? ==> forall i :: 0 <= i < |dirs| ==> dirs[i] in after && after[dirs[i]] == Directory)
    decreases |dirs|
  {
    if dirs != [] {
      var p := dirs[0];
      var next := if p in entries then entries else MakeDirs(entries, p);
      if !(p in entries && (entries[p].File? || (HasChildren(entries, p) && !merge))) {
        assert CreateDirs(entries, dirs, merge) == CreateDirs(next, dirs[1..], merge);
        assert forall i :: 0 <= i < |dirs[1..]| ==> dirs[1..][i] == dirs[i + 1];
        CreateDirsSpec(next, dirs[1..], merge);
        var after := CreateDirs(next, dirs[1..], merge).1;
        assert p in next && next[p] == Directory;
        forall i | 0 <= i < |dirs| && CreateDirs(entries, dirs, merge).0.Pass?
          ensures dirs[i] in after && after[dirs[i]] == Directory
        {
          if i > 0 {
            assert dirs[i] == dirs[1..][i - 1];
          }
        }
      }
    }
  }

  /** Without `merge`, a wanted directory that already holds entries stops the loop before anything changes. */
  lemma CreateDirsRefusesNonEmpty(entries: Entries, dirs: seq<string>)
    requires dirs != [] && dirs[0] in entries && entries[dirs[0]] == Directory && HasChildren(entries, dirs[0])
    ensures CreateDirs(entries, dirs, false) == (Fail(NotEmpty(dirs[0])), entries)
  {
  }

  /** With `merge`, existing directories are used as they are, and only a file in the way stops the loop. */
  lemma {:induction false} CreateDirsMerging(entries: Entries, dirs: seq<string>)
    requires forall i :: 0 <= i < |dirs| ==> dirs[i] != "" && !AllSlashes(dirs[i])
    requires forall i :: 0 <= i < |dirs| ==> dirs[i] in entries ==> entries[dirs[i]] == Directory
    ensures CreateDirs(entries, dirs, true).0 == Pass
    decreases |dirs|
  {
    if dirs != [] {
      var p := dirs[0];
      var next := if p in entries then entries else MakeDirs(entries, p);
      forall i | 0 <= i < |dirs[1..]| ensures dirs[1..][i] != "" && !AllSlashes(dirs[1..][i])
        && (dirs[1..][i] in next ==> next[dirs[1..][i]] == Directory)
      {
        assert dirs[1..][i] == dirs[i + 1];
      }
      CreateDirsMerging(next, dirs[1..]);
    }
  }

  /** Where `_do_renames` moves a file: into its dataset directory, under the same base name. */
  function Target(pathsToDirs: map<string, string>, path: string): string
    requires path in pathsToDirs
  {
    PathJoin(pathsToDirs[path], Basename(path))
  }

  /**
   * The directory `target` would be placed in exists: the current or the
   * root directory, or a directory entry.
   */
  predicate ParentExists(entries: Entries, target: string)
  {
    var d := Dirname(target);
    d == "" || AllSlashes(d) || (d in entries && entries[d] == Directory)
  }

  /**
   * `os.rename(path, target)`: a missing source, a target whose directory
   * is missing or is a file, or a directory as target, fails.
   */
  function Rename(entries: Entries, path: string, target: string): (Outcome<RestructureError>, Entries)
  {
    if || path !in entries
       || !ParentExists(entries, target)
       || (target in entries && entries[target] == Directory && target != path) then
      (Fail(RenameFailed(path)), entries)
    else ((Pass, (entries - {path})[target := entries[path]]))
  }

  /** The loop of `_do_renames` over the files in the given order. */
  function Renames(entries: Entries, order: seq<string>, pathsToDirs: map<string, string>): (Outcome<RestructureError>, Entries)
    requires forall p :: p in order ==> p in pathsToDirs
    decreases |order|
  {
    if order == [] then (Pass, entries)
    else
      var step := Rename(entries, order[0], Target(pathsToDirs, order[0]));
      if step.0.Fail? then step
      else Renames(step.1, order[1..], pathsToDirs)
  }

  /**
   * When the targets are distinct and none is a file still to be moved,
   * every file ends up at its target with its content, and is no longer
   * where it was.
   */
  lemma {:induction false} RenamesPlaced(entries: Entries, order: seq<string>, pathsToDirs: map<string, string>)
    requires forall p :: p in order ==> p in pathsToDirs
    requires Distinct(order)
    requires forall i, j :: 0 <= i < |order| && 0 <= j < |order| ==> Target(pathsToDirs, order[i]) != order[j]
    requires forall i, j :: 0 <= i < j < |order| ==> Target(pathsToDirs, order[i]) != Target(pathsToDirs, order[j])
    ensures var (r, after) := Renames(entries, order, pathsToDirs);
      r.Pass? ==> forall i :: 0 <= i < |order| ==>
        && order[i] in entries && order[i] !in after
        && Target(pathsToDirs, order[i]) in after && after[Target(pathsToDirs, order[i])] == entries[order[i]]
    decreases |order|
  {
    if order != [] {
      var p := order[0];
      var t := Target(pathsToDirs, p);
      var step := Rename(entries, p, t);
      if step.0.Pass? {
        var tail := order[1..];
        assert forall i :: 0 <= i < |tail| ==> tail[i] == order[i + 1];
        RenamesPlaced(step.1, tail, pathsToDirs);
        var after := Renames(step.1, tail, pathsToDirs).1;
        if Renames(entries, order, pathsToDirs).0.Pass? {
          RenamesKeep(step.1, tail, pathsToDirs, t);
          RenamesKeepAbsent(step.1, tail, pathsToDirs, p);
          forall i | 0 <= i < |order|
            ensures && order[i] in entries && order[i] !in after
                    && Target(pathsToDirs, order[i]) in after && after[Target(pathsToDirs, order[i])] == entries[order[i]]
          {
            if i > 0 {
              assert order[i] == tail[i - 1];
              assert order[i] != p && order[i] != t;
            }
          }
        }
      }
    }
  }

  /** Later renames leave alone an entry that is neither one of their sources nor one of their targets. */
  lemma {:induction false} RenamesKeep(entries: Entries, order: seq<string>, pathsToDirs: map<string, string>, k: string)
    requires forall p :: p in order ==> p in pathsToDirs
    requires k in entries
    requires forall i :: 0 <= i < |order| ==> order[i] != k && Target(pathsToDirs, order[i]) != k
    ensures var after := Renames(entries, order, pathsToDirs).1;
      k in after && after[k] == entries[k]
    decreases |order|
  {
    if order != [] {
      var step := Rename(entries, order[0], Target(pathsToDirs, order[0]));
      if step.0.Pass? {
        assert forall i :: 0 <= i < |order[1..]| ==> order[1..][i] == order[i + 1];
        RenamesKeep(step.1, order[1..], pathsToDirs, k);
      }
    }
  }

  /** Later renames do not bring back an entry that is none of their targets. */
  lemma {:induction false} RenamesKeepAbsent(entries: Entries, order: seq<string>, pathsToDirs: map<string, string>, k: string)
    requires forall p :: p in order ==> p in pathsToDirs
    requires k !in entries
    requires forall i :: 0 <= i < |order| ==> Target(pathsToDirs, order[i]) != k
    ensures k !in Renames(entries, order, pathsToDirs).1
    decreases |order|
  {
    if order != [] {
      var step := Rename(entries, order[0], Target(pathsToDirs, order[0]));
      if step.0.Pass? {
        assert forall i :: 0 <= i < |order[1..]| ==> order[1..][i] == order[i + 1];
        RenamesKeepAbsent(step.1, order[1..], pathsToDirs, k);
      }
    }
  }

  /**
   * A run passes only if the directory of every target was there as a
   * directory from the start, when no rename moves or replaces one of
   * those directories.
   */
  lemma {:induction false} RenamesNeedParents(entries: Entries, order: seq<string>, pathsToDirs: map<string, string>)
    requires forall p :: p in order ==> p in pathsToDirs
    requires forall i, j :: 0 <= i < |order| && 0 <= j < |order| ==>
      Dirname(Target(pathsToDirs, order[i])) != order[j] && Dirname(Target(pathsToDirs, order[i])) != Target(pathsToDirs, order[j])
    ensures Renames(entries, order, pathsToDirs).0.Pass? ==>
      forall i :: 0 <= i < |order| ==> ParentExists(entries, Target(pathsToDirs, order[i]))
    decreases |order|
  {
    if order != [] {
      var p := order[0];
      var t := Target(pathsToDirs, p);
      var step := Rename(entries, p, t);
      if step.0.Pass? {
        var tail := order[1..];
        assert forall i :: 0 <= i < |tail| ==> tail[i] == order[i + 1];
        RenamesNeedParents(step.1, tail, pathsToDirs);
        if Renames(entries, order, pathsToDirs).0.Pass? {
          forall i | 0 <= i < |order| ensures ParentExists(entries, Target(pathsToDirs, order[i])) {
            if i > 0 {
              assert order[i] == tail[i - 1];
              var d := Dirname(Target(pathsToDirs, order[i]));
              assert d != p && d != t;
            }
          }
        }
      }
    }
  }

  /** `sorted(m.keys())`. */
  method SortedKeys(m: map<string, string>) returns (order: seq<string>)
    ensures Sorted(order) && Distinct(order) && (set p | p in order) == m.Keys
  {
    var keys: seq<string> := [];
    var rest := m.Keys;
    while rest != {}
      invariant rest <= m.Keys
      invariant Distinct(keys) && (set p | p in keys) == m.Keys - rest
      decreases |rest|
    {
      var k :| k in rest;
      assert (set p | p in keys + [k]) == (set p | p in keys) + {k};
      keys := keys + [k];
      rest := rest - {k};
    }
    order := SortStrings(keys);
    PermutationKeepsDistinct(keys, order);
  }

  class Disk {
    var entries: Entries

    constructor(entries: Entries)
      ensures this.entries == entries
    {
      this.entries := entries;
    }

    /** `_create_output_dirs`. */
    method CreateOutputDirs(dirs: seq<string>, merge: bool) returns (r: Outcome<RestructureError>)
      modifies this
      ensures (r, entries) == CreateDirs(old(entries), dirs, merge)
    {
      var i := 0;
      while i < |dirs|
        invariant 0 <= i <= |dirs|
        invariant CreateDirs(old(entries), dirs, merge) == CreateDirs(entries, dirs[i..], merge)
      {
        var p := dirs[i];
        assert dirs[i..][1..] == dirs[i + 1..];
        if p in entries {
          if entries[p].File? {
            return Fail(NotADirectory(p));
          }
          if HasChildren(entries, p) && !merge {
            return Fail(NotEmpty(p));
          }
        } else {
          entries := MakeDirs(entries, p);
        }
        i := i + 1;
      }
      return Pass;
    }

    /**
     * `_do_renames`: the files are moved one by one in sorted order, which
     * is returned as `order`.
     */
    method DoRenames(pathsToDirs: map<string, string>) returns (order: seq<string>, r: Outcome<RestructureError>)
      modifies this
      ensures Sorted(order) && Distinct(order) && (set p | p in order) == pathsToDirs.Keys
      ensures (r, entries) == Renames(old(entries), order, pathsToDirs)
    {
      order := SortedKeys(pathsToDirs);
      assert (set x | x in order) == pathsToDirs.Keys;
      forall p | p in order ensures p in pathsToDirs {
        assert p in (set x | x in order);
      }
      var i := 0;
      while i < |order|
        invariant 0 <= i <= |order|
        invariant Renames(old(entries), order, pathsToDirs) == Renames(entries, order[i..], pathsToDirs)
      {
        var p := order[i];
        assert order[i..][1..] == order[i + 1..];
        var step := Rename(entries, p, Target(pathsToDirs, p));
        if step.0.Fail? {
          return order, step.0;
        }
        entries := step.1;
        i := i + 1;
      }
      return order, Pass;
    }
  }
}
