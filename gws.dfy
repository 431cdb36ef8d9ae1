/**
 * `get_gws_root_from_path`: the top directory of the group workspace
 * (GWS) that a path lies in. The kind of workspace is told by the path's
 * prefix, which also fixes how many components below `/` the root has:
 * four under `/gws/`, three under `/group_workspaces/`, and two under
 * `/tmp/` when the test environment variable is set.
 *
 * `GwsRoot` is the code as written; `GwsRootChecked` is the corrected
 * lookup (see the lemmas `ShallowRootAccepted` and `DotDotLeavesArea`).
 */
module Gws {
  import opened Wrappers
  import opened Text
  import opened PosixPath

  datatype GwsError = NotAGroupWorkspace(path: string)

  /** The root depth told by the prefix; `testGws` stands for `_USE_TEST_GWS` being in the environment. */
  function Depth(path: string, testGws: bool): Option<nat>
  {
    if StartsWith(path, "/gws/") then Some(4)
    else if StartsWith(path, "/group_workspaces/") then Some(3)
    else if testGws && StartsWith(path, "/tmp/") then Some(2)
    else None
  }

  /** Every accepted prefix is absolute with a single leading slash. */
  lemma DepthAbsolute(path: string, testGws: bool)
    requires Depth(path, testGws).Some?
    ensures IsAbs(path) && InitialSlashes(path) == 1 && 2 <= Depth(path, testGws).value <= 4
  {
    assert path[0] == '/' && path[1] != '/';
    assert path[..1] == "/";
  }

  /** Python's slice `s[:n]`. */
  function Take<T>(s: seq<T>, n: nat): seq<T>
  {
    if n <= |s| then s[..n] else s
  }

  /** `get_gws_root_from_path` as written; `dirs` holds the paths `os.path.isdir` accepts. */
  function GwsRoot(path: string, testGws: bool, dirs: set<string>): Result<string, GwsError>
  {
    match Depth(path, testGws)
    case None => Failure(NotAGroupWorkspace(path))
    case Some(depth) =>
      var elements := Split(Normpath(path), '/');
      if |elements| < depth then Failure(NotAGroupWorkspace(path))
      else
        var root := JoinAll("/", Take(elements, depth + 1));
        if root in dirs then Success(root) else Failure(NotAGroupWorkspace(path))
  }

  /** The root made of the first `k` of the clean components `cs`. */
  lemma RootOfPieces(cs: seq<string>, k: nat)
    requires AllClean(cs) && 1 <= k
    ensures AllClean(Take(cs, k))
    ensures cs != [] ==> JoinAll("/", Take([""] + cs, k + 1)) == "/" + Join(Take(cs, k), '/')
  {
    assert AllClean(Take(cs, k)) by {
      forall i | 0 <= i < |Take(cs, k)| ensures CleanComponent(Take(cs, k)[i]) {
        assert Take(cs, k)[i] == cs[i];
      }
    }
    if cs != [] {
      assert Take([""] + cs, k + 1) == [""] + Take(cs, k);
      JoinAllEmptyFirst(Take(cs, k));
      JoinAllRoot(Take(cs, k));
    }
  }

  /**
   * What the code as written accepts: with `cs` the components of the
   * normalised path and `d` the depth of its prefix, a root is returned
   * once there are at least `d - 1` components, and it is made of the
   * first `d` of them, or of all when there are fewer.
   */
  lemma GwsRootAsWritten(path: string, testGws: bool, dirs: set<string>)
    requires Depth(path, testGws).Some?
    ensures var d := Depth(path, testGws).value;
      var cs := NormComponents(path);
      var r := GwsRoot(path, testGws, dirs);
      && (cs != [] ==>
            (r.Success? <==> |cs| + 1 >= d && "/" + Join(Take(cs, d), '/') in dirs)
            && (r.Success? ==> r.value == "/" + Join(Take(cs, d), '/')))
      && (cs == [] ==> (r.Success? <==> d == 2 && "/" in dirs) && (r.Success? ==> r.value == "/"))
  {
    DepthAbsolute(path, testGws);
    NormpathPieces(path);
    NormpathAbsolute(path);
    var d := Depth(path, testGws).value;
    var cs := NormComponents(path);
    if cs != [] {
      RootOfPieces(cs, d);
    } else {
      JoinAllEmptyFirst([""]);
      assert Take(["", ""], d + 1) == ["", ""];
      assert JoinAll("/", [""]) == "/";
    }
  }

  /**
   * A path with only three components under `/gws/` is accepted, and
   * returned as the root, although a root there has four.
   */
  lemma ShallowRootAccepted(a: string, b: string, testGws: bool, dirs: set<string>)
    requires CleanComponent(a) && CleanComponent(b)
    requires "/gws/" + a + "/" + b in dirs
    ensures GwsRoot("/gws/" + a + "/" + b, testGws, dirs) == Success("/gws/" + a + "/" + b)
    ensures |NormComponents("/gws/" + a + "/" + b)| == 3 < Depth("/gws/" + a + "/" + b, testGws).value
  {
    var cs := ["gws", a, b];
    var path := "/gws/" + a + "/" + b;
    assert cs[1..] == [a, b] && [a, b][1..] == [b];
    assert Join([a, b], '/') == a + "/" + b;
    assert Join(cs, '/') == "gws" + "/" + Join([a, b], '/');
    assert "gws" + "/" + (a + "/" + b) == "gws/" + a + "/" + b;
    assert path == "/" + Join(cs, '/');
    assert AllClean(cs);
    NormpathRooted(cs);
    assert path[..5] == "/gws/";
    GwsRootAsWritten(path, testGws, dirs);
    assert Take(cs, 4) == cs;
  }

  lemma SplitDotDot(cs: seq<string>)
    requires cs != [] && AllClean(cs)
    ensures Split("/gws/../" + Join(cs, '/'), '/') == ["", "gws", ".."] + cs
  {
    var t := Join(cs, '/');
    assert "/gws/../" + t == "" + "/" + ("gws" + "/" + (".." + "/" + t));
    SplitJoin(cs, '/');
    SplitAfterPiece("..", '/', t);
    SplitAfterPiece("gws", '/', ".." + "/" + t);
    SplitAfterPiece("", '/', "gws" + "/" + (".." + "/" + t));
  }

  /** The loop of `normpath` drops the empty first piece, and `gws` together with the `..` after it. */
  lemma NormLoopDotDot(cs: seq<string>)
    requires AllClean(cs)
    ensures NormLoop(["", "gws", ".."] + cs, [], true) == cs
  {
    var parts := ["", "gws", ".."] + cs;
    var none: seq<string> := [];
    assert parts[0] == "" && parts[1..] == ["gws", ".."] + cs;
    assert NormLoop(parts, none, true) == NormLoop(["gws", ".."] + cs, none, true);
    var p2 := ["gws", ".."] + cs;
    assert p2[0] == "gws" && p2[1..] == [".."] + cs;
    assert NormLoop(p2, none, true) == NormLoop([".."] + cs, ["gws"], true);
    var p3 := [".."] + cs;
    assert p3[0] == ".." && p3[1..] == cs;
    assert ["gws"][..0] == none;
    assert NormLoop(p3, ["gws"], true) == NormLoop(cs, none, true);
    NormLoopKeepsClean(cs, none);
  }

  lemma NormDotDot(cs: seq<string>)
    requires AllClean(cs) && |cs| >= 1
    ensures InitialSlashes("/gws/../" + Join(cs, '/')) == 1
    ensures NormComponents("/gws/../" + Join(cs, '/')) == cs
  {
    var t := Join(cs, '/');
    var path := "/gws/../" + t;
    assert path[..5] == "/gws/";
    DepthAbsolute(path, false);
    SplitDotDot(cs);
    NormLoopDotDot(cs);
  }

  /**
   * The prefix is tested before the path is normalised, so a `..` right
   * after it leads to a root taken from the rest of the path, which need
   * not lie under `/gws` at all.
   */
  lemma DotDotLeavesArea(cs: seq<string>, testGws: bool, dirs: set<string>)
    requires AllClean(cs) && |cs| >= 4
    requires "/" + Join(cs[..4], '/') in dirs
    ensures Normpath("/gws/../" + Join(cs, '/')) == "/" + Join(cs, '/')
    ensures GwsRoot("/gws/../" + Join(cs, '/'), testGws, dirs) == Success("/" + Join(cs[..4], '/'))
  {
    var path := "/gws/../" + Join(cs, '/');
    assert path[..5] == "/gws/";
    DepthAbsolute(path, testGws);
    NormDotDot(cs);
    NormpathPieces(path);
    GwsRootAsWritten(path, testGws, dirs);
    assert Take(cs, 4) == cs[..4];
  }

  /**
   * The corrected lookup: the normalised path must still carry the prefix
   * it was classified by, and must have at least as many components as
   * the root.
   */
  function GwsRootChecked(path: string, testGws: bool, dirs: set<string>): Result<string, GwsError>
  {
    match Depth(path, testGws)
    case None => Failure(NotAGroupWorkspace(path))
    case Some(depth) =>
      var n := Normpath(path);
      if Depth(n, testGws) != Some(depth) then Failure(NotAGroupWorkspace(path))
      else
        var elements := Split(n, '/');
        if |elements| <= depth then Failure(NotAGroupWorkspace(path))
        else
          var root := JoinAll("/", elements[..depth + 1]);
          if root in dirs then Success(root) else Failure(NotAGroupWorkspace(path))
  }

  /**
   * The corrected lookup returns a root exactly when the normalised path
   * keeps its prefix, has at least `d` components, and its first `d`
   * components name a directory; that root is made of exactly those `d`
   * components and the normalised path lies inside it.
   */
  lemma GwsRootCheckedSpec(path: string, testGws: bool, dirs: set<string>)
    ensures var r := GwsRootChecked(path, testGws, dirs);
      var n := Normpath(path);
      var cs := NormComponents(path);
      && (r.Success? <==>
            Depth(path, testGws).Some? && Depth(n, testGws) == Depth(path, testGws)
            && |cs| >= Depth(path, testGws).value && "/" + Join(cs[..Depth(path, testGws).value], '/') in dirs)
      && (r.Success? ==>
            var d := Depth(path, testGws).value;
            && |cs| >= d && r.value == "/" + Join(cs[..d], '/') && AllClean(cs[..d])
            && StartsWith(n, r.value) && (|n| == |r.value| || n[|r.value|] == '/'))
  {
    if Depth(path, testGws).Some? {
      var d := Depth(path, testGws).value;
      DepthAbsolute(path, testGws);
      NormpathPieces(path);
      NormpathAbsolute(path);
      var cs := NormComponents(path);
      if cs != [] && |cs| >= d {
        CheckedRoot(cs, d);
      }
    }
  }

  /** The root the corrected lookup takes from the split of a rooted path, and that it lies inside. */
  lemma CheckedRoot(cs: seq<string>, d: nat)
    requires AllClean(cs) && 1 <= d <= |cs|
    ensures var root := "/" + Join(cs[..d], '/');
      var n := "/" + Join(cs, '/');
      && JoinAll("/", ([""] + cs)[..d + 1]) == root && AllClean(cs[..d])
      && StartsWith(n, root) && (|n| == |root| || n[|root|] == '/')
  {
    RootOfPieces(cs, d);
    assert ([""] + cs)[..d + 1] == Take([""] + cs, d + 1);
    RootInside(cs, d);
  }

  /** A rooted path lies inside the root made of its first `d` components. */
  lemma RootInside(cs: seq<string>, d: nat)
    requires 1 <= d <= |cs|
    ensures var root := "/" + Join(cs[..d], '/');
      var n := "/" + Join(cs, '/');
      StartsWith(n, root) && (|n| == |root| || n[|root|] == '/')
  {
    if d < |cs| {
      var a := Join(cs[..d], '/');
      var b := Join(cs[d..], '/');
      JoinSplitAt(cs, d, '/');
      var n := "/" + Join(cs, '/');
      assert n == ("/" + a) + (['/'] + b);
      PrefixOfAppend("/" + a, ['/'] + b);
    } else {
      assert cs[..d] == cs;
    }
  }

  /** The corrected lookup never returns a root the code as written would not, nor a different one. */
  lemma CheckedRefinesAsWritten(path: string, testGws: bool, dirs: set<string>)
    requires GwsRootChecked(path, testGws, dirs).Success?
    ensures GwsRoot(path, testGws, dirs) == GwsRootChecked(path, testGws, dirs)
  {
    GwsRootCheckedSpec(path, testGws, dirs);
    GwsRootAsWritten(path, testGws, dirs);
    var d := Depth(path, testGws).value;
    var cs := NormComponents(path);
    assert Take(cs, d) == cs[..d];
  }
}
