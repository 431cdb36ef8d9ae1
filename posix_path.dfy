/**
 * The parts of Python's `posixpath` the tools call: `normpath`, `dirname`,
 * `basename` and `join`. Paths are plain strings, as in Python.
 */
module PosixPath {
  import opened Text

  // ---------------------------------------------------------------------
  // normpath

  /** A component that `normpath` keeps in an absolute path: not empty, not `.` or `..`, no `/`. */
  predicate CleanComponent(c: string)
  {
    c != "" && c != "." && c != ".." && '/' !in c
  }

  predicate AllClean(cs: seq<string>)
  {
    forall i :: 0 <= i < |cs| ==> CleanComponent(cs[i])
  }

  /** `os.path.isabs(p)`, which is also `p.startswith('/')`: `p` begins with `/`. */
  predicate IsAbs(p: string)
  {
    |p| > 0 && p[0] == '/'
  }

  /** `p == '/'`. */
  predicate IsRoot(p: string)
  {
    |p| == 1 && p[0] == '/'
  }

  /** `p.endswith('/')`. */
  predicate TrailingSlash(p: string)
  {
    |p| > 0 && p[|p| - 1] == '/'
  }

  /**
   * The number of leading slashes `normpath` keeps: POSIX keeps exactly
   * two (`p.startswith('//') and not p.startswith('///')`), otherwise one.
   */
  function InitialSlashes(p: string): nat
  {
    if !IsAbs(p) then 0
    else if |p| >= 2 && p[1] == '/' && !(|p| >= 3 && p[2] == '/') then 2
    else 1
  }

  /** The loop of `normpath` over the pieces of the path, left to right. */
  function NormLoop(parts: seq<string>, acc: seq<string>, absolute: bool): seq<string>
    decreases |parts|
  {
    if parts == [] then acc
    else
      var c := parts[0];
      var acc' :=
        if c == "" || c == "." then acc
        else if c != ".." || (!absolute && acc == []) || (acc != [] && acc[|acc| - 1] == "..") then acc + [c]
        else if acc != [] then acc[..|acc| - 1]
        else acc;
      NormLoop(parts[1..], acc', absolute)
  }

  function NormComponents(p: string): seq<string>
  {
    NormLoop(Split(p, '/'), [], InitialSlashes(p) > 0)
  }

  /** `os.path.normpath(p)`. */
  function Normpath(p: string): string
  {
    if |p| == 0 then "."
    else
      var r := Repeat('/', InitialSlashes(p)) + Join(NormComponents(p), '/');
      if |r| == 0 then "." else r
  }

  lemma {:induction false} NormLoopClean(parts: seq<string>, acc: seq<string>)
    requires AllClean(acc)
    requires forall i :: 0 <= i < |parts| ==> '/' !in parts[i]
    ensures AllClean(NormLoop(parts, acc, true))
    decreases |parts|
  {
    if parts != [] {
      var c := parts[0];
      var acc' :=
        if c == "" || c == "." then acc
        else if c != ".." || (!true && acc == []) || (acc != [] && acc[|acc| - 1] == "..") then acc + [c]
        else if acc != [] then acc[..|acc| - 1]
        else acc;
      assert AllClean(acc');
      NormLoopClean(parts[1..], acc');
    }
  }

  /**
   * An absolute path normalises to one or two slashes followed by clean
   * components joined with `/`.
   */
  lemma NormpathAbsolute(p: string)
    requires IsAbs(p)
    ensures AllClean(NormComponents(p))
    ensures Normpath(p) == Repeat('/', InitialSlashes(p)) + Join(NormComponents(p), '/')
    ensures 1 <= InitialSlashes(p) <= 2
  {
    NormLoopClean(Split(p, '/'), []);
  }

  lemma SplitRooted(cs: seq<string>)
    requires AllClean(cs)
    ensures cs == [] ==> Split("/" + Join(cs, '/'), '/') == ["", ""]
    ensures cs != [] ==> Split("/" + Join(cs, '/'), '/') == [""] + cs
  {
    if cs == [] {
      SplitAfterPiece("", '/', "");
      SplitNoSep("", '/');
    } else {
      SplitJoin(cs, '/');
      SplitAfterPiece("", '/', Join(cs, '/'));
    }
  }

  /** Clean components pass through the `normpath` loop unchanged. */
  lemma {:induction false} NormLoopKeepsClean(cs: seq<string>, acc: seq<string>)
    requires AllClean(cs)
    ensures NormLoop(cs, acc, true) == acc + cs
    decreases |cs|
  {
    if cs != [] {
      assert AllClean(cs[1..]) by {
        forall k | 0 <= k < |cs[1..]| ensures CleanComponent(cs[1..][k]) {
          assert cs[1..][k] == cs[k + 1];
        }
      }
      NormLoopKeepsClean(cs[1..], acc + [cs[0]]);
      assert acc + [cs[0]] + cs[1..] == acc + cs;
    }
  }

  /** `/` followed by clean components joined with `/` is already normal, and those are its components. */
  lemma NormpathRooted(cs: seq<string>)
    requires AllClean(cs)
    ensures NormComponents("/" + Join(cs, '/')) == cs
    ensures Normpath("/" + Join(cs, '/')) == "/" + Join(cs, '/')
    ensures InitialSlashes("/" + Join(cs, '/')) == 1
  {
    var p := "/" + Join(cs, '/');
    SplitRooted(cs);
    if cs == [] {
      assert p == "/";
      assert NormLoop(["", ""], [], true) == [];
    } else {
      CleanEnds(cs[0]);
      assert Join(cs, '/')[0] == cs[0][0];
      assert p[1] == cs[0][0];
      assert InitialSlashes(p) == 1;
      var parts := [""] + cs;
      assert parts[1..] == cs;
      NormLoopKeepsClean(cs, []);
      assert NormLoop(parts, [], true) == NormLoop(cs, [], true);
    }
  }

  /** The pieces of `normpath(p).split("/")` for a path with one leading slash. */
  lemma NormpathPieces(p: string)
    requires IsAbs(p) && InitialSlashes(p) == 1
    ensures var cs := NormComponents(p);
      && Normpath(p) == "/" + Join(cs, '/')
      && Split(Normpath(p), '/') == (if cs == [] then ["", ""] else [""] + cs)
  {
    NormpathAbsolute(p);
    assert Repeat('/', 1) == "/";
    SplitRooted(NormComponents(p));
  }

  // ---------------------------------------------------------------------
  // dirname / basename

  /** One past the last `/` in `p`, or 0 when there is none (`p.rfind('/') + 1`). */
  function SlashCut(p: string): (i: nat)
    ensures i <= |p|
    decreases |p|
  {
    if p == [] then 0
    else if p[|p| - 1] == '/' then |p|
    else SlashCut(p[..|p| - 1])
  }

  /** The cut follows a `/`, and no `/` comes after it. */
  lemma {:induction false} SlashCutSpec(p: string)
    ensures var i := SlashCut(p);
      (i > 0 ==> p[i - 1] == '/') && '/' !in p[i..]
    decreases |p|
  {
    if p != [] && p[|p| - 1] != '/' {
      var init := p[..|p| - 1];
      SlashCutSpec(init);
      var i := SlashCut(init);
      assert p[i..] == init[i..] + [p[|p| - 1]];
      assert i > 0 ==> init[i - 1] == p[i - 1];
    }
  }

  /** Every `/` of `p` lies before the cut. */
  lemma {:induction false} SlashBeforeCut(p: string, k: nat)
    requires k < |p| && p[k] == '/'
    ensures k < SlashCut(p)
    decreases |p|
  {
    if p[|p| - 1] != '/' {
      var init := p[..|p| - 1];
      assert init[k] == '/';
      SlashBeforeCut(init, k);
    }
  }

  predicate AllSlashes(s: string)
  {
    forall i :: 0 <= i < |s| ==> s[i] == '/'
  }

  /** `s.rstrip('/')`. */
  function RStripSlashes(s: string): (r: string)
    ensures |r| <= |s|
  {
    if s != [] && s[|s| - 1] == '/' then RStripSlashes(s[..|s| - 1]) else s
  }

  /**
   * What `rstrip` removes is a run of slashes at the end: the result is a
   * prefix that does not end in `/`, and it is empty exactly when `s` is
   * all slashes.
   */
  lemma {:induction false} RStripSlashesSpec(s: string)
    ensures var r := RStripSlashes(s);
      && r == s[..|r|]
      && (r == [] || r[|r| - 1] != '/')
      && AllSlashes(s[|r|..])
      && (r == [] <==> AllSlashes(s))
  {
    if s != [] && s[|s| - 1] == '/' {
      var init := s[..|s| - 1];
      RStripSlashesSpec(init);
      var r := RStripSlashes(init);
      assert s[|r|..] == init[|r|..] + ['/'];
      assert r == init[..|r|] == s[..|r|];
      if r == [] {
        assert AllSlashes(s) by {
          forall i | 0 <= i < |s| ensures s[i] == '/' {
            if i < |init| { assert s[i] == init[i]; }
          }
        }
      } else {
        assert !AllSlashes(init);
        var k :| 0 <= k < |init| && init[k] != '/';
        assert s[k] == init[k];
      }
    }
  }

  /** `os.path.dirname(p)`. */
  function Dirname(p: string): string
  {
    var head := p[..SlashCut(p)];
    if head != [] && !AllSlashes(head) then RStripSlashes(head) else head
  }

  /** `os.path.basename(p)`: what follows the last `/`. */
  function Basename(p: string): (b: string)
    ensures '/' !in b
  {
    SlashCutSpec(p);
    p[SlashCut(p)..]
  }

  /** `dirname` of a path with at least one non-slash character is strictly shorter. */
  lemma DirnameShorter(p: string)
    requires !AllSlashes(p)
    ensures |Dirname(p)| < |p|
  {
    SlashCutSpec(p);
    var i := SlashCut(p);
    var head := p[..i];
    if i == |p| {
      assert head == p;
      assert p[|p| - 1] == '/';
    }
  }

  /** The `dirname` of an absolute path is absolute. */
  lemma DirnameAbsolute(p: string)
    requires IsAbs(p)
    ensures IsAbs(Dirname(p))
  {
    SlashCutSpec(p);
    var i := SlashCut(p);
    assert p[0] == '/' && p[0..] == p;
    assert i >= 1;
    var head := p[..i];
    RStripSlashesSpec(head);
    assert head[0] == '/';
  }

  // ---------------------------------------------------------------------
  // join

  /** `os.path.join(a, b)`: an absolute `b` replaces `a`; otherwise one `/` is put between them. */
  function PathJoin(a: string, b: string): string
  {
    if IsAbs(b) then b
    else if |a| == 0 || TrailingSlash(a) then a + b
    else a + "/" + b
  }

  lemma CleanEnds(c: string)
    requires CleanComponent(c)
    ensures c[0] != '/' && c[|c| - 1] != '/'
    ensures !IsAbs(c) && !TrailingSlash(c)
  {
    assert c[0] in c;
    assert c[|c| - 1] in c;
  }

  /** `os.path.join(a, *parts)`. */
  function JoinAll(a: string, parts: seq<string>): string
    decreases |parts|
  {
    if parts == [] then a else JoinAll(PathJoin(a, parts[0]), parts[1..])
  }

  /** Joining clean components onto a base that does not end in `/` puts one `/` before each. */
  lemma {:induction false} JoinAllClean(a: string, cs: seq<string>)
    requires a != "" && !TrailingSlash(a)
    requires AllClean(cs)
    ensures cs == [] ==> JoinAll(a, cs) == a
    ensures cs != [] ==> JoinAll(a, cs) == a + "/" + Join(cs, '/')
    decreases |cs|
  {
    if cs != [] {
      var c := cs[0];
      var rest := cs[1..];
      PathJoinClean(a, c);
      AllCleanTail(cs);
      JoinAllClean(a + "/" + c, rest);
      JoinAllStep(a, cs);
      JoinStep(cs, '/');
      if rest != [] {
        ConcatSlash(a, c, Join(rest, '/'));
      }
    }
  }

  lemma ConcatSlash(a: string, b: string, c: string)
    ensures a + "/" + b + "/" + c == a + "/" + (b + "/" + c)
  {
  }

  /** One clean component joined onto a base that does not end in `/`. */
  lemma PathJoinClean(a: string, c: string)
    requires a != "" && !TrailingSlash(a) && CleanComponent(c)
    ensures PathJoin(a, c) == a + "/" + c
    ensures a + "/" + c != "" && !TrailingSlash(a + "/" + c)
  {
    CleanEnds(c);
    var a' := a + "/" + c;
    assert a'[|a'| - 1] == c[|c| - 1];
  }

  lemma AllCleanTail(cs: seq<string>)
    requires cs != [] && AllClean(cs)
    ensures CleanComponent(cs[0]) && AllClean(cs[1..])
  {
    forall k | 0 <= k < |cs[1..]| ensures CleanComponent(cs[1..][k]) {
      assert cs[1..][k] == cs[k + 1];
    }
  }

  /** `os.path.join("/", "", *cs)`: the empty piece adds nothing. */
  lemma JoinAllEmptyFirst(cs: seq<string>)
    ensures JoinAll("/", [""] + cs) == JoinAll("/", cs)
  {
    assert PathJoin("/", "") == "/";
    assert ([""] + cs)[1..] == cs;
  }

  /** `os.path.join("/", *cs)` for clean components is `/` followed by them joined with `/`. */
  lemma JoinAllRoot(cs: seq<string>)
    requires cs != [] && AllClean(cs)
    ensures JoinAll("/", cs) == "/" + Join(cs, '/')
  {
    var c := cs[0];
    var rest := cs[1..];
    var a := "/" + c;
    RootJoinFirst(c);
    AllCleanTail(cs);
    JoinAllClean(a, rest);
    JoinAllStep("/", cs);
    JoinStep(cs, '/');
  }

  lemma JoinAllStep(a: string, cs: seq<string>)
    requires cs != []
    ensures JoinAll(a, cs) == JoinAll(PathJoin(a, cs[0]), cs[1..])
  {
  }

  lemma JoinStep(cs: seq<string>, sep: char)
    requires cs != []
    ensures Join(cs, sep) == if |cs| == 1 then cs[0] else cs[0] + [sep] + Join(cs[1..], sep)
  {
  }

  /** The first clean component joined onto the root. */
  lemma RootJoinFirst(c: string)
    requires CleanComponent(c)
    ensures PathJoin("/", c) == "/" + c
    ensures "/" + c != "" && !TrailingSlash("/" + c)
  {
    CleanEnds(c);
    var a := "/" + c;
    assert a[|a| - 1] == c[|c| - 1];
  }


}
