/**
 * The permission-string helpers both permission checkers define
 * identically: `_perm_codes`, `_perm_str_to_int` and `_perm_int_to_str`.
 * An access level is a 3-bit value: r = 4, w = 2, x = 1.
 */
module PermBits {
  import opened Wrappers

  /** `_perm_codes`. */
  function Code(c: char): Option<bv3>
  {
    if c == 'r' then Some(4)
    else if c == 'w' then Some(2)
    else if c == 'x' then Some(1)
    else None
  }

  /**
   * What `_perm_str_to_int(s)` computes: None (the `ValueError`) when a
   * character has no code, otherwise the OR of the codes, which has each
   * bit set exactly when its letter occurs in `s`.
   */
  function StrBits(s: string): (r: Option<bv3>)
    ensures r.Some? <==> forall i :: 0 <= i < |s| ==> Code(s[i]).Some?
    ensures r.Some? ==>
      (r.value & 4 != 0 <==> 'r' in s) && (r.value & 2 != 0 <==> 'w' in s) && (r.value & 1 != 0 <==> 'x' in s)
    decreases |s|
  {
    if s == [] then Some(0)
    else
      var init := s[..|s| - 1];
      var c := Code(s[|s| - 1]);
      var rest := StrBits(init);
      assert s == init + [s[|s| - 1]];
      assert forall ch :: ch in s <==> ch in init || ch == s[|s| - 1];
      if c.None? || rest.None? then None else Some(rest.value | c.value)
  }

  /** `_perm_str_to_int`: OR the code of each character into the value, left to right. */
  method PermStrToInt(s: string) returns (r: Option<bv3>)
    ensures r == StrBits(s)
  {
    var val: bv3 := 0;
    var i := 0;
    while i < |s|
      invariant 0 <= i <= |s|
      invariant StrBits(s[..i]) == Some(val)
    {
      var c := Code(s[i]);
      if c.None? {
        assert !(forall j :: 0 <= j < |s| ==> Code(s[j]).Some?);
        return None;
      }
      assert s[..i + 1][..i] == s[..i];
      val := val | c.value;
      i := i + 1;
    }
    assert s[..i] == s;
    return Some(val);
  }

  /** What `_perm_int_to_str(v)` computes: the letters of the set bits, in `rwx` order. */
  function BitsStr(v: bv3): string
  {
    (if v & 4 != 0 then "r" else "") + (if v & 2 != 0 then "w" else "") + (if v & 1 != 0 then "x" else "")
  }

  /** The letters of the first `i` positions of `rwx` whose bit is set in `v`. */
  function BitsStrPrefix(v: bv3, i: nat): string
    requires i <= 3
  {
    if i == 0 then ""
    else BitsStrPrefix(v, i - 1) + (if v & Code("rwx"[i - 1]).value != 0 then ["rwx"[i - 1]] else "")
  }

  /** `_perm_int_to_str`: append each letter of `rwx` whose bit is set. */
  method PermIntToStr(v: bv3) returns (s: string)
    ensures s == BitsStr(v)
  {
    s := "";
    var i := 0;
    while i < 3
      invariant 0 <= i <= 3
      invariant s == BitsStrPrefix(v, i)
    {
      var c := "rwx"[i];
      if v & Code(c).value != 0 {
        s := s + [c];
      }
      i := i + 1;
    }
    BitsStrPrefixAll(v);
  }

  /** All three positions give the letters of `BitsStr`. */
  lemma BitsStrPrefixAll(v: bv3)
    ensures BitsStrPrefix(v, 3) == BitsStr(v)
  {
    assert BitsStrPrefix(v, 1) == (if v & 4 != 0 then "r" else "");
    assert BitsStrPrefix(v, 2) == BitsStrPrefix(v, 1) + (if v & 2 != 0 then "w" else "");
  }

  lemma BitsDetermined(a: bv3, b: bv3)
    requires (a & 4 != 0 <==> b & 4 != 0) && (a & 2 != 0 <==> b & 2 != 0) && (a & 1 != 0 <==> b & 1 != 0)
    ensures a == b
  {
  }

  /** Reading back the letters written for `v` gives `v`. */
  lemma PermRoundTrip(v: bv3)
    ensures StrBits(BitsStr(v)) == Some(v)
  {
    var s := BitsStr(v);
    BitsStrLetters(v);
    forall i | 0 <= i < |s| ensures Code(s[i]).Some? {
      assert s[i] in s;
    }
    BitsDetermined(StrBits(s).value, v);
  }

  /** Only which letters occur matters, not their order or repetition. */
  lemma PermOrderFree(s: string, t: string)
    requires forall c :: c in s <==> c in t
    ensures StrBits(s) == StrBits(t)
  {
    assert (forall i :: 0 <= i < |s| ==> Code(s[i]).Some?) <==> (forall c :: c in s ==> Code(c).Some?);
    assert (forall i :: 0 <= i < |t| ==> Code(t[i]).Some?) <==> (forall c :: c in t ==> Code(c).Some?);
    if StrBits(s).Some? && StrBits(t).Some? {
      BitsDetermined(StrBits(s).value, StrBits(t).value);
    }
  }

  /** Writing the value of an access string lists its letters once each, in `rwx` order. */
  lemma PermCanonical(s: string)
    requires StrBits(s).Some?
    ensures forall c :: c in BitsStr(StrBits(s).value) <==> c in s
    ensures StrBits(BitsStr(StrBits(s).value)) == StrBits(s)
  {
    var v := StrBits(s).value;
    PermRoundTrip(v);
    BitsStrLetters(v);
    forall c | c in s ensures c == 'r' || c == 'w' || c == 'x' {
      var i :| 0 <= i < |s| && s[i] == c;
      assert Code(s[i]).Some?;
    }
  }

  /** The letters written for `v` are those of its set bits. */
  lemma BitsStrLetters(v: bv3)
    ensures forall c :: c in BitsStr(v) <==> (c == 'r' && v & 4 != 0) || (c == 'w' && v & 2 != 0) || (c == 'x' && v & 1 != 0)
  {
  }
}

/**
 * The part of a Unix filesystem the checkers look at: `os.stat` (which
 * follows links), `os.path.islink` / `os.readlink`, and the permission
 * bits of a mode. Paths are strings as Python sees them.
 */
module UnixFs {
  import opened Wrappers
  import opened Text
  import opened PosixPath
  import opened PermBits

  datatype Stat = Stat(uid: int, gid: int, mode: nat)

  /** What the filesystem answers for one path: the `os.stat` result (None when it raises) and the link target. */
  datatype Entry = Entry(stat: Option<Stat>, link: Option<string>)

  type FileSystem = map<string, Entry>

  function StatOf(fs: FileSystem, p: string): Option<Stat>
  {
    if p in fs then fs[p].stat else None
  }

  function LinkOf(fs: FileSystem, p: string): Option<string>
  {
    if p in fs then fs[p].link else None
  }

  /** Which of the three permission triplets applies. */
  datatype PermType = User | Group | World

  /** The mode bits `(mode >> shift) & 7`. */
  function Triplet(mode: nat, shift: nat): bv3
  {
    if shift == 6 then ((mode / 64) % 8) as bv3
    else if shift == 3 then ((mode / 8) % 8) as bv3
    else (mode % 8) as bv3
  }

  /** The owner bits for the owner, else the group bits for a member of the file's group, else the world bits. */
  function SelectPerm(st: Stat, uid: int, gids: seq<int>): (r: (bv3, PermType))
    ensures r.1 == User <==> st.uid == uid
    ensures r.1 == Group <==> st.uid != uid && st.gid in gids
    ensures r.0 == Triplet(st.mode, if r.1 == User then 6 else if r.1 == Group then 3 else 0)
  {
    if st.uid == uid then (Triplet(st.mode, 6), User)
    else if st.gid in gids then (Triplet(st.mode, 3), Group)
    else (Triplet(st.mode, 0), World)
  }

  /** `perm & access != access`. */
  predicate Missing(perm: bv3, access: bv3)
  {
    perm & access != access
  }

  /** A miss is exactly a requested letter whose bit is absent. */
  lemma MissingLetter(perm: bv3, access: bv3)
    ensures Missing(perm, access) <==>
      (access & 4 != 0 && perm & 4 == 0) || (access & 2 != 0 && perm & 2 == 0) || (access & 1 != 0 && perm & 1 == 0)
  {
  }

  /** `_abs_path(start, path)`. */
  function AbsPath(start: string, path: string): string
  {
    if IsAbs(path) then path else Normpath(PathJoin(start, path))
  }

  lemma AbsPathAbsolute(start: string, path: string)
    requires IsAbs(start)
    ensures IsAbs(AbsPath(start, path))
  {
    if !IsAbs(path) {
      var j := PathJoin(start, path);
      assert j[..1] == start[..1];
      NormpathAbsolute(j);
      var n := Normpath(j);
      assert n[0] == '/';
    }
  }

  /** A clean name taken relative to a clean top-level directory. */
  lemma AbsPathChild(c1: string, c2: string)
    requires CleanComponent(c1) && CleanComponent(c2)
    ensures AbsPath("/" + c1, c2) == "/" + c1 + "/" + c2
  {
    CleanEnds(c1);
    CleanEnds(c2);
    var start := "/" + c1;
    assert start[|start| - 1] == c1[|c1| - 1];
    assert PathJoin(start, c2) == "/" + c1 + "/" + c2;
    var cs := [c1, c2];
    assert Join(cs, '/') == c1 + "/" + c2 by {
      assert cs[1..] == [c2];
    }
    assert AllClean(cs);
    assert "/" + Join(cs, '/') == "/" + c1 + "/" + c2;
    NormpathRooted(cs);
  }

  /**
   * The directories whose execute bit is checked for `p`: its parent, and
   * for a link also the parent of the link target (taken relative to the
   * parent), none for `/`.
   */
  function Parents(fs: FileSystem, p: string): seq<string>
  {
    if IsRoot(p) then []
    else
      var parent := Dirname(p);
      match LinkOf(fs, p)
      case None => [parent]
      case Some(target) => [parent, Dirname(AbsPath(parent, target))]
  }

  predicate AllAbsolute(ds: seq<string>)
  {
    forall i :: 0 <= i < |ds| ==> IsAbs(ds[i])
  }

  lemma ParentsAbsolute(fs: FileSystem, p: string)
    requires IsAbs(p)
    ensures AllAbsolute(Parents(fs, p))
  {
    if !IsRoot(p) {
      var parent := Dirname(p);
      DirnameAbsolute(p);
      if LinkOf(fs, p).Some? {
        AbsPathAbsolute(parent, LinkOf(fs, p).value);
        DirnameAbsolute(AbsPath(parent, LinkOf(fs, p).value));
      }
    }
  }

  const ExecuteBit: bv3 := 1

  datatype VerdictError = NoStat(path: string) | TooDeep

  /**
   * Without any cache: whether `p` and every directory checked above it
   * grant their access (`access` on `p`, execute on the directories), or
   * an error when a stat fails or the recursion gets deeper than `fuel`.
   */
  function Verdict(fs: FileSystem, uid: int, gids: seq<int>, p: string, access: bv3, fuel: nat): Result<bool, VerdictError>
    decreases fuel, 0
  {
    if fuel == 0 then Failure(TooDeep)
    else match StatOf(fs, p)
      case None => Failure(NoStat(p))
      case Some(st) =>
        var miss := Missing(SelectPerm(st, uid, gids).0, access);
        var r := VerdictAll(fs, uid, gids, Parents(fs, p), fuel - 1);
        if r.Failure? then r else Success(!miss && r.value)
  }

  function VerdictAll(fs: FileSystem, uid: int, gids: seq<int>, ds: seq<string>, fuel: nat): Result<bool, VerdictError>
    decreases fuel, 1, |ds|
  {
    if ds == [] then Success(true)
    else
      var v := Verdict(fs, uid, gids, ds[0], ExecuteBit, fuel);
      if v.Failure? then v
      else
        var rest := VerdictAll(fs, uid, gids, ds[1..], fuel);
        if rest.Failure? then rest else Success(v.value && rest.value)
  }

  /** More fuel does not change a verdict that was reached. */
  lemma {:induction false} VerdictMonotone(fs: FileSystem, uid: int, gids: seq<int>, p: string, access: bv3, f: nat, g: nat)
    requires f <= g && Verdict(fs, uid, gids, p, access, f).Success?
    ensures Verdict(fs, uid, gids, p, access, g) == Verdict(fs, uid, gids, p, access, f)
    decreases f, 0
  {
    var st := StatOf(fs, p).value;
    VerdictAllMonotone(fs, uid, gids, Parents(fs, p), f - 1, g - 1);
  }

  lemma {:induction false} VerdictAllMonotone(fs: FileSystem, uid: int, gids: seq<int>, ds: seq<string>, f: nat, g: nat)
    requires f <= g && VerdictAll(fs, uid, gids, ds, f).Success?
    ensures VerdictAll(fs, uid, gids, ds, g) == VerdictAll(fs, uid, gids, ds, f)
    decreases f, 1, |ds|
  {
    if ds != [] {
      VerdictMonotone(fs, uid, gids, ds[0], ExecuteBit, f, g);
      VerdictAllMonotone(fs, uid, gids, ds[1..], f, g);
    }
  }

  /** The verdict for `p` is `b` for some recursion depth. */
  ghost predicate Settled(fs: FileSystem, uid: int, gids: seq<int>, p: string, access: bv3, b: bool)
  {
    exists f: nat :: Verdict(fs, uid, gids, p, access, f) == Success(b)
  }

  /** Two depths that both reach a verdict reach the same one. */
  lemma SettledUnique(fs: FileSystem, uid: int, gids: seq<int>, p: string, access: bv3, b: bool, c: bool)
    requires Settled(fs, uid, gids, p, access, b) && Settled(fs, uid, gids, p, access, c)
    ensures b == c
  {
    var f: nat :| Verdict(fs, uid, gids, p, access, f) == Success(b);
    var g: nat :| Verdict(fs, uid, gids, p, access, g) == Success(c);
    if f <= g {
      VerdictMonotone(fs, uid, gids, p, access, f, g);
    } else {
      VerdictMonotone(fs, uid, gids, p, access, g, f);
    }
  }

  /** A verdict for `p` is false exactly when `p` misses its access or some checked directory is false. */
  lemma VerdictFalseMeansMiss(fs: FileSystem, uid: int, gids: seq<int>, p: string, access: bv3, f: nat)
    requires Verdict(fs, uid, gids, p, access, f).Success?
    ensures var st := StatOf(fs, p).value;
      Verdict(fs, uid, gids, p, access, f).value == false <==>
        Missing(SelectPerm(st, uid, gids).0, access)
        || exists i :: 0 <= i < |Parents(fs, p)| && Verdict(fs, uid, gids, Parents(fs, p)[i], ExecuteBit, f - 1) == Success(false)
  {
    VerdictAllFalse(fs, uid, gids, Parents(fs, p), f - 1);
  }

  lemma {:induction false} VerdictAllFalse(fs: FileSystem, uid: int, gids: seq<int>, ds: seq<string>, f: nat)
    requires VerdictAll(fs, uid, gids, ds, f).Success?
    ensures VerdictAll(fs, uid, gids, ds, f).value == false <==>
      exists i :: 0 <= i < |ds| && Verdict(fs, uid, gids, ds[i], ExecuteBit, f) == Success(false)
    ensures forall i :: 0 <= i < |ds| ==> Verdict(fs, uid, gids, ds[i], ExecuteBit, f).Success?
    decreases |ds|
  {
    if ds != [] {
      VerdictAllFalse(fs, uid, gids, ds[1..], f);
      assert forall i :: 1 <= i < |ds| ==> ds[i] == ds[1..][i - 1];
    }
  }
}

/**
 * What both `UserPermissionsChecker` classes share around a check: the
 * accepted forms of the `access` argument, the user being checked, and
 * the message written for a missing permission.
 */
module PermCommon {
  import opened Wrappers
  import opened PermBits
  import opened UnixFs

  /** The `access` argument: an `int`, a `str`, or a value of any other type. */
  datatype Access = IntAccess(i: int) | StrAccess(s: string) | OtherAccess

  /** The account a checker was made for: name, uid, and primary plus supplementary gids. */
  datatype Account = Account(name: string, uid: int, gids: seq<int>)

  datatype CheckError =
    | BadAccess                   // the `ValueError` for an access out of range, of a bad character or type
    | StatFailed(path: string)    // `os.stat` raised
    | Denied(message: string)     // a missing permission with no way to continue
    | CachedDenied(path: string)  // a cached negative result with no way to continue
    | RecursionLimit              // the recursion went deeper than Python allows

  /** The access bits a check asks for, or `BadAccess`. */
  function Normalize(access: Access): (r: Result<bv3, CheckError>)
    ensures r.Failure? ==> r == Failure(BadAccess)
    ensures access.OtherAccess? ==> r.Failure?
  {
    match access
    case IntAccess(i) => if 0 <= i <= 7 then Success(i as bv3) else Failure(BadAccess)
    case StrAccess(s) => if StrBits(s).Some? then Success(StrBits(s).value) else Failure(BadAccess)
    case OtherAccess => Failure(BadAccess)
  }

  /** The validation at the head of `check_access`. */
  method NormalizeAccess(access: Access) returns (r: Result<bv3, CheckError>)
    ensures r == Normalize(access)
  {
    match access {
      case IntAccess(i) =>
        r := if 0 <= i <= 7 then Success(i as bv3) else Failure(BadAccess);
      case StrAccess(s) =>
        var b := PermStrToInt(s);
        r := if b.Some? then Success(b.value) else Failure(BadAccess);
      case OtherAccess =>
        r := Failure(BadAccess);
    }
  }

  /** An access string and the integer of the same bits ask for the same check. */
  lemma StrIntAgree(v: bv3)
    ensures Normalize(StrAccess(BitsStr(v))) == Normalize(IntAccess(v as int)) == Success(v)
  {
    PermRoundTrip(v);
  }

  /** Integers in 0..7 are accepted as they are, and nothing outside. */
  lemma IntRange(i: int)
    ensures Normalize(IntAccess(i)).Success? <==> 0 <= i <= 7
    ensures Normalize(IntAccess(i)).Success? ==> Normalize(IntAccess(i)).value as int == i
  {
  }

  lemma ExecuteString()
    ensures Normalize(StrAccess("x")) == Success(ExecuteBit)
  {
    assert StrBits("x"[..0]) == Some(0);
  }

  function PermTypeName(t: PermType): string
  {
    match t
    case User => "user"
    case Group => "group"
    case World => "world"
  }

  /** The text of the message for a missing permission on `path`. */
  function MessageText(path: string, user: string, wanted: bv3, t: PermType, current: bv3): string
  {
    var have := if |BitsStr(current)| == 0 then "(none)" else BitsStr(current);
    ("missing permissions:\n   on " + path + "\n")
      + ("   user '" + user + "' does not have '" + BitsStr(wanted) + "' permission")
      + (" (current permissions for " + PermTypeName(t) + " are '" + have + "')\n")
  }

  /** The current-permissions field: the letters of the bits, or `(none)` when there are none. */
  lemma CurrentField(current: bv3)
    ensures |BitsStr(current)| == 0 <==> current == 0
    ensures current != 0 ==> BitsStr(current) != "(none)" && StrBits(BitsStr(current)) == Some(current)
  {
    PermRoundTrip(current);
  }

  /**
   * The message opens with its heading and the path, names the user and
   * the letters of the wanted bits, and closes with the permission type
   * and the current letters, `(none)` exactly when no bit is set; the
   * letters read back to the bits they stand for.
   */
  lemma MessageTextFields(path: string, user: string, wanted: bv3, t: PermType, current: bv3)
    ensures var m := MessageText(path, user, wanted, t, current);
      && Text.StartsWith(m, "missing permissions:\n   on " + path + "\n")
      && Text.Infix(m, "   user '" + user + "' does not have '" + BitsStr(wanted) + "' permission")
      && Text.EndsWith(m, " (current permissions for " + PermTypeName(t) + " are '"
                          + (if current == 0 then "(none)" else BitsStr(current)) + "')\n")
      && StrBits(BitsStr(wanted)) == Some(wanted)
      && (current != 0 ==> BitsStr(current) != "(none)" && StrBits(BitsStr(current)) == Some(current))
  {
    var m := MessageText(path, user, wanted, t, current);
    var head := "missing permissions:\n   on " + path + "\n";
    var who := "   user '" + user + "' does not have '" + BitsStr(wanted) + "' permission";
    CurrentField(current);
    var tail := " (current permissions for " + PermTypeName(t) + " are '"
                + (if current == 0 then "(none)" else BitsStr(current)) + "')\n";
    assert m == head + who + tail;
    Text.PrefixOfAppend(head, who + tail);
    Text.InfixOfAppend(head, who, tail);
    Text.SuffixOfAppend(head + who, tail);
    PermRoundTrip(wanted);
  }

  /** The message built by `check_access`, with the letters written by `_perm_int_to_str`. */
  method BuildMessage(path: string, user: string, wanted: bv3, t: PermType, current: bv3) returns (m: string)
    ensures m == MessageText(path, user, wanted, t, current)
  {
    var w := PermIntToStr(wanted);
    var c := PermIntToStr(current);
    if |c| == 0 {
      c := "(none)";
    }
    m := ("missing permissions:\n   on " + path + "\n")
      + ("   user '" + user + "' does not have '" + w + "' permission")
      + (" (current permissions for " + PermTypeName(t) + " are '" + c + "')\n");
  }
}
