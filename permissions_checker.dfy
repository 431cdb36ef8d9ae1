/**
 * The `UserPermissionsChecker` of the MIP tools: checks that a user could
 * open a path with a given access, and has execute permission on every
 * directory above it (following one level of link at each step), caching
 * each result under the access and the absolute path.
 *
 * Each step of a check is stated twice: as the functions `CheckRun`,
 * `UncachedRun` and `RecurseRun`, which thread the cache and the two
 * optional lists through the recursion, and as the methods of `Checker`,
 * which update the cache field in place and are proved to agree with them.
 * The lists the caller passes in are modelled as values the methods give
 * back extended.
 */
module PermissionsChecker {
  import opened Wrappers
  import opened Text
  import opened PosixPath
  import opened PermBits
  import opened UnixFs
  import opened PermCommon

  type Cache = map<(bv3, string), bool>

  /** The `messages` and `permissions` lists a caller may pass; None is "not a list". */
  datatype Log = Log(messages: Option<seq<string>>, permissions: Option<seq<(string, Stat)>>)

  /** What a call gives back, or raises, together with the cache and the lists as the call leaves them. */
  datatype Run = Run(result: Result<bool, CheckError>, cache: Cache, log: Log)

  /** Appends the message and the `(path, stat)` pair to whichever lists were given. */
  function Record(log: Log, text: string, p: string, st: Stat): Log
  {
    Log(if log.messages.Some? then Some(log.messages.value + [text]) else None,
        if log.permissions.Some? then Some(log.permissions.value + [(p, st)]) else None)
  }

  /** `errors` set by an earlier step, combined with the outcome of the remaining steps. */
  function AndRun(ok: bool, r: Run): Run
  {
    if r.result.Failure? then r else Run(Success(ok && r.result.value), r.cache, r.log)
  }

  /** Reading the cache entry: a negative one raises unless the caller continues on errors. */
  function Lookup(key: (bv3, string), coe: bool, cache: Cache, log: Log): Run
    requires key in cache
  {
    if !coe && !cache[key] then Run(Failure(CachedDenied(key.1)), cache, log)
    else Run(Success(cache[key]), cache, log)
  }

  /** `check_access`, with at most `fuel` nested calls. */
  function CheckRun(fs: FileSystem, cwd: string, u: Account, path: string, access: Access, coe: bool, checkDir: bool,
                    log: Log, cache: Cache, fuel: nat): Run
    decreases fuel, 0, 0
  {
    if fuel == 0 then Run(Failure(RecursionLimit), cache, log)
    else match Normalize(access)
      case Failure(e) => Run(Failure(e), cache, log)
      case Success(a) => CheckKey(fs, cwd, u, (a, AbsPath(cwd, path)), coe, checkDir, log, cache, fuel - 1)
  }

  /** The cached check of one access and absolute path: the stored result, or the uncached check, whose result is then stored. */
  function CheckKey(fs: FileSystem, cwd: string, u: Account, key: (bv3, string), coe: bool, checkDir: bool,
                    log: Log, cache: Cache, fuel: nat): Run
    decreases fuel, 3, 0
  {
    if key in cache then Lookup(key, coe, cache, log)
    else
      var c := UncachedRun(fs, cwd, u, key.1, key.0, coe, checkDir, log, cache, fuel);
      if c.result.Failure? then c
      else Lookup(key, coe, c.cache[key := c.result.value], c.log)
  }

  /** `_check_access` on an absolute path. */
  function UncachedRun(fs: FileSystem, cwd: string, u: Account, p: string, a: bv3, coe: bool, checkDir: bool,
                       log: Log, cache: Cache, fuel: nat): Run
    decreases fuel, 2, 0
  {
    match StatOf(fs, p)
    case None => Run(Failure(StatFailed(p)), cache, log)
    case Some(st) =>
      var sp := SelectPerm(st, u.uid, u.gids);
      var miss := Missing(sp.0, a);
      var text := MessageText(p, u.name, a, sp.1, sp.0);
      var log1 := if miss then Record(log, text, p, st) else log;
      if miss && !coe then Run(Failure(Denied(text)), cache, log1)
      else AndRun(!miss, RecurseRun(fs, cwd, u, if checkDir then Parents(fs, p) else [], coe, log1, cache, fuel))
  }

  /** The loop over the directories to recurse into, each checked for execute permission. */
  function RecurseRun(fs: FileSystem, cwd: string, u: Account, ds: seq<string>, coe: bool,
                      log: Log, cache: Cache, fuel: nat): Run
    decreases fuel, 1, |ds|
  {
    if ds == [] then Run(Success(true), cache, log)
    else
      var c := CheckRun(fs, cwd, u, ds[0], StrAccess("x"), coe, true, log, cache, fuel);
      if c.result.Failure? then c
      else AndRun(c.result.value, RecurseRun(fs, cwd, u, ds[1..], coe, c.log, c.cache, fuel))
  }

  lemma CheckRunKey(fs: FileSystem, cwd: string, u: Account, path: string, access: Access, coe: bool, checkDir: bool,
                    log: Log, cache: Cache, fuel: nat)
    requires fuel > 0 && Normalize(access).Success?
    ensures CheckRun(fs, cwd, u, path, access, coe, checkDir, log, cache, fuel)
      == CheckKey(fs, cwd, u, (Normalize(access).value, AbsPath(cwd, path)), coe, checkDir, log, cache, fuel - 1)
  {
  }

  lemma AndRunTwice(a: bool, b: bool, r: Run)
    ensures AndRun(a, AndRun(b, r)) == AndRun(a && b, r)
  {
  }

  class Checker {
    const username: string
    const uid: int
    const gids: seq<int>
    var cache: Cache

    /** `__init__`, with the password and group database lookups given as `uid`, `gid` and `supplementary`. */
    constructor (username: string, uid: int, gid: int, supplementary: seq<int>)
      ensures this.username == username && this.uid == uid && gids == [gid] + supplementary
      ensures cache == map[]
    {
      this.username := username;
      this.uid := uid;
      this.gids := [gid] + supplementary;
      cache := map[];
    }

    function Who(): Account
    {
      Account(username, uid, gids)
    }

    /** `clear_cache`. */
    method ClearCache()
      modifies this
      ensures cache == map[]
    {
      cache := map[];
    }

    /** `check_access`; `cwd` stands for `os.getcwd()`. */
    method CheckAccess(fs: FileSystem, cwd: string, path: string, access: Access, coe: bool, checkDir: bool,
                       log: Log, fuel: nat)
      returns (r: Result<bool, CheckError>, log': Log)
      modifies this
      ensures Run(r, cache, log') == CheckRun(fs, cwd, Who(), path, access, coe, checkDir, log, old(cache), fuel)
      decreases fuel, 0
    {
      if fuel == 0 {
        return Failure(RecursionLimit), log;
      }
      var a := NormalizeAccess(access);
      if a.Failure? {
        return Failure(a.error), log;
      }
      var p := path;
      if !IsAbs(p) {
        p := AbsPath(cwd, p);
      }
      var key := (a.value, p);
      log' := log;
      if key !in cache {
        var c;
        c, log' := CheckUncached(fs, cwd, p, a.value, coe, checkDir, log, fuel - 1);
        if c.Failure? {
          return c, log';
        }
        cache := cache[key := c.value];
      }
      var v := cache[key];
      if !coe && !v {
        return Failure(CachedDenied(p)), log';
      }
      return Success(v), log';
    }

    /** `_check_access`. */
    method CheckUncached(fs: FileSystem, cwd: string, p: string, a: bv3, coe: bool, checkDir: bool,
                         log: Log, fuel: nat)
      returns (r: Result<bool, CheckError>, log': Log)
      modifies this
      ensures Run(r, cache, log') == UncachedRun(fs, cwd, Who(), p, a, coe, checkDir, log, old(cache), fuel)
      decreases fuel, 1
    {
      var st := StatOf(fs, p);
      if st.None? {
        return Failure(StatFailed(p)), log;
      }
      var sp := SelectPerm(st.value, uid, gids);
      var errors := false;
      log' := log;
      if Missing(sp.0, a) {
        var text := BuildMessage(p, username, a, sp.1, sp.0);
        errors := true;
        if log'.messages.Some? {
          log' := log'.(messages := Some(log'.messages.value + [text]));
        }
        if log'.permissions.Some? {
          log' := log'.(permissions := Some(log'.permissions.value + [(p, st.value)]));
        }
        if !coe {
          return Failure(Denied(text)), log';
        }
      }
      var recurse := if checkDir then Parents(fs, p) else [];
      ghost var log1 := log';
      ghost var cache1 := cache;
      var i := 0;
      while i < |recurse|
        invariant 0 <= i <= |recurse|
        invariant AndRun(!errors, RecurseRun(fs, cwd, Who(), recurse[i..], coe, log', cache, fuel))
               == AndRun(!Missing(sp.0, a), RecurseRun(fs, cwd, Who(), recurse, coe, log1, cache1, fuel))
      {
        var ok;
        ok, log' := CheckAccess(fs, cwd, recurse[i], StrAccess("x"), coe, true, log', fuel);
        if ok.Failure? {
          return ok, log';
        }
        AndRunTwice(!errors, ok.value, RecurseRun(fs, cwd, Who(), recurse[i + 1..], coe, log', cache, fuel));
        if !ok.value {
          errors := true;
        }
        i := i + 1;
      }
      return Success(!errors), log';
    }
  }

  // -----------------------------------------------------------------------
  // What the cache and the lists can do

  predicate CacheGrows(c: Cache, c': Cache)
  {
    forall k :: k in c ==> k in c' && c'[k] == c[k]
  }

  /** Each list given stays given and only gets entries appended; both get one entry per miss. */
  predicate LogGrows(l: Log, l': Log)
  {
    && (l.messages.Some? <==> l'.messages.Some?)
    && (l.permissions.Some? <==> l'.permissions.Some?)
    && (l.messages.Some? ==> l.messages.value <= l'.messages.value)
    && (l.permissions.Some? ==> l.permissions.value <= l'.permissions.value)
    && (l.messages.Some? && l.permissions.Some? ==>
          |l'.messages.value| - |l.messages.value| == |l'.permissions.value| - |l.permissions.value|)
  }

  lemma GrowsTrans(c: Cache, c': Cache, c'': Cache, l: Log, l': Log, l'': Log)
    requires CacheGrows(c, c') && CacheGrows(c', c'') && LogGrows(l, l') && LogGrows(l', l'')
    ensures CacheGrows(c, c'') && LogGrows(l, l'')
  {
  }

  /** A check never changes or drops a cache entry that was there, and only appends to the lists. */
  lemma {:induction false} CheckGrows(fs: FileSystem, cwd: string, u: Account, path: string, access: Access, coe: bool,
                                      checkDir: bool, log: Log, cache: Cache, fuel: nat)
    ensures var r := CheckRun(fs, cwd, u, path, access, coe, checkDir, log, cache, fuel);
      CacheGrows(cache, r.cache) && LogGrows(log, r.log)
    decreases fuel, 0, 0
  {
    if fuel > 0 && Normalize(access).Success? {
      CheckRunKey(fs, cwd, u, path, access, coe, checkDir, log, cache, fuel);
      KeyGrows(fs, cwd, u, (Normalize(access).value, AbsPath(cwd, path)), coe, checkDir, log, cache, fuel - 1);
    }
  }

  lemma {:induction false} KeyGrows(fs: FileSystem, cwd: string, u: Account, key: (bv3, string), coe: bool,
                                    checkDir: bool, log: Log, cache: Cache, fuel: nat)
    ensures var r := CheckKey(fs, cwd, u, key, coe, checkDir, log, cache, fuel);
      CacheGrows(cache, r.cache) && LogGrows(log, r.log)
    decreases fuel, 3, 0
  {
    if key !in cache {
      UncachedGrows(fs, cwd, u, key.1, key.0, coe, checkDir, log, cache, fuel);
    }
  }

  lemma {:induction false} UncachedGrows(fs: FileSystem, cwd: string, u: Account, p: string, a: bv3, coe: bool,
                                         checkDir: bool, log: Log, cache: Cache, fuel: nat)
    ensures var r := UncachedRun(fs, cwd, u, p, a, coe, checkDir, log, cache, fuel);
      CacheGrows(cache, r.cache) && LogGrows(log, r.log)
    decreases fuel, 2, 0
  {
    if StatOf(fs, p).Some? {
      var st := StatOf(fs, p).value;
      var sp := SelectPerm(st, u.uid, u.gids);
      var miss := Missing(sp.0, a);
      var text := MessageText(p, u.name, a, sp.1, sp.0);
      var log1 := if miss then Record(log, text, p, st) else log;
      if !(miss && !coe) {
        RecurseGrows(fs, cwd, u, if checkDir then Parents(fs, p) else [], coe, log1, cache, fuel);
      }
    }
  }

  lemma {:induction false} RecurseGrows(fs: FileSystem, cwd: string, u: Account, ds: seq<string>, coe: bool,
                                        log: Log, cache: Cache, fuel: nat)
    ensures var r := RecurseRun(fs, cwd, u, ds, coe, log, cache, fuel);
      CacheGrows(cache, r.cache) && LogGrows(log, r.log)
    decreases fuel, 1, |ds|
  {
    if ds != [] {
      var c := CheckRun(fs, cwd, u, ds[0], StrAccess("x"), coe, true, log, cache, fuel);
      CheckGrows(fs, cwd, u, ds[0], StrAccess("x"), coe, true, log, cache, fuel);
      if c.result.Success? {
        var rest := RecurseRun(fs, cwd, u, ds[1..], coe, c.log, c.cache, fuel);
        RecurseGrows(fs, cwd, u, ds[1..], coe, c.log, c.cache, fuel);
        GrowsTrans(cache, c.cache, rest.cache, log, c.log, rest.log);
      }
    }
  }

  /** A cache hit returns the stored result at once (raising for a negative one unless continuing), whatever the filesystem and `check_dir_access`. */
  lemma CachedShortCut(fs: FileSystem, cwd: string, u: Account, path: string, access: Access, coe: bool, checkDir: bool,
                       log: Log, cache: Cache, fuel: nat)
    requires fuel > 0 && Normalize(access).Success?
    requires (Normalize(access).value, AbsPath(cwd, path)) in cache
    ensures var key := (Normalize(access).value, AbsPath(cwd, path));
      var r := CheckRun(fs, cwd, u, path, access, coe, checkDir, log, cache, fuel);
      r.cache == cache && r.log == log
      && (cache[key] ==> r.result == Success(true))
      && (!cache[key] ==> r.result == (if coe then Success(false) else Failure(CachedDenied(key.1))))
  {
  }

  // -----------------------------------------------------------------------
  // The two modes

  /** With `continue_on_error` no permission problem raises; without it a check that returns has found none. */
  lemma {:induction false} CheckModes(fs: FileSystem, cwd: string, u: Account, path: string, access: Access, coe: bool,
                                      checkDir: bool, log: Log, cache: Cache, fuel: nat)
    ensures var r := CheckRun(fs, cwd, u, path, access, coe, checkDir, log, cache, fuel);
      && (coe ==> !(r.result.Failure? && (r.result.error.Denied? || r.result.error.CachedDenied?)))
      && (!coe && r.result.Success? ==> r.result.value)
    decreases fuel, 0, 0
  {
    if fuel > 0 && Normalize(access).Success? {
      CheckRunKey(fs, cwd, u, path, access, coe, checkDir, log, cache, fuel);
      KeyModes(fs, cwd, u, (Normalize(access).value, AbsPath(cwd, path)), coe, checkDir, log, cache, fuel - 1);
    }
  }

  lemma {:induction false} KeyModes(fs: FileSystem, cwd: string, u: Account, key: (bv3, string), coe: bool,
                                    checkDir: bool, log: Log, cache: Cache, fuel: nat)
    ensures var r := CheckKey(fs, cwd, u, key, coe, checkDir, log, cache, fuel);
      && (coe ==> !(r.result.Failure? && (r.result.error.Denied? || r.result.error.CachedDenied?)))
      && (!coe && r.result.Success? ==> r.result.value)
    decreases fuel, 3, 0
  {
    if key !in cache {
      UncachedModes(fs, cwd, u, key.1, key.0, coe, checkDir, log, cache, fuel);
    }
  }

  lemma {:induction false} UncachedModes(fs: FileSystem, cwd: string, u: Account, p: string, a: bv3, coe: bool,
                                         checkDir: bool, log: Log, cache: Cache, fuel: nat)
    ensures var r := UncachedRun(fs, cwd, u, p, a, coe, checkDir, log, cache, fuel);
      && (coe ==> !(r.result.Failure? && (r.result.error.Denied? || r.result.error.CachedDenied?)))
      && (!coe && r.result.Success? ==> r.result.value)
    decreases fuel, 2, 0
  {
    if StatOf(fs, p).Some? {
      var st := StatOf(fs, p).value;
      var sp := SelectPerm(st, u.uid, u.gids);
      var miss := Missing(sp.0, a);
      var text := MessageText(p, u.name, a, sp.1, sp.0);
      var log1 := if miss then Record(log, text, p, st) else log;
      if !(miss && !coe) {
        RecurseModes(fs, cwd, u, if checkDir then Parents(fs, p) else [], coe, log1, cache, fuel);
      }
    }
  }

  lemma {:induction false} RecurseModes(fs: FileSystem, cwd: string, u: Account, ds: seq<string>, coe: bool,
                                        log: Log, cache: Cache, fuel: nat)
    ensures var r := RecurseRun(fs, cwd, u, ds, coe, log, cache, fuel);
      && (coe ==> !(r.result.Failure? && (r.result.error.Denied? || r.result.error.CachedDenied?)))
      && (!coe && r.result.Success? ==> r.result.value)
    decreases fuel, 1, |ds|
  {
    if ds != [] {
      var c := CheckRun(fs, cwd, u, ds[0], StrAccess("x"), coe, true, log, cache, fuel);
      CheckModes(fs, cwd, u, ds[0], StrAccess("x"), coe, true, log, cache, fuel);
      if c.result.Success? {
        RecurseModes(fs, cwd, u, ds[1..], coe, c.log, c.cache, fuel);
      }
    }
  }

  // -----------------------------------------------------------------------
  // Agreement with the cache-free verdict

  /** Every cache entry is the cache-free verdict for its access and path. */
  ghost predicate CacheSound(fs: FileSystem, u: Account, cache: Cache)
  {
    forall k :: k in cache ==> Settled(fs, u.uid, u.gids, k.1, k.0, cache[k])
  }

  ghost predicate AllSettled(fs: FileSystem, u: Account, ds: seq<string>, b: bool)
  {
    exists f: nat :: VerdictAll(fs, u.uid, u.gids, ds, f) == Success(b)
  }

  /**
   * A check of the whole path, starting from a cache that agrees with the
   * cache-free verdict, leaves a cache that still agrees, and what it
   * returns is that verdict.
   */
  lemma {:induction false} CheckSound(fs: FileSystem, cwd: string, u: Account, path: string, access: Access, coe: bool,
                                      log: Log, cache: Cache, fuel: nat)
    requires IsAbs(cwd) && CacheSound(fs, u, cache)
    ensures var r := CheckRun(fs, cwd, u, path, access, coe, true, log, cache, fuel);
      CacheSound(fs, u, r.cache)
      && (r.result.Success? ==>
            Normalize(access).Success?
            && Settled(fs, u.uid, u.gids, AbsPath(cwd, path), Normalize(access).value, r.result.value))
    decreases fuel, 0, 0
  {
    if fuel > 0 && Normalize(access).Success? {
      AbsPathAbsolute(cwd, path);
      KeySound(fs, cwd, u, Normalize(access).value, AbsPath(cwd, path), coe, log, cache, fuel - 1);
    }
  }

  lemma {:induction false} KeySound(fs: FileSystem, cwd: string, u: Account, a: bv3, p: string, coe: bool,
                                    log: Log, cache: Cache, fuel: nat)
    requires IsAbs(cwd) && IsAbs(p) && CacheSound(fs, u, cache)
    ensures var r := CheckKey(fs, cwd, u, (a, p), coe, true, log, cache, fuel);
      CacheSound(fs, u, r.cache) && (r.result.Success? ==> Settled(fs, u.uid, u.gids, p, a, r.result.value))
    decreases fuel, 3, 0
  {
    if (a, p) !in cache {
      UncachedSound(fs, cwd, u, p, a, coe, log, cache, fuel);
    }
  }

  lemma {:induction false} UncachedSound(fs: FileSystem, cwd: string, u: Account, p: string, a: bv3, coe: bool,
                                         log: Log, cache: Cache, fuel: nat)
    requires IsAbs(cwd) && IsAbs(p) && CacheSound(fs, u, cache)
    ensures var r := UncachedRun(fs, cwd, u, p, a, coe, true, log, cache, fuel);
      CacheSound(fs, u, r.cache) && (r.result.Success? ==> Settled(fs, u.uid, u.gids, p, a, r.result.value))
    decreases fuel, 2, 0
  {
    if StatOf(fs, p).Some? {
      var st := StatOf(fs, p).value;
      var sp := SelectPerm(st, u.uid, u.gids);
      var miss := Missing(sp.0, a);
      var text := MessageText(p, u.name, a, sp.1, sp.0);
      var log1 := if miss then Record(log, text, p, st) else log;
      if !(miss && !coe) {
        var ds := Parents(fs, p);
        ParentsAbsolute(fs, p);
        var r := RecurseRun(fs, cwd, u, ds, coe, log1, cache, fuel);
        RecurseSound(fs, cwd, u, ds, coe, log1, cache, fuel);
        if r.result.Success? {
          var f: nat :| VerdictAll(fs, u.uid, u.gids, ds, f) == Success(r.result.value);
          assert Verdict(fs, u.uid, u.gids, p, a, f + 1) == Success(!miss && r.result.value);
        }
      }
    }
  }

  lemma {:induction false} RecurseSound(fs: FileSystem, cwd: string, u: Account, ds: seq<string>, coe: bool,
                                        log: Log, cache: Cache, fuel: nat)
    requires IsAbs(cwd) && AllAbsolute(ds) && CacheSound(fs, u, cache)
    ensures var r := RecurseRun(fs, cwd, u, ds, coe, log, cache, fuel);
      CacheSound(fs, u, r.cache) && (r.result.Success? ==> AllSettled(fs, u, ds, r.result.value))
    decreases fuel, 1, |ds|
  {
    if ds == [] {
      assert VerdictAll(fs, u.uid, u.gids, ds, 0) == Success(true);
    } else {
      var c := CheckRun(fs, cwd, u, ds[0], StrAccess("x"), coe, true, log, cache, fuel);
      CheckSound(fs, cwd, u, ds[0], StrAccess("x"), coe, log, cache, fuel);
      if c.result.Success? {
        ExecuteString();
        assert AbsPath(cwd, ds[0]) == ds[0];
        var rest := RecurseRun(fs, cwd, u, ds[1..], coe, c.log, c.cache, fuel);
        assert AllAbsolute(ds[1..]) by {
          forall i | 0 <= i < |ds[1..]| ensures IsAbs(ds[1..][i]) {
            assert ds[1..][i] == ds[i + 1];
          }
        }
        RecurseSound(fs, cwd, u, ds[1..], coe, c.log, c.cache, fuel);
        if rest.result.Success? {
          var f0: nat :| Verdict(fs, u.uid, u.gids, ds[0], ExecuteBit, f0) == Success(c.result.value);
          var f1: nat :| VerdictAll(fs, u.uid, u.gids, ds[1..], f1) == Success(rest.result.value);
          var f := if f0 <= f1 then f1 else f0;
          VerdictMonotone(fs, u.uid, u.gids, ds[0], ExecuteBit, f0, f);
          VerdictAllMonotone(fs, u.uid, u.gids, ds[1..], f1, f);
          assert VerdictAll(fs, u.uid, u.gids, ds, f) == Success(c.result.value && rest.result.value);
        }
      }
    }
  }

  /**
   * Conversely, when the cache-free verdict `b` is reached within the
   * depth available, a check of the whole path returns `b`: always when
   * continuing on errors, and for `b` true also when not.
   */
  lemma {:induction false} CheckComplete(fs: FileSystem, cwd: string, u: Account, path: string, access: Access, coe: bool,
                                         log: Log, cache: Cache, fuel: nat, f: nat, b: bool)
    requires IsAbs(cwd) && CacheSound(fs, u, cache)
    requires Normalize(access).Success?
    requires Verdict(fs, u.uid, u.gids, AbsPath(cwd, path), Normalize(access).value, f) == Success(b)
    requires f <= fuel && (coe || b)
    ensures CheckRun(fs, cwd, u, path, access, coe, true, log, cache, fuel).result == Success(b)
    decreases fuel, 0, 0
  {
    AbsPathAbsolute(cwd, path);
    CheckRunKey(fs, cwd, u, path, access, coe, true, log, cache, fuel);
    KeyComplete(fs, cwd, u, (Normalize(access).value, AbsPath(cwd, path)), coe, log, cache, fuel - 1, f, b);
  }

  lemma {:induction false} KeyComplete(fs: FileSystem, cwd: string, u: Account, key: (bv3, string), coe: bool,
                                       log: Log, cache: Cache, fuel: nat, f: nat, b: bool)
    requires IsAbs(cwd) && IsAbs(key.1) && CacheSound(fs, u, cache)
    requires Verdict(fs, u.uid, u.gids, key.1, key.0, f) == Success(b)
    requires f <= fuel + 1 && (coe || b)
    ensures CheckKey(fs, cwd, u, key, coe, true, log, cache, fuel).result == Success(b)
    decreases fuel, 3, 0
  {
    if key in cache {
      SettledUnique(fs, u.uid, u.gids, key.1, key.0, cache[key], b);
    } else {
      UncachedComplete(fs, cwd, u, key.1, key.0, coe, log, cache, fuel, f, b);
    }
  }

  lemma {:induction false} UncachedComplete(fs: FileSystem, cwd: string, u: Account, p: string, a: bv3, coe: bool,
                                            log: Log, cache: Cache, fuel: nat, f: nat, b: bool)
    requires IsAbs(cwd) && IsAbs(p) && CacheSound(fs, u, cache)
    requires Verdict(fs, u.uid, u.gids, p, a, f) == Success(b)
    requires f <= fuel + 1 && (coe || b)
    ensures UncachedRun(fs, cwd, u, p, a, coe, true, log, cache, fuel).result == Success(b)
    decreases fuel, 2, 0
  {
    var st := StatOf(fs, p).value;
    var sp := SelectPerm(st, u.uid, u.gids);
    var miss := Missing(sp.0, a);
    var text := MessageText(p, u.name, a, sp.1, sp.0);
    var log1 := if miss then Record(log, text, p, st) else log;
    var ds := Parents(fs, p);
    ParentsAbsolute(fs, p);
    var v := VerdictAll(fs, u.uid, u.gids, ds, f - 1);
    RecurseComplete(fs, cwd, u, ds, coe, log1, cache, fuel, f - 1, v.value);
  }

  lemma {:induction false} RecurseComplete(fs: FileSystem, cwd: string, u: Account, ds: seq<string>, coe: bool,
                                           log: Log, cache: Cache, fuel: nat, f: nat, b: bool)
    requires IsAbs(cwd) && AllAbsolute(ds) && CacheSound(fs, u, cache)
    requires VerdictAll(fs, u.uid, u.gids, ds, f) == Success(b)
    requires f <= fuel && (coe || b)
    ensures RecurseRun(fs, cwd, u, ds, coe, log, cache, fuel).result == Success(b)
    decreases fuel, 1, |ds|
  {
    if ds != [] {
      var v := Verdict(fs, u.uid, u.gids, ds[0], ExecuteBit, f);
      ExecuteString();
      assert AbsPath(cwd, ds[0]) == ds[0];
      CheckComplete(fs, cwd, u, ds[0], StrAccess("x"), coe, log, cache, fuel, f, v.value);
      var c := CheckRun(fs, cwd, u, ds[0], StrAccess("x"), coe, true, log, cache, fuel);
      CheckSound(fs, cwd, u, ds[0], StrAccess("x"), coe, log, cache, fuel);
      assert AllAbsolute(ds[1..]) by {
        forall i | 0 <= i < |ds[1..]| ensures IsAbs(ds[1..][i]) {
          assert ds[1..][i] == ds[i + 1];
        }
      }
      var w := VerdictAll(fs, u.uid, u.gids, ds[1..], f);
      RecurseComplete(fs, cwd, u, ds[1..], coe, c.log, c.cache, fuel, f, w.value);
    }
  }

  /**
   * From an empty cache, continuing on errors, a check of the whole path
   * returns true exactly when neither the path nor any directory checked
   * above it misses its permission, once the depth suffices.
   */
  lemma ContinueIsVerdict(fs: FileSystem, cwd: string, u: Account, path: string, access: Access, log: Log,
                          fuel: nat, f: nat)
    requires IsAbs(cwd) && Normalize(access).Success?
    requires Verdict(fs, u.uid, u.gids, AbsPath(cwd, path), Normalize(access).value, f).Success?
    requires f <= fuel
    ensures CheckRun(fs, cwd, u, path, access, true, true, log, map[], fuel).result
         == Success(Verdict(fs, u.uid, u.gids, AbsPath(cwd, path), Normalize(access).value, f).value)
  {
    var b := Verdict(fs, u.uid, u.gids, AbsPath(cwd, path), Normalize(access).value, f).value;
    CheckComplete(fs, cwd, u, path, access, true, log, map[], fuel, f, b);
  }

  /** Without continuing, a check that returns normally has found the whole path accessible. */
  lemma StrictReturnsMeansGranted(fs: FileSystem, cwd: string, u: Account, path: string, access: Access, log: Log,
                                  cache: Cache, fuel: nat)
    requires IsAbs(cwd) && CacheSound(fs, u, cache)
    requires CheckRun(fs, cwd, u, path, access, false, true, log, cache, fuel).result.Success?
    ensures CheckRun(fs, cwd, u, path, access, false, true, log, cache, fuel).result == Success(true)
    ensures Settled(fs, u.uid, u.gids, AbsPath(cwd, path), Normalize(access).value, true)
  {
    CheckModes(fs, cwd, u, path, access, false, true, log, cache, fuel);
    CheckSound(fs, cwd, u, path, access, false, log, cache, fuel);
  }

  /** A fresh miss appends its message and its `(path, stat)` pair before anything else is checked. */
  lemma MissRecordedFirst(fs: FileSystem, cwd: string, u: Account, p: string, a: bv3, coe: bool, checkDir: bool,
                          log: Log, cache: Cache, fuel: nat)
    requires StatOf(fs, p).Some? && log.messages.Some? && log.permissions.Some?
    requires Missing(SelectPerm(StatOf(fs, p).value, u.uid, u.gids).0, a)
    ensures var r := UncachedRun(fs, cwd, u, p, a, coe, checkDir, log, cache, fuel);
      var sp := SelectPerm(StatOf(fs, p).value, u.uid, u.gids);
      && r.log.messages.Some? && r.log.permissions.Some?
      && |r.log.messages.value| > |log.messages.value| && |r.log.permissions.value| > |log.permissions.value|
      && r.log.messages.value[|log.messages.value|] == MessageText(p, u.name, a, sp.1, sp.0)
      && r.log.permissions.value[|log.permissions.value|] == (p, StatOf(fs, p).value)
      && (!coe ==> r.result == Failure(Denied(MessageText(p, u.name, a, sp.1, sp.0))))
  {
    var st := StatOf(fs, p).value;
    var sp := SelectPerm(st, u.uid, u.gids);
    var log1 := Record(log, MessageText(p, u.name, a, sp.1, sp.0), p, st);
    if coe {
      RecurseGrows(fs, cwd, u, if checkDir then Parents(fs, p) else [], coe, log1, cache, fuel);
    }
  }

  /**
   * The cache key is the absolute path: after a relative path `f` is found
   * to miss access `a` from one working directory, the same relative path
   * checked from another working directory is checked afresh and passes
   * when the file it now names grants the access.
   */
  lemma RelativeKeyPerDirectory(fs: FileSystem, u: Account, d1: string, d2: string, f: string, a: bv3)
    requires CleanComponent(d1) && CleanComponent(d2) && CleanComponent(f)
    requires StatOf(fs, "/" + d1 + "/" + f).Some?
    requires Missing(SelectPerm(StatOf(fs, "/" + d1 + "/" + f).value, u.uid, u.gids).0, a)
    requires StatOf(fs, "/" + d2 + "/" + f).Some?
    requires !Missing(SelectPerm(StatOf(fs, "/" + d2 + "/" + f).value, u.uid, u.gids).0, a)
    ensures var first := CheckRun(fs, "/" + d1, u, f, IntAccess(a as int), true, false, Log(Some([]), None), map[], 1);
      && first.result == Success(false)
      && CheckRun(fs, "/" + d2, u, f, IntAccess(a as int), false, false, Log(None, None), first.cache, 1).result == Success(true)
  {
    assert Normalize(IntAccess(a as int)) == Success(a);
    AbsPathChild(d1, f);
    AbsPathChild(d2, f);
    var p1 := "/" + d1 + "/" + f;
    var p2 := "/" + d2 + "/" + f;
    assert p1 != p2;
    var st := StatOf(fs, p1).value;
    var sp := SelectPerm(st, u.uid, u.gids);
    var text := MessageText(p1, u.name, a, sp.1, sp.0);
    var none: seq<string> := [];
    assert none + [text] == [text];
    var log1 := Log(Some([text]), None);
    assert RecurseRun(fs, "/" + d1, u, [], true, log1, map[], 0) == Run(Success(true), map[], log1);
    assert UncachedRun(fs, "/" + d1, u, p1, a, true, false, Log(Some([]), None), map[], 0) == Run(Success(false), map[], log1);
    var cache1 := map[(a, p1) := false];
    assert RecurseRun(fs, "/" + d2, u, [], false, Log(None, None), cache1, 0) == Run(Success(true), cache1, Log(None, None));
    assert UncachedRun(fs, "/" + d2, u, p2, a, false, false, Log(None, None), cache1, 0) == Run(Success(true), cache1, Log(None, None));
  }
}
