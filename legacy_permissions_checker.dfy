/**
 * The earlier `UserPermissionsChecker` of the CMIP6 tools. It differs from
 * the MIP tools' one in four ways: the cache key is the path as given
 * (before it is made absolute); a cache hit returns the stored result
 * even when it is negative; passing a `messages` list is what makes the
 * check continue past a missing permission; and the result is stored in
 * the cache only once the whole check has come back.
 */
module LegacyPermissionsChecker {
  import opened Wrappers
  import opened Text
  import opened PosixPath
  import opened PermBits
  import opened UnixFs
  import opened PermCommon

  type Cache = map<(bv3, string), bool>

  /** What a call gives back, or raises, together with the cache and `messages` as the call leaves them. */
  datatype Run = Run(result: Result<bool, CheckError>, cache: Cache, messages: Option<seq<string>>)

  /** `check_access`, with at most `fuel` nested calls. */
  function CheckRun(fs: FileSystem, cwd: string, u: Account, path: string, access: Access, whole: bool,
                    messages: Option<seq<string>>, cache: Cache, fuel: nat): Run
    decreases fuel, 0, 0
  {
    if fuel == 0 then Run(Failure(RecursionLimit), cache, messages)
    else match Normalize(access)
      case Failure(e) => Run(Failure(e), cache, messages)
      case Success(a) =>
        if (a, path) in cache then Run(Success(cache[(a, path)]), cache, messages)
        else FreshRun(fs, cwd, u, path, a, whole, messages, cache, fuel - 1)
  }

  /** The rest of `check_access` after a cache miss: the check, then storing its result under the key. */
  function FreshRun(fs: FileSystem, cwd: string, u: Account, path: string, a: bv3, whole: bool,
                    messages: Option<seq<string>>, cache: Cache, fuel: nat): Run
    decreases fuel, 2, 0
  {
    var p := AbsPath(cwd, path);
    match StatOf(fs, p)
    case None => Run(Failure(StatFailed(p)), cache, messages)
    case Some(st) =>
      var sp := SelectPerm(st, u.uid, u.gids);
      var miss := Missing(sp.0, a);
      var text := MessageText(p, u.name, a, sp.1, sp.0);
      if miss && messages.None? then Run(Failure(Denied(text)), cache, messages)
      else
        var messages1 := if miss then Some(messages.value + [text]) else messages;
        var r := AndRun(!miss, RecurseRun(fs, cwd, u, if whole then Parents(fs, p) else [], messages1, cache, fuel));
        if r.result.Failure? then r
        else Run(r.result, r.cache[(a, path) := r.result.value], r.messages)
  }

  /** The loop over the directories to recurse into, each checked for execute permission. */
  function RecurseRun(fs: FileSystem, cwd: string, u: Account, ds: seq<string>,
                      messages: Option<seq<string>>, cache: Cache, fuel: nat): Run
    decreases fuel, 1, |ds|
  {
    if ds == [] then Run(Success(true), cache, messages)
    else
      var c := CheckRun(fs, cwd, u, ds[0], StrAccess("x"), true, messages, cache, fuel);
      if c.result.Failure? then c
      else AndRun(c.result.value, RecurseRun(fs, cwd, u, ds[1..], c.messages, c.cache, fuel))
  }

  /** `errors` set by an earlier step, combined with the outcome of the remaining steps. */
  function AndRun(ok: bool, r: Run): Run
  {
    if r.result.Failure? then r else Run(Success(ok && r.result.value), r.cache, r.messages)
  }

  lemma AndRunTwice(a: bool, b: bool, r: Run)
    ensures AndRun(a, AndRun(b, r)) == AndRun(a && b, r)
  {
  }

  class Checker {
    const username: string
    const uid: int
    const gids: seq<int>
    var cache: Cache

    /** `__init__`, with the password and group database lookups given as `uid`, `gid` and `supplementary`. */
    constructor (username: string, uid: int, gid: int, supplementary: seq<int>)
      ensures this.username == username && this.uid == uid && gids == [gid] + supplementary
      ensures cache == map[]
    {
      this.username := username;
      this.uid := uid;
      this.gids := [gid] + supplementary;
      cache := map[];
    }

    function Who(): Account
    {
      Account(username, uid, gids)
    }

    /** `clear_cache`. */
    method ClearCache()
      modifies this
      ensures cache == map[]
    {
      cache := map[];
    }

    /** `check_access`; `cwd` stands for `os.getcwd()`. */
    method CheckAccess(fs: FileSystem, cwd: string, path: string, access: Access, whole: bool,
                       messages: Option<seq<string>>, fuel: nat)
      returns (r: Result<bool, CheckError>, messages': Option<seq<string>>)
      modifies this
      ensures Run(r, cache, messages') == CheckRun(fs, cwd, Who(), path, access, whole, messages, old(cache), fuel)
      decreases fuel, 0
    {
      if fuel == 0 {
        return Failure(RecursionLimit), messages;
      }
      var acc := NormalizeAccess(access);
      if acc.Failure? {
        return Failure(acc.error), messages;
      }
      var a := acc.value;
      if (a, path) in cache {
        return Success(cache[(a, path)]), messages;
      }
      r, messages' := CheckFresh(fs, cwd, path, a, whole, messages, fuel - 1);
    }

    /** The part of `check_access` that runs on a cache miss. */
    method CheckFresh(fs: FileSystem, cwd: string, path: string, a: bv3, whole: bool,
                      messages: Option<seq<string>>, fuel: nat)
      returns (r: Result<bool, CheckError>, messages': Option<seq<string>>)
      modifies this
      ensures Run(r, cache, messages') == FreshRun(fs, cwd, Who(), path, a, whole, messages, old(cache), fuel)
      decreases fuel, 1
    {
      var errors := false;
      var p := path;
      if !IsAbs(p) {
        p := AbsPath(cwd, p);
      }
      var st := StatOf(fs, p);
      if st.None? {
        return Failure(StatFailed(p)), messages;
      }
      var sp := SelectPerm(st.value, uid, gids);
      messages' := messages;
      if Missing(sp.0, a) {
        var text := BuildMessage(p, username, a, sp.1, sp.0);
        errors := true;
        if messages'.Some? {
          messages' := Some(messages'.value + [text]);
        } else {
          return Failure(Denied(text)), messages';
        }
      }
      var recurse := if whole then Parents(fs, p) else [];
      ghost var messages1 := messages';
      ghost var cache1 := cache;
      var i := 0;
      while i < |recurse|
        invariant 0 <= i <= |recurse|
        invariant AndRun(!errors, RecurseRun(fs, cwd, Who(), recurse[i..], messages', cache, fuel))
               == AndRun(!Missing(sp.0, a), RecurseRun(fs, cwd, Who(), recurse, messages1, cache1, fuel))
      {
        var ok;
        ok, messages' := CheckAccess(fs, cwd, recurse[i], StrAccess("x"), true, messages', fuel);
        if ok.Failure? {
          return ok, messages';
        }
        AndRunTwice(!errors, ok.value, RecurseRun(fs, cwd, Who(), recurse[i + 1..], messages', cache, fuel));
        if !ok.value {
          errors := true;
        }
        i := i + 1;
      }
      var v := !errors;
      cache := cache[(a, path) := v];
      return Success(v), messages';
    }
  }

  // -----------------------------------------------------------------------
  // What the cache and the list can do

  predicate CacheGrows(c: Cache, c': Cache)
  {
    forall k :: k in c ==> k in c' && c'[k] == c[k]
  }

  /** A list given stays given and only gets messages appended; no list stays no list. */
  predicate MessagesGrow(m: Option<seq<string>>, m': Option<seq<string>>)
  {
    (m.Some? <==> m'.Some?) && (m.Some? ==> m.value <= m'.value)
  }

  /** A check never changes or drops a cache entry that was there, and only appends messages. */
  lemma {:induction false} CheckGrows(fs: FileSystem, cwd: string, u: Account, path: string, access: Access,
                                      whole: bool, messages: Option<seq<string>>, cache: Cache, fuel: nat)
    ensures var r := CheckRun(fs, cwd, u, path, access, whole, messages, cache, fuel);
      CacheGrows(cache, r.cache) && MessagesGrow(messages, r.messages)
    decreases fuel, 0, 0
  {
    if fuel > 0 && Normalize(access).Success? && (Normalize(access).value, path) !in cache {
      FreshGrows(fs, cwd, u, path, Normalize(access).value, whole, messages, cache, fuel - 1);
    }
  }

  lemma {:induction false} FreshGrows(fs: FileSystem, cwd: string, u: Account, path: string, a: bv3,
                                      whole: bool, messages: Option<seq<string>>, cache: Cache, fuel: nat)
    requires (a, path) !in cache
    ensures var r := FreshRun(fs, cwd, u, path, a, whole, messages, cache, fuel);
      CacheGrows(cache, r.cache) && MessagesGrow(messages, r.messages)
    decreases fuel, 2, 0
  {
    var p := AbsPath(cwd, path);
    if StatOf(fs, p).Some? {
      var st := StatOf(fs, p).value;
      var sp := SelectPerm(st, u.uid, u.gids);
      var miss := Missing(sp.0, a);
      var text := MessageText(p, u.name, a, sp.1, sp.0);
      if !(miss && messages.None?) {
        var messages1 := if miss then Some(messages.value + [text]) else messages;
        RecurseGrows(fs, cwd, u, if whole then Parents(fs, p) else [], messages1, cache, fuel);
      }
    }
  }

  lemma {:induction false} RecurseGrows(fs: FileSystem, cwd: string, u: Account, ds: seq<string>,
                                        messages: Option<seq<string>>, cache: Cache, fuel: nat)
    ensures var r := RecurseRun(fs, cwd, u, ds, messages, cache, fuel);
      CacheGrows(cache, r.cache) && MessagesGrow(messages, r.messages)
    decreases fuel, 1, |ds|
  {
    if ds != [] {
      var c := CheckRun(fs, cwd, u, ds[0], StrAccess("x"), true, messages, cache, fuel);
      CheckGrows(fs, cwd, u, ds[0], StrAccess("x"), true, messages, cache, fuel);
      if c.result.Success? {
        RecurseGrows(fs, cwd, u, ds[1..], c.messages, c.cache, fuel);
      }
    }
  }

  /**
   * A cache hit returns the stored result, even a negative one and even
   * with no `messages` list, whatever the filesystem, the working
   * directory and `check_whole_path`.
   */
  lemma HitReturnsStored(fs: FileSystem, cwd: string, u: Account, path: string, access: Access, whole: bool,
                         messages: Option<seq<string>>, cache: Cache, fuel: nat)
    requires fuel > 0 && Normalize(access).Success? && (Normalize(access).value, path) in cache
    ensures CheckRun(fs, cwd, u, path, access, whole, messages, cache, fuel)
         == Run(Success(cache[(Normalize(access).value, path)]), cache, messages)
  {
  }

  // -----------------------------------------------------------------------
  // The two modes

  predicate NoFalse(cache: Cache)
  {
    forall k :: k in cache ==> cache[k]
  }

  /**
   * With a `messages` list no missing permission raises. Without one, a
   * check from a cache holding no negative entry raises on the first
   * missing permission, so it never returns false and stores none.
   */
  lemma {:induction false} CheckModes(fs: FileSystem, cwd: string, u: Account, path: string, access: Access,
                                      whole: bool, messages: Option<seq<string>>, cache: Cache, fuel: nat)
    ensures var r := CheckRun(fs, cwd, u, path, access, whole, messages, cache, fuel);
      && (messages.Some? ==> !(r.result.Failure? && (r.result.error.Denied? || r.result.error.CachedDenied?)))
      && (messages.None? && NoFalse(cache) ==> NoFalse(r.cache) && r.result != Success(false))
    decreases fuel, 0, 0
  {
    if fuel > 0 && Normalize(access).Success? && (Normalize(access).value, path) !in cache {
      FreshModes(fs, cwd, u, path, Normalize(access).value, whole, messages, cache, fuel - 1);
    }
  }

  lemma {:induction false} FreshModes(fs: FileSystem, cwd: string, u: Account, path: string, a: bv3,
                                      whole: bool, messages: Option<seq<string>>, cache: Cache, fuel: nat)
    ensures var r := FreshRun(fs, cwd, u, path, a, whole, messages, cache, fuel);
      && (messages.Some? ==> !(r.result.Failure? && (r.result.error.Denied? || r.result.error.CachedDenied?)))
      && (messages.None? && NoFalse(cache) ==> NoFalse(r.cache) && r.result != Success(false))
    decreases fuel, 2, 0
  {
    var p := AbsPath(cwd, path);
    if StatOf(fs, p).Some? {
      var st := StatOf(fs, p).value;
      var sp := SelectPerm(st, u.uid, u.gids);
      var miss := Missing(sp.0, a);
      var text := MessageText(p, u.name, a, sp.1, sp.0);
      if !(miss && messages.None?) {
        var messages1 := if miss then Some(messages.value + [text]) else messages;
        RecurseModes(fs, cwd, u, if whole then Parents(fs, p) else [], messages1, cache, fuel);
      }
    }
  }

  lemma {:induction false} RecurseModes(fs: FileSystem, cwd: string, u: Account, ds: seq<string>,
                                        messages: Option<seq<string>>, cache: Cache, fuel: nat)
    ensures var r := RecurseRun(fs, cwd, u, ds, messages, cache, fuel);
      && (messages.Some? ==> !(r.result.Failure? && (r.result.error.Denied? || r.result.error.CachedDenied?)))
      && (messages.None? && NoFalse(cache) ==> NoFalse(r.cache) && r.result != Success(false))
    decreases fuel, 1, |ds|
  {
    if ds != [] {
      var c := CheckRun(fs, cwd, u, ds[0], StrAccess("x"), true, messages, cache, fuel);
      CheckModes(fs, cwd, u, ds[0], StrAccess("x"), true, messages, cache, fuel);
      CheckGrows(fs, cwd, u, ds[0], StrAccess("x"), true, messages, cache, fuel);
      if c.result.Success? {
        RecurseModes(fs, cwd, u, ds[1..], c.messages, c.cache, fuel);
      }
    }
  }

  // -----------------------------------------------------------------------
  // Agreement with the cache-free verdict, while the working directory stays put

  /** Every cache entry is the cache-free verdict for its access and its path made absolute from `cwd`. */
  ghost predicate CacheSoundAt(fs: FileSystem, cwd: string, u: Account, cache: Cache)
  {
    forall k :: k in cache ==> Settled(fs, u.uid, u.gids, AbsPath(cwd, k.1), k.0, cache[k])
  }

  ghost predicate AllSettled(fs: FileSystem, u: Account, ds: seq<string>, b: bool)
  {
    exists f: nat :: VerdictAll(fs, u.uid, u.gids, ds, f) == Success(b)
  }

  /**
   * As long as every call is made from the same working directory, a
   * check of the whole path keeps the cache in agreement with the
   * cache-free verdict, and what it returns is that verdict.
   */
  lemma {:induction false} CheckSound(fs: FileSystem, cwd: string, u: Account, path: string, access: Access,
                                      messages: Option<seq<string>>, cache: Cache, fuel: nat)
    requires IsAbs(cwd) && CacheSoundAt(fs, cwd, u, cache)
    ensures var r := CheckRun(fs, cwd, u, path, access, true, messages, cache, fuel);
      CacheSoundAt(fs, cwd, u, r.cache)
      && (r.result.Success? ==>
            Normalize(access).Success?
            && Settled(fs, u.uid, u.gids, AbsPath(cwd, path), Normalize(access).value, r.result.value))
    decreases fuel, 0, 0
  {
    if fuel > 0 && Normalize(access).Success? {
      var a := Normalize(access).value;
      if (a, path) in cache {
        assert CheckRun(fs, cwd, u, path, access, true, messages, cache, fuel) == Run(Success(cache[(a, path)]), cache, messages);
      } else {
        FreshSound(fs, cwd, u, path, a, messages, cache, fuel - 1);
        assert CheckRun(fs, cwd, u, path, access, true, messages, cache, fuel) == FreshRun(fs, cwd, u, path, a, true, messages, cache, fuel - 1);
      }
    }
  }

  lemma {:induction false} FreshSound(fs: FileSystem, cwd: string, u: Account, path: string, a: bv3,
                                      messages: Option<seq<string>>, cache: Cache, fuel: nat)
    requires IsAbs(cwd) && CacheSoundAt(fs, cwd, u, cache)
    ensures var r := FreshRun(fs, cwd, u, path, a, true, messages, cache, fuel);
      CacheSoundAt(fs, cwd, u, r.cache)
      && (r.result.Success? ==> Settled(fs, u.uid, u.gids, AbsPath(cwd, path), a, r.result.value))
    decreases fuel, 2, 0
  {
    var p := AbsPath(cwd, path);
    AbsPathAbsolute(cwd, path);
    if StatOf(fs, p).Some? {
      var st := StatOf(fs, p).value;
      var sp := SelectPerm(st, u.uid, u.gids);
      var miss := Missing(sp.0, a);
      var text := MessageText(p, u.name, a, sp.1, sp.0);
      if !(miss && messages.None?) {
        var messages1 := if miss then Some(messages.value + [text]) else messages;
        var ds := Parents(fs, p);
        ParentsAbsolute(fs, p);
        var r := RecurseRun(fs, cwd, u, ds, messages1, cache, fuel);
        RecurseSound(fs, cwd, u, ds, messages1, cache, fuel);
        if r.result.Success? {
          var f: nat :| VerdictAll(fs, u.uid, u.gids, ds, f) == Success(r.result.value);
          assert Verdict(fs, u.uid, u.gids, p, a, f + 1) == Success(!miss && r.result.value);
        }
      }
    }
  }

  lemma {:induction false} RecurseSound(fs: FileSystem, cwd: string, u: Account, ds: seq<string>,
                                        messages: Option<seq<string>>, cache: Cache, fuel: nat)
    requires IsAbs(cwd) && AllAbsolute(ds) && CacheSoundAt(fs, cwd, u, cache)
    ensures var r := RecurseRun(fs, cwd, u, ds, messages, cache, fuel);
      CacheSoundAt(fs, cwd, u, r.cache) && (r.result.Success? ==> AllSettled(fs, u, ds, r.result.value))
    decreases fuel, 1, |ds|
  {
    if ds == [] {
      assert VerdictAll(fs, u.uid, u.gids, ds, 0) == Success(true);
    } else {
      var c := CheckRun(fs, cwd, u, ds[0], StrAccess("x"), true, messages, cache, fuel);
      CheckSound(fs, cwd, u, ds[0], StrAccess("x"), messages, cache, fuel);
      if c.result.Success? {
        ExecuteString();
        assert AbsPath(cwd, ds[0]) == ds[0];
        var rest := RecurseRun(fs, cwd, u, ds[1..], c.messages, c.cache, fuel);
        assert AllAbsolute(ds[1..]) by {
          forall i | 0 <= i < |ds[1..]| ensures IsAbs(ds[1..][i]) {
            assert ds[1..][i] == ds[i + 1];
          }
        }
        RecurseSound(fs, cwd, u, ds[1..], c.messages, c.cache, fuel);
        if rest.result.Success? {
          var f0: nat :| Verdict(fs, u.uid, u.gids, ds[0], ExecuteBit, f0) == Success(c.result.value);
          var f1: nat :| VerdictAll(fs, u.uid, u.gids, ds[1..], f1) == Success(rest.result.value);
          var f := if f0 <= f1 then f1 else f0;
          VerdictMonotone(fs, u.uid, u.gids, ds[0], ExecuteBit, f0, f);
          VerdictAllMonotone(fs, u.uid, u.gids, ds[1..], f1, f);
          assert VerdictAll(fs, u.uid, u.gids, ds, f) == Success(c.result.value && rest.result.value);
        }
      }
    }
  }

  /**
   * Conversely, when the cache-free verdict `b` is reached within the
   * depth available, a check of the whole path returns `b`: always with a
   * `messages` list, and for `b` true also without one.
   */
  lemma {:induction false} CheckComplete(fs: FileSystem, cwd: string, u: Account, path: string, access: Access,
                                         messages: Option<seq<string>>, cache: Cache, fuel: nat, f: nat, b: bool)
    requires IsAbs(cwd) && CacheSoundAt(fs, cwd, u, cache)
    requires Normalize(access).Success?
    requires Verdict(fs, u.uid, u.gids, AbsPath(cwd, path), Normalize(access).value, f) == Success(b)
    requires f <= fuel && (messages.Some? || b)
    ensures CheckRun(fs, cwd, u, path, access, true, messages, cache, fuel).result == Success(b)
    decreases fuel, 0, 0
  {
    var key := (Normalize(access).value, path);
    if key in cache {
      SettledUnique(fs, u.uid, u.gids, AbsPath(cwd, path), key.0, cache[key], b);
    } else {
      FreshComplete(fs, cwd, u, path, key.0, messages, cache, fuel - 1, f, b);
    }
  }

  lemma {:induction false} FreshComplete(fs: FileSystem, cwd: string, u: Account, path: string, a: bv3,
                                         messages: Option<seq<string>>, cache: Cache, fuel: nat, f: nat, b: bool)
    requires IsAbs(cwd) && CacheSoundAt(fs, cwd, u, cache)
    requires Verdict(fs, u.uid, u.gids, AbsPath(cwd, path), a, f) == Success(b)
    requires f <= fuel + 1 && (messages.Some? || b)
    ensures FreshRun(fs, cwd, u, path, a, true, messages, cache, fuel).result == Success(b)
    decreases fuel, 2, 0
  {
    var p := AbsPath(cwd, path);
    AbsPathAbsolute(cwd, path);
    var st := StatOf(fs, p).value;
    var sp := SelectPerm(st, u.uid, u.gids);
    var miss := Missing(sp.0, a);
    var text := MessageText(p, u.name, a, sp.1, sp.0);
    var messages1 := if miss then Some(messages.value + [text]) else messages;
    var ds := Parents(fs, p);
    ParentsAbsolute(fs, p);
    var v := VerdictAll(fs, u.uid, u.gids, ds, f - 1);
    RecurseComplete(fs, cwd, u, ds, messages1, cache, fuel, f - 1, v.value);
  }

  lemma {:induction false} RecurseComplete(fs: FileSystem, cwd: string, u: Account, ds: seq<string>,
                                           messages: Option<seq<string>>, cache: Cache, fuel: nat, f: nat, b: bool)
    requires IsAbs(cwd) && AllAbsolute(ds) && CacheSoundAt(fs, cwd, u, cache)
    requires VerdictAll(fs, u.uid, u.gids, ds, f) == Success(b)
    requires f <= fuel && (messages.Some? || b)
    ensures RecurseRun(fs, cwd, u, ds, messages, cache, fuel).result == Success(b)
    decreases fuel, 1, |ds|
  {
    if ds != [] {
      var v := Verdict(fs, u.uid, u.gids, ds[0], ExecuteBit, f);
      ExecuteString();
      assert AbsPath(cwd, ds[0]) == ds[0];
      CheckComplete(fs, cwd, u, ds[0], StrAccess("x"), messages, cache, fuel, f, v.value);
      var c := CheckRun(fs, cwd, u, ds[0], StrAccess("x"), true, messages, cache, fuel);
      CheckSound(fs, cwd, u, ds[0], StrAccess("x"), messages, cache, fuel);
      CheckGrows(fs, cwd, u, ds[0], StrAccess("x"), true, messages, cache, fuel);
      assert AllAbsolute(ds[1..]) by {
        forall i | 0 <= i < |ds[1..]| ensures IsAbs(ds[1..][i]) {
          assert ds[1..][i] == ds[i + 1];
        }
      }
      var w := VerdictAll(fs, u.uid, u.gids, ds[1..], f);
      RecurseComplete(fs, cwd, u, ds[1..], c.messages, c.cache, fuel, f, w.value);
    }
  }

  // -----------------------------------------------------------------------
  // The cache key is the path as given

  /**
   * After a relative path `f` is found to miss access `a` from one working
   * directory, the same relative path checked from another working
   * directory gets the stored negative result, although the file it now
   * names grants the access and no `messages` list is given.
   */
  lemma StaleRelativeKey(fs: FileSystem, u: Account, d1: string, d2: string, f: string, a: bv3)
    requires CleanComponent(d1) && CleanComponent(d2) && CleanComponent(f)
    requires StatOf(fs, "/" + d1 + "/" + f).Some?
    requires Missing(SelectPerm(StatOf(fs, "/" + d1 + "/" + f).value, u.uid, u.gids).0, a)
    requires StatOf(fs, "/" + d2 + "/" + f).Some?
    requires !Missing(SelectPerm(StatOf(fs, "/" + d2 + "/" + f).value, u.uid, u.gids).0, a)
    ensures var first := CheckRun(fs, "/" + d1, u, f, IntAccess(a as int), false, Some([]), map[], 1);
      && first.result == Success(false)
      && CheckRun(fs, "/" + d2, u, f, IntAccess(a as int), false, None, first.cache, 1).result == Success(false)
  {
    assert Normalize(IntAccess(a as int)) == Success(a);
    AbsPathChild(d1, f);
    var p := "/" + d1 + "/" + f;
    var st := StatOf(fs, p).value;
    var sp := SelectPerm(st, u.uid, u.gids);
    var text := MessageText(p, u.name, a, sp.1, sp.0);
    var none: seq<string> := [];
    assert none + [text] == [text];
    assert RecurseRun(fs, "/" + d1, u, [], Some([text]), map[], 0) == Run(Success(true), map[], Some([text]));
    assert FreshRun(fs, "/" + d1, u, f, a, false, Some([]), map[], 0) == Run(Success(false), map[(a, f) := false], Some([text]));
    HitReturnsStored(fs, "/" + d2, u, f, IntAccess(a as int), false, None, map[(a, f) := false], 1);
  }
}
